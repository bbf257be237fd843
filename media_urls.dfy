/**
 * Media URL routing: the media base address and how a media path is resolved
 * against it.
 *
 * The `/i` patterns of the routing code fold ASCII letters only, which is what
 * `StartsWithIgnoringCase` does.
 */
module MediaUrls {
  import opened Common
  import opened Text

  /** The base read from the page: `data-media-base`, else `window.MM_MEDIA_BASE`, else empty. */
  function RawBase(attr: Option<string>, global: Option<string>): (r: string)
    ensures attr.Some? && attr.value != [] ==> r == attr.value
    ensures !(attr.Some? && attr.value != []) && global.Some? ==> r == global.value
    ensures !(attr.Some? && attr.value != []) && global.None? ==> r == []
  {
    if attr.Some? && attr.value != [] then attr.value
    else if global.Some? then global.value
    else []
  }

  /**
   * normalizeBase: empty for a blank base, otherwise the trimmed base with a
   * slash appended when it does not already end in one.
   */
  function NormalizeBase(b: string): (r: string)
    ensures r == [] <==> AllWhitespace(b)
    ensures r != [] ==> StartsWith(r, Trim(b)) && EndsWith(r, "/")
    ensures r != [] ==> |r| == |Trim(b)| || |r| == |Trim(b)| + 1
    ensures r != [] && EndsWith(Trim(b), "/") ==> r == Trim(b)
    ensures r != [] ==> !IsWhitespace(r[0])
  {
    var t := Trim(b);
    if t == [] then []
    else if t[|t| - 1] == '/' then t
    else t + "/"
  }

  /** Normalizing a normalized base changes nothing. */
  lemma NormalizeBaseIdempotent(b: string)
    ensures NormalizeBase(NormalizeBase(b)) == NormalizeBase(b)
  {
    var r := NormalizeBase(b);
    if r != [] {
      assert r[|r| - 1] == '/';
      TrimmedIsFixed(r);
    }
  }

  /** `/^https?:\/\//i`: an http or https address. */
  predicate IsHttpUrl(p: string)
  {
    StartsWithIgnoringCase(p, "http://") || StartsWithIgnoringCase(p, "https://")
  }

  /** The paths resolve leaves alone: absolute and protocol-relative addresses, `data:` and `blob:`. */
  predicate IsPassThrough(p: string)
  {
    || IsHttpUrl(p)
    || StartsWith(p, "//")
    || StartsWithIgnoringCase(p, "data:")
    || StartsWithIgnoringCase(p, "blob:")
  }

  predicate HasDotSlash(p: string)
  {
    |p| >= 2 && p[0] == '.' && p[1] == '/'
  }

  /** The first position at or after `i` that does not hold a slash. */
  function SkipSlashes(p: string, i: nat): (j: nat)
    requires i <= |p|
    ensures i <= j <= |p| && (j == |p| || p[j] != '/')
    ensures forall t :: i <= t < j ==> p[t] == '/'
    decreases |p| - i
  {
    if i < |p| && p[i] == '/' then SkipSlashes(p, i + 1) else i
  }

  /** `.replace(/^\/+/, "")`: the path without its leading slashes. */
  function StripLeadingSlashes(p: string): (r: string)
    ensures EndsWith(p, r) && (r == [] || r[0] != '/')
    ensures forall i :: 0 <= i < |p| - |r| ==> p[i] == '/'
  {
    p[SkipSlashes(p, 0)..]
  }

  /**
   * The cleaned path: one leading `./` removed, then every leading slash. What is
   * removed is that `./` (when present) followed by slashes only.
   */
  function Clean(p: string): (r: string)
    ensures EndsWith(p, r) && (r == [] || r[0] != '/')
    ensures HasDotSlash(p) ==> |r| <= |p| - 2
    ensures forall i :: (if HasDotSlash(p) then 2 else 0) <= i < |p| - |r| ==> p[i] == '/'
  {
    p[SkipSlashes(p, if HasDotSlash(p) then 2 else 0)..]
  }

  /**
   * resolve against the normalized base `base`: empty stays empty, pass-through
   * addresses are kept, no base keeps the path, and otherwise the cleaned path
   * is appended to the base.
   */
  function Resolve(base: string, path: string): (r: string)
    ensures r == [] <==> path == []
    ensures path != [] && IsPassThrough(path) ==> r == path
    ensures base == [] ==> r == path
    ensures path != [] && !IsPassThrough(path) && base != [] ==>
      StartsWith(r, base) && r[|base|..] == Clean(path)
  {
    if path == [] then []
    else if IsPassThrough(path) then path
    else if base == [] then path
    else base + Clean(path)
  }

  /** With no base, resolving is the identity, so resolving twice is resolving once. */
  lemma ResolveWithoutBase(path: string)
    ensures Resolve([], path) == path
    ensures Resolve([], Resolve([], path)) == Resolve([], path)
  {
  }

  /** Under an http(s) base every resolved path is an address resolve leaves alone. */
  lemma ResolvedUnderHttpBase(base: string, path: string)
    requires IsHttpUrl(base)
    ensures Resolve(base, path) == [] || IsPassThrough(Resolve(base, path))
  {
    if path != [] && !IsPassThrough(path) {
      var c := Clean(path);
      if StartsWithIgnoringCase(base, "http://") {
        PrefixExtends(base, c, "http://");
      } else {
        PrefixExtends(base, c, "https://");
      }
    }
  }

  /** Under an http(s) base, resolving an already resolved path changes nothing. */
  lemma {:induction false} ResolveIdempotentUnderHttpBase(base: string, path: string)
    requires IsHttpUrl(base)
    ensures Resolve(base, Resolve(base, path)) == Resolve(base, path)
  {
    ResolvedUnderHttpBase(base, path);
  }

  /** The bases resolving twice is harmless under: none, or an http(s) address. */
  predicate StableBase(base: string)
  {
    base == [] || IsHttpUrl(base)
  }

  lemma ResolveIdempotent(base: string, path: string)
    requires StableBase(base)
    ensures Resolve(base, Resolve(base, path)) == Resolve(base, path)
  {
    if base != [] {
      ResolveIdempotentUnderHttpBase(base, path);
    }
  }

  /** A case-insensitive prefix fixes the folded first character. */
  lemma FirstCharOfPrefix(s: string, lowerPrefix: string)
    requires |lowerPrefix| > 0 && StartsWithIgnoringCase(s, lowerPrefix)
    ensures LowerChar(s[0]) == lowerPrefix[0]
  {
    assert LowerAscii(s[..|lowerPrefix|])[0] == LowerChar(s[0]);
  }

  /** A path whose first character is none of `h`, `d`, `b` (in either case) or `/` is not passed through. */
  lemma NotPassThroughByFirstChar(p: string)
    requires |p| > 0 && p[0] != '/'
    requires LowerChar(p[0]) != 'h' && LowerChar(p[0]) != 'd' && LowerChar(p[0]) != 'b'
    ensures !IsPassThrough(p)
  {
    if StartsWithIgnoringCase(p, "http://") { FirstCharOfPrefix(p, "http://"); }
    if StartsWithIgnoringCase(p, "https://") { FirstCharOfPrefix(p, "https://"); }
    if StartsWithIgnoringCase(p, "data:") { FirstCharOfPrefix(p, "data:"); }
    if StartsWithIgnoringCase(p, "blob:") { FirstCharOfPrefix(p, "blob:"); }
  }

  lemma ResolvePlainName(base: string, name: string)
    requires base != [] && |name| > 0 && name[0] != '/' && name[0] != '.'
    requires LowerChar(name[0]) != 'h' && LowerChar(name[0]) != 'd' && LowerChar(name[0]) != 'b'
    ensures Resolve(base, name) == base + name
  {
    NotPassThroughByFirstChar(name);
  }

  /** What resolve passes through starts with a slash or, case folded, with `h`, `d` or `b`. */
  lemma PassThroughFirstChar(p: string)
    requires IsPassThrough(p)
    ensures |p| > 0
    ensures p[0] == '/' || LowerChar(p[0]) == 'h' || LowerChar(p[0]) == 'd' || LowerChar(p[0]) == 'b'
  {
    if StartsWithIgnoringCase(p, "http://") { FirstCharOfPrefix(p, "http://"); }
    else if StartsWithIgnoringCase(p, "https://") { FirstCharOfPrefix(p, "https://"); }
    else if StartsWithIgnoringCase(p, "data:") { FirstCharOfPrefix(p, "data:"); }
    else if StartsWithIgnoringCase(p, "blob:") { FirstCharOfPrefix(p, "blob:"); }
  }

  /** A non-empty string that resolve neither passes through nor cleans: no `/`, `.`, `h`, `d` or `b` in front. */
  predicate PlainStart(s: string)
  {
    |s| > 0 && s[0] != '/' && s[0] != '.' && LowerChar(s[0]) != 'h' && LowerChar(s[0]) != 'd' && LowerChar(s[0]) != 'b'
  }

  /**
   * Under a relative base (`media/`, say) resolve is not idempotent: the address
   * of a plain name resolves again to the base prepended twice.
   */
  lemma {:induction false} RelativeBaseResolvesTwice(base: string, name: string)
    requires PlainStart(base) && PlainStart(name)
    ensures Resolve(base, name) == base + name
    ensures Resolve(base, Resolve(base, name)) == base + base + name
  {
    ResolvePlainName(base, name);
    assert (base + name)[0] == base[0];
    ResolvePlainName(base, base + name);
    assert base + (base + name) == base + base + name;
  }
}
