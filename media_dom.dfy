/**
 * Media hydration: at start-up the routing script fills in the media addresses
 * of the page's elements from their `data-src` and `data-bg` attributes,
 * rewrites local `assets/media/` sources onto the media base, and adds
 * connection hints for a hosted base.
 *
 * Every element is one record; each pass visits the elements its selector
 * matches, in document order, and applies one per-element step to them.
 */
module MediaHydration {
  import opened Common
  import opened Text
  import opened MediaUrls

  datatype Tag = SourceTag | ImgTag | VideoTag | OtherTag

  /** The inline background of an element; the empty string is an unset property. */
  datatype Background = Background(image: string, size: string, position: string, repeat: string)

  /** The attributes the script reads and writes; `None` is an absent attribute. */
  datatype Element = Element(tag: Tag, dataSrc: Option<string>, src: Option<string>, dataBg: Option<string>, style: Background)

  /** A `<link rel href>` element; the hints stand for every matching `<link>` in the document, where the existence test searches. */
  datatype Hint = Hint(rel: string, href: string)

  /** `<source>`, `<img>` and `<video>`: the elements whose own `src` is set. */
  predicate IsMediaTag(t: Tag)
  {
    t != OtherTag
  }

  /** `el.getAttribute(name) || ""`. */
  function AttrText(a: Option<string>): (r: string)
    ensures a.None? ==> r == []
    ensures a.Some? ==> r == a.value
  {
    if a.Some? then a.value else []
  }

  /**
   * One element of hydrateDataSrc. A media element gets the resolved `data-src`
   * as its `src` unless it already has one; any other element has its
   * `data-src` replaced by the resolved address. An empty `data-src` is skipped.
   */
  function HydrateSrcOne(base: string, e: Element): (r: Element)
    ensures r.tag == e.tag && r.dataBg == e.dataBg && r.style == e.style
    ensures AttrText(e.dataSrc) == [] ==> r == e
    ensures IsMediaTag(e.tag) ==> r.dataSrc == e.dataSrc
    ensures IsMediaTag(e.tag) && AttrText(e.src) != [] ==> r.src == e.src
    ensures IsMediaTag(e.tag) && AttrText(e.dataSrc) != [] ==> AttrText(r.src) != []
    ensures IsMediaTag(e.tag) && AttrText(e.dataSrc) != [] && AttrText(e.src) == [] ==>
      r.src == Some(Resolve(base, e.dataSrc.value))
    ensures !IsMediaTag(e.tag) ==> r.src == e.src
    ensures !IsMediaTag(e.tag) && AttrText(e.dataSrc) != [] ==> r.dataSrc == Some(Resolve(base, e.dataSrc.value))
  {
    var raw := AttrText(e.dataSrc);
    if raw == [] then e
    else
      var url := Resolve(base, raw);
      if IsMediaTag(e.tag) then
        if AttrText(e.src) == [] then e.(src := Some(url)) else e
      else
        e.(dataSrc := Some(url))
  }

  /** Hydrating a media element twice is hydrating it once; so is any element under a stable base. */
  lemma HydrateSrcIdempotent(base: string, e: Element)
    requires IsMediaTag(e.tag) || StableBase(base)
    ensures HydrateSrcOne(base, HydrateSrcOne(base, e)) == HydrateSrcOne(base, e)
  {
    var raw := AttrText(e.dataSrc);
    if raw != [] && !IsMediaTag(e.tag) {
      ResolveIdempotent(base, raw);
    }
  }

  /** The CSS value hydrateDataBg writes: `url("<address>")`. */
  function CssUrl(url: string): string
  {
    "url(\"" + url + "\")"
  }

  /**
   * One element of hydrateDataBg: an element with a non-empty `data-bg` and no
   * inline background image gets the resolved image, sized to cover, centred
   * and not repeated; nothing else changes.
   */
  function HydrateBgOne(base: string, e: Element): (r: Element)
    ensures r.tag == e.tag && r.dataSrc == e.dataSrc && r.src == e.src && r.dataBg == e.dataBg
    ensures AttrText(e.dataBg) == [] || e.style.image != [] ==> r == e
    ensures AttrText(e.dataBg) != [] && e.style.image == [] ==>
      r.style == Background(CssUrl(Resolve(base, e.dataBg.value)), "cover", "center", "no-repeat")
    ensures AttrText(e.dataBg) != [] ==> r.style.image != []
  {
    var raw := AttrText(e.dataBg);
    if raw == [] || e.style.image != [] then e
    else e.(style := Background(CssUrl(Resolve(base, raw)), "cover", "center", "no-repeat"))
  }

  /** A background is only ever set once, whatever the base. */
  lemma HydrateBgIdempotent(base: string, e: Element)
    ensures HydrateBgOne(base, HydrateBgOne(base, e)) == HydrateBgOne(base, e)
  {
  }

  const AssetsMedia := "assets/media/"

  /** Matched by `img[src], video[src], source[src]` with a non-empty `src` under `assets/media/`. */
  predicate IsLocalMedia(e: Element)
  {
    IsMediaTag(e.tag) && e.src.Some? && StartsWith(e.src.value, AssetsMedia)
  }

  /**
   * One element of rewriteAssetsMediaSrc: a local media source loses its
   * `assets/media/` prefix and the rest is resolved against the base.
   */
  function RewriteOne(base: string, e: Element): (r: Element)
    ensures r.tag == e.tag && r.dataSrc == e.dataSrc && r.dataBg == e.dataBg && r.style == e.style
    ensures !IsLocalMedia(e) ==> r == e
    ensures IsLocalMedia(e) ==> r.src == Some(Resolve(base, e.src.value[|AssetsMedia|..]))
  {
    if IsLocalMedia(e) then e.(src := Some(Resolve(base, e.src.value[|AssetsMedia|..]))) else e
  }

  /** Under an http(s) base, nothing is left under `assets/media/` after the rewrite. */
  lemma RewriteLeavesNoLocalMedia(base: string, e: Element)
    requires IsHttpUrl(base)
    ensures !IsLocalMedia(RewriteOne(base, e))
  {
    if IsLocalMedia(e) {
      var rest := e.src.value[|AssetsMedia|..];
      var r := Resolve(base, rest);
      if r != [] {
        ResolvedUnderHttpBase(base, rest);
        PassThroughFirstChar(r);
        assert r[0] != 'a';
      }
    }
  }

  /** Rewriting twice under an http(s) base is rewriting once. */
  lemma {:induction false} RewriteIdempotent(base: string, e: Element)
    requires IsHttpUrl(base)
    ensures RewriteOne(base, RewriteOne(base, e)) == RewriteOne(base, e)
  {
    RewriteLeavesNoLocalMedia(base, e);
  }

  /** What run does to one element: both hydrations, then the rewrite when there is a base. */
  function Hydrated(base: string, e: Element): (r: Element)
    ensures base == [] ==> r.src == HydrateSrcOne(base, e).src
    ensures IsHttpUrl(base) ==> !IsLocalMedia(r)
    ensures r.tag == e.tag && r.dataBg == e.dataBg
  {
    var bg := HydrateBgOne(base, HydrateSrcOne(base, e));
    if base == [] then bg
    else
      assert IsHttpUrl(base) ==> !IsLocalMedia(RewriteOne(base, bg)) by {
        if IsHttpUrl(base) {
          RewriteLeavesNoLocalMedia(base, bg);
        }
      }
      RewriteOne(base, bg)
  }

  /**
   * The whole pass is not idempotent even under an http(s) base: an image whose
   * `src` is exactly `assets/media/` has it emptied by the rewrite, and the next
   * run fills the empty `src` from `data-src`.
   */
  lemma HydratedRefillsEmptiedSrc()
    ensures var b := "https://cdn.example/";
      var e := Element(ImgTag, Some("y.jpg"), Some(AssetsMedia), None, Background("", "", "", ""));
      && Hydrated(b, e).src == Some("")
      && Hydrated(b, Hydrated(b, e)).src == Some(b + "y.jpg")
  {
    var b := "https://cdn.example/";
    var e := Element(ImgTag, Some("y.jpg"), Some(AssetsMedia), None, Background("", "", "", ""));
    var once := e.(src := Some(""));
    assert HydrateBgOne(b, HydrateSrcOne(b, e)) == e;
    assert IsLocalMedia(e) && AssetsMedia[|AssetsMedia|..] == "";
    assert Hydrated(b, e) == once;
    ResolvePlainName(b, "y.jpg");
    var twice := once.(src := Some(b + "y.jpg"));
    assert HydrateBgOne(b, HydrateSrcOne(b, once)) == twice;
    assert (b + "y.jpg")[0] != AssetsMedia[0];
    assert Hydrated(b, once) == twice;
  }

  /** The head's hints after addHint: the new hint is appended unless an equal one exists. */
  function WithHint(hints: seq<Hint>, h: Hint): (r: seq<Hint>)
    ensures h in r
    ensures forall x :: x in r <==> x in hints || x == h
    ensures |hints| <= |r| <= |hints| + 1 && r[..|hints|] == hints
    ensures NoDuplicateHints(hints) ==> NoDuplicateHints(r)
    ensures h in hints ==> r == hints
    ensures h !in hints ==> r == hints + [h]
  {
    if h in hints then hints else hints + [h]
  }

  predicate NoDuplicateHints(hints: seq<Hint>)
  {
    forall i, j :: 0 <= i < j < |hints| ==> hints[i] != hints[j]
  }

  lemma WithHintIdempotent(hints: seq<Hint>, h: Hint)
    ensures WithHint(WithHint(hints, h), h) == WithHint(hints, h)
  {
  }

  /** addHint never adds a second copy of a hint: only a missing hint gains its one occurrence. */
  lemma WithHintCount(hints: seq<Hint>, h: Hint, x: Hint)
    ensures multiset(WithHint(hints, h))[x] == multiset(hints)[x] + (if x == h && h !in hints then 1 else 0)
    ensures h in hints ==> multiset(WithHint(hints, h))[h] == multiset(hints)[h]
    ensures h !in hints ==> multiset(WithHint(hints, h))[h] == 1
  {
    if h !in hints {
      assert multiset(hints + [h]) == multiset(hints) + multiset{h};
    }
  }

  /** `new URL(base).origin` when the base is an http(s) address, if it parses. */
  predicate WantsHints(base: string, origin: Option<string>)
  {
    base != [] && IsHttpUrl(base) && origin.Some?
  }

  /**
   * The media routing of one page. `attr` is `data-media-base` on the root
   * element and `global` is `window.MM_MEDIA_BASE`; `origin` is what parsing the
   * normalized base as a URL yields.
   */
  class MediaDocument {
    const base: string
    const elements: array<Element>
    var hints: seq<Hint>

    /**
     * Start-up: the normalized base, and for an http(s) base that parses, a
     * dns-prefetch hint then a preconnect hint to its origin.
     */
    constructor (attr: Option<string>, global: Option<string>, elements: array<Element>, headHints: seq<Hint>, origin: Option<string>)
      ensures base == NormalizeBase(RawBase(attr, global)) && this.elements == elements
      ensures WantsHints(base, origin) ==>
        hints == WithHint(WithHint(headHints, Hint("dns-prefetch", origin.value)), Hint("preconnect", origin.value))
      ensures !WantsHints(base, origin) ==> hints == headHints
      ensures NoDuplicateHints(headHints) ==> NoDuplicateHints(hints)
    {
      base := NormalizeBase(RawBase(attr, global));
      this.elements := elements;
      hints := headHints;
      new;
      if WantsHints(base, origin) {
        AddHint("dns-prefetch", origin.value);
        AddHint("preconnect", origin.value);
      }
    }

    /** addHint: a `<link>` with this `rel` and `href` is added unless one exists. */
    method AddHint(rel: string, href: string)
      modifies this
      ensures hints == WithHint(old(hints), Hint(rel, href))
    {
      if Hint(rel, href) in hints {
        return;
      }
      hints := hints + [Hint(rel, href)];
    }

    /** `querySelectorAll(...).forEach(...)`: each element, in document order, replaced by `step` of itself. */
    method ForEachElement(step: Element -> Element)
      modifies elements
      ensures forall i :: 0 <= i < elements.Length ==> elements[i] == step(old(elements[i]))
    {
      ghost var before := elements[..];
      var i := 0;
      while i < elements.Length
        invariant 0 <= i <= elements.Length
        invariant forall j :: 0 <= j < i ==> elements[j] == step(before[j])
        invariant forall j :: i <= j < elements.Length ==> elements[j] == before[j]
      {
        elements[i] := step(elements[i]);
        i := i + 1;
      }
    }

    /** hydrateDataSrc over the whole document. */
    method HydrateDataSrc()
      modifies elements
      ensures forall i :: 0 <= i < elements.Length ==> elements[i] == HydrateSrcOne(base, old(elements[i]))
    {
      ForEachElement(e => HydrateSrcOne(base, e));
    }

    /** hydrateDataBg over the whole document. */
    method HydrateDataBg()
      modifies elements
      ensures forall i :: 0 <= i < elements.Length ==> elements[i] == HydrateBgOne(base, old(elements[i]))
    {
      ForEachElement(e => HydrateBgOne(base, e));
    }

    /** rewriteAssetsMediaSrc: nothing without a base. */
    method RewriteAssetsMediaSrc()
      modifies elements
      ensures base == [] ==> elements[..] == old(elements[..])
      ensures base != [] ==> forall i :: 0 <= i < elements.Length ==> elements[i] == RewriteOne(base, old(elements[i]))
    {
      if base == [] {
        return;
      }
      ForEachElement(e => RewriteOne(base, e));
    }

    /** run: the three passes in order; under an http(s) base no local media source is left. */
    method Run()
      modifies elements
      ensures forall i :: 0 <= i < elements.Length ==> elements[i] == Hydrated(base, old(elements[i]))
      ensures IsHttpUrl(base) ==> forall i :: 0 <= i < elements.Length ==> !IsLocalMedia(elements[i])
    {
      HydrateDataSrc();
      HydrateDataBg();
      RewriteAssetsMediaSrc();
    }
  }
}
