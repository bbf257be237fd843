/**
 * Slide captions of the projects deck: turning `@handles` and domain-like
 * tokens into links, and the per-slide clamp and "Show more" button.
 *
 * The regular expression that finds the tokens is not modelled; its matches are
 * an input, and `Tokens` states what any run of it reports.
 */
module Captions {
  import opened Common
  import opened Text

  /** One node appended to a caption: a text node, or a link whose text is the token. */
  datatype Part = TextPart(text: string) | Link(text: string, href: string)

  /** One match of the caption regular expression: where it starts and how long it is. */
  datatype Match = Match(start: nat, len: nat)

  function End(m: Match): nat
  {
    m.start + m.len
  }

  /** What a global regular-expression scan reports: non-empty matches inside `raw`, increasing, not overlapping. */
  ghost predicate Tokens(raw: string, ms: seq<Match>)
  {
    && (forall k :: 0 <= k < |ms| ==> 0 < ms[k].len && End(ms[k]) <= |raw|)
    && (forall j, k :: 0 <= j < k < |ms| ==> End(ms[j]) <= ms[k].start)
  }

  /** A tokenizer that behaves like the caption regular expression on every input. */
  ghost predicate Sound(tokenize: string -> seq<Match>)
  {
    forall s :: Tokens(s, tokenize(s))
  }

  function Token(raw: string, m: Match): string
    requires End(m) <= |raw|
  {
    raw[m.start..End(m)]
  }

  /** `handle.replace(/^@/, "")`. */
  function StripAt(handle: string): (r: string)
    ensures StartsWith(handle, "@") ==> r == handle[1..]
    ensures !StartsWith(handle, "@") ==> r == handle
  {
    if |handle| > 0 && handle[0] == '@' then handle[1..] else handle
  }

  const InstagramRoot: string := "https://www.instagram.com/"
  const HttpsScheme: string := "https://"

  /** The Instagram profile address of a handle, with or without its leading `@`. */
  function ToIgUrl(handle: string): string
  {
    InstagramRoot + StripAt(handle) + "/"
  }

  /** `/^@/`: the token is an Instagram handle. */
  predicate IsHandle(t: string)
  {
    |t| > 0 && t[0] == '@'
  }

  /** `token.startsWith("http")`, case-sensitive. */
  predicate HasHttpPrefix(t: string)
  {
    |t| >= 4 && t[0] == 'h' && t[1] == 't' && t[2] == 't' && t[3] == 'p'
  }

  /** The address a caption token links to. */
  function HrefFor(token: string): string
  {
    if IsHandle(token) then ToIgUrl(token)
    else if HasHttpPrefix(token) then token
    else HttpsScheme + token
  }

  /**
   * A handle links to the profile named by the handle without its `@`; a token
   * that already starts with `http` links to itself; anything else gets `https://`.
   */
  lemma HrefForCases(token: string)
    ensures StartsWith(token, "@") ==> HrefFor(token) == "https://www.instagram.com/" + token[1..] + "/"
    ensures !StartsWith(token, "@") && StartsWith(token, "http") ==> HrefFor(token) == token
    ensures !StartsWith(token, "@") && !StartsWith(token, "http") ==> HrefFor(token) == "https://" + token
  {
  }

  /** toIgUrl strips exactly one leading `@`, so a handle and its bare name give the same address. */
  lemma {:induction false} ToIgUrlIgnoresAt(name: string)
    requires !StartsWith(name, "@")
    ensures ToIgUrl("@" + name) == ToIgUrl(name)
    ensures StartsWith(ToIgUrl(name), InstagramRoot) && EndsWith(ToIgUrl(name), "/")
  {
    assert ("@" + name)[1..] == name;
    var r := ToIgUrl(name);
    assert r[..|InstagramRoot|] == InstagramRoot;
  }

  lemma AppendAssoc<T>(x: seq<T>, y: seq<T>, z: seq<T>)
    ensures x + (y + z) == (x + y) + z
  {
  }

  /** The text content of the first `n` nodes. */
  function TextUpTo(parts: seq<Part>, n: nat): string
    requires n <= |parts|
  {
    if n == 0 then "" else TextUpTo(parts, n - 1) + parts[n - 1].text
  }

  /** The text content of a list of nodes. */
  function ConcatText(parts: seq<Part>): string
  {
    TextUpTo(parts, |parts|)
  }

  lemma {:induction false} TextUpToPrefix(a: seq<Part>, b: seq<Part>, n: nat)
    requires n <= |a|
    ensures TextUpTo(a + b, n) == TextUpTo(a, n)
  {
    if n > 0 {
      TextUpToPrefix(a, b, n - 1);
      assert (a + b)[n - 1] == a[n - 1];
    }
  }

  lemma {:induction false} TextUpToAppend(a: seq<Part>, b: seq<Part>, n: nat)
    requires n <= |b|
    ensures TextUpTo(a + b, |a| + n) == ConcatText(a) + TextUpTo(b, n)
  {
    if n == 0 {
      TextUpToPrefix(a, b, |a|);
      assert ConcatText(a) + "" == ConcatText(a);
    } else {
      TextUpToAppend(a, b, n - 1);
      assert (a + b)[|a| + n - 1] == b[n - 1];
      AppendAssoc(ConcatText(a), TextUpTo(b, n - 1), b[n - 1].text);
    }
  }

  lemma ConcatTextAppend(a: seq<Part>, b: seq<Part>)
    ensures ConcatText(a + b) == ConcatText(a) + ConcatText(b)
  {
    TextUpToAppend(a, b, |b|);
  }

  /** The link nodes among the first `n` nodes, in order. */
  function LinksUpTo(parts: seq<Part>, n: nat): seq<Part>
    requires n <= |parts|
  {
    if n == 0 then []
    else LinksUpTo(parts, n - 1) + (if parts[n - 1].Link? then [parts[n - 1]] else [])
  }

  /** The link nodes among `parts`, in order. */
  function LinksOf(parts: seq<Part>): seq<Part>
  {
    LinksUpTo(parts, |parts|)
  }

  lemma {:induction false} LinksUpToPrefix(a: seq<Part>, b: seq<Part>, n: nat)
    requires n <= |a|
    ensures LinksUpTo(a + b, n) == LinksUpTo(a, n)
  {
    if n > 0 {
      LinksUpToPrefix(a, b, n - 1);
      assert (a + b)[n - 1] == a[n - 1];
    }
  }

  lemma {:induction false} LinksUpToAppend(a: seq<Part>, b: seq<Part>, n: nat)
    requires n <= |b|
    ensures LinksUpTo(a + b, |a| + n) == LinksOf(a) + LinksUpTo(b, n)
  {
    if n == 0 {
      LinksUpToPrefix(a, b, |a|);
      assert LinksOf(a) + [] == LinksOf(a);
    } else {
      LinksUpToAppend(a, b, n - 1);
      assert (a + b)[|a| + n - 1] == b[n - 1];
      AppendAssoc(LinksOf(a), LinksUpTo(b, n - 1), if b[n - 1].Link? then [b[n - 1]] else []);
    }
  }

  lemma LinksOfAppend(a: seq<Part>, b: seq<Part>)
    ensures LinksOf(a + b) == LinksOf(a) + LinksOf(b)
  {
    LinksUpToAppend(a, b, |b|);
  }

  /** The link node for a matched token, addressed by `href`. */
  function LinkWith(token: string, href: string -> string): Part
  {
    Link(token, href(token))
  }

  /** The link node linkifyCaption makes for a matched token. */
  function LinkTo(token: string): Part
  {
    LinkWith(token, HrefFor)
  }

  /** No text node is empty. */
  ghost predicate NoEmptyText(parts: seq<Part>)
  {
    forall k :: 0 <= k < |parts| && parts[k].TextPart? ==> parts[k].text != ""
  }

  /** The text node before a match, if there is text between `last` and the match. */
  function Gap(raw: string, last: nat, m: Match): seq<Part>
    requires last <= m.start <= |raw|
  {
    if m.start > last then [TextPart(raw[last..m.start])] else []
  }

  /** Where the caption has been consumed to once the first `k` matches are handled. */
  function LastEnd(ms: seq<Match>, k: nat): nat
    requires k <= |ms|
  {
    if k == 0 then 0 else End(ms[k - 1])
  }

  /** The nodes built for the first `k` matches: the text before each match (if any), then the match as a link. */
  function Prefix(raw: string, ms: seq<Match>, k: nat, href: string -> string): seq<Part>
    requires Tokens(raw, ms) && k <= |ms|
  {
    if k == 0 then []
    else Prefix(raw, ms, k - 1, href) + Gap(raw, LastEnd(ms, k - 1), ms[k - 1]) + [LinkWith(Token(raw, ms[k - 1]), href)]
  }

  /** One step of `Prefix`, as an equation between sequences. */
  lemma PrefixUnfold(raw: string, ms: seq<Match>, k: nat, href: string -> string)
    requires Tokens(raw, ms) && 0 < k <= |ms|
    ensures LastEnd(ms, k - 1) <= ms[k - 1].start && End(ms[k - 1]) <= |raw|
    ensures Prefix(raw, ms, k, href) ==
      Prefix(raw, ms, k - 1, href) + Gap(raw, LastEnd(ms, k - 1), ms[k - 1]) + [LinkWith(Token(raw, ms[k - 1]), href)]
  {
  }

  /** The rest of the caption after the last match, as a text node if it is not empty. */
  function Tail(raw: string, last: nat): seq<Part>
    requires last <= |raw|
  {
    if last < |raw| then [TextPart(raw[last..])] else []
  }

  /** The nodes the loop builds for the matches `ms`, links addressed by `href`. */
  function LinkifiedWith(raw: string, ms: seq<Match>, href: string -> string): seq<Part>
    requires Tokens(raw, ms)
  {
    Prefix(raw, ms, |ms|, href) + Tail(raw, LastEnd(ms, |ms|))
  }

  /** The nodes linkifyCaption returns for a caption whose regular-expression matches are `ms`. */
  function Linkified(raw: string, ms: seq<Match>): seq<Part>
    requires Tokens(raw, ms)
  {
    LinkifiedWith(raw, ms, HrefFor)
  }

  lemma ConcatTextSingle(p: Part)
    ensures ConcatText([p]) == p.text
  {
    assert TextUpTo([p], 0) == "";
    assert "" + p.text == p.text;
  }

  lemma LinksOfSingle(p: Part)
    ensures LinksOf([p]) == if p.Link? then [p] else []
  {
    assert LinksUpTo([p], 0) == [];
    assert [] + [p] == [p];
  }

  lemma GapText(raw: string, last: nat, m: Match)
    requires last <= m.start <= |raw|
    ensures ConcatText(Gap(raw, last, m)) == raw[last..m.start]
  {
    if m.start > last {
      ConcatTextSingle(TextPart(raw[last..m.start]));
    }
  }

  lemma GapLinks(raw: string, last: nat, m: Match)
    requires last <= m.start <= |raw|
    ensures LinksOf(Gap(raw, last, m)) == []
  {
    if m.start > last {
      LinksOfSingle(TextPart(raw[last..m.start]));
    }
  }

  lemma LastEndBounds(raw: string, ms: seq<Match>, k: nat)
    requires Tokens(raw, ms) && k < |ms|
    ensures LastEnd(ms, k) <= ms[k].start && End(ms[k]) <= |raw|
  {
  }

  /** The text of nodes extended by a gap and one more node. */
  lemma ConcatTextStep(whole: seq<Part>, before: seq<Part>, gap: seq<Part>, p: Part)
    requires whole == before + gap + [p]
    ensures ConcatText(whole) == ConcatText(before) + ConcatText(gap) + p.text
  {
    ConcatTextAppend(before + gap, [p]);
    ConcatTextAppend(before, gap);
    ConcatTextSingle(p);
  }

  /** The links of nodes extended by a link-free gap and one more link. */
  lemma LinksOfStep(whole: seq<Part>, before: seq<Part>, gap: seq<Part>, p: Part)
    requires whole == before + gap + [p] && LinksOf(gap) == [] && p.Link?
    ensures LinksOf(whole) == LinksOf(before) + [p]
  {
    LinksOfAppend(before + gap, [p]);
    LinksOfAppend(before, gap);
    LinksOfSingle(p);
  }

  /** One step of the induction over matches: the `k`-th match adds its link and the gap before it adds none. */
  lemma PrefixLinksStep(raw: string, ms: seq<Match>, k: nat, href: string -> string)
    requires Tokens(raw, ms) && 0 < k <= |ms|
    requires LinksOf(Prefix(raw, ms, k - 1, href)) == Links(raw, ms, k - 1, href)
    ensures LinksOf(Prefix(raw, ms, k, href)) == Links(raw, ms, k, href)
  {
    var last := LastEnd(ms, k - 1);
    var m := ms[k - 1];
    LastEndBounds(raw, ms, k - 1);
    GapLinks(raw, last, m);
    PrefixUnfold(raw, ms, k, href);
    LinksUnfold(raw, ms, k, href);
    LinksOfStep(Prefix(raw, ms, k, href), Prefix(raw, ms, k - 1, href), Gap(raw, last, m), LinkWith(Token(raw, m), href));
  }

  lemma SliceJoin(s: string, a: nat, b: nat, c: nat, x: string, y: string, z: string)
    requires a <= b <= c <= |s| && x == s[..a] && y == s[a..b] && z == s[b..c]
    ensures x + y + z == s[..c]
  {
  }

  lemma SplitJoin(s: string, i: nat)
    requires i <= |s|
    ensures s[..i] + s[i..] == s
  {
  }

  /** Text spelling `raw` up to `last`, then the gap up to `start`, then the token up to `end`, spells `raw` up to `end`. */
  lemma TextStep(raw: string, whole: seq<Part>, before: seq<Part>, gap: seq<Part>, p: Part, last: nat, start: nat, end: nat)
    requires last <= start <= end <= |raw| && whole == before + gap + [p]
    requires ConcatText(before) == raw[..last] && ConcatText(gap) == raw[last..start] && p.text == raw[start..end]
    ensures ConcatText(whole) == raw[..end]
  {
    ConcatTextStep(whole, before, gap, p);
    SliceJoin(raw, last, start, end, ConcatText(before), ConcatText(gap), p.text);
  }

  /** One step of the induction over matches: the gap and the link spell the caption up to the `k`-th match's end. */
  lemma PrefixTextStep(raw: string, ms: seq<Match>, k: nat, href: string -> string)
    requires Tokens(raw, ms) && 0 < k <= |ms|
    requires LastEnd(ms, k - 1) <= |raw|
    requires ConcatText(Prefix(raw, ms, k - 1, href)) == raw[..LastEnd(ms, k - 1)]
    ensures LastEnd(ms, k) <= |raw|
    ensures ConcatText(Prefix(raw, ms, k, href)) == raw[..LastEnd(ms, k)]
  {
    var last := LastEnd(ms, k - 1);
    var m := ms[k - 1];
    LastEndBounds(raw, ms, k - 1);
    GapText(raw, last, m);
    PrefixUnfold(raw, ms, k, href);
    TextStep(raw, Prefix(raw, ms, k, href), Prefix(raw, ms, k - 1, href), Gap(raw, last, m), LinkWith(Token(raw, m), href), last, m.start, End(m));
  }

  lemma {:induction false} PrefixText(raw: string, ms: seq<Match>, k: nat, href: string -> string)
    requires Tokens(raw, ms) && k <= |ms|
    ensures LastEnd(ms, k) <= |raw|
    ensures ConcatText(Prefix(raw, ms, k, href)) == raw[..LastEnd(ms, k)]
  {
    if k > 0 {
      PrefixText(raw, ms, k - 1, href);
      PrefixTextStep(raw, ms, k, href);
    }
  }

  lemma {:induction false} PrefixNoEmptyText(raw: string, ms: seq<Match>, k: nat, href: string -> string)
    requires Tokens(raw, ms) && k <= |ms|
    ensures NoEmptyText(Prefix(raw, ms, k, href))
  {
    if k > 0 {
      var before := Prefix(raw, ms, k - 1, href);
      var gap := Gap(raw, LastEnd(ms, k - 1), ms[k - 1]);
      PrefixNoEmptyText(raw, ms, k - 1, href);
      var all := before + gap + [LinkWith(Token(raw, ms[k - 1]), href)];
      forall i | 0 <= i < |all| && all[i].TextPart?
        ensures all[i].text != ""
      {
        if i < |before| {
          assert all[i] == before[i];
        }
      }
    }
  }

  /** One link per match, in order: the links the first `k` matches should produce. */
  function Links(raw: string, ms: seq<Match>, k: nat, href: string -> string): (r: seq<Part>)
    requires Tokens(raw, ms) && k <= |ms|
    ensures |r| == k
  {
    if k == 0 then [] else Links(raw, ms, k - 1, href) + [LinkWith(Token(raw, ms[k - 1]), href)]
  }

  lemma LinksUnfold(raw: string, ms: seq<Match>, k: nat, href: string -> string)
    requires Tokens(raw, ms) && 0 < k <= |ms|
    ensures Links(raw, ms, k, href) == Links(raw, ms, k - 1, href) + [LinkWith(Token(raw, ms[k - 1]), href)]
  {
  }

  /** The `i`-th of those links is the link for the `i`-th match. */
  lemma {:induction false} LinksAt(raw: string, ms: seq<Match>, k: nat, i: nat, href: string -> string)
    requires Tokens(raw, ms) && i < k <= |ms|
    ensures Links(raw, ms, k, href)[i] == LinkWith(Token(raw, ms[i]), href)
  {
    if i < k - 1 {
      LinksAt(raw, ms, k - 1, i, href);
    }
  }

  lemma {:induction false} PrefixLinks(raw: string, ms: seq<Match>, k: nat, href: string -> string)
    requires Tokens(raw, ms) && k <= |ms|
    ensures LinksOf(Prefix(raw, ms, k, href)) == Links(raw, ms, k, href)
  {
    if k > 0 {
      PrefixLinks(raw, ms, k - 1, href);
      PrefixLinksStep(raw, ms, k, href);
    }
  }

  /** The tail after the last match holds the rest of the caption. */
  lemma TailText(raw: string, last: nat)
    requires last <= |raw|
    ensures ConcatText(Tail(raw, last)) == raw[last..]
  {
    if last < |raw| {
      ConcatTextSingle(TextPart(raw[last..]));
    }
  }

  /** The tail holds no link. */
  lemma TailLinks(raw: string, last: nat)
    requires last <= |raw|
    ensures LinksOf(Tail(raw, last)) == []
  {
    if last < |raw| {
      LinksOfSingle(TextPart(raw[last..]));
    }
  }

  lemma LastEndInRange(raw: string, ms: seq<Match>, k: nat)
    requires Tokens(raw, ms) && k <= |ms|
    ensures LastEnd(ms, k) <= |raw|
  {
    if k > 0 {
      LastEndBounds(raw, ms, k - 1);
    }
  }

  /** The nodes spell the caption again. */
  lemma LinkifiedText(raw: string, ms: seq<Match>, href: string -> string)
    requires Tokens(raw, ms)
    ensures ConcatText(LinkifiedWith(raw, ms, href)) == raw
  {
    var last := LastEnd(ms, |ms|);
    var pre, tail := Prefix(raw, ms, |ms|, href), Tail(raw, last);
    PrefixText(raw, ms, |ms|, href);
    TailText(raw, last);
    ConcatTextAppend(pre, tail);
    SplitJoin(raw, last);
  }

  /** No text node is empty. */
  lemma LinkifiedNoEmptyText(raw: string, ms: seq<Match>, href: string -> string)
    requires Tokens(raw, ms)
    ensures NoEmptyText(LinkifiedWith(raw, ms, href))
  {
    var pre := Prefix(raw, ms, |ms|, href);
    var last := LastEnd(ms, |ms|);
    LastEndInRange(raw, ms, |ms|);
    PrefixNoEmptyText(raw, ms, |ms|, href);
    var all := pre + Tail(raw, last);
    forall i | 0 <= i < |all| && all[i].TextPart?
      ensures all[i].text != ""
    {
      if i < |pre| {
        assert all[i] == pre[i];
      } else {
        assert all[i] == Tail(raw, last)[i - |pre|];
      }
    }
  }

  /** One link per match, in order. */
  lemma LinkifiedLinks(raw: string, ms: seq<Match>, href: string -> string)
    requires Tokens(raw, ms)
    ensures LinksOf(LinkifiedWith(raw, ms, href)) == Links(raw, ms, |ms|, href)
  {
    var last := LastEnd(ms, |ms|);
    LastEndInRange(raw, ms, |ms|);
    PrefixLinks(raw, ms, |ms|, href);
    TailLinks(raw, last);
    LinksOfAppend(Prefix(raw, ms, |ms|, href), Tail(raw, last));
  }

  /**
   * linkifyCaption is lossless and does what it says: the returned nodes spell
   * `raw` again, no text node is empty, and there is exactly one link per match,
   * in order, whose text is the matched token and whose address is `HrefFor` of it.
   */
  lemma LinkifiedProperties(raw: string, ms: seq<Match>)
    requires Tokens(raw, ms)
    ensures ConcatText(Linkified(raw, ms)) == raw
    ensures NoEmptyText(Linkified(raw, ms))
    ensures LinksOf(Linkified(raw, ms)) == Links(raw, ms, |ms|, HrefFor)
    ensures forall i :: 0 <= i < |ms| ==> Links(raw, ms, |ms|, HrefFor)[i] == LinkTo(Token(raw, ms[i]))
  {
    LinkifiedText(raw, ms, HrefFor);
    LinkifiedNoEmptyText(raw, ms, HrefFor);
    LinkifiedLinks(raw, ms, HrefFor);
    forall i | 0 <= i < |ms|
      ensures Links(raw, ms, |ms|, HrefFor)[i] == LinkTo(Token(raw, ms[i]))
    {
      LinksAt(raw, ms, |ms|, i, HrefFor);
    }
  }

  /**
   * linkifyCaption's loop, with the address of each link given by `href`: walk the
   * matches, pushing the text before each one and the link for it, then the rest.
   */
  method LinkifyWith(raw: string, ms: seq<Match>, href: string -> string) returns (parts: seq<Part>)
    requires Tokens(raw, ms)
    ensures parts == LinkifiedWith(raw, ms, href)
  {
    parts := [];
    var last := 0;
    var k := 0;
    while k < |ms|
      invariant 0 <= k <= |ms|
      invariant last == LastEnd(ms, k) && last <= |raw|
      invariant parts == Prefix(raw, ms, k, href)
    {
      var m := ms[k];
      LastEndBounds(raw, ms, k);
      if m.start > last {
        parts := parts + [TextPart(raw[last..m.start])];
      }
      var token := raw[m.start..End(m)];
      parts := parts + [Link(token, href(token))];
      last := End(m);
      k := k + 1;
    }
    if last < |raw| {
      parts := parts + [TextPart(raw[last..])];
    }
  }

  /** linkifyCaption: the caption's nodes, each link addressed by `HrefFor` of its token. */
  method LinkifyCaption(raw: string, ms: seq<Match>) returns (parts: seq<Part>)
    requires Tokens(raw, ms)
    ensures parts == Linkified(raw, ms)
  {
    parts := LinkifyWith(raw, ms, HrefFor);
  }

  /** The `.overlay-meta` element of a slide: its child nodes and its two flags. */
  datatype Caption = Caption(parts: seq<Part>, linkified: bool, clamped: bool)

  /** The `.overlay` element of a slide: `more` holds the visibility of its "Show more" button, if it has one. */
  datatype Overlay = Overlay(more: Option<bool>)

  /** One `.slide` of the deck. */
  datatype Slide = Slide(active: bool, meta: Option<Caption>, overlay: Option<Overlay>, href: string, anchor: string)

  /**
   * prepareCaption: linkify the caption's text once and mark it; a caption already
   * marked is left alone. The text a reader sees never changes.
   */
  function PrepareCaption(c: Caption, tokenize: string -> seq<Match>): (r: Caption)
    requires Sound(tokenize)
    ensures r.linkified && r.clamped == c.clamped
    ensures ConcatText(r.parts) == ConcatText(c.parts)
    ensures !c.linkified ==> NoEmptyText(r.parts)
    ensures c.linkified ==> r == c
    ensures !c.linkified ==> r.parts == Linkified(ConcatText(c.parts), tokenize(ConcatText(c.parts)))
  {
    if c.linkified then c
    else
      var raw := ConcatText(c.parts);
      LinkifiedProperties(raw, tokenize(raw));
      Caption(Linkified(raw, tokenize(raw)), true, c.clamped)
  }

  /** prepareCaption twice is prepareCaption once. */
  lemma PrepareCaptionIdempotent(c: Caption, tokenize: string -> seq<Match>)
    requires Sound(tokenize)
    ensures PrepareCaption(PrepareCaption(c, tokenize), tokenize) == PrepareCaption(c, tokenize)
  {
  }

  /** ensureShowMoreBtn: reuse the overlay's button, or append a new, hidden one. */
  function EnsureShowMoreBtn(o: Overlay): (r: Overlay)
    ensures r.more.Some?
    ensures o.more.Some? ==> r == o
    ensures o.more.None? ==> r.more == Some(false)
  {
    if o.more.Some? then o else Overlay(Some(false))
  }

  /**
   * setCaptionClampAndMore for one slide. `needsMore` is the layout measurement
   * (natural height above the clamped height) taken on the active slide.
   */
  function SetCaptionClampAndMore(s: Slide, isActive: bool, needsMore: bool, tokenize: string -> seq<Match>): (r: Slide)
    requires Sound(tokenize)
    ensures r.active == s.active && r.href == s.href && r.anchor == s.anchor
    ensures s.meta.None? ==> r == s
    ensures s.meta.Some? ==> r.meta.Some? && r.meta.value.linkified && r.meta.value.clamped == isActive
    ensures s.meta.Some? ==> ConcatText(r.meta.value.parts) == ConcatText(s.meta.value.parts)
    ensures s.meta.Some? ==> r.meta.value.parts == PrepareCaption(s.meta.value, tokenize).parts
    ensures s.meta.Some? ==> (r.overlay.Some? <==> s.overlay.Some?)
    ensures s.meta.Some? && s.overlay.Some? ==> r.overlay.value.more == Some(isActive && needsMore)
  {
    match s.meta
    case None => s
    case Some(c) =>
      var prepared := PrepareCaption(c, tokenize);
      assert ConcatText(prepared.parts) == ConcatText(c.parts) by {
        if !c.linkified { LinkifiedProperties(ConcatText(c.parts), tokenize(ConcatText(c.parts))); }
      }
      var caption := prepared.(clamped := isActive);
      match s.overlay
      case None => s.(meta := Some(caption))
      case Some(o) =>
        var withButton := EnsureShowMoreBtn(o);
        s.(meta := Some(caption), overlay := Some(withButton.(more := Some(isActive && needsMore))))
  }

  /** Where the "Show more" button sends the reader: the slide's href, deep-linked to its anchor when it has one. */
  function ShowMoreTarget(s: Slide): (r: Option<string>)
    ensures r.None? <==> s.href == ""
    ensures r.Some? ==> StartsWith(r.value, s.href)
    ensures r.Some? && s.anchor == "" ==> r.value == s.href
    ensures r.Some? && s.anchor != "" ==> EndsWith(r.value, "#" + s.anchor)
    ensures r.Some? ==> |r.value| == |s.href| + (if s.anchor == "" then 0 else |s.anchor| + 1)
  {
    if s.href == "" then None
    else
      var target := s.href + (if s.anchor != "" then "#" + s.anchor else "");
      assert target[..|s.href|] == s.href;
      assert s.anchor != "" ==> target[|target| - |"#" + s.anchor|..] == "#" + s.anchor;
      Some(target)
  }
}
