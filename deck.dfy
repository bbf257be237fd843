/**
 * The projects deck: a phone-sized stack of slides, one per project, driven by a
 * list of clients. One slide is active; its video is played, its neighbours are
 * fetched, and every other video is paused.
 *
 * Browser media effects are flag updates (see module Videos). The outcome of
 * `video.play()` is the parameter `allowed`; the caption measurement that decides
 * whether the "Show more" button shows is the parameter `needsMore`.
 */
module ProjectsDeck {
  import opened Common
  import opened Videos
  import opened Captions

  /** clampIndex: `Math.max(0, Math.min(i, n - 1))` for a deck of `n` slides. */
  function ClampIndex(i: int, n: nat): (r: int)
    ensures 0 <= r
    ensures n > 0 ==> r < n
    ensures n == 0 ==> r == 0
    ensures 0 <= i < n ==> r == i
    ensures n > 0 ==> forall j :: 0 <= j < n ==> Distance(r, i) <= Distance(j, i)
  {
    var m := if i < n - 1 then i else n - 1;
    if 0 > m then 0 else m
  }

  function Distance(a: int, b: int): nat
  {
    if a < b then b - a else a - b
  }

  /** An index of primeAround's window `{i - 1, i, i + 1}`. */
  predicate InWindow(n: int, i: int)
  {
    i - 1 <= n <= i + 1
  }

  /** The first loop of primeAround: the window's videos are requested in full. */
  function LoadWindow(vs: seq<Video>, i: int): seq<Video>
  {
    seq(|vs|, n requires 0 <= n < |vs| => if InWindow(n, i) then Requested(vs[n]) else vs[n])
  }

  /** The second loop of primeAround: a playing video outside the window is paused. */
  function PauseOutside(vs: seq<Video>, i: int): seq<Video>
  {
    seq(|vs|, n requires 0 <= n < |vs| => if !InWindow(n, i) && !vs[n].paused then Paused(vs[n]) else vs[n])
  }

  /** tryPlay(videos[i]): the only video primeAround starts, when the browser lets it. */
  function PlayAt(vs: seq<Video>, i: int, allowed: bool): seq<Video>
  {
    if allowed && 0 <= i < |vs| then vs[i := Playing(vs[i])] else vs
  }

  /**
   * The videos after primeAround(i). Only the window is fetched; everything
   * outside it ends paused; inside the window only `videos[i]` may change its
   * playing state, so a neighbour that was playing keeps playing; and nothing
   * but `preload`, the reload count and `paused` changes.
   */
  function Primed(vs: seq<Video>, i: int, allowed: bool): (r: seq<Video>)
    ensures |r| == |vs|
    ensures forall n :: 0 <= n < |vs| && InWindow(n, i) ==> r[n].preload == Auto && r[n].loads == vs[n].loads + 1
    ensures forall n :: 0 <= n < |vs| && !InWindow(n, i) ==> r[n].preload == vs[n].preload && r[n].loads == vs[n].loads
    ensures forall n :: 0 <= n < |vs| && !InWindow(n, i) ==> r[n].paused
    ensures forall n :: 0 <= n < |vs| && InWindow(n, i) && n != i ==> r[n].paused == vs[n].paused
    ensures 0 <= i < |vs| ==> r[i].paused == (vs[i].paused && !allowed)
    ensures forall n :: 0 <= n < |vs| ==> r[n].(preload := vs[n].preload, loads := vs[n].loads, paused := vs[n].paused) == vs[n]
  {
    PlayAt(PauseOutside(LoadWindow(vs, i), i), i, allowed)
  }

  /**
   * The client setActiveClient highlights: the first whose `data-index` equals
   * `raw`, else the one at `clamped` if there is one, else the first.
   * `indices` holds each client's `Number(data-index)`, `None` where that is not
   * an integer.
   */
  function ChosenClient(indices: seq<Option<int>>, raw: int, clamped: int): (r: nat)
    requires |indices| > 0
    ensures r < |indices|
    ensures Some(raw) in indices ==> indices[r] == Some(raw)
    ensures Some(raw) in indices ==> forall c :: 0 <= c < r ==> indices[c] != Some(raw)
    ensures Some(raw) !in indices && 0 <= clamped < |indices| ==> r == clamped
    ensures Some(raw) !in indices && !(0 <= clamped < |indices|) ==> r == 0
  {
    match FirstIndex(indices, (x: Option<int>) => x == Some(raw))
    case Some(c) => c
    case None =>
      assert Some(raw) !in indices by {
        assert forall c :: 0 <= c < |indices| ==> indices[c] != Some(raw);
      }
      if 0 <= clamped < |indices| then clamped else 0
  }

  /** `Number(data-index) || 0`. */
  function IndexOrZero(index: Option<int>): int
  {
    match index
    case Some(x) => x
    case None => 0
  }

  /** `pos` holds the smallest distance, and no earlier position does. */
  predicate FirstNearest(dists: seq<nat>, pos: int)
  {
    && 0 <= pos < |dists|
    && (forall j :: 0 <= j < |dists| ==> dists[pos] <= dists[j])
    && (forall j :: 0 <= j < pos ==> dists[pos] < dists[j])
  }

  /**
   * The thumb-scroll pick: scanning the clients in order, keep the first whose
   * distance to the list's centre is strictly smaller than the best so far; the
   * chosen client's `data-index` (or 0) is where the deck goes.
   */
  method NearestItem(dists: seq<nat>, indices: seq<Option<int>>) returns (pos: nat, bestIdx: int)
    requires |dists| == |indices| > 0
    ensures pos < |dists|
    ensures forall j :: 0 <= j < |dists| ==> dists[pos] <= dists[j]
    ensures forall j :: 0 <= j < pos ==> dists[pos] < dists[j]
    ensures bestIdx == IndexOrZero(indices[pos])
  {
    bestIdx := 0;
    var bestDist: Option<nat> := None;
    pos := 0;
    var k := 0;
    while k < |dists|
      invariant 0 <= k <= |dists| && pos < |dists| && pos <= k
      invariant bestDist.None? <==> k == 0
      invariant k > 0 ==> pos < k && bestDist == Some(dists[pos]) && bestIdx == IndexOrZero(indices[pos])
      invariant k > 0 ==> forall j :: 0 <= j < k ==> dists[pos] <= dists[j]
      invariant forall j :: 0 <= j < pos ==> dists[pos] < dists[j]
    {
      if bestDist.None? || dists[k] < bestDist.value {
        bestDist := Some(dists[k]);
        bestIdx := IndexOrZero(indices[k]);
        pos := k;
      }
      k := k + 1;
    }
  }

  /** The defaults initProjects gives each video: muted, looping, inline, and `metadata` when no preload is set. */
  function DeckDefault(v: Video): (r: Video)
    ensures r.muted && r.looping && r.inline && r.paused == v.paused && r.loads == v.loads
    ensures v.preload == Unset ==> r.preload == Metadata
    ensures v.preload != Unset ==> r.preload == v.preload
  {
    v.(muted := true, looping := true, inline := true, preload := if v.preload == Unset then Metadata else v.preload)
  }

  /**
   * Re-running goTo on the active slide can move the highlight: a client found by
   * an exact `data-index` beyond the last slide gives way to the client whose
   * index is the clamped one.
   */
  lemma ResizeCanMoveHighlight()
    ensures ClampIndex(7, 5) == 4
    ensures ChosenClient([Some(7), Some(4)], 7, ClampIndex(7, 5)) == 0
    ensures ChosenClient([Some(7), Some(4)], ClampIndex(7, 5), ClampIndex(7, 5)) == 1
  {
  }

  /** The three gestures whose first occurrence unlocks autoplay. */
  datatype Gesture = PointerDown | KeyDown | TouchStart

  /**
   * The initProjects controller. `clientIndices`, `clientIsLink` and
   * `clientActive` describe the `.client` list items: the number in their
   * `data-index`, whether the item is an `<a>` with an `href`, and whether it
   * carries `is-active`.
   */
  class Deck {
    const slides: array<Slide>
    const clientIndices: seq<Option<int>>
    const clientIsLink: seq<bool>
    const clientActive: array<bool>
    const videos: array<Video>
    const tokenize: string -> seq<Match>
    var activeIndex: int
    /** The gestures whose once-only unlock listener has already fired. */
    var unlocked: set<Gesture>
    ghost var activeClient: nat

    /** The shape initProjects checks before it starts, and a sound caption tokenizer. */
    ghost predicate Wf()
      reads this, clientActive
    {
      && slides.Length > 0 && videos.Length > 0
      && |clientIndices| > 0 && |clientIsLink| == |clientIndices| && clientActive.Length == |clientIndices|
      && Sound(tokenize)
    }

    /** Exactly one slide, the one at `activeIndex`, and exactly one client are active. */
    ghost predicate Valid()
      reads this, slides, clientActive
    {
      && Wf()
      && 0 <= activeIndex < slides.Length
      && (forall s :: 0 <= s < slides.Length ==> (slides[s].active <==> s == activeIndex))
      && activeClient < clientActive.Length
      && (forall c :: 0 <= c < clientActive.Length ==> (clientActive[c] <==> c == activeClient))
    }

    constructor (slides: array<Slide>, clientIndices: seq<Option<int>>, clientIsLink: seq<bool>,
                 clientActive: array<bool>, videos: array<Video>, tokenize: string -> seq<Match>)
      ensures this.slides == slides && this.clientIndices == clientIndices && this.clientIsLink == clientIsLink
      ensures this.clientActive == clientActive && this.videos == videos && this.tokenize == tokenize
      ensures activeIndex == 0 && unlocked == {}
    {
      this.slides := slides;
      this.clientIndices := clientIndices;
      this.clientIsLink := clientIsLink;
      this.clientActive := clientActive;
      this.videos := videos;
      this.tokenize := tokenize;
      activeIndex := 0;
      unlocked := {};
      activeClient := 0;
    }

    /**
     * initProjects: nothing happens unless the container, the track, and at least
     * one slide, client and video exist; otherwise the videos get their defaults
     * and the deck goes to slide 0.
     */
    static method Init(hasContainer: bool, hasTrack: bool, slides: array<Slide>, clientIndices: seq<Option<int>>,
                       clientIsLink: seq<bool>, clientActive: array<bool>, videos: array<Video>,
                       tokenize: string -> seq<Match>, needsMore: bool, allowed: bool) returns (d: Deck?)
      requires Sound(tokenize)
      requires |clientIsLink| == |clientIndices| == clientActive.Length
      modifies slides, clientActive, videos
      ensures d == null <==> !hasContainer || !hasTrack || slides.Length == 0 || |clientIndices| == 0 || videos.Length == 0
      ensures d == null ==> unchanged(slides, clientActive, videos)
      ensures d != null ==> fresh(d) && d.Valid() && d.activeIndex == 0 && d.unlocked == {}
      ensures d != null ==> d.slides == slides && d.clientActive == clientActive && d.videos == videos
      ensures d != null ==> videos[..] == Primed(seq(videos.Length, n requires 0 <= n < videos.Length => DeckDefault(old(videos[n]))), 0, allowed)
      ensures d != null ==> forall s :: 0 <= s < slides.Length ==>
        slides[s] == SetCaptionClampAndMore(old(slides[s]).(active := s == 0), s == 0, needsMore, tokenize)
      ensures d != null ==> d.activeClient == ChosenClient(clientIndices, 0, 0)
    {
      if !hasContainer || !hasTrack || slides.Length == 0 || |clientIndices| == 0 || videos.Length == 0 {
        return null;
      }
      var n := 0;
      while n < videos.Length
        invariant 0 <= n <= videos.Length
        invariant forall j :: 0 <= j < n ==> videos[j] == DeckDefault(old(videos[j]))
        invariant forall j :: n <= j < videos.Length ==> videos[j] == old(videos[j])
        invariant slides[..] == old(slides[..])
      {
        videos[n] := DeckDefault(videos[n]);
        n := n + 1;
      }
      d := new Deck(slides, clientIndices, clientIsLink, clientActive, videos, tokenize);
      d.GoTo(0, needsMore, allowed);
    }

    /** tryPlay(videos[n]): a missing video or a rejected play gives `false` and changes nothing. */
    method TryPlay(n: int, allowed: bool) returns (ok: bool)
      modifies videos
      ensures ok == (allowed && 0 <= n < videos.Length)
      ensures videos[..] == PlayAt(old(videos[..]), n, allowed)
    {
      if allowed && 0 <= n < videos.Length {
        videos[n] := Playing(videos[n]);
        ok := true;
      } else {
        ok := false;
      }
    }

    /** primeAround(i): fetch the window, pause what plays outside it, try to play `videos[i]`. */
    method PrimeAround(i: int, allowed: bool)
      modifies videos
      ensures videos[..] == Primed(old(videos[..]), i, allowed)
    {
      var d := 0;
      while d < 3
        invariant 0 <= d <= 3
        invariant forall j :: 0 <= j < videos.Length ==>
          videos[j] == if i - 1 <= j < i - 1 + d then Requested(old(videos[j])) else old(videos[j])
      {
        var n := i - 1 + d;
        if 0 <= n < videos.Length {
          videos[n] := Requested(videos[n]);
        }
        d := d + 1;
      }
      assert videos[..] == LoadWindow(old(videos[..]), i);
      ghost var loaded := videos[..];
      var n := 0;
      while n < videos.Length
        invariant 0 <= n <= videos.Length
        invariant forall j :: 0 <= j < n ==> videos[j] == PauseOutside(loaded, i)[j]
        invariant forall j :: n <= j < videos.Length ==> videos[j] == loaded[j]
      {
        if !InWindow(n, i) && !videos[n].paused {
          videos[n] := Paused(videos[n]);
        }
        n := n + 1;
      }
      assert videos[..] == PauseOutside(loaded, i);
      var _ := TryPlay(i, allowed);
    }

    /** setActiveClient: clear every client, then highlight the chosen one. */
    method SetActiveClient(raw: int, clamped: int)
      requires Wf()
      modifies this, clientActive
      ensures Wf() && activeClient == ChosenClient(clientIndices, raw, clamped)
      ensures forall c :: 0 <= c < clientActive.Length ==> (clientActive[c] <==> c == activeClient)
      ensures activeIndex == old(activeIndex) && unlocked == old(unlocked)
    {
      var c := 0;
      while c < clientActive.Length
        invariant 0 <= c <= clientActive.Length
        invariant activeIndex == old(activeIndex) && unlocked == old(unlocked)
        invariant forall j :: 0 <= j < c ==> !clientActive[j]
      {
        clientActive[c] := false;
        c := c + 1;
      }
      var chosen := ChosenClient(clientIndices, raw, clamped);
      clientActive[chosen] := true;
      activeClient := chosen;
    }

    /**
     * goTo(raw): clamp, make exactly that slide active, clamp its caption and
     * decide its "Show more" button, highlight the matching client, prime the
     * videos around it.
     */
    method GoTo(raw: int, needsMore: bool, allowed: bool)
      requires Wf()
      modifies this, slides, clientActive, videos
      ensures Valid()
      ensures activeIndex == ClampIndex(raw, slides.Length)
      ensures forall s :: 0 <= s < slides.Length ==>
        slides[s] == SetCaptionClampAndMore(old(slides[s]).(active := s == activeIndex), s == activeIndex, needsMore, tokenize)
      ensures activeClient == ChosenClient(clientIndices, raw, activeIndex)
      ensures videos[..] == Primed(old(videos[..]), activeIndex, allowed)
      ensures unlocked == old(unlocked)
    {
      var i := ClampIndex(raw, slides.Length);
      activeIndex := i;
      var s := 0;
      while s < slides.Length
        invariant 0 <= s <= slides.Length
        invariant Wf() && activeIndex == i && unlocked == old(unlocked)
        invariant forall j :: 0 <= j < s ==>
          slides[j] == SetCaptionClampAndMore(old(slides[j]).(active := j == i), j == i, needsMore, tokenize)
        invariant forall j :: s <= j < slides.Length ==> slides[j] == old(slides[j])
        invariant videos[..] == old(videos[..])
      {
        var active := s == i;
        slides[s] := SetCaptionClampAndMore(slides[s].(active := active), active, needsMore, tokenize);
        s := s + 1;
      }
      SetActiveClient(raw, i);
      PrimeAround(i, allowed);
    }

    /** The once-only pointerdown, keydown and touchstart listeners: the first of each kind re-primes the active slide. */
    method OnGesture(g: Gesture, allowed: bool)
      requires Valid()
      modifies this, videos
      ensures Valid() && activeIndex == old(activeIndex)
      ensures unlocked == old(unlocked) + {g}
      ensures g in old(unlocked) ==> videos[..] == old(videos[..])
      ensures g !in old(unlocked) ==> videos[..] == Primed(old(videos[..]), activeIndex, allowed)
    {
      if g !in unlocked {
        unlocked := unlocked + {g};
        PrimeAround(activeIndex, allowed);
      }
    }

    /** visibilitychange: re-prime when the page becomes visible; hiding it pauses nothing. */
    method OnVisibilityChange(hidden: bool, allowed: bool)
      requires Valid()
      modifies videos
      ensures hidden ==> videos[..] == old(videos[..])
      ensures !hidden ==> videos[..] == Primed(old(videos[..]), activeIndex, allowed)
    {
      if !hidden {
        PrimeAround(activeIndex, allowed);
      }
    }

    /** A client's mouseenter: go to its `data-index` when that is a number. */
    method OnClientEnter(c: nat, needsMore: bool, allowed: bool)
      requires Valid() && c < |clientIndices|
      modifies this, slides, clientActive, videos
      ensures Valid()
      ensures clientIndices[c].None? ==> activeIndex == old(activeIndex) && activeClient == old(activeClient)
      ensures clientIndices[c].None? ==> unchanged(slides, clientActive, videos)
      ensures clientIndices[c].Some? ==> activeIndex == ClampIndex(clientIndices[c].value, slides.Length)
      ensures clientIndices[c].Some? ==> videos[..] == Primed(old(videos[..]), activeIndex, allowed)
      ensures clientIndices[c].Some? ==> activeClient == ChosenClient(clientIndices, clientIndices[c].value, activeIndex)
      ensures clientIndices[c].Some? ==> forall s :: 0 <= s < slides.Length ==>
        slides[s] == SetCaptionClampAndMore(old(slides[s]).(active := s == activeIndex), s == activeIndex, needsMore, tokenize)
    {
      if clientIndices[c].Some? {
        GoTo(clientIndices[c].value, needsMore, allowed);
      }
    }

    /** A client's click: a real link navigates away and is left to the browser; otherwise like mouseenter. */
    method OnClientClick(c: nat, needsMore: bool, allowed: bool)
      requires Valid() && c < |clientIndices|
      modifies this, slides, clientActive, videos
      ensures Valid()
      ensures clientIsLink[c] || clientIndices[c].None? ==> activeIndex == old(activeIndex) && unchanged(slides, clientActive, videos)
      ensures !clientIsLink[c] && clientIndices[c].Some? ==> activeIndex == ClampIndex(clientIndices[c].value, slides.Length)
      ensures !clientIsLink[c] && clientIndices[c].Some? ==> videos[..] == Primed(old(videos[..]), activeIndex, allowed)
      ensures !clientIsLink[c] && clientIndices[c].Some? ==> activeClient == ChosenClient(clientIndices, clientIndices[c].value, activeIndex)
      ensures !clientIsLink[c] && clientIndices[c].Some? ==> forall s :: 0 <= s < slides.Length ==>
        slides[s] == SetCaptionClampAndMore(old(slides[s]).(active := s == activeIndex), s == activeIndex, needsMore, tokenize)
    {
      if clientIsLink[c] {
        return;
      }
      if clientIndices[c].Some? {
        GoTo(clientIndices[c].value, needsMore, allowed);
      }
    }

    /**
     * The thumb-scroll handler on phones: go to the client nearest the centre of
     * the list. `dists` are the clients' distances to that centre.
     */
    method OnThumbScroll(isMobile: bool, hasList: bool, dists: seq<nat>, needsMore: bool, allowed: bool)
      requires Valid() && |dists| == |clientIndices|
      modifies this, slides, clientActive, videos
      ensures Valid()
      ensures !isMobile || !hasList ==> activeIndex == old(activeIndex) && unchanged(slides, clientActive, videos)
      ensures isMobile && hasList ==>
        exists pos :: FirstNearest(dists, pos) && activeIndex == ClampIndex(IndexOrZero(clientIndices[pos]), slides.Length)
          && activeClient == ChosenClient(clientIndices, IndexOrZero(clientIndices[pos]), activeIndex)
      ensures isMobile && hasList ==> videos[..] == Primed(old(videos[..]), activeIndex, allowed)
      ensures isMobile && hasList ==> forall s :: 0 <= s < slides.Length ==>
        slides[s] == SetCaptionClampAndMore(old(slides[s]).(active := s == activeIndex), s == activeIndex, needsMore, tokenize)
    {
      if !isMobile || !hasList {
        return;
      }
      var pos, bestIdx := NearestItem(dists, clientIndices);
      GoTo(bestIdx, needsMore, allowed);
    }

    /** resize: go to the active slide again. */
    method OnResize(needsMore: bool, allowed: bool)
      requires Valid()
      modifies this, slides, clientActive, videos
      ensures Valid() && activeIndex == old(activeIndex)
      ensures videos[..] == Primed(old(videos[..]), activeIndex, allowed)
      ensures activeClient == ChosenClient(clientIndices, activeIndex, activeIndex)
      ensures forall s :: 0 <= s < slides.Length ==>
        slides[s] == SetCaptionClampAndMore(old(slides[s]).(active := s == activeIndex), s == activeIndex, needsMore, tokenize)
    {
      GoTo(activeIndex, needsMore, allowed);
    }
  }
}
