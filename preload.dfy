/**
 * The staged preload of the projects section: every video gets light defaults at
 * once, the first three are warmed after the intro, and all of them are loaded the
 * first time the section comes near the viewport.
 *
 * The intersection observer is not modelled; each batch of entries it would
 * deliver is an explicit call carrying the entries' `isIntersecting` flags.
 */
module ProjectsPreload {
  import opened Videos

  /** How many videos warmStart fetches ahead of time. */
  const WarmCount: nat := 3

  /** The defaults applyLightDefaults gives a video. */
  function LightDefault(v: Video): (r: Video)
    ensures r.muted && r.looping && r.inline && r.preload == Metadata
    ensures r.paused == v.paused && r.loads == v.loads
  {
    v.(muted := true, looping := true, inline := true, preload := Metadata)
  }

  /** applyLightDefaults over every video. */
  function LightDefaults(vs: seq<Video>): (r: seq<Video>)
    ensures |r| == |vs|
    ensures forall n :: 0 <= n < |r| ==> r[n].muted && r[n].looping && r[n].inline && r[n].preload == Metadata
    ensures forall n :: 0 <= n < |r| ==> r[n].paused == vs[n].paused && r[n].loads == vs[n].loads
  {
    seq(|vs|, n requires 0 <= n < |vs| => LightDefault(vs[n]))
  }

  /** warmStart: the first `WarmCount` videos are requested in full; the others are untouched. */
  function Warmed(vs: seq<Video>): (r: seq<Video>)
    ensures |r| == |vs|
    ensures forall n :: WarmCount <= n < |vs| ==> r[n] == vs[n]
    ensures forall n :: 0 <= n < |vs| && n < WarmCount ==> r[n].preload == Auto && r[n].loads == vs[n].loads + 1
    ensures forall n :: 0 <= n < |vs| ==> r[n].paused == vs[n].paused
    ensures forall n :: 0 <= n < |vs| ==> r[n].(preload := vs[n].preload, loads := vs[n].loads) == vs[n]
  {
    seq(|vs|, n requires 0 <= n < |vs| => if n < WarmCount then Requested(vs[n]) else vs[n])
  }

  /** What loadAllWhenNear does to every video once it fires. */
  function AllRequested(vs: seq<Video>): (r: seq<Video>)
    ensures |r| == |vs|
    ensures forall n :: 0 <= n < |vs| ==> r[n].preload == Auto && r[n].loads == vs[n].loads + 1
    ensures forall n :: 0 <= n < |vs| ==> r[n].paused == vs[n].paused
    ensures forall n :: 0 <= n < |vs| ==> r[n].(preload := vs[n].preload, loads := vs[n].loads) == vs[n]
  {
    seq(|vs|, n requires 0 <= n < |vs| => Requested(vs[n]))
  }

  /** Whether a batch of observer entries has one that is intersecting. */
  predicate AnyIntersecting(batch: seq<bool>)
  {
    exists e :: 0 <= e < |batch| && batch[e]
  }

  /** The videos and the observer's connection after one batch of entries. */
  datatype NearState = NearState(videos: seq<Video>, observing: bool)

  /** The observer callback for one batch; a disconnected observer delivers nothing. */
  function OnNear(s: NearState, batch: seq<bool>): (r: NearState)
    ensures !s.observing || !AnyIntersecting(batch) ==> r == s
    ensures s.observing && AnyIntersecting(batch) ==> r == NearState(AllRequested(s.videos), false)
  {
    if s.observing && AnyIntersecting(batch) then NearState(AllRequested(s.videos), false) else s
  }

  /** The state after a run of batches. */
  function AfterBatches(s: NearState, batches: seq<seq<bool>>): NearState
    decreases |batches|
  {
    if |batches| == 0 then s else AfterBatches(OnNear(s, batches[0]), batches[1..])
  }

  /** Whether some batch in the run has an intersecting entry. */
  predicate SomeNear(batches: seq<seq<bool>>)
  {
    exists k :: 0 <= k < |batches| && AnyIntersecting(batches[k])
  }

  /**
   * loadAllWhenNear acts once: whatever batches arrive, every video is requested
   * exactly once if one of them has an intersecting entry (and the observer is then
   * disconnected), and nothing happens otherwise.
   */
  lemma {:induction false} LoadAllOnce(vs: seq<Video>, batches: seq<seq<bool>>)
    ensures SomeNear(batches) ==> AfterBatches(NearState(vs, true), batches) == NearState(AllRequested(vs), false)
    ensures !SomeNear(batches) ==> AfterBatches(NearState(vs, true), batches) == NearState(vs, true)
  {
    if |batches| > 0 {
      var first := OnNear(NearState(vs, true), batches[0]);
      if AnyIntersecting(batches[0]) {
        DisconnectedStays(first, batches[1..]);
      } else {
        LoadAllOnce(vs, batches[1..]);
        assert SomeNear(batches) ==> SomeNear(batches[1..]) by {
          if SomeNear(batches) {
            var k :| 0 <= k < |batches| && AnyIntersecting(batches[k]);
            assert k > 0 && AnyIntersecting(batches[1..][k - 1]);
          }
        }
        assert SomeNear(batches[1..]) ==> SomeNear(batches) by {
          if SomeNear(batches[1..]) {
            var k :| 0 <= k < |batches[1..]| && AnyIntersecting(batches[1..][k]);
            assert AnyIntersecting(batches[k + 1]);
          }
        }
      }
    }
  }

  /** After disconnect, no batch changes anything. */
  lemma {:induction false} DisconnectedStays(s: NearState, batches: seq<seq<bool>>)
    requires !s.observing
    ensures AfterBatches(s, batches) == s
  {
    if |batches| > 0 {
      DisconnectedStays(s, batches[1..]);
    }
  }

  /**
   * The projectsPreload controller. `videos` are the `.slide video` elements of
   * the projects section, the same elements the projects deck drives.
   */
  class Preloader {
    const videos: array<Video>
    var observing: bool

    /** The current state of the loadAllWhenNear observer and the videos. */
    function Near(): NearState
      reads this, videos
    {
      NearState(videos[..], observing)
    }

    constructor Start(videos: array<Video>)
      requires videos.Length > 0
      modifies videos
      ensures this.videos == videos && observing
      ensures videos[..] == LightDefaults(old(videos[..]))
    {
      this.videos := videos;
      observing := true;
      new;
      ApplyLightDefaults();
    }

    /**
     * The projectsPreload block: nothing without the section or without videos;
     * otherwise light defaults for all and an observer waiting for the section.
     */
    static method Create(hasRoot: bool, videos: array<Video>) returns (p: Preloader?)
      modifies videos
      ensures p == null <==> !hasRoot || videos.Length == 0
      ensures p == null ==> videos[..] == old(videos[..])
      ensures p != null ==> fresh(p) && p.videos == videos && p.observing
      ensures p != null ==> videos[..] == LightDefaults(old(videos[..]))
    {
      if !hasRoot || videos.Length == 0 {
        return null;
      }
      p := new Preloader.Start(videos);
    }

    /** applyLightDefaults: muted, looping, inline, `preload = "metadata"` for every video. */
    method ApplyLightDefaults()
      modifies videos
      ensures videos[..] == LightDefaults(old(videos[..]))
    {
      var n := 0;
      while n < videos.Length
        invariant 0 <= n <= videos.Length
        invariant forall j :: 0 <= j < n ==> videos[j] == LightDefault(old(videos[j]))
        invariant forall j :: n <= j < videos.Length ==> videos[j] == old(videos[j])
      {
        videos[n] := LightDefault(videos[n]);
        n := n + 1;
      }
    }

    /** warmStart, run once the intro has finished. */
    method WarmStart()
      modifies videos
      ensures videos[..] == Warmed(old(videos[..]))
    {
      var n := 0;
      while n < videos.Length && n < WarmCount
        invariant 0 <= n <= videos.Length && n <= WarmCount
        invariant forall j :: 0 <= j < n ==> videos[j] == Requested(old(videos[j]))
        invariant forall j :: n <= j < videos.Length ==> videos[j] == old(videos[j])
      {
        videos[n] := Requested(videos[n]);
        n := n + 1;
      }
    }

    /** The loadAllWhenNear observer callback for one batch of entries. */
    method OnNearBatch(batch: seq<bool>)
      modifies this, videos
      ensures Near() == OnNear(old(Near()), batch)
    {
      if !observing {
        return;
      }
      var e := 0;
      while e < |batch| && !batch[e]
        invariant 0 <= e <= |batch|
        invariant forall j :: 0 <= j < e ==> !batch[j]
      {
        e := e + 1;
      }
      if e == |batch| {
        return;
      }
      var n := 0;
      while n < videos.Length
        invariant 0 <= n <= videos.Length
        invariant forall j :: 0 <= j < n ==> videos[j] == Requested(old(videos[j]))
        invariant forall j :: n <= j < videos.Length ==> videos[j] == old(videos[j])
      {
        videos[n] := Requested(videos[n]);
        n := n + 1;
      }
      observing := false;
    }
  }
}
