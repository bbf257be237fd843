/**
 * The home page's in-page navigation: the link whose section lies under a probe
 * line (35% down the viewport) is marked active.
 *
 * Section geometry is an integer input; the side-title animation is not modelled.
 */
module ActiveNav {
  import opened Common

  /** The vertical extent of a section, as getBoundingClientRect reports it. */
  datatype Rect = Rect(top: int, bottom: int)

  predicate UnderProbe(r: Rect, probeY: int)
  {
    r.top <= probeY <= r.bottom
  }

  /** Section `k` is the first the probe line crosses. */
  predicate FirstUnder(rects: seq<Rect>, probeY: int, k: int)
  {
    0 <= k < |rects| && UnderProbe(rects[k], probeY) && forall j :: 0 <= j < k ==> !UnderProbe(rects[j], probeY)
  }

  /** updateActiveNav's loop: the first section, in document order of the links, that the probe line crosses. */
  method FirstUnderProbe(rects: seq<Rect>, probeY: int) returns (r: Option<nat>)
    ensures r.Some? ==> r.value < |rects| && UnderProbe(rects[r.value], probeY)
    ensures r.Some? ==> forall j :: 0 <= j < r.value ==> !UnderProbe(rects[j], probeY)
    ensures r.None? <==> forall j :: 0 <= j < |rects| ==> !UnderProbe(rects[j], probeY)
  {
    r := None;
    var k := 0;
    while k < |rects|
      invariant 0 <= k <= |rects|
      invariant forall j :: 0 <= j < k ==> !UnderProbe(rects[j], probeY)
    {
      if UnderProbe(rects[k], probeY) {
        r := Some(k);
        break;
      }
      k := k + 1;
    }
  }

  /**
   * initActiveNav. `linkTargets` are the ids the `.nav a[href^='#']` links point
   * to; `sectionIds` are the ids of the sections among them that exist, in the
   * same order; `linkActive` are the links' `is-active` flags.
   */
  class Nav {
    const linkTargets: seq<string>
    const sectionIds: seq<string>
    const linkActive: array<bool>

    constructor (linkTargets: seq<string>, sectionIds: seq<string>, linkActive: array<bool>)
      ensures this.linkTargets == linkTargets && this.sectionIds == sectionIds && this.linkActive == linkActive
    {
      this.linkTargets := linkTargets;
      this.sectionIds := sectionIds;
      this.linkActive := linkActive;
    }

    /**
     * Without links, or without any section they point to, nothing is wired and
     * no link changes; otherwise the links are highlighted once for the current
     * section boxes `rects`.
     */
    static method Create(linkTargets: seq<string>, sectionIds: seq<string>, linkActive: array<bool>,
                         rects: seq<Rect>, probeY: int) returns (nav: Nav?, activeId: Option<string>)
      requires linkActive.Length == |linkTargets| && |rects| == |sectionIds|
      modifies linkActive
      ensures nav == null <==> |linkTargets| == 0 || |sectionIds| == 0
      ensures nav == null ==> activeId.None? && linkActive[..] == old(linkActive[..])
      ensures nav != null ==> fresh(nav) && nav.linkTargets == linkTargets && nav.sectionIds == sectionIds
      ensures nav != null ==> nav.linkActive == linkActive
      ensures nav != null ==> (activeId.None? <==> forall j :: 0 <= j < |rects| ==> !UnderProbe(rects[j], probeY))
      ensures nav != null && activeId.Some? ==> exists k :: FirstUnder(rects, probeY, k) && activeId.value == sectionIds[k]
      ensures nav != null ==> forall a :: 0 <= a < linkActive.Length ==> (linkActive[a] <==> activeId == Some(linkTargets[a]))
    {
      if |linkTargets| == 0 || |sectionIds| == 0 {
        return null, None;
      }
      nav := new Nav(linkTargets, sectionIds, linkActive);
      activeId := nav.Update(rects, probeY);
    }

    /**
     * updateActiveNav on scroll or resize: exactly the links pointing to the first
     * section under the probe line are active, and none when no section is.
     * `rects` are the sections' boxes.
     */
    method Update(rects: seq<Rect>, probeY: int) returns (activeId: Option<string>)
      requires |rects| == |sectionIds| && linkActive.Length == |linkTargets|
      modifies linkActive
      ensures activeId.None? <==> forall j :: 0 <= j < |rects| ==> !UnderProbe(rects[j], probeY)
      ensures activeId.Some? ==> exists k :: FirstUnder(rects, probeY, k) && activeId.value == sectionIds[k]
      ensures forall a :: 0 <= a < linkActive.Length ==> (linkActive[a] <==> activeId == Some(linkTargets[a]))
    {
      var k := FirstUnderProbe(rects, probeY);
      activeId := if k.Some? then Some(sectionIds[k.value]) else None;
      var a := 0;
      while a < linkActive.Length
        invariant 0 <= a <= linkActive.Length
        invariant forall j :: 0 <= j < a ==> (linkActive[j] <==> activeId == Some(linkTargets[j]))
      {
        linkActive[a] := activeId == Some(linkTargets[a]);
        a := a + 1;
      }
    }
  }
}
