/**
 * The left navigation of the brand pages and the people list beside it: one
 * section is active, the left links pointing to it are highlighted, and the list
 * shows the people the page's data gives for that section, after a short fade.
 *
 * `JSON.parse` is an input function; the 140 ms timer of renderPeopleFor is an
 * explicit later step (`FinishRender`); scroll position and entry geometry are
 * integers; the intersection observer's batches are explicit calls.
 */
module BrandSections {
  import opened Common
  import opened Text

  datatype Person = Person(name: string, meta: string)

  /** A `sections[id]` value of the page data: an array of people, or anything else. */
  datatype PeopleEntry = PeopleList(people: seq<Person>) | NotAList

  /**
   * What `JSON.parse` makes of the data tag's text: a syntax error, a value that is
   * not an object, or an object whose `sections` is an object (`Some`) or is
   * missing or not an object (`None`).
   */
  datatype Parsed = Invalid | NotAnObject | Object(sections: Option<map<string, PeopleEntry>>)

  /**
   * readBrandData, followed by `BRAND_DATA.sections || {}`: the people per
   * section, or no sections at all whenever the tag is missing, blank, not JSON or
   * not an object with sections.
   */
  function ReadBrandData(tag: Option<string>, parse: string -> Parsed): (r: map<string, PeopleEntry>)
    ensures tag.None? ==> r == map[]
    ensures tag.Some? && AllWhitespace(tag.value) ==> r == map[]
    ensures r != map[] ==> tag.Some? && Trim(tag.value) != "" && parse(Trim(tag.value)) == Object(Some(r))
    ensures tag.Some? && Trim(tag.value) != "" && parse(Trim(tag.value)).Object? && parse(Trim(tag.value)).sections.Some?
      ==> r == parse(Trim(tag.value)).sections.value
  {
    match tag
    case None => map[]
    case Some(text) =>
      var raw := Trim(text);
      if raw == "" then map[]
      else
        match parse(raw)
        case Object(Some(m)) => m
        case _ => map[]
  }

  /** The people renderPeopleFor would show for a section; empty when it restores the default list. */
  function PeopleOf(sections: map<string, PeopleEntry>, id: string): seq<Person>
  {
    if id in sections && sections[id].PeopleList? then sections[id].people else []
  }

  /** What the people list shows: the page's default HTML, or the people of a section. */
  datatype PeopleView = Default | Rendered(people: seq<Person>)

  /** What the people list should show once the active section's render has settled. */
  function Expected(sections: map<string, PeopleEntry>, id: string): (r: PeopleView)
    ensures r.Rendered? <==> |PeopleOf(sections, id)| > 0
    ensures r.Rendered? ==> r.people == PeopleOf(sections, id)
  {
    if |PeopleOf(sections, id)| > 0 then Rendered(PeopleOf(sections, id)) else Default
  }

  /** One intersection-observer entry: the anchor's id, whether it intersects, and its box's top. */
  datatype Entry = Entry(id: string, intersecting: bool, top: int)

  /**
   * The scroll-spy pick: the intersecting entry with the smallest top, the earliest
   * one among equal tops (the sort is stable).
   */
  function Topmost(entries: seq<Entry>): (r: Option<nat>)
    ensures r.Some? ==> r.value < |entries| && entries[r.value].intersecting
    ensures r.Some? ==> forall j :: 0 <= j < |entries| && entries[j].intersecting ==> entries[r.value].top <= entries[j].top
    ensures r.Some? ==> forall j :: 0 <= j < r.value && entries[j].intersecting ==> entries[r.value].top < entries[j].top
    ensures r.None? <==> forall j :: 0 <= j < |entries| ==> !entries[j].intersecting
  {
    if |entries| == 0 then None
    else
      var rest := Topmost(entries[1..]);
      assert forall j :: 1 <= j < |entries| ==> entries[j] == entries[1..][j - 1];
      if !entries[0].intersecting then
        match rest
        case None => None
        case Some(k) => Some(k + 1)
      else
        match rest
        case None => Some(0)
        case Some(k) => if entries[k + 1].top < entries[0].top then Some(k + 1) else Some(0)
  }

  /** Where the first `#` at or after `k` is, or `|s|` when there is none. */
  function HashFrom(s: string, k: nat): (i: nat)
    requires k <= |s|
    ensures k <= i <= |s|
    ensures forall j :: k <= j < i ==> s[j] != '#'
    ensures i == |s| || s[i] == '#'
    decreases |s| - k
  {
    if k == |s| || s[k] == '#' then k else HashFrom(s, k + 1)
  }

  /** `hash.replace("#", "")`: the first `#` removed. */
  function DropFirstHash(s: string): (r: string)
    ensures '#' !in s ==> r == s
    ensures |s| > 0 && s[0] == '#' ==> r == s[1..]
    ensures '#' in s ==> |r| == |s| - 1
    ensures '#' in s ==> exists i :: 0 <= i < |s| && s[i] == '#' && '#' !in s[..i] && r == s[..i] + s[i + 1..]
  {
    var i := HashFrom(s, 0);
    if i == |s| then s
    else
      assert '#' !in s[..i] by {
        assert forall j :: 0 <= j < i ==> s[..i][j] == s[j];
      }
      s[..i] + s[i + 1..]
  }

  /** The scroll position at or above which the first section is forced active. */
  const TopLockPx: int := 180

  /**
   * What section activation drives: the active section id, what the people list
   * shows, whether it is fading, and the renders waiting for their timers.
   */
  datatype ListState = ListState(active: string, view: PeopleView, fading: bool, pending: seq<string>)

  /**
   * The left-navigation state of a brand page. `anchorIds` are the ids of the
   * `.brand-anchor[id]` sections in document order; `linkAnchors` and
   * `linkActive` are the `data-anchor` and `is-active` of the left links;
   * `pending` are the deferred renders, in the order their timers fire.
   */
  class SectionSpy {
    const anchorIds: seq<string>
    const linkAnchors: seq<string>
    const sections: map<string, PeopleEntry>
    const hasPeopleList: bool
    const linkActive: array<bool>
    var activeSectionId: string
    var view: PeopleView
    var fading: bool
    var pending: seq<string>

    /** Once a section is active, exactly the left links pointing to it are highlighted. */
    predicate LinksMatch()
      reads this, linkActive
    {
      activeSectionId != "" ==> forall j :: 0 <= j < linkActive.Length && j < |linkAnchors| ==> (linkActive[j] <==> linkAnchors[j] == activeSectionId)
    }

    /** When no fade is in progress, the list shows what the active section calls for. */
    predicate ViewSettled()
      reads this
    {
      hasPeopleList && activeSectionId != "" && !fading ==> view == Expected(sections, activeSectionId)
    }

    /** Only sections with people ever have a render scheduled. */
    predicate PendingHavePeople()
      reads this
    {
      forall k :: 0 <= k < |pending| ==> |PeopleOf(sections, pending[k])| > 0
    }

    /** The list state of this page. */
    function State(): ListState
      reads this
    {
      ListState(activeSectionId, view, fading, pending)
    }

    /**
     * renderPeopleFor on a list state: nothing without the list; the default
     * list at once for a section without people; otherwise a fade and a
     * scheduled render.
     */
    function RenderFor(st: ListState, id: string): ListState
    {
      if !hasPeopleList then st
      else if |PeopleOf(sections, id)| == 0 then st.(view := Default)
      else st.(fading := true, pending := st.pending + [id])
    }

    /** activateSection on a list state: an empty or already active id changes nothing. */
    function Activate(st: ListState, id: string): ListState
    {
      if id == "" || id == st.active then st else RenderFor(st.(active := id), id)
    }

    /** The oldest render's timer on a list state: it draws only for the still active section. */
    function Finish(st: ListState): ListState
    {
      if st.pending == [] then st
      else if st.pending[0] == st.active then
        st.(pending := st.pending[1..], view := Rendered(PeopleOf(sections, st.active)), fading := false)
      else st.(pending := st.pending[1..])
    }

    /** topLock on a list state. */
    function Locked(st: ListState, scrollY: int): ListState
    {
      if |anchorIds| > 0 && scrollY <= TopLockPx then Activate(st, anchorIds[0]) else st
    }

    /** The section initScrollSpy starts with: the fragment without its `#`, or the first anchor. */
    function InitialId(hash: string): string
      requires |anchorIds| > 0
    {
      if hash != "" then DropFirstHash(hash) else anchorIds[0]
    }

    /** Activating the same section twice is activating it once. */
    lemma ActivateIdempotent(st: ListState, id: string)
      ensures Activate(Activate(st, id), id) == Activate(st, id)
    {
    }

    /**
     * With the list present and nothing pending, activating a section with people
     * and letting its timer fire shows exactly those people, with the fade over.
     */
    lemma ActivateThenFinish(st: ListState, id: string)
      requires hasPeopleList && st.pending == [] && id != "" && id != st.active && |PeopleOf(sections, id)| > 0
      ensures Finish(Activate(st, id)) == ListState(id, Rendered(PeopleOf(sections, id)), false, [])
    {
    }

    predicate Valid()
      reads this, linkActive
    {
      && linkActive.Length == |linkAnchors|
      && LinksMatch()
      && ViewSettled()
      && PendingHavePeople()
      && (!hasPeopleList ==> view == Default && !fading && pending == [])
    }

    constructor (anchorIds: seq<string>, linkAnchors: seq<string>, sections: map<string, PeopleEntry>,
                 hasPeopleList: bool, linkActive: array<bool>)
      requires linkActive.Length == |linkAnchors|
      ensures Valid()
      ensures this.anchorIds == anchorIds && this.linkAnchors == linkAnchors && this.sections == sections
      ensures this.hasPeopleList == hasPeopleList && this.linkActive == linkActive
      ensures activeSectionId == "" && view == Default && !fading && pending == []
    {
      this.anchorIds := anchorIds;
      this.linkAnchors := linkAnchors;
      this.sections := sections;
      this.hasPeopleList := hasPeopleList;
      this.linkActive := linkActive;
      activeSectionId := "";
      view := Default;
      fading := false;
      pending := [];
    }

    /** setActiveLeftLink: highlight exactly the links pointing to `anchorId`; an empty id does nothing. */
    method SetActiveLeftLink(anchorId: string)
      requires linkActive.Length == |linkAnchors|
      modifies linkActive
      ensures anchorId == "" ==> linkActive[..] == old(linkActive[..])
      ensures anchorId != "" ==> forall j :: 0 <= j < linkActive.Length ==> (linkActive[j] <==> linkAnchors[j] == anchorId)
    {
      if anchorId == "" {
        return;
      }
      var j := 0;
      while j < linkActive.Length
        invariant 0 <= j <= linkActive.Length
        invariant forall i :: 0 <= i < j ==> (linkActive[i] <==> linkAnchors[i] == anchorId)
      {
        linkActive[j] := linkAnchors[j] == anchorId;
        j := j + 1;
      }
    }

    /**
     * renderPeopleFor: a section without people restores the default list at once
     * (leaving any fade as it is); one with people starts the fade and schedules
     * the render.
     */
    method RenderPeopleFor(anchorId: string)
      modifies this
      ensures activeSectionId == old(activeSectionId)
      ensures !hasPeopleList ==> view == old(view) && fading == old(fading) && pending == old(pending)
      ensures hasPeopleList && |PeopleOf(sections, anchorId)| == 0 ==>
        view == Default && fading == old(fading) && pending == old(pending)
      ensures hasPeopleList && |PeopleOf(sections, anchorId)| > 0 ==>
        view == old(view) && fading && pending == old(pending) + [anchorId]
      ensures State() == RenderFor(old(State()), anchorId)
    {
      if !hasPeopleList {
        return;
      }
      var people := PeopleOf(sections, anchorId);
      if |people| == 0 {
        if view != Default {
          view := Default;
        }
        return;
      }
      fading := true;
      pending := pending + [anchorId];
    }

    /**
     * The timer of the oldest pending render fires: it draws the people and ends
     * the fade only if its section is still the active one.
     */
    method FinishRender()
      requires Valid()
      modifies this
      ensures Valid()
      ensures activeSectionId == old(activeSectionId)
      ensures old(pending) == [] ==> view == old(view) && fading == old(fading) && pending == []
      ensures old(pending) != [] ==> pending == old(pending)[1..]
      ensures old(pending) != [] && old(pending)[0] == activeSectionId ==>
        view == Rendered(PeopleOf(sections, activeSectionId)) && !fading
      ensures old(pending) != [] && old(pending)[0] != activeSectionId ==> view == old(view) && fading == old(fading)
      ensures State() == Finish(old(State()))
    {
      if pending == [] {
        return;
      }
      var anchorId := pending[0];
      pending := pending[1..];
      if activeSectionId != anchorId {
        return;
      }
      view := Rendered(PeopleOf(sections, anchorId));
      fading := false;
    }

    /**
     * activateSection: an empty id or the already active id changes nothing;
     * otherwise the section becomes active, its links are highlighted and its
     * people are rendered.
     */
    method ActivateSection(anchorId: string)
      requires Valid()
      modifies this, linkActive
      ensures Valid()
      ensures anchorId == "" || anchorId == old(activeSectionId) ==>
        activeSectionId == old(activeSectionId) && view == old(view) && fading == old(fading) && pending == old(pending)
      ensures anchorId == "" || anchorId == old(activeSectionId) ==> linkActive[..] == old(linkActive[..])
      ensures anchorId != "" ==> activeSectionId == anchorId
      ensures anchorId != "" && anchorId != old(activeSectionId) && hasPeopleList && |PeopleOf(sections, anchorId)| == 0 ==>
        view == Default && fading == old(fading) && pending == old(pending)
      ensures anchorId != "" && anchorId != old(activeSectionId) && hasPeopleList && |PeopleOf(sections, anchorId)| > 0 ==>
        view == old(view) && fading && pending == old(pending) + [anchorId]
      ensures State() == Activate(old(State()), anchorId)
    {
      if anchorId == "" || anchorId == activeSectionId {
        return;
      }
      activeSectionId := anchorId;
      SetActiveLeftLink(anchorId);
      RenderPeopleFor(anchorId);
    }

    /** A click on a left link activates its section. */
    method OnLeftLinkClick(j: nat)
      requires Valid() && j < |linkAnchors|
      modifies this, linkActive
      ensures Valid()
      ensures linkAnchors[j] != "" ==> activeSectionId == linkAnchors[j] && linkActive[j]
      ensures linkAnchors[j] == "" ==> activeSectionId == old(activeSectionId)
      ensures linkAnchors[j] == "" || linkAnchors[j] == old(activeSectionId) ==> linkActive[..] == old(linkActive[..])
      ensures State() == Activate(old(State()), linkAnchors[j])
    {
      var id := linkAnchors[j];
      if id != "" {
        ActivateSection(id);
      }
    }

    /** topLock: near the top of the page the first section is active, whatever else happened. */
    method TopLock(scrollY: int)
      requires Valid()
      modifies this, linkActive
      ensures Valid()
      ensures |anchorIds| > 0 && anchorIds[0] != "" && scrollY <= TopLockPx ==> activeSectionId == anchorIds[0]
      ensures !(|anchorIds| > 0 && anchorIds[0] != "" && scrollY <= TopLockPx) ==>
        activeSectionId == old(activeSectionId) && view == old(view) && fading == old(fading)
      ensures !(|anchorIds| > 0 && scrollY <= TopLockPx && anchorIds[0] != "" && anchorIds[0] != old(activeSectionId)) ==>
        linkActive[..] == old(linkActive[..])
      ensures State() == Locked(old(State()), scrollY)
    {
      var firstId := if |anchorIds| > 0 then anchorIds[0] else "";
      if firstId == "" {
        return;
      }
      if scrollY <= TopLockPx {
        ActivateSection(firstId);
      }
    }

    /**
     * initScrollSpy: activate the section named by the URL fragment, or the first
     * one, then apply the top lock once. Near the top of the page the top lock
     * wins over the fragment.
     */
    method InitScrollSpy(hash: string, scrollY: int)
      requires Valid()
      modifies this, linkActive
      ensures Valid()
      ensures |anchorIds| == 0 ==> activeSectionId == old(activeSectionId)
      ensures |anchorIds| > 0 && anchorIds[0] != "" && scrollY <= TopLockPx ==> activeSectionId == anchorIds[0]
      ensures |anchorIds| > 0 && scrollY > TopLockPx && hash != "" && DropFirstHash(hash) != "" ==>
        activeSectionId == DropFirstHash(hash)
      ensures |anchorIds| > 0 && scrollY > TopLockPx && hash == "" && anchorIds[0] != "" ==> activeSectionId == anchorIds[0]
      ensures |anchorIds| == 0 ==> State() == old(State()) && linkActive[..] == old(linkActive[..])
      ensures |anchorIds| > 0 ==> State() == Locked(Activate(old(State()), InitialId(hash)), scrollY)
    {
      if |anchorIds| == 0 {
        return;
      }
      var initial := if hash != "" then DropFirstHash(hash) else anchorIds[0];
      if initial != "" {
        ActivateSection(initial);
      }
      TopLock(scrollY);
    }

    /** The scroll-spy observer: activate the topmost intersecting anchor of the batch, if any. */
    method OnIntersect(entries: seq<Entry>)
      requires Valid()
      modifies this, linkActive
      ensures Valid()
      ensures Topmost(entries).None? ==> activeSectionId == old(activeSectionId) && view == old(view)
      ensures Topmost(entries).Some? && entries[Topmost(entries).value].id != "" ==>
        activeSectionId == entries[Topmost(entries).value].id
      ensures Topmost(entries).None? ==> State() == old(State())
      ensures Topmost(entries).None? || entries[Topmost(entries).value].id in {"", old(activeSectionId)} ==>
        linkActive[..] == old(linkActive[..])
      ensures Topmost(entries).Some? ==> State() == Activate(old(State()), entries[Topmost(entries).value].id)
    {
      var k := Topmost(entries);
      if k.Some? {
        ActivateSection(entries[k.value].id);
      }
    }
  }

  /**
   * The deferred render's staleness guard drops a stale render but not its fade:
   * activating a section with people and then, before its timer fires, one
   * without people leaves the default list showing and still fading, with no
   * render pending that would end the fade.
   */
  method StaleFadeExample() returns (fading: bool, view: PeopleView, pending: seq<string>)
    ensures fading && view == Default && pending == []
  {
    var links := new bool[2];
    var spy := new SectionSpy(["a", "b"], ["a", "b"], map["a" := PeopleList([Person("Ada", "Director")])], true, links);
    spy.ActivateSection("a");
    spy.ActivateSection("b");
    spy.FinishRender();
    fading, view, pending := spy.fading, spy.view, spy.pending;
  }
}
