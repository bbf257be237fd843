/**
 * The experts drawer of the brand pages on narrow screens: a tab that opens and
 * closes the people panel, and a swipe to the right that closes it.
 *
 * Whether the `(max-width: 1100px)` media query matches is a parameter of each
 * call that re-evaluates it; touch coordinates are integers.
 */
module ExpertsDrawer {

  /** The swipe that closes the panel: more than 70 px to the right, less than 40 px up or down. */
  predicate SwipeCloses(dx: int, dy: int)
  {
    dx > 70 && -40 < dy < 40
  }

  class Drawer {
    /** Whether the `.brand-people` panel exists. */
    const hasPanel: bool
    /** The panel's `is-open` class. */
    var open: bool
    /** Whether the `.expertsTab` button is in the panel. */
    var hasTab: bool
    /** Whether the touch handlers have been attached to the panel. */
    var swipeWired: bool
    var sx: int
    var sy: int
    var tracking: bool

    /**
     * Without a panel nothing ever appears; a tab comes with its touch handlers,
     * and the swipe state only exists once those handlers do.
     */
    predicate Valid()
      reads this
    {
      && (!hasPanel ==> !open && !hasTab && !swipeWired)
      && (hasTab ==> swipeWired)
      && (tracking ==> swipeWired)
    }

    constructor (hasPanel: bool)
      ensures Valid() && this.hasPanel == hasPanel
      ensures !open && !hasTab && !swipeWired && !tracking
    {
      this.hasPanel := hasPanel;
      open := false;
      hasTab := false;
      swipeWired := false;
      sx, sy := 0, 0;
      tracking := false;
    }

    /**
     * ensureExpertsTab, at start-up and on every change of the media query: on wide
     * screens the panel is closed and the tab removed; on narrow ones a missing tab
     * is created together with its touch handlers.
     */
    method EnsureExpertsTab(narrow: bool)
      requires Valid()
      modifies this
      ensures Valid()
      ensures hasPanel && !narrow ==> !open && !hasTab
      ensures hasPanel && narrow ==> hasTab && swipeWired && open == old(open)
      ensures !hasPanel ==> open == old(open) && hasTab == old(hasTab) && swipeWired == old(swipeWired)
      ensures tracking == old(tracking) && sx == old(sx) && sy == old(sy)
    {
      if !hasPanel {
        return;
      }
      if !narrow {
        open := false;
        hasTab := false;
        return;
      }
      if !hasTab {
        hasTab := true;
        swipeWired := true;
      }
    }

    /** A click on the tab flips the panel. */
    method OnTabClick()
      requires Valid() && hasTab
      modifies this
      ensures Valid() && open == !old(open)
      ensures hasTab && tracking == old(tracking)
    {
      open := !open;
    }

    /** touchstart on an open panel records where the touch began and starts tracking. */
    method OnTouchStart(hasTouch: bool, x: int, y: int)
      requires Valid()
      modifies this
      ensures Valid() && open == old(open) && hasTab == old(hasTab)
      ensures swipeWired && old(open) && hasTouch ==> tracking && sx == x && sy == y
      ensures !(swipeWired && old(open) && hasTouch) ==> tracking == old(tracking) && sx == old(sx) && sy == old(sy)
    {
      if !swipeWired || !open || !hasTouch {
        return;
      }
      sx, sy := x, y;
      tracking := true;
    }

    /**
     * touchmove while tracking: the panel closes exactly when the movement since
     * touchstart is a closing swipe, and tracking then stops.
     */
    method OnTouchMove(hasTouch: bool, x: int, y: int)
      requires Valid()
      modifies this
      ensures Valid() && hasTab == old(hasTab) && sx == old(sx) && sy == old(sy)
      ensures old(tracking) && hasTouch && SwipeCloses(x - sx, y - sy) ==> !open && !tracking
      ensures !(old(tracking) && hasTouch && SwipeCloses(x - sx, y - sy)) ==> open == old(open) && tracking == old(tracking)
    {
      if !tracking || !hasTouch {
        return;
      }
      var dx := x - sx;
      var dy := y - sy;
      if dx > 70 && (if dy < 0 then -dy else dy) < 40 {
        tracking := false;
        open := false;
      }
    }

    /** touchend stops tracking. */
    method OnTouchEnd()
      requires Valid()
      modifies this
      ensures Valid() && open == old(open) && hasTab == old(hasTab)
      ensures swipeWired ==> !tracking
      ensures !swipeWired ==> tracking == old(tracking)
    {
      if swipeWired {
        tracking := false;
      }
    }
  }
}
