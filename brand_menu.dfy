/**
 * The hamburger menu of the brand pages: a `<details>` wrapper whose `open` flag
 * is the menu's state, the ARIA attributes of its summary button and of the menu,
 * and a backdrop element that exists while the menu is open.
 *
 * The `toggle` event a change of `open` queues is delivered right after the
 * handler that caused it.
 */
module BrandMenu {

  class Menu {
    /** Whether `details.brandMenuWrap`, the `.brandMenuBtn` summary and the `.brandMenu` exist. */
    const hasDetails: bool
    const hasButton: bool
    const hasMenu: bool
    var detailsOpen: bool
    /** `aria-expanded="true"` on the button. */
    var ariaExpanded: bool
    /** `aria-hidden="true"` on the menu. */
    var ariaHidden: bool
    /** Whether a `.mmMenuBackdrop` element is in the document. */
    var backdrop: bool

    /** isMenuOpen: only a details wrapper can be open. */
    predicate IsMenuOpen()
      reads this
    {
      hasDetails && detailsOpen
    }

    /** The ARIA attributes that exist say what the menu's state is. */
    predicate AriaConsistent()
      reads this
    {
      && (hasButton ==> ariaExpanded == IsMenuOpen())
      && (hasMenu ==> ariaHidden == !IsMenuOpen())
    }

    /** With a details wrapper, the backdrop exists exactly while the menu is open. */
    predicate BackdropInSync()
      reads this
    {
      hasDetails ==> (backdrop <==> IsMenuOpen())
    }

    /**
     * The state every handler keeps: with a details wrapper, consistent ARIA and
     * backdrop; without one, no backdrop is ever created.
     */
    predicate Valid()
      reads this
    {
      && (hasDetails ==> AriaConsistent() && BackdropInSync())
      && (!hasDetails ==> !backdrop)
    }

    /**
     * Page set-up: the ARIA attributes are initialised from the menu's state, and
     * with a details wrapper the backdrop is synchronised once.
     */
    constructor (hasDetails: bool, hasButton: bool, hasMenu: bool, detailsOpen: bool)
      ensures this.hasDetails == hasDetails && this.hasButton == hasButton && this.hasMenu == hasMenu
      ensures this.detailsOpen == detailsOpen
      ensures AriaConsistent() && BackdropInSync() && Valid()
      ensures backdrop == (hasDetails && detailsOpen)
    {
      this.hasDetails := hasDetails;
      this.hasButton := hasButton;
      this.hasMenu := hasMenu;
      this.detailsOpen := detailsOpen;
      ariaExpanded := hasDetails && detailsOpen;
      ariaHidden := !(hasDetails && detailsOpen);
      backdrop := false;
      new;
      if hasDetails {
        SyncMenuBackdrop();
      }
    }

    /** setMenuOpen: set the wrapper's `open` and both ARIA attributes, where they exist. */
    method SetMenuOpen(open: bool)
      modifies this
      ensures detailsOpen == if hasDetails then open else old(detailsOpen)
      ensures ariaExpanded == if hasButton then open else old(ariaExpanded)
      ensures ariaHidden == if hasMenu then !open else old(ariaHidden)
      ensures backdrop == old(backdrop)
      ensures hasDetails ==> AriaConsistent()
    {
      if hasDetails {
        detailsOpen := open;
      }
      if hasButton {
        ariaExpanded := open;
      }
      if hasMenu {
        ariaHidden := !open;
      }
    }

    /** syncMenuBackdrop: create the backdrop when open and missing, remove it when closed. */
    method SyncMenuBackdrop()
      modifies this
      ensures backdrop == IsMenuOpen()
      ensures detailsOpen == old(detailsOpen) && ariaExpanded == old(ariaExpanded) && ariaHidden == old(ariaHidden)
    {
      var open := IsMenuOpen();
      if open && !backdrop {
        backdrop := true;
      }
      if !open && backdrop {
        backdrop := false;
      }
    }

    /** The `toggle` event of the wrapper, queued when its `open` changed since `wasOpen`. */
    method DeliverToggle(wasOpen: bool)
      modifies this
      ensures hasDetails && detailsOpen != wasOpen ==> backdrop == IsMenuOpen()
      ensures !(hasDetails && detailsOpen != wasOpen) ==> backdrop == old(backdrop)
      ensures detailsOpen == old(detailsOpen) && ariaExpanded == old(ariaExpanded) && ariaHidden == old(ariaHidden)
    {
      if hasDetails && detailsOpen != wasOpen {
        SyncMenuBackdrop();
      }
    }

    /** A click on the summary button flips the menu (its own toggle is prevented). */
    method OnSummaryClick()
      requires Valid()
      modifies this
      ensures Valid()
      ensures hasButton ==> IsMenuOpen() == (hasDetails && !old(IsMenuOpen()))
      ensures hasButton ==> ariaExpanded == !old(IsMenuOpen())
      ensures hasButton && hasMenu ==> ariaHidden == old(IsMenuOpen())
      ensures !hasButton ==> detailsOpen == old(detailsOpen) && backdrop == old(backdrop)
      ensures !hasButton ==> ariaExpanded == old(ariaExpanded) && ariaHidden == old(ariaHidden)
    {
      if hasButton {
        var wasOpen := detailsOpen;
        SetMenuOpen(!IsMenuOpen());
        DeliverToggle(wasOpen);
      }
    }

    /** A click anywhere while the menu is open closes it, unless it lands inside the wrapper. */
    method OnDocumentClick(insideDetails: bool)
      requires Valid()
      modifies this
      ensures Valid()
      ensures old(IsMenuOpen()) && !insideDetails ==> !IsMenuOpen()
      ensures !old(IsMenuOpen()) || insideDetails ==> detailsOpen == old(detailsOpen) && backdrop == old(backdrop)
      ensures !old(IsMenuOpen()) || insideDetails ==> ariaExpanded == old(ariaExpanded) && ariaHidden == old(ariaHidden)
      ensures old(IsMenuOpen()) && !insideDetails && hasButton ==> !ariaExpanded
      ensures old(IsMenuOpen()) && !insideDetails && hasMenu ==> ariaHidden
    {
      if !IsMenuOpen() {
        return;
      }
      if hasDetails && insideDetails {
        return;
      }
      var wasOpen := detailsOpen;
      SetMenuOpen(false);
      DeliverToggle(wasOpen);
    }

    /** keydown: Escape always closes the menu. */
    method OnKeyDown(key: string)
      requires Valid()
      modifies this
      ensures Valid()
      ensures key == "Escape" ==> !IsMenuOpen() && !backdrop
      ensures key == "Escape" && hasButton ==> !ariaExpanded
      ensures key == "Escape" && hasMenu ==> ariaHidden
      ensures key != "Escape" ==> detailsOpen == old(detailsOpen) && backdrop == old(backdrop)
      ensures key != "Escape" ==> ariaExpanded == old(ariaExpanded) && ariaHidden == old(ariaHidden)
    {
      if key == "Escape" {
        var wasOpen := detailsOpen;
        SetMenuOpen(false);
        DeliverToggle(wasOpen);
      }
    }

    /** A click on the backdrop closes the menu. */
    method OnBackdropClick()
      requires Valid()
      modifies this
      ensures Valid() && !IsMenuOpen()
      ensures hasDetails ==> !backdrop
      ensures hasButton ==> !ariaExpanded
      ensures hasMenu ==> ariaHidden
    {
      var wasOpen := detailsOpen;
      SetMenuOpen(false);
      DeliverToggle(wasOpen);
    }
  }
}
