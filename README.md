# Maison Magnolia site scripts: a Dafny model

This project models the behaviour of three scripts of the Maison Magnolia static
site and proves properties of that model.

- `assets/js/main.js` drives the home page.
  - The projects deck: a stack of slides driven by a client list. One slide is
    active, its video is asked to play, its neighbours are fetched, and every
    playing video outside that window is paused.
  - The staged preload of the deck's videos.
  - The caption linkifier that turns `@handles` and domain-like tokens into links.
  - The in-page navigation highlight.
- `assets/js/brand-nav.js` drives the brand pages.
  - The hamburger menu with its ARIA attributes and backdrop.
  - The brand navigator's previous/next arrows.
  - The left navigation with its scroll spy, top lock and people list.
  - The experts drawer with its swipe-to-close gesture.
- `assets/js/mm-media.js` routes media addresses through an optional media base.
  - It normalizes the base and resolves paths against it.
  - It fills in `src` and background images from `data-src` and `data-bg`.
  - It rewrites `assets/media/` sources onto the base.
  - It adds connection hints without duplicating them.

Modules:

| module | file | what it holds |
|---|---|---|
| `Common` | `common.dfy` | `Option` and `FirstIndex`, which is `Array.prototype.findIndex` |
| `Text` | `text.dfy` | `trim` with JavaScript's white-space set, ASCII lower-casing, prefix and suffix tests, `includes`, and the last path segment |
| `Captions` | `captions.dfy` | `toIgUrl`, `linkifyCaption`, `prepareCaption`, `ensureShowMoreBtn` and `setCaptionClampAndMore` |
| `Videos` | `videos.dfy` | the flags of one `<video>` that the scripts read and write |
| `ProjectsPreload` | `preload.dfy` | `applyLightDefaults`, `warmStart` and the one-shot `loadAllWhenNear` |
| `ProjectsDeck` | `deck.dfy` | the `Deck` class: `clampIndex`, `setActiveClient`, `tryPlay`, `primeAround`, `goTo`, the gesture, visibility, client, thumb-scroll and resize handlers |
| `ActiveNav` | `active_nav.dfy` | `updateActiveNav`'s pick of the first section under the probe line |
| `BrandMenu` | `brand_menu.dfy` | the `Menu` class: `setMenuOpen`, `isMenuOpen`, `syncMenuBackdrop` and the click and Escape handlers |
| `BrandRolodex` | `brand_rolodex.dfy` | `getCurrentBrandName`, `currentIndex` and `stepBrand` |
| `BrandSections` | `brand_sections.dfy` | `readBrandData` and the `SectionSpy` class: `setActiveLeftLink`, `renderPeopleFor` and its deferred render, `activateSection`, `initScrollSpy`, the top lock and the observer pick |
| `ExpertsDrawer` | `experts_drawer.dfy` | the `Drawer` class: `ensureExpertsTab`, the tab click and the three touch handlers |
| `MediaUrls` | `media_urls.dfy` | `normalizeBase`, `resolve` and their idempotence |
| `MediaHydration` | `media_dom.dfy` | the per-element steps and the `MediaDocument` class: `addHint`, `hydrateDataSrc`, `hydrateDataBg`, `rewriteAssetsMediaSrc` and `run` |

## How the browser is represented

- DOM collections that a script mutates in place are `array`s: the slides, the
  clients' `is-active` flags, the videos, the left links' flags, the nav links'
  flags and the media elements. Module-level variables are class fields.
- Event listeners, `IntersectionObserver` callbacks and timers become explicit
  method calls. For example, `SectionSpy.FinishRender` is the 140 ms timer of
  `renderPeopleFor`, and it applies the same staleness guard.
- Layout measurements are inputs:
  - section boxes are integer `Rect`s;
  - the clients' distances to the list centre are `nat`s;
  - the caption overflow test is the boolean `needsMore`.
- `video.play()` succeeds or fails according to the parameter `allowed`.
  The scripts set `preload = "auto"` themselves before each `load()`; `load()` only increments a reload count.
- `linkifyCaption`'s regular expression is an input. `Tokens` states what any
  global scan reports: non-empty, increasing, non-overlapping matches inside the
  text. The deck holds the tokenizer as a function that is required to be `Sound`.
- `JSON.parse` is a parameter of `ReadBrandData`. The origin that `new URL(base)`
  yields is a parameter of the `MediaDocument` constructor.

The code has no media lifecycle manager. There is no registry of
detached, attaching, idle, playing and paused states, no "one playing video per
group" rule, and hiding the page pauses nothing. The model follows the code:
`primeAround` leaves a playing neighbour inside the window playing (`Primed`), and
`OnVisibilityChange` only re-primes when the page becomes visible.

## Model

| member | source | states |
|---|---|---|
| Common.FirstIndex | assets/js/brand-nav.js:107 | findIndex: the result satisfies the test and nothing before it does; `None` exactly when no element does |
| Text.Trim | assets/js/mm-media.js:141 | the result is the input with a white-space-only prefix and suffix removed; it is empty exactly when the input is all white space, and otherwise neither starts nor ends with white space |
| Text.LastSegment | assets/js/brand-nav.js:106 | `split("/").pop()`: a suffix of the path with no slash, preceded by a slash unless it is the whole path |
| Captions.StripAt | assets/js/main.js:515 | one leading `@` is removed, and nothing else changes |
| Captions.HrefForCases | assets/js/main.js:530-545 | a handle links to `https://www.instagram.com/` plus the handle without `@` plus `/`; another token links to itself when it starts with `http`, otherwise to `https://` plus the token |
| Captions.ToIgUrlIgnoresAt | assets/js/main.js:515 | a handle and its bare name give the same profile address, which starts with the Instagram root and ends with `/` |
| Captions.LinkifiedProperties | assets/js/main.js:517-552 | the texts of the parts, concatenated, give back the caption; no text part is empty; the links are exactly one per match, in order, each showing its token and addressed by the token's href |
| Captions.LinkifyWith | assets/js/main.js:523-549 | the scan loop pushes the text before each match and the match's link, then the remaining text, and yields the linkified parts |
| Captions.LinkifyCaption | assets/js/main.js:517-552 | linkifyCaption returns the linkified parts with the handle/domain hrefs, so LinkifiedProperties applies to its result |
| Captions.PrepareCaption | assets/js/main.js:581-589 | afterwards the caption is marked linkified and reads the same text; a caption already marked is unchanged; an unmarked one is replaced by the linkified parts of its text |
| Captions.PrepareCaptionIdempotent | assets/js/main.js:581-589 | preparing a caption twice is preparing it once |
| Captions.EnsureShowMoreBtn | assets/js/main.js:554-579 | the overlay always ends with a button; an existing one is reused, and a new one starts hidden |
| Captions.SetCaptionClampAndMore | assets/js/main.js:591-617 | a slide without a caption is untouched; otherwise the caption's parts are exactly what prepareCaption gives, with the same text, and it is clamped exactly when active; the button is visible exactly when the slide is active and the caption overflows |
| Captions.ShowMoreTarget | assets/js/main.js:573-575 | "Show more" navigates only when the slide has an href; the target is the href alone without an anchor, and the href followed by `#` and the anchor with one (prefix, suffix and length) |
| ProjectsPreload.LightDefault | assets/js/main.js:191-196 | a video becomes muted, looping, inline, with `preload` metadata; its playing state and reload count are kept |
| ProjectsPreload.LightDefaults | assets/js/main.js:190-197 | every video gets the light defaults; playing states and reload counts are kept |
| ProjectsPreload.Warmed | assets/js/main.js:199-204 | only the first three videos are requested, each reloaded once with `preload` auto; the others are unchanged; nothing but `preload` and the reload count changes |
| ProjectsPreload.AllRequested | assets/js/main.js:211-214 | every video is requested and reloaded once with `preload` auto; nothing else about any video changes |
| ProjectsPreload.OnNear | assets/js/main.js:208-216 | a batch changes something only while observing and only if an entry intersects; then every video is requested and the observer is disconnected |
| ProjectsPreload.LoadAllOnce | assets/js/main.js:206-219 | over any run of batches, every video is requested exactly once if some batch intersects, and nothing happens otherwise |
| ProjectsPreload.DisconnectedStays | assets/js/main.js:216 | after the disconnect no batch changes anything |
| ProjectsPreload.Preloader.Create | assets/js/main.js:72-76 | no controller without the projects section or without videos, and the videos are untouched; otherwise the light defaults are applied and the observer is waiting |
| ProjectsPreload.Preloader.ApplyLightDefaults | assets/js/main.js:190-197 | the loop leaves the video array equal to LightDefaults of its old contents |
| ProjectsPreload.Preloader.WarmStart | assets/js/main.js:199-204 | the loop leaves the video array equal to Warmed of its old contents |
| ProjectsPreload.Preloader.OnNearBatch | assets/js/main.js:208-216 | the callback moves the observer state and the videos exactly as OnNear does |
| ProjectsDeck.ClampIndex | assets/js/main.js:639-641 | the result lies in `[0, n)` for a non-empty deck, equals `i` when `i` is in range, and is the index nearest to `i` |
| ProjectsDeck.Primed | assets/js/main.js:665-681 | only the window `{i-1, i, i+1}` is fetched; every video outside it ends paused; inside it only `videos[i]` may change its playing state, and it ends playing exactly when it was playing or play is allowed; no other field changes |
| ProjectsDeck.ChosenClient | assets/js/main.js:643-647 | the first client whose `data-index` equals the raw index, else the client at the clamped index when it exists, else the first client |
| ProjectsDeck.NearestItem | assets/js/main.js:742-753 | the loop picks the first client with the smallest distance to the list centre, and gives its `data-index`, or 0 when there is none |
| ProjectsDeck.DeckDefault | assets/js/main.js:649-654 | muted, looping, inline; `preload` metadata only where none was set |
| ProjectsDeck.Deck.Init | assets/js/main.js:620-629 | no deck when the container, the track, the slides, the clients or the videos are missing, and nothing is touched; otherwise the deck is at slide 0: exactly slide 0 is active, every caption is set for its slide, the client ChosenClient picks for 0 is highlighted, and the defaulted videos are primed around 0 |
| ProjectsDeck.Deck.TryPlay | assets/js/main.js:656-663 | reports success exactly when the video exists and play is allowed; only then does that video start, and a rejected play changes nothing |
| ProjectsDeck.Deck.PrimeAround | assets/js/main.js:665-681 | the three passes leave the videos equal to Primed of their old state |
| ProjectsDeck.Deck.SetActiveClient | assets/js/main.js:643-647 | exactly one client is active, the one ChosenClient picks |
| ProjectsDeck.Deck.GoTo | assets/js/main.js:693-704 | `activeIndex` is the clamped index; exactly that slide is active; every caption is clamped and its button set for its slide; the chosen client is highlighted; the videos are primed around the new index |
| ProjectsDeck.Deck.OnGesture | assets/js/main.js:684-687 | the first pointerdown, keydown or touchstart re-primes the active slide; a repeat of the same kind does nothing |
| ProjectsDeck.Deck.OnVisibilityChange | assets/js/main.js:689-691 | becoming visible re-primes the active slide; becoming hidden changes nothing |
| ProjectsDeck.Deck.OnClientEnter | assets/js/main.js:710-714 | a client with a numeric `data-index` runs goTo on it: the clamped slide is active, the captions are set, ChosenClient of that index is highlighted and the videos are primed; any other client changes nothing |
| ProjectsDeck.Deck.OnClientClick | assets/js/main.js:716-724 | a click on a real link changes nothing in the deck; otherwise, for a numeric `data-index`, the same new slide, captions, highlighted client and videos as mouseenter |
| ProjectsDeck.Deck.OnThumbScroll | assets/js/main.js:731-757 | on phones with a list, goTo runs on the `data-index` of a first-nearest client: that index clamped is active, ChosenClient of it is highlighted, the captions are set and the videos primed; otherwise nothing changes |
| ProjectsDeck.Deck.OnResize | assets/js/main.js:763 | the active slide stays, the captions are set again and the videos primed again; the highlight becomes ChosenClient of the active index, which can differ from the client highlighted before |
| ProjectsDeck.ResizeCanMoveHighlight | assets/js/main.js:643-647 | on five slides, hovering a client whose index is 7 highlights it, and goTo of the clamped index 4 then highlights the client whose index is 4 |
| ActiveNav.FirstUnderProbe | assets/js/main.js:405-412 | the first section whose box contains the probe line; `None` exactly when no section's box does |
| ActiveNav.Nav.Create | assets/js/main.js:393-491 | nothing is wired and no link changes without links or without a section they point to; otherwise the first updateActiveNav leaves exactly the links to the first section under the probe line active |
| ActiveNav.Nav.Update | assets/js/main.js:401-417 | the active id is the first section under the probe line, or none; exactly the links pointing to that id are active |
| BrandMenu.Menu.constructor | assets/js/brand-nav.js:34-78 | the ARIA attributes start out consistent with the menu's state, and with a details wrapper the backdrop exists exactly when it is open |
| BrandMenu.Menu.SetMenuOpen | assets/js/brand-nav.js:38-42 | each element that exists takes the new state: `open`, `aria-expanded == open`, `aria-hidden == !open` |
| BrandMenu.Menu.SyncMenuBackdrop | assets/js/brand-nav.js:63-73 | afterwards a backdrop exists exactly when the menu is open |
| BrandMenu.Menu.DeliverToggle | assets/js/brand-nav.js:75-77 | a change of `open` on the wrapper re-synchronises the backdrop; otherwise nothing changes |
| BrandMenu.Menu.OnSummaryClick | assets/js/brand-nav.js:50-60 | the button flips the menu: `aria-expanded` becomes the new state and `aria-hidden` the old one, ARIA and backdrop stay consistent; without a button nothing changes, ARIA flags included |
| BrandMenu.Menu.OnDocumentClick | assets/js/brand-nav.js:81-89 | an outside click closes an open menu and sets both ARIA attributes to closed; a click inside the wrapper or on a closed menu changes nothing, ARIA flags included |
| BrandMenu.Menu.OnKeyDown | assets/js/brand-nav.js:91-93 | Escape always leaves the menu closed, with no backdrop and both ARIA attributes saying so; other keys change nothing, ARIA flags included |
| BrandMenu.Menu.OnBackdropClick | assets/js/brand-nav.js:70 | a click on the backdrop closes the menu, removes the backdrop and sets both ARIA attributes to closed |
| BrandRolodex.GetCurrentBrandName | assets/js/brand-nav.js:102-111 | the trimmed `data-brand` when set; else the first brand whose lower-cased href contains the lower-cased last path segment; else the first brand's name, or "" with no brands |
| BrandRolodex.CurrentIndex | assets/js/brand-nav.js:114 | never negative: the first brand with that name, or 0 when none has it |
| BrandRolodex.StepInRange | assets/js/brand-nav.js:132 | a step of one either way from a valid index stays in `[0, n)` and wraps at both ends |
| BrandRolodex.StepRoundTrip | assets/js/brand-nav.js:132 | previous then next, or next then previous, returns to the start |
| BrandRolodex.StepBrand | assets/js/brand-nav.js:130-135 | with no brands nothing happens; from a valid index a step navigates exactly when the neighbour has an href, and to that href |
| BrandRolodex.ConfiguredStepsNavigate | assets/js/brand-nav.js:22-29 | on the configured five brands every arrow from every brand navigates |
| BrandSections.ReadBrandData | assets/js/brand-nav.js:144-161 | no sections when the tag is missing or blank, or its text is not an object with sections; otherwise the parsed sections |
| BrandSections.Expected | assets/js/brand-nav.js:178-201 | a section's people are shown when there are any; otherwise the default list is shown |
| BrandSections.Topmost | assets/js/brand-nav.js:239-243 | the intersecting entry with the smallest top, the earliest among equal tops; none exactly when no entry intersects |
| BrandSections.DropFirstHash | assets/js/brand-nav.js:222 | `replace("#", "")` removes the first `#` and only that one: the result is the text before the first `#` followed by the text after it, and a text without `#` is unchanged |
| BrandSections.SectionSpy.constructor | assets/js/brand-nav.js:166-171 | no section is active yet; the list shows the default and nothing is pending |
| BrandSections.SectionSpy.SetActiveLeftLink | assets/js/brand-nav.js:173-176 | for a non-empty id, exactly the links whose `data-anchor` is that id are active; an empty id changes nothing |
| BrandSections.SectionSpy.RenderPeopleFor | assets/js/brand-nav.js:178-202 | a section without people restores the default list at once; one with people starts the fade and schedules its render |
| BrandSections.SectionSpy.FinishRender | assets/js/brand-nav.js:189-201 | the oldest deferred render draws its people and ends the fade only if its section is still active; otherwise it is dropped |
| BrandSections.SectionSpy.ActivateSection | assets/js/brand-nav.js:204-210 | an empty or already active id changes nothing; otherwise that section becomes active, exactly its links are highlighted, and its people are rendered |
| BrandSections.SectionSpy.ActivateIdempotent | assets/js/brand-nav.js:204-210 | activating the same section twice is activating it once |
| BrandSections.SectionSpy.ActivateThenFinish | assets/js/brand-nav.js:188-201 | with the list present and nothing pending, activating a section with people and letting its timer fire shows exactly those people with the fade over |
| BrandSections.SectionSpy.OnLeftLinkClick | assets/js/brand-nav.js:212-217 | clicking a link with an anchor activates that section and highlights that link; the active id, view, fade and pending renders change exactly as activateSection makes them; an empty or already active anchor leaves every link flag as it was |
| BrandSections.SectionSpy.TopLock | assets/js/brand-nav.js:229-232 | when the page is scrolled 180 px or less, the first section is activated, with the view, fade and pending renders activateSection gives; elsewhere nothing changes, link flags included |
| BrandSections.SectionSpy.InitScrollSpy | assets/js/brand-nav.js:219-234 | the fragment's section, or the first section, is activated and then the top lock applied, each with the view, fade and pending renders activateSection gives; near the top the first section wins; without anchors nothing changes, link flags included |
| BrandSections.SectionSpy.OnIntersect | assets/js/brand-nav.js:237-243 | the topmost intersecting anchor is activated, with the view, fade and pending renders activateSection gives; a batch with none, or whose topmost is already active, changes nothing, link flags included |
| BrandSections.StaleFadeExample | assets/js/brand-nav.js:183-201 | a section with people followed, before the timer fires, by one without people leaves the default list showing, still fading, with no render left to end the fade |
| ExpertsDrawer.Drawer.constructor | assets/js/brand-nav.js:263-265 | the drawer starts closed, with no tab and no touch tracking |
| ExpertsDrawer.Drawer.EnsureExpertsTab | assets/js/brand-nav.js:272-337 | on wide screens the panel closes and the tab goes; on narrow ones a tab with its touch handlers exists and the panel keeps its state |
| ExpertsDrawer.Drawer.OnTabClick | assets/js/brand-nav.js:292-294 | the tab flips the panel |
| ExpertsDrawer.Drawer.OnTouchStart | assets/js/brand-nav.js:299-310 | on an open panel a touch records its start and starts tracking; otherwise nothing changes |
| ExpertsDrawer.Drawer.OnTouchMove | assets/js/brand-nav.js:312-328 | while tracking, the panel closes and tracking stops exactly when the move is more than 70 px right and less than 40 px up or down |
| ExpertsDrawer.Drawer.OnTouchEnd | assets/js/brand-nav.js:330-336 | tracking stops |
| MediaUrls.RawBase | assets/js/mm-media.js:17-20 | `data-media-base` when non-empty, else `MM_MEDIA_BASE`, else empty |
| MediaUrls.NormalizeBase | assets/js/mm-media.js:140-145 | empty exactly for a blank base; otherwise the trimmed base, with a single `/` appended when it did not already end in one |
| MediaUrls.NormalizeBaseIdempotent | assets/js/mm-media.js:140-145 | normalizing twice is normalizing once |
| MediaUrls.StripLeadingSlashes | assets/js/mm-media.js:44 | the path without its leading slashes: a suffix that does not start with `/`, preceded only by slashes |
| MediaUrls.Clean | assets/js/mm-media.js:42-44 | one leading `./` and then every leading slash removed; what is removed is that `./` followed by slashes only |
| MediaUrls.Resolve | assets/js/mm-media.js:33-47 | empty exactly for an empty path; pass-through addresses are kept; with no base the path is kept; otherwise the base followed by the cleaned path |
| MediaUrls.ResolveWithoutBase | assets/js/mm-media.js:39 | with no base resolve is the identity, so resolving twice is resolving once |
| MediaUrls.ResolvedUnderHttpBase | assets/js/mm-media.js:36-46 | under an http(s) base every resolved address is one resolve passes through |
| MediaUrls.ResolveIdempotentUnderHttpBase | assets/js/mm-media.js:33-47 | under an http(s) base resolving twice is resolving once |
| MediaUrls.ResolveIdempotent | assets/js/mm-media.js:33-47 | with no base or an http(s) base resolving twice is resolving once |
| MediaUrls.NotPassThroughByFirstChar | assets/js/mm-media.js:36-37 | a path that starts with neither `/` nor, case folded, `h`, `d` or `b` is not passed through |
| MediaUrls.PassThroughFirstChar | assets/js/mm-media.js:36-37 | a passed-through address starts with `/` or, case folded, with `h`, `d` or `b` |
| MediaUrls.ResolvePlainName | assets/js/mm-media.js:41-46 | a plain name resolves to the base followed by the name |
| MediaUrls.RelativeBaseResolvesTwice | assets/js/mm-media.js:41-46 | under a relative base resolve is not idempotent: resolving a resolved plain name prepends the base a second time |
| MediaHydration.HydrateSrcOne | assets/js/mm-media.js:53-79 | an empty `data-src` is skipped; a source, img or video gets the resolved `src` only when it has none; any other element has its `data-src` replaced by the resolved address |
| MediaHydration.HydrateSrcIdempotent | assets/js/mm-media.js:53-79 | hydrating a media element twice is hydrating it once, and so is any element under a stable base |
| MediaHydration.HydrateBgOne | assets/js/mm-media.js:87-97 | only an element with a non-empty `data-bg` and no background image gets `url("...")`, cover, center and no-repeat; nothing else changes |
| MediaHydration.HydrateBgIdempotent | assets/js/mm-media.js:92 | a background is set at most once |
| MediaHydration.RewriteOne | assets/js/mm-media.js:105-116 | only a media element whose `src` starts with `assets/media/` changes: its `src` becomes the resolved rest of the path |
| MediaHydration.RewriteLeavesNoLocalMedia | assets/js/mm-media.js:102-116 | under an http(s) base no `assets/media/` source is left after the rewrite |
| MediaHydration.RewriteIdempotent | assets/js/mm-media.js:102-116 | under an http(s) base rewriting twice is rewriting once |
| MediaHydration.Hydrated | assets/js/mm-media.js:120-124 | what run does to one element; with no base the `src` is what hydration gives; under an http(s) base no local media source remains |
| MediaHydration.HydratedRefillsEmptiedSrc | assets/js/mm-media.js:113-123 | running the whole pass twice under an http(s) base can differ from running it once: a `src` of exactly `assets/media/` is emptied, then refilled from `data-src` |
| MediaHydration.WithHint | assets/js/mm-media.js:147-155 | a hint already present leaves the head unchanged; a missing one is appended once at the end; no duplicates are created |
| MediaHydration.WithHintIdempotent | assets/js/mm-media.js:147-155 | adding the same hint twice is adding it once |
| MediaHydration.WithHintCount | assets/js/mm-media.js:147-155 | a hint already present keeps its number of copies, and a missing one ends with exactly one; no other hint's count changes |
| MediaHydration.MediaDocument.constructor | assets/js/mm-media.js:17-31 | the base is the normalized raw base; an http(s) base with an origin gets a dns-prefetch hint and then a preconnect hint; otherwise the hints are unchanged; a head without duplicate hints keeps none |
| MediaHydration.MediaDocument.AddHint | assets/js/mm-media.js:147-155 | the head's hints become WithHint of the old ones |
| MediaHydration.MediaDocument.ForEachElement | assets/js/mm-media.js:51-52 | every element, in document order, is replaced by the step applied to its old value |
| MediaHydration.MediaDocument.HydrateDataSrc | assets/js/mm-media.js:50-81 | every element becomes HydrateSrcOne of its old value |
| MediaHydration.MediaDocument.HydrateDataBg | assets/js/mm-media.js:84-99 | every element becomes HydrateBgOne of its old value |
| MediaHydration.MediaDocument.RewriteAssetsMediaSrc | assets/js/mm-media.js:102-117 | with no base nothing changes; otherwise every element becomes RewriteOne of its old value |
| MediaHydration.MediaDocument.Run | assets/js/mm-media.js:120-124 | every element becomes Hydrated of its old value; under an http(s) base no local media source remains |

## Left out

- The intro logo animation (`assets/js/main.js:247-367`) and the right-side section title swap in `updateActiveNav` are left out. They are animation timing and CSS classes with no state the other code reads.
- The contact bar (`assets/js/main.js:39-61`) is left out: it is scroll geometry and class toggles.
- Layout geometry is left out. Section boxes, the probe line, distances to the list centre and the scroll position are integer inputs. `slideHeight` and the track's `translateY` are not modelled.
- The caption overflow measurement is left out and becomes the boolean `needsMore`.
- The caption regular expression is left out. Its matches are an input constrained by `Tokens`.
- The caption helpers exist twice in `assets/js/main.js`: once inside the preload block (82-184) and once inside `initProjects` (515-617). The two copies are identical, and the model has one of each. The table cites the copy the deck uses.
- Browser media is left out. `load()` does not model the HTML media element's reset of `paused`, and `play()` is a synchronous flag update whose outcome is a parameter.
- `run()`'s reload of videos whose sources have `src` (`assets/js/mm-media.js:127-130`) is left out: it is a browser media effect.
- `requestAnimationFrame` in the thumb-scroll handler is left out. Each handler call is one frame.
- A non-integer `data-index` is left out. `Number(...)` of a client's index is an `Option<int>`, where `None` stands for NaN.
- Lower-casing is ASCII only. `toLowerCase` in `getCurrentBrandName` is Unicode-aware. The `/i` patterns of `resolve` fold ASCII letters, as modelled.
- `JSON.parse` is a parameter. A parsed object's non-array `sections[id]` value is `NotAList`.
- The `new URL(base)` parse is a parameter: the origin, or `None` when it throws.
- The phone-frame overlay (`assets/js/main.js:771-792`) is left out: it is a network `fetch`.
- The lightbox (`assets/js/brand-nav.js:361-460`) and `renderBrandNav`'s DOM output are left out: they are placeholder markup with no state of their own.
- The experts list's inline styles (`assets/js/brand-nav.js:339-345`) are left out: they are presentation only.
- Each re-creation of the experts tab attaches another set of touch listeners to the panel. The model has one set, because the listeners all share one `sx`, `sy` and `tracking` per creation.
- `addHint`'s selector quotes `rel` and `href` but does not escape them, so a value containing `"` or `]` would break it. The model compares the two values directly.
- CSS `url()` parsing of the background value is left out. `HydrateBgOne` tests whether the inline image is the empty string.
- ActiveNav.Nav.Create: treats every link's `href` as a selector that finds its section or nothing. An `href` of `#` or one naming an id that is not a CSS identifier (a leading digit, say) makes `querySelector` throw. That aborts the page's start-up handler, and the projects deck is then never set up. The model does not represent that failure, because CSS selector syntax is outside it.
- Without the section observer, `initScrollSpy` still activates the initial section and the top lock. The observer itself is explicit calls to `OnIntersect`.
- MediaHydration.Hydrated: does not state idempotence in general, because it does not hold. Under an http(s) base, an image whose `src` is exactly `assets/media/` has it emptied by the rewrite (`resolve` of the empty rest is empty), and the next run fills it from `data-src` (`MediaHydration.HydratedRefillsEmptiedSrc`). Under a relative base `resolve` prepends the base again (`MediaUrls.RelativeBaseResolvesTwice`). Idempotence is proved per pass where it holds: `HydrateSrcIdempotent`, `HydrateBgIdempotent` and `RewriteIdempotent`.
- Captions.LinkifyWith: the address of each link is a parameter, so that the loop's proof is independent of how addresses are built. `LinkifyCaption` instantiates it with `HrefFor`, the real rule.
- The code contains none of the media lifecycle behaviour described for the site, such as one playing video per group or pausing on hide. The model follows the code.
