# Eternal Love site: the decision and state logic of its shell

The site is a single-page love-story presentation built on React, with GSAP
animations and client-side routing. Most of its code is animation
choreography. This project models the few pieces that make decisions or hold
state, and proves what they do:

- **Lightbox** (`lightbox.dfy`, module `Lightbox`). This is the zoom state of
  the image viewer: `scale` and `isMaximized`. The zoom buttons step the scale
  by ±0.5, clamped to [1, 3]. The maximize button toggles between 2× and 1×. A
  click on the image resets a zoomed image to 1×, or else asks the parent to
  close the lightbox. A new, non-empty image resets both fields. The class `LightboxView`
  holds these two fields and the `image` prop, and has one method per handler. Each method's effect is
  stated through the functions `HandleZoom`, `Toggle` and `Click`, and `Apply`
  and `Run` replay any sequence of user events. The main theorem: from the
  initial state, the scale only ever takes the values 1, 1.5, 2, 2.5 and 3.
- **Sidebar** (`sidebar.dfy`, module `Sidebar`). These are the drawer's link
  lists and `handleItemClick`. `HandleItemClick` returns the click's effects:
  the menu is always closed, whether the default action is prevented, and one
  action. The action is one of: follow the link, navigate to `/#<id>`, scroll
  to a section, or nothing.
- **Header** (`header.dfy`, module `Header`). This covers:
  - the sub-navigation anchors, `'#' + label.toLowerCase().replace(/\s+/g, '-')`;
  - the scroll threshold behind `isScrolled`;
  - the menu button's text and aria-label.
  The slug comes with proofs that it has no whitespace and no upper-case
  letter, and that each whitespace run becomes exactly one `-`. The four
  labels slug to ids of sections of the home page.
- **Layout** (`layout.dfy`, module `Layout`). This is the shell's `isMenuOpen`
  flag. The class `LayoutView` has methods for the header's toggle, the
  sidebar's close and the close-on-route-change effect. It also has a
  sidebar click that runs the sidebar's decision and then the resulting
  navigation.
- `home.dfy` (module `Home`) lists the section ids the home route renders
  (`app/src/App.tsx`). `common.dfy` holds `Option`.

Modelling choices:
- The scale is a `real`. Every value the handlers produce is an exact half, so
  the model loses nothing against JavaScript doubles.
- React state updates are modelled as sequential assignments. An effect with
  dependencies reruns only when its dependency changes. So the reset to 1×
  happens only for a new, non-empty (truthy) `image`. The menu closes only when the
  pathname actually changes.
- The section id of an intercepted click follows the code,
  `item.sectionId || item.href.split('#')[1]`. This is the text between the
  first and the second `#`, not everything after the first `#`. A `sectionId`
  of `""` counts as absent, as JavaScript truthiness has it.
- `document.getElementById` is a parameter: the set of ids on the current
  page. An empty id never matches, as in the DOM.
- The CONTACT entry resolves to the section id `contact`. No section of the
  home page has that id, so on `/` the click is intercepted and nothing else
  happens (`Sidebar.ContactClick`).

## Model

| member | source | states |
|---|---|---|
| `Lightbox.Clamp` | app/src/components/Lightbox.tsx:43 | the result lies in [1, 3]; it is the input inside that range, 1 below it and 3 above it |
| `Lightbox.HandleZoom` | app/src/components/Lightbox.tsx:42-44 | the new scale is the old scale plus the delta, clamped to [1, 3]; the maximize flag is unchanged |
| `Lightbox.Toggle` | app/src/components/Lightbox.tsx:52-65 | the maximize flag always flips; entering maximize gives scale exactly 2, leaving it gives 1 |
| `Lightbox.Click` | app/src/components/Lightbox.tsx:115-122 | `onClose` is called iff the scale is 1; otherwise the scale is reset to 1; the maximize flag is unchanged either way |
| `Lightbox.ApplyKeepsHalfStep` | app/src/components/Lightbox.tsx:42-122 | every handler maps a scale in {1, 1.5, 2, 2.5, 3} to a scale in that set |
| `Lightbox.RunKeepsHalfStep` | app/src/components/Lightbox.tsx:42-122 | any sequence of zoom, maximize, click and open events keeps the scale in {1, 1.5, 2, 2.5, 3} |
| `Lightbox.ReachableScales` | app/src/components/Lightbox.tsx:14-122 | from the initial state, every reachable scale is one of 1, 1.5, 2, 2.5, 3, and so within [1, 3] |
| `Lightbox.ZoomAtBoundsIsIdempotent` | app/src/components/Lightbox.tsx:80-93 | zooming in at 3 and zooming out at 1 change nothing |
| `Lightbox.ZoomInOutInverse` | app/src/components/Lightbox.tsx:80-93 | below the upper bound, a zoom in followed by a zoom out restores the state |
| `Lightbox.ZoomOutInInverse` | app/src/components/Lightbox.tsx:80-93 | above the lower bound, a zoom out followed by a zoom in restores the state |
| `Lightbox.ToggleTwice` | app/src/components/Lightbox.tsx:52-65 | two toggles restore the flag, at scale 2 if it was maximized and 1 otherwise |
| `Lightbox.LightboxView.constructor` | app/src/components/Lightbox.tsx:14-15 | a mounted lightbox starts at scale 1, not maximized |
| `Lightbox.LightboxView.SetImage` | app/src/components/Lightbox.tsx:17-21 | a new truthy image (neither null nor empty) resets the scale to 1 and the flag to false; an unchanged, null or empty image leaves both alone |
| `Lightbox.LightboxView.ZoomBy` | app/src/components/Lightbox.tsx:42-44 | the state after `handleZoom(delta)` is `HandleZoom` of the old state |
| `Lightbox.LightboxView.ZoomInClick` | app/src/components/Lightbox.tsx:80-86 | the zoom-in button applies `+0.5` with clamping and keeps the scale on a half step |
| `Lightbox.LightboxView.ZoomOutClick` | app/src/components/Lightbox.tsx:87-93 | the zoom-out button applies `-0.5` with clamping and keeps the scale on a half step |
| `Lightbox.LightboxView.ToggleMaximizeClick` | app/src/components/Lightbox.tsx:52-65 | the maximize button's new state is `Toggle` of the old one |
| `Lightbox.LightboxView.ContainerClicked` | app/src/components/Lightbox.tsx:112-123 | the image click's new state and its close request are those of `Click` |
| `Header.LowerChar` | app/src/components/Header.tsx:99 | 'A' to 'Z' map to 'a' to 'z' (code point plus 32); the result is never an upper-case letter; it is a space iff the input is; other characters are unchanged |
| `Header.Lower` | app/src/components/Header.tsx:99 | `toLowerCase` keeps the length, lowers each character, leaves no upper-case letter and adds no whitespace |
| `Header.CollapseNoSpace` | app/src/components/Header.tsx:99 | no whitespace survives `replace(/\s+/g, '-')` |
| `Header.CollapseNoUpper` | app/src/components/Header.tsx:99 | the replacement introduces no upper-case letter |
| `Header.SlugIsAnchor` | app/src/components/Header.tsx:99 | a slug contains neither whitespace nor upper-case letters |
| `Header.CollapseNoSpaceIdentity` | app/src/components/Header.tsx:99 | text without whitespace is left as it is by the replacement |
| `Header.RunBecomesOneDash` | app/src/components/Header.tsx:99 | a maximal whitespace run between two parts becomes exactly one `-` between their replacements |
| `Header.SlugTwoWords` | app/src/components/Header.tsx:99 | two words with one space slug to the lower-cased words joined by `-` |
| `Header.SubNavHref` | app/src/components/Header.tsx:96-99 | an anchor href is `#` followed by the label's slug, so by text with no whitespace and no upper-case letter |
| `Header.SubNavTargetsExist` | app/src/components/Header.tsx:96-99 | the href of each of the four sub-navigation anchors is `#` followed by a section id of the home page |
| `Header.ScrolledThreshold` | app/src/components/Header.tsx:26-28 | scrolled iff `scrollY > 100`; false at exactly 100; once set it stays set for larger offsets |
| `Header.MenuButtonText` | app/src/components/Header.tsx:56 | the text is `CLOSE` iff the menu is open and `MENU` iff it is closed |
| `Header.MenuButtonAriaLabel` | app/src/components/Header.tsx:46 | the aria-label is `Close menu` iff the menu is open and `Open menu` iff it is closed |
| `Header.HeaderView.constructor` | app/src/components/Header.tsx:12 | the header starts not scrolled, with the sub-navigation's collapsed classes |
| `Header.HeaderView.OnScroll` | app/src/components/Header.tsx:25-28 | after a scroll event the flag is `scrollY > 100`, and the sub-navigation is open iff that holds |
| `Header.HeaderView.SubNavClass` | app/src/components/Header.tsx:87-89 | the strip gets `max-h-14 opacity-100` iff the header is scrolled and `max-h-0 opacity-0` iff it is not |
| `Sidebar.HashIndex` | app/src/components/Sidebar.tsx:170 | the index of the first `#`, or the length when there is none |
| `Sidebar.SecondHashField` | app/src/components/Sidebar.tsx:170 | `split('#')[1]` contains no `#` |
| `Sidebar.HashIndexAppend` | app/src/components/Sidebar.tsx:170 | behind a `#`-free prefix, the first `#` is the first `#` of the rest, shifted by the prefix's length |
| `Sidebar.SecondHashFieldIsBetweenHashes` | app/src/components/Sidebar.tsx:170 | for any `#`-free prefix, `split('#')[1]` is exactly the text between the first `#` and the next `#` or the end |
| `Sidebar.SectionPath` | app/src/components/Sidebar.tsx:173 | the navigation target starts with `/` and is exactly `/` iff the section id is empty |
| `Sidebar.HandleItemClick` | app/src/components/Sidebar.tsx:165-181 | every click closes the menu, whatever the item and the route; the default is prevented iff the href starts with `/#` or is `/` with a section id; otherwise the link is followed; off the home page the click navigates to the section's path; on it, it scrolls iff the section exists |
| `Sidebar.SectionPathRoundTrip` | app/src/components/Sidebar.tsx:172-173 | the navigation target's fragment is the section id and its path is `/` |
| `Sidebar.HashFieldOfSectionHref` | app/src/components/Sidebar.tsx:170 | for an href `/#id`, `split('#')[1]` gives back `id` |
| `Sidebar.OurStoryClick` | app/src/components/Sidebar.tsx:12 | OUR STORY is intercepted: it scrolls to `our-story` on `/` and navigates to `/#our-story` elsewhere |
| `Sidebar.RouteItemsFollowLinks` | app/src/components/Sidebar.tsx:11-23 | the route entries and GALLERY and MOMENTS are not intercepted and follow their href |
| `Sidebar.ContactSectionId` | app/src/components/Sidebar.tsx:22 | CONTACT is intercepted and resolves to the section id `contact` |
| `Sidebar.ContactClick` | app/src/components/Sidebar.tsx:22 | CONTACT does nothing beyond closing on `/`, and navigates to `/#contact` elsewhere |
| `Sidebar.ContactNotAHomeSection` | app/src/App.tsx:66-98 | the home page has no section with the id `contact` |
| `Layout.Mount` | app/src/components/Layout.tsx:10 | the menu starts closed |
| `Layout.ToggleTwice` | app/src/components/Layout.tsx:23 | the menu button flips the flag, and two presses restore it |
| `Layout.CloseIdempotent` | app/src/components/Layout.tsx:24 | the sidebar's close leaves the menu closed, and closing again changes nothing |
| `Layout.RouteChangeCloses` | app/src/components/Layout.tsx:14-16 | a change to a different pathname closes the menu, whatever its state |
| `Layout.PressesOnly` | app/src/components/Layout.tsx:23 | after n presses the menu is open iff it started open xor n is odd |
| `Layout.EndsClosed` | app/src/components/Layout.tsx:14-24 | any sequence ending with a close or a route change leaves the menu closed |
| `Layout.PathOf` | app/src/components/Sidebar.tsx:173 | the pathname of a link target is its prefix up to the first `#`, or all of it when there is none |
| `Layout.LayoutView.constructor` | app/src/components/Layout.tsx:10 | the shell mounts with the menu closed |
| `Layout.LayoutView.MenuClick` | app/src/components/Layout.tsx:23 | the header's button toggles the flag and leaves the pathname alone |
| `Layout.LayoutView.CloseMenu` | app/src/components/Layout.tsx:24 | the sidebar's close sets the flag to false |
| `Layout.LayoutView.LocationChanged` | app/src/components/Layout.tsx:14-16 | a new pathname closes the menu; the same pathname changes nothing |
| `Layout.LayoutView.SidebarItemClick` | app/src/components/Layout.tsx:24 | a sidebar click has the effects `HandleItemClick` gives, leaves the menu closed and puts the router on the pathname the action leads to |
| `Layout.NavigateLandsHome` | app/src/components/Sidebar.tsx:172-173 | every intercepted click away from home lands on the home route |

## Left out

- Every GSAP timeline, tween and ScrollTrigger callback, including the zoom tweens that follow each scale change in the lightbox. They are visual choreography driven by an external library.
- `document.body.style.overflow` in the lightbox, the header's fade-in timer (`isVisible`), the header's search overlay flag, and autofocus. These are DOM or timer side effects with no decision logic.
- The lightbox's overlay click and close button. Both only call the parent's `onClose`, whose state lives outside the component.
- The sidebar's home button (`Link to="/" onClick={onClose}`). It behaves as `Layout.LayoutView.CloseMenu` followed by the router following `/`.
- `scrollIntoView`'s smooth behaviour, and how the browser and the router treat the fragment after `navigate('/#id')`. No code of the site reads the fragment. `useScrollToTop` (`app/src/hooks/useScrollToTop.ts`:3-25) scrolls to the top on mount and before unload. `useSmoothScroll` (:27-55) handles only clicks on links whose href starts with `#`, and the sidebar's `/#…` links do not match. So, as written, a sidebar click from another route is not scrolled to the section. This was read from the code, not observed.
- Header.LowerChar: lowers only the Latin letters A to Z, where `toLowerCase` covers all of Unicode; every label in the source is ASCII.
- Layout.PathOf: drops only the fragment; no href in the source has a query string.
- Lenis smooth scrolling, the magnetic buttons, the preloader, page transitions, and the page and section components' content.
