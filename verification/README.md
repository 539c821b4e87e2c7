# Portfolio site logic, modelled in Dafny

This project models the four pieces of sequential logic in a personal
portfolio website built with Next.js and React. It proves properties about
each of them.

- **Vita parser** (`parseVita`, `src/app/vita/page.tsx`). The vita text is cut
  into lines and each line is trimmed. The lines are then folded into year
  blocks of (title, detail) items, plus an optional contact string. When the
  fetched text is blank, the built-in fallback text is parsed instead.
- **Scene navigator** (`src/app/page.tsx`). This is the home page's state
  machine over the seven scenes: home, five projects, vita. Its state is the
  active index, the navigating and glitching flags, one pending-timer slot for
  each flag, the touch start point, and the set of loaded scenes. Inputs are
  keys, wheel, touch, navigation-dot clicks and timer callbacks. Each input is
  an `Event`. `Step` applies an event and then the `loadedScenes` effect.
- **Gallery lightbox** (the four `src/app/portfolio/*/page.tsx` galleries). The
  state is `Option<nat>`: the image shown, or none when closed. Next and
  previous step through the images modulo the gallery's length. Thumbnails
  are split into rows by orientation and keep their original positions.
- **Sitemap** (`src/app/sitemap.ts`). A pure mapping from routes to entries.

Modules: `Optional`, `Text` (the JavaScript `trim`, `split` and `join`),
`Vita` and `VitaProperties`, `HomeScenes`, `Navigator` and
`NavigatorProperties`, `Lightbox`, `Galleries`, `Sitemap`.

Modelling choices:

- A `setTimeout` callback is the event `TimerFired(id)`. There is no clock.
  A pending slot holds the timer's handle and its delay (650 or 760). Handles
  come from a counter, because browsers hand out fresh positive integers.
  Clearing a timer means its callback never runs. So an id that is no longer
  pending changes nothing.
- React re-renders between events. Handlers read the rendered state. The
  `loadedScenes` effect runs when `activeIndex` has changed, as its
  dependency list says.
- Wheel deltas and touch coordinates are integers.
- `/^\d{4}$/` is modelled as "exactly four ASCII digits".
  `/^contact:/i` is an ASCII case-insensitive prefix test. Without the `u`
  flag, case-insensitive matching never maps a character outside ASCII onto
  an ASCII one, so only the ASCII letters of "contact", in either case, match.
- `trim` removes the ECMAScript WhiteSpace and LineTerminator code points,
  which are listed in `Text.IsSpace`.
- The sitemap's `Date` is a type parameter that all entries share. Priorities
  are `real` values, 1.0 and 0.6.
- The lightbox functions take the gallery length as a parameter. The four
  pages use the same code with lengths 4, 6, 7 and 9. The generic members
  cite the new-ecologies page. The per-gallery lemmas cite each page.

Two details of the navigator's code that the model keeps:

- `loadedScenes` adds the neighbours only when scene `i` was not already
  loaded (src/app/page.tsx:233). `NavigatorProperties.NeighbourNotAlwaysLoaded`
  shows a reachable state at scene 2 in which scene 3 is not loaded.
- `goToIndex` has no navigating guard. The key, wheel, touch-move and dot
  handlers check the flag before calling it, and so do `Navigator.HandleKey`,
  `HandleWheel`, `HandleTouchMove` and `HandleDotClick`; `Navigator.GoToIndex`
  does not.

## Model

| member | source | states |
|---|---|---|
| Text.Trim | src/app/vita/page.tsx:346 | `trim` gives a string with no whitespace at either end, no longer than its input, and empty (falsy) exactly when the input is all whitespace |
| Text.TrimIdempotent | src/app/vita/page.tsx:346 | trimming twice is trimming once |
| Text.TrimMargins | src/app/vita/page.tsx:346 | `trim` removes whitespace only: the input is a blank margin, then the trimmed text, then a blank margin |
| Text.Split | src/app/vita/page.tsx:346 | `split` yields at least one piece, no piece contains the separator, and joining the pieces gives back the input |
| Text.SplitJoin | src/app/vita/page.tsx:346 | splitting undoes joining when no piece holds the separator |
| Text.AfterFirstSeparator | src/app/vita/page.tsx:359 | `split(":").slice(1).join(":")` is the text after the first colon, later colons kept |
| Vita.IsContactLine | src/app/vita/page.tsx:358 | a line is a contact line exactly when its first seven characters are "contact" in any ASCII case and the eighth is a colon |
| Vita.IsYearLine | src/app/vita/page.tsx:363 | a line is a year line exactly when it is four ASCII digits; no year line is a contact line |
| Vita.ContactValue | src/app/vita/page.tsx:358-359 | the contact value is the trimmed text after the `contact:` prefix |
| Vita.VitaSource | src/app/vita/page.tsx:96 | a non-blank fetched text is parsed as is; a blank one is replaced by the fallback; the parsed text is never blank |
| Vita.RenderedVita | src/app/vita/page.tsx:96-97 | the page shows the parse of the fetched text when it is not blank, and the parse of the fallback text otherwise |
| Vita.FallbackNotBlank | src/app/vita/page.tsx:21-85 | the fallback text is not blank |
| Vita.Step | src/app/vita/page.tsx:353-383 | one loop iteration: only a contact line changes the contact, to its value; only a year line emits a block or changes the year; before the first year every other line is skipped; at most one item is added |
| Vita.Finish | src/app/vita/page.tsx:385-394 | after the loop the contact is kept; with no year the timeline is as emitted; a pending title closes the last year with an item of empty detail; otherwise the last year is emitted only when it has items |
| VitaProperties.ParseVitaSpec | src/app/vita/page.tsx:345-395 | `parseVita` of any raw text: the timeline is the grouping `Timeline` and the contact is `LastContact`, both over the text's trimmed lines |
| VitaProperties.EmptyLineIgnored | src/app/vita/page.tsx:353-356 | inserting an empty trimmed line anywhere leaves the parser's result unchanged |
| VitaProperties.ParseIgnoresEmptyLines | src/app/vita/page.tsx:353-356 | deleting every empty line leaves the parse unchanged |
| VitaProperties.BlankRawLineIgnored | src/app/vita/page.tsx:346-356 | a whitespace-only line of the raw text, inserted anywhere, leaves the parse unchanged |
| VitaProperties.LastContact | src/app/vita/page.tsx:358-361 | an independent definition of the last contact line's value: present exactly when some line is a contact line |
| VitaProperties.RunContact | src/app/vita/page.tsx:358-361 | after any lines, the parser's contact is the last contact line's value, or the earlier contact if there is none |
| VitaProperties.ParseContact | src/app/vita/page.tsx:358-361 | the parsed contact is the value of the last line that starts with `contact:` in any case, and is absent when there is none |
| VitaProperties.RunSegment | src/app/vita/page.tsx:377-382 | inside a year, successive plain lines pair in order into (title, detail) items, and an odd last line stays pending |
| VitaProperties.StepYear | src/app/vita/page.tsx:363-371 | a year line emits the current year only when it has items, opens the new year with no items, and drops a pending title |
| VitaProperties.RunGroups | src/app/vita/page.tsx:363-392 | from a freshly opened year, the parser emits exactly `YearGroups`, the independent grouping of the remaining lines |
| VitaProperties.RunNextYear | src/app/vita/page.tsx:363-371 | once the first segment is paired, the next year line closes the open year and the fold continues as a fresh year |
| VitaProperties.RunBeforeYear | src/app/vita/page.tsx:373-375 | on content lines, the timeline is the grouping of the lines from the first year on; earlier lines are ignored |
| VitaProperties.RunContent | src/app/vita/page.tsx:353-361 | empty and contact lines affect nothing but the contact |
| VitaProperties.ParseTimeline | src/app/vita/page.tsx:345-395 | the parsed timeline equals `Timeline`: the content lines from the first year on, cut at year lines, paired into items, with a leftover title kept only in the last year and years without items dropped |
| VitaProperties.LinesBeforeFirstYearIgnored | src/app/vita/page.tsx:363-375 | lines before the first four-digit line never affect the timeline |
| VitaProperties.GroupsShape | src/app/vita/page.tsx:364-391 | every block of the grouping has a year line and at least one item, built from input lines; only the very last item can have an empty detail |
| VitaProperties.ParseShape | src/app/vita/page.tsx:364-391 | every parsed block has a year and at least one item; titles are non-empty lines that are neither year nor contact lines; only the last item of the last block can have an empty detail |
| VitaProperties.ParseVitaTrimmed | src/app/vita/page.tsx:346-387 | parsed titles are non-empty and trimmed, and details are trimmed |
| VitaProperties.DanglingTitles | src/app/vita/page.tsx:369-388 | on the input 2024 / A / 2023 / B / C / D, the title A pending when 2023 starts is discarded, 2024 is dropped for lack of items, and D is kept with an empty detail |
| HomeScenes.SceneList | src/app/page.tsx:57-61 | the scene list is home, then one scene per project in order, then the vita |
| HomeScenes.SceneLayout | src/app/page.tsx:57-61 | there are seven scenes, home at 0 and the vita at N-1 |
| Navigator.Clamp | src/app/page.tsx:114 | the target is the in-range index nearest to the request, and an in-range request is kept |
| Navigator.TriggerGlitch | src/app/page.tsx:101-110 | the glitch flag is raised and its slot gets a fresh 760 timer; nothing else changes |
| Navigator.GoToIndex | src/app/page.tsx:112-132 | no change when the clamped target is the current index; otherwise the target becomes active, both flags are raised, both slots get fresh distinct timers, and the touch start and loaded set are untouched |
| Navigator.GoToNumericIndex | src/app/page.tsx:134-140 | clicking the active scene does nothing; any other index goes through `goToIndex` |
| Navigator.LoadScenes | src/app/page.tsx:231-240 | the loaded set never shrinks and holds the active scene; it is unchanged when that scene was already loaded, and otherwise gains exactly the scene's in-range neighbourhood |
| Navigator.Step | src/app/page.tsx:143-240 | every event keeps the state invariant (index in range, each flag raised exactly while its timer is pending, active scene loaded), and loaded scenes stay loaded |
| Navigator.HandleKey | src/app/page.tsx:143-161 | the key handler does nothing while navigating, and never touches the loaded set or the touch start |
| Navigator.HandleWheel | src/app/page.tsx:173-177 | the wheel handler does nothing while navigating or below the threshold, and otherwise moves at most one scene |
| Navigator.HandleTouchStart | src/app/page.tsx:183-186 | a single finger records its Y as the start point; any other number of fingers changes nothing |
| Navigator.HandleTouchMove | src/app/page.tsx:188-199 | without a start point, or while navigating, a move does nothing; a move that changes the scene moves at most one scene and forgets the start point |
| Navigator.HandleDotClick | src/app/page.tsx:320-322 | a dot click does nothing while navigating and otherwise goes to the clicked scene, clamped |
| Navigator.HandleTimer | src/app/page.tsx:106-127 | a timer callback only lowers flags and clears slots: the scene, touch start and handle supply stay as they are |
| Navigator.Handle | src/app/page.tsx:143-203 | only keys, wheel, touch moves and dot clicks can move, and none of them while navigating |
| NavigatorProperties.InitialState | src/app/page.tsx:66-76 | the first render is at home, with no flags and only home loaded |
| NavigatorProperties.IgnoredWhileNavigating | src/app/page.tsx:143-190 | while navigating, keys, wheel, touch moves and dot clicks change nothing |
| NavigatorProperties.KeyMap | src/app/page.tsx:143-161 | forward keys go to active+1, backward keys to active-1, Home to 0, End to N-1, clamped; other keys do nothing |
| NavigatorProperties.UpAtHome | src/app/page.tsx:149-151 | from any state at home with nothing in flight, pressing ArrowUp changes nothing |
| NavigatorProperties.DownAtVita | src/app/page.tsx:145-148 | from any state at the vita with nothing in flight, pressing ArrowDown changes nothing |
| NavigatorProperties.WheelMap | src/app/page.tsx:173-177 | the wheel is ignored while navigating or below 30; otherwise it steps by the sign of deltaY |
| NavigatorProperties.DotClickMap | src/app/page.tsx:320-322 | a dot click is ignored while navigating; otherwise it goes to the clicked scene |
| NavigatorProperties.TransitionReplacesTimers | src/app/page.tsx:101-128 | a transition raises both flags, and the callbacks of the timers it replaced can no longer change anything |
| NavigatorProperties.TimerExpiry | src/app/page.tsx:106-127 | the nav timer clears only the navigating flag and its slot; the glitch timer clears only the glitching flag and its slot |
| NavigatorProperties.TouchBookkeeping | src/app/page.tsx:183-203 | touch start records Y only for exactly one finger; end and cancel clear it |
| NavigatorProperties.SwipeMap | src/app/page.tsx:188-199 | a move below 80 changes nothing; one of 80 or more steps toward the swipe and clears the start point |
| NavigatorProperties.MovesWithoutStart | src/app/page.tsx:190 | touch moves without a start point do nothing |
| NavigatorProperties.NoStartNoMove | src/app/page.tsx:106-127 | without a start point, touch moves and timer callbacks neither move nor set a start point |
| NavigatorProperties.OneStepPerSwipe | src/app/page.tsx:188-199 | any sequence of touch moves and timer callbacks, including the ones that end a transition, changes the active scene by at most one |
| NavigatorProperties.LoadedGrowth | src/app/page.tsx:231-240 | after every event the loaded set has grown or stayed put and holds the active scene; neighbours join only with a newly loaded scene |
| NavigatorProperties.FirstDownLoadsNeighbours | src/app/page.tsx:143-148 | the first "down" from home moves to scene 1, raises both flags with timers 1 and 2, and loads scenes 0 to 2 |
| NavigatorProperties.NeighbourNotAlwaysLoaded | src/app/page.tsx:231-240 | a scene that was already loaded does not pull in its neighbours: at scene 2, scene 3 can be unloaded |
| NavigatorProperties.PressDownMoves | src/app/page.tsx:143-148 | k presses of "down", each followed by waiting out the timers, move k scenes and stop at the vita |
| NavigatorProperties.SixDownsReachVita | src/app/page.tsx:57-61 | six such presses from home reach the vita |
| Lightbox.Close | src/app/portfolio/new-ecologies/page.tsx:218 | closing gives a closed lightbox from any state |
| Lightbox.Open | src/app/portfolio/new-ecologies/page.tsx:289 | a thumbnail click shows the clicked index |
| Lightbox.Next | src/app/portfolio/new-ecologies/page.tsx:220-225 | a closed lightbox stays closed; an open one moves to the following image, wrapping from the last to the first, and stays in range |
| Lightbox.Prev | src/app/portfolio/new-ecologies/page.tsx:227-232 | a closed lightbox stays closed; an open one moves to the preceding image, wrapping from the first to the last, and stays in range |
| Lightbox.HandleKey | src/app/portfolio/new-ecologies/page.tsx:234-253 | keys act only while open: Escape closes, ArrowRight is next, ArrowLeft is prev, other keys do nothing |
| Lightbox.NextPrevInverse | src/app/portfolio/new-ecologies/page.tsx:220-232 | prev undoes next and next undoes prev |
| Lightbox.NextCycle | src/app/portfolio/new-ecologies/page.tsx:220-225 | pressing next once per image returns to the starting state |
| Galleries.WithIndex | src/app/portfolio/new-ecologies/page.tsx:180 | each image is paired with its position in the list |
| Galleries.OfOrientation | src/app/portfolio/new-ecologies/page.tsx:181-182 | the orientation filter is no longer than its input and keeps only thumbnails of that orientation |
| Galleries.Row | src/app/portfolio/new-ecologies/page.tsx:180-182 | a row is no longer than the image list, and each thumbnail in it stands for an image of the row's orientation at its own position |
| Galleries.FilterMembers | src/app/portfolio/new-ecologies/page.tsx:181-182 | the orientation filter keeps exactly the listed thumbnails of that orientation |
| Galleries.FilterOrdered | src/app/portfolio/new-ecologies/page.tsx:181-182 | filtering keeps the list order |
| Galleries.RowContents | src/app/portfolio/new-ecologies/page.tsx:180-182 | a row holds exactly the positions of the images with its orientation, each with its original index, in list order |
| Galleries.RowsPartition | src/app/portfolio/new-ecologies/page.tsx:180-182 | for a gallery tagged only portrait or landscape, every position is in exactly one row |
| Galleries.ClickOpensOwnImage | src/app/portfolio/new-ecologies/page.tsx:285-289 | a thumbnail opens an in-range image of its own orientation |
| Galleries.NewEcologiesGallery | src/app/portfolio/new-ecologies/page.tsx:7-28 | the portrait row shows images 0, 2 and 3 in that order, the landscape row shows image 1, and the lightbox wraps at four images |
| Galleries.MorphonicLabGallery | src/app/portfolio/morphonic-lab/page.tsx:190-235 | the portrait row is empty, the landscape row is the whole list in order, the arrows wrap at six images, and they do nothing while closed |
| Galleries.ShipsGallery | src/app/portfolio/ships/page.tsx:183-220 | the thumbnail at position k opens image k; the only landscape image is the last one, which the single thumbnail grid styles apart; the right arrow wraps from it to the first; Escape closes |
| Galleries.SinksGallery | src/app/portfolio/sinks/page.tsx:130-190 | thumbnail k opens image k; next wraps from the ninth image to the first; the left arrow steps back with wrap-around |
| Sitemap.StripTrailingSlash | src/app/sitemap.ts:22 | the result is a prefix of the input that is at most one character shorter, and it is shorter exactly when the input ends with "/" |
| Sitemap.Url | src/app/sitemap.ts:22 | the root route maps to the base URL; any other route maps to base + "/" + route, minus one trailing slash |
| Sitemap.Priority | src/app/sitemap.ts:25 | priority is 1 exactly for the root route, 0.6 otherwise |
| Sitemap.Entries | src/app/sitemap.ts:21-26 | one entry per route, in the same order |
| Sitemap.UrlRoundTrip | src/app/sitemap.ts:22 | a route without a trailing slash is recovered from its URL |
| Sitemap.UrlInjective | src/app/sitemap.ts:22 | distinct routes without trailing slashes have distinct URLs |
| Sitemap.OnlyOneSlashStripped | src/app/sitemap.ts:22 | only one trailing slash is removed |
| Sitemap.SiteMap | src/app/sitemap.ts:5-26 | the sitemap has one entry per route, each monthly and carrying the shared date |
| Sitemap.SiteMapEntries | src/app/sitemap.ts:5-26 | each entry's URL names its route, all are monthly and share one date, and only the home entry has priority 1 |
| Sitemap.SiteMapUrlsDistinct | src/app/sitemap.ts:8-22 | no two sitemap entries share a URL |

## Left out

- Fetching `/vita.txt` is I/O. The model starts from the fetched text; a failed fetch is the empty string.
- JSX rendering, CSS, styled-jsx and image/alt data are not modelled. Only list lengths and orientation tags are kept. The fallback vita text is kept because the parser reads it.
- Real time is not modelled. Timers are events, so the model does not force the 650 timer to fire before the 760 timer.
- Registering and removing event listeners, and clearing timers on unmount, are left out. After unmount the state is discarded.
- The `matchMedia` overflow handling and the mobile-layout flag are DOM effects.
- Scrolling the nav bar to centre the active dot is floating-point DOM geometry.
- Home-video poster capture through a canvas and `localStorage` uses foreign APIs, each wrapped in a best-effort try/catch.
- `event.preventDefault()` and the overlay's click-propagation handling are browser effects that change no state.
- Wheel deltas and touch coordinates are integers, not real numbers.
- The sitemap's `new Date()` is a type parameter, not a clock reading.
- The rest of the site is not modelled. The landing, contact, legal, digital-assets and globe-installation pages, `PortfolioGrid`, `PortfolioStripes`, the layout and `robots.ts` contain markup, DOM-driven effects or constant objects, and no logic to verify.
