# Floor-plan route follower

A Dafny model of the route-following engine of the indoor-navigation web
client's floor page. There are four variants of the page: `frontend`,
`frontend1`, `frontend_ver2` and `frontend_ver3`. The page shows a floor map
image with a canvas over it and a marker element. The user picks a start and
a destination, either from a search or with a QR code that fixes the start.
The page then asks the routing service for the whole cross-floor route
(`fullPath`) and draws the part of it that lies on the current floor. Every
animation frame moves the marker 2 pixels toward the next node. At a
transition node (a stair or an elevator) the page stores the rest of the
route in `sessionStorage` under `remainingPath` and navigates to the next
floor's page, which picks the route up when its image has loaded.

The model has three layers:

- **Values.** `Geometry`, `Route`, `Labels`, `MarkerText` and `Render` hold
  pure functions with their lemmas. They cover screen scaling, the 2-pixel
  step, `filter`/`findIndex`/`slice` on the route, floor labels and URLs,
  the second version's `translateX(…px)` text and its regular expressions,
  and the canvas stroke.
- **Specification.** `Machine` holds one function per page operation over a
  snapshot `Page` of the page's mutable variables. The variant and the URL
  parameters are inputs. So are the host's `Math.sqrt`, number-to-text and
  `parseFloat`.
- **State.** `Navigation.NavigationSession` is a class whose fields are the
  page's variables. Each method changes them exactly as its `Machine`
  function says. `Properties` proves what those functions guarantee.

Where the variants differ, the model follows each one's code, with one
exception: the third version's path stroke. That script scales the canvas
context by `scale` on a canvas that CSS already shows scaled, so its path
lands away from its marker. `Render.DrawPath` uses the corrected stroke for
that variant. The stroke as written is `Render.DrawPathVer3AsWritten`, and
the mismatch is shown under "## Findings".

- The first two variants (`frontend`, `frontend1`) take the current floor
  from the start node. They compare nodes by their nullable `qr_id`, strip
  the first `F` from the URL floor and append `F` when they hand off.
  `frontend` also waits for the image to finish loading and adds the image's
  offset.
- The second version (`frontend_ver2`) keeps the marker's position in a CSS
  transform and reads it back with regular expressions. On a resize it moves
  the marker's `left`/`top` to the image offset.
- The third version (`frontend_ver3`) rescales and re-places the marker after
  every node it reaches.

Two behaviours of the first two variants are modelled as written:

- Two nodes that both lack a `qr_id` count as the same node.
- A page opened by a handoff consumes the stored route but never starts it,
  because it has no start node (`StartNodeDrivenRestoreDropsRoute`).

## Model

| member | source | states |
|---|---|---|
| Geometry.ImageScale | frontend/js/floor.js:118 | the scale is positive and scale × natural width = displayed width |
| Geometry.ScreenRoundTrip | frontend/js/floor.js:91-111 | mapping an image point to the screen (offset + p × scale) and back gives the point again |
| Geometry.ScreenDependsOnScale | frontend_ver3/js/floor.js:191-204 | two scales place a point other than the origin at different screen positions |
| Geometry.SqDist | frontend/js/floor.js:245-247 | the squared distance is never negative |
| Geometry.MoveCoversSpeed | frontend/js/floor.js:250-257 | one move toward a target `dist` away covers exactly the marker speed |
| Geometry.MoveLeavesRemainder | frontend/js/floor.js:250-257 | after one move the target is `dist − speed` away |
| Geometry.MovesToArriveIsFloor | frontend/js/floor.js:245-260 | the number of 2-pixel moves before a node is reached is floor(dist / speed); Properties.SegmentTakesMovesToArrive ties this count to the frames |
| Route.FloorSegment | frontend/js/floor.js:184 | the current-floor segment is no longer than the route, and every node in it is on the floor |
| Route.FloorSegmentIsOrderedSelection | frontend/js/floor.js:184 | the segment is the route read at strictly increasing positions, and every on-floor position of the route is one of them |
| Route.SelectionFrom | frontend1/js/floor.js:161 | the same selection facts, for a suffix of the route starting at any base position |
| Route.SelectedPositions | frontend_ver2/js/floor.js:152 | segment element k is the route node at the k-th selected position |
| Route.IncreasingPositions | frontend_ver3/js/floor.js:135 | the selected positions strictly increase |
| Route.AllPositions | frontend/js/floor.js:148 | every route node on the floor is selected |
| Route.FindFirstIndex | frontend/js/floor.js:187 | −1 exactly when no node is on the floor; otherwise an on-floor index with no on-floor node before it |
| Route.FirstIndexStartsSegment | frontend_ver3/js/floor.js:135-137 | the first index is −1 exactly when the segment is empty; otherwise it points at the segment's first node |
| Route.RemainingIsSuffix | frontend/js/floor.js:298 | `slice(pathIndex + 1)` holds exactly the nodes after the index, and the prefix up to the index followed by it is the route |
| Labels.NormaliseFloor | frontend/js/floor.js:43 | the label ends in `F`, extends the floor by at most that `F`, and is the floor itself exactly when the floor already ends in `F` |
| Labels.NormaliseIsIdempotent | frontend/js/floor.js:83 | normalising a label twice changes nothing |
| Labels.StripFirstF | frontend/js/floor.js:420 | `replace('F', '')` removes one character exactly when there is an `F`, and otherwise leaves the floor unchanged |
| Labels.StripRemovesFirstF | frontend/js/floor.js:420 | the character removed is an `F` with no `F` before it, and the rest of the floor is kept in order |
| Labels.StripAppendedF | frontend/js/floor.js:133 | stripping `f + "F"` removes the first `F` of `f` if there is one, and otherwise gives back `f` |
| Labels.HandedOffLabel | frontend/js/floor.js:300 | for a floor without `F`, the next page gets back the database floor and loads the `fF` image |
| Labels.ImageUrlIsInjective | frontend/js/floor.js:44 | for building names without `_`, different building or label give a different image URL |
| Labels.NavigationUrlReadsBack | frontend/js/floor.js:33-35 | the page reached through the navigation URL reads back exactly the building and floor + suffix as its `building` and `floor` parameters, when they hold no `&` |
| MarkerText.RunEnd | frontend_ver2/js/floor.js:173 | `[^p]+` ends at the first `p` or at the end of the text |
| MarkerText.MatchAt | frontend_ver2/js/floor.js:173-174 | a match at a position is the opening, then the captured run (non-empty, without `p`), then `px)` |
| MarkerText.MatchAtFindsRun | frontend_ver2/js/floor.js:173-174 | conversely, an opening, a non-empty run without `p` and then `px)` is a match that captures that run |
| MarkerText.SkipNonMatches | frontend_ver2/js/floor.js:173-174 | the leftmost search skips positions where no match starts |
| MarkerText.TranslateLayout | frontend_ver2/js/floor.js:91 | the marker text is laid out as `translateX(` x `px) translateY(` y `px)` |
| MarkerText.ReadBackTranslate | frontend_ver2/js/floor.js:172-175 | both regular expressions read back exactly the numbers that were written |
| Render.DrawPath | frontend/js/floor.js:265-289 | fewer than two nodes leave the canvas blank; otherwise the segment is stroked with a positive width and dash as each variant sets them, the third version with the corrected stroke (no context scaling) |
| Render.FrontendStroke | frontend/js/floor.js:280-284 | `frontend` strokes at least 1 wide with dashes at least 2; at scale ≤ 7 the line is 7 pixels wide on screen, and at scale ≤ 5 the dash is 10 pixels on screen |
| Render.FixedStroke | frontend1/js/floor.js:237-238 | `frontend1` and the second version stroke width 7 and dash 10 whatever the scale |
| Render.Ver3StrokeMatchesMarker | frontend_ver3/js/floor.js:187-208 | the corrected stroke of the third version draws every node where its marker is placed, 7 pixels wide on screen |
| Render.Ver3AsWrittenMisplaces | frontend_ver3/js/floor.js:191-204 | as written, a node is drawn where its marker is only at the origin or at scale 1 |
| Render.Ver3AsWrittenExample | frontend_ver3/js/floor.js:192 | at scale 0.5 the node (100, 0) is drawn at x = 25 while its marker is at x = 50 |
| Machine.Initial | frontend/js/floor.js:417-422 | a fresh page is consistent, idle, has no route, and keeps the session storage it was given |
| Machine.MarkerAt | frontend/js/floor.js:91-111 | placing the marker changes only the marker's position, transform and visibility |
| Machine.Rescale | frontend/js/floor.js:115-159 | rescaling keeps the page consistent; what it computes is stated by Properties.RescaleSetsScale and the three variant lemmas after it |
| Machine.Start | frontend/js/floor.js:180-195 | starting keeps the page consistent; what it computes is stated by Properties.StartPicksFirstIndex |
| Machine.Handoff | frontend/js/floor.js:293-301 | a handoff keeps the page consistent; what it computes is stated by Properties.HandoffStoresSuffix |
| Machine.Step | frontend/js/floor.js:245-260 | a step keeps the page consistent; what it computes is stated by Properties.StepAdvances and Properties.StepMovesBySpeed |
| Machine.Animate | frontend/js/floor.js:198-261 | a frame keeps the page consistent; what it computes is stated by Properties.ArrivalStops through Properties.AnimateSteps |
| Machine.Navigated | frontend/js/floor.js:33-35 | the next page exists when both `building` and `floor` read back from the URL, and keeps the variant |
| Machine.Restore | frontend/js/floor.js:61-66 | a restore keeps the page consistent; what it computes is stated by Properties.RestoreConsumesOnce |
| Machine.Loaded | frontend/js/floor.js:47-66 | loading keeps the page consistent; what it computes is stated by Properties.HandoffResumesOnNextPage |
| Machine.Resized | frontend_ver2/js/floor.js:310 | a resize keeps the page consistent; what it computes is stated by Properties.ResizeRescales |
| Machine.RequestRoute | frontend/js/floor.js:163-177 | a route request keeps the page consistent; what it computes is stated by Properties.RequestChecks |
| Machine.Scanned | frontend/js/floor.js:75-88 | a scan keeps the page consistent; what it computes is stated by Properties.ScanLocksStart |
| Navigation.NavigationSession.constructor | frontend/js/floor.js:417-422 | the session starts in the `Initial` page state for its variant, URL parameters and storage |
| Navigation.NavigationSession.PlaceMarker | frontend/js/floor.js:91-111 | `updateMarkerPosition` changes the fields exactly as `MarkerAt` does |
| Navigation.NavigationSession.UpdateScaleAndPositions | frontend1/js/floor.js:102-137 | `updateScaleAndPositions` changes the fields exactly as `Rescale` does |
| Navigation.NavigationSession.StartPathAnimation | frontend_ver2/js/floor.js:150-159 | `startPathAnimation` changes the fields exactly as `Start` does |
| Navigation.NavigationSession.HandleTransition | frontend_ver3/js/floor.js:210-217 | `handleTransition` changes the fields exactly as `Handoff` does |
| Navigation.NavigationSession.MoveMarker | frontend_ver3/js/floor.js:170-183 | the step part of `animateMarker` changes the fields exactly as `Step` does |
| Navigation.NavigationSession.AnimateMarker | frontend_ver2/js/floor.js:161-190 | one `animateMarker` frame changes the fields exactly as `Animate` does |
| Navigation.NavigationSession.RestoreRoute | frontend_ver3/js/floor.js:72-77 | picking up `remainingPath` changes the fields exactly as `Restore` does |
| Navigation.NavigationSession.ImageLoaded | frontend1/js/floor.js:46-65 | the image `onload` handler changes the fields exactly as `Loaded` does |
| Navigation.NavigationSession.Resize | frontend_ver3/js/floor.js:332 | the resize listener changes the fields exactly as `Resized` does |
| Navigation.NavigationSession.RequestPath | frontend1/js/floor.js:141-154 | the route button changes the fields, and reports the outcome, exactly as `RequestRoute` does |
| Navigation.NavigationSession.Swap | frontend/js/floor.js:360-364 | the swap button changes the fields exactly as `Swapped` does |
| Navigation.NavigationSession.ChooseNode | frontend/js/floor.js:326-331 | a search-result click changes the fields exactly as `Chosen` does |
| Navigation.NavigationSession.ScanStart | frontend_ver3/js/floor.js:39-52 | a successful QR lookup changes the fields exactly as `Scanned` does |
| Properties.MarkerPlacement | frontend/js/floor.js:91-111 | in the first two variants a missing coordinate, or an unloaded image in `frontend`, leaves the marker alone; the other two show the marker anyway and keep its position; otherwise the marker goes to offset + p × scale and is shown |
| Properties.TransformReadsBack | frontend_ver2/js/floor.js:172-175 | a transform written for a screen point is read back as that point, when the number texts of that point parse back |
| Properties.MarkerReadsBack | frontend_ver2/js/floor.js:88-93 | wherever the marker is placed, the next frame reads it back at that screen position (second version: when that point's texts parse back) |
| Properties.RescaleSetsScale | frontend/js/floor.js:115-118 | without a usable image nothing changes; otherwise scale = displayed width / natural width; route, index, storage and phase never change |
| Properties.RescaleFollowsNode | frontend/js/floor.js:132-158 | `frontend`/`frontend1` put the marker on the current route node when it is on the floor, otherwise on the start node when that is, and redraw or clear the floor's segment |
| Properties.Ver3RescalePlacesMarker | frontend_ver3/js/floor.js:86-107 | the third version re-places the marker on the current node, or on the start node when there is no route, and redraws the segment |
| Properties.Ver2RescaleRepositions | frontend_ver2/js/floor.js:97-123 | the second version moves `left`/`top` to the image offset, redraws, and rewrites the transform for the current node only when the index is above 0 |
| Properties.StartGuard | frontend/js/floor.js:180-181 | without a start node (first two variants) or with fewer than two nodes, starting does nothing |
| Properties.StartPicksFirstIndex | frontend/js/floor.js:180-195 | the index becomes the first on-floor position; −1 starts nothing; a found index starts the animation (first two variants: only if that node has coordinates); route and storage stay |
| Properties.StartPlacesMarker | frontend/js/floor.js:186-194 | a found index with coordinates puts the marker on that node's screen position (read back from the transform in the second version, at the new scale in the third); the last two versions show the marker even without coordinates |
| Properties.StartDrawsFloorSegment | frontend/js/floor.js:182-185 | the drawn path is the start floor's nodes in route order, and all of them |
| Properties.ArrivalStops | frontend/js/floor.js:199-208 | at the last index the first two variants snap to the final node and stop; the other two stop from the last index on without moving |
| Properties.BadFrameHalts | frontend/js/floor.js:199-216 | `frontend`/`frontend1` stop with an error on an index outside the route or a node without coordinates |
| Properties.TransitionComesFirst | frontend/js/floor.js:219 | a transition node is handed off before any movement |
| Properties.HandoffStoresSuffix | frontend/js/floor.js:293-301 | the handoff stores exactly the nodes after the current one and navigates to the target (adding `F` in the first two variants); a missing target stops with storage and location untouched |
| Properties.AnimateSteps | frontend_ver2/js/floor.js:172-189 | a frame moves from `left`/`top` (first two variants) or from the transform read back; a next node without coordinates leaves the page unchanged; an unreadable transform stops the animation |
| Properties.StepAdvances | frontend/js/floor.js:249-250 | closer than the speed: index + 1, and the marker stays (first two), snaps to the next node (second version) or is re-placed there (third) |
| Properties.StepMovesBySpeed | frontend_ver2/js/floor.js:181-189 | otherwise the index stays and the marker read next frame is exactly the speed from where it was and `dist − speed` from the target |
| Properties.StepShortensCount | frontend/js/floor.js:245-257 | a moving frame brings the marker exactly the speed closer, so the count of moves left on the segment drops by one |
| Properties.SegmentTakesMovesToArrive | frontend/js/floor.js:198-260 | for the variants that keep the marker in `left`/`top`, exactly `MovesToArrive(dist, 2)` frames move the marker on a segment without changing the index; the frame after them advances the index |
| Properties.OnlyTransitionsHandOff | frontend_ver3/js/floor.js:151-154 | a running animation hands off only at a transition node inside the route |
| Properties.StepKeepsPhase | frontend_ver3/js/floor.js:174-183 | a step never changes the phase |
| Properties.StartKeepsRouteAndStorage | frontend/js/floor.js:180-195 | starting never changes the route or the storage |
| Properties.RestoreConsumesOnce | frontend/js/floor.js:61-66 | a stored route becomes the route and is removed, so a second restore changes nothing |
| Properties.HandoffResumesOnNextPage | frontend_ver3/js/floor.js:210-217 | in the second and third versions the next page's route is exactly the nodes after the transition node, the stored copy is gone, and the animation restarts at the new floor's first node |
| Properties.StartNodeDrivenRestoreDropsRoute | frontend1/js/floor.js:59-64 | `frontend`/`frontend1` opened by a handoff consume the stored route but leave the page idle with a blank canvas |
| Properties.NextPageIsTargetFloor | frontend_ver2/js/floor.js:216 | the URL a handoff navigates to opens a page whose `building` and `floor` are the target's (with `F` appended in the first two variants) |
| Properties.HandedOffPageShowsTarget | frontend1/js/floor.js:250 | the page the handoff opens with `floor=<f>F` works on exactly the target's building and floor and loads the `fF` image |
| Properties.RequestChecks | frontend/js/floor.js:163-177 | with a missing end or the same node at both ends nothing changes; otherwise the pending frame is cancelled before the answered route is installed and started; a failed request, or an empty route in the first two variants, starts nothing |
| Properties.SwapExchanges | frontend/js/floor.js:360-364 | the swap exchanges start and destination unless the start is fixed, and swapping twice restores the page |
| Properties.ChoiceFillsField | frontend/js/floor.js:326-331 | a search-result click fills only the chosen field |
| Properties.ScanLocksStart | frontend/js/floor.js:75-88 | a scanned node becomes the fixed start that a swap keeps, and the first two variants reload the map on its floor |
| Properties.ResizeRescales | frontend_ver2/js/floor.js:97-103 | a resize of the second version rescales to the new width and moves the marker to the new offset |

## Left out

- The DOM, `fetch`, `alert`, `console` and timing are left out. A requested animation frame is the `Animating` phase, and cancelling it is `Cancelled`.
- The routing, search and QR services are left out. Their answers are method parameters: `None` for a failed request.
- The search box, the sidebar, the floor list and the building title are left out. They only display things.
- The AR scan messages (`postMessage`, `window.open`) are left out. A successful lookup is `ScanStart`.
- `Math.sqrt`, number-to-text and `parseFloat` are host functions given to the session. Floating-point rounding is not modelled. Lemmas that need more of them say so: `ExactSqrt` asks for the exact non-negative root, and `ReadsBack` asks that the texts of one written point parse back to it (`Machine.ReadsBackCanHold` shows this can hold for any point).
- Properties.TransformReadsBack: holds only for a point whose texts parse back (`ReadsBack`), since no text map can read every real number back.
- Properties.StepMovesBySpeed: assumes an exact square root, and in the second version that the moved point's texts parse back.
- Properties.SegmentTakesMovesToArrive: covers the three variants that keep the marker in `left`/`top`, not the second version, whose every step goes through number text.
- Labels.NavigationUrlReadsBack: `URLSearchParams` percent-decoding and `+` for space are not modelled; the target's building and floor are assumed free of `&`.
- Machine.Navigated: a missing `building` or `floor` parameter (`null` in the page) gives no next page.
- Render.DrawPath: the third version is modelled with the corrected stroke, not with its `ctx.scale(scale, scale)`; the stroke as written is `Render.DrawPathVer3AsWritten`, and the difference is the finding below.
- Navigation to another page is modelled as the `location` it sets. The new page is a fresh session over the same storage.
- Empty `transition_to` fields in the second and third versions produce `undefined` text in the URL. This is not modelled. A missing field is modelled as the empty string.
- Navigation.NavigationSession.AnimateMarker: requires the `Animating` phase, since a frame runs only after one was requested. The first, synchronous call from `startPathAnimation` is treated as a requested frame.
- Navigation.NavigationSession.constructor: the `qr_id` URL parameter is reduced to a flag. When it is set, the first two variants wait for the lookup before loading any map.
- Machine.Rescale: assumes a displayed image with a nonzero natural width has a positive displayed width. A hidden image (displayed width 0) is not modelled.
- Machine.Animate: the marker offset that `frontend1` uses for the canvas is not compared with the marker's own.
- Render.DrawPath: models what is stroked and with which width and dash. Pixels, colours and line caps are not modelled.

## Findings

| source | as written | input that shows it | evidently intended | confidence | as-written member | corrected member |
|---|---|---|---|---|---|---|
| frontend_ver3/js/floor.js:191-204 | `ctx.scale(scale, scale)` on a canvas that CSS already shows scaled by `scale` | scale 0.5 and node (100, 0): the path is drawn at x = 25 while the marker is at x = 50 | the path is drawn where the marker is, 7 pixels wide on screen | not executed | Render.Ver3AsWrittenMisplaces | Render.Ver3StrokeMatchesMarker |
