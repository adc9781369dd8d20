# rara-maps widget core, modelled in Dafny

This project models the orchestration core of the rara-maps map widget. That core has five parts:

- **The content panel.** A draggable bottom sheet with a settle animation and tab navigation.
- **The application state.** It ties layer visibility, overlay opacity, locations and content tabs together.
- **The map component's effects.** These cover control offsets, recentring when the bottom padding changes, and handing the active location over to a popup and a camera flight.
- **The debounced layer-command queue.** It applies visibility and opacity to a map that loads asynchronously.
- **The supporting libraries.** The route-flight camera controller, z-order placeholders, location popups and their hover state, the locations layer, the attribution control, and URL expansion.

How each part is modelled:

- Each source file is one module. Entities whose fields the source updates in place are classes with `modifies` frames. Values and pure computations are datatypes, functions and lemmas.
- React state updates are field assignments. Each `useEffect` is a method that runs after an update when its dependency changed, in the component's declaration order.
- JavaScript `Map`s and objects that are written key by key are insertion-ordered sequences of `(key, value)` pairs:
  - `Common.Put` is `set` and `Common.Lookup` is `get`.
  - `null` and `undefined` used as object keys become the strings "null" and "undefined" (`Common.JsId.Key`).
- Parameters stand in for outside input:
  - clock readings, animation frames and timers;
  - what the map reports (loaded, layer ready, style layers, projection);
  - the geometry library (`FlyTangent.Geo`);
  - DOM measurements (the panel's rendered top).

The model follows the code wherever the widget's written description differs from it:

- **Settings panel.** It closes when the content panel comes to rest *open* (`panelTop < maxPanelTop`, plugins/rara-maps/app/ContentPanel.tsx:228), not when it settles closed.
- **Middle snap point.** `midPanelTop` is half the panel's travel measured from 0 (ContentPanel.tsx:67). For a panel travelling from 100 to 800 it is 350, not the geometric middle 450 (`ContentPanel.SnapExamples`).
- **URL expansion.** It is idempotent exactly when the base URL is the placeholder itself or neither of the two begins with the other (`Url.IdempotentExactly`). A base URL that is a proper prefix of the placeholder can complete a second placeholder (`Url.ShortBaseBreaksIdempotence`); a base URL that begins with the placeholder expands again.

## Model

| member | source | states |
|---|---|---|
| Common.OrNull | plugins/rara-maps/lib/locations.ts:37 | `x ?? null` yields a string exactly when the property is present, and that string is the property's value |
| Common.IndexOf | plugins/rara-maps/app/ContentPanel.tsx:110 | `indexOf` is null exactly when the element is absent; otherwise it is the element's first position |
| Common.Lookup | plugins/rara-maps/app/App.tsx:141 | a dictionary read is absent exactly when the key has no entry |
| Common.Put | plugins/rara-maps/app/MapHooks.tsx:147 | a write makes the key read back the new value and leaves every other key's value as it was; the key set grows by that key only; an existing key keeps its place; one entry per key is preserved |
| Common.PutPut | plugins/rara-maps/app/MapHooks.tsx:147 | writing a key twice equals writing only the second value (last write wins) |
| Common.FindFeature | plugins/rara-maps/app/App.tsx:128 | `find` by `properties.id ?? null` is empty exactly when no feature has the id; otherwise it returns a member of the collection with that id |
| MapHooks.LayerWait.constructor | plugins/rara-maps/app/MapHooks.tsx:15-47 | a layer that is already ready resolves at once; otherwise the wait listens on `load`, `styledata`, `sourcedata` and `idle`, and arms the timer, whose duration defaults to 3000 ms when none is given |
| MapHooks.LayerWait.OnEvent | plugins/rara-maps/app/MapHooks.tsx:32-39 | a readiness event resolves the wait exactly when the map is loaded and has the layer; resolving drops every listener and the timer |
| MapHooks.LayerWait.OnTimeout | plugins/rara-maps/app/MapHooks.tsx:43-46 | the timeout rejects the wait and cleans up its listeners and timer |
| MapHooks.SafeSetRasterOpacity | plugins/rara-maps/app/MapHooks.tsx:51-76 | `safeSetRasterOpacity`: a call only when the map is present and the layer is ready and in its style; NaN becomes 1 and the value is clamped to [0, 1] (`MapHooks.OpacityBatchFor`, `MapHooks.OpacityBatchWithout`) |
| MapHooks.SafeSetVisibility | plugins/rara-maps/app/MapHooks.tsx:79-97 | `safeSetVisibility`: a `visible`/`none` layout call only for a layer the map accepts, none otherwise (`MapHooks.VisibilityBatchFor`, `MapHooks.VisibilityBatchWithout`) |
| MapHooks.FlushScale | plugins/rara-maps/app/MapHooks.tsx:130-134 | the rescaling in `flush`: NaN becomes 1, values above 1 are read as percentages; after clamping the map receives a value in [0, 1] (`MapHooks.AppliedOpacity`, `MapHooks.OpacityNormalisation`) |
| MapHooks.AppliedOpacity | plugins/rara-maps/app/MapHooks.tsx:130-134 | whatever value was requested, the opacity that reaches the map lies in [0, 1] |
| MapHooks.OpacityNormalisation | plugins/rara-maps/app/MapHooks.tsx:130-134 | NaN becomes 1; a value in [0, 1] is kept; a value in (1, 100] is read as a percentage; anything larger saturates at 1 and anything negative at 0 |
| MapHooks.BatchKinds | plugins/rara-maps/app/MapHooks.tsx:115-139 | the visibility phase makes only layout-visibility calls; the opacity phase makes only raster-opacity calls, each with a value in [0, 1] |
| MapHooks.VisibilityBeforeOpacity | plugins/rara-maps/app/MapHooks.tsx:115-139 | in a flush, every visibility call precedes every opacity call |
| MapHooks.VisibilityBatch | plugins/rara-maps/app/MapHooks.tsx:115-123 | the visibility phase of `flush`: per layer, exactly one visibility call when the map accepts it and none otherwise (`MapHooks.VisibilityBatchFor`, `MapHooks.VisibilityBatchWithout`) |
| MapHooks.OpacityBatch | plugins/rara-maps/app/MapHooks.tsx:126-138 | the opacity phase of `flush`: per layer, exactly one opacity call with the normalised value when the map accepts it and none otherwise (`MapHooks.OpacityBatchFor`, `MapHooks.OpacityBatchWithout`) |
| MapHooks.OpacityBatchFor | plugins/rara-maps/app/MapHooks.tsx:127-139 | with one entry per layer, a flush makes exactly one opacity call for a pending layer the map accepts, carrying its normalised value; it makes none for a layer it does not accept or that is not pending |
| MapHooks.OpacityBatchWithout | plugins/rara-maps/app/MapHooks.tsx:127-139 | a layer with no pending opacity receives no opacity call |
| MapHooks.VisibilityBatchFor | plugins/rara-maps/app/MapHooks.tsx:116-124 | with one entry per layer, a flush makes exactly one visibility call (`visible` or `none`) for a pending layer the map accepts, and none otherwise |
| MapHooks.VisibilityBatchWithout | plugins/rara-maps/app/MapHooks.tsx:116-124 | a layer with no pending visibility receives no visibility call |
| MapHooks.LastOpacityWins | plugins/rara-maps/app/MapHooks.tsx:143-154 | two opacity requests for one layer before a flush apply only the later value, once |
| MapHooks.LastVisibilityWins | plugins/rara-maps/app/MapHooks.tsx:157-168 | two visibility requests for one layer before a flush apply only the truthiness of the later value, once |
| MapHooks.LayerCommandQueue.constructor | plugins/rara-maps/app/MapHooks.tsx:10-12 | both buffers start empty and no timer is armed |
| MapHooks.LayerCommandQueue.Rearm | plugins/rara-maps/app/MapHooks.tsx:150-151 | the previously armed timer is cancelled and exactly one new timer is due |
| MapHooks.LayerCommandQueue.SetLayerOpacity | plugins/rara-maps/app/MapHooks.tsx:143-154 | the layer's pending opacity is overwritten in place; the visibility buffer and the map are untouched; only the new timer is due |
| MapHooks.LayerCommandQueue.SetLayerVisibility | plugins/rara-maps/app/MapHooks.tsx:157-168 | the layer's pending visibility becomes `!!visible`; the opacity buffer and the map are untouched; only the new timer is due |
| MapHooks.LayerCommandQueue.TimerFires | plugins/rara-maps/app/MapHooks.tsx:100-151 | the debounce timer runs a flush; afterwards no timer is due |
| MapHooks.LayerCommandQueue.Flush | plugins/rara-maps/app/MapHooks.tsx:100-140 | without a map nothing changes. With a map: the timer is cleared, both buffers are emptied, and the map receives the visibility batch of the old buffer and then its opacity batch |
| MapHooks.LayerCommandQueue.ApplyVisibility | plugins/rara-maps/app/MapHooks.tsx:116-124 | the phase loop appends exactly the visibility batch of the snapshot |
| MapHooks.LayerCommandQueue.ApplyOpacity | plugins/rara-maps/app/MapHooks.tsx:127-139 | the phase loop appends exactly the opacity batch of the snapshot |
| MapHooks.LayerCommandQueue.Unmount | plugins/rara-maps/app/MapHooks.tsx:171-177 | the armed timer is cancelled and both buffers are discarded without any map call |
| MapHooks.AtMostOneFlushDue | plugins/rara-maps/app/MapHooks.tsx:149-151 | the queue's shared debounce never has more than one flush due |
| ContentPanel.TopFraction | plugins/rara-maps/app/ContentPanel.tsx:136-138 | `getPanelTopFraction`: 0 at the open position, 1 at the closed one, strictly increasing in between (`ContentPanel.TopFractionScale`) |
| ContentPanel.MidTop | plugins/rara-maps/app/ContentPanel.tsx:67 | `midPanelTop`: half the travel measured from 0, so 350 for a panel travelling from 100 to 800 (`ContentPanel.SnapExamples`) |
| ContentPanel.SnapTarget | plugins/rara-maps/app/ContentPanel.tsx:166-168 | the resting point after a drag: open in the first quarter of the travel, closed in the last, `midPanelTop` otherwise (`ContentPanel.SnapByPosition`) |
| ContentPanel.ToggleTarget | plugins/rara-maps/app/ContentPanel.tsx:140-143 | the toggle target: `midPanelTop` from beyond three quarters of the travel, closed from anywhere else (`ContentPanel.ToggleByPosition`) |
| ContentPanel.TopFractionScale | plugins/rara-maps/app/ContentPanel.tsx:136-138 | the fraction is 0 at the open position, 1 at the closed one, and strictly increasing in the offset |
| ContentPanel.SnapByPosition | plugins/rara-maps/app/ContentPanel.tsx:166-168 | a drag ending in the first quarter of the travel opens the panel fully, in the last quarter closes it, and otherwise rests it at `midPanelTop` |
| ContentPanel.SnapExamples | plugins/rara-maps/app/ContentPanel.tsx:166-168 | concrete snaps for travel 100..800: 240 opens to 100, 450 rests at 350, 730 closes to 800 |
| ContentPanel.ToggleByPosition | plugins/rara-maps/app/ContentPanel.tsx:140-143 | toggling a panel more than three quarters closed opens it to `midPanelTop`; any other position closes it |
| ContentPanel.EaseOutQuad | plugins/rara-maps/app/ContentPanel.tsx:174-176 | `easeOutQuad`: fixes 0 and 1, stays in [0, 1], never lags linear progress and never decreases (`ContentPanel.EaseOutQuadShape`) |
| ContentPanel.EaseOutQuadShape | plugins/rara-maps/app/ContentPanel.tsx:174-176 | the easing fixes 0 and 1, maps [0, 1] into [0, 1], never lags linear progress and is monotone |
| ContentPanel.Progress | plugins/rara-maps/app/ContentPanel.tsx:191 | the animation progress, elapsed time over 300 ms capped at 1; it lies in [0, 1] for non-negative elapsed time (`ContentPanel.EasedTopBetween`) |
| ContentPanel.EasedTop | plugins/rara-maps/app/ContentPanel.tsx:192 | the top a frame sets; it lies between start and target, equals the start at time 0 and the target from 300 ms on (`ContentPanel.EasedTopBetween`) |
| ContentPanel.EasedTopBetween | plugins/rara-maps/app/ContentPanel.tsx:189-193 | every frame of a settle lies between its start and its target; the first frame is at the start, and from 300 ms on it is exactly at the target |
| ContentPanel.Changing | plugins/rara-maps/app/ContentPanel.tsx:225 | the value reported as `panelTopChanging`: true exactly while dragging or while a target is set and not yet reached (`ContentPanel.ChangingMeans`) |
| ContentPanel.ChangingMeans | plugins/rara-maps/app/ContentPanel.tsx:225 | the panel counts as changing exactly while dragged or short of a set target |
| ContentPanel.Panel.constructor | plugins/rara-maps/app/ContentPanel.tsx:213-231 | the panel mounts closed and at rest: body height 0, no target, no animation, settings closed |
| ContentPanel.Panel.PanelTopEffect | plugins/rara-maps/app/ContentPanel.tsx:219-231 | the body fills the space below the top and the drag position follows it; the changing flag is recomputed; the settings panel closes when the panel rests open without a target |
| ContentPanel.Panel.Commit | plugins/rara-maps/app/ContentPanel.tsx:183-211 | a changed non-null target starts an animation from the current top. Replacing a non-null target cancels its frame and resets the target to null. The top effect runs only if the top changed |
| ContentPanel.Panel.DragStart | plugins/rara-maps/app/ContentPanel.tsx:149-156 | dragging begins. Once a frame loop has ever run, the animation is cancelled and the top jumps to the rendered position. The target and the settings panel survive; when the top did not move, the drag top and the changing flag are kept too |
| ContentPanel.Panel.DragMove | plugins/rara-maps/app/ContentPanel.tsx:158-160 | the drag position becomes the rendered top and the body follows it |
| ContentPanel.Panel.DragStop | plugins/rara-maps/app/ContentPanel.tsx:162-172 | the top takes the drag position and the snap target for it is requested. From rest this starts an animation there. Over a different target it cancels both. Toward the same target nothing restarts. When the top moved, the drag top and body height follow it, the changing flag is recomputed, and the settings close when the panel is not changing, its target is null or 0, and its top is short of closed |
| ContentPanel.Panel.Toggle | plugins/rara-maps/app/ContentPanel.tsx:140-143 | the toggle target for the rendered top is requested, with the same three outcomes as a drag stop; the top, drag top, dragging and changing flags and the settings panel are left as they were |
| ContentPanel.Panel.SetShowSettings | plugins/rara-maps/app/ContentPanel.tsx:235-239 | opening the settings panel from rest requests the closed position and starts that animation; while the closed position is already the target nothing restarts; while another target is pending both the target and the animation are cancelled (the panel stops); closing or re-opening changes no target. The top, drag top, dragging and changing flags are left as they were |
| ContentPanel.Panel.AnimationFrame | plugins/rara-maps/app/ContentPanel.tsx:189-200 | a frame sets the eased top, always between start and target; at full progress the loop ends and the target resets to null. When the top moved, the drag top and body height follow it, the changing flag is recomputed, and the settings close when the panel is not changing, its target is null or 0, and its top is short of closed |
| ContentPanel.Tabs.Selected | plugins/rara-maps/app/ContentPanel.tsx:99 | `querySelector('#' + tabId)`: the element whose id is the tab id, or none when the page has no such element; `ContentPanel.Tabs.Valid` keeps the shown element equal to it |
| ContentPanel.Tabs.constructor | plugins/rara-maps/app/ContentPanel.tsx:92-112 | on mount the id is null, so `#null` is looked up and the index is the position of "null" among the tabs |
| ContentPanel.Tabs.ShowTab | plugins/rara-maps/app/ContentPanel.tsx:95-108 | the element the id selects becomes the shown one and is un-hidden, the previously shown element is hidden, nothing else is (un)hidden; its non-empty title is taken; without such an element nothing is shown |
| ContentPanel.Tabs.IdEffect | plugins/rara-maps/app/ContentPanel.tsx:92-120 | after the id effect and the index effect it triggers: the element the id selects is shown, the previous one hidden, its title taken; the index is the first tab position of the id (null if it is no tab), and the id selects the same element |
| ContentPanel.Tabs.SetTabId | plugins/rara-maps/app/ContentPanel.tsx:92-112 | a new id selects its tab's index, shows the element with that id (none if the page lacks it), hiding the previous one, and takes that element's title; an unchanged id leaves the id, index, shown element and title as they were |
| ContentPanel.Tabs.SetTabIndex | plugins/rara-maps/app/ContentPanel.tsx:114-120 | setting an index selects that tab's id and shows that tab, hiding the previous one, and takes its title when the id changed. The index settles on the first tab with that id, which is the requested index when ids are distinct (index to id to index round trip) |
| ContentPanel.Tabs.Prev | plugins/rara-maps/app/ContentPanel.tsx:122-124 | the previous button selects the tab before the current one |
| ContentPanel.Tabs.Next | plugins/rara-maps/app/ContentPanel.tsx:126-128 | the next button selects the tab after the current one (tab 1 from a null index) |
| ContentPanel.NavigationInRange | plugins/rara-maps/app/ContentPanel.tsx:265-268 | the previous button shows exactly when a tab precedes the current one; the next button shows only when a tab follows it |
| App.LayerWithId | plugins/rara-maps/app/App.tsx:118 | the layer lookup fails exactly when no layer has the id; otherwise it returns a configured layer with that id |
| App.VisibilityFor | plugins/rara-maps/app/App.tsx:85-90 | the initial visibility dictionary has one entry per key |
| App.VisibilityForLookup | plugins/rara-maps/app/App.tsx:85-90 | an id's initial visibility is that of the last non-point layer with the id |
| App.LastVisibilityExists | plugins/rara-maps/app/App.tsx:85-90 | an id has an initial visibility exactly when some non-point layer carries it |
| App.InitialKeysAreLayers | plugins/rara-maps/app/App.tsx:85-90 | every initial visibility key names a configured layer |
| App.InitialVisibility | plugins/rara-maps/app/App.tsx:85-91 | the `forEach` builds exactly the initial visibility dictionary |
| App.InitialOpacity | plugins/rara-maps/app/App.tsx:94-98 | the opacity becomes 1.0 exactly when some layer is an overlay, and is otherwise left as it was |
| App.ActiveOverlay | plugins/rara-maps/app/App.tsx:113-122 | `setActiveOverlayFromId`: the same keys in the same order, at most one overlay visible (the one the tab names), other layers unchanged (`App.ActiveOverlayExclusive`) |
| App.ActiveOverlayExclusive | plugins/rara-maps/app/App.tsx:114-123 | the overlay rule keeps the keys and their order. An overlay is visible exactly when it is the current tab, so at most one overlay is visible. Other layers keep their visibility |
| App.ScanResult | plugins/rara-maps/app/App.tsx:125-133 | the location the scan settles on: the match in the last collection that has one, or the current location when none does (`App.LastMatchWins`, `App.NoMatchKeeps`) |
| App.ActiveLocationFromId | plugins/rara-maps/app/App.tsx:125-133 | the loop over collections leaves the match from the last collection that has one, else the current location |
| App.LastMatchWins | plugins/rara-maps/app/App.tsx:125-133 | the last collection with a match decides the active location |
| App.NoMatchKeeps | plugins/rara-maps/app/App.tsx:125-133 | without any match the active location is unchanged |
| App.Changes | plugins/rara-maps/app/App.tsx:136-147 | the entries forwarded to the map: exactly those whose value differs from the previous snapshot or that it lacks (`App.ChangesMembers`) |
| App.ChangesMembers | plugins/rara-maps/app/App.tsx:136-147 | an entry is forwarded to the map exactly when it is in the dictionary and the snapshot holds another value, or none, for its key |
| App.SnapshotForwardsNothing | plugins/rara-maps/app/App.tsx:136-147 | re-running the effect on an unchanged dictionary forwards nothing |
| App.ChangesFromNothing | plugins/rara-maps/app/App.tsx:136-147 | against the empty first snapshot every entry is forwarded |
| App.ToggleForwardsOnlyThatLayer | plugins/rara-maps/app/App.tsx:244-249 | after a settings toggle, the only forwarded entry is the toggled layer, and only when its value changed |
| App.ForwardChanges | plugins/rara-maps/app/App.tsx:139-144 | the diff loop forwards exactly the changed entries, in key order |
| App.OverlayKeysMembers | plugins/rara-maps/app/App.tsx:150-157 | an id receives the overlay opacity exactly when it is a visibility key and its layer is an overlay |
| App.OverlayIds | plugins/rara-maps/app/App.tsx:151-156 | the opacity loop selects exactly the overlay keys, in key order |
| App.TypeTitle | plugins/rara-maps/app/App.tsx:195-207 | the title a layer's type supplies: `Buildings`, or the title of the line, location collection or overlay with the layer's id (`App.LabelFallback`) |
| App.Label | plugins/rara-maps/app/App.tsx:195-207 | `title ?? <type title> ?? id`: an own title wins even when empty, else the type title, else the id (`App.LabelFallback`) |
| App.LabelFallback | plugins/rara-maps/app/App.tsx:196-208 | an own title wins even when empty. Without one, a buildings layer is labelled "Buildings", an overlay takes its feature's title, and any other layer without a type title takes its id |
| App.LayerConfigOf | plugins/rara-maps/app/App.tsx:194-217 | the layer configuration has one entry per id |
| App.LayerConfigLookup | plugins/rara-maps/app/App.tsx:194-217 | every layer id has an entry holding the colour and label of the last layer with that id; other ids have none |
| App.RouteGeometry | plugins/rara-maps/app/App.tsx:104-109 | the route coordinates: the geometry of the line the non-empty route id names, or null; `App.AppState.constructor` ensures the state starts with it |
| App.TitleFor | plugins/rara-maps/app/App.tsx:185-190 | the content title under location binding: the location's title, or the empty string for no location or an untitled one; `App.AppState.SetActiveLocation` ensures the title follows it |
| App.AppState.constructor | plugins/rara-maps/app/App.tsx:81-111 | on loading the configuration: the initial visibility and opacity are set, and tab index 0 for overlay binding or a route. The route geometry is set. Every visibility entry is sent to the map, then the opacity to every overlay |
| App.AppState.VisibilityEffect | plugins/rara-maps/app/App.tsx:136-147 | the map receives exactly the changes since the snapshot, which then becomes the current dictionary |
| App.AppState.OpacityEffect | plugins/rara-maps/app/App.tsx:150-157 | the opacity is sent to every overlay key, in key order |
| App.AppState.SetLayerVisibility | plugins/rara-maps/app/App.tsx:244-249 | the settings toggle overwrites one entry and forwards only what changed |
| App.AppState.SetOverlayOpacity | plugins/rara-maps/app/App.tsx:150-157 | a changed opacity is sent to every overlay; an unchanged one sends nothing |
| App.AppState.ActiveLocationEffect | plugins/rara-maps/app/App.tsx:184-190 | under location binding the content title follows the active location's title, or "" |
| App.AppState.SetActiveLocation | plugins/rara-maps/app/App.tsx:184-190 | a changed location updates the title under location binding; an unchanged one does not |
| App.AppState.SetContentTabId | plugins/rara-maps/app/App.tsx:160-172 | a new truthy tab id selects the matching location and sets the content title to its title (location binding) or makes that overlay the only visible one and forwards the changes (overlay binding); otherwise nothing else changes. Opacity, tab index and route are never touched |
| App.AppState.OnLocationClick | plugins/rara-maps/app/App.tsx:175-181 | under location binding a click selects that tab, leaving layers and requests alone and the location unchanged when the id is empty or already the tab; otherwise it selects the location directly, sets the content title, and leaves tabs and layers alone. Opacity, tab index and route are never touched |
| FlyTangent.Direction | plugins/rara-maps/lib/fly_tangent.ts:128-130 | the flight direction: backwards exactly when a stop is set before the start (`FlyTangent.FlightEndsAtStop`, `FlyTangent.StopAtRouteStart`) |
| FlyTangent.CurrentDistance | plugins/rara-maps/lib/fly_tangent.ts:143-149 | the distance reached after an elapsed time: with a stop, start plus travel in the flight direction; without one, wrapped onto [0, length) (`FlyTangent.FlightEndsAtStop`, `FlyTangent.LoopStaysOnRoute`) |
| FlyTangent.PastStop | plugins/rara-maps/lib/fly_tangent.ts:187-191 | the end test: a stop is set and the distance has reached it in the flight direction; it holds exactly once the travel covers the gap (`FlyTangent.FlightEndsAtStop`) |
| FlyTangent.DirectionAsWritten | plugins/rara-maps/lib/fly_tangent.ts:128 | the direction as written, testing the stop for truthiness: a stop at 0 flies forward (`FlyTangent.StopAtRouteStart`) |
| FlyTangent.CurrentDistanceAsWritten | plugins/rara-maps/lib/fly_tangent.ts:143-149 | the distance as written, wrapping when the stop is 0 (`FlyTangent.StopAtRouteStart`) |
| FlyTangent.JsRemRange | plugins/rara-maps/lib/fly_tangent.ts:146-149 | the remainder of a non-negative distance by the route length lies in [0, length), and a distance already on the route is kept |
| FlyTangent.FlightEndsAtStop | plugins/rara-maps/lib/fly_tangent.ts:186-195 | a flight with a stop ends exactly when the distance travelled covers the gap between start and stop, in either direction |
| FlyTangent.LoopStaysOnRoute | plugins/rara-maps/lib/fly_tangent.ts:144-149 | a flight without a stop stays within [0, route length) and never ends |
| FlyTangent.StopAtRouteStart | plugins/rara-maps/lib/fly_tangent.ts:128-149 | as written, a stop at distance 0 flies forward and ends at the first frame, 5 km short; with the null test it flies back and ends after 50 s |
| FlyTangent.CameraPull | plugins/rara-maps/lib/fly_tangent.ts:161-168 | the camera move: none within the camera distance, else straight toward the target by the excess, leaving it exactly that distance away (`FlyTangent.PullKeepsDistance`) |
| FlyTangent.PullKeepsDistance | plugins/rara-maps/lib/fly_tangent.ts:161-168 | after a step the camera is never farther from the target than the camera distance; a camera that was pulled ends exactly at that distance |
| FlyTangent.DefaultDistanceNeverPulls | plugins/rara-maps/lib/fly_tangent.ts:161-168 | as written, the camera distance with the default 500 is 500 itself, which exceeds any gap between Mercator positions near the world, so the camera pull leaves the camera where it is |
| FlyTangent.CameraDistanceAsWritten | plugins/rara-maps/lib/fly_tangent.ts:86 | the camera distance as written, the configured metres taken as Mercator units; with the default 500 it never pulls the camera (`FlyTangent.DefaultDistanceNeverPulls`) |
| FlyTangent.CameraDistance | plugins/rara-maps/lib/fly_tangent.ts:86 | the camera distance converted to Mercator units, or the initial offset's length when none is configured; beyond it the camera trails at exactly that distance (`FlyTangent.ConvertedDistanceTrails`) |
| FlyTangent.ConvertedDistanceTrails | plugins/rara-maps/lib/fly_tangent.ts:86 | with the distance converted from metres, a target farther away pulls the camera, which then trails at exactly that distance |
| FlyTangent.BehindStart | plugins/rara-maps/lib/fly_tangent.ts:82-87 | the camera start: the point a quarter along the route mirrored through the route's first point, in Mercator units; `FlyTangent.Route.constructor` ensures the camera starts there and the map jumps to it |
| FlyTangent.Route.constructor | plugins/rara-maps/lib/fly_tangent.ts:70-96 | the camera is placed at `FlyTangent.BehindStart`, behind the start opposite the point a quarter along the route. The camera distance is the configured one or the initial offset's length. The map jumps there |
| FlyTangent.Route.Advance | plugins/rara-maps/lib/fly_tangent.ts:137-200 | once the stop is reached nothing happens. Otherwise the camera is pulled toward the route point for the elapsed time; the marker, camera and offset actions are emitted; either the stop is reached or one more frame is requested |
| FlyTangent.Route.Frame | plugins/rara-maps/lib/fly_tangent.ts:197-199 | a frame consumes its request and advances: the camera is pulled toward the route point for the elapsed time and the step's marker, camera and offset actions are emitted; the loop continues exactly until the stop is passed |
| FlyTangent.Route.Start | plugins/rara-maps/lib/fly_tangent.ts:104-135 | start and stop are snapped onto the route; the direction is backward exactly when the stop lies before the start; the first step is taken at time 0 |
| FlyTangent.Route.Fly | plugins/rara-maps/lib/fly_tangent.ts:205-217 | the endpoints and offset are recorded, the reached flag is cleared, and the flight restarts from the snapped start: its first step pulls the camera and emits that step's actions |
| ZOrder.NatToStringInjective | plugins/rara-maps/lib/zorder.ts:32 | distinct positions print differently |
| ZOrder.PlaceholderIdInjective | plugins/rara-maps/lib/zorder.ts:32 | distinct positions have distinct placeholder ids `z-<i>` |
| ZOrder.LayerStack.AddLayer | plugins/rara-maps/lib/zorder.ts:30-37 | a layer goes on top without a `beforeId` and just below it otherwise; a duplicate id or missing `beforeId` changes nothing |
| ZOrder.ReservedOnTop | plugins/rara-maps/lib/zorder.ts:29-38 | on a stack without placeholder ids, the loop stacks `z-0` lowest to `z-(n-1)` highest on top of the existing layers |
| ZOrder.ReservedCovers | plugins/rara-maps/lib/zorder.ts:29-38 | on any stack, every placeholder `z-0` .. `z-(n-1)` is present afterwards and no existing layer is lost |
| ZOrder.AddedLayerKeeps | plugins/rara-maps/lib/zorder.ts:30-37 | `addLayer` removes no layer, and its id is present afterwards unless its `beforeId` is missing |
| ZOrder.ClashingPlaceholderStays | plugins/rara-maps/lib/zorder.ts:29-38 | over `["z-0", "water"]` with two ordered layers only `z-1` is added, on top; the existing `z-0` stays below `water` |
| ZOrder.ZOrder.constructor | plugins/rara-maps/lib/zorder.ts:17-18 | the declared order is kept |
| ZOrder.ZOrder.OnLoad | plugins/rara-maps/lib/zorder.ts:22-39 | the `empty` source is added, and the layers end as the loop of refused-or-inserted `addLayer` calls (`Reserved`) leaves them on any stack; on a stack without placeholder ids the placeholders end up stacked `z-0` lowest to `z-(n-1)` highest above the existing layers |
| ZOrder.ZOrder.GetPosition | plugins/rara-maps/lib/zorder.ts:47-53 | an id outside the order is refused with an error naming it; otherwise the result is the placeholder of its first position |
| ZOrder.StackFollowsOrder | plugins/rara-maps/lib/zorder.ts:29-52 | the placeholder named for an earlier layer of the order sits below that of every later one |
| Url.AbsUrl | plugins/rara-maps/lib/url.ts:5-10 | `absUrl`: a URL beginning with the placeholder gets the base URL in its place, any other is returned unchanged (`Url.ExpandsLeadingPlaceholder`, `Url.KeepsOtherUrls`, `Url.IdempotentExactly`) |
| Url.ExpandsLeadingPlaceholder | plugins/rara-maps/lib/url.ts:5-8 | a leading placeholder is replaced by the base URL and the rest is kept verbatim |
| Url.KeepsOtherUrls | plugins/rara-maps/lib/url.ts:9 | a URL that does not begin with the placeholder is returned unchanged |
| Url.IdempotentWithoutPrefix | plugins/rara-maps/lib/url.ts:5-10 | with a base URL that is the placeholder, or that neither begins with the placeholder nor is a prefix of it, expanding twice equals expanding once |
| Url.IdempotentExactly | plugins/rara-maps/lib/url.ts:5-10 | expansion is idempotent for every URL if and only if the base URL is the placeholder or neither of the two begins with the other; otherwise a URL exists that expands differently a second time |
| Url.ShortBaseBreaksIdempotence | plugins/rara-maps/lib/url.ts:5-10 | with base URL "%", expanding `%{RARA_MAPS}{RARA_MAPS}` twice differs from expanding it once |
| Popup.PopupContainer.constructor | plugins/rara-maps/lib/popup.ts:18-25 | a container starts without a popup and with both flags clear |
| Popup.PopupContainer.ShowVisibility | plugins/rara-maps/lib/popup.ts:64-74 | an existing popup's element becomes visible exactly when either flag is set; without a popup nothing happens |
| Popup.PopupContainer.SetVisibleDynamic | plugins/rara-maps/lib/popup.ts:31-35 | the hover flag is set and the static flag kept; visibility is the disjunction; the popup's place and text are kept |
| Popup.PopupContainer.SetVisibleStatic | plugins/rara-maps/lib/popup.ts:41-45 | the selection flag is set and the hover flag kept; visibility is the disjunction; the popup's place and text are kept |
| Popup.PopupContainer.SetData | plugins/rara-maps/lib/popup.ts:47-62 | a point gets a new popup at its position with its title, visible as the flags say; the previous popup stays on the map; other geometries change nothing |
| Popup.PopupManager.constructor | plugins/rara-maps/lib/popup.ts:94-98 | a new manager has no containers and is registered for its map |
| Popup.PopupManager.GetPopup | plugins/rara-maps/lib/popup.ts:104-116 | the container filed under the key is returned, or else a fresh one with both flags clear is filed there; no other key changes |
| Popup.PopupContainer.Load | plugins/rara-maps/lib/locations.ts:39-43 | `setData` and, with static popups, `visibleStatic = true` leave the container in exactly the state `AfterLoad` gives: a point's popup at its position with its title, visible as the flags say; otherwise the popup keeps its place and text; the hover flag is kept |
| Popup.PopupManager.LoadPopup | plugins/rara-maps/lib/locations.ts:39-43 | the container under the key is found or created (never replaced), and the manager's containers change exactly at that key, to the `AfterLoad` state |
| Popup.PopupManager.SetDynamic | plugins/rara-maps/lib/locations.ts:99 | the hover flag of the key's container (created if needed) is set; every other container is kept as it was and every static flag is kept |
| Popup.PopupManager.SetStatic | plugins/rara-maps/app/MapView.tsx:164-167 | the selection flag of the key's container (created if needed) is set; every other container is kept as it was and every hover flag is kept |
| Popup.PopupManager.Release | plugins/rara-maps/app/MapView.tsx:157-160 | the selection flag of one of the manager's containers is cleared; no other container changes and every hover flag is kept |
| Popup.PopupManager.Hand | plugins/rara-maps/app/MapView.tsx:157-168 | the held container loses its selection unless it is selected again, and the container under the id, if one is given, gains it; only those two keys change, new containers appear only under the id, and every hover flag is kept |
| Popup.Registry.constructor | plugins/rara-maps/lib/popup.ts:77 | the registry starts empty |
| Popup.RegisteredManagerIsFound | plugins/rara-maps/lib/popup.ts:79-85 | after a manager is created, its map finds it and other maps find what they found before |
| Popup.GetPopupTwice | plugins/rara-maps/lib/popup.ts:104-109 | asking twice for one key yields the same container, and the second request changes nothing |
| Locations.FeatureKey | plugins/rara-maps/lib/locations.ts:37 | a feature's key is truthy exactly when its id is a non-empty string, and is then that id |
| Locations.WrapLongitude | plugins/rara-maps/lib/locations.ts:89-91 | the longitude moves by whole turns to within 180 degrees of the pointer; one already within 180 degrees is unchanged |
| Locations.LocationsLayer.constructor | plugins/rara-maps/lib/locations.ts:14-29 | the layer starts with no current feature and no callbacks made |
| Locations.LocationsLayer.LoadFeature | plugins/rara-maps/lib/locations.ts:37-44 | the manager's containers change only under the feature's key, to the `AfterLoad` state: a point feature's popup sits at its position with its title, visible as the flags say; another geometry keeps the popup's presence, place and text; the hover flag is kept and the selection flag set when popups are static; the container is created if missing and otherwise kept |
| Locations.LocationsLayer.Load | plugins/rara-maps/lib/locations.ts:36-45 | the containers end exactly as `LoadView` of the features leaves them; existing containers are kept as objects and new ones are fresh |
| Locations.LastPoint | plugins/rara-maps/lib/locations.ts:36-45 | the feature found is a point feature filed under the key with no later one after it; none is found exactly when there is no such feature |
| Locations.LoadViewKeys | plugins/rara-maps/lib/locations.ts:36-45 | a load adds containers exactly under the truthy keys of the features |
| Locations.LoadViewElsewhere | plugins/rara-maps/lib/locations.ts:36-45 | a container under a key no feature carries is left as it was |
| Locations.LoadViewFlags | plugins/rara-maps/lib/locations.ts:36-45 | no hover flag changes; a selection flag is set exactly for the loaded keys when popups are static, and no other changes |
| Locations.LoadViewLastPoint | plugins/rara-maps/lib/locations.ts:36-45 | for a repeated key the last point feature decides the popup: its position and title, visible as the flags say |
| Locations.LoadViewNoPoint | plugins/rara-maps/lib/locations.ts:36-45 | a key without any point feature keeps its popup's presence, place and text |
| Locations.LocationsLayer.ClearHover | plugins/rara-maps/lib/locations.ts:93-95 | a truthy current id loses its hover; nothing else changes |
| Locations.LocationsLayer.TakeHover | plugins/rara-maps/lib/locations.ts:97-104 | the feature becomes current; with a truthy id it gains the hover and `onEnter` hears of it |
| Locations.LocationsLayer.PassHover | plugins/rara-maps/lib/locations.ts:93-104 | the hover passes from the previous truthy id to the new one; only those two containers can change |
| Locations.LocationsLayer.MouseMove | plugins/rara-maps/lib/locations.ts:72-107 | on a point at new coordinates the pointer cursor is set and the hover passes to that feature; any other move changes nothing |
| Locations.LocationsLayer.MouseLeave | plugins/rara-maps/lib/locations.ts:109-120 | the current id's container (even under "undefined") loses its hover, the hover state is forgotten, and `onLeave` hears the id that was current |
| Locations.LocationsLayer.Click | plugins/rara-maps/lib/locations.ts:123-131 | a click reports exactly what `ClickReport` gives |
| Locations.ClickReport | plugins/rara-maps/lib/locations.ts:126-129 | a click reports at most one id, and reports one exactly when there is an `onClick` and the id is non-empty |
| Locations.HoverThenLeave | plugins/rara-maps/lib/locations.ts:72-120 | hovering onto a point and leaving leaves neither it nor the previous feature showing a hover |
| Attribution.Join | plugins/rara-maps/lib/attribution.ts:19 | `Array.prototype.join`: each item occurs in the result, separated by the separator (`Attribution.JoinMentionsEach`, `Attribution.CustomAttributionGrows`) |
| Attribution.CustomAttribution | plugins/rara-maps/lib/attribution.ts:19 | the control text begins with a line break |
| Attribution.CustomAttributionGrows | plugins/rara-maps/lib/attribution.ts:9-19 | a new attribution extends the text by one line |
| Attribution.JoinMentionsEach | plugins/rara-maps/lib/attribution.ts:19 | every item of the list occurs in the joined text |
| Attribution.Without | plugins/rara-maps/lib/attribution.ts:14 | removing the control leaves every other control and no copy of it |
| Attribution.Attributions.constructor | plugins/rara-maps/lib/attribution.ts:3-4 | the list is empty and there is no control |
| Attribution.Attributions.Add | plugins/rara-maps/lib/attribution.ts:8-22 | a new attribution is appended once; the old control is replaced by a fresh one, the only one on the map, whose text lists them all |
| Attribution.ControlListsAll | plugins/rara-maps/lib/attribution.ts:17-20 | every attribution added so far appears in the installed control's text |
| MapView.OffsetCoordinates | plugins/rara-maps/app/MapView.tsx:114-126 | the result projects to the same screen x and to a y shifted by the offset |
| MapView.OffsetZero | plugins/rara-maps/app/MapView.tsx:114-126 | a zero offset gives back the position |
| MapView.OffsetsAdd | plugins/rara-maps/app/MapView.tsx:114-126 | two offsets in one view add up |
| MapView.Recentres | plugins/rara-maps/app/MapView.tsx:130 | the recentre condition: a non-zero old padding, padding at rest, a map, and no move in progress; `MapView.MapComponent.PaddingEffect` eases by the padding difference exactly when it holds |
| MapView.RecentresAddUp | plugins/rara-maps/app/MapView.tsx:129-142 | two successive recentres land where one from the first to the last padding would |
| MapView.Flight | plugins/rara-maps/app/MapView.tsx:170-185 | only a point is flown to. With a route and a previous location the flight follows the route with half the padding as offset. Otherwise it flies straight to the point shifted down by half the padding on screen |
| MapView.MapComponent.constructor | plugins/rara-maps/app/MapView.tsx:62-67 | there is no map, padding, location, popup or route yet |
| MapView.MapComponent.Mount | plugins/rara-maps/app/MapView.tsx:70-80 | the map is created with a registered popup manager and the starting padding is recorded |
| MapView.MapComponent.ControlEffect | plugins/rara-maps/app/MapView.tsx:93-106 | each present corner takes the padding of its side; absent corners keep what they had |
| MapView.MapComponent.PaddingEffect | plugins/rara-maps/app/MapView.tsx:129-142 | when the guard holds, the map eases for 1000 ms to the centre shifted by half the padding change, and the padding is recorded; otherwise nothing happens |
| MapView.MapComponent.HandOver | plugins/rara-maps/app/MapView.tsx:157-168 | the selection passes from the popup held to the new location's popup, which becomes the one held (none without a location); only those two containers change and hover flags are kept |
| MapView.MapComponent.RouteEffect | plugins/rara-maps/app/MapView.tsx:145-149 | with route coordinates and a map, a fresh route replaces the old one, with the default altitude, its camera placed behind the route's start and a jump there as its only map call; otherwise the route is left as it was |
| MapView.MapComponent.ActiveLocationEffect | plugins/rara-maps/app/MapView.tsx:152-190 | with a map: the previously selected popup is released; a new location's popup (under its id, or "null") is held selected; no other popup changes and hover flags are kept; a point is flown to as `Flight` says; the location is remembered. Without a map nothing changes |

## Left out

- I/O and timing:
  - Fetching the configuration, DOM manipulation, styles, the cursor style and console logging are outside the model.
  - Clock readings, animation frames and timers are explicit parameters and steps.
  - The map's readiness, style and projection, and the geometry library, are parameters.
- Floating point: numbers are exact reals. NaN appears only where the source tests for it (opacity). The remainder and truncation of the route distance are written out explicitly.
- MapHooks.LayerCommandQueue.Flush: the calls within each phase are appended in entry order. In the source each phase runs its layers concurrently, so their calls land in readiness order. Only the order between the two phases is modelled.
- MapHooks.LayerWait: how a wait's outcome feeds a layer command is abstracted. It becomes the set of layers that turn ready in time (`MapEnv.readyInTime`).
- The composition of App, ContentPanel and MapView through props is modelled per component. Examples are `paddingBottom = viewportHeight - dragTop` and the changing flag passed as `paddingChanging`. The DOM-reorganisation and `onLoad` effect of ContentPanel is not part of this model.
- ContentPanel.Panel: a panel whose open and closed positions coincide, where the source divides by zero, is excluded by `minTop < maxTop`.
- ContentPanel.Tabs: the element lookup `#<tabId>` is modelled as membership in the page's id set. The CSS selector syntax of odd ids is not modelled.
- ContentPanel.Tabs.SetTabIndex: requires an index that names a tab. For any other non-null index (index 0 on a page without tab elements, which App.tsx:102,109 can set) the source throws at ContentPanel.tsx:118; the model does not represent that crash.
- Locations.LocationsLayer.MouseMove:
  - Coordinates are compared as values rather than as their string form.
  - The wrapped longitude is computed but unused, as in the source.
- Locations.HoverThenLeave covers one move followed by one leave, not arbitrary event sequences.
- Popup.PopupManager.GetPopup: keys inherited from `Object.prototype` ("toString" and the like), which `in` finds on a fresh object, are not modelled.
- Popup.Registry: the weak map from map objects becomes a map from map identifiers. Garbage collection is not modelled.
- Attribution.Attributions.Add assumes a map is given. The source would throw on `map.addControl` without one. It also assumes one map: the list and control are module-wide, and the removal only ever happens on the map passed in. The collapse of the control's DOM element is not modelled.
- MapView: the fly-radius effect (MapView.tsx:193-198) drives a controller that is not part of this model. The fly-tangent auto effect (MapView.tsx:201-206) amounts to `FlyTangent.Route.constructor` followed by `FlyTangent.Route.Start`. Neither is a separate member. The unmount cleanup that removes the map is not modelled.
- MapView.MapComponent.ActiveLocationEffect records a flight along the route as a `FlyRoute` request to the component's route; it does not run `FlyTangent.Route.Fly` on that route object, so the route's own state is not advanced there (`FlyTangent.Route.Fly` models that call on its own).
- MapView.MapComponent.RouteEffect: the route coordinates are given as their geometry (`FlyTangent.Geo`) of positive length; a route of one point, where the geometry library would fail, is not modelled.
- FlyTangent.Route.Advance emits `ShiftCenter(yOffset)` for the centre correction rather than projecting the map's centre.
- FlyTangent.Route uses the corrected stop test and the converted camera distance listed under Findings. The as-written forms are modelled beside them.
- Object key order for integer-like keys (JavaScript lists those first) is not modelled. Keys keep insertion order.

## Findings

| source | as written | input that shows it | evidently intended | confidence | as-written member | corrected member |
|---|---|---|---|---|---|---|
| plugins/rara-maps/lib/fly_tangent.ts:128 | the direction test `this.#stopDistance && …` and the wrap test `!this.#stopDistance` (line 146) treat a stop at distance 0 as no stop, while the reached test (line 188) treats it as a stop | route of 10 km, start snapped to 5 km, stop snapped to the route's first point (0 km): the flight goes forward and is over at the first frame, 5 km from the stop | test `this.#stopDistance !== null`, so the flight goes backward and ends after covering 5 km | high, not executed | FlyTangent.StopAtRouteStart | FlyTangent.FlightEndsAtStop |
| plugins/rara-maps/lib/fly_tangent.ts:86 | the camera distance (default 500, line 54) is used unconverted and compared at line 163 with gaps in Mercator units, where the world is one unit wide | any route with the default options: the gap is at most a few units, never above 500, so the camera is never pulled and stays where it started | convert the distance to Mercator units (`meterInMercatorCoordinateUnits`) so the camera trails the target | medium, not executed | FlyTangent.DefaultDistanceNeverPulls | FlyTangent.ConvertedDistanceTrails |
