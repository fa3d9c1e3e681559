# VerticalDragListView — a Dafny model of the drag-to-reveal container

`VerticalDragListView` is an Android `FrameLayout` with exactly two children. The menu
(child 0) sits behind. The list (child 1) sits in front and can be dragged down to
reveal the menu. The container decides, on every touch event, whether it steals the
gesture from the list. It lets a drag helper move the list within the menu's height.
On release it snaps the list either fully open or fully closed.

This project models that decision logic as pure functions over an immutable state
record `State(menuOpen, downY, menuHeight, top)`:

- `gesture.dfy` (`Gesture`): touch events, an action and a vertical coordinate.
- `drag_callback.dfy` (`DragCallback`): the drag-helper callbacks. These are the capture
  rule, the vertical clamp and the release rule, with Java's truncating `menuHeight / 2`.
- `vertical_drag_list.dfy` (`VerticalDragList`): the container state, the child-count
  check at inflation, `onInterceptTouchEvent` and `onTouchEvent`.
- `touch_trace.dfy` (`TouchTrace`): a run of the container over a sequence of framework
  calls (`Run`, and the loop `Replay`). It holds lemmas about whole runs and four
  end-to-end scenarios.

The drag helper (`ViewDragHelper`) is library code. Its reaction to an event the container
handles is an input, `HelperCallback`: no callback, a proposed top for the captured list,
or a release with velocities. The list's ability to scroll further up (`canChildScrollUp`)
is a boolean input to each intercept query. The framework's default intercept answer
(`super.onInterceptTouchEvent`) is `false`.

Coordinates are whole pixels (`int`). The source keeps `downY` as a `float`, but it only
takes part in the sign test `moveY - downY > 0`. On finite floats that test agrees with
`moveY > downY`. Velocities are `real` and are never read.

With `menuHeight == 0` both settle targets are 0, so the menu is closed although its
target equals the menu height. "Open iff the target is the menu height" therefore holds
for `menuHeight > 0`, and the contracts say so.

The menu state is set on release when the settle is started (lines 140-141 and
144-145), not when the settle animation completes. The model follows the code.

## Model

| member | source | states |
|---|---|---|
| `DragCallback.HalfTowardZero` | app/src/main/java/com/yezh/mydraglistdemo/View/VerticalDragListView.java:138 | Java's `menuHeight / 2` truncates toward zero: for non-negative heights `2r <= h <= 2r+1`, for negative ones `2r-1 <= h <= 2r` |
| `DragCallback.Clamp` | app/src/main/java/com/yezh/mydraglistdemo/View/VerticalDragListView.java:120-132 | for `menuHeight >= 0` the result lies in `[0, menuHeight]`, equals the input exactly when the input is already in range, and is the nearest legal offset to the proposal; a negative height is returned as is |
| `DragCallback.ClampIdempotent` | app/src/main/java/com/yezh/mydraglistdemo/View/VerticalDragListView.java:121-132 | clamping twice is clamping once |
| `DragCallback.ClampMonotone` | app/src/main/java/com/yezh/mydraglistdemo/View/VerticalDragListView.java:121-132 | a larger proposal never clamps to a smaller offset |
| `DragCallback.TryCapture` | app/src/main/java/com/yezh/mydraglistdemo/View/VerticalDragListView.java:114-118 | the capture rule: a child is capturable exactly when it is the child recorded as the list; its promise about the real children is stated by `VerticalDragList.CaptureOnlyContent` |
| `DragCallback.Release` | app/src/main/java/com/yezh/mydraglistdemo/View/VerticalDragListView.java:134-149 | the target is 0 or the menu height; open goes with the menu height and closed with 0; for a non-negative height the menu opens exactly when the list is strictly past the midpoint (`2*top > menuHeight`); for a positive height, open iff target is the menu height |
| `DragCallback.ReleaseIgnoresVelocity` | app/src/main/java/com/yezh/mydraglistdemo/View/VerticalDragListView.java:135-146 | the x and y release velocities have no effect on the outcome |
| `DragCallback.ReleaseMidpointBoundary` | app/src/main/java/com/yezh/mydraglistdemo/View/VerticalDragListView.java:138-146 | with height 300, top 150 closes and top 151 opens; with height 301 (half 150 by integer division), 150 closes and 151 opens |
| `DragCallback.ReleaseTargetIsClampFixpoint` | app/src/main/java/com/yezh/mydraglistdemo/View/VerticalDragListView.java:138-146 | every settle target is a legal offset: the clamp leaves it unchanged |
| `DragCallback.ReleaseSettledIsStable` | app/src/main/java/com/yezh/mydraglistdemo/View/VerticalDragListView.java:138-146 | releasing again at the settled offset gives the same target and menu state |
| `VerticalDragList.Inflate` | app/src/main/java/com/yezh/mydraglistdemo/View/VerticalDragListView.java:52-69 | inflation fails, reporting the count, exactly when the child count is not 2; on success the list is child 1, the menu height is child 0's height, the menu is closed and the list is at offset 0 |
| `VerticalDragList.CaptureOnlyContent` | app/src/main/java/com/yezh/mydraglistdemo/View/VerticalDragListView.java:113-118 | after inflation a child can be captured exactly when it is child 1; the menu child never can |
| `VerticalDragList.Intercept` | app/src/main/java/com/yezh/mydraglistdemo/View/VerticalDragListView.java:73-102 | the container intercepts exactly when the menu is open, or the event is a downward move (`y - downY > 0`) and the list cannot scroll up; only `downY` may change, and only on a down while closed, where it becomes the event's y |
| `VerticalDragList.OpenMenuInterceptsEverything` | app/src/main/java/com/yezh/mydraglistdemo/View/VerticalDragListView.java:76-78 | an open menu intercepts every action, coordinate and scroll position, and changes nothing |
| `VerticalDragList.ScrollableListKeepsGesture` | app/src/main/java/com/yezh/mydraglistdemo/View/VerticalDragListView.java:89-95 | with the menu closed, a list that can scroll up is never intercepted |
| `VerticalDragList.OnTouchEvent` | app/src/main/java/com/yezh/mydraglistdemo/View/VerticalDragListView.java:104-149 | every event is consumed; only a release changes the menu state; a drag moves the list to the clamped proposal and changes nothing else, so to the proposal exactly when it is in range; a release applies the release rule's target and menu state and changes nothing else; the list stays inside `[0, menuHeight]`; a release opens iff the list was past the midpoint and leaves the list at the menu height if open, else at 0 |
| `TouchTrace.Run` | app/src/main/java/com/yezh/mydraglistdemo/View/VerticalDragListView.java:73-109 | a run answers each call exactly once, and never changes the menu height |
| `TouchTrace.RunPreservesValid` | app/src/main/java/com/yezh/mydraglistdemo/View/VerticalDragListView.java:120-146 | a run that starts with the list inside `[0, menuHeight]` ends with it there |
| `TouchTrace.MenuStateChangesOnlyOnRelease` | app/src/main/java/com/yezh/mydraglistdemo/View/VerticalDragListView.java:138-146 | in a run without a release the menu state ends as it began |
| `TouchTrace.TouchEventsAlwaysConsumed` | app/src/main/java/com/yezh/mydraglistdemo/View/VerticalDragListView.java:105-109 | every touch-handler call of a run answers `true` |
| `TouchTrace.OpenMenuOwnsEveryEvent` | app/src/main/java/com/yezh/mydraglistdemo/View/VerticalDragListView.java:74-78 | from an open menu, every call of a run without a release answers `true` |
| `TouchTrace.ScrollableListNeverLosesGesture` | app/src/main/java/com/yezh/mydraglistdemo/View/VerticalDragListView.java:89-95 | from a closed menu, with the list always able to scroll up and no release, no intercept query of the run answers `true` |
| `TouchTrace.Replay` | app/src/main/java/com/yezh/mydraglistdemo/View/VerticalDragListView.java:73-109 | dispatching the calls one at a time yields exactly the run's final state and replies, and keeps the list inside its band |
| `TouchTrace.ScenarioReleaseAtMidpointCloses` | app/src/main/java/com/yezh/mydraglistdemo/View/VerticalDragListView.java:89-146 | height 300: down at 100, move to 250 intercepted, drag to 150, release settles closed at 0 |
| `TouchTrace.ScenarioReleasePastMidpointOpens` | app/src/main/java/com/yezh/mydraglistdemo/View/VerticalDragListView.java:89-146 | height 300: move to 400 intercepted, proposal 450 clamped to 300, release opens the menu at 300 |
| `TouchTrace.ScenarioOpenMenuInterceptsScrollableList` | app/src/main/java/com/yezh/mydraglistdemo/View/VerticalDragListView.java:76-78 | an open menu intercepts a down and a move even when the list can scroll up |
| `TouchTrace.ScenarioScrollableListKeepsDrag` | app/src/main/java/com/yezh/mydraglistdemo/View/VerticalDragListView.java:83-95 | closed menu, scrollable list: a 150-pixel downward drag is not intercepted and the offset stays 0 |

## Left out

- Settle animation (`settleCapturedViewAt`, `continueSettling`, `computeScroll`, `invalidate`): it is the drag helper's frame-driven library code. A release puts the list directly at its target. So a drag that starts mid-settle begins from the target, not from an intermediate offset, and cancelling an in-flight settle is not modelled.
- Drag helper internals (touch slop, pointer tracking, choosing the child under the finger, when it calls back): its callbacks are inputs. The capture attempt on a down changes no container field, so `Intercept` has no helper input.
- `canChildScrollUp`: SDK-version branching over platform scroll queries; it is a boolean input.
- Constructors, `onMeasure` and logging: framework I/O with no decision logic.
- Later layout passes: each one (`super.onLayout`) puts the list back at its laid-out top, discarding the drag helper's offset, even while the menu flag stays open; a pass with a size change also re-reads the menu height. Only the first layout, merged into `Inflate`, is modelled, so the model's offset survives where the real list would snap back.
- `requestDisallowInterceptTouchEvent` from the list, and the framework's dispatch that decides which handler sees an event: the model takes the sequence of calls into the container as given.
- Float coordinates and velocities: coordinates are `int` and velocities `real`, as explained above.
- `MainActivity.java`: list adapter wiring, no decision logic.
