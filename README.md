# Table-of-contents panel: visibility controller

`assets/js/toc.js` attaches listeners to the page and to the `#toc` panel.
They share closure variables: the `isVisible` flag, the `hideTimeout` handle
of the last scheduled hide, and `touchStartX`. They also add and remove the
panel's `visible` class. This project models that controller and proves what
each handler does to it.

- `toc_model.dfy`, module `TocModel`: the controller's state as a value
  (`Panel`), and one function per handler that maps the state before the
  event to the state after it. Each function's contract says what the
  handler promises. The host's timers are modelled explicitly: `armed` is the
  set of hide callbacks that are scheduled and have neither run nor been
  cancelled, and `nextTimer` is the handle the next `setTimeout` returns.
  Handles start at 1, as browsers return positive handles, so the source's
  truthiness test `if (hideTimeout)` is `hideTimeout.Some?`. `Inv` is what
  every reachable state satisfies: the class mirrors the flag, and every
  handle in use was issued earlier.
- `toc_controller.dfy`, module `TocController`: class `Controller`, whose
  fields are the closure variables, the class mirror and the timer table.
  It has one method per handler, in the statement order of the source. It
  also has `SetTimeout` and `ClearTimeout`, which stand for the host's timer
  API, and `FireTimer`, the host running a callback. Each handler method and
  `FireTimer` is proved to take `old(State())` to the matching `TocModel`
  function's result and to keep `Valid()`. `SetTimeout` and `ClearTimeout`
  state directly what they do to the timer table.
- `toc_traces.dfy`, module `TocTraces`: any sequence of events (`Run`), with
  lemmas about all runs and concrete runs that show how the code behaves.

The code does not implement a debounced hide with a single pending timer
that is discarded whenever the panel hides. It differs from that in three
ways, and the model follows the code.

- Two hides can be outstanding at once. `hideToc` overwrites `hideTimeout`
  without cancelling the timer it held (`TwoHidesOutstanding`). A later
  show cancels only the newer timer, so the older one still hides the panel
  (`StaleHideRunsAfterShow`).
- The timer callback does not reset `hideTimeout` (`HandleOutlivesHide`).
- The immediate hides (outside click, Escape, leftward swipe) leave any
  scheduled hide armed (`ImmediateHideKeepsTimer`).

The first one can hide a panel that the pointer has just re-entered: in
`StaleHideRunsAfterShow` the older timer runs after the mouseenter and hides
the panel. It needs two mouseleave events with no mouseenter between them,
which a browser does not normally deliver, so it is not reported as a defect.

## Model

| member | source | states |
|---|---|---|
| `TocModel.Init` | assets/js/toc.js:10-11 | the initial state is hidden, with no class, no handle, no timer and a touch start of 0, and it satisfies the invariant |
| `TocModel.HideNow` | assets/js/toc.js:54-55 | the immediate hide removes the class and clears the flag, and leaves the handle and every timer as they were |
| `TocModel.Show` | assets/js/toc.js:13-22 | after showToc the panel is visible, with the class, and the handle is null; the timer the handle named can no longer run, and every other armed timer stays armed; when already visible with no handle, nothing changes; the invariant is kept |
| `TocModel.Hide` | assets/js/toc.js:24-31 | when hidden, nothing changes; when visible, the flag and the class stay as they were, and a fresh timer is armed and its handle stored; no earlier timer is cancelled |
| `TocModel.Fire` | assets/js/toc.js:26-29 | an armed timer, when it runs, clears the flag and the class and is used up, and the handle is left unchanged; a cancelled or already-run timer changes nothing |
| `TocModel.MouseMove` | assets/js/toc.js:34-38 | with `clientX <= 40` it is exactly showToc, so the panel ends visible, with no handle and the old pending hide cancelled; with `clientX > 40` nothing changes |
| `TocModel.MouseLeave` | assets/js/toc.js:44-49 | with `clientX <= 40` nothing changes; with `clientX > 40` it is exactly hideToc, so a visible panel gets a new armed timer |
| `TocModel.Click` | assets/js/toc.js:52-57 | a click outside the visible panel hides it at once and leaves every timer and the handle alone; any other click changes nothing |
| `TocModel.KeyDown` | assets/js/toc.js:60-65 | Escape on the visible panel hides it at once and leaves every timer and the handle alone; another key, or a hidden panel, changes nothing |
| `TocModel.TouchStart` | assets/js/toc.js:68-71 | records the touch x and changes nothing else |
| `TocModel.TouchMove` | assets/js/toc.js:73-86 | a swipe from `x < 30` by more than +50 is showToc; on a visible panel a swipe by less than -50 hides at once, with no timer armed or cancelled; the two never both apply; otherwise nothing changes |
| `TocTraces.Step` | assets/js/toc.js:34-86 | every handler and every timer callback keeps the invariant, and only a mouseleave issues a new handle |
| `TocTraces.RunAppend` | assets/js/toc.js:34-86 | handling two batches of events in turn is handling their concatenation |
| `TocTraces.RunKeepsInv` | assets/js/toc.js:19-20 | after any sequence of events from a valid state, the class still mirrors the flag and handles are still fresh |
| `TocTraces.ClassMirrorsFlag` | assets/js/toc.js:26-28 | from page load, after any events, the panel has the `visible` class exactly when `isVisible` is true |
| `TocTraces.OnlyLeaveArmsTimers` | assets/js/toc.js:44-49 | without a mouseleave, no timer is ever armed and no handle is issued |
| `TocTraces.StaysShown` | assets/js/toc.js:13-31 | a visible panel with no timer armed stays visible, with none armed, while no mouseleave, click, key press or touch drag arrives |
| `TocTraces.ShowIdempotent` | assets/js/toc.js:13-22 | calling showToc twice is the same as calling it once |
| `TocTraces.NeverRearmed` | assets/js/toc.js:14-17 | a handle that is issued and not armed is never armed again, whatever events follow |
| `TocTraces.LeaveThenEnterCancels` | assets/js/toc.js:41-47 | a hide scheduled by mouseleave and followed by mouseenter never runs after any later events; the panel is visible with the timers it had before; with none, it stays visible until a mouseleave, click, key press or touch drag |
| `TocTraces.DragBeforeTouchStartOpens` | assets/js/toc.js:68-80 | a touchmove to x = 60 before any touchstart measures from 0 and opens the panel |
| `TocTraces.LeaveThenFireHides` | assets/js/toc.js:24-31 | a hide scheduled by mouseleave that nothing cancels hides the panel when it runs, and the handle still names it |
| `TocTraces.SwipeExamples` | assets/js/toc.js:78-85 | a start at 10 and a move by +60 shows the panel; a move by +40 changes nothing; a move by -60 on the visible panel hides it with no timer |
| `TocTraces.TwoHidesOutstanding` | assets/js/toc.js:26-26 | mouseenter then two mouseleaves leave two timers armed, with the handle naming the second |
| `TocTraces.StaleHideRunsAfterShow` | assets/js/toc.js:14-17 | after that, a mouseenter cancels only the second timer, and the first still hides the panel |
| `TocTraces.HandleOutlivesHide` | assets/js/toc.js:26-29 | after a scheduled hide runs, the panel is hidden and `hideTimeout` still holds its handle |
| `TocTraces.ImmediateHideKeepsTimer` | assets/js/toc.js:61-64 | Escape on a panel with a pending hide hides it at once and leaves that timer armed |
| `TocController.Controller.constructor` | assets/js/toc.js:10-11 | a new controller is in the initial state |
| `TocController.Controller.SetTimeout` | assets/js/toc.js:26-29 | scheduling arms a timer under a handle never used before and changes nothing else |
| `TocController.Controller.ClearTimeout` | assets/js/toc.js:15-15 | cancelling disarms that timer and changes nothing else |
| `TocController.Controller.ShowToc` | assets/js/toc.js:13-22 | the new state is `Show` of the old; the invariant is kept |
| `TocController.Controller.HideToc` | assets/js/toc.js:24-31 | the new state is `Hide` of the old; the invariant is kept |
| `TocController.Controller.FireTimer` | assets/js/toc.js:26-29 | the new state is `Fire` of the old; the invariant is kept |
| `TocController.Controller.OnMouseMove` | assets/js/toc.js:34-38 | the new state is `MouseMove` of the old; the invariant is kept |
| `TocController.Controller.OnMouseEnter` | assets/js/toc.js:41-41 | the new state is `Show` of the old; the invariant is kept |
| `TocController.Controller.OnMouseLeave` | assets/js/toc.js:44-49 | the new state is `MouseLeave` of the old; the invariant is kept |
| `TocController.Controller.OnClick` | assets/js/toc.js:52-57 | the new state is `Click` of the old; the invariant is kept |
| `TocController.Controller.OnKeyDown` | assets/js/toc.js:60-65 | the new state is `KeyDown` of the old; the invariant is kept |
| `TocController.Controller.OnTouchStart` | assets/js/toc.js:69-71 | the new state is `TouchStart` of the old; the invariant is kept |
| `TocController.Controller.OnTouchMove` | assets/js/toc.js:73-86 | the new state is `TouchMove` of the old; the invariant is kept |

## Left out

- The lookup of `#toc` and the early return when it is missing (assets/js/toc.js:2-5). The model is the controller of a page that has the panel.
- The `.toc-trigger` element (assets/js/toc.js:3). It is looked up but never used.
- `DOMContentLoaded` and the `addEventListener` calls. They only register the handlers. Event delivery is the caller invoking one method at a time, or `TocTraces.Run`.
- The 300 ms delay (assets/js/toc.js:8) and wall-clock time. A scheduled hide runs when the caller calls `FireTimer` with its handle, so "after exactly 300 ms" is not stated.
- `toc.contains(e.target)` and `e.touches[0].clientX`. They are parameters: the boolean `insidePanel` and an integer x-coordinate.
- Fractional `clientX` values. The browser's coordinates can be fractional; the model's are integers, so a value such as 40.5 is not modelled.
- The CSS and its transitions. The `visible` class is a boolean field.
