/**
 * The visibility controller of the table-of-contents panel, as values.
 *
 * A `Panel` holds every variable the controller's handlers read or write:
 * the `isVisible` flag, the `hideTimeout` handle of the most recently
 * scheduled hide, the x-coordinate where the last touch started, a mirror of
 * the panel's `visible` CSS class, and the host's timer table (the ids of the
 * hide callbacks that are armed, and the id the next `setTimeout` returns).
 * Each handler is a function from the panel before the event to the panel
 * after it; its contract says what the handler promises.
 */
module TocModel {

  datatype Option<T> = None | Some(value: T)

  /** Pixels from the left edge within which the pointer shows the panel. */
  const TriggerZone: int := 40
  /** A touch that starts left of this x-coordinate may swipe the panel open. */
  const TouchStartZone: int := 30
  /** Horizontal travel, in pixels, that counts as a swipe. */
  const SwipeDistance: int := 50
  /** The key that closes the panel. */
  const EscapeKey: string := "Escape"

  datatype Panel = Panel(
    isVisible: bool,
    hasVisibleClass: bool,    // does the panel element carry the `visible` class?
    hideTimeout: Option<nat>, // handle of the last scheduled hide; None is JavaScript's null
    touchStartX: int,
    armed: set<nat>,          // timers scheduled and neither fired nor cancelled
    nextTimer: nat            // the handle the next setTimeout returns
  )

  /** The class list mirrors the flag. */
  predicate Mirrored(p: Panel) {
    p.hasVisibleClass == p.isVisible
  }

  /** Handles are issued once: every handle in use was issued before the next one. */
  predicate FreshHandles(p: Panel) {
    p.nextTimer >= 1 &&
    (forall t :: t in p.armed ==> 1 <= t < p.nextTimer) &&
    (p.hideTimeout.Some? ==> 1 <= p.hideTimeout.value < p.nextTimer)
  }

  /** What every state the controller can reach satisfies. */
  predicate Inv(p: Panel) {
    Mirrored(p) && FreshHandles(p)
  }

  /** Is a scheduled hide still able to run? */
  predicate HidePending(p: Panel) {
    p.hideTimeout.Some? && p.hideTimeout.value in p.armed
  }

  /** The state when the page has loaded: hidden, nothing scheduled. */
  function Init(): (r: Panel)
    ensures Inv(r)
    ensures !r.isVisible && !r.hasVisibleClass
    ensures r.hideTimeout == None && r.armed == {}
    ensures r.touchStartX == 0 && r.nextTimer == 1
  {
    Panel(false, false, None, 0, {}, 1)
  }

  /** Removes the `visible` class and clears the flag, leaving every timer as it is. */
  function HideNow(p: Panel): (r: Panel)
    ensures !r.isVisible && !r.hasVisibleClass && Mirrored(r)
    ensures r.hideTimeout == p.hideTimeout && r.armed == p.armed
    ensures r.touchStartX == p.touchStartX && r.nextTimer == p.nextTimer
    ensures FreshHandles(p) ==> FreshHandles(r)
  {
    p.(hasVisibleClass := false, isVisible := false)
  }

  /**
   * showToc: cancels the hide the handle refers to (a no-op when that timer
   * has already run), forgets the handle, and shows the panel if it is hidden.
   */
  function Show(p: Panel): (r: Panel)
    ensures r.isVisible && r.hideTimeout == None
    ensures Mirrored(p) ==> r.hasVisibleClass
    ensures Inv(p) ==> Inv(r)
    // only the timer the handle names is cancelled; any other stays armed
    ensures p.hideTimeout.Some? ==> p.hideTimeout.value !in r.armed
    ensures r.armed <= p.armed
    ensures forall t :: t in p.armed && p.hideTimeout != Some(t) ==> t in r.armed
    ensures r.touchStartX == p.touchStartX && r.nextTimer == p.nextTimer
    // already shown with no handle held: nothing changes
    ensures p.isVisible && p.hideTimeout == None ==> r == p
  {
    var q := if p.hideTimeout.Some?
      then p.(armed := p.armed - {p.hideTimeout.value}, hideTimeout := None)
      else p;
    if !q.isVisible then q.(hasVisibleClass := true, isVisible := true) else q
  }

  /**
   * hideToc: only when the panel is shown, arms a new hide timer and keeps
   * its handle, overwriting the old handle without cancelling that timer.
   */
  function Hide(p: Panel): (r: Panel)
    ensures !p.isVisible ==> r == p
    ensures p.isVisible ==>
      r.isVisible && r.hasVisibleClass == p.hasVisibleClass &&
      r.hideTimeout == Some(p.nextTimer) &&
      r.armed == p.armed + {p.nextTimer} &&
      r.nextTimer == p.nextTimer + 1 &&
      r.touchStartX == p.touchStartX
    ensures p.isVisible && Inv(p) ==> p.nextTimer !in p.armed && HidePending(r)
    ensures p.armed <= r.armed
    ensures Inv(p) ==> Inv(r)
  {
    if p.isVisible then
      p.(hideTimeout := Some(p.nextTimer), armed := p.armed + {p.nextTimer}, nextTimer := p.nextTimer + 1)
    else
      p
  }

  /**
   * The host runs the callback of timer `id`. A timer that was cancelled or
   * has already run does nothing; an armed one hides the panel and is used
   * up, and the callback leaves `hideTimeout` as it was.
   */
  function Fire(p: Panel, id: nat): (r: Panel)
    ensures id !in p.armed ==> r == p
    ensures id in p.armed ==>
      !r.isVisible && !r.hasVisibleClass &&
      r.armed == p.armed - {id} &&
      r.hideTimeout == p.hideTimeout &&
      r.touchStartX == p.touchStartX && r.nextTimer == p.nextTimer
    ensures Inv(p) ==> Inv(r)
  {
    if id in p.armed then HideNow(p).(armed := p.armed - {id}) else p
  }

  /** mousemove: within the trigger zone the panel is shown, elsewhere nothing happens. */
  function MouseMove(p: Panel, clientX: int): (r: Panel)
    ensures clientX <= TriggerZone ==> r == Show(p) && r.isVisible && r.hideTimeout == None
    ensures clientX <= TriggerZone && p.hideTimeout.Some? ==> p.hideTimeout.value !in r.armed
    ensures clientX > TriggerZone ==> r == p
    ensures Inv(p) ==> Inv(r)
  {
    if clientX <= TriggerZone then Show(p) else p
  }

  /** mouseleave: inside the trigger zone nothing happens, beyond it the hide is scheduled. */
  function MouseLeave(p: Panel, clientX: int): (r: Panel)
    ensures clientX <= TriggerZone ==> r == p
    ensures clientX > TriggerZone ==> r == Hide(p)
    ensures clientX > TriggerZone && p.isVisible ==>
      r.isVisible && r.hideTimeout == Some(p.nextTimer) && p.nextTimer in r.armed
    ensures Inv(p) ==> Inv(r)
  {
    if clientX > TriggerZone then Hide(p) else p
  }

  /** click: a click outside the shown panel hides it at once; any other click does nothing. */
  function Click(p: Panel, insidePanel: bool): (r: Panel)
    ensures p.isVisible && !insidePanel ==>
      !r.isVisible && !r.hasVisibleClass &&
      r.armed == p.armed && r.hideTimeout == p.hideTimeout &&
      r.touchStartX == p.touchStartX && r.nextTimer == p.nextTimer
    ensures !p.isVisible || insidePanel ==> r == p
    ensures Inv(p) ==> Inv(r)
  {
    if p.isVisible && !insidePanel then HideNow(p) else p
  }

  /** keydown: Escape hides the shown panel at once; any other key, or a hidden panel, does nothing. */
  function KeyDown(p: Panel, key: string): (r: Panel)
    ensures key == EscapeKey && p.isVisible ==>
      !r.isVisible && !r.hasVisibleClass &&
      r.armed == p.armed && r.hideTimeout == p.hideTimeout &&
      r.touchStartX == p.touchStartX && r.nextTimer == p.nextTimer
    ensures key != EscapeKey || !p.isVisible ==> r == p
    ensures Inv(p) ==> Inv(r)
  {
    if key == EscapeKey && p.isVisible then HideNow(p) else p
  }

  /** touchstart: remembers where the touch began and changes nothing else. */
  function TouchStart(p: Panel, clientX: int): (r: Panel)
    ensures r.touchStartX == clientX
    ensures r.(touchStartX := p.touchStartX) == p
    ensures Inv(p) ==> Inv(r)
  {
    p.(touchStartX := clientX)
  }

  /** A rightward swipe that starts at the left edge. */
  predicate SwipesOpen(p: Panel, clientX: int) {
    p.touchStartX < TouchStartZone && clientX - p.touchStartX > SwipeDistance
  }

  /** A leftward swipe while the panel is shown. */
  predicate SwipesClosed(p: Panel, clientX: int) {
    p.isVisible && clientX - p.touchStartX < -SwipeDistance
  }

  /**
   * touchmove: a rightward swipe from the left edge shows the panel; a
   * leftward swipe hides the shown panel at once, without a timer. The
   * second test reads the flag after the first may have set it, yet the two
   * never both apply, since a travel cannot exceed +50 and -50 at once.
   */
  function TouchMove(p: Panel, clientX: int): (r: Panel)
    ensures !(SwipesOpen(p, clientX) && SwipesClosed(p, clientX))
    ensures SwipesOpen(p, clientX) ==> r == Show(p) && r.isVisible && r.hideTimeout == None
    ensures SwipesClosed(p, clientX) ==>
      !r.isVisible && !r.hasVisibleClass &&
      r.armed == p.armed && r.hideTimeout == p.hideTimeout &&
      r.touchStartX == p.touchStartX && r.nextTimer == p.nextTimer
    ensures !SwipesOpen(p, clientX) && !SwipesClosed(p, clientX) ==> r == p
    ensures Inv(p) ==> Inv(r)
  {
    var deltaX := clientX - p.touchStartX;
    var swiped := if p.touchStartX < TouchStartZone && deltaX > SwipeDistance then Show(p) else p;
    if swiped.isVisible && deltaX < -SwipeDistance then HideNow(swiped) else swiped
  }
}
