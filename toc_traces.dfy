/**
 * Sequences of events delivered to the controller, and what holds after any
 * of them. The host delivers one event at a time and runs each handler to
 * completion, so a run is a left fold of the per-handler functions.
 */
module TocTraces {
  import opened TocModel

  /** The inputs the handlers receive, reduced to the values they read. */
  datatype Event =
    | PointerMove(clientX: int)
    | PointerEnter
    | PointerLeave(clientX: int)
    | ClickAt(insidePanel: bool)
    | KeyPress(key: string)
    | TouchBegin(clientX: int)
    | TouchDrag(clientX: int)
    | TimerFires(id: nat)

  /** One event handled to completion. */
  function Step(p: Panel, e: Event): (r: Panel)
    ensures Inv(p) ==> Inv(r)
    ensures r.nextTimer == p.nextTimer || (e.PointerLeave? && r.nextTimer == p.nextTimer + 1)
    ensures r.armed <= p.armed + {p.nextTimer}
  {
    match e
    case PointerMove(x) => MouseMove(p, x)
    case PointerEnter => Show(p)
    case PointerLeave(x) => MouseLeave(p, x)
    case ClickAt(inside) => Click(p, inside)
    case KeyPress(k) => KeyDown(p, k)
    case TouchBegin(x) => TouchStart(p, x)
    case TouchDrag(x) => TouchMove(p, x)
    case TimerFires(id) => Fire(p, id)
  }

  /** The events handled in order. */
  function Run(p: Panel, evs: seq<Event>): Panel
    decreases |evs|
  {
    if evs == [] then p else Run(Step(p, evs[0]), evs[1..])
  }

  /** Handlers that can take the panel away without a timer, or schedule a timer that will. */
  predicate CanEndShow(e: Event) {
    e.PointerLeave? || e.ClickAt? || e.KeyPress? || e.TouchDrag?
  }

  /** Handling two batches of events one after the other is handling them together. */
  lemma {:induction false} RunAppend(p: Panel, evs: seq<Event>, more: seq<Event>)
    ensures Run(p, evs + more) == Run(Run(p, evs), more)
    decreases |evs|
  {
    if evs != [] {
      assert (evs + more)[0] == evs[0];
      assert (evs + more)[1..] == evs[1..] + more;
      RunAppend(Step(p, evs[0]), evs[1..], more);
    } else {
      assert evs + more == more;
    }
  }

  /** Every handler and every timer keeps the invariant, so every run does. */
  lemma {:induction false} RunKeepsInv(p: Panel, evs: seq<Event>)
    requires Inv(p)
    ensures Inv(Run(p, evs))
    decreases |evs|
  {
    if evs != [] {
      RunKeepsInv(Step(p, evs[0]), evs[1..]);
    }
  }

  /** From page load on, the `visible` class is present exactly when the flag is set. */
  lemma ClassMirrorsFlag(evs: seq<Event>)
    ensures Run(Init(), evs).hasVisibleClass == Run(Init(), evs).isVisible
    ensures FreshHandles(Run(Init(), evs))
  {
    RunKeepsInv(Init(), evs);
  }

  /** Only a mouseleave arms a timer: without one, no new timer appears. */
  lemma {:induction false} OnlyLeaveArmsTimers(p: Panel, evs: seq<Event>)
    requires forall i :: 0 <= i < |evs| ==> !evs[i].PointerLeave?
    ensures Run(p, evs).armed <= p.armed
    ensures Run(p, evs).nextTimer == p.nextTimer
    decreases |evs|
  {
    if evs != [] {
      var q := Step(p, evs[0]);
      assert q.armed <= p.armed;
      OnlyLeaveArmsTimers(q, evs[1..]);
    }
  }

  /**
   * Once shown with no timer armed, the panel stays shown while no mouseleave,
   * click, key press or touch drag arrives; timer events then have nothing to run.
   */
  lemma {:induction false} StaysShown(p: Panel, evs: seq<Event>)
    requires p.isVisible && p.armed == {}
    requires forall i :: 0 <= i < |evs| ==> !CanEndShow(evs[i])
    ensures Run(p, evs).isVisible && Run(p, evs).armed == {}
    decreases |evs|
  {
    if evs != [] {
      var q := Step(p, evs[0]);
      assert q.isVisible && q.armed == {};
      StaysShown(q, evs[1..]);
    }
  }

  /** showToc twice is showToc once. */
  lemma ShowIdempotent(p: Panel)
    ensures Show(Show(p)) == Show(p)
  {
  }

  /** A timer that is not armed and whose handle was already issued is never armed again. */
  lemma {:induction false} NeverRearmed(p: Panel, evs: seq<Event>, id: nat)
    requires id !in p.armed && id < p.nextTimer
    ensures id !in Run(p, evs).armed && id < Run(p, evs).nextTimer
    decreases |evs|
  {
    if evs != [] {
      var q := Step(p, evs[0]);
      assert id !in q.armed && id < q.nextTimer;
      NeverRearmed(q, evs[1..], id);
    }
  }

  /**
   * Debounce: a hide scheduled by a mouseleave and followed by a mouseenter
   * never runs, whatever events come later. The panel is then shown with
   * the timers it had before the mouseleave; if it had none, it stays shown
   * until a mouseleave, click, key press or touch drag arrives.
   */
  lemma LeaveThenEnterCancels(p: Panel, clientX: int, evs: seq<Event>)
    requires Inv(p) && p.isVisible && clientX > TriggerZone
    ensures var q := Show(MouseLeave(p, clientX));
      q.isVisible && q.armed == p.armed &&
      p.nextTimer !in Run(q, evs).armed &&
      Fire(Run(q, evs), p.nextTimer) == Run(q, evs)
    ensures var q := Show(MouseLeave(p, clientX));
      p.armed == {} && (forall i :: 0 <= i < |evs| ==> !CanEndShow(evs[i])) ==> Run(q, evs).isVisible
  {
    var q := Show(MouseLeave(p, clientX));
    assert p.nextTimer !in p.armed;
    NeverRearmed(q, evs, p.nextTimer);
    if p.armed == {} && (forall i :: 0 <= i < |evs| ==> !CanEndShow(evs[i])) {
      StaysShown(q, evs);
    }
  }

  /** A touchmove before any touchstart measures from x = 0, so a move to 60 opens the panel. */
  lemma DragBeforeTouchStartOpens()
    ensures Run(Init(), [TouchDrag(60)]).isVisible
  {
  }

  /** A scheduled hide that nothing cancels hides the panel when it runs. */
  lemma LeaveThenFireHides(p: Panel, clientX: int)
    requires Inv(p) && p.isVisible && clientX > TriggerZone
    ensures var q := Fire(MouseLeave(p, clientX), p.nextTimer);
      !q.isVisible && !q.hasVisibleClass && q.hideTimeout == Some(p.nextTimer)
  {
  }

  /** The swipes of the touch handlers, on concrete coordinates. */
  lemma SwipeExamples(p: Panel)
    requires Inv(p)
    ensures TouchMove(TouchStart(p, 10), 70).isVisible
    ensures TouchMove(TouchStart(p, 10), 50) == TouchStart(p, 10)
    ensures var q := Show(TouchStart(p, 100));
      !TouchMove(q, 40).isVisible && TouchMove(q, 40).armed == q.armed
  {
  }

  /** Two mouseleaves in a row leave two hides outstanding. */
  lemma TwoHidesOutstanding()
    ensures var p := Run(Init(), [PointerEnter, PointerLeave(100), PointerLeave(100)]);
      p.isVisible && p.armed == {1, 2} && p.hideTimeout == Some(2)
  {
  }

  /** ...and a later mouseenter cancels only the second, so the first still hides the panel. */
  lemma StaleHideRunsAfterShow()
    ensures var p := Run(Init(), [PointerEnter, PointerLeave(100), PointerLeave(100), PointerEnter]);
      p.isVisible && p.hideTimeout == None && p.armed == {1} && !Fire(p, 1).isVisible
  {
  }

  /** The timer callback hides the panel but keeps its handle. */
  lemma HandleOutlivesHide()
    ensures var p := Run(Init(), [PointerEnter, PointerLeave(100), TimerFires(1)]);
      !p.isVisible && p.hideTimeout == Some(1) && p.armed == {}
  {
  }

  /** Escape hides at once and leaves the scheduled hide armed. */
  lemma ImmediateHideKeepsTimer()
    ensures var p := Run(Init(), [PointerEnter, PointerLeave(100), KeyPress(EscapeKey)]);
      !p.isVisible && p.armed == {1} && p.hideTimeout == Some(1)
  {
    var q := Run(Init(), [PointerEnter, PointerLeave(100)]);
    assert q.isVisible && q.armed == {1} && q.hideTimeout == Some(1);
    assert [PointerEnter, PointerLeave(100), KeyPress(EscapeKey)] == [PointerEnter, PointerLeave(100)] + [KeyPress(EscapeKey)];
    RunAppend(Init(), [PointerEnter, PointerLeave(100)], [KeyPress(EscapeKey)]);
  }
}
