/**
 * The controller as the page runs it: one object whose fields are the
 * closure variables of the handlers, with one method per handler. The
 * host's timer and the panel's class list are fields too, so that each step
 * of a handler is an assignment to this object. Every method is proved to
 * move the object from `old(State())` to the state the matching function of
 * `TocModel` gives, and to keep the class list in step with the flag.
 */
module TocController {
  import opened TocModel

  class Controller {
    var isVisible: bool
    var hideTimeout: Option<nat>
    var touchStartX: int
    /** Does the panel element carry the `visible` class? */
    var hasVisibleClass: bool
    /** The host's timer table: hide callbacks that are scheduled and have not run. */
    var armed: set<nat>
    /** The handle the next `setTimeout` returns; the host never returns a handle twice. */
    var nextTimer: nat

    /** The abstract value of the controller. */
    function State(): Panel
      reads this
    {
      Panel(isVisible, hasVisibleClass, hideTimeout, touchStartX, armed, nextTimer)
    }

    ghost predicate Valid()
      reads this
    {
      Inv(State())
    }

    /** The state when the page has loaded. */
    constructor ()
      ensures Valid() && State() == Init()
    {
      isVisible := false;
      hideTimeout := None;
      touchStartX := 0;
      hasVisibleClass := false;
      armed := {};
      nextTimer := 1;
    }

    /** The host's `setTimeout` for the hide callback: arms a new timer and returns its handle. */
    method SetTimeout() returns (id: nat)
      requires Valid()
      modifies this
      ensures Valid()
      ensures id == old(nextTimer) && id !in old(armed)
      ensures armed == old(armed) + {id} && nextTimer == id + 1
      ensures isVisible == old(isVisible) && hasVisibleClass == old(hasVisibleClass)
      ensures hideTimeout == old(hideTimeout) && touchStartX == old(touchStartX)
    {
      id := nextTimer;
      armed := armed + {id};
      nextTimer := nextTimer + 1;
    }

    /** The host's `clearTimeout`: the timer will not run; a no-op on one that has run. */
    method ClearTimeout(id: nat)
      modifies this
      ensures armed == old(armed) - {id}
      ensures isVisible == old(isVisible) && hasVisibleClass == old(hasVisibleClass)
      ensures hideTimeout == old(hideTimeout) && touchStartX == old(touchStartX)
      ensures nextTimer == old(nextTimer)
    {
      armed := armed - {id};
    }

    method ShowToc()
      requires Valid()
      modifies this
      ensures Valid() && State() == Show(old(State()))
    {
      if hideTimeout.Some? {
        ClearTimeout(hideTimeout.value);
        hideTimeout := None;
      }
      if !isVisible {
        hasVisibleClass := true;
        isVisible := true;
      }
    }

    method HideToc()
      requires Valid()
      modifies this
      ensures Valid() && State() == Hide(old(State()))
    {
      if isVisible {
        var id := SetTimeout();
        hideTimeout := Some(id);
      }
    }

    /** The host runs the callback of timer `id`; only an armed timer runs. */
    method FireTimer(id: nat)
      requires Valid()
      modifies this
      ensures Valid() && State() == Fire(old(State()), id)
    {
      if id in armed {
        armed := armed - {id};
        hasVisibleClass := false;
        isVisible := false;
      }
    }

    method OnMouseMove(clientX: int)
      requires Valid()
      modifies this
      ensures Valid() && State() == MouseMove(old(State()), clientX)
    {
      if clientX <= TriggerZone {
        ShowToc();
      }
    }

    method OnMouseEnter()
      requires Valid()
      modifies this
      ensures Valid() && State() == Show(old(State()))
    {
      ShowToc();
    }

    method OnMouseLeave(clientX: int)
      requires Valid()
      modifies this
      ensures Valid() && State() == MouseLeave(old(State()), clientX)
    {
      if clientX > TriggerZone {
        HideToc();
      }
    }

    /** `insidePanel` is whether the click's target lies inside the panel element. */
    method OnClick(insidePanel: bool)
      requires Valid()
      modifies this
      ensures Valid() && State() == Click(old(State()), insidePanel)
    {
      if isVisible && !insidePanel {
        hasVisibleClass := false;
        isVisible := false;
      }
    }

    method OnKeyDown(key: string)
      requires Valid()
      modifies this
      ensures Valid() && State() == KeyDown(old(State()), key)
    {
      if key == EscapeKey && isVisible {
        hasVisibleClass := false;
        isVisible := false;
      }
    }

    /** `clientX` is the x-coordinate of the first touch point. */
    method OnTouchStart(clientX: int)
      requires Valid()
      modifies this
      ensures Valid() && State() == TouchStart(old(State()), clientX)
    {
      touchStartX := clientX;
    }

    method OnTouchMove(clientX: int)
      requires Valid()
      modifies this
      ensures Valid() && State() == TouchMove(old(State()), clientX)
    {
      var deltaX := clientX - touchStartX;
      if touchStartX < TouchStartZone && deltaX > SwipeDistance {
        ShowToc();
      }
      if isVisible && deltaX < -SwipeDistance {
        hasVisibleClass := false;
        isVisible := false;
      }
    }
  }
}
