/**
 * The Meshstick HAL's one-shot loss latch (ch341_hal.h): the first USB failure after
 * READY is reported once; from then on no call touches the device.
 */
module Ch341Hal {

  /** `touches` counts the calls that reach the device, `reports` the on_loss calls. */
  datatype HalState = HalState(open: bool, operational: bool, armed: bool, lost: bool, startupFailed: bool, exited: bool,
                               touches: nat, reports: nat)

  /** A HAL on an opened stick, not yet operational; armed when unplug-wait is. */
  function NewHal(armed: bool): HalState {
    HalState(true, false, armed, false, false, false, 0, 0)
  }

  /** `failure()`: a startup error, a loss reported once, or (unarmed) exit 5. */
  function Failure(h: HalState): HalState {
    if h.operational && h.armed then
      if h.lost then h else h.(lost := true, reports := h.reports + 1)
    else if h.operational then h.(exited := true, open := false)
    else h.(startupFailed := true)
  }

  datatype Call = UsbCall(ok: bool) | MarkOperational | CheckRuntime(inError: bool) | Close

  /** One call into the HAL; `ready()` guards every call that would touch the device. */
  function Apply(h: HalState, c: Call): HalState {
    if h.exited then h
    else match c
      case UsbCall(ok) =>
        if h.lost then h
        else if !h.open then Failure(h)
        else if ok then h.(touches := h.touches + 1)
        else Failure(h.(touches := h.touches + 1))
      case MarkOperational => h.(operational := true)
      case CheckRuntime(inError) =>
        if h.open && h.operational && !h.lost && inError then Failure(h) else h
      case Close => h.(open := false)
  }

  function Run(h: HalState, calls: seq<Call>): HalState {
    if calls == [] then h else Apply(Run(h, calls[..|calls| - 1]), calls[|calls| - 1])
  }

  predicate Latched(h: HalState) {
    h.reports == (if h.lost then 1 else 0) && (h.lost ==> h.armed && h.operational)
  }

  /** on_loss fires at most once per HAL, exactly when the loss is latched. */
  lemma {:induction false} ReportedAtMostOnce(armed: bool, calls: seq<Call>)
    ensures Latched(Run(NewHal(armed), calls))
  {
    if calls != [] {
      ReportedAtMostOnce(armed, calls[..|calls| - 1]);
    }
  }

  /** A latched loss stands, and no later call reaches the device. */
  lemma {:induction false} LostNeverTouches(h: HalState, calls: seq<Call>)
    requires h.lost
    ensures Run(h, calls).lost && Run(h, calls).touches == h.touches && Run(h, calls).reports == h.reports
    ensures Run(h, calls).exited == h.exited
  {
    if calls != [] {
      LostNeverTouches(h, calls[..|calls| - 1]);
    }
  }

  /** With unplug-wait armed a runtime failure never exits by itself. */
  lemma {:induction false} ArmedNeverExits(calls: seq<Call>)
    ensures !Run(NewHal(true), calls).exited && Run(NewHal(true), calls).armed
  {
    if calls != [] {
      ArmedNeverExits(calls[..|calls| - 1]);
    }
  }

  // ---- which calls are losses ------------------------------------------------------------------

  /** The last of these calls finds the device failing, as far as the calls before it tell. */
  predicate Fails(calls: seq<Call>)
    requires calls != []
  {
    var before, c := calls[..|calls| - 1], calls[|calls| - 1];
    match c
    case UsbCall(ok) => !ok || Close in before
    case CheckRuntime(inError) => inError && Close !in before
    case _ => false
  }

  /** The n-th call is one after READY and finds the device failing. */
  predicate RuntimeFailureAt(calls: seq<Call>, n: nat) {
    0 < n <= |calls| && MarkOperational in calls[..n - 1] && Fails(calls[..n])
  }

  ghost predicate RuntimeFailure(calls: seq<Call>) {
    exists n :: RuntimeFailureAt(calls, n)
  }

  lemma RuntimeFailureMore(calls: seq<Call>)
    requires calls != []
    ensures var front := calls[..|calls| - 1];
            RuntimeFailure(calls) <==> RuntimeFailure(front) || (MarkOperational in front && Fails(calls))
  {
    var front := calls[..|calls| - 1];
    assert calls[..|calls|] == calls;
    forall n: nat | n <= |front| ensures RuntimeFailureAt(calls, n) <==> RuntimeFailureAt(front, n) {
      if n > 0 { assert front[..n] == calls[..n] && front[..n - 1] == calls[..n - 1]; }
    }
    assert RuntimeFailureAt(calls, |calls|) <==> MarkOperational in front && Fails(calls);
  }

  /** With unplug-wait armed the loss is latched, and reported, exactly when some call after
      READY found the device failing. */
  lemma {:induction false} LostExactly(calls: seq<Call>)
    ensures var h := Run(NewHal(true), calls);
            && (h.lost <==> RuntimeFailure(calls)) && h.reports == (if RuntimeFailure(calls) then 1 else 0)
            && (h.operational <==> MarkOperational in calls) && (h.open <==> Close !in calls)
  {
    if calls != [] {
      var front, c := calls[..|calls| - 1], calls[|calls| - 1];
      LostExactly(front);
      ReportedAtMostOnce(true, front);
      ArmedNeverExits(front);
      RuntimeFailureMore(calls);
      assert calls == front + [c];
    }
  }

  /** Without it the first such call ends the process; and a failure before READY is a
      startup error, armed or not. */
  lemma FailureEnds(h: HalState, c: Call)
    requires !h.exited && !h.lost && !h.armed
    requires match c case UsbCall(ok) => !ok || !h.open case CheckRuntime(inError) => inError && h.open case _ => false
    ensures h.operational ==> Apply(h, c).exited && !Apply(h, c).open
    ensures !h.operational && c.UsbCall? ==> Apply(h, c).startupFailed && !Apply(h, c).exited
  {
  }

  /** A call reaches the device exactly once while it is open and no loss is latched. */
  lemma TouchedExactly(h: HalState, ok: bool)
    requires !h.exited
    ensures Apply(h, UsbCall(ok)).touches == h.touches + (if h.open && !h.lost then 1 else 0)
    ensures h.open && !h.lost && ok ==> Apply(h, UsbCall(ok)) == h.(touches := h.touches + 1)
  {
  }

  class Hal {
    const armed: bool
    var open: bool
    var operational: bool
    var lost: bool
    var startupFailed: bool
    var exited: bool
    ghost var touches: nat
    ghost var reports: nat

    ghost function View(): HalState
      reads this
    {
      HalState(open, operational, armed, lost, startupFailed, exited, touches, reports)
    }

    constructor (armed: bool)
      ensures View() == NewHal(armed)
    {
      this.armed := armed;
      open, operational, lost, startupFailed, exited := true, false, false, false, false;
      touches, reports := 0, 0;
    }

    method Fail()
      modifies this
      ensures View() == Failure(old(View()))
    {
      if operational && armed {
        if !lost {
          lost := true;
          reports := reports + 1;
        }
        return;
      }
      if operational {
        open, exited := false, true;
      } else {
        startupFailed := true;
      }
    }

    method Ready() returns (ready: bool)
      modifies this
      ensures ready <==> old(open) && !old(lost)
      ensures View() == if old(lost) || old(open) then old(View()) else Failure(old(View()))
    {
      if lost {
        return false;
      }
      if open {
        return true;
      }
      Fail();
      ready := false;
    }

    /** Any call that would touch the device; `ok` is the device's answer. */
    method UsbAccess(ok: bool)
      requires !exited
      modifies this
      ensures View() == Apply(old(View()), UsbCall(ok))
    {
      var ready := Ready();
      if ready {
        touches := touches + 1;
        if !ok {
          Fail();
        }
      }
    }

    method CheckRuntimeError(inError: bool)
      requires !exited
      modifies this
      ensures View() == Apply(old(View()), CheckRuntime(inError))
    {
      if open && operational && !lost && inError {
        Fail();
      }
    }
  }
}
