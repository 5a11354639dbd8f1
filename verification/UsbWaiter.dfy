/**
 * Unplug-wait as the main loop keeps it: the state of daemon_usb_wait.cpp updated in
 * place by each tick, over the selection object. Every method is proved against the
 * transition of the same name.
 */
module UsbWaiter {
  import opened Prelude
  import U = UsbWait
  import S = Ch341Select
  import opened Ch341Selector

  class Waiter {
    const selector: Selector

    var state: U.WaitState
    var deadline: nat
    var lossFlag: bool
    var lossMs: nat
    var reopening: bool
    var forceReopen: bool
    var reinitPending: bool
    var health: U.Health
    var mon: U.Monitor
    var hal: U.Hal
    var exit: U.Exit

    ghost function View(): U.Plug
      reads this, selector
    {
      U.Plug(state, deadline, lossFlag, lossMs, reopening, forceReopen, reinitPending, health, mon, hal, selector.View(), exit)
    }

    constructor (selector: Selector)
      ensures this.selector == selector
      ensures state == U.Ready && !lossFlag && lossMs == 0 && !reopening && !forceReopen && !reinitPending
      ensures health == U.HealthReady && mon == U.Monitor(0, 0, U.NoLeft) && hal == U.Hal(1, true, U.NotLost, 0)
      ensures exit == U.Running && deadline == 0
    {
      this.selector := selector;
      state, deadline, lossFlag, lossMs := U.Ready, 0, false, 0;
      reopening, forceReopen, reinitPending := false, false, false;
      health, mon, hal, exit := U.HealthReady, U.Monitor(0, 0, U.NoLeft), U.Hal(1, true, U.NotLost, 0), U.Running;
    }

    // ---- the loss report, one atomic step per call ------------------------------------------

    method HalFails()
      modifies this
      ensures View() == U.HalFails(old(View()))
    {
      if hal.live && hal.loss == U.NotLost {
        hal := hal.(loss := U.Latched);
      }
    }

    method ReportStep()
      modifies this, selector
      ensures View() == U.ReportStep(old(View()))
    {
      match hal.loss
      case Latched =>
        health := U.HealthUnplugged;
        hal := hal.(loss := U.HealthDown);
      case HealthDown =>
        var now := selector.Now();
        if lossMs == 0 {
          lossMs := now;
        }
        hal := hal.(loss := U.TimeStamped, stampedAt := now);
      case TimeStamped =>
        lossFlag := true;
        hal := hal.(loss := U.Flagged);
      case _ =>
    }

    // ---- one tick ---------------------------------------------------------------------------------

    method TickPending(a: U.Answers)
      modifies this, selector
      ensures View() == U.TickPending(old(View()), a)
    {
      if mon.leftBound == U.Left {
        state := U.Teardown;
        return;
      }
      var now := selector.Now();
      if now < deadline {
        return;
      }
      match a.presence
      case Absent => state := U.Teardown;
      case ListUnreadable => exit := U.PresenceUnknown;
      case Present => exit := U.IoFault;
    }

    method TickReady(a: U.Answers)
      modifies this, selector
      ensures View() == U.TickReady(old(View()), a)
    {
      if !lossFlag {
        if mon.leftBound != U.Left {
          mon := mon.(arrivals := 0, lefts := 0);
        }
        return;
      }
      deadline := lossMs + U.GRACE_MS;
      state := U.Pending;
      TickPending(a);
    }

    method TearDown()
      modifies this, selector
      ensures View() == U.TearDown(old(View()))
    {
      selector.usb := selector.usb.(bound := None);
      mon := mon.(leftBound := U.NoLeft);
      hal := hal.(live := false, loss := U.NotLost);
      lossFlag := false;
      lossMs := 0;
      state := U.Unplugged;
      forceReopen := true;
    }

    method TakeArrivals()
      modifies this, selector
      ensures View() == old(View()).(mon := old(mon).(arrivals := 0),
                                     sel := old(View()).sel.(ears := S.NoteArrivals(old(selector.ears), old(mon).arrivals)))
    {
      ghost var p, n := View(), mon.arrivals;
      while mon.arrivals > 0
        invariant mon.arrivals <= n
        invariant View() == p.(mon := p.mon.(arrivals := mon.arrivals),
                               sel := p.sel.(ears := S.NoteArrivals(p.sel.ears, n - mon.arrivals)))
      {
        mon := mon.(arrivals := mon.arrivals - 1);
        selector.NoteArrival();
      }
    }

    method TakeLefts()
      modifies this, selector
      ensures View() == old(View()).(mon := old(mon).(lefts := 0),
                                     sel := old(View()).sel.(ears := S.NoteLefts(old(selector.ears), old(mon).lefts)))
    {
      ghost var p, n := View(), mon.lefts;
      while mon.lefts > 0
        invariant mon.lefts <= n
        invariant View() == p.(mon := p.mon.(lefts := mon.lefts),
                               sel := p.sel.(ears := S.NoteLefts(p.sel.ears, n - mon.lefts)))
      {
        mon := mon.(lefts := mon.lefts - 1);
        selector.NoteLeft();
      }
    }

    method TakeNotes()
      modifies this, selector
      ensures View() == U.TakeNotes(old(View()))
    {
      TakeArrivals();
      TakeLefts();
    }

    method ReinitStep(r: U.Reinit)
      modifies this, selector
      ensures View() == U.ReinitStep(old(View()), r)
    {
      match r
      case MutexBusy =>
      case Failed =>
        reinitPending := false;
        health := U.HealthFailed;
        exit := U.ReinitFailed;
      case Done(lossSteps) =>
        reinitPending := false;
        state := U.Ready;
        health := U.HealthReady;
        hal := U.Hal(hal.id + 1, true, U.NotLost, 0);
        if lossSteps > 0 {
          HalFails();
          ghost var p := View();
          var i := 0;
          while i < lossSteps - 1
            invariant 0 <= i <= lossSteps - 1
            invariant View() == U.ReportSteps(p, i)
          {
            ReportStep();
            i := i + 1;
          }
        }
    }

    method SelectionStep(r: U.Reinit)
      requires S.Stamped(selector.access)
      modifies this, selector
      ensures View() == U.SelectionStep(old(View()), r)
    {
      var result := selector.Step();
      match result
      case Pending =>
      case Opened(_) =>
        reopening := false;
        reinitPending := true;
        ReinitStep(r);
      case _ =>
        reopening := false;
    }

    method BeginSelection()
      modifies this, selector
      ensures View() == old(View()).(forceReopen := false, sel := S.Begin(old(View()).sel, false), reopening := true)
    {
      forceReopen := false;
      selector.Begin(false);
      reopening := true;
    }

    method TickUnplugged(a: U.Answers)
      requires S.Stamped(selector.access)
      modifies this, selector
      ensures View() == U.TickUnplugged(old(View()), a)
    {
      if reinitPending {
        ReinitStep(a.reinit);
        return;
      }
      var arrival := mon.arrivals > 0 || mon.lefts > 0;
      TakeNotes();
      if !reopening {
        if !arrival && !forceReopen {
          var due := ReopenDue();
          if !due {
            return;
          }
        }
        BeginSelection();
      }
      SelectionStep(a.reinit);
    }

    method ReopenDue() returns (due: bool)
      modifies selector
      ensures (due, View()) == U.ReopenDue(old(View()))
    {
      if selector.retryAt == 0 {
        return false;
      }
      var now := selector.Now();
      due := now >= selector.retryAt;
    }

    /** daemon_usb_wait_tick: the pending events first, then one state. */
    method Tick(a: U.Answers)
      requires S.Stamped(selector.access)
      modifies this, selector
      ensures View() == U.Tick(old(View()), a)
    {
      mon := U.Dispatch(mon, selector.usb.bound.Some?, a);
      match state
      case Ready => TickReady(a);
      case Pending => TickPending(a);
      case Teardown =>
        if a.teardownOk {
          TearDown();
        }
      case Unplugged => TickUnplugged(a);
    }
  }
}
