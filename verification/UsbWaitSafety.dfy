/**
 * Safety of unplug-wait composed with the selection, under every interleaving of
 * ticks and loss reports.
 */
module UsbWaitSafety {
  import opened UsbWait
  import S = Ch341Select
  import Safety = Ch341SelectSafety

  // ---- the invariant ---------------------------------------------------------------------

  /** What the flag, the stamp and the health say at each point of a report. */
  predicate ReportOk(p: Plug) {
    && p.hal.stampedAt <= p.sel.ears.clock
    && (!p.hal.live ==> p.hal.loss == NotLost && p.health == HealthUnplugged)
    && (p.lossFlag <==> p.hal.loss == Flagged)
    && (p.hal.loss in {TimeStamped, Flagged} ==> p.lossMs == p.hal.stampedAt && p.lossMs > 0)
    && (p.hal.loss !in {TimeStamped, Flagged} ==> p.lossMs == 0)
    && (p.hal.live ==> (p.health == HealthReady <==> p.hal.loss in {NotLost, Latched}))
    && p.health != HealthFailed
  }

  predicate ReopenIdle(p: Plug) {
    p.state == Unplugged && !p.reopening && !p.forceReopen && !p.reinitPending
  }

  /** The stick in use is bound; without one the selection is at rest, running or done. */
  predicate SelectionOk(p: Plug) {
    if p.state != Unplugged then
      !p.reopening && !p.forceReopen && !p.reinitPending && p.sel.phase == S.Done && p.sel.usb.bound.Some?
    else if p.reinitPending then
      !p.reopening && !p.forceReopen && p.sel.phase == S.Done && p.sel.usb.bound.Some?
    else
      && p.sel.usb.bound.None?
      && (p.reopening ==> p.sel.phase in {S.Scan, S.Open, S.Walk} && !p.sel.atStart && !p.forceReopen)
      && (!p.reopening ==> p.sel.phase in {S.Idle, S.Done})
      && (ReopenIdle(p) ==> p.sel.phase == S.Idle && (p.sel.retryAt != 0 || S.Unchanged(p.sel)))
  }

  predicate GraceOk(p: Plug) {
    && (p.hal.live <==> p.state != Unplugged)
    && (p.state in {Pending, Teardown} ==> p.hal.loss == Flagged && p.deadline == p.hal.stampedAt + GRACE_MS)
  }

  ghost predicate Inv(p: Plug) {
    p.exit == Running && ReportOk(p) && GraceOk(p) && SelectionOk(p) && Safety.Inv(p.sel)
  }

  /** Armed after the start selection opened a stick and lora_init made a READY HAL. */
  function Armed(sel: S.Sel): Plug {
    Plug(Ready, 0, false, 0, false, false, false, HealthReady, Monitor(0, 0, NoLeft), Hal(1, true, NotLost, 0), sel, Running)
  }

  lemma ArmedInv(sel: S.Sel)
    requires Safety.Inv(sel) && sel.phase == S.Done && sel.usb.bound.Some?
    ensures Inv(Armed(sel))
  {
  }

  // ---- reports -------------------------------------------------------------------------------

  lemma ReportStepKeeps(p: Plug)
    requires Inv(p)
    ensures Inv(ReportStep(p)) && Inv(HalFails(p))
  {
  }

  lemma {:induction false} ReportStepsKeep(p: Plug, n: nat)
    requires Inv(p) && p.state == Ready && p.hal.loss != NotLost
    ensures Inv(ReportSteps(p, n)) && ReportSteps(p, n).state == Ready
    ensures ReportSteps(p, n).hal.id == p.hal.id && ReportSteps(p, n).hal.loss != NotLost
    ensures Later(p, ReportSteps(p, n))
    ensures p.hal.loss == Latched && ReportSteps(p, n).lossFlag ==> ReportSteps(p, n).lossMs >= p.sel.ears.clock
  {
    if n > 0 {
      ReportStepsKeep(p, n - 1);
      ReportStepKeeps(ReportSteps(p, n - 1));
      if p.hal.loss == Latched { StampIsLate(p, n); }
    }
  }

  predicate Later(p: Plug, q: Plug) {
    p.sel.ears.clock <= q.sel.ears.clock
  }

  lemma {:induction false} StampIsLate(p: Plug, n: nat)
    requires p.hal.loss == Latched && p.lossMs == 0 && p.sel.ears.clock >= 1
    ensures var q := ReportSteps(p, n);
            && p.sel.ears.clock <= q.sel.ears.clock
            && (q.hal.loss in {TimeStamped, Flagged} ==> q.lossMs >= p.sel.ears.clock)
            && (q.hal.loss in {Latched, HealthDown} ==> q.lossMs == 0)
            && q.hal.loss != NotLost
  {
    if n > 0 {
      StampIsLate(p, n - 1);
      StampStep(ReportSteps(p, n - 1), p.sel.ears.clock);
    }
  }

  lemma StampStep(p: Plug, since: nat)
    requires since <= p.sel.ears.clock && since >= 1 && p.hal.loss != NotLost
    requires p.hal.loss in {TimeStamped, Flagged} ==> p.lossMs >= since
    requires p.hal.loss in {Latched, HealthDown} ==> p.lossMs == 0
    ensures var q := ReportStep(p);
            && since <= q.sel.ears.clock
            && (q.hal.loss in {TimeStamped, Flagged} ==> q.lossMs >= since)
            && (q.hal.loss in {Latched, HealthDown} ==> q.lossMs == 0)
            && q.hal.loss != NotLost
  {
  }

  /** The stick is back, on a HAL of its own; a loss this HAL has flagged already is
      stamped after the re-init began. */
  ghost predicate BackAgain(p: Plug, q: Plug) {
    Inv(q) && q.state == Ready && q.hal.id == p.hal.id + 1 && (q.lossFlag ==> q.lossMs >= p.sel.ears.clock)
  }

  // ---- ticks ----------------------------------------------------------------------------------

  lemma ReinitKeeps(p: Plug, r: Reinit)
    requires p.exit == Running && ReportOk(p) && Safety.Inv(p.sel) && p.state == Unplugged && !p.hal.live
    requires p.reinitPending && !p.reopening && !p.forceReopen && p.sel.phase == S.Done && p.sel.usb.bound.Some?
    ensures var q := ReinitStep(p, r);
            && (q.exit == Running ==> Inv(q))
            && (r.MutexBusy? ==> q == p)
            && (r.Failed? ==> q.exit == ReinitFailed && q.health == HealthFailed)
            && (r.Done? ==> BackAgain(p, q))
  {
    if r.Done? {
      var p1 := FreshHal(p.(reinitPending := false, state := Ready));
      assert Inv(p1);
      if r.lossSteps > 0 {
        ReportStepKeeps(p1);
        ReportStepsKeep(HalFails(p1), r.lossSteps - 1);
      }
    }
  }

  /** A selection step while UNPLUGGED: it goes on, waits, or hands over to the re-init. */
  lemma SelectionStepKeeps(p: Plug, r: Reinit)
    requires p.exit == Running && ReportOk(p) && Safety.Inv(p.sel) && p.state == Unplugged && !p.hal.live
    requires p.reopening && !p.forceReopen && !p.reinitPending && p.sel.usb.bound.None? && !p.sel.atStart
    ensures var q := SelectionStep(p, r);
            && (q.exit == Running ==> Inv(q))
            && (q.exit != Running ==> q.exit == ReinitFailed)
            && (q.state == Ready ==> r.Done? && BackAgain(p, q))
            && (q.state != Ready ==> q.state == Unplugged && q.hal == p.hal)
  {
    Safety.StepKeepsInv(p.sel);
    var (result, sel) := S.Step(p.sel);
    if result.Opened? {
      ReinitKeeps(p.(sel := sel, reopening := false, reinitPending := true), r);
    }
  }

  lemma TakeNotesKeeps(p: Plug)
    requires Safety.Inv(p.sel)
    ensures Safety.Inv(TakeNotes(p).sel)
    ensures TakeNotes(p).sel.ears.changes == p.sel.ears.changes + p.mon.arrivals + p.mon.lefts
    ensures TakeNotes(p) == p.(sel := p.sel.(ears := TakeNotes(p).sel.ears), mon := p.mon.(arrivals := 0, lefts := 0))
    ensures Safety.Later(p.sel.ears, TakeNotes(p).sel.ears)
    ensures p.mon.arrivals == 0 && p.mon.lefts == 0 ==> TakeNotes(p).sel == p.sel
  {
    Safety.NotesListen(p.sel.ears, p.mon.arrivals, p.mon.lefts);
  }

  function Begun(p: Plug): Plug {
    p.(forceReopen := false, sel := S.Begin(p.sel, false), reopening := true)
  }

  lemma UnpluggedKeeps(p: Plug, a: Answers)
    requires Inv(p) && p.state == Unplugged
    ensures var q := TickUnplugged(p, a);
            && (q.exit == Running ==> Inv(q))
            && (q.exit != Running ==> q.exit == ReinitFailed)
            && (q.state == Ready ==> a.reinit.Done? && BackAgain(p, q))
            && (q.state != Ready ==> q.state == Unplugged && q.hal == p.hal)
  {
    if p.reinitPending {
      ReinitKeeps(p, a.reinit);
    } else {
      TakeNotesKeeps(p);
      var p1 := TakeNotes(p);
      if p1.reopening {
        SelectionStepKeeps(p1, a.reinit);
      } else if p.mon.arrivals > 0 || p.mon.lefts > 0 || p1.forceReopen {
        SelectionStepKeeps(Begun(p1), a.reinit);
      } else {
        var (due, p2) := ReopenDue(p1);
        if due { SelectionStepKeeps(Begun(p2), a.reinit); }
      }
    }
  }

  lemma LossTicksKeep(p: Plug, a: Answers)
    requires Inv(p) && p.state in {Ready, Pending}
    ensures var q := if p.state == Ready then TickReady(p, a) else TickPending(p, a);
            q.exit == Running ==> Inv(q)
  {
    assert Inv(p.(sel := S.Now(p.sel).1));
  }

  lemma DispatchKeeps(p: Plug, m: Monitor)
    requires Inv(p)
    ensures Inv(p.(mon := m))
  {
  }

  /** Every tick from a reachable state reaches one, or exits. */
  lemma TickKeeps(p: Plug, a: Answers)
    requires Inv(p)
    ensures Tick(p, a).exit == Running ==> Inv(Tick(p, a))
  {
    var p1 := p.(mon := Dispatch(p.mon, p.sel.usb.bound.Some?, a));
    DispatchKeeps(p, p1.mon);
    match p.state
    case Ready => LossTicksKeep(p1, a);
    case Pending => LossTicksKeep(p1, a);
    case Teardown =>
    case Unplugged => UnpluggedKeeps(p1, a);
  }

  // ---- the theorems ------------------------------------------------------------------------------------

  /** The grace counts from the first failure's stamp and no tick, no report and no
      later failure moves it. */
  lemma GraceNeverMoves(p: Plug, a: Answers)
    requires Inv(p) && p.state == Pending
    ensures p.deadline == p.hal.stampedAt + GRACE_MS
    ensures Tick(p, a).deadline == p.deadline && ReportStep(p) == p && HalFails(p) == p
    ensures Tick(p, a).state in {Pending, Teardown} && Tick(p, a).hal == p.hal
  {
  }

  /** A loss enters its grace with the deadline of its own stamp. */
  lemma GraceStarts(p: Plug, a: Answers)
    requires Inv(p) && p.state == Ready && p.lossFlag
    ensures Tick(p, a).deadline == p.hal.stampedAt + GRACE_MS && Tick(p, a).state in {Pending, Teardown}
  {
  }

  /** A LEFT of the bound stick settles a loss at once: torn down, never a fault. */
  lemma LeftMeansGone(p: Plug, a: Answers)
    requires Inv(p) && p.state in {Ready, Pending} && p.lossFlag && (p.mon.leftBound == Left || a.left == Left)
    ensures Tick(p, a).state == Teardown && Tick(p, a).exit == Running
  {
  }

  /** An ARRIVED or LEFT that came with the bound stick's own LEFT, before the HAL
      noticed, is kept for the selection. */
  lemma FastReplugKeepsNotes(p: Plug, a: Answers)
    requires Inv(p) && p.state == Ready && !p.lossFlag && (p.mon.leftBound == Left || a.left == Left)
    ensures Tick(p, a).mon.arrivals == p.mon.arrivals + a.arrivals && Tick(p, a).mon.lefts == p.mon.lefts + a.lefts
  {
  }

  // ---- whole runs ------------------------------------------------------------------------------------------

  datatype Action = TickOnce(a: Answers) | HalFailure | ReportOnce

  ghost function Act(p: Plug, act: Action): Plug {
    if p.exit != Running then p
    else match act
      case TickOnce(a) => Tick(p, a)
      case HalFailure => HalFails(p)
      case ReportOnce => ReportStep(p)
  }

  ghost function Run(p: Plug, acts: seq<Action>): Plug {
    if acts == [] then p else Act(Run(p, acts[..|acts| - 1]), acts[|acts| - 1])
  }

  /** A HAL that has reported a loss stays lost, until it is gone for good. */
  predicate LostFor(p: Plug, id: nat) {
    p.hal.id > id || (p.hal.id == id && (!p.hal.live || p.hal.loss !in {NotLost, Latched}))
  }

  lemma {:induction false} RunKeeps(p: Plug, acts: seq<Action>)
    requires Inv(p)
    ensures Run(p, acts).exit == Running ==> Inv(Run(p, acts))
  {
    if acts != [] {
      var q := Run(p, acts[..|acts| - 1]);
      RunKeeps(p, acts[..|acts| - 1]);
      if q.exit == Running {
        match acts[|acts| - 1]
        case TickOnce(a) => TickKeeps(q, a);
        case _ => ReportStepKeeps(q);
      }
    }
  }

  lemma ActStaysLost(p: Plug, act: Action, id: nat)
    requires Inv(p) && LostFor(p, id)
    ensures LostFor(Act(p, act), id)
  {
    match act
    case TickOnce(a) =>
      if p.state == Unplugged {
        UnpluggedHal(p.(mon := Dispatch(p.mon, p.sel.usb.bound.Some?, a)), a);
      }
    case _ =>
  }

  lemma UnpluggedHal(p: Plug, a: Answers)
    requires Inv(p) && p.state == Unplugged
    ensures TickUnplugged(p, a).hal.id > p.hal.id || TickUnplugged(p, a).hal == p.hal
  {
    UnpluggedKeeps(p, a);
  }

  /** Over any run a lost HAL never comes back: once its loss report has taken the
      health down, RADIO=READY again means a later HAL, made after a teardown. */
  lemma {:induction false} LostHalNeverBack(p: Plug, acts: seq<Action>)
    requires Inv(p) && p.hal.loss !in {NotLost, Latched}
    ensures var q := Run(p, acts);
            LostFor(q, p.hal.id) && (q.exit == Running && q.health == HealthReady ==> q.hal.id > p.hal.id)
  {
    if acts != [] {
      var q := Run(p, acts[..|acts| - 1]);
      LostHalNeverBack(p, acts[..|acts| - 1]);
      RunKeeps(p, acts[..|acts| - 1]);
      if q.exit == Running { ActStaysLost(q, acts[|acts| - 1], p.hal.id); }
    }
    RunKeeps(p, acts);
  }

  // ---- from the armed state on -------------------------------------------------------------------------------

  /** Where unplug-wait starts: the start selection has opened and bound a stick. */
  ghost predicate StartDone(sel: S.Sel) {
    Safety.Inv(sel) && sel.phase == S.Done && sel.usb.bound.Some?
  }

  lemma ReachedFromArmed(sel: S.Sel, acts: seq<Action>)
    requires StartDone(sel)
    ensures Run(Armed(sel), acts).exit == Running ==> Inv(Run(Armed(sel), acts))
  {
    ArmedInv(sel);
    RunKeeps(Armed(sel), acts);
  }

  /** The I/O-fault exit needs the elapsed grace, no LEFT of the bound stick, and a
      presence check that did not find it absent. */
  lemma FaultNeedsElapsedGrace(sel: S.Sel, acts: seq<Action>, a: Answers)
    requires StartDone(sel)
    ensures var p := Run(Armed(sel), acts);
            var p1 := Tick(p, a);
            p.exit == Running && p1.exit in {IoFault, PresenceUnknown} ==>
              && p.state in {Ready, Pending} && p.lossFlag
              && p1.sel.ears.clock >= p.hal.stampedAt + GRACE_MS
              && p1.mon.leftBound != Left
              && (if a.presence == Present then p1.exit == IoFault
                  else a.presence == ListUnreadable && p1.exit == PresenceUnknown)
  {
    ReachedFromArmed(sel, acts);
    var p := Run(Armed(sel), acts);
    if p.exit == Running && p.state == Unplugged {
      UnpluggedKeeps(p.(mon := Dispatch(p.mon, p.sel.usb.bound.Some?, a)), a);
    }
  }

  /** READY again only through a re-init on a new HAL; a loss that HAL has latched
      meanwhile keeps its own stamp and is classified next, never declared back. */
  lemma BackOnlyAfterReinit(sel: S.Sel, acts: seq<Action>, a: Answers)
    requires StartDone(sel)
    ensures var p := Run(Armed(sel), acts);
            var p1 := Tick(p, a);
            p.exit == Running && p.state == Unplugged && p1.state == Ready ==>
              && a.reinit.Done? && p1.hal.id == p.hal.id + 1
              && (p1.lossFlag ==> p1.health == HealthUnplugged && p1.lossMs >= p.sel.ears.clock)
              && (p1.health == HealthReady <==> p1.hal.loss in {NotLost, Latched})
  {
    ReachedFromArmed(sel, acts);
    var p := Run(Armed(sel), acts);
    if p.exit == Running && p.state == Unplugged {
      UnpluggedKeeps(p.(mon := Dispatch(p.mon, p.sel.usb.bound.Some?, a)), a);
    }
  }

  /** No lost wake-up, end to end: whenever a run comes to rest unplugged, with no selection
      running and no retry due, the last snapshot has seen every change taken so far. */
  lemma AtRestNothingForgotten(sel: S.Sel, acts: seq<Action>)
    requires StartDone(sel)
    ensures var p := Run(Armed(sel), acts);
            p.exit == Running && ReopenIdle(p) && p.sel.retryAt == 0
            && p.sel.ears.changes - p.sel.shot.changes < S.COUNTER_WRAP
            ==> p.sel.ears.changes == p.sel.shot.changes
  {
    ReachedFromArmed(sel, acts);
    var p := Run(Armed(sel), acts);
    if p.exit == Running && ReopenIdle(p) && p.sel.retryAt == 0 {
      Safety.SameCountNear(p.sel.shot.changes, p.sel.ears.changes);
    }
  }

  /** What the selection has heard once a tick has passed on its notes. */
  function Noted(p: Plug, a: Answers): S.Ears {
    S.NoteLefts(S.NoteArrivals(p.sel.ears, p.mon.arrivals + a.arrivals), p.mon.lefts + a.lefts)
  }

  lemma NotesTaken(p: Plug, a: Answers)
    ensures var p1 := p.(mon := Dispatch(p.mon, p.sel.usb.bound.Some?, a));
            TakeNotes(p1) == p1.(sel := p.sel.(ears := Noted(p, a)), mon := p1.mon.(arrivals := 0, lefts := 0))
  {
  }

  /** ... and the next ARRIVED, or LEFT of another stick, begins a selection in the
      same tick, with that change noted for what it is. */
  lemma ChangeWakesSelection(sel: S.Sel, acts: seq<Action>, a: Answers)
    requires StartDone(sel)
    ensures var p := Run(Armed(sel), acts);
            p.exit == Running && ReopenIdle(p) && p.mon.arrivals + a.arrivals + p.mon.lefts + a.lefts > 0 ==>
              exists q :: Tick(p, a) == SelectionStep(q, a.reinit) && q.reopening && q.sel.phase == S.Idle
                && q.sel.ears == Noted(p, a)
                && q.sel.ears.changes == p.sel.ears.changes + p.mon.arrivals + a.arrivals + p.mon.lefts + a.lefts
  {
    ReachedFromArmed(sel, acts);
    var p := Run(Armed(sel), acts);
    if p.exit == Running && ReopenIdle(p) && p.mon.arrivals + a.arrivals + p.mon.lefts + a.lefts > 0 {
      WokenTick(p, a);
    }
  }

  /** Nothing noted and nothing new: what a tick at rest does then depends on the retry time
      alone. A selection begins once the clock has reached it, and not before; without one
      the tick changes nothing. */
  lemma DueRetryBegins(sel: S.Sel, acts: seq<Action>, a: Answers)
    requires StartDone(sel)
    ensures var p := Run(Armed(sel), acts);
            p.exit == Running && ReopenIdle(p) && p.mon.arrivals + a.arrivals + p.mon.lefts + a.lefts == 0 ==>
              if p.sel.retryAt != 0 && S.Now(p.sel).0 >= p.sel.retryAt then
                exists q :: Tick(p, a) == SelectionStep(q, a.reinit) && q.reopening && q.sel.phase == S.Idle && !q.sel.atStart
                  && q.sel.identity == p.sel.identity && q.sel.ears.changes == p.sel.ears.changes
              else Tick(p, a) == p.(sel := p.sel.(ears := Tick(p, a).sel.ears), mon := Tick(p, a).mon)
  {
    ReachedFromArmed(sel, acts);
    var p := Run(Armed(sel), acts);
    if p.exit == Running && ReopenIdle(p) && p.mon.arrivals + a.arrivals + p.mon.lefts + a.lefts == 0 {
      DueTick(p, a);
    }
  }

  lemma DueTick(p: Plug, a: Answers)
    requires Inv(p) && ReopenIdle(p) && p.mon.arrivals + a.arrivals + p.mon.lefts + a.lefts == 0
    ensures if p.sel.retryAt != 0 && S.Now(p.sel).0 >= p.sel.retryAt then
              exists q :: Tick(p, a) == SelectionStep(q, a.reinit) && q.reopening && q.sel.phase == S.Idle && !q.sel.atStart
                && q.sel.identity == p.sel.identity && q.sel.ears.changes == p.sel.ears.changes
            else Tick(p, a) == p.(sel := p.sel.(ears := Tick(p, a).sel.ears), mon := Tick(p, a).mon)
  {
    var p1 := p.(mon := Dispatch(p.mon, p.sel.usb.bound.Some?, a));
    if p.sel.retryAt != 0 && S.Now(p.sel).0 >= p.sel.retryAt {
      var p2 := TakeNotes(p1).(sel := S.Now(p.sel).1);
      assert Tick(p, a) == SelectionStep(Begun(p2), a.reinit);
    }
  }

  lemma WokenTick(p: Plug, a: Answers)
    requires Inv(p) && ReopenIdle(p) && p.mon.arrivals + a.arrivals + p.mon.lefts + a.lefts > 0
    ensures exists q :: Tick(p, a) == SelectionStep(q, a.reinit) && q.reopening && q.sel.phase == S.Idle
              && q.sel.ears == Noted(p, a)
              && q.sel.ears.changes == p.sel.ears.changes + p.mon.arrivals + a.arrivals + p.mon.lefts + a.lefts
  {
    var p1 := p.(mon := Dispatch(p.mon, p.sel.usb.bound.Some?, a));
    TakeNotesKeeps(p1);
    var q := Begun(TakeNotes(p1));
    NotesTaken(p, a);
    assert Tick(p, a) == SelectionStep(q, a.reinit);
  }
}
