/**
 * What unplug-wait does when it can: over any run from the armed state, each situation of a
 * loss has its one outcome.
 */
module UsbWaitProgress {
  import opened UsbWait
  import opened UsbWaitSafety
  import S = Ch341Select

  /** A state some run from the armed state is in. */
  ghost predicate Reached(sel: S.Sel, acts: seq<Action>, p: Plug) {
    StartDone(sel) && p == Run(Armed(sel), acts) && p.exit == Running
  }

  lemma ReachedInv(sel: S.Sel, acts: seq<Action>, p: Plug)
    requires Reached(sel, acts, p)
    ensures Inv(p)
  {
    ReachedFromArmed(sel, acts);
  }

  // ---- the report ------------------------------------------------------------------------------

  /** A failure of a live HAL is reported in full by its own three steps: health down, the
      time of the failure, the flag. */
  lemma FailureIsReported(sel: S.Sel, acts: seq<Action>, p: Plug)
    requires Reached(sel, acts, p) && p.hal.live && p.hal.loss == NotLost
    ensures var q := ReportStep(ReportStep(ReportStep(HalFails(p))));
            && q.lossFlag && q.health == HealthUnplugged && q.lossMs == q.hal.stampedAt == S.Now(p.sel).0
            && q.state == p.state && ReportStep(q) == q && HalFails(q) == q
  {
    ReachedInv(sel, acts, p);
  }

  // ---- what is known of no stick -----------------------------------------------------------------

  /** While no stick is bound none is known to have left. */
  lemma {:induction false} UnboundKnowsNoLeft(sel: S.Sel, acts: seq<Action>)
    requires StartDone(sel)
    ensures var p := Run(Armed(sel), acts);
            p.exit == Running && p.state == Unplugged && !p.reinitPending ==> p.mon.leftBound == NoLeft
  {
    if acts != [] {
      var front, act := acts[..|acts| - 1], acts[|acts| - 1];
      UnboundKnowsNoLeft(sel, front);
      ReachedFromArmed(sel, front);
      var p := Run(Armed(sel), front);
      if p.exit == Running { ActKeepsLeftMark(p, act); }
    }
  }

  predicate MarkOk(p: Plug) {
    p.exit == Running && p.state == Unplugged && !p.reinitPending ==> p.mon.leftBound == NoLeft
  }

  lemma ActKeepsLeftMark(p: Plug, act: Action)
    requires Inv(p) && MarkOk(p)
    ensures MarkOk(Act(p, act))
  {
    match act
    case TickOnce(a) =>
      if p.state == Unplugged && !p.reinitPending {
        var p1 := p.(mon := Dispatch(p.mon, p.sel.usb.bound.Some?, a));
        assert p1.mon.leftBound == NoLeft;
        UnpluggedKeepsMark(p1, a);
      } else if p.state == Unplugged {
        ReinitIs(p.(mon := Dispatch(p.mon, p.sel.usb.bound.Some?, a)), a.reinit);
      }
    case _ =>
  }

  lemma UnpluggedKeepsMark(p: Plug, a: Answers)
    requires p.mon.leftBound == NoLeft && p.state == Unplugged
    ensures TickUnplugged(p, a).mon.leftBound == NoLeft
  {
    forall q: Plug | q.mon.leftBound == NoLeft ensures SelectionStep(q, a.reinit).mon.leftBound == NoLeft {
      NotesStay(q.(sel := S.Step(q.sel).1, reopening := false, reinitPending := true), a.reinit);
    }
    NotesStay(p, a.reinit);
  }

  // ---- up, and lost ----------------------------------------------------------------------------

  /** The bound stick's LEFT is known in this tick. */
  predicate KnownGone(p: Plug, a: Answers) {
    p.mon.leftBound == Left || a.left == Left
  }

  /** While the stick is up a tick changes nothing, but drops the notes of other sticks unless
      the bound one's LEFT is known. */
  lemma UpStaysUp(sel: S.Sel, acts: seq<Action>, p: Plug, a: Answers)
    requires Reached(sel, acts, p) && p.state == Ready && !p.lossFlag
    ensures var q := Tick(p, a);
            && q == p.(mon := q.mon) && (q.mon.leftBound == Left <==> KnownGone(p, a))
            && (KnownGone(p, a) ==> q.mon.arrivals == p.mon.arrivals + a.arrivals && q.mon.lefts == p.mon.lefts + a.lefts)
            && (!KnownGone(p, a) ==> q.mon.arrivals == q.mon.lefts == 0)
  {
    ReachedInv(sel, acts, p);
  }

  /** A reported loss is settled: torn down once the bound stick's LEFT is known, or 500 ms
      after the failure if it is found absent; an I/O fault then if it is found present; the
      end too if it cannot be told; and until then it stays pending. */
  lemma LossIsSettled(sel: S.Sel, acts: seq<Action>, p: Plug, a: Answers)
    requires Reached(sel, acts, p) && p.state in {Ready, Pending} && p.lossFlag
    ensures var q := Tick(p, a);
            var late := !KnownGone(p, a) && S.Now(p.sel).0 >= p.hal.stampedAt + 500;
            && (q.state == Teardown <==> KnownGone(p, a) || (late && a.presence == Absent))
            && (q.exit == IoFault <==> late && a.presence == Present)
            && (q.exit == PresenceUnknown <==> late && a.presence == ListUnreadable)
            && (q.state == Pending <==> q.state != Teardown) && q.exit in {Running, IoFault, PresenceUnknown}
            && q.hal == p.hal && q.health == p.health && q.sel == p.sel.(ears := q.sel.ears)
  {
    ReachedInv(sel, acts, p);
  }

  /** A teardown is tried until it succeeds; then the HAL and its binding are gone, and the
      next tick begins a selection. */
  lemma TeardownIsDone(sel: S.Sel, acts: seq<Action>, p: Plug, a: Answers, a1: Answers)
    requires Reached(sel, acts, p) && p.state == Teardown
    ensures var q := Tick(p, a);
            && (!a.teardownOk ==> q == p.(mon := q.mon))
            && (a.teardownOk ==>
                  && q.state == Unplugged && !q.hal.live && q.hal.id == p.hal.id && q.sel.usb.bound.None?
                  && !q.lossFlag && q.lossMs == 0 && q.mon.leftBound == NoLeft && q.exit == Running
                  && exists b :: Tick(q, a1) == SelectionStep(b, a1.reinit) && b.reopening && b.sel.phase == S.Idle && !b.sel.atStart
                                 && b.sel.identity == p.sel.identity)
  {
    ReachedInv(sel, acts, p);
    if a.teardownOk {
      TickKeeps(p, a);
      var q := Tick(p, a);
      var p1 := TakeNotes(q.(mon := Dispatch(q.mon, q.sel.usb.bound.Some?, a1)));
      assert Tick(q, a1) == SelectionStep(Begun(p1), a1.reinit);
    }
  }

  // ---- the way back ------------------------------------------------------------------------------

  lemma {:induction false} ReportsLeave(p: Plug, n: nat)
    ensures var q := ReportSteps(p, n);
            && q.state == p.state && q.exit == p.exit && q.hal.id == p.hal.id && q.hal.live == p.hal.live
            && q.reinitPending == p.reinitPending && q.reopening == p.reopening
  {
    if n > 0 { ReportsLeave(p, n - 1); }
  }

  /** A latched loss after so many steps of its report. */
  lemma {:induction false} ReportsReach(p: Plug, n: nat)
    requires p.hal.loss == Latched && !p.lossFlag && p.health == HealthReady
    ensures var q := ReportSteps(p, n);
            && q.hal.loss == (match n case 0 => Latched case 1 => HealthDown case 2 => TimeStamped case _ => Flagged)
            && (n == 0 <==> q.health == HealthReady) && (n >= 3 <==> q.lossFlag)
  {
    if n > 0 { ReportsReach(p, n - 1); }
  }

  lemma ReinitIs(p: Plug, r: Reinit)
    requires p.exit == Running && p.state == Unplugged && p.reinitPending && !p.lossFlag
    ensures Reinitialised(p, r, ReinitStep(p, r)) && ReinitStep(p, r).reopening == p.reopening
  {
    if r.Done? && r.lossSteps > 0 {
      var p1 := HalFails(FreshHal(p.(reinitPending := false, state := Ready)));
      ReportsLeave(p1, r.lossSteps - 1);
      ReportsReach(p1, r.lossSteps - 1);
    }
  }

  /** A selection under way is stepped on with the notes taken first: it goes on while it is
      pending, a stick it opens is re-initialised in the same tick, and any other answer ends
      it. */
  lemma SelectionIsStepped(sel: S.Sel, acts: seq<Action>, p: Plug, a: Answers)
    requires Reached(sel, acts, p) && p.reopening
    ensures var (r, s1) := S.Step(p.sel.(ears := Noted(p, a)));
            var q := Tick(p, a);
            && q.mon.arrivals == q.mon.lefts == 0
            && (r.Pending? ==> q.reopening && q.sel == s1 && q.state == Unplugged)
            && (r.Wait? || r.Refused? ==> ReopenIdle(q) && q.sel == s1)
            && (r.Opened? ==> Reinitialised(p, a.reinit, q) && !q.reopening)
  {
    ReachedInv(sel, acts, p);
    NotesTaken(p, a);
    SteppedOn(p, a);
  }

  lemma SteppedOn(p: Plug, a: Answers)
    requires Inv(p) && p.reopening
    ensures var p1 := TakeNotes(p.(mon := Dispatch(p.mon, p.sel.usb.bound.Some?, a)));
            var (r, s1) := S.Step(p1.sel);
            var q := Tick(p, a);
            && q.mon.arrivals == q.mon.lefts == 0
            && (r.Pending? ==> q.reopening && q.sel == s1 && q.state == Unplugged)
            && (r.Wait? || r.Refused? ==> ReopenIdle(q) && q.sel == s1)
            && (r.Opened? ==> Reinitialised(p, a.reinit, q) && !q.reopening)
  {
    var p1 := TakeNotes(p.(mon := Dispatch(p.mon, p.sel.usb.bound.Some?, a)));
    var (r, s1) := S.Step(p1.sel);
    if r.Opened? {
      var p2 := p1.(sel := s1, reopening := false, reinitPending := true);
      ReinitIs(p2, a.reinit);
      NotesStay(p2, a.reinit);
    }
  }

  lemma NotesStay(p: Plug, r: Reinit)
    ensures ReinitStep(p, r).mon == p.mon
  {
    if r.Done? && r.lossSteps > 0 {
      ReportsLeaveNotes(HalFails(FreshHal(p.(reinitPending := false, state := Ready))), r.lossSteps - 1);
    }
  }

  lemma {:induction false} ReportsLeaveNotes(p: Plug, n: nat)
    ensures ReportSteps(p, n).mon == p.mon
  {
    if n > 0 { ReportsLeaveNotes(p, n - 1); }
  }

  /** What becomes of an opened stick: kept while the mutex is busy, READY under a new HAL, or
      the end. */
  ghost predicate Reinitialised(p: Plug, r: Reinit, q: Plug) {
    match r
    case MutexBusy => q.reinitPending && q.state == Unplugged && q.exit == Running && q.hal == p.hal
    case Failed => q.exit == ReinitFailed && q.health == HealthFailed
    case Done(n) => q.state == Ready && !q.reinitPending && q.exit == Running && q.hal.id == p.hal.id + 1 && q.hal.live
                    && q.hal.loss == (match n case 0 => NotLost case 1 => Latched case 2 => HealthDown case 3 => TimeStamped case _ => Flagged)
                    && (n <= 1 <==> q.health == HealthReady) && (n >= 4 <==> q.lossFlag)
  }

  /** A re-init that found the mutex busy is tried again in the next tick. */
  lemma ReinitIsRetried(sel: S.Sel, acts: seq<Action>, p: Plug, a: Answers)
    requires Reached(sel, acts, p) && p.reinitPending
    ensures Reinitialised(p, a.reinit, Tick(p, a))
    ensures a.reinit.MutexBusy? ==> Tick(p, a) == p.(mon := Tick(p, a).mon)
  {
    ReachedInv(sel, acts, p);
    ReinitIs(p.(mon := Dispatch(p.mon, p.sel.usb.bound.Some?, a)), a.reinit);
  }
}
