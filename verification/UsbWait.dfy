/**
 * Unplug-wait (daemon_usb_wait.cpp): the main loop's state machine over a lost
 * stick, interleaved with the loss report of any other thread.
 *
 * A loss report takes four atomic steps (the HAL's latch, health, the time stamp,
 * the flag) that any tick may fall between. The selection and its environment are
 * those of Ch341Select.
 */
module UsbWait {
  import S = Ch341Select

  const GRACE_MS: nat := 500

  datatype WaitState = Ready | Pending | Teardown | Unplugged
  datatype Health = HealthReady | HealthUnplugged | HealthFailed
  datatype Presence = Present | Absent | ListUnreadable
  datatype Exit = Running | IoFault | PresenceUnknown | ReinitFailed

  /** The monitor's pending notes; `Uncertain` stands for lost events while bound. */
  datatype LeftMark = NoLeft | Left | Uncertain
  datatype Monitor = Monitor(arrivals: nat, lefts: nat, leftBound: LeftMark)

  /** How far the HAL's loss report has come; a HAL reports once. */
  datatype LossStep = NotLost | Latched | HealthDown | TimeStamped | Flagged

  /** `hal` counts the HALs made so far; `live` while one exists. */
  datatype Hal = Hal(id: nat, live: bool, loss: LossStep, stampedAt: nat)

  datatype Plug = Plug(
    state: WaitState,
    deadline: nat,
    lossFlag: bool,
    lossMs: nat,
    reopening: bool,
    forceReopen: bool,
    reinitPending: bool,
    health: Health,
    mon: Monitor,
    hal: Hal,
    sel: S.Sel,
    exit: Exit)

  // ---- the loss report -----------------------------------------------------------------

  /** The HAL latches its first failure; later ones are refused silently. */
  function HalFails(p: Plug): Plug {
    if p.hal.live && p.hal.loss == NotLost then p.(hal := p.hal.(loss := Latched)) else p
  }

  /** The next atomic step of a report under way: health first, then the stamp
      (kept if one is there), then the flag. */
  function ReportStep(p: Plug): Plug {
    match p.hal.loss
    case Latched => p.(health := HealthUnplugged, hal := p.hal.(loss := HealthDown))
    case HealthDown =>
      var (now, sel) := S.Now(p.sel);
      var ms := if p.lossMs == 0 then now else p.lossMs;
      p.(sel := sel, lossMs := ms, hal := p.hal.(loss := TimeStamped, stampedAt := now))
    case TimeStamped => p.(lossFlag := true, hal := p.hal.(loss := Flagged))
    case _ => p
  }

  function ReportSteps(p: Plug, n: nat): Plug {
    if n == 0 then p else ReportStep(ReportSteps(p, n - 1))
  }

  // ---- the answers a tick gets -------------------------------------------------------------

  /** `Done(lossSteps)`: re-initialised and replayed; the new HAL may already have
      latched a loss (1) and come some way with its report (2, 3, 4 in all). */
  datatype Reinit = MutexBusy | Failed | Done(lossSteps: nat)

  datatype Answers = Answers(arrivals: nat, lefts: nat, left: LeftMark, presence: Presence, teardownOk: bool, reinit: Reinit)

  function Dispatch(m: Monitor, bound: bool, a: Answers): Monitor {
    Monitor(m.arrivals + a.arrivals, m.lefts + a.lefts,
            if !bound then m.leftBound
            else if a.left == Left then Left
            else if a.left == Uncertain && m.leftBound == NoLeft then Uncertain
            else m.leftBound)
  }

  // ---- one tick ------------------------------------------------------------------------------

  function TickPending(p: Plug, a: Answers): Plug {
    if p.mon.leftBound == Left then p.(state := Teardown)
    else
      var (now, sel) := S.Now(p.sel);
      var p1 := p.(sel := sel);
      if now < p.deadline then p1
      else match a.presence
        case Absent => p1.(state := Teardown)
        case ListUnreadable => p1.(exit := PresenceUnknown)
        case Present => p1.(exit := IoFault)
  }

  function TickReady(p: Plug, a: Answers): Plug {
    if !p.lossFlag then
      // An ARRIVED while the stick is up is another stick, unless the bound one left.
      if p.mon.leftBound == Left then p else p.(mon := p.mon.(arrivals := 0, lefts := 0))
    else TickPending(p.(deadline := p.lossMs + GRACE_MS, state := Pending), a)
  }

  /** `op_teardown_try` succeeded: the old HAL and its binding are gone, and its loss
      is retired. */
  function TearDown(p: Plug): Plug {
    p.(hal := p.hal.(live := false, loss := NotLost),
       mon := p.mon.(leftBound := NoLeft),
       sel := S.Unbind(p.sel),
       lossFlag := false,
       lossMs := 0,
       state := Unplugged,
       forceReopen := true)
  }

  function TakeNotes(p: Plug): Plug {
    p.(sel := p.sel.(ears := S.NoteLefts(S.NoteArrivals(p.sel.ears, p.mon.arrivals), p.mon.lefts)),
       mon := p.mon.(arrivals := 0, lefts := 0))
  }

  /** `op_reopen_due`, the clock being read only with a retry time set. */
  function ReopenDue(p: Plug): (bool, Plug) {
    if p.sel.retryAt == 0 then (false, p)
    else
      var (now, sel) := S.Now(p.sel);
      (now >= p.sel.retryAt, p.(sel := sel))
  }

  /** A new HAL, armed and operational; RADIO=READY until it reports a loss. */
  function FreshHal(p: Plug): Plug {
    p.(health := HealthReady, hal := Hal(p.hal.id + 1, true, NotLost, 0))
  }

  function ReinitStep(p: Plug, r: Reinit): Plug {
    match r
    case MutexBusy => p
    case Failed => p.(reinitPending := false, health := HealthFailed, exit := ReinitFailed)
    case Done(lossSteps) =>
      var p1 := FreshHal(p.(reinitPending := false, state := Ready));
      if lossSteps == 0 then p1 else ReportSteps(HalFails(p1), lossSteps - 1)
  }

  ghost function SelectionStep(p: Plug, r: Reinit): Plug {
    var (result, sel) := S.Step(p.sel);
    var p1 := p.(sel := sel);
    match result
    case Pending => p1
    case Opened(_) => ReinitStep(p1.(reopening := false, reinitPending := true), r)
    case _ => p1.(reopening := false)
  }

  ghost function TickUnplugged(p: Plug, a: Answers): Plug {
    if p.reinitPending then ReinitStep(p, a.reinit)
    else
      var arrival := p.mon.arrivals > 0 || p.mon.lefts > 0;
      var p1 := TakeNotes(p);
      if p1.reopening then SelectionStep(p1, a.reinit)
      else if arrival || p1.forceReopen then
        SelectionStep(p1.(forceReopen := false, sel := S.Begin(p1.sel, false), reopening := true), a.reinit)
      else
        var (due, p2) := ReopenDue(p1);
        if !due then p2
        else SelectionStep(p2.(forceReopen := false, sel := S.Begin(p2.sel, false), reopening := true), a.reinit)
  }

  ghost function Tick(p: Plug, a: Answers): Plug {
    var p1 := p.(mon := Dispatch(p.mon, p.sel.usb.bound.Some?, a));
    match p.state
    case Ready => TickReady(p1, a)
    case Pending => TickPending(p1, a)
    case Teardown => if a.teardownOk then TearDown(p1) else p1
    case Unplugged => TickUnplugged(p1, a)
  }
}
