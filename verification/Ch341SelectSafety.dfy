/**
 * Safety of the Meshstick selection over every run: no stale commit, no lost
 * wake-up, no leaked handle, one identity for life.
 */
module Ch341SelectSafety {
  import opened Prelude
  import opened Ch341Select

  // ---- invariants --------------------------------------------------------------------

  /** `id` is a stick the remembered identity stands for. */
  predicate Stands(identity: Identity, id: Item) {
    match identity
    case AnyStick => false
    case BySerial(serial) => id.state == HasSerial && First8(id.serial) == First8(serial)
    case ByPort(port) => id.state == NoSerial && id.port == port
  }

  ghost predicate Base(s: Sel) {
    && s.ears.clock >= 1
    && s.shot.changes <= s.ears.changes
    && s.shot.index <= |s.shot.items|
    && Stamped(s.access)
    && (forall d | d in s.usb.open :: d < s.usb.nextDev)
    && (forall id | id in s.usb.handed :: Stands(s.identity, id))
  }

  predicate Closed(s: Sel) {
    s.walk.held == [] && s.usb.open == {}
  }

  /** During a walk exactly the held sticks are open, one per attempt so far, and
      there are never more attempts than sticks in the snapshot. */
  ghost predicate Walking(s: Sel) {
    && s.ruleB
    && s.usb.open == SetOf(s.walk.held)
    && |s.walk.held| == s.walk.attempts == s.walk.opens
    && s.walk.attempts <= s.walk.snap <= |s.shot.items|
  }

  ghost predicate Inv(s: Sel) {
    && Base(s)
    && (if s.phase == Walk then Walking(s) else Closed(s))
    && (s.usb.scanning <==> (s.phase == Scan || s.phase == Open || s.phase == Walk))
  }

  lemma InitInv(env: Env, clock: nat, selector: string)
    requires clock >= 1
    ensures Inv(Init(env, clock, selector))
  {
  }

  /** What a fresh selection looks for and what a shutdown leaves: without --usb-serial any
      stick; nothing open, nothing waited for, nothing noted. */
  lemma FreshAndCancelled(env: Env, clock: nat, selector: string, s: Sel)
    ensures var s0 := Init(env, clock, selector);
            && s0.identity == (if selector == "" then AnyStick else BySerial(First8(selector)))
            && s0.phase == Idle && s0.access == map[] && s0.walk.end == 0 && s0.ears.changes == s0.shot.changes == 0
            && s0.ears.burstFirst == s0.ears.burstLast == s0.ears.capFirst == 0 && s0.usb.handed == []
    ensures Cancel(s).phase == Idle && Cancel(s).access == map[] && Cancel(s).walk.held == []
    ensures Inv(s) ==> Cancel(s).usb.open == {} && !Cancel(s).usb.scanning
  {
  }

  predicate SameAt(a: string, b: string, i: nat) {
    (i < |a| <==> i < |b|) && (i < |a| && i < |b| ==> a[i] == b[i])
  }

  /** Two serials are the same exactly when their first eight characters are. */
  lemma SameSerial(a: string, b: string)
    ensures First8(a) == First8(b) <==> forall i: nat | i < 8 :: SameAt(a, b, i)
  {
    var x, y := First8(a), First8(b);
    if forall i: nat | i < 8 :: SameAt(a, b, i) {
      var n := Min(|x|, |y|);
      if n < 8 { assert SameAt(a, b, n); }
      forall i | 0 <= i < |x| ensures x[i] == y[i] { assert SameAt(a, b, i); }
    }
    if x == y {
      forall i: nat | i < 8 ensures SameAt(a, b, i) {
        assert i < |a| ==> i < |x| && x[i] == a[i];
        assert i < |b| ==> i < |y| && y[i] == b[i];
      }
    }
  }

  // ---- listening to the bus ------------------------------------------------------------

  /** Listening never loses a change and never turns the clock back. */
  ghost predicate Later(e: Ears, e1: Ears) {
    e1.env == e.env && e.changes <= e1.changes && e.clock <= e1.clock && e.calls <= e1.calls
  }

  lemma {:induction false} NotesListen(e: Ears, arrivals: nat, lefts: nat)
    ensures Later(e, NoteLefts(NoteArrivals(e, arrivals), lefts))
    ensures NoteLefts(NoteArrivals(e, arrivals), lefts).changes == e.changes + arrivals + lefts
  {
    if lefts > 0 {
      NotesListen(e, arrivals, lefts - 1);
    } else if arrivals > 0 {
      NotesListen(e, arrivals - 1, 0);
    }
  }

  /** Every ARRIVED and every LEFT taken counts as one change. */
  lemma TakeEventsCounts(e: Ears)
    ensures Later(e, TakeEvents(e))
    ensures TakeEvents(e).changes == e.changes + e.env.events(e.calls).0 + e.env.events(e.calls).1
  {
    NotesListen(Tick(e), e.env.events(e.calls).0, e.env.events(e.calls).1);
  }

  /** Reading the clock and taking events changes nothing but the ears. */
  ghost predicate Listened(s: Sel, s1: Sel) {
    s1 == s.(ears := s1.ears) && Later(s.ears, s1.ears)
  }

  lemma StaleNowListens(s: Sel)
    ensures Listened(s, StaleNow(s).1)
    ensures StaleNow(s).0 == IsStale(s) == IsStale(StaleNow(s).1)
  {
  }

  lemma WindowStaleListens(s: Sel)
    ensures Listened(s, WindowStale(s).1)
    ensures WindowStale(s).0 == IsStale(WindowStale(s).1)
  {
    TakeEventsCounts(s.ears);
  }

  // ---- answers ----------------------------------------------------------------------------

  /** A WAIT or a REFUSED: nothing open, nothing scanned, and no change forgotten. */
  ghost predicate Answer(s: Sel, a: (Result, Sel)) {
    && Base(a.1) && Closed(a.1)
    && a.1.phase == Idle && !a.1.usb.scanning
    && (a.0.Wait? || (a.0.Refused? && a.1.atStart && !IsStale(a.1)))
    && (a.0.Wait? && a.1.retryAt == 0 ==> Unchanged(a.1))
    && a.1.identity == s.identity && a.1.atStart == s.atStart && a.1.usb.handed == s.usb.handed
    && Later(s.ears, a.1.ears)
    && (s.usb.bound.None? ==> a.1.usb.bound.None?)
  }

  lemma WaitNowAnswers(s: Sel)
    requires Base(s) && Closed(s)
    ensures Answer(s, WaitNow(s))
  {
  }

  lemma RefuseAnswers(s: Sel, why: Reason)
    requires Base(s) && Closed(s)
    ensures Answer(s, Refuse(s, why))
  {
    var s1 := Now(s).1;
    if IsStale(s1) {
      assert SnapshotStale(s1).0;
    } else {
      assert SnapshotStale(s1) == (false, s1);
    }
  }

  lemma TransientAnswers(s: Sel, why: Reason)
    requires Base(s) && Closed(s)
    ensures Answer(s, Transient(s, why))
  {
    if s.atStart { RefuseAnswers(s, why); }
  }

  lemma BusyAnswers(s: Sel, retryMs: nat)
    requires Base(s) && Closed(s) && !IsStale(s)
    ensures Answer(s, Busy(s, retryMs))
  {
  }

  lemma AccessExpiredAnswers(s: Sel)
    requires Base(s) && Closed(s)
    ensures Answer(s, AccessExpired(s))
  {
    var (stale, s1) := StaleNow(s);
    if stale {
      WaitNowAnswers(s1.(ears := s1.ears.(accessHold := true)));
    } else {
      RefuseAnswers(s1.(access := map[]), NoPermission);
    }
  }

  lemma AccessWaitAnswers(s: Sel)
    requires Base(s) && Closed(s)
    ensures Answer(s, AccessWait(s))
  {
    var s1 := Now(s).1;
    if !IsStale(s1) {
      AccessExpiredAnswers(s1);
      FirstDeadlineIs(s1.access, false, 0);
    }
  }

  // ---- an opened stick ------------------------------------------------------------------------

  /** OPENED: exactly the returned stick leaves the selection, checked, bound, and
      on a snapshot that no taken change has overtaken, except for a Rule B walk on
      the final snapshot. */
  ghost predicate Commits(s: Sel, a: (Result, Sel)) {
    && a.0.Opened?
    && Base(a.1) && Closed(a.1)
    && Later(s.ears, a.1.ears)
    && a.1.phase == Done && !a.1.usb.scanning
    && a.1.usb.bound == Some(a.0.dev)
    && (Unchanged(a.1) || (a.1.ruleB && a.1.shot.final))
    && |a.1.usb.handed| == |s.usb.handed| + 1
    && s.usb.handed == a.1.usb.handed[..|s.usb.handed|]
    && (s.identity != AnyStick ==> a.1.identity == s.identity)
    && a.1.identity != AnyStick
  }

  lemma CheckedStands(identity: Identity, ruleB: bool, read: Option<Item>)
    requires PostOpenCheck(identity, ruleB, read).Good?
    ensures Stands(Commit(identity, PostOpenCheck(identity, ruleB, read).id), PostOpenCheck(identity, ruleB, read).id)
    ensures Commit(identity, PostOpenCheck(identity, ruleB, read).id) != AnyStick
    ensures identity != AnyStick ==> Commit(identity, PostOpenCheck(identity, ruleB, read).id) == identity
  {
  }

  lemma BindFailedGood(s: Sel, dev: nat)
    requires Base(s) && s.walk.held == [] && s.usb.open == {dev}
    ensures Answer(s, BindFailed(s, dev))
  {
    var s0 := CloseDev(Unbind(s), dev);
    assert s0.usb.open == {};
    WindowStaleListens(s0);
    var (stale, s1) := WindowStale(s0);
    if stale { WaitNowAnswers(s1); } else { TransientAnswers(s1, NotInDeviceList); }
  }

  lemma BoundGood(s: Sel, dev: nat)
    requires Base(s) && s.walk.held == [] && s.usb.open == {dev}
    ensures var s1 := CloseDev(Unbind(s), dev);
            Answer(s, WaitNow(s1)) && Answer(s, Refuse(s1, KeptArriving))
  {
    var s1 := CloseDev(Unbind(s), dev);
    assert s1.usb.open == {};
    WaitNowAnswers(s1);
    RefuseAnswers(s1, KeptArriving);
  }

  lemma HandOutGood(s: Sel, dev: nat, read: Option<Item>, ruleB: bool)
    requires Base(s) && s.walk.held == [] && s.usb.open == {dev} && s.usb.bound == Some(dev)
    requires Unchanged(s) || (s.ruleB && s.shot.final)
    requires PostOpenCheck(s.identity, ruleB, read).Good?
    ensures Commits(s, HandOut(s, dev, PostOpenCheck(s.identity, ruleB, read).id))
  {
    CheckedStands(s.identity, ruleB, read);
  }

  lemma BindAndCommitGood(s: Sel, dev: nat, read: Option<Item>)
    requires Base(s) && s.walk.held == [] && s.usb.open == {dev} && s.usb.bound.None?
    requires PostOpenCheck(s.identity, s.ruleB, read).Good?
    ensures var a := BindAndCommit(s, dev, PostOpenCheck(s.identity, s.ruleB, read).id);
            Answer(s, a) || (Commits(s, a) && a.0.dev == dev)
  {
    var (bindOk, s1) := BindDev(s, dev);
    if !bindOk {
      BindFailedGood(s1, dev);
    } else {
      WindowStaleListens(s1);
      var (stale, s2) := WindowStale(s1);
      var (gone, s3) := BoundLeft(s2);
      BoundGood(s3, dev);
      if !stale && !gone && (s3.ruleB || Unchanged(s3)) {
        HandOutGood(s3, dev, read, s.ruleB);
      }
    }
  }

  lemma OpenedDevGood(s: Sel, dev: nat)
    requires Base(s) && s.walk.held == [] && s.usb.open == {dev} && s.usb.bound.None?
    ensures var a := OpenedDev(s, dev); Answer(s, a) || (Commits(s, a) && a.0.dev == dev)
  {
    var (read, s1) := Identify(s, dev);
    WindowStaleListens(s1);
    var (stale, s2) := WindowStale(s1);
    var s3 := CloseDev(s2, dev);
    assert s3.usb.open == {};
    if stale {
      WaitNowAnswers(s3);
    } else if !s2.ruleB && !Unchanged(s2) {
      RefuseAnswers(s3, KeptArriving);
    } else {
      match PostOpenCheck(s1.identity, s1.ruleB, read)
      case ReadFailed => TransientAnswers(s3, IdentityUnreadable);
      case Bad(why) => RefuseAnswers(s3, why);
      case Good(id) => BindAndCommitGood(s2, dev, read);
    }
  }

  lemma OpenFailedGood(s: Sel, retryMs: nat)
    requires Base(s) && Closed(s)
    ensures Answer(s, OpenFailed(s, retryMs))
  {
    WindowStaleListens(s);
    var (stale, s1) := WindowStale(s);
    if stale { WaitNowAnswers(s1); } else { BusyAnswers(s1, retryMs); }
  }

  lemma TryOpenGood(s: Sel, serial: Option<string>)
    requires Base(s) && Closed(s) && s.usb.bound.None?
    ensures var (dev, s1) := OpenDev(s, serial);
            dev.Some? ==> var a := OpenedDev(s1, dev.value); Answer(s, a) || Commits(s, a)
    ensures var (dev, s1) := OpenDev(s, serial);
            dev.None? ==> Answer(s, OpenFailed(s1, BUSY_RETRY_MS))
  {
    var (dev, s1) := OpenDev(s, serial);
    if dev.None? {
      OpenFailedGood(s1, BUSY_RETRY_MS);
    } else {
      assert s1.usb.open == {dev.value};
      OpenedDevGood(s1, dev.value);
    }
  }

  lemma OpenStepGood(s: Sel)
    requires Inv(s) && s.phase == Open && s.usb.bound.None?
    ensures var a := OpenStep(s); Answer(s, a) || Commits(s, a)
  {
    StaleNowListens(s);
    var (stale, s1) := StaleNow(s);
    if stale {
      WaitNowAnswers(s1);
    } else if !Unchanged(s1) {
      RefuseAnswers(s1, KeptArriving);
    } else {
      TryOpenGood(s1, AskedFor(s1.identity));
    }
  }

  // ---- the walk ---------------------------------------------------------------------------------

  lemma EndWalkCloses(s: Sel)
    requires Base(s) && s.usb.open == SetOf(s.walk.held)
    ensures Base(EndWalk(s)) && Closed(EndWalk(s))
    ensures IsStale(EndWalk(s)) == IsStale(s)
  {
  }

  /** Still walking: one stick more is held, and the walk made one open more. */
  ghost predicate WalksOn(s: Sel, a: (Result, Sel)) {
    a.0.Pending? && a.1.phase == Walk && Inv(a.1) && a.1.walk.attempts == s.walk.attempts + 1
    && a.1.identity == s.identity && a.1.usb.handed == s.usb.handed && a.1.usb.bound == s.usb.bound
    && a.1.walk.snap == s.walk.snap && a.1.shot == s.shot && a.1.atStart == s.atStart && Later(s.ears, a.1.ears)
  }

  lemma WalkOpenedGood(s: Sel, dev: nat)
    requires Base(s) && s.phase == Walk && s.ruleB && s.usb.scanning && s.usb.bound.None?
    requires s.usb.open == SetOf(s.walk.held) + {dev} && dev !in s.walk.held
    requires |s.walk.held| + 1 == s.walk.attempts == s.walk.opens && s.walk.attempts <= s.walk.snap <= |s.shot.items|
    ensures var a := WalkOpened(s, dev);
            Answer(s, a) || Commits(s, a) || (a.0.Pending? && a.1.phase == Walk && Inv(a.1) && a.1.walk.attempts == s.walk.attempts
              && a.1.identity == s.identity && a.1.usb.handed == s.usb.handed && a.1.usb.bound == s.usb.bound && a.1.walk.snap == s.walk.snap
              && a.1.shot == s.shot && a.1.atStart == s.atStart && Later(s.ears, a.1.ears))
  {
    var (read, s1) := Identify(s, dev);
    WindowStaleListens(s1);
    var (stale, s2) := WindowStale(s1);
    if stale {
      var s3 := CloseDev(s2, dev);
      assert s3.usb.open == SetOf(s3.walk.held);
      EndWalkCloses(s3);
      WaitNowAnswers(EndWalk(s3));
    } else if read.None? || read.value.state != NoSerial {
      var s3 := s2.(walk := s2.walk.(held := s2.walk.held + [dev]));
      assert SetOf(s3.walk.held) == SetOf(s2.walk.held) + {dev};
    } else {
      var s3 := EndWalk(s2);
      assert s3.usb.open == {dev};
      OpenedDevGood(s3, dev);
    }
  }

  lemma AttemptGood(s: Sel)
    requires Inv(s) && s.phase == Walk && s.usb.bound.None? && s.walk.attempts < s.walk.snap
    ensures var a := WalkAttempt(s); Answer(s, a) || Commits(s, a) || WalksOn(s, a)
  {
    var (dev, s1) := OpenDev(Attempt(s), None);
    if dev.None? {
      EndWalkCloses(s1);
      OpenFailedGood(EndWalk(s1), WALK_GAP_MS);
    } else {
      assert forall d | d in s.walk.held :: d in s.usb.open;
      WalkOpenedGood(s1, dev.value);
    }
  }

  lemma WalkStepGood(s: Sel)
    requires Inv(s) && s.phase == Walk && s.usb.bound.None?
    ensures var a := WalkStep(s); Answer(s, a) || Commits(s, a) || WalksOn(s, a)
  {
    StaleNowListens(s);
    var (stale, s1) := StaleNow(s);
    EndWalkCloses(s1);
    if stale {
      WaitNowAnswers(EndWalk(s1));
    } else if s1.walk.attempts >= s1.walk.snap {
      BusyAnswers(EndWalk(s1), WALK_GAP_MS);
    } else {
      AttemptGood(s1);
    }
  }

  // ---- the scan and its decision --------------------------------------------------------------------

  lemma {:induction false} TallyBounds(identity: Identity, items: seq<Item>)
    ensures var t := TallyItems(identity, items);
            t.match_ <= t.present && t.unknown <= t.present && t.unopened <= t.unknown
            && t.noSerial <= t.present <= |items|
  {
    if items != [] {
      TallyBounds(identity, items[..|items| - 1]);
    }
  }

  /** The scan goes on, or its decision opens or starts a walk: nothing is open yet. */
  ghost predicate ScansOn(s: Sel, a: (Result, Sel)) {
    && a.0.Pending? && Inv(a.1)
    && a.1.phase in {Scan, Open, Walk}
    && a.1.identity == s.identity && a.1.usb.handed == s.usb.handed && a.1.usb.bound == s.usb.bound
    && a.1.atStart == s.atStart && Later(s.ears, a.1.ears)
  }

  lemma DecideGood(s: Sel)
    requires Inv(s) && s.phase == Scan && s.usb.bound.None?
    ensures Answer(s, Decide(s)) || ScansOn(s, Decide(s))
  {
    var s0 := s.(ears := s.ears.(accessHold := false), access := StillUnresolved(s.access));
    assert Stamped(s0.access);
    DecideInnerGood(s0);
    DropDeadlinesKeeps(s0, DecideInner(s0));
  }

  lemma DecideInnerGood(s: Sel)
    requires Inv(s) && s.phase == Scan && s.usb.bound.None?
    ensures Answer(s, DecideInner(s)) || ScansOn(s, DecideInner(s))
  {
    var s0 := s.(ruleB := false);
    var t := TallyItems(s.identity, s.shot.items);
    if s.identity.BySerial? {
      DecideSerialGood(s0, t);
    } else if t.present == 0 {
      RefuseAnswers(s0, NoneAttached);
    } else if t.present == 1 {
      if t.unopened > 0 { AccessWaitAnswers(s0); }
    } else if t.noSerial > 1 {
      RefuseAnswers(s0, SeveralWithoutSerial);
    } else if t.unopened > 0 {
      AccessWaitAnswers(s0);
    } else if t.noSerial == 0 {
      RefuseAnswers(s0, SeveralSticks);
    } else {
      TallyBounds(s0.identity, s0.shot.items);
      StartWalkGood(s0, t.present);
    }
  }

  lemma DropDeadlinesKeeps(s: Sel, a: (Result, Sel))
    requires Answer(s, a) || ScansOn(s, a)
    ensures var b := (a.0, a.1.(access := map[])); Answer(s, b) || ScansOn(s, b)
  {
  }

  lemma DecideSerialGood(s: Sel, t: Tally)
    requires Inv(s) && s.phase == Scan && s.usb.bound.None?
    ensures Answer(s, DecideSerial(s, t)) || ScansOn(s, DecideSerial(s, t))
  {
    if t.match_ > 1 {
      RefuseAnswers(s, NotUnique);
    } else if t.match_ == 1 && t.unknown == 0 {
    } else if t.unknown > 0 {
      AccessWaitAnswers(s);
    } else {
      RefuseAnswers(s, NoMatch);
    }
  }

  lemma StartWalkGood(s: Sel, present: nat)
    requires Inv(s) && s.phase == Scan && s.usb.bound.None? && present <= |s.shot.items|
    ensures Answer(s, StartWalk(s, present)) || ScansOn(s, StartWalk(s, present))
  {
    var s1 := Now(s).1;
    assert SetOf([]) == {};
  }

  lemma ScanItemGood(s: Sel)
    requires Inv(s) && s.phase == Scan && s.shot.index < |s.shot.items|
    ensures ScansOn(s, ScanItem(s)) && ScanItem(s).1.phase == Scan
  {
    var a, it := ScanItem(s), s.ears.env.scanStep(s.ears.calls, s.shot.index);
    assert Stamped(a.1.access) by {
      if !ItemUnknown(s.identity, it) {
      } else if KeyOf(it) in s.access {
      } else {
        assert a.1.access[KeyOf(it)].at == a.1.ears.clock + ACCESS_MS;
      }
    }
    assert a.1.usb == s.usb && a.1.walk == s.walk && a.1.identity == s.identity;
  }

  lemma ScanStepGood(s: Sel)
    requires Inv(s) && s.phase == Scan && s.usb.bound.None?
    ensures Answer(s, ScanStep(s)) || ScansOn(s, ScanStep(s))
  {
    if s.shot.index < |s.shot.items| {
      var s1 := Now(s).1;
      if FirstDeadline(s.access, true) == 0 {
        ScanItemGood(s);
      } else if Now(s).0 >= FirstDeadline(s.access, true) {
        AccessExpiredAnswers(s1);
      } else {
        ScanItemGood(s1);
      }
    } else {
      DecideGood(s);
    }
  }

  lemma ScanBeginGood(s: Sel)
    requires Inv(s) && s.phase in {Idle, Done} && s.usb.bound.None?
    ensures Answer(s, ScanBegin(s)) || ScansOn(s, ScanBegin(s))
  {
    var s1 := ScanEnd(Called(s)).(shot := s.shot.(changes := s.ears.changes));
    TransientAnswers(s1, ListUnreadable);
  }

  // ---- every step -----------------------------------------------------------------------------------------

  /** One step from a reachable state: it answers, commits, or goes on; and what it
      reaches is reachable. */
  lemma StepKeepsInv(s: Sel)
    requires Inv(s) && s.usb.bound.None?
    ensures Inv(Step(s).1)
    ensures Answer(s, Step(s)) || Commits(s, Step(s))
            || (Step(s).0.Pending? && Step(s).1.phase in {Scan, Open, Walk} && Step(s).1.usb.handed == s.usb.handed
                && Step(s).1.identity == s.identity && Step(s).1.usb.bound == s.usb.bound
                && Step(s).1.atStart == s.atStart)
    ensures Later(s.ears, Step(s).1.ears)
  {
    match s.phase
    case Idle => ScanBeginGood(s);
    case Done => ScanBeginGood(s);
    case Scan => ScanStepGood(s);
    case Open => OpenStepGood(s);
    case Walk => WalkStepGood(s);
  }

  // ---- whole runs -------------------------------------------------------------------------------------------

  /** What happens to a selection: a step, a new selection, a change taken between
      steps, the shutdown, and the teardown of a lost stick (its binding ends). */
  datatype Action = StepOnce | BeginSelection(atStart: bool) | ArrivalTaken | LeftTaken | Shutdown | TornDown

  ghost function Act(s: Sel, a: Action): Sel {
    match a
    case StepOnce => Step(s).1
    case BeginSelection(atStart) => Begin(s, atStart)
    case ArrivalTaken => s.(ears := NoteArrival(s.ears))
    case LeftTaken => s.(ears := NoteLeft(s.ears))
    case Shutdown => Cancel(s)
    case TornDown => Unbind(s)
  }

  /** The callers' side: a step runs only while no stick is bound, a selection is
      begun only after a conclusive step. */
  predicate Allowed(s: Sel, a: Action) {
    match a
    case StepOnce => s.usb.bound.None?
    case BeginSelection(_) => s.phase == Idle || s.phase == Done
    case _ => true
  }

  ghost function RunAll(s: Sel, acts: seq<Action>): Sel {
    if acts == [] then s else Act(RunAll(s, acts[..|acts| - 1]), acts[|acts| - 1])
  }

  ghost predicate Legal(s: Sel, acts: seq<Action>) {
    acts == [] || (Legal(s, acts[..|acts| - 1]) && Allowed(RunAll(s, acts[..|acts| - 1]), acts[|acts| - 1]))
  }

  lemma ActKeepsInv(s: Sel, a: Action)
    requires Inv(s) && Allowed(s, a)
    ensures Inv(Act(s, a))
    ensures s.identity != AnyStick ==> Act(s, a).identity == s.identity
  {
    match a
    case StepOnce => StepKeepsInv(s);
    case BeginSelection(_) =>
    case ArrivalTaken =>
    case LeftTaken =>
    case Shutdown =>
    case TornDown =>
  }

  lemma {:induction false} RunKeepsInv(s: Sel, acts: seq<Action>)
    requires Inv(s) && Legal(s, acts)
    ensures Inv(RunAll(s, acts))
    ensures s.identity != AnyStick ==> RunAll(s, acts).identity == s.identity
  {
    if acts != [] {
      RunKeepsInv(s, acts[..|acts| - 1]);
      ActKeepsInv(RunAll(s, acts[..|acts| - 1]), acts[|acts| - 1]);
    }
  }

  /** A state some legal run from a fresh selection reaches. */
  ghost predicate ReachedBy(env: Env, clock: nat, selector: string, acts: seq<Action>, s: Sel) {
    && clock >= 1
    && Legal(Init(env, clock, selector), acts)
    && s == RunAll(Init(env, clock, selector), acts)
  }

  lemma ReachedInv(env: Env, clock: nat, selector: string, acts: seq<Action>, s: Sel)
    requires ReachedBy(env, clock, selector, acts, s)
    ensures Inv(s)
    ensures selector != "" ==> s.identity == BySerial(First8(selector))
  {
    InitInv(env, clock, selector);
    RunKeepsInv(Init(env, clock, selector), acts);
  }

  // ---- the theorems -----------------------------------------------------------------------------------------

  /** No stale commit: in every run, an OPENED answers the bus as it was when its
      snapshot began, with every change taken since then accounted for; only a Rule
      B walk on the final snapshot past the cap may open in spite of a change. */
  lemma NoStaleCommit(env: Env, clock: nat, selector: string, acts: seq<Action>, s: Sel)
    requires ReachedBy(env, clock, selector, acts, s) && s.usb.bound.None?
    ensures var (r, s1) := Step(s);
            r.Opened? ==>
              && (SameCount(s1.ears.changes, s1.shot.changes) || (s1.ruleB && s1.shot.final))
              && (!(s1.ruleB && s1.shot.final) && s1.ears.changes - s1.shot.changes < COUNTER_WRAP
                  ==> s1.ears.changes == s1.shot.changes)
  {
    ReachedInv(env, clock, selector, acts, s);
    StepKeepsInv(s);
    SameCountNear(Step(s).1.shot.changes, Step(s).1.ears.changes);
  }

  lemma SameCountNear(a: nat, b: nat)
    requires a <= b
    ensures SameCount(b, a) && b - a < COUNTER_WRAP ==> a == b
  {
  }

  /** No lost wake-up: a WAIT that sets no retry time has forgotten no change, so
      whatever the bus does next is still to be taken and starts a new selection. */
  lemma NoLostWakeUp(env: Env, clock: nat, selector: string, acts: seq<Action>, s: Sel)
    requires ReachedBy(env, clock, selector, acts, s) && s.usb.bound.None?
    ensures var (r, s1) := Step(s);
            r.Wait? && s1.retryAt == 0 && s1.ears.changes - s1.shot.changes < COUNTER_WRAP
            ==> s1.ears.changes == s1.shot.changes
  {
    ReachedInv(env, clock, selector, acts, s);
    StepKeepsInv(s);
    SameCountNear(Step(s).1.shot.changes, Step(s).1.ears.changes);
  }

  /** A refusal ends the start: it too stands on a snapshot no change has overtaken,
      unless that snapshot was the final one. */
  lemma NoStaleRefusal(env: Env, clock: nat, selector: string, acts: seq<Action>, s: Sel)
    requires ReachedBy(env, clock, selector, acts, s) && s.usb.bound.None?
    ensures Step(s).0.Refused? ==> Step(s).1.atStart && (Unchanged(Step(s).1) || Step(s).1.shot.final)
  {
    ReachedInv(env, clock, selector, acts, s);
    StepKeepsInv(s);
  }

  /** Handles: after a WAIT or a REFUSED none is open; an OPENED hands out exactly
      one, bound, and keeps none; in between only a walk holds any, at most one per
      stick of its snapshot. */
  lemma NoLeakedHandle(env: Env, clock: nat, selector: string, acts: seq<Action>, s: Sel)
    requires ReachedBy(env, clock, selector, acts, s) && s.usb.bound.None?
    ensures !Step(s).0.Pending? ==> Step(s).1.usb.open == {} && Step(s).1.walk.held == [] && !Step(s).1.usb.scanning
    ensures Step(s).0.Opened? ==> Step(s).1.usb.bound == Some(Step(s).0.dev)
    ensures Step(s).0.Wait? || Step(s).0.Refused? ==> Step(s).1.usb.bound.None?
    ensures var s1 := Step(s).1;
            s1.phase == Walk ==> s1.usb.open == SetOf(s1.walk.held) && s1.walk.opens <= s1.walk.snap <= |s1.shot.items|
  {
    ReachedInv(env, clock, selector, acts, s);
    StepKeepsInv(s);
  }

  /** A walk opens no stick with a serial, whatever it read before. */
  lemma WalkOpensWithoutSerial(s: Sel, dev: nat)
    requires s.ruleB
    ensures var (r, s1) := OpenedDev(s, dev);
            r.Opened? ==> |s1.usb.handed| == |s.usb.handed| + 1 && s1.usb.handed[|s.usb.handed|].state == NoSerial
  {
    var s1 := Identify(s, dev).1;
    WindowStaleListens(s1);
    var s2 := WindowStale(s1).1;
    WindowStaleListens(BindDev(s2, dev).1);
  }

  predicate SameStick(a: Item, b: Item) {
    || (a.state == HasSerial && b.state == HasSerial && First8(a.serial) == First8(b.serial))
    || (a.state == NoSerial && b.state == NoSerial && a.port == b.port)
  }

  /** One identity for life: over any run all sticks ever handed out are the same
      stick by its serial, or by its port without one; with --usb-serial, that one. */
  lemma OneIdentityForLife(env: Env, clock: nat, selector: string, acts: seq<Action>, s: Sel)
    requires ReachedBy(env, clock, selector, acts, s)
    ensures forall a, b | a in s.usb.handed && b in s.usb.handed :: SameStick(a, b)
    ensures selector != "" ==>
              forall a | a in s.usb.handed :: a.state == HasSerial && First8(a.serial) == First8(selector)
  {
    ReachedInv(env, clock, selector, acts, s);
    forall a, b | a in s.usb.handed && b in s.usb.handed
      ensures SameStick(a, b)
    {
      assert Stands(s.identity, a) && Stands(s.identity, b);
    }
  }
}
