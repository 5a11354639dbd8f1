/**
 * Time in the selection: the 2 s deadline of an unresolved connection never moves, and
 * stays as long as the scans report it unresolved and every decision waits.
 */
module Ch341SelectQuiet {
  import opened Prelude
  import opened Ch341Select
  import opened Ch341SelectSafety

  // ---- one deadline per connection ---------------------------------------------------------

  /** A deadline present before and after does not move; a new one is the clock of
      its observation plus 2 s. */
  ghost predicate DeadlinesStay(s: Sel, s1: Sel) {
    && (forall k | k in s.access && k in s1.access :: s1.access[k].at == s.access[k].at)
    && (forall k | k in s1.access && k !in s.access :: s1.access[k] == Deadline(s1.ears.clock + ACCESS_MS, true))
  }

  lemma RefuseKeepsAccess(s: Sel, why: Reason)
    ensures Refuse(s, why).1.access == s.access
  {
  }

  lemma TransientKeepsAccess(s: Sel, why: Reason)
    ensures Transient(s, why).1.access == s.access
  {
    if s.atStart { RefuseKeepsAccess(s, why); }
  }

  lemma BindAccess(s: Sel, dev: nat, id: Item)
    ensures BindAndCommit(s, dev, id).1.access == s.access || BindAndCommit(s, dev, id).1.access == map[]
  {
    var (bindOk, s1) := BindDev(s, dev);
    if !bindOk {
      WindowStaleListens(CloseDev(Unbind(s1), dev));
      TransientKeepsAccess(WindowStale(CloseDev(Unbind(s1), dev)).1, NotInDeviceList);
    } else {
      WindowStaleListens(s1);
      RefuseKeepsAccess(CloseDev(Unbind(BoundLeft(WindowStale(s1).1).1), dev), KeptArriving);
    }
  }

  lemma OpenedDevAccess(s: Sel, dev: nat)
    ensures OpenedDev(s, dev).1.access == s.access || OpenedDev(s, dev).1.access == map[]
  {
    var (read, s1) := Identify(s, dev);
    WindowStaleListens(s1);
    var (stale, s2) := WindowStale(s1);
    var s3 := CloseDev(s2, dev);
    if stale {
    } else if !s2.ruleB && !Unchanged(s2) {
      RefuseKeepsAccess(s3, KeptArriving);
    } else {
      match PostOpenCheck(s1.identity, s1.ruleB, read)
      case ReadFailed => TransientKeepsAccess(s3, IdentityUnreadable);
      case Bad(why) => RefuseKeepsAccess(s3, why);
      case Good(id) => BindAccess(s2, dev, id);
    }
  }

  lemma OpenStepAccess(s: Sel)
    ensures OpenStep(s).1.access == s.access || OpenStep(s).1.access == map[]
  {
    StaleNowListens(s);
    var (dev, s2) := OpenDev(StaleNow(s).1, AskedFor(s.identity));
    if dev.None? {
      WindowStaleListens(s2);
    } else {
      OpenedDevAccess(s2, dev.value);
    }
  }

  lemma WalkOpenedAccess(s: Sel, dev: nat)
    ensures WalkOpened(s, dev).1.access == s.access || WalkOpened(s, dev).1.access == map[]
  {
    var s1 := Identify(s, dev).1;
    WindowStaleListens(s1);
    OpenedDevAccess(EndWalk(WindowStale(s1).1), dev);
  }

  lemma WalkStepAccess(s: Sel)
    ensures WalkStep(s).1.access == s.access || WalkStep(s).1.access == map[]
  {
    StaleNowListens(s);
    var (dev, s2) := OpenDev(Attempt(StaleNow(s).1), None);
    if dev.None? {
      WindowStaleListens(EndWalk(s2));
    } else {
      WalkOpenedAccess(s2, dev.value);
    }
  }

  lemma AccessExpiredAccess(s: Sel)
    ensures AccessExpired(s).1.access == s.access || AccessExpired(s).1.access == map[]
  {
    RefuseKeepsAccess(StaleNow(s).1.(access := map[]), NoPermission);
  }

  lemma AccessWaitAccess(s: Sel)
    ensures AccessWait(s).1.access == s.access || AccessWait(s).1.access == map[]
  {
    var s1 := Now(s).1;
    if !IsStale(s1) {
      AccessExpiredAccess(s1);
    }
  }

  lemma DecideSerialAccess(s: Sel, t: Tally)
    ensures DecideSerial(s, t).1.access == s.access || DecideSerial(s, t).1.access == map[]
  {
    if t.match_ > 1 {
      RefuseKeepsAccess(s, NotUnique);
    } else if t.match_ == 1 && t.unknown == 0 {
    } else if t.unknown > 0 {
      AccessWaitAccess(s);
    } else {
      RefuseKeepsAccess(s, NoMatch);
    }
  }

  lemma StartWalkAccess(s: Sel, present: nat)
    ensures StartWalk(s, present).1.access == s.access
  {
  }

  lemma DecideAccess(s: Sel)
    ensures Decide(s).1.access == StillUnresolved(s.access) || Decide(s).1.access == map[]
  {
    var s0 := s.(ears := s.ears.(accessHold := false), access := StillUnresolved(s.access), ruleB := false);
    var t := TallyItems(s.identity, s.shot.items);
    if s.identity.BySerial? {
      DecideSerialAccess(s0, t);
    } else if t.present == 0 {
      RefuseKeepsAccess(s0, NoneAttached);
    } else if t.present == 1 {
      if t.unopened > 0 { AccessWaitAccess(s0); }
    } else if t.noSerial > 1 {
      RefuseKeepsAccess(s0, SeveralWithoutSerial);
    } else if t.unopened > 0 {
      AccessWaitAccess(s0);
    } else if t.noSerial == 0 {
      RefuseKeepsAccess(s0, SeveralSticks);
    } else {
      StartWalkAccess(s0, t.present);
    }
  }

  lemma ScanItemDeadlines(s: Sel)
    requires s.shot.index < |s.shot.items|
    ensures DeadlinesStay(s, ScanItem(s).1)
  {
  }

  lemma ScanStepDeadlines(s: Sel)
    ensures DeadlinesStay(s, ScanStep(s).1)
  {
    if s.shot.index < |s.shot.items| {
      var first := FirstDeadline(s.access, true);
      if first == 0 {
        ScanItemDeadlines(s);
      } else if Now(s).0 >= first {
        AccessExpiredAccess(Now(s).1);
      } else {
        ScanItemDeadlines(Now(s).1);
      }
    } else {
      DecideAccess(s);
    }
  }

  lemma ScanBeginDeadlines(s: Sel)
    ensures DeadlinesStay(s, ScanBegin(s).1)
  {
    if s.ears.env.scanBegin(s.ears.calls).None? {
      RefuseKeepsAccess(ScanEnd(Called(s)).(shot := s.shot.(changes := s.ears.changes)), ListUnreadable);
    }
  }

  /** One 2 s per connection: no step moves a deadline it keeps, and every new one
      starts 2 s from the observation that made it. */
  lemma DeadlinesNeverMove(s: Sel)
    ensures DeadlinesStay(s, Step(s).1)
  {
    match s.phase
    case Idle => ScanBeginDeadlines(s);
    case Done => ScanBeginDeadlines(s);
    case Scan => ScanStepDeadlines(s);
    case Open => OpenStepAccess(s);
    case Walk => WalkStepAccess(s);
  }

  /** A scan item ends no deadline but its own, and only by answering for it: the scan's
      call for this stick is the one this step makes. */
  lemma UnresolvedKeepsItsDeadline(s: Sel, k: Connection)
    requires s.phase == Scan && k in s.access
    requires s.shot.index < |s.shot.items| && Step(s).0.Pending? && k !in Step(s).1.access
    ensures var call := if FirstDeadline(s.access, true) == 0 then s.ears.calls else s.ears.calls + 1;
            var it := s.ears.env.scanStep(call, s.shot.index);
            KeyOf(it) == k && !ItemUnknown(s.identity, it)
  {
    RefuseKeepsAccess(StaleNow(Now(s).1).1.(access := map[]), NoPermission);
  }

  // ---- a deadline stays while every decision waits ------------------------------------------

  /** Holding the deadlines goes with an answer that ends the scan without an open. */
  ghost predicate HeldIdle(s: Sel, a: (Result, Sel)) {
    a.1.ears.accessHold ==> a.1.access == s.access && a.1.phase == Idle && a.1.shot == s.shot
  }

  lemma RefuseHeld(s: Sel, why: Reason)
    ensures HeldIdle(s, Refuse(s, why))
  {
  }

  lemma AccessExpiredHeld(s: Sel)
    requires !s.ears.accessHold && !IsStale(s)
    ensures HeldIdle(s, AccessExpired(s))
  {
    StaleNowListens(s);
  }

  lemma AccessWaitHeld(s: Sel)
    requires !s.ears.accessHold
    ensures HeldIdle(s, AccessWait(s))
  {
    var s1 := Now(s).1;
    if !IsStale(s1) { AccessExpiredHeld(s1); }
  }

  lemma DecideSerialHeld(s: Sel, t: Tally)
    requires !s.ears.accessHold
    ensures HeldIdle(s, DecideSerial(s, t))
  {
    if t.match_ > 1 {
      RefuseHeld(s, NotUnique);
    } else if t.match_ == 1 && t.unknown == 0 {
    } else if t.unknown > 0 {
      AccessWaitHeld(s);
    } else {
      RefuseHeld(s, NoMatch);
    }
  }

  lemma DecideInnerHeld(s0: Sel)
    requires !s0.ears.accessHold
    ensures HeldIdle(s0, DecideInner(s0))
  {
    var s, t := s0.(ruleB := false), TallyItems(s0.identity, s0.shot.items);
    if s.identity.BySerial? {
      DecideSerialHeld(s, t);
    } else if t.present == 0 {
      RefuseHeld(s, NoneAttached);
    } else if t.present == 1 {
      if t.unopened > 0 { AccessWaitHeld(s); }
    } else if t.noSerial > 1 {
      RefuseHeld(s, SeveralWithoutSerial);
    } else if t.unopened > 0 {
      AccessWaitHeld(s);
    } else if t.noSerial == 0 {
      RefuseHeld(s, SeveralSticks);
    }
  }

  /** A decision that holds the deadlines keeps that of every connection its scan saw. */
  lemma WaitingDecisionKeeps(s: Sel, k: Connection)
    requires s.phase == Scan && s.shot.index == |s.shot.items| && k in s.access && s.access[k].seen
    requires Step(s).1.ears.accessHold
    ensures k in Step(s).1.access && Step(s).1.access[k] == s.access[k]
    ensures Step(s).1.phase == Idle && Step(s).1.shot == s.shot
  {
    DecideInnerHeld(s.(ears := s.ears.(accessHold := false), access := StillUnresolved(s.access)));
  }

  /** The scan in hand has reported the connection. */
  predicate Listed(s: Sel, k: Connection) {
    exists i | 0 <= i < |s.shot.items| && i < s.shot.index :: KeyOf(s.shot.items[i]) == k
  }

  /** The connection has its deadline, and a scan under way has marked it if it reported it. */
  predicate Watched(s: Sel, k: Connection) {
    && k in s.access && s.phase in {Idle, Done, Scan} && s.shot.index <= |s.shot.items|
    && (s.phase == Scan ==> (s.access[k].seen <==> Listed(s, k)))
  }

  /** What the outside shows while the connection is waited for: a scan item never answers for
      it, a scan is cut short only by a change, a finished scan has reported it, and the
      decision holds the deadlines. */
  ghost predicate KeepsWaiting(s: Sel, a: Action, k: Connection) {
    && a != Shutdown
    && (a.StepOnce? && s.phase == Scan ==>
          var (r, s1) := Step(s);
          if s.shot.index < |s.shot.items| then
            if r.Pending? then
              var it := s1.shot.items[s.shot.index];
              KeyOf(it) == k ==> ItemUnknown(s.identity, it)
            else IsStale(s1)
          else Listed(s, k) && s1.ears.accessHold)
  }

  lemma ScanItemWatched(s: Sel, k: Connection)
    requires s.phase == Scan && Watched(s, k) && s.shot.index < |s.shot.items|
    requires var it := ScanItem(s).1.shot.items[s.shot.index]; KeyOf(it) == k ==> ItemUnknown(s.identity, it)
    ensures Watched(ScanItem(s).1, k)
  {
    var s1 := ScanItem(s).1;
    forall i | 0 <= i < s.shot.index ensures s1.shot.items[i] == s.shot.items[i] {
    }
    if KeyOf(s1.shot.items[s.shot.index]) == k {
      assert Listed(s1, k);
    }
    if Listed(s1, k) {
      var i :| 0 <= i < |s1.shot.items| && i < s1.shot.index && KeyOf(s1.shot.items[i]) == k;
      if i < s.shot.index { assert KeyOf(s.shot.items[i]) == k; }
    }
    if Listed(s, k) {
      var i :| 0 <= i < |s.shot.items| && i < s.shot.index && KeyOf(s.shot.items[i]) == k;
      assert KeyOf(s1.shot.items[i]) == k;
    }
  }

  lemma ExpiredIsStale(s: Sel)
    ensures IsStale(AccessExpired(s).1) ==> AccessExpired(s).1.access == s.access && AccessExpired(s).1.phase == Idle
    ensures !AccessExpired(s).0.Pending? && AccessExpired(s).1.shot == s.shot
  {
    StaleNowListens(s);
  }

  lemma ScanStepWatched(s: Sel, k: Connection)
    requires s.phase == Scan && Watched(s, k) && KeepsWaiting(s, StepOnce, k)
    ensures Watched(Step(s).1, k)
  {
    if s.shot.index == |s.shot.items| {
      WaitingDecisionKeeps(s, k);
    } else if FirstDeadline(s.access, true) == 0 {
      ScanItemWatched(s, k);
    } else {
      var (now, s1) := Now(s);
      if now >= FirstDeadline(s.access, true) {
        ExpiredIsStale(s1);
      } else {
        ScanItemWatched(s1, k);
      }
    }
  }

  /** The first observation starts the 2 s and the watch. */
  lemma FirstObservation(s: Sel, k: Connection)
    requires s.phase == Scan && s.shot.index < |s.shot.items| && k !in s.access
    requires var it := ScanItem(s).1.shot.items[s.shot.index]; KeyOf(it) == k && ItemUnknown(s.identity, it)
    ensures var s1 := ScanItem(s).1; Watched(s1, k) && s1.access[k].at == s1.ears.clock + ACCESS_MS
  {
    var s1 := ScanItem(s).1;
    assert KeyOf(s1.shot.items[s.shot.index]) == k;
  }

  lemma ScanBeginWatched(s: Sel, k: Connection)
    requires Watched(s, k)
    ensures Watched(ScanBegin(s).1, k)
  {
    if s.ears.env.scanBegin(s.ears.calls).None? {
      RefuseKeepsAccess(ScanEnd(Called(s)).(shot := s.shot.(changes := s.ears.changes)), ListUnreadable);
    }
  }

  lemma ActDeadlines(s: Sel, a: Action)
    ensures forall k | k in s.access && k in Act(s, a).access :: Act(s, a).access[k].at == s.access[k].at
  {
    if a.StepOnce? { DeadlinesNeverMove(s); }
  }

  lemma ActWatched(s: Sel, a: Action, k: Connection)
    requires Watched(s, k) && KeepsWaiting(s, a, k)
    ensures Watched(Act(s, a), k)
  {
    if a.StepOnce? {
      if s.phase == Scan { ScanStepWatched(s, k); } else { ScanBeginWatched(s, k); }
    }
  }

  /** Over any run in which the scans go on reporting the connection unresolved and every
      decision goes on waiting, its deadline stays, and stays that of its first observation. */
  lemma {:induction false} DeadlineFixedOverRuns(s: Sel, acts: seq<Action>, k: Connection)
    requires Watched(s, k)
    requires forall n | 0 <= n < |acts| :: KeepsWaiting(RunAll(s, acts[..n]), acts[n], k)
    ensures Watched(RunAll(s, acts), k) && RunAll(s, acts).access[k].at == s.access[k].at
  {
    if acts != [] {
      var front := acts[..|acts| - 1];
      forall n | 0 <= n < |front| ensures KeepsWaiting(RunAll(s, front[..n]), front[n], k) {
        assert front[..n] == acts[..n];
      }
      DeadlineFixedOverRuns(s, front, k);
      ActWatched(RunAll(s, front), acts[|acts| - 1], k);
      ActDeadlines(RunAll(s, front), acts[|acts| - 1]);
    }
  }
}
