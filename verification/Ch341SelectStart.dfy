/**
 * The start selection (daemon_ch341_select_at_start): steps run back to back until
 * a stick is opened or refused. On a quiet bus, whatever happened before, it ends.
 */
module Ch341SelectStart {
  import opened Prelude
  import opened Ch341Select
  import opened Ch341SelectSafety
  import opened Ch341SelectProgress

  // ---- the loop --------------------------------------------------------------------------------

  predicate Conclusive(r: Result) {
    r.Opened? || r.Refused?
  }

  /** usleep until the retry time of a WAIT, if that is still to come. */
  function Sleep(s: Sel, until: nat): Sel {
    var (now, s1) := Now(s);
    s1.(ears := s1.ears.(clock := Max(now, until)))
  }

  /** One turn of the loop: take events, one step, and after a WAIT sleep and begin anew. */
  ghost function Turn(s: Sel): (Result, Sel) {
    var (r, s1) := Step(s.(ears := TakeEvents(s.ears)));
    (r, if r.Wait? then Begin(Sleep(s1, s1.retryAt), true) else s1)
  }

  ghost predicate EndsWithin(s: Sel, turns: nat)
    decreases turns
  {
    turns > 0 && (Conclusive(Turn(s).0) || EndsWithin(Turn(s).1, turns - 1))
  }

  /** How the loop ends. */
  ghost function LoopEnd(s: Sel, turns: nat): (Result, Sel)
    requires EndsWithin(s, turns)
    decreases turns
  {
    if Conclusive(Turn(s).0) then Turn(s) else LoopEnd(Turn(s).1, turns - 1)
  }

  // ---- a quiet bus ---------------------------------------------------------------------------------

  /** From this call on: no event, no bound LEFT, and every scan reports `items`. */
  ghost predicate Quiet(e: Ears, items: seq<Item>) {
    && (forall k: nat | e.calls <= k :: e.env.events(k) == (0, 0))
    && (forall k: nat | e.calls <= k :: !e.env.boundLeft(k))
    && (forall k: nat | e.calls <= k :: e.env.scanBegin(k) == Some(|items|))
    && (forall k: nat, i: nat | e.calls <= k && i < |items| :: e.env.scanStep(k, i) == items[i])
  }

  /** The monitor gives every listed device its own connection. */
  ghost predicate DistinctConnections(items: seq<Item>) {
    forall i, j | 0 <= i < j < |items| :: KeyOf(items[i]) != KeyOf(items[j])
  }

  ghost predicate Calm(s: Sel, items: seq<Item>) {
    Inv(s) && s.atStart && s.usb.bound.None? && Quiet(s.ears, items) && DistinctConnections(items)
  }

  lemma QuietStays(e: Ears, e1: Ears, items: seq<Item>)
    requires Quiet(e, items) && e1.env == e.env && e.calls <= e1.calls
    ensures Quiet(e1, items)
  {
  }

  lemma QuietEvents(e: Ears, items: seq<Item>)
    requires Quiet(e, items)
    ensures TakeEvents(e) == Tick(e)
  {
    assert e.env.events(e.calls) == (0, 0);
  }

  // ---- no change since the snapshot: opens and walks conclude ------------------------------------------

  lemma FreshRefuses(s: Sel, why: Reason)
    requires Unchanged(s) && s.atStart
    ensures Refuse(s, why).0.Refused? && Transient(s, why).0.Refused?
  {
  }

  lemma FreshWindow(s: Sel, items: seq<Item>)
    requires Unchanged(s) && Quiet(s.ears, items)
    ensures var (stale, s1) := WindowStale(s);
            !stale && Unchanged(s1) && s1 == s.(ears := s1.ears) && Quiet(s1.ears, items)
  {
    QuietEvents(s.ears, items);
  }

  lemma FreshBindConcludes(s: Sel, items: seq<Item>, dev: nat, id: Item)
    requires Unchanged(s) && s.atStart && Quiet(s.ears, items)
    ensures Conclusive(BindAndCommit(s, dev, id).0)
  {
    var (bindOk, s1) := BindDev(s, dev);
    if !bindOk {
      FreshWindow(CloseDev(Unbind(s1), dev), items);
      FreshRefuses(WindowStale(CloseDev(Unbind(s1), dev)).1, NotInDeviceList);
    } else {
      FreshWindow(s1, items);
      var s2 := WindowStale(s1).1;
      assert !BoundLeft(s2).0;
    }
  }

  lemma FreshOpenedConcludes(s: Sel, items: seq<Item>, dev: nat)
    requires Unchanged(s) && s.atStart && Quiet(s.ears, items)
    ensures Conclusive(OpenedDev(s, dev).0)
  {
    var (read, s1) := Identify(s, dev);
    FreshWindow(s1, items);
    var s2 := WindowStale(s1).1;
    match PostOpenCheck(s1.identity, s1.ruleB, read)
    case ReadFailed => FreshRefuses(CloseDev(s2, dev), IdentityUnreadable);
    case Bad(why) => FreshRefuses(CloseDev(s2, dev), why);
    case Good(id) => FreshBindConcludes(s2, items, dev, id);
  }

  lemma FreshOpenConcludes(s: Sel, items: seq<Item>)
    requires Unchanged(s) && s.atStart && Quiet(s.ears, items)
    ensures Conclusive(OpenStep(s).0)
  {
    var s1 := Now(s).1;
    assert StaleNow(s) == (false, s1);
    var (dev, s2) := OpenDev(s1, AskedFor(s1.identity));
    if dev.None? {
      FreshWindow(s2, items);
    } else {
      FreshOpenedConcludes(s2, items, dev.value);
    }
  }

  lemma FreshWalkOpened(s: Sel, items: seq<Item>, dev: nat)
    requires Unchanged(s) && s.atStart && Quiet(s.ears, items)
    ensures var (r, s1) := WalkOpened(s, dev); Conclusive(r) || (r.Pending? && Unchanged(s1))
  {
    var s1 := Identify(s, dev).1;
    FreshWindow(s1, items);
    FreshOpenedConcludes(EndWalk(WindowStale(s1).1), items, dev);
  }

  lemma FreshWalk(s: Sel, items: seq<Item>)
    requires Unchanged(s) && s.atStart && Quiet(s.ears, items)
    ensures var (r, s1) := WalkStep(s); Conclusive(r) || (r.Pending? && Unchanged(s1))
  {
    var s1 := Now(s).1;
    assert StaleNow(s) == (false, s1);
    if s1.walk.attempts < s1.walk.snap {
      var (dev, s2) := OpenDev(Attempt(s1), None);
      if dev.None? {
        FreshWindow(EndWalk(s2), items);
      } else {
        FreshWalkOpened(s2, items, dev.value);
      }
    }
  }

  // ---- a quiet scan ----------------------------------------------------------------------------------------

  ghost function UnknownKeys(identity: Identity, items: seq<Item>): set<Connection> {
    set i | 0 <= i < |items| && ItemUnknown(identity, items[i]) :: KeyOf(items[i])
  }

  /** The scan so far saw the quiet items, and marked exactly the unresolved ones. */
  ghost predicate Scanned(s: Sel, items: seq<Item>) {
    && s.phase == Scan
    && |s.shot.items| == |items|
    && s.shot.index <= |items|
    && (forall i | 0 <= i < s.shot.index :: s.shot.items[i] == items[i])
    && UnknownKeys(s.identity, items[..s.shot.index]) <= s.access.Keys
    && (forall k | k in s.access :: s.access[k].seen <==> k in UnknownKeys(s.identity, items[..s.shot.index]))
  }

  /** The unresolved connections all have their deadline, the first at `t`; without
      any, `t` is the end of the gap since the last walk. */
  ghost predicate WaitsUntil(s: Sel, items: seq<Item>, t: nat) {
    && s.access.Keys == UnknownKeys(s.identity, items)
    && (if UnknownKeys(s.identity, items) == {} then t == s.walk.end + WALK_GAP_MS
        else IsFirstDeadline(s.access, false, t))
  }

  lemma UnknownKeysGrow(identity: Identity, items: seq<Item>, i: nat)
    requires i < |items|
    ensures UnknownKeys(identity, items[..i + 1])
            == UnknownKeys(identity, items[..i]) + (if ItemUnknown(identity, items[i]) then {KeyOf(items[i])} else {})
    ensures UnknownKeys(identity, items[..i + 1]) <= UnknownKeys(identity, items)
  {
    var more := items[..i + 1];
    assert more[..i] == items[..i];
    forall k | k in UnknownKeys(identity, more)
      ensures k in UnknownKeys(identity, items[..i]) + (if ItemUnknown(identity, items[i]) then {KeyOf(items[i])} else {})
      ensures k in UnknownKeys(identity, items)
    {
      var j :| 0 <= j < |more| && ItemUnknown(identity, more[j]) && KeyOf(more[j]) == k;
      assert more[j] == items[j];
      if j < i { assert items[..i][j] == items[j]; }
    }
    forall k | k in UnknownKeys(identity, items[..i]) ensures k in UnknownKeys(identity, more) {
      var j :| 0 <= j < i && ItemUnknown(identity, items[..i][j]) && KeyOf(items[..i][j]) == k;
      assert more[j] == items[..i][j];
    }
    if ItemUnknown(identity, items[i]) { assert more[i] == items[i]; }
  }

  lemma KnownKeyIsApart(identity: Identity, items: seq<Item>, i: nat)
    requires DistinctConnections(items) && i < |items| && !ItemUnknown(identity, items[i])
    ensures KeyOf(items[i]) !in UnknownKeys(identity, items)
  {
  }

  lemma KnownItemScans(s: Sel, items: seq<Item>)
    requires Scanned(s, items) && s.shot.index < |items| && DistinctConnections(items)
    requires s.ears.env.scanStep(s.ears.calls, s.shot.index) == items[s.shot.index]
    requires !ItemUnknown(s.identity, items[s.shot.index])
    ensures Scanned(ScanItem(s).1, items)
    ensures KeyOf(items[s.shot.index]) !in UnknownKeys(s.identity, items)
    ensures ScanItem(s).1.access == map k | k in s.access && k != KeyOf(items[s.shot.index]) :: s.access[k]
  {
    UnknownKeysGrow(s.identity, items, s.shot.index);
    KnownKeyIsApart(s.identity, items, s.shot.index);
  }

  lemma UnknownItemScans(s: Sel, items: seq<Item>)
    requires Scanned(s, items) && s.shot.index < |items|
    requires s.ears.env.scanStep(s.ears.calls, s.shot.index) == items[s.shot.index]
    requires ItemUnknown(s.identity, items[s.shot.index])
    ensures Scanned(ScanItem(s).1, items)
    ensures ScanItem(s).1.access.Keys == s.access.Keys + {KeyOf(items[s.shot.index])}
    ensures forall k | k in s.access :: ScanItem(s).1.access[k].at == s.access[k].at
  {
    UnknownKeysGrow(s.identity, items, s.shot.index);
  }

  lemma ScanItemWaits(s: Sel, items: seq<Item>, t: nat)
    requires Scanned(s, items) && s.shot.index < |items| && DistinctConnections(items)
    requires s.ears.env.scanStep(s.ears.calls, s.shot.index) == items[s.shot.index]
    requires WaitsUntil(s, items, t)
    ensures WaitsUntil(ScanItem(s).1, items, t)
  {
    var s1 := ScanItem(s).1;
    assert s1.identity == s.identity && s1.walk == s.walk;
    if ItemUnknown(s.identity, items[s.shot.index]) {
      UnknownItemScans(s, items);
      assert KeyOf(items[s.shot.index]) in UnknownKeys(s.identity, items);
      SameTimesSameFirst(s.access, s1.access, t);
    } else {
      KnownItemScans(s, items);
      assert s1.access == s.access;
    }
  }

  lemma SameTimesSameFirst(a: map<Connection, Deadline>, b: map<Connection, Deadline>, t: nat)
    requires a.Keys == b.Keys && forall k | k in a :: a[k].at == b[k].at
    ensures IsFirstDeadline(a, false, t) ==> IsFirstDeadline(b, false, t)
  {
    if IsFirstDeadline(a, false, t) {
      forall k ensures Eligible(a, false, k) == Eligible(b, false, k) {}
      if t != 0 {
        var k :| Eligible(a, false, k) && a[k].at == t;
        assert Eligible(b, false, k);
      }
    }
  }

  // ---- the decision of a quiet scan ---------------------------------------------------------------------------

  /** An undecided stick of this scan has its deadline: nothing waits without one. */
  lemma {:induction false} WaitedForIsUnknown(identity: Identity, items: seq<Item>)
    ensures var t := TallyItems(identity, items);
            && (identity.BySerial? && t.unknown > 0 ==> UnknownKeys(identity, items) != {})
            && (t.unopened > 0 ==> UnknownKeys(identity, items) != {})
            && (!identity.BySerial? && t.unopened == 0 ==> UnknownKeys(identity, items) == {})
  {
    if items != [] {
      var n := |items| - 1;
      WaitedForIsUnknown(identity, items[..n]);
      UnknownKeysGrow(identity, items, n);
      assert items[..n + 1] == items;
    }
  }

  /** Where the decision's WAIT leads: a later time, bounded by the same target. */
  ghost predicate DecidedWait(s: Sel, items: seq<Item>, a: (Result, Sel), t: nat) {
    a.0.Wait? ==> s.ears.clock < a.1.retryAt <= t && WaitsUntil(a.1, items, t) && a.1.atStart
  }

  lemma AccessWaitQuiet(s: Sel)
    requires Unchanged(s) && s.atStart && Stamped(s.access) && s.access != map[]
    ensures var (r, s1) := AccessWait(s);
            r.Refused? || (r.Wait? && s1.access == s.access && s1.ears.accessHold && s1.walk == s.walk && s1.identity == s.identity
                           && s.ears.clock < s1.retryAt <= FirstDeadline(s.access, false) && s1.atStart)
  {
    var s1 := Now(s).1;
    FirstDeadlineIs(s.access, false, 0);
    var k :| k in s.access;
    assert Eligible(s.access, false, k);
    if Now(s).0 >= FirstDeadline(s.access, false) {
      assert StaleNow(s1) == (false, Now(s1).1);
      FreshRefuses(Now(s1).1.(access := map[]), NoPermission);
    }
  }

  ghost function TargetOf(s: Sel, items: seq<Item>): nat {
    if UnknownKeys(s.identity, items) == {} then s.walk.end + WALK_GAP_MS
    else FirstDeadline(StillUnresolved(s.access), false)
  }

  lemma DecideQuiet(s: Sel, items: seq<Item>)
    requires Scanned(s, items) && s.shot.index == |items|
    requires Unchanged(s) && s.atStart && Stamped(s.access)
    ensures var a := Decide(s); Conclusive(a.0) || a.0.Pending? || (a.0.Wait? && DecidedWait(s, items, a, TargetOf(s, items)))
  {
    var s0 := s.(ears := s.ears.(accessHold := false), access := StillUnresolved(s.access), ruleB := false);
    assert items[..|items|] == items && s.shot.items == items;
    assert s0.access.Keys == UnknownKeys(s.identity, items);
    var t := TallyItems(s.identity, items);
    WaitedForIsUnknown(s.identity, items);
    FirstDeadlineIs(s0.access, false, 0);
    if s.identity.BySerial? {
      if t.match_ > 1 {
        FreshRefuses(s0, NotUnique);
      } else if t.match_ == 1 && t.unknown == 0 {
      } else if t.unknown > 0 {
        AccessWaitQuiet(s0);
      } else {
        FreshRefuses(s0, NoMatch);
      }
    } else if t.present == 0 {
      FreshRefuses(s0, NoneAttached);
    } else if t.present == 1 {
      if t.unopened > 0 { AccessWaitQuiet(s0); }
    } else if t.noSerial > 1 {
      FreshRefuses(s0, SeveralWithoutSerial);
    } else if t.unopened > 0 {
      AccessWaitQuiet(s0);
    } else if t.noSerial == 0 {
      FreshRefuses(s0, SeveralSticks);
    } else {
      assert StartWalk(s0, t.present).0.Pending? || StartWalk(s0, t.present).0.Wait?;
    }
  }

  // ---- the loop ends ----------------------------------------------------------------------------------------

  /** Turns until a scan, an open or a walk comes to its answer. */
  function StepsLeft(s: Sel): nat {
    match s.phase
    case Scan => (if s.shot.index <= |s.shot.items| then |s.shot.items| - s.shot.index else 0) + |s.shot.items| + 3
    case Walk => if s.walk.attempts <= s.walk.snap then s.walk.snap - s.walk.attempts + 2 else 1
    case Open => 1
    case _ => 0
  }

  lemma DecideProgress(s: Sel)
    requires Inv(s) && s.usb.bound.None? && s.phase == Scan && Decide(s).0.Pending?
    ensures StepsLeft(Decide(s).1) < StepsLeft(s)
  {
    DecidePhases(s);
    DecideGood(s);
  }

  lemma ScanItemProgress(s: Sel)
    requires Inv(s) && s.phase == Scan && s.shot.index < |s.shot.items|
    ensures StepsLeft(ScanItem(s).1) < StepsLeft(s)
  {
  }

  lemma ScanProgress(s: Sel)
    requires Inv(s) && s.usb.bound.None? && s.phase == Scan && ScanStep(s).0.Pending?
    ensures StepsLeft(ScanStep(s).1) < StepsLeft(s)
  {
    if s.shot.index < |s.shot.items| {
      if FirstDeadline(s.access, true) == 0 {
        ScanItemProgress(s);
      } else if Now(s).0 >= FirstDeadline(s.access, true) {
        AccessExpiredAnswers(Now(s).1);
      } else {
        ScanItemProgress(Now(s).1);
      }
    } else {
      DecideProgress(s);
    }
  }

  lemma PendingProgress(s: Sel)
    requires Inv(s) && s.usb.bound.None? && s.phase in {Scan, Open, Walk} && Step(s).0.Pending?
    ensures StepsLeft(Step(s).1) < StepsLeft(s)
  {
    match s.phase
    case Scan => ScanProgress(s);
    case Open => OpenStepGood(s);
    case Walk => WalkStepGood(s);
  }

  /** 2: the bus has just fallen quiet; 1: a quiet scan and what it decided;
      0: from the first WAIT of a quiet scan on, with its target time. */
  ghost predicate Stage(s: Sel, items: seq<Item>, stage: nat, t: nat) {
    && stage <= 2
    && (stage == 1 ==> s.phase in {Scan, Open, Walk})
    && (stage <= 1 && s.phase != Idle ==> Unchanged(s))
    && (stage <= 1 && s.phase == Scan ==> Scanned(s, items))
    && (stage == 0 ==> s.phase != Done && (s.phase in {Idle, Scan} ==> WaitsUntil(s, items, t)))
  }

  function TimeLeft(s: Sel, stage: nat, t: nat): nat {
    if stage == 0 && s.ears.clock < t then t - s.ears.clock else 0
  }

  function TurnsLeft(s: Sel, stage: nat, items: seq<Item>): nat {
    if stage == 0 && s.phase == Idle then 2 * |items| + 4 else StepsLeft(s)
  }

  ghost predicate Nearer(s: Sel, s1: Sel, items: seq<Item>, stage: nat, t: nat, stage1: nat, t1: nat) {
    && Calm(s1, items) && Stage(s1, items, stage1, t1)
    && (stage1 < stage
        || (stage1 == stage && TimeLeft(s1, stage1, t1) < TimeLeft(s, stage, t))
        || (stage1 == stage && TimeLeft(s1, stage1, t1) <= TimeLeft(s, stage, t)
            && TurnsLeft(s1, stage1, items) < TurnsLeft(s, stage, items)))
  }

  lemma StepCalm(s: Sel, items: seq<Item>)
    requires Calm(s, items) && !Conclusive(Step(s).0)
    ensures Step(s).0.Pending? ==> Calm(Step(s).1, items) && s.ears.clock <= Step(s).1.ears.clock
    ensures Step(s).0.Wait? ==> Calm(Begin(Sleep(Step(s).1, Step(s).1.retryAt), true), items)
    ensures Step(s).0.Wait? ==> s.ears.clock <= Sleep(Step(s).1, Step(s).1.retryAt).ears.clock
  {
    StepKeepsInv(s);
    QuietStays(s.ears, Step(s).1.ears, items);
  }

  lemma IdleTurn(s: Sel, items: seq<Item>, stage: nat, t: nat)
    requires Calm(s, items) && Stage(s, items, stage, t) && s.phase in {Idle, Done}
    ensures Step(s).0.Pending? && Nearer(s, Step(s).1, items, stage, t, if stage == 2 then 1 else 0, t)
  {
    BeginsScanned(s, items);
    StepCalm(s, items);
    if stage == 0 {
      SameTimesSameFirst(s.access, Step(s).1.access, t);
    }
  }

  lemma BeginsScanned(s: Sel, items: seq<Item>)
    requires Calm(s, items) && s.phase in {Idle, Done}
    ensures Step(s).0.Pending? && Scanned(Step(s).1, items) && Unchanged(Step(s).1) && Step(s).1.shot.index == 0
    ensures Step(s).1.identity == s.identity && Step(s).1.walk == s.walk
  {
    assert s.ears.env.scanBegin(s.ears.calls) == Some(|items|);
    assert UnknownKeys(s.identity, items[..0]) == {};
  }

  lemma ItemTurn(s: Sel, s1: Sel, items: seq<Item>, stage: nat, t: nat)
    requires Calm(s, items) && Stage(s, items, stage, t) && stage <= 1 && s.phase == Scan && s.shot.index < |items|
    requires s1 in {s, Now(s).1} && Step(s) == ScanItem(s1)
    ensures Step(s).0.Pending? && Nearer(s, Step(s).1, items, stage, t, stage, t)
  {
    QuietItem(s1, items, stage, t);
    ItemIsNoChange(s1);
    StepCalm(s, items);
    ScanProgress(s);
  }

  lemma ScanTurn(s: Sel, items: seq<Item>, stage: nat, t: nat)
    requires Calm(s, items) && Stage(s, items, stage, t) && stage <= 1 && s.phase == Scan && s.shot.index < |items|
    ensures Step(s).0.Refused? || (Step(s).0.Pending? && Nearer(s, Step(s).1, items, stage, t, stage, t))
  {
    var s1 := Now(s).1;
    assert StaleNow(s1) == (false, Now(s1).1);
    if FirstDeadline(s.access, true) == 0 {
      ItemTurn(s, s, items, stage, t);
    } else if Now(s).0 >= FirstDeadline(s.access, true) {
      FreshRefuses(Now(s1).1.(access := map[]), NoPermission);
    } else {
      ItemTurn(s, s1, items, stage, t);
    }
  }

  lemma ItemIsNoChange(s: Sel)
    requires s.shot.index < |s.shot.items|
    ensures ScanItem(s).0.Pending? && Unchanged(ScanItem(s).1) == Unchanged(s)
  {
  }

  lemma QuietItem(s: Sel, items: seq<Item>, stage: nat, t: nat)
    requires Quiet(s.ears, items) && DistinctConnections(items) && Scanned(s, items) && s.shot.index < |items|
    requires stage == 0 ==> WaitsUntil(s, items, t)
    ensures Scanned(ScanItem(s).1, items)
    ensures stage == 0 ==> WaitsUntil(ScanItem(s).1, items, t)
  {
    assert s.ears.env.scanStep(s.ears.calls, s.shot.index) == items[s.shot.index];
    if stage == 0 { ScanItemWaits(s, items, t); }
    if ItemUnknown(s.identity, items[s.shot.index]) {
      UnknownItemScans(s, items);
    } else {
      KnownItemScans(s, items);
    }
  }

  lemma TargetKept(s: Sel, items: seq<Item>, t: nat)
    requires Scanned(s, items) && s.shot.index == |items| && WaitsUntil(s, items, t) && Stamped(s.access)
    ensures TargetOf(s, items) == t
  {
    assert items[..|items|] == items;
    assert StillUnresolved(s.access) == s.access;
    FirstDeadlineIs(s.access, false, t);
  }

  lemma DecideWaitTurn(s: Sel, items: seq<Item>, stage: nat, t: nat)
    requires Calm(s, items) && Stage(s, items, stage, t) && stage <= 1 && s.phase == Scan && s.shot.index == |items|
    requires Step(s).0.Wait? && DecidedWait(s, items, Step(s), TargetOf(s, items))
    ensures Nearer(s, Begin(Sleep(Step(s).1, Step(s).1.retryAt), true), items, stage, t, 0, TargetOf(s, items))
  {
    StepCalm(s, items);
    if stage == 0 { TargetKept(s, items, t); }
    WaitGetsNearer(s, Step(s).1, items, stage, t, TargetOf(s, items));
  }

  /** Sleeping until a retry time that lies ahead, and not beyond the target, gets nearer. */
  lemma WaitGetsNearer(s: Sel, w: Sel, items: seq<Item>, stage: nat, t: nat, target: nat)
    requires stage <= 1 && (stage == 0 ==> target == t)
    requires Calm(Begin(Sleep(w, w.retryAt), true), items)
    requires s.ears.clock < w.retryAt <= target && WaitsUntil(w, items, target)
    ensures Nearer(s, Begin(Sleep(w, w.retryAt), true), items, stage, t, 0, target)
  {
    var s1 := Begin(Sleep(w, w.retryAt), true);
    assert WaitsUntil(s1, items, target);
    assert s1.ears.clock >= w.retryAt;
  }

  lemma DecidePendingTurn(s: Sel, items: seq<Item>, stage: nat, t: nat)
    requires Calm(s, items) && Stage(s, items, stage, t) && stage <= 1 && s.phase == Scan && s.shot.index == |items|
    requires Step(s).0.Pending?
    ensures Nearer(s, Step(s).1, items, stage, t, stage, t)
  {
    StepCalm(s, items);
    DecideProgress(s);
    DecidePhases(s);
  }

  lemma DecideTurn(s: Sel, items: seq<Item>, stage: nat, t: nat)
    requires Calm(s, items) && Stage(s, items, stage, t) && stage <= 1 && s.phase == Scan && s.shot.index == |items|
    ensures Conclusive(Step(s).0)
            || (Step(s).0.Pending? && Nearer(s, Step(s).1, items, stage, t, stage, t))
            || (Step(s).0.Wait? && Nearer(s, Begin(Sleep(Step(s).1, Step(s).1.retryAt), true), items, stage, t, 0, TargetOf(s, items)))
  {
    DecideQuiet(s, items);
    if Step(s).0.Pending? {
      DecidePendingTurn(s, items, stage, t);
    } else if Step(s).0.Wait? {
      DecideWaitTurn(s, items, stage, t);
    }
  }

  lemma UnsettledTurn(s: Sel, items: seq<Item>, t: nat)
    requires Calm(s, items) && Stage(s, items, 2, t) && s.phase !in {Idle, Done}
    ensures Conclusive(Step(s).0)
            || (Step(s).0.Pending? && Nearer(s, Step(s).1, items, 2, t, 2, t))
            || (Step(s).0.Wait? && Nearer(s, Begin(Sleep(Step(s).1, Step(s).1.retryAt), true), items, 2, t, 2, t))
  {
    if !Conclusive(Step(s).0) {
      StepCalm(s, items);
      if Step(s).0.Pending? { PendingProgress(s); }
    }
  }

  lemma WalkTurn(s: Sel, items: seq<Item>, stage: nat, t: nat)
    requires Calm(s, items) && Stage(s, items, stage, t) && stage <= 1 && s.phase == Walk
    ensures Conclusive(Step(s).0) || (Step(s).0.Pending? && Nearer(s, Step(s).1, items, stage, t, stage, t))
  {
    FreshWalk(s, items);
    if Step(s).0.Pending? {
      StepCalm(s, items);
      PendingProgress(s);
      WalkStepGood(s);
    }
  }

  /** One quiet turn: it concludes, or it comes nearer to the end. */
  lemma TurnProgress(s: Sel, items: seq<Item>, stage: nat, t: nat) returns (stage1: nat, t1: nat)
    requires Calm(s, items) && Stage(s, items, stage, t)
    ensures Conclusive(Turn(s).0) || Nearer(s, Turn(s).1, items, stage, t, stage1, t1)
  {
    QuietEvents(s.ears, items);
    var s0 := Called(s);
    assert Calm(s0, items) && Stage(s0, items, stage, t);
    stage1, t1 := stage, t;
    if s.phase in {Idle, Done} {
      IdleTurn(s0, items, stage, t);
      stage1 := if stage == 2 then 1 else 0;
    } else if stage == 2 {
      UnsettledTurn(s0, items, t);
    } else if s.phase == Scan {
      if s.shot.index < |items| {
        ScanTurn(s0, items, stage, t);
      } else {
        DecideTurn(s0, items, stage, t);
        if Step(s0).0.Wait? { stage1, t1 := 0, TargetOf(s0, items); }
      }
    } else if s.phase == Open {
      FreshOpenConcludes(s0, items);
    } else {
      WalkTurn(s0, items, stage, t);
    }
  }

  lemma LoopEnds(s: Sel, items: seq<Item>, stage: nat, t: nat) returns (turns: nat)
    requires Calm(s, items) && Stage(s, items, stage, t)
    ensures EndsWithin(s, turns)
    decreases stage, TimeLeft(s, stage, t), TurnsLeft(s, stage, items)
  {
    var stage1, t1 := TurnProgress(s, items, stage, t);
    if Conclusive(Turn(s).0) {
      turns := 1;
    } else {
      var more := LoopEnds(Turn(s).1, items, stage1, t1);
      turns := more + 1;
    }
  }

  /** Start selection terminates on a quiet bus: from any state a run can reach, once
      the bus sends no more events and scans report the same sticks, the start loop
      opens a stick or refuses after finitely many turns. */
  lemma StartEndsOnQuietBus(env: Env, clock: nat, selector: string, acts: seq<Action>, s: Sel, items: seq<Item>)
    requires ReachedBy(env, clock, selector, acts, s) && s.usb.bound.None? && s.atStart
    requires Quiet(s.ears, items) && DistinctConnections(items)
    ensures exists turns :: EndsWithin(s, turns)
  {
    ReachedInv(env, clock, selector, acts, s);
    var turns := LoopEnds(s, items, 2, 0);
  }
}
