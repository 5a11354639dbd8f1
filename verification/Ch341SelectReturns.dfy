/**
 * A reopen on a quiet bus with an honest pine64: the stick to be chosen is handed out after
 * finitely many steps, with one wait at most, for a walk to be due.
 */
module Ch341SelectReturns {
  import opened Prelude
  import opened Ch341Select
  import opened Ch341SelectSafety
  import opened Ch341SelectProgress
  import opened Ch341SelectStart
  import opened Ch341SelectOpens
  import opened Ch341SelectTiming

  /** A selection on its way to the chosen stick. */
  ghost predicate Returning(s: Sel, items: seq<Item>, i: nat) {
    && Inv(s) && s.usb.bound.None? && Fair(s.ears, items) && DistinctConnections(items) && Chosen(s.identity, items, i)
    && (s.phase == Scan ==> Scanned(s, items) && Unchanged(s))
    && (s.phase == Open ==> !s.ruleB && Unchanged(s) && PlainOpenRule(s.identity, items))
    && (s.phase == Walk ==> OnWalk(s, items))
  }

  lemma ChosenResolvesAll(identity: Identity, items: seq<Item>, i: nat)
    requires Chosen(identity, items, i)
    ensures UnknownKeys(identity, items) == {}
  {
    if k :| k in UnknownKeys(identity, items) {
      UnknownChoosesNone(identity, items, k);
    }
  }

  function Left(s: Sel, items: seq<Item>): nat {
    if s.phase in {Idle, Done} then 2 * |items| + 4 else StepsLeft(s)
  }

  /** What one step does: it goes on, hands out the chosen stick, or waits for a walk. */
  ghost predicate StepsOn(s: Sel, items: seq<Item>, i: nat, a: (Result, Sel))
    requires i < |items|
  {
    match a.0
    case Pending => Returning(a.1, items, i) && Left(a.1, items) < Left(s, items) && SameTimes(s, a.1)
    case Opened(_) => a.1.usb.handed == s.usb.handed + [items[i]]
    case Wait => s.phase == Scan && Returning(a.1, items, i) && a.1.phase == Idle && SameTimes(s, a.1)
                 && !Due(s, s.ears.clock) && s.ears.clock < a.1.retryAt && Due(a.1, a.1.retryAt)
    case Refused(_) => false
  }

  /** Nothing about when a walk is due has changed but the clock; a walk itself may. */
  ghost predicate SameTimes(s: Sel, s1: Sel) {
    && Later(s.ears, s1.ears) && s1.atStart == s.atStart && s1.identity == s.identity
    && s1.usb.handed == s.usb.handed
    && (s1.phase in {Idle, Scan} ==>
          && s.phase in {Idle, Done, Scan} && s1.walk.end == s.walk.end
          && s1.ears.burstFirst == s.ears.burstFirst && s1.ears.burstLast == s.ears.burstLast)
  }

  lemma BeginReturns(s: Sel, items: seq<Item>, i: nat)
    requires Returning(s, items, i) && s.phase in {Idle, Done}
    ensures StepsOn(s, items, i, Step(s))
  {
    assert s.ears.env.scanBegin(s.ears.calls) == Some(|items|);
    assert UnknownKeys(s.identity, items[..0]) == {};
    StepKeepsInv(s);
    FairStays(s.ears, Step(s).1.ears, items);
  }

  lemma ItemReturns(s: Sel, items: seq<Item>, i: nat)
    requires Returning(s, items, i) && s.phase == Scan && s.shot.index < |items|
    ensures StepsOn(s, items, i, Step(s))
  {
    ChosenResolvesAll(s.identity, items, i);
    NoneSeen(s, items);
    QuietItem(s, items, 1, 0);
    ItemIsNoChange(s);
    StepKeepsInv(s);
    FairStays(s.ears, Step(s).1.ears, items);
    ScanItemProgress(s);
  }

  /** No stick of this scan is unresolved, so that no deadline runs. */
  lemma NoneSeen(s: Sel, items: seq<Item>)
    requires Scanned(s, items) && Stamped(s.access) && s.shot.index < |items| && UnknownKeys(s.identity, items) == {}
    ensures FirstDeadline(s.access, true) == 0
  {
    PrefixKeys(s.identity, items, s.shot.index);
    assert forall k :: !Eligible(s.access, true, k);
    FirstDeadlineIs(s.access, true, 0);
  }

  lemma PrefixKeys(identity: Identity, items: seq<Item>, n: nat)
    requires n <= |items|
    ensures UnknownKeys(identity, items[..n]) <= UnknownKeys(identity, items)
  {
    forall k | k in UnknownKeys(identity, items[..n]) ensures k in UnknownKeys(identity, items) {
      var j :| 0 <= j < n && ItemUnknown(identity, items[..n][j]) && KeyOf(items[..n][j]) == k;
      assert items[j] == items[..n][j];
    }
  }

  lemma DecisionGoesOn(s: Sel, items: seq<Item>, i: nat)
    requires Returning(s, items, i) && s.phase == Scan && s.shot.index == |items| && Step(s).0.Pending?
    ensures Returning(Step(s).1, items, i) && Left(Step(s).1, items) < Left(s, items)
  {
    assert s.shot.items == items;
    StepKeepsInv(s);
    FairStays(s.ears, Step(s).1.ears, items);
    DecidePhases(s);
    DecideProgress(s);
    if Step(s).1.phase == Open { OpenStarts(s); } else { WalkStarts(s); }
  }

  lemma DecisionWaits(s: Sel, items: seq<Item>, i: nat)
    requires Returning(s, items, i) && s.phase == Scan && Step(s).0.Wait? && Step(s).1.phase == Idle
    ensures Returning(Step(s).1, items, i)
  {
    StepKeepsInv(s);
    FairStays(s.ears, Step(s).1.ears, items);
  }

  lemma DecisionReturns(s: Sel, items: seq<Item>, i: nat)
    requires Returning(s, items, i) && s.phase == Scan && s.shot.index == |items|
    ensures StepsOn(s, items, i, Step(s))
  {
    RuledOnTime(s, items, i);
    if Step(s).0.Pending? { DecisionGoesOn(s, items, i); } else { DecisionWaits(s, items, i); }
    OnTimeGoesOn(s, items, i, Step(s));
  }

  lemma OnTimeGoesOn(s: Sel, items: seq<Item>, i: nat, a: (Result, Sel))
    requires i < |items| && s.phase == Scan && OnTime(s, a) && Returning(a.1, items, i)
    requires a.0.Pending? ==> Left(a.1, items) < Left(s, items)
    ensures StepsOn(s, items, i, a)
  {
  }

  /** A decision that goes on, or waits for a walk until it is due. */
  ghost predicate OnTime(s: Sel, a: (Result, Sel)) {
    && (a.0.Pending? || a.0.Wait?) && SameTimes(s, a.1)
    && (a.0.Wait? ==> a.1.phase == Idle && !Due(s, s.ears.clock) && s.ears.clock < a.1.retryAt && Due(a.1, a.1.retryAt))
  }

  lemma WalkOnTime(s: Sel, present: nat)
    requires Unchanged(s) && s.phase == Scan
    ensures OnTime(s, StartWalk(s, present))
  {
    WalkStartsWhenDue(s, present);
  }

  lemma RuledDecision(s: Sel, items: seq<Item>)
    requires s.shot.items == items
    ensures PlainOpenRule(s.identity, items) ==> DecideInner(s) == (Pending, s.(ruleB := false, phase := Open))
    ensures RuleBRule(s.identity, items) ==> DecideInner(s) == StartWalk(s.(ruleB := false), TallyItems(s.identity, items).present)
  {
    RulesByTally(s.identity, items);
  }

  lemma OpenOnTime(s: Sel, a: (Result, Sel))
    requires s.phase == Scan && a == (Pending, s.(ruleB := false, phase := Open))
    ensures OnTime(s, a)
  {
  }

  lemma UnruledOnTime(s: Sel, s0: Sel, a: (Result, Sel))
    requires s0 == s.(ruleB := false) && OnTime(s0, a)
    ensures OnTime(s, a)
  {
  }

  lemma InnerOnTime(s: Sel, items: seq<Item>)
    requires s.shot.items == items && Unchanged(s) && s.phase == Scan
    requires PlainOpenRule(s.identity, items) || RuleBRule(s.identity, items)
    ensures OnTime(s, DecideInner(s))
  {
    RuledDecision(s, items);
    var a := DecideInner(s);
    if PlainOpenRule(s.identity, items) {
      OpenOnTime(s, a);
    } else {
      var s0 := s.(ruleB := false);
      WalkOnTime(s0, TallyItems(s.identity, items).present);
      UnruledOnTime(s, s0, a);
    }
  }

  /** Under the rules a decision starts an open, or a walk that is due. */
  lemma DecisionOnTime(s: Sel, items: seq<Item>)
    requires s.phase == Scan && s.shot.items == items && Unchanged(s)
    requires PlainOpenRule(s.identity, items) || RuleBRule(s.identity, items)
    ensures OnTime(s, Decide(s))
  {
    InnerOnTime(s.(ears := s.ears.(accessHold := false), access := StillUnresolved(s.access)), items);
  }

  lemma RuledOnTime(s: Sel, items: seq<Item>, i: nat)
    requires Returning(s, items, i) && s.phase == Scan && s.shot.index == |items|
    ensures OnTime(s, Step(s))
  {
    assert s.shot.items == items;
    ChosenIsRuled(s.identity, items, i);
    DecisionOnTime(s, items);
  }

  lemma OpenReturns(s: Sel, items: seq<Item>, i: nat)
    requires Returning(s, items, i) && s.phase == Open
    ensures StepsOn(s, items, i, Step(s))
  {
    OpenDecides(s, items);
    HandedIsChosen(s, items, i, Step(s));
  }

  lemma HandedIsChosen(s: Sel, items: seq<Item>, i: nat, a: (Result, Sel))
    requires Chosen(s.identity, items, i) && Decided(s, items, a)
    ensures a.0.Opened? && a.1.usb.handed == s.usb.handed + [items[i]]
  {
    if HandsOut(s, items, a) {
      var j: nat :| Chosen(s.identity, items, j) && a.1.usb.handed == s.usb.handed + [items[j]]
                    && a.1.identity == Commit(s.identity, items[j]);
      ChosenOnce(s.identity, items, i, j);
    }
  }

  lemma WalkReturns(s: Sel, items: seq<Item>, i: nat)
    requires Returning(s, items, i) && s.phase == Walk
    ensures StepsOn(s, items, i, Step(s))
  {
    WalkDecides(s, items);
    if Decided(s, items, Step(s)) {
      HandedIsChosen(s, items, i, Step(s));
    } else {
      WalkStepGood(s);
      PendingProgress(s);
      FairStays(s.ears, Step(s).1.ears, items);
    }
  }

  /** Each step of a reopen takes it nearer to the chosen stick. */
  lemma StepReturns(s: Sel, items: seq<Item>, i: nat)
    requires Returning(s, items, i)
    ensures StepsOn(s, items, i, Step(s))
  {
    match s.phase
    case Scan => if s.shot.index < |items| { ItemReturns(s, items, i); } else { DecisionReturns(s, items, i); }
    case Open => OpenReturns(s, items, i);
    case Walk => WalkReturns(s, items, i);
    case _ => BeginReturns(s, items, i);
  }
}
