/**
 * What the selection decides: the rules of the decision after a finished scan, against
 * the counts its single pass makes.
 */
module Ch341SelectProgress {
  import opened Prelude
  import opened Ch341Select
  import opened Ch341SelectSafety

  // ---- the rules of the decision ------------------------------------------------------------

  predicate Present(it: Item) {
    it.openable != Gone
  }

  /** The classes of stick the decision counts. */
  datatype Class = Matching | UnknownStick | Unopened | WithoutSerial | Attached

  predicate Is(c: Class, identity: Identity, it: Item) {
    match c
    case Matching => Matches(identity, it)
    case UnknownStick => Present(it) && CountsUnknown(it)
    case Unopened => Present(it) && it.openable != Openable
    case WithoutSerial => Present(it) && !CountsUnknown(it) && it.state == NoSerial
    case Attached => Present(it)
  }

  ghost predicate NoneOf(items: seq<Item>, c: Class, identity: Identity) {
    forall i | 0 <= i < |items| :: !Is(c, identity, items[i])
  }

  ghost predicate ExactlyOne(items: seq<Item>, c: Class, identity: Identity) {
    exists i | 0 <= i < |items| ::
      Is(c, identity, items[i]) && forall j | 0 <= j < |items| && j != i :: !Is(c, identity, items[j])
  }

  ghost predicate Several(items: seq<Item>, c: Class, identity: Identity) {
    exists i, j | 0 <= i < j < |items| :: Is(c, identity, items[i]) && Is(c, identity, items[j])
  }

  /** The plain open. By serial: exactly one attached stick with it and no unknown
      stick beside it. Otherwise: exactly one attached stick, and it can be opened. */
  ghost predicate PlainOpenRule(identity: Identity, items: seq<Item>) {
    if identity.BySerial? then ExactlyOne(items, Matching, identity) && NoneOf(items, UnknownStick, identity)
    else ExactlyOne(items, Attached, identity) && NoneOf(items, Unopened, identity)
  }

  /** Rule B: without a serial to look for, several attached sticks, all of them
      openable, exactly one without a serial. */
  ghost predicate RuleBRule(identity: Identity, items: seq<Item>) {
    && !identity.BySerial?
    && Several(items, Attached, identity)
    && NoneOf(items, Unopened, identity)
    && ExactlyOne(items, WithoutSerial, identity)
  }

  ghost function Hits(items: seq<Item>, c: Class, identity: Identity): set<nat> {
    set i: nat | i < |items| && Is(c, identity, items[i])
  }

  /** The one pass over the items counts each class of stick. */
  lemma {:induction false} TallyCounts(identity: Identity, items: seq<Item>)
    ensures var t := TallyItems(identity, items);
            && t.match_ == |Hits(items, Matching, identity)|
            && t.unknown == |Hits(items, UnknownStick, identity)|
            && t.unopened == |Hits(items, Unopened, identity)|
            && t.noSerial == |Hits(items, WithoutSerial, identity)|
            && t.present == |Hits(items, Attached, identity)|
  {
    if items == [] {
      assert forall c :: Hits(items, c, identity) == {};
    } else {
      TallyCounts(identity, items[..|items| - 1]);
      HitsGrow(items, Matching, identity);
      HitsGrow(items, UnknownStick, identity);
      HitsGrow(items, Unopened, identity);
      HitsGrow(items, WithoutSerial, identity);
      HitsGrow(items, Attached, identity);
    }
  }

  lemma HitsGrow(items: seq<Item>, c: Class, identity: Identity)
    requires items != []
    ensures |Hits(items, c, identity)|
            == |Hits(items[..|items| - 1], c, identity)| + (if Is(c, identity, items[|items| - 1]) then 1 else 0)
  {
    var n := |items| - 1;
    var front := Hits(items[..n], c, identity);
    forall i ensures i in Hits(items, c, identity) <==> i in front || (i == n && Is(c, identity, items[n])) {
      if 0 <= i < n { assert items[..n][i] == items[i]; }
    }
    if Is(c, identity, items[n]) {
      assert n !in front && Hits(items, c, identity) == front + {n};
    } else {
      assert Hits(items, c, identity) == front;
    }
  }

  lemma NoHits(items: seq<Item>, c: Class, identity: Identity)
    ensures |Hits(items, c, identity)| == 0 <==> NoneOf(items, c, identity)
  {
    var hits := Hits(items, c, identity);
    if hits == {} {
      forall i | 0 <= i < |items| ensures !Is(c, identity, items[i]) { assert i !in hits; }
    } else {
      var i :| i in hits;
    }
  }

  lemma OneHit(items: seq<Item>, c: Class, identity: Identity)
    ensures |Hits(items, c, identity)| == 1 <==> ExactlyOne(items, c, identity)
  {
    var hits := Hits(items, c, identity);
    if |hits| == 1 {
      var i :| i in hits;
      assert hits == {i} by { assert |hits - {i}| == 0; }
      forall j | 0 <= j < |items| && j != i ensures !Is(c, identity, items[j]) { assert j !in hits; }
    }
    if ExactlyOne(items, c, identity) {
      var i :| 0 <= i < |items| && Is(c, identity, items[i])
               && forall j | 0 <= j < |items| && j != i :: !Is(c, identity, items[j]);
      assert hits == {i};
    }
  }

  lemma SeveralHits(items: seq<Item>, c: Class, identity: Identity)
    ensures |Hits(items, c, identity)| > 1 <==> Several(items, c, identity)
  {
    var hits := Hits(items, c, identity);
    if i, j :| 0 <= i < j < |items| && Is(c, identity, items[i]) && Is(c, identity, items[j]) {
      assert {i, j} <= hits;
      assert |hits| == |hits - {i, j}| + |{i, j}|;
    }
    if |hits| > 1 {
      var a :| a in hits;
      assert |hits - {a}| > 0;
      var b :| b in hits - {a};
      assert Is(c, identity, items[Min(a, b)]) && Is(c, identity, items[Max(a, b)]);
    }
  }

  /** The decision opens the one right stick, walks under Rule B (or waits for the gap between
      walks), or opens nothing. */
  lemma DecisionRules(s: Sel)
    requires Inv(s) && s.phase == Scan && s.shot.index == |s.shot.items| && s.usb.bound.None?
    ensures Step(s).1.phase == Open <==> PlainOpenRule(s.identity, s.shot.items)
    ensures Step(s).1.phase == Walk ==> RuleBRule(s.identity, s.shot.items)
    ensures RuleBRule(s.identity, s.shot.items) ==> Step(s).1.phase == Walk || Step(s).0.Wait?
    ensures Step(s).0.Pending? <==> Step(s).1.phase in {Open, Walk}
  {
    RulesByTally(s.identity, s.shot.items);
    DecidePhases(s);
  }

  lemma RulesByTally(id: Identity, items: seq<Item>)
    ensures var t := TallyItems(id, items);
            PlainOpenRule(id, items) <==> if id.BySerial? then t.match_ == 1 && t.unknown == 0
                                          else t.present == 1 && t.unopened == 0
    ensures var t := TallyItems(id, items);
            !id.BySerial? && t.present > 1 && t.noSerial == 1 && t.unopened == 0 <==> RuleBRule(id, items)
  {
    TallyCounts(id, items);
    OneHit(items, Matching, id);
    NoHits(items, UnknownStick, id);
    NoHits(items, Unopened, id);
    OneHit(items, WithoutSerial, id);
    OneHit(items, Attached, id);
    SeveralHits(items, Attached, id);
  }

  lemma DecidePhases(s: Sel)
    requires Inv(s) && s.phase == Scan && s.usb.bound.None?
    ensures var a, t := Decide(s), TallyItems(s.identity, s.shot.items);
            && (a.1.phase == Open <==> if s.identity.BySerial? then t.match_ == 1 && t.unknown == 0
                                       else t.present == 1 && t.unopened == 0)
            && (a.1.phase == Walk ==> !s.identity.BySerial? && t.present > 1 && t.noSerial == 1 && t.unopened == 0)
            && (!s.identity.BySerial? && t.present > 1 && t.noSerial == 1 && t.unopened == 0 ==> a.1.phase == Walk || a.0.Wait?)
            && (a.0.Pending? <==> a.1.phase in {Open, Walk})
            && (a.0.Pending? ==> a.1.shot == s.shot && a.1.ears.changes == s.ears.changes)
            && (a.1.phase == Walk ==> a.1.walk.attempts == 0)
  {
    var s0 := s.(ears := s.ears.(accessHold := false), access := StillUnresolved(s.access));
    assert Stamped(s0.access);
    if s.identity.BySerial? {
      SerialPhases(s0.(ruleB := false), TallyItems(s.identity, s.shot.items));
    } else {
      OtherPhases(s0, TallyItems(s.identity, s.shot.items));
    }
  }

  lemma OtherPhases(s: Sel, t: Tally)
    requires Base(s) && Closed(s) && s.phase == Scan && !s.identity.BySerial? && t == TallyItems(s.identity, s.shot.items)
    ensures var a := DecideInner(s);
            && (a.1.phase == Open <==> t.present == 1 && t.unopened == 0)
            && (a.1.phase == Walk ==> t.present > 1 && t.noSerial == 1 && t.unopened == 0)
            && (t.present > 1 && t.noSerial == 1 && t.unopened == 0 ==> a.1.phase == Walk || a.0.Wait?)
            && (a.0.Pending? <==> a.1.phase in {Open, Walk})
            && (a.0.Pending? ==> a.1.shot == s.shot && a.1.ears.changes == s.ears.changes)
            && (a.1.phase == Walk ==> a.1.walk.attempts == 0)
  {
    var s0 := s.(ruleB := false);
    if t.present == 0 {
      RefuseAnswers(s0, NoneAttached);
    } else if t.present == 1 {
      if t.unopened > 0 { AccessWaitAnswers(s0); }
    } else if t.noSerial > 1 {
      RefuseAnswers(s0, SeveralWithoutSerial);
    } else if t.unopened > 0 {
      AccessWaitAnswers(s0);
    } else if t.noSerial == 0 {
      RefuseAnswers(s0, SeveralSticks);
    } else {
      WalkPhases(s0, t.present);
    }
  }

  lemma SerialPhases(s: Sel, t: Tally)
    requires Base(s) && Closed(s) && s.phase == Scan
    ensures var a := DecideSerial(s, t);
            && (a.1.phase == Open <==> t.match_ == 1 && t.unknown == 0)
            && a.1.phase in {Idle, Open} && (a.0.Pending? <==> a.1.phase == Open)
            && (a.0.Pending? ==> a.1.shot == s.shot && a.1.ears.changes == s.ears.changes)
  {
    if t.match_ > 1 {
      RefuseAnswers(s, NotUnique);
    } else if t.match_ == 1 && t.unknown == 0 {
    } else if t.unknown > 0 {
      AccessWaitAnswers(s);
    } else {
      RefuseAnswers(s, NoMatch);
    }
  }

  lemma WalkPhases(s: Sel, present: nat)
    ensures var a := StartWalk(s, present);
            && a.1.phase in {Idle, Walk} && (a.0.Pending? <==> a.1.phase == Walk) && (a.1.phase == Idle ==> a.0.Wait?)
            && (a.0.Pending? ==> a.1.shot == s.shot && a.1.ears.changes == s.ears.changes && a.1.walk.attempts == 0)
  {
  }
}
