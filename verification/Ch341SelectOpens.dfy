/**
 * The positive side of the selection: on a quiet bus with an honest pine64 the start loop
 * hands out a stick if and only if one can be chosen, and then that one.
 */
module Ch341SelectOpens {
  import opened Prelude
  import opened Ch341Select
  import opened Ch341SelectSafety
  import opened Ch341SelectProgress
  import opened Ch341SelectStart

  // ---- the stick to be chosen ------------------------------------------------------------------

  /** A stick the remembered identity accepts; without one, any whose identity can be told. */
  predicate Accepted(identity: Identity, it: Item) {
    match identity
    case AnyStick => it.state != Unreadable
    case BySerial(serial) => it.state == HasSerial && First8(it.serial) == First8(serial)
    case ByPort(port) => it.state == NoSerial && it.port == port
  }

  predicate Resolved(it: Item) {
    it.openable == Gone || it.openable == Openable
  }

  /** The sticks a choice is made among: by serial those with the serial; otherwise, of
      several attached ones, those without a serial. */
  predicate Candidate(identity: Identity, items: seq<Item>, i: nat)
    requires i < |items|
  {
    && items[i].openable == Openable
    && (if identity.BySerial? then Accepted(identity, items[i])
        else (forall j | 0 <= j < |items| && j != i :: items[j].openable == Gone) || items[i].state == NoSerial)
  }

  /** Stick i is the one: acceptable, the only candidate, and no stick beside it that could
      be one unknown to the monitor. */
  ghost predicate Chosen(identity: Identity, items: seq<Item>, i: nat) {
    && i < |items| && Candidate(identity, items, i) && Accepted(identity, items[i])
    && (forall j | 0 <= j < |items| && j != i :: !Candidate(identity, items, j))
    && (forall j | 0 <= j < |items| ::
          Resolved(items[j]) && (identity.BySerial? && items[j].openable == Openable ==> items[j].state != Unreadable))
  }

  // ---- an honest pine64 ------------------------------------------------------------------------

  /** A stick it can take: attached, openable, not held already, with the serial if one is
      asked for. */
  predicate Takes(items: seq<Item>, serial: Option<string>, held: seq<Item>, it: Item) {
    && it in items && it.openable == Openable && it !in held
    && (serial.Some? ==> it.state == HasSerial && First8(it.serial) == First8(serial.value))
  }

  /** From this call on: an open takes a stick whenever there is one to take; identities are
      read as they are; the monitor finds the opened stick. */
  ghost predicate Honest(e: Ears, items: seq<Item>) {
    && (forall k: nat, serial, held, it | e.calls <= k && e.env.opens(k, serial, held) == Some(it) :: Takes(items, serial, held, it))
    && (forall k: nat, serial, held | e.calls <= k && e.env.opens(k, serial, held).None? :: forall it :: !Takes(items, serial, held, it))
    && (forall k: nat, it | e.calls <= k :: e.env.identify(k, it) == Some(it))
    && (forall k: nat | e.calls <= k :: e.env.binds(k))
  }

  lemma HonestStays(e: Ears, e1: Ears, items: seq<Item>)
    requires Honest(e, items) && e1.env == e.env && e.calls <= e1.calls
    ensures Honest(e1, items)
  {
  }

  // ---- the rules of the decision choose ----------------------------------------------------------

  /** A chosen stick is opened plainly or looked for by a walk. */
  lemma ChosenIsRuled(identity: Identity, items: seq<Item>, i: nat)
    requires Chosen(identity, items, i)
    ensures PlainOpenRule(identity, items) || RuleBRule(identity, items)
  {
    if identity.BySerial? || forall j | 0 <= j < |items| && j != i :: items[j].openable == Gone {
      ChosenPlainly(identity, items, i);
    } else {
      ChosenOnWalk(identity, items, i);
    }
  }

  lemma ChosenPlainly(identity: Identity, items: seq<Item>, i: nat)
    requires Chosen(identity, items, i)
    requires identity.BySerial? || forall j | 0 <= j < |items| && j != i :: items[j].openable == Gone
    ensures PlainOpenRule(identity, items)
  {
    if identity.BySerial? {
      assert Is(Matching, identity, items[i]);
      forall j | 0 <= j < |items| && j != i ensures !Is(Matching, identity, items[j]) {
        assert !Candidate(identity, items, j);
      }
    } else {
      assert Is(Attached, identity, items[i]);
    }
  }

  lemma ChosenOnWalk(identity: Identity, items: seq<Item>, i: nat)
    requires Chosen(identity, items, i) && !identity.BySerial?
    requires exists j | 0 <= j < |items| && j != i :: items[j].openable != Gone
    ensures RuleBRule(identity, items)
  {
    var j :| 0 <= j < |items| && j != i && items[j].openable != Gone;
    assert Is(Attached, identity, items[Min(i, j)]) && Is(Attached, identity, items[Max(i, j)]);
    assert Is(WithoutSerial, identity, items[i]);
    forall k | 0 <= k < |items| && k != i ensures !Is(WithoutSerial, identity, items[k]) {
      assert !Candidate(identity, items, k);
    }
  }

  /** What pine64 takes under the rule for a plain open: the only one to choose from. */
  lemma PlainTaken(identity: Identity, items: seq<Item>, it: Item)
    requires PlainOpenRule(identity, items) && Takes(items, AskedFor(identity), [], it)
    ensures Accepted(identity, it) ==> exists i: nat :: Chosen(identity, items, i) && items[i] == it
    ensures !Accepted(identity, it) ==> forall i: nat :: !Chosen(identity, items, i)
  {
    var n :| 0 <= n < |items| && items[n] == it;
    if identity.BySerial? {
      assert Is(Matching, identity, items[n]) by { assert !Is(UnknownStick, identity, items[n]); }
      forall j | 0 <= j < |items| ensures !Is(UnknownStick, identity, items[j]) {}
      forall j | 0 <= j < |items| && j != n ensures !Candidate(identity, items, j) {
        assert !Is(Matching, identity, items[j]);
      }
      assert Chosen(identity, items, n);
    } else {
      assert Is(Attached, identity, items[n]);
      forall j | 0 <= j < |items| && j != n ensures items[j].openable == Gone {
        assert !Is(Attached, identity, items[j]);
      }
      if Accepted(identity, it) { assert Chosen(identity, items, n); }
    }
  }

  /** There is one to take. */
  lemma PlainTakes(identity: Identity, items: seq<Item>)
    requires PlainOpenRule(identity, items)
    ensures exists it :: Takes(items, AskedFor(identity), [], it)
  {
    if identity.BySerial? {
      var i :| 0 <= i < |items| && Is(Matching, identity, items[i]);
      assert Takes(items, AskedFor(identity), [], items[i]);
    } else {
      var i :| 0 <= i < |items| && Is(Attached, identity, items[i]);
      assert !Is(Unopened, identity, items[i]);
      assert Takes(items, AskedFor(identity), [], items[i]);
    }
  }

  /** Under Rule B the stick without a serial is the one, if its port is right. */
  lemma WalkTaken(identity: Identity, items: seq<Item>, it: Item)
    requires RuleBRule(identity, items) && it in items && it.openable == Openable && it.state == NoSerial
    ensures Accepted(identity, it) ==> exists i: nat :: Chosen(identity, items, i) && items[i] == it
    ensures !Accepted(identity, it) ==> forall i: nat :: !Chosen(identity, items, i)
  {
    var n :| 0 <= n < |items| && items[n] == it;
    assert Is(WithoutSerial, identity, items[n]);
    var a, b :| 0 <= a < b < |items| && Is(Attached, identity, items[a]) && Is(Attached, identity, items[b]);
    forall j | 0 <= j < |items| && j != n ensures !Candidate(identity, items, j) && Resolved(items[j]) {
      assert !Is(WithoutSerial, identity, items[j]) && !Is(Unopened, identity, items[j]);
      assert items[a].openable != Gone && items[b].openable != Gone;
    }
    if Accepted(identity, it) { assert Chosen(identity, items, n); }
  }

  // ---- opening, quietly and honestly ---------------------------------------------------------------

  ghost predicate Fair(e: Ears, items: seq<Item>) {
    Quiet(e, items) && Honest(e, items)
  }

  lemma FairStays(e: Ears, e1: Ears, items: seq<Item>)
    requires Fair(e, items) && e1.env == e.env && e.calls <= e1.calls
    ensures Fair(e1, items)
  {
  }

  lemma FairWindow(s: Sel, items: seq<Item>)
    requires Unchanged(s) && Fair(s.ears, items)
    ensures var (stale, s1) := WindowStale(s);
            !stale && Unchanged(s1) && s1 == s.(ears := s1.ears) && Fair(s1.ears, items)
  {
    FreshWindow(s, items);
    WindowStaleListens(s);
    FairStays(s.ears, WindowStale(s).1.ears, items);
  }

  /** A checked stick is bound and handed out. */
  lemma BoundAndHanded(s: Sel, items: seq<Item>, dev: nat, id: Item)
    requires Unchanged(s) && Fair(s.ears, items)
    ensures var (r, s1) := BindAndCommit(s, dev, id);
            r == Opened(dev) && s1.usb.handed == s.usb.handed + [id] && s1.identity == Commit(s.identity, id)
  {
    var s1 := BindDev(s, dev).1;
    assert BindDev(s, dev).0;
    FairStays(s.ears, s1.ears, items);
    FairWindow(s1, items);
    var s2 := WindowStale(s1).1;
    assert !BoundLeft(s2).0;
  }

  /** An opened stick is handed out if it is acceptable, and a walk's has no serial. */
  lemma OpenedHanded(s: Sel, items: seq<Item>, dev: nat)
    requires Unchanged(s) && Fair(s.ears, items)
    requires s.ruleB ==> StickOf(s.usb, dev).state == NoSerial && !s.identity.BySerial?
    ensures var (r, s1) := OpenedDev(s, dev);
            var it := StickOf(s.usb, dev);
            if Accepted(s.identity, it) then
              r == Opened(dev) && s1.usb.handed == s.usb.handed + [it] && s1.identity == Commit(s.identity, it)
            else !r.Opened? && (s.atStart ==> r.Refused?)
  {
    var (read, s1) := Identify(s, dev);
    var it := StickOf(s.usb, dev);
    assert read == Some(it);
    FairStays(s.ears, s1.ears, items);
    FairWindow(s1, items);
    var s2 := WindowStale(s1).1;
    if Accepted(s.identity, it) {
      assert PostOpenCheck(s.identity, s.ruleB, read) == Good(it);
      BoundAndHanded(s2, items, dev, it);
    } else {
      assert PostOpenCheck(s.identity, s.ruleB, read).Bad?;
      if s.atStart { FreshRefuses(CloseDev(s2, dev), PostOpenCheck(s.identity, s.ruleB, read).why); }
    }
  }

  ghost predicate HandsOut(s: Sel, items: seq<Item>, a: (Result, Sel)) {
    exists i: nat :: Chosen(s.identity, items, i) && a.0.Opened?
      && a.1.usb.handed == s.usb.handed + [items[i]] && a.1.identity == Commit(s.identity, items[i])
  }

  ghost predicate NoneChosen(identity: Identity, items: seq<Item>) {
    forall i: nat :: !Chosen(identity, items, i)
  }

  /** The chosen stick is handed out; without one, none is, and at the start that is final. */
  ghost predicate Decided(s: Sel, items: seq<Item>, a: (Result, Sel)) {
    HandsOut(s, items, a) || (NoneChosen(s.identity, items) && !a.0.Opened? && (s.atStart ==> a.0.Refused?))
  }

  lemma OpenDecides(s: Sel, items: seq<Item>)
    requires Unchanged(s) && Fair(s.ears, items) && !s.ruleB && s.walk.held == []
    requires PlainOpenRule(s.identity, items)
    ensures Decided(s, items, OpenStep(s))
  {
    var s1 := Now(s).1;
    assert StaleNow(s) == (false, s1);
    FairStays(s.ears, s1.ears, items);
    PlainTakes(s.identity, items);
    assert HeldSticks(s1.usb, s1.walk.held) == [];
    var (dev, s2) := OpenDev(s1, AskedFor(s1.identity));
    FairStays(s1.ears, s2.ears, items);
    var it := StickOf(s2.usb, dev.value);
    PlainTaken(s.identity, items, it);
    OpenedHanded(s2, items, dev.value);
  }

  // ---- the walk ------------------------------------------------------------------------------------

  predicate NoTwice(held: seq<Item>) {
    forall i, j | 0 <= i < j < |held| :: held[i] != held[j]
  }

  /** The sticks a walk has passed: attached ones, each once, none without a serial. */
  predicate Passed(items: seq<Item>, held: seq<Item>) {
    NoTwice(held) && forall it | it in held :: it in items && it.openable == Openable && it.state != NoSerial
  }

  function AttachedOf(items: seq<Item>): set<Item> {
    set it | it in items && it.openable != Gone
  }

  lemma {:induction false} AttachedFew(identity: Identity, items: seq<Item>)
    ensures |AttachedOf(items)| <= |Hits(items, Attached, identity)|
  {
    if items == [] {
      assert AttachedOf(items) == {};
    } else {
      var front, last := items[..|items| - 1], items[|items| - 1];
      AttachedFew(identity, front);
      HitsGrow(items, Attached, identity);
      assert items == front + [last];
      assert AttachedOf(items) == AttachedOf(front) + if last.openable != Gone then {last} else {};
    }
  }

  function ItemsOf(held: seq<Item>): set<Item> {
    set it | it in held
  }

  lemma {:induction false} NoTwiceCounts(held: seq<Item>)
    requires NoTwice(held)
    ensures |ItemsOf(held)| == |held|
  {
    if held != [] {
      var front, last := held[..|held| - 1], held[|held| - 1];
      NoTwiceCounts(front);
      assert held == front + [last];
      assert ItemsOf(held) == ItemsOf(front) + {last};
    }
  }

  /** As long as the stick without a serial is not met, some attached stick is left. */
  lemma WalkHasMore(identity: Identity, items: seq<Item>, held: seq<Item>)
    requires RuleBRule(identity, items) && Passed(items, held)
    ensures |held| < |Hits(items, Attached, identity)|
    ensures exists it :: Takes(items, None, held, it)
  {
    var i :| 0 <= i < |items| && Is(WithoutSerial, identity, items[i]);
    assert Takes(items, None, held, items[i]);
    AttachedFew(identity, items);
    NoTwiceCounts(held);
    Fewer(ItemsOf(held), AttachedOf(items), items[i]);
  }

  lemma Fewer(a: set<Item>, b: set<Item>, it: Item)
    requires a <= b && it in b && it !in a
    ensures |a| < |b|
  {
    assert |b - a| > 0;
    assert b == a + (b - a);
  }

  ghost predicate OnWalk(s: Sel, items: seq<Item>) {
    && s.ruleB && Unchanged(s) && RuleBRule(s.identity, items)
    && s.walk.snap == |Hits(items, Attached, s.identity)|
    && Passed(items, HeldSticks(s.usb, s.walk.held))
  }

  /** An attempt: the stick taken is passed on, or it is the one without a serial. */
  lemma WalkOpenedDecides(s: Sel, items: seq<Item>, dev: nat)
    requires OnWalk(s, items) && Fair(s.ears, items)
    requires Takes(items, None, HeldSticks(s.usb, s.walk.held), StickOf(s.usb, dev))
    ensures var a := WalkOpened(s, dev);
            Decided(s, items, a)
            || (a.0.Pending? && OnWalk(a.1, items) && a.1.identity == s.identity && a.1.usb.handed == s.usb.handed)
  {
    var it, s1 := StickOf(s.usb, dev), Identify(s, dev).1;
    assert Identify(s, dev).0 == Some(it);
    FairStays(s.ears, s1.ears, items);
    FairWindow(s1, items);
    var s2 := WindowStale(s1).1;
    if it.state != NoSerial {
      var held, held1 := s.walk.held, s.walk.held + [dev];
      assert HeldSticks(s.usb, held1) == HeldSticks(s.usb, held) + [it];
    } else {
      var s3 := EndWalk(s2);
      FairStays(s2.ears, s3.ears, items);
      WalkTaken(s.identity, items, it);
      OpenedHanded(s3, items, dev);
    }
  }

  /** Handles in use keep their sticks when a new one is opened. */
  lemma HeldStay(s: Sel, serial: Option<string>)
    requires forall d | d in s.walk.held :: d < s.usb.nextDev
    ensures HeldSticks(OpenDev(s, serial).1.usb, s.walk.held) == HeldSticks(s.usb, s.walk.held)
  {
    var held := s.walk.held;
    forall i | 0 <= i < |held| ensures StickOf(OpenDev(s, serial).1.usb, held[i]) == StickOf(s.usb, held[i]) {
      assert held[i] in held;
    }
  }

  lemma WalkDecides(s: Sel, items: seq<Item>)
    requires Inv(s) && s.phase == Walk && OnWalk(s, items) && Fair(s.ears, items)
    ensures var a := WalkStep(s);
            Decided(s, items, a)
            || (a.0.Pending? && OnWalk(a.1, items) && a.1.identity == s.identity && a.1.usb.handed == s.usb.handed)
  {
    var s1 := Now(s).1;
    assert StaleNow(s) == (false, s1);
    WalkHasMore(s.identity, items, HeldSticks(s.usb, s.walk.held));
    assert |s.walk.held| == s.walk.attempts < s.walk.snap;
    var s2 := Attempt(s1);
    assert forall d | d in s.walk.held :: d in SetOf(s.walk.held);
    HeldStay(s2, None);
    FairStays(s.ears, s2.ears, items);
    var (dev, s3) := OpenDev(s2, None);
    FairStays(s2.ears, s3.ears, items);
    WalkOpenedDecides(s3, items, dev.value);
  }

  // ---- the loop --------------------------------------------------------------------------------------

  /** A start selection on its way to the right answer. */
  ghost predicate Promising(s: Sel, items: seq<Item>) {
    && Calm(s, items) && Honest(s.ears, items)
    && (s.phase == Scan ==> Scanned(s, items) && Unchanged(s))
    && (s.phase == Open ==> !s.ruleB && Unchanged(s) && PlainOpenRule(s.identity, items))
    && (s.phase == Walk ==> OnWalk(s, items))
  }

  /** One turn's answer is right, or the way goes on. */
  ghost predicate GoesRight(s: Sel, items: seq<Item>, a: (Result, Sel)) {
    Decided(s, items, a)
    || (!Conclusive(a.0) && Promising(a.1, items) && a.1.identity == s.identity && a.1.usb.handed == s.usb.handed)
  }

  /** What a step that goes on leaves the turn with. */
  function TurnEnd(a: (Result, Sel)): (Result, Sel) {
    (a.0, if a.0.Wait? then Begin(Sleep(a.1, a.1.retryAt), true) else a.1)
  }

  lemma UnknownChoosesNone(identity: Identity, items: seq<Item>, k: Connection)
    requires k in UnknownKeys(identity, items)
    ensures NoneChosen(identity, items)
  {
    var j :| 0 <= j < |items| && ItemUnknown(identity, items[j]) && KeyOf(items[j]) == k;
    assert !Resolved(items[j]) || (identity.BySerial? && items[j].openable == Openable && items[j].state == Unreadable);
  }

  /** A deadline runs out only while some attached stick stays unresolved. */
  lemma ExpiryChoosesNone(s: Sel, items: seq<Item>)
    requires Scanned(s, items) && Stamped(s.access) && FirstDeadline(s.access, true) != 0
    ensures NoneChosen(s.identity, items)
  {
    FirstDeadlineIs(s.access, true, 0);
    var k :| Eligible(s.access, true, k) && s.access[k].at == FirstDeadline(s.access, true);
    var seen := items[..s.shot.index];
    var j :| 0 <= j < |seen| && ItemUnknown(s.identity, seen[j]) && KeyOf(seen[j]) == k;
    assert items[j] == seen[j] && k in UnknownKeys(s.identity, items);
    UnknownChoosesNone(s.identity, items, k);
  }

  lemma ScanGoesRight(s: Sel, items: seq<Item>)
    requires Promising(s, items) && s.phase == Scan && s.shot.index < |items|
    ensures GoesRight(s, items, TurnEnd(Step(s)))
  {
    var s1 := Now(s).1;
    assert StaleNow(s1) == (false, Now(s1).1);
    if FirstDeadline(s.access, true) == 0 {
      ItemGoesRight(s, s, items);
    } else if Now(s).0 >= FirstDeadline(s.access, true) {
      FreshRefuses(Now(s1).1.(access := map[]), NoPermission);
      ExpiryChoosesNone(s, items);
    } else {
      ItemGoesRight(s, s1, items);
    }
  }

  lemma ItemGoesRight(s: Sel, s1: Sel, items: seq<Item>)
    requires Promising(s, items) && s.phase == Scan && s.shot.index < |items|
    requires s1 in {s, Now(s).1} && Step(s) == ScanItem(s1)
    ensures GoesRight(s, items, TurnEnd(Step(s)))
  {
    QuietItem(s1, items, 1, 0);
    ItemIsNoChange(s1);
    StepCalm(s, items);
    StepKeepsInv(s);
    HonestStays(s.ears, Step(s).1.ears, items);
  }

  /** How a decision starts an open or a walk. */
  lemma DecisionStarts(s: Sel)
    requires Inv(s) && s.phase == Scan && s.usb.bound.None?
    ensures var s1 := Decide(s).1;
            && (s1.phase == Open ==> !s1.ruleB)
            && (s1.phase == Walk ==> s1.ruleB && s1.walk.held == [] && s1.walk.snap == TallyItems(s.identity, s.shot.items).present)
  {
    DecidePhases(s);
  }

  lemma RefusedChoosesNone(s: Sel, items: seq<Item>)
    requires Promising(s, items) && s.phase == Scan && s.shot.index == |items| && Step(s).0.Refused?
    ensures NoneChosen(s.identity, items)
  {
    assert s.shot.items == items;
    DecisionRules(s);
    forall i: nat ensures !Chosen(s.identity, items, i) {
      if Chosen(s.identity, items, i) { ChosenIsRuled(s.identity, items, i); }
    }
  }

  /** Whatever the unresolved sticks turn out to be, there are several to choose from. */
  ghost predicate Hopeless(identity: Identity, items: seq<Item>) {
    if identity.BySerial? then Several(items, Matching, identity)
    else Several(items, Attached, identity) && Several(items, WithoutSerial, identity)
  }

  /** An unresolved stick has its time: as long as its deadline has not run out, the decision
      waits for it, unless the choice is hopeless already. */
  lemma UnresolvedIsAwaited(s: Sel, items: seq<Item>)
    requires Scanned(s, items) && s.shot.index == |items| && Unchanged(s) && s.atStart && Stamped(s.access)
    requires UnknownKeys(s.identity, items) != {} && Now(s).0 < FirstDeadline(StillUnresolved(s.access), false)
    ensures if Hopeless(s.identity, items) then Decide(s).0.Refused? else Decide(s).0.Wait?
  {
    assert s.shot.items == items && items[..|items|] == items;
    var s0 := s.(ears := s.ears.(accessHold := false), access := StillUnresolved(s.access));
    assert s0.access.Keys == UnknownKeys(s.identity, items);
    HopelessCounts(s.identity, items);
    UnresolvedCounts(s.identity, items);
    TallyAwaits(s0, TallyItems(s.identity, items));
  }

  lemma TallyAwaits(s: Sel, t: Tally)
    requires t == TallyItems(s.identity, s.shot.items) && t.unknown > 0 && t.present > 0 && (!s.identity.BySerial? ==> t.unopened > 0)
    requires Unchanged(s) && s.atStart && Stamped(s.access) && s.access != map[] && Now(s).0 < FirstDeadline(s.access, false)
    ensures if (if s.identity.BySerial? then t.match_ > 1 else t.present > 1 && t.noSerial > 1) then DecideInner(s).0.Refused?
            else DecideInner(s).0.Wait?
  {
    var s0 := s.(ruleB := false);
    AccessWaits(s0);
    FreshRefuses(s0, NotUnique);
    FreshRefuses(s0, SeveralWithoutSerial);
  }

  lemma HopelessCounts(identity: Identity, items: seq<Item>)
    ensures var t := TallyItems(identity, items);
            Hopeless(identity, items) <==> if identity.BySerial? then t.match_ > 1 else t.present > 1 && t.noSerial > 1
  {
    TallyCounts(identity, items);
    SeveralHits(items, Matching, identity);
    SeveralHits(items, Attached, identity);
    SeveralHits(items, WithoutSerial, identity);
  }

  lemma UnresolvedCounts(identity: Identity, items: seq<Item>)
    requires UnknownKeys(identity, items) != {}
    ensures var t := TallyItems(identity, items);
            t.unknown > 0 && t.present > 0 && (!identity.BySerial? ==> t.unopened > 0)
  {
    TallyCounts(identity, items);
    var i :| 0 <= i < |items| && ItemUnknown(identity, items[i]);
    assert i in Hits(items, UnknownStick, identity) && i in Hits(items, Attached, identity);
    assert !identity.BySerial? ==> i in Hits(items, Unopened, identity);
  }

  lemma AccessWaits(s: Sel)
    requires Unchanged(s) && Stamped(s.access) && s.access != map[] && Now(s).0 < FirstDeadline(s.access, false)
    ensures AccessWait(s).0.Wait?
  {
    FirstDeadlineIs(s.access, false, 0);
  }

  lemma OpenStarts(s: Sel)
    requires Inv(s) && s.phase == Scan && s.shot.index == |s.shot.items| && s.usb.bound.None? && Unchanged(s)
    requires Step(s).1.phase == Open
    ensures var s1 := Step(s).1; !s1.ruleB && Unchanged(s1) && PlainOpenRule(s1.identity, s.shot.items)
  {
    DecisionRules(s);
    DecisionStarts(s);
    DecidePhases(s);
    StepKeepsInv(s);
  }

  lemma WalkStarts(s: Sel)
    requires Inv(s) && s.phase == Scan && s.shot.index == |s.shot.items| && s.usb.bound.None? && Unchanged(s)
    requires Step(s).1.phase == Walk
    ensures OnWalk(Step(s).1, s.shot.items)
  {
    WalkIsRuled(s);
    DecisionStarts(s);
    DecisionKeeps(s);
    NewWalk(s.identity, Step(s).1, s.shot.items);
  }

  lemma WalkIsRuled(s: Sel)
    requires Inv(s) && s.phase == Scan && s.shot.index == |s.shot.items| && s.usb.bound.None?
    ensures Step(s).1.phase == Walk ==> RuleBRule(s.identity, s.shot.items) && Step(s).0.Pending?
  {
    DecisionRules(s);
  }

  lemma DecisionKeeps(s: Sel)
    requires Inv(s) && s.phase == Scan && s.shot.index == |s.shot.items| && s.usb.bound.None? && Unchanged(s)
    ensures Step(s).0.Pending? ==> Unchanged(Step(s).1) && Step(s).1.identity == s.identity
  {
    DecidePhases(s);
    StepKeepsInv(s);
  }

  lemma DecideStartsRight(s: Sel, items: seq<Item>)
    requires Promising(s, items) && s.phase == Scan && s.shot.index == |items| && Step(s).0.Pending?
    ensures Promising(Step(s).1, items)
  {
    assert s.shot.items == items;
    DecidePhases(s);
    StepKeepsInv(s);
    StepCalm(s, items);
    HonestStays(s.ears, Step(s).1.ears, items);
    if Step(s).1.phase == Open { OpenStarts(s); } else { WalkStarts(s); }
  }

  lemma NewWalk(identity: Identity, s: Sel, items: seq<Item>)
    requires s.identity == identity && s.ruleB && Unchanged(s) && RuleBRule(identity, items)
    requires s.walk.held == [] && s.walk.snap == TallyItems(identity, items).present
    ensures OnWalk(s, items)
  {
    TallyCounts(identity, items);
    assert HeldSticks(s.usb, s.walk.held) == [];
  }

  lemma DecideGoesRight(s: Sel, items: seq<Item>)
    requires Promising(s, items) && s.phase == Scan && s.shot.index == |items|
    ensures GoesRight(s, items, TurnEnd(Step(s)))
  {
    StepKeepsInv(s);
    DecisionRules(s);
    if Step(s).0.Refused? {
      RefusedChoosesNone(s, items);
    } else if Step(s).0.Pending? {
      DecideStartsRight(s, items);
    } else if Step(s).0.Wait? {
      StepCalm(s, items);
      HonestStays(s.ears, TurnEnd(Step(s)).1.ears, items);
    } else {
      DecideGood(s);
    }
  }

  lemma WalkGoesRight(s: Sel, items: seq<Item>)
    requires Promising(s, items) && s.phase == Walk
    ensures GoesRight(s, items, TurnEnd(Step(s)))
  {
    WalkDecides(s, items);
    if !Decided(s, items, Step(s)) {
      StepCalm(s, items);
      WalkStepGood(s);
      HonestStays(s.ears, Step(s).1.ears, items);
    }
  }

  lemma BeginGoesRight(s: Sel, items: seq<Item>)
    requires Promising(s, items) && s.phase in {Idle, Done}
    ensures GoesRight(s, items, TurnEnd(Step(s)))
  {
    BeginsScanned(s, items);
    StepCalm(s, items);
    StepKeepsInv(s);
    HonestStays(s.ears, Step(s).1.ears, items);
  }

  lemma TurnGoesRight(s: Sel, items: seq<Item>)
    requires Promising(s, items)
    ensures GoesRight(s, items, Turn(s))
  {
    QuietEvents(s.ears, items);
    var s0 := Called(s);
    assert Promising(s0, items) && Turn(s) == TurnEnd(Step(s0));
    match s.phase
    case Scan => if s.shot.index < |items| { ScanGoesRight(s0, items); } else { DecideGoesRight(s0, items); }
    case Open => OpenDecides(s0, items);
    case Walk => WalkGoesRight(s0, items);
    case _ => BeginGoesRight(s0, items);
  }

  lemma {:induction false} LoopGoesRight(s: Sel, items: seq<Item>, turns: nat)
    requires Promising(s, items) && EndsWithin(s, turns)
    ensures Decided(s, items, LoopEnd(s, turns))
    decreases turns
  {
    TurnGoesRight(s, items);
    if !Conclusive(Turn(s).0) {
      LoopGoesRight(Turn(s).1, items, turns - 1);
    }
  }

  lemma ChosenOnce(identity: Identity, items: seq<Item>, i: nat, j: nat)
    requires Chosen(identity, items, i) && Chosen(identity, items, j)
    ensures i == j
  {
  }

  /** OPENED with the one chosen stick, or REFUSED without any. */
  ghost predicate AnswersRight(s: Sel, items: seq<Item>, a: (Result, Sel)) {
    && (a.0.Opened? <==> exists i: nat :: Chosen(s.identity, items, i))
    && (a.0.Refused? <==> !a.0.Opened?)
    && forall i: nat | Chosen(s.identity, items, i) ::
         a.1.usb.handed == s.usb.handed + [items[i]] && a.1.identity == Commit(s.identity, items[i])
  }

  lemma DecidedAnswersRight(s: Sel, items: seq<Item>, a: (Result, Sel))
    requires Decided(s, items, a) && s.atStart
    ensures AnswersRight(s, items, a)
  {
    if HandsOut(s, items, a) {
      var i: nat :| Chosen(s.identity, items, i)
                    && a.1.usb.handed == s.usb.handed + [items[i]] && a.1.identity == Commit(s.identity, items[i]);
      forall j: nat | Chosen(s.identity, items, j) ensures j == i {
        ChosenOnce(s.identity, items, i, j);
      }
    }
  }

  /** From any state at rest, once the bus is quiet and pine64 honest: the start loop ends,
      and it hands out a stick if and only if one can be chosen, and then that one. */
  lemma StartHandsOutTheChosen(s: Sel, items: seq<Item>)
    requires Calm(s, items) && s.phase in {Idle, Done} && Honest(s.ears, items)
    ensures exists turns :: EndsWithin(s, turns)
    ensures forall turns | EndsWithin(s, turns) :: AnswersRight(s, items, LoopEnd(s, turns))
  {
    var turns := LoopEnds(s, items, 2, 0);
    forall turns | EndsWithin(s, turns) ensures AnswersRight(s, items, LoopEnd(s, turns)) {
      LoopGoesRight(s, items, turns);
      DecidedAnswersRight(s, items, LoopEnd(s, turns));
    }
  }
}
