/**
 * The way back ends: on a quiet bus with an honest pine64 the stick to be chosen is in use
 * again after finitely many ticks.
 */
module UsbWaitReturn {
  import opened UsbWait
  import opened UsbWaitSafety
  import opened UsbWaitProgress
  import S = Ch341Select
  import Start = Ch341SelectStart
  import Opens = Ch341SelectOpens
  import Timing = Ch341SelectTiming
  import Returns = Ch341SelectReturns

  /** The next n ticks, with the answers from the k-th on. */
  ghost function After(p: Plug, ans: nat -> Answers, k: nat, n: nat): Plug
    decreases n
  {
    if n == 0 then p else After(Tick(p, ans(k)), ans, k + 1, n - 1)
  }

  /** The bus is silent, and a re-init succeeds. */
  predicate Still(a: Answers) {
    a.arrivals == a.lefts == 0 && a.reinit == Done(0)
  }

  /** The clock does not stand still for ever. */
  ghost predicate TimeGoesOn(e: S.Ears) {
    forall k: nat | e.calls <= k :: MovesAfter(e, k)
  }

  ghost predicate MovesAfter(e: S.Ears, k: nat) {
    exists j :: Moves(e, k, j)
  }

  predicate Moves(e: S.Ears, k: nat, j: nat) {
    k <= j && e.env.advance(j) > 0
  }

  /** Up again with that stick, under a new HAL. */
  ghost predicate BackWith(p: Plug, it: S.Item, q: Plug) {
    && q.exit == Running && q.state == Ready && q.health == HealthReady
    && q.hal == Hal(p.hal.id + 1, true, NotLost, 0) && q.sel.usb.handed == p.sel.usb.handed + [it]
  }

  // ---- one tick nearer -------------------------------------------------------------------------

  predicate NoNotes(p: Plug) {
    p.mon.arrivals == p.mon.lefts == 0
  }

  ghost predicate Away(p: Plug, items: seq<S.Item>, i: nat) {
    Inv(p) && p.state == Unplugged && !p.reinitPending && Returns.Returning(p.sel, items, i) && TimeGoesOn(p.sel.ears)
  }

  predicate DueNow(s: S.Sel) {
    s.phase in {S.Idle, S.Scan} ==> Timing.Due(s, s.ears.clock)
  }

  /** From last to first: a selection whose walk is due; the wait for that; a selection; the
      wait for a retry time, or a wake-up noted. */
  ghost predicate Coming(p: Plug, items: seq<S.Item>, i: nat, stage: nat, j: nat) {
    && Away(p, items, i)
    && match stage
       case 0 => p.reopening && NoNotes(p) && DueNow(p.sel)
       case 1 => ReopenIdle(p) && NoNotes(p) && p.sel.retryAt != 0 && !p.sel.atStart
                 && Timing.Due(p.sel, p.sel.retryAt) && Moves(p.sel.ears, p.sel.ears.calls, j)
       case 2 => p.reopening && NoNotes(p)
       case _ => !p.reopening && (p.forceReopen || !NoNotes(p) || (p.sel.retryAt != 0 && Moves(p.sel.ears, p.sel.ears.calls, j)))
  }

  function TimeLeft(p: Plug): nat {
    if p.reopening || p.sel.ears.clock >= p.sel.retryAt then 0 else p.sel.retryAt - p.sel.ears.clock
  }

  function StepsLeft(p: Plug, items: seq<S.Item>, j: nat): nat {
    if p.reopening then Returns.Left(p.sel, items) else if p.sel.ears.calls <= j then j - p.sel.ears.calls + 1 else 0
  }

  /** Of p at its stage, q at its own: nearer, with the same sticks handed out so far. */
  ghost predicate Nearer(p: Plug, stage: nat, j: nat, q: Plug, stage1: nat, j1: nat, items: seq<S.Item>, i: nat) {
    && Coming(q, items, i, stage1, j1) && q.sel.usb.handed == p.sel.usb.handed && q.hal == p.hal
    && (stage1 < stage
        || (stage1 == stage && (TimeLeft(q) < TimeLeft(p)
                                || (TimeLeft(q) == TimeLeft(p) && StepsLeft(q, items, j1) < StepsLeft(p, items, j)))))
  }

  /** What a selection step with its re-init comes to. */
  ghost predicate Comes(p: Plug, q: Plug, items: seq<S.Item>, i: nat)
    requires i < |items|
  {
    || BackWith(p, items[i], q)
    || (Apart(p, q) && q.reopening && Returns.Left(q.sel, items) < Returns.Left(p.sel, items)
        && Returns.Returning(q.sel, items, i) && (DueNow(p.sel) ==> DueNow(q.sel)))
    || (Apart(p, q) && ReopenIdle(q) && Returns.Returning(q.sel, items, i) && !DueNow(p.sel)
        && q.sel.retryAt != 0 && Timing.Due(q.sel, q.sel.retryAt) && q.sel.atStart == p.sel.atStart)
  }

  ghost predicate Apart(p: Plug, q: Plug) {
    && q.exit == Running && q.state == Unplugged && !q.reinitPending && q.mon == p.mon && q.hal == p.hal
    && q.sel.usb.handed == p.sel.usb.handed && q.sel.ears.env == p.sel.ears.env && p.sel.ears.calls <= q.sel.ears.calls
  }

  lemma StepComes(p: Plug, items: seq<S.Item>, i: nat)
    requires p.exit == Running && p.state == Unplugged && !p.reinitPending && p.reopening && !p.forceReopen
    requires Returns.Returning(p.sel, items, i) && p.sel.phase != S.Done
    ensures Comes(p, SelectionStep(p, Done(0)), items, i)
  {
    Returns.StepReturns(p.sel, items, i);
    AnswerComes(p, S.Step(p.sel), items, i);
  }

  /** The same of any answer a selection step may give. */
  lemma AnswerComes(p: Plug, a: (S.Result, S.Sel), items: seq<S.Item>, i: nat)
    requires p.exit == Running && p.state == Unplugged && !p.reinitPending && p.reopening && !p.forceReopen
    requires i < |items| && Returns.StepsOn(p.sel, items, i, a) && p.sel.phase != S.Done
    ensures var p1 := p.(sel := a.1);
            Comes(p, match a.0
                     case Pending => p1
                     case Opened(_) => ReinitStep(p1.(reopening := false, reinitPending := true), Done(0))
                     case _ => p1.(reopening := false), items, i)
  {
  }

  lemma TimeGoesOnLater(e: S.Ears, e1: S.Ears)
    requires TimeGoesOn(e) && e1.env == e.env && e.calls <= e1.calls
    ensures TimeGoesOn(e1)
  {
    forall k: nat | e1.calls <= k ensures MovesAfter(e1, k) {
      assert MovesAfter(e, k);
      var j :| Moves(e, k, j);
      assert Moves(e1, k, j);
    }
  }

  /** A selection stepped from q on comes nearer than the state p before it. */
  lemma ComesNearer(p: Plug, q: Plug, r: Plug, items: seq<S.Item>, i: nat, stage: nat, j: nat) returns (stage1: nat, j1: nat)
    requires Coming(p, items, i, stage, j) && Apart(p, q) && NoNotes(q) && q.reopening && !q.sel.atStart
    requires Comes(q, r, items, i) && (r.exit == Running ==> Inv(r))
    requires stage <= 1 ==> DueNow(q.sel)
    requires stage in {0, 2} ==> p.reopening && Returns.Left(q.sel, items) <= Returns.Left(p.sel, items)
    ensures BackWith(p, items[i], r) || Nearer(p, stage, j, r, stage1, j1, items, i)
  {
    stage1, j1 := if stage <= 1 then 0 else 2, 0;
    if !BackWith(q, items[i], r) {
      TimeGoesOnLater(p.sel.ears, r.sel.ears);
      if ReopenIdle(r) {
        assert MovesAfter(r.sel.ears, r.sel.ears.calls);
        j1 :| Moves(r.sel.ears, r.sel.ears.calls, j1);
        stage1 := 1;
      }
    }
  }

  /** Without news taking the notes changes nothing. */
  lemma NoNews(p: Plug, a: Answers)
    requires NoNotes(p) && Still(a) && p.state == Unplugged && p.sel.usb.bound.None?
    ensures Dispatch(p.mon, false, a) == p.mon && TakeNotes(p) == p
  {
  }

  lemma StepTick(p: Plug, a: Answers, items: seq<S.Item>, i: nat, stage: nat, j: nat) returns (stage1: nat, j1: nat)
    requires Coming(p, items, i, stage, j) && Still(a) && p.reopening
    ensures BackWith(p, items[i], Tick(p, a)) || Nearer(p, stage, j, Tick(p, a), stage1, j1, items, i)
  {
    NoNews(p, a);
    TickKeeps(p, a);
    StepComes(p, items, i);
    stage1, j1 := ComesNearer(p, p, Tick(p, a), items, i, stage, j);
  }

  /** A selection begun on notes taken returns the same stick. */
  lemma BegunReturns(p: Plug, q: Plug, items: seq<S.Item>, i: nat)
    requires Away(p, items, i) && !p.reopening && q == Begun(TakeNotes(p))
    ensures Returns.Returning(q.sel, items, i) && q.sel.phase == S.Idle && Apart(p.(mon := q.mon), q) && !q.sel.atStart
  {
    TakeNotesKeeps(p);
    Opens.FairStays(p.sel.ears, q.sel.ears, items);
  }

  lemma BeginTick(p: Plug, a: Answers, items: seq<S.Item>, i: nat, stage: nat, j: nat) returns (stage1: nat, j1: nat)
    requires Coming(p, items, i, stage, j) && Still(a) && !p.reopening && (p.forceReopen || !NoNotes(p))
    ensures BackWith(p, items[i], Tick(p, a)) || Nearer(p, stage, j, Tick(p, a), stage1, j1, items, i)
  {
    var q := Begun(TakeNotes(p));
    BegunReturns(p, q, items, i);
    TickKeeps(p, a);
    StepComes(q, items, i);
    assert Dispatch(p.mon, false, a) == p.mon;
    stage1, j1 := ComesNearer(p.(mon := q.mon, forceReopen := true), q, Tick(p, a), items, i, stage, j);
  }

  /** What is left of the wait when the clock has been read once more. */
  lemma WaitTick(p: Plug, a: Answers, items: seq<S.Item>, i: nat, stage: nat, j: nat) returns (j1: nat)
    requires Coming(p, items, i, stage, j) && Still(a) && ReopenIdle(p) && NoNotes(p) && S.Now(p.sel).0 < p.sel.retryAt
    ensures Nearer(p, stage, j, Tick(p, a), stage, j1, items, i)
  {
    var r := Tick(p, a);
    NoNews(p, a);
    TickKeeps(p, a);
    assert r == p.(sel := S.Now(p.sel).1);
    Opens.FairStays(p.sel.ears, r.sel.ears, items);
    TimeGoesOnLater(p.sel.ears, r.sel.ears);
    j1 := j;
    if p.sel.ears.calls == j {
      assert MovesAfter(r.sel.ears, r.sel.ears.calls);
      j1 :| Moves(r.sel.ears, r.sel.ears.calls, j1);
    }
  }

  lemma RetryTick(p: Plug, a: Answers, items: seq<S.Item>, i: nat, stage: nat, j: nat) returns (stage1: nat, j1: nat)
    requires Coming(p, items, i, stage, j) && Still(a) && ReopenIdle(p) && NoNotes(p) && S.Now(p.sel).0 >= p.sel.retryAt
    ensures BackWith(p, items[i], Tick(p, a)) || Nearer(p, stage, j, Tick(p, a), stage1, j1, items, i)
  {
    NoNews(p, a);
    TickKeeps(p, a);
    var p1 := p.(sel := S.Now(p.sel).1);
    var q := Begun(p1);
    Opens.FairStays(p.sel.ears, q.sel.ears, items);
    assert Tick(p, a) == SelectionStep(q, Done(0));
    StepComes(q, items, i);
    stage1, j1 := ComesNearer(p, q, Tick(p, a), items, i, stage, j);
  }

  /** Every tick comes nearer. */
  lemma TickNearer(p: Plug, a: Answers, items: seq<S.Item>, i: nat, stage: nat, j: nat) returns (stage1: nat, j1: nat)
    requires Coming(p, items, i, stage, j) && Still(a)
    ensures BackWith(p, items[i], Tick(p, a)) || Nearer(p, stage, j, Tick(p, a), stage1, j1, items, i)
  {
    if p.reopening {
      stage1, j1 := StepTick(p, a, items, i, stage, j);
    } else if p.forceReopen || !NoNotes(p) {
      stage1, j1 := BeginTick(p, a, items, i, stage, j);
    } else if S.Now(p.sel).0 >= p.sel.retryAt {
      stage1, j1 := RetryTick(p, a, items, i, stage, j);
    } else {
      j1 := WaitTick(p, a, items, i, stage, j);
      stage1 := stage;
    }
  }

  /** The ticks from p on are one to q and those from q on. */
  ghost predicate Leads(p: Plug, ans: nat -> Answers, k: nat, q: Plug) {
    forall n: nat | n > 0 :: After(p, ans, k, n) == After(q, ans, k + 1, n - 1)
  }

  lemma FirstTick(p: Plug, ans: nat -> Answers, k: nat, items: seq<S.Item>, i: nat, stage: nat, j: nat)
    returns (q: Plug, stage1: nat, j1: nat)
    requires Coming(p, items, i, stage, j) && Still(ans(k))
    ensures Leads(p, ans, k, q) && (BackWith(p, items[i], q) || Nearer(p, stage, j, q, stage1, j1, items, i))
  {
    q := Tick(p, ans(k));
    stage1, j1 := TickNearer(p, ans(k), items, i, stage, j);
  }

  /** Some tick to come brings that stick back. */
  ghost predicate Back(p: Plug, ans: nat -> Answers, k: nat, it: S.Item) {
    exists n: nat :: BackWith(p, it, After(p, ans, k, n))
  }

  lemma LedBack(p: Plug, ans: nat -> Answers, k: nat, q: Plug, it: S.Item)
    requires Leads(p, ans, k, q)
    ensures BackWith(p, it, q) ==> Back(p, ans, k, it)
    ensures q.sel.usb.handed == p.sel.usb.handed && q.hal == p.hal && Back(q, ans, k + 1, it) ==> Back(p, ans, k, it)
  {
    assert After(q, ans, k + 1, 0) == q == After(p, ans, k, 1);
    if Back(q, ans, k + 1, it) {
      var n: nat :| BackWith(q, it, After(q, ans, k + 1, n));
      assert After(p, ans, k, n + 1) == After(q, ans, k + 1, n);
    }
  }

  lemma {:induction false} ComesBack(p: Plug, ans: nat -> Answers, k: nat, items: seq<S.Item>, i: nat, stage: nat, j: nat)
    requires Coming(p, items, i, stage, j) && forall k :: Still(ans(k))
    ensures Back(p, ans, k, items[i])
    decreases stage, TimeLeft(p), StepsLeft(p, items, j), 1
  {
    var q, stage1, j1 := FirstTick(p, ans, k, items, i, stage, j);
    if !BackWith(p, items[i], q) {
      NearerComesBack(p, q, ans, k + 1, items, i, stage, j, stage1, j1);
    }
    LedBack(p, ans, k, q, items[i]);
  }

  lemma NearerComesBack(p: Plug, q: Plug, ans: nat -> Answers, k: nat, items: seq<S.Item>, i: nat, stage: nat, j: nat,
                        stage1: nat, j1: nat)
    requires Nearer(p, stage, j, q, stage1, j1, items, i) && forall k :: Still(ans(k))
    ensures Back(q, ans, k, items[i])
    decreases stage, TimeLeft(p), StepsLeft(p, items, j), 0
  {
    ComesBack(q, ans, k, items, i, stage1, j1);
  }

  /** The stick comes back. Unplugged with a selection to come (after a teardown, on news of
      an ARRIVED or a LEFT, or with a retry time set): once the bus is quiet and pine64 honest,
      and there is one stick to be chosen, finitely many ticks later it is READY with that
      stick under a new HAL. */
  lemma StickComesBack(sel: S.Sel, acts: seq<Action>, p: Plug, ans: nat -> Answers, items: seq<S.Item>, i: nat)
    requires Reached(sel, acts, p) && p.state == Unplugged && !p.reopening && !p.reinitPending
    requires p.forceReopen || p.mon.arrivals > 0 || p.mon.lefts > 0 || p.sel.retryAt != 0
    requires Opens.Chosen(p.sel.identity, items, i) && Start.DistinctConnections(items)
    requires Opens.Fair(p.sel.ears, items) && TimeGoesOn(p.sel.ears) && forall k :: Still(ans(k))
    ensures Back(p, ans, 0, items[i])
  {
    ReachedInv(sel, acts, p);
    assert MovesAfter(p.sel.ears, p.sel.ears.calls);
    var j :| Moves(p.sel.ears, p.sel.ears.calls, j);
    ComesBack(p, ans, 0, items, i, 3, j);
  }
}
