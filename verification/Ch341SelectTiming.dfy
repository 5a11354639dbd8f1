/**
 * When the selection comes back to a question: the retry times of a reopen, the settling of
 * a burst of arrivals before a walk, and the cap after which a snapshot is final.
 */
module Ch341SelectTiming {
  import opened Prelude
  import opened Ch341Select
  import opened Ch341SelectSafety

  /** From this call on the bus delivers no event. */
  ghost predicate Silent(e: Ears) {
    forall k: nat | e.calls <= k :: e.env.events(k) == (0, 0)
  }

  lemma SilentWindow(s: Sel)
    requires Silent(s.ears)
    ensures WindowStale(s).1 == s.(ears := WindowStale(s).1.ears) && Silent(WindowStale(s).1.ears)
    ensures WindowStale(s).1.ears.changes == s.ears.changes && WindowStale(s).1.ears.clock >= s.ears.clock
    ensures WindowStale(s).0 == IsStale(s)
  {
    assert s.ears.env.events(s.ears.calls) == (0, 0);
    WindowStaleListens(s);
  }

  /** A wait until that many milliseconds after the last look at the clock. */
  predicate WaitsFor(a: (Result, Sel), ms: nat) {
    a.0.Wait? && a.1.retryAt == a.1.ears.clock + ms
  }

  // ---- failures are tried again ----------------------------------------------------------------

  /** A device list that cannot be read is tried again after 200 ms. */
  lemma ListRetried(s: Sel)
    requires s.phase in {Idle, Done} && !s.atStart && s.ears.env.scanBegin(s.ears.calls).None?
    ensures WaitsFor(Step(s), 200)
  {
  }

  /** At the start it is a refusal, for the failed read has seen the changes so far. */
  lemma ListRefusedAtStart(s: Sel)
    requires s.phase in {Idle, Done} && s.atStart && s.ears.env.scanBegin(s.ears.calls).None?
    ensures Step(s).0 == Refused(ListUnreadable) && Unchanged(Step(s).1)
  {
  }

  /** A stick pine64 cannot open is tried again after 200 ms. */
  lemma OpenRetried(s: Sel)
    requires s.phase == Open && !s.atStart && Unchanged(s) && Silent(s.ears)
    requires s.ears.env.opens(s.ears.calls + 1, AskedFor(s.identity), HeldSticks(s.usb, s.walk.held)).None?
    ensures WaitsFor(Step(s), 200)
  {
    var s1 := StaleNow(s).1;
    assert StaleNow(s) == (false, Now(s).1);
    SilentWindow(OpenDev(s1, AskedFor(s.identity)).1);
  }

  /** So is one whose identity cannot be read. */
  lemma ReadRetried(s: Sel, dev: nat)
    requires !s.atStart && Unchanged(s) && Silent(s.ears) && s.ears.env.identify(s.ears.calls, StickOf(s.usb, dev)).None?
    ensures WaitsFor(OpenedDev(s, dev), 200)
  {
    SilentWindow(Identify(s, dev).1);
  }

  /** So is one that cannot be found for its binding. */
  lemma BindRetried(s: Sel, dev: nat, id: Item)
    requires !s.atStart && Unchanged(s) && Silent(s.ears) && !s.ears.env.binds(s.ears.calls)
    ensures WaitsFor(BindAndCommit(s, dev, id), 200)
  {
    SilentWindow(CloseDev(Unbind(BindDev(s, dev).1), dev));
  }

  /** A walk that finds nothing to take, or has tried as often as there are sticks, ends and
      is tried again after 1 s. */
  lemma WalkRetried(s: Sel)
    requires s.phase == Walk && !s.atStart && Unchanged(s) && Silent(s.ears)
    requires s.walk.attempts >= s.walk.snap
             || s.ears.env.opens(s.ears.calls + 1, None, HeldSticks(s.usb, s.walk.held)).None?
    ensures WaitsFor(Step(s), 1000) && s.ears.clock <= Step(s).1.walk.end <= Step(s).1.ears.clock
  {
    var s1 := Now(s).1;
    assert StaleNow(s) == (false, s1);
    if s1.walk.attempts < s1.walk.snap {
      SilentWindow(EndWalk(OpenDev(Attempt(s1), None).1));
    }
  }

  /** An unresolved stick is looked at again after 200 ms, or at its deadline if that is
      sooner. */
  lemma AccessRetried(s: Sel)
    requires Unchanged(s) && Stamped(s.access) && !s.ears.accessHold
    ensures var (r, s1) := AccessWait(s);
            && (s1.ears.accessHold <==> s.access == map[] || Now(s).0 < FirstDeadline(s.access, false))
            && (s1.ears.accessHold ==> r.Wait? && s1.access == s.access)
            && (s1.ears.accessHold && s.access == map[] ==> s1.retryAt == s1.ears.clock + 200)
            && (s1.ears.accessHold && s.access != map[] ==> s1.retryAt == Min(s1.ears.clock + 200, FirstDeadline(s.access, false)))
  {
    FirstDeadlineIs(s.access, false, 0);
    if k :| k in s.access { assert Eligible(s.access, false, k); }
    var s1 := Now(s).1;
    assert StaleNow(s1) == (false, Now(s1).1);
  }

  /** A change since the snapshot comes before that wait: the sticks are classified again at
      once, their deadlines kept. */
  lemma AccessOvertaken(s: Sel)
    requires IsStale(s)
    ensures var (r, s1) := AccessWait(s);
            r.Wait? && s1.retryAt == s1.ears.clock && s1.access == s.access && s1.ears.accessHold
  {
    StaleNowListens(s);
  }

  lemma DecisionEnds(s: Sel)
    ensures !Decide(s).1.ears.accessHold ==> Decide(s).1.access == map[]
  {
  }

  lemma ExpiryEnds(s: Sel)
    ensures !IsStale(s) ==> AccessExpired(s).1.access == map[]
  {
    StaleNowListens(s);
  }

  lemma OpenEnds(s: Sel, dev: nat, id: Item)
    ensures BindAndCommit(s, dev, id).0.Opened? ==> BindAndCommit(s, dev, id).1.access == map[]
  {
  }

  /** A deadline lives only while decisions keep waiting on it: none outlives an expiry, an
      open or another decision, and the same stick seen later has its 2 s anew. */
  lemma DeadlinesEnd(s: Sel, dev: nat, id: Item)
    ensures !Decide(s).1.ears.accessHold ==> Decide(s).1.access == map[]
    ensures !IsStale(s) ==> AccessExpired(s).1.access == map[]
    ensures BindAndCommit(s, dev, id).0.Opened? ==> BindAndCommit(s, dev, id).1.access == map[]
  {
    DecisionEnds(s);
    ExpiryEnds(s);
    OpenEnds(s, dev, id);
  }

  // ---- a change classifies again ------------------------------------------------------------------

  /** An open or a walk overtaken by a change is given up: the sticks are classified again at
      once, every deadline kept; and past the cap of 2 s the next snapshot is the final one. */
  lemma ChangeClassifiesAgain(s: Sel)
    requires s.phase in {Open, Walk} && !Unchanged(s) && !s.shot.final
    ensures var (r, s1) := Step(s);
            && r.Wait? && s1.phase == Idle && s1.retryAt <= s1.ears.clock
            && s1.access == s.access && s1.ears.accessHold && s1.usb.handed == s.usb.handed
            && (s1.ears.finalPending <==> s.ears.finalPending || (s.ears.capFirst != 0 && Now(s).0 >= s.ears.capFirst + 2000))
  {
    StaleNowListens(s);
  }

  /** The bus delivers something at this call. */
  predicate Delivers(e: Ears, call: nat) {
    e.env.events(call) != (0, 0) && e.env.events(call).0 + e.env.events(call).1 < COUNTER_WRAP
  }

  lemma WindowSees(s: Sel)
    requires Unchanged(s) && !s.shot.final && Delivers(s.ears, s.ears.calls)
    ensures WindowStale(s).0
  {
    TakeEventsCounts(s.ears);
    var n := s.ears.env.events(s.ears.calls).0 + s.ears.env.events(s.ears.calls).1;
    Differs(s.ears.changes, s.shot.changes, n);
  }

  lemma Differs(a: nat, b: nat, n: nat)
    requires SameCount(a, b) && 0 < n < COUNTER_WRAP
    ensures !SameCount(a + n, b)
  {
    assert (a + n) % COUNTER_WRAP == (a % COUNTER_WRAP + n) % COUNTER_WRAP;
  }

  /** What comes while a stick is opened and its identity read, or while it is bound, is seen
      before anything is committed: the sticks are classified again. */
  lemma WindowClassifiesAgain(s: Sel, dev: nat, id: Item)
    requires Unchanged(s) && !s.shot.final && Delivers(s.ears, s.ears.calls + 1)
    ensures OpenedDev(s, dev).0.Wait? && BindAndCommit(s, dev, id).0.Wait? && WalkOpened(s, dev).0.Wait?
    ensures OpenedDev(s, dev).1.retryAt <= OpenedDev(s, dev).1.ears.clock
    ensures s.ears.env.binds(s.ears.calls) ==> BindAndCommit(s, dev, id).1.retryAt <= BindAndCommit(s, dev, id).1.ears.clock
  {
    WindowSees(Identify(s, dev).1);
    WindowSees(BindDev(s, dev).1);
    WindowSees(CloseDev(Unbind(BindDev(s, dev).1), dev));
  }

  /** What comes while no stick could be opened comes first: not BUSY, but another look. */
  lemma FailedOpenClassifiesAgain(s: Sel, retryMs: nat)
    requires Unchanged(s) && !s.shot.final && Delivers(s.ears, s.ears.calls)
    ensures OpenFailed(s, retryMs).0.Wait? && OpenFailed(s, retryMs).1.retryAt <= OpenFailed(s, retryMs).1.ears.clock
  {
    WindowSees(s);
  }

  /** A LEFT of the bound stick in the window of its binding is seen too. */
  lemma LeftWhileBinding(s: Sel, dev: nat, id: Item)
    requires Unchanged(s) && Silent(s.ears) && s.ears.env.binds(s.ears.calls)
    ensures var s2 := WindowStale(BindDev(s, dev).1).1;
            s.ears.env.boundLeft(s2.ears.calls) ==> BindAndCommit(s, dev, id).0.Wait? && BindAndCommit(s, dev, id).1.usb.bound.None?
  {
    SilentWindow(BindDev(s, dev).1);
  }

  /** That one snapshot is the next, and no other. */
  lemma NextIsFinal(s: Sel)
    requires s.phase in {Idle, Done} && s.ears.env.scanBegin(s.ears.calls).Some?
    ensures Step(s).1.shot.final == s.ears.finalPending && !Step(s).1.ears.finalPending
    ensures Step(s).1.shot.changes == s.ears.changes
  {
  }

  /** A refusal on a reopen waits for the next change; on a final snapshot that a change has
      overtaken it looks again after 500 ms. */
  lemma RefusalWaits(s: Sel, why: Reason)
    requires !s.atStart && !IsStale(s)
    ensures var (r, s1) := Refuse(s, why);
            && r.Wait? && s1.retryAt == (if Unchanged(s) then 0 else s1.ears.clock + 500)
            && s1.ears.burstFirst == s1.ears.burstLast == s1.ears.capFirst == 0
  {
  }

  // ---- a burst settles ---------------------------------------------------------------------------

  /** A burst is timed by its first and its last ARRIVED; the cap by the first change. */
  lemma {:induction false} BurstTimed(e: Ears, n: nat)
    requires n > 0
    ensures var e1, first := NoteArrivals(e, n), e.clock + e.env.advance(e.calls);
            && e1.burstLast == e1.clock && e1.clock >= first
            && (e.burstFirst == 0 && first > 0 ==> e1.burstFirst == first)
            && (e.burstFirst != 0 ==> e1.burstFirst == e.burstFirst)
            && (e.capFirst != 0 ==> e1.capFirst == e.capFirst)
            && (e.capFirst == 0 && first > 0 ==> e1.capFirst == first)
  {
    if n == 1 {
      assert NoteArrivals(e, 0) == e;
    } else {
      BurstTimed(e, n - 1);
    }
  }

  /** A LEFT starts the cap and leaves the burst alone. */
  lemma {:induction false} LeftTimed(e: Ears, n: nat)
    ensures var e1 := NoteLefts(e, n);
            && e1.burstFirst == e.burstFirst && e1.burstLast == e.burstLast
            && (e.capFirst != 0 || n == 0 ==> e1.capFirst == e.capFirst)
            && (e.capFirst == 0 && n > 0 && e.clock > 0 ==> e1.capFirst == e.clock + e.env.advance(e.calls))
  {
    if n == 1 {
      assert NoteLefts(e, 0) == e;
    } else if n > 1 {
      LeftTimed(e, n - 1);
    }
  }

  /** When a walk may start: 1 s after the last one, and on a reopen 500 ms after the last
      ARRIVED of a burst, though no later than 2 s after its first. */
  predicate Due(s: Sel, now: nat) {
    && (s.walk.end != 0 ==> now >= s.walk.end + 1000)
    && (!s.atStart && s.ears.burstFirst != 0 ==> now >= s.ears.burstLast + 500 || now >= s.ears.burstFirst + 2000)
  }

  /** On an unchanged snapshot the walk starts exactly when it may, and otherwise waits until
      the first time it may. */
  lemma WalkStartsWhenDue(s: Sel, present: nat)
    requires Unchanged(s)
    ensures var (r, s1) := StartWalk(s, present);
            && (r.Pending? <==> Due(s, Now(s).0)) && (r.Pending? ==> s1.phase == Walk && s1.walk.snap == present)
            && (!r.Pending? ==> r.Wait? && Due(s, s1.retryAt) && forall t: nat | t < s1.retryAt :: !Due(s, t))
  {
  }
}
