/**
 * The start loop of daemon_ch341_runtime.cpp: turns run back to back until a stick is
 * opened or refused.
 */
module Ch341Runtime {
  import opened Prelude
  import S = Ch341Select
  import Safety = Ch341SelectSafety
  import Start = Ch341SelectStart
  import Opens = Ch341SelectOpens
  import opened Ch341Selector

  /** usleep to the retry time, if it is still to come. */
  method SleepUntil(sel: Selector, until: nat)
    modifies sel
    ensures sel.View() == Start.Sleep(old(sel.View()), until)
  {
    var now := sel.Now();
    if until > now {
      sel.ears := sel.ears.(clock := until);
    }
  }

  lemma EventsKeepInv(s: S.Sel)
    requires Safety.Inv(s)
    ensures Safety.Inv(s.(ears := S.TakeEvents(s.ears)))
  {
    Safety.TakeEventsCounts(s.ears);
  }

  /** What one turn leaves: an answer with no handle open, or a state to go on from. */
  lemma TurnKeepsInv(s: S.Sel)
    requires Safety.Inv(s) && s.usb.bound.None?
    ensures var (r, s1) := Start.Turn(s);
            && Safety.Inv(s1)
            && (r.Opened? ==> s1.phase == S.Done && s1.usb.bound == Some(r.dev) && s1.usb.open == {})
            && (!r.Opened? ==> s1.usb.bound.None?)
            && (r.Refused? ==> s1.usb.open == {})
  {
    EventsKeepInv(s);
    Safety.StepKeepsInv(s.(ears := S.TakeEvents(s.ears)));
  }

  method Turn(sel: Selector) returns (r: S.Result)
    requires Safety.Inv(sel.View())
    modifies sel
    ensures (r, sel.View()) == Start.Turn(old(sel.View()))
  {
    sel.TakeEvents();
    r := sel.Step();
    if r.Wait? {
      SleepUntil(sel, sel.retryAt);
      sel.Begin(true);
    }
  }

  ghost predicate OnHonestBus(s: S.Sel, items: seq<S.Item>) {
    Start.Calm(s, items) && Opens.Honest(s.ears, items)
  }

  /** `turns` bounds the loop; on a quiet bus such a bound exists
      (Ch341SelectStart.StartEndsOnQuietBus). */
  method SelectAtStart(sel: Selector, ghost turns: nat) returns (r: S.Result)
    requires Safety.Inv(sel.View()) && sel.usb.bound.None? && sel.phase in {S.Idle, S.Done}
    requires Start.EndsWithin(S.Begin(sel.View(), true), turns)
    modifies sel
    ensures Start.Conclusive(r)
    ensures Safety.Inv(sel.View()) && sel.usb.open == {}
    ensures r.Opened? ==> sel.phase == S.Done && sel.usb.bound == Some(r.dev)
    ensures r.Refused? ==> sel.usb.bound.None?
    ensures (r, sel.View()) == Start.LoopEnd(S.Begin(old(sel.View()), true), turns)
    ensures forall items | OnHonestBus(S.Begin(old(sel.View()), true), items) ::
              Opens.AnswersRight(S.Begin(old(sel.View()), true), items, (r, sel.View()))
  {
    ghost var begun := S.Begin(sel.View(), true);
    forall items | OnHonestBus(begun, items) ensures Opens.AnswersRight(begun, items, Start.LoopEnd(begun, turns)) {
      Opens.StartHandsOutTheChosen(begun, items);
    }
    sel.Begin(true);
    ghost var left := turns;
    while true
      invariant Safety.Inv(sel.View()) && sel.usb.bound.None? && Start.EndsWithin(sel.View(), left)
      invariant Start.LoopEnd(sel.View(), left) == Start.LoopEnd(begun, turns)
      decreases left
    {
      TurnKeepsInv(sel.View());
      r := Turn(sel);
      if r.Opened? || r.Refused? {
        return;
      }
      left := left - 1;
    }
  }
}
