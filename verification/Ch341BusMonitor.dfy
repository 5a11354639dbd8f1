/**
 * The monitor as it is kept (ch341_monitor.c): the event array, the known table compacted
 * and grown in place, counters and references updated in loops; proved against
 * Ch341Monitor.
 */
module Ch341BusMonitor {
  import opened Prelude
  import opened Ch341Monitor
  import opened Ch341MonitorCookies

  /** The hotplug events between two dispatches. */
  class EventQueue {
    const queue: array<Event>
    var queued: nat
    var overflow: bool

    ghost predicate Valid()
      reads this
    {
      queue.Length == EVENTS && queued <= EVENTS
    }

    ghost function Contents(): seq<Event>
      reads this, queue
      requires Valid()
    {
      queue[..queued]
    }

    constructor ()
      ensures Valid() && fresh(queue) && Contents() == [] && !overflow
    {
      queue := new Event[EVENTS](_ => Event(false, 0));
      queued, overflow := 0, false;
    }

    /** Records the event, with a reference to its device, or that it was lost. */
    method Record(e: Event) returns (taken: multiset<Dev>)
      requires Valid()
      modifies this, queue
      ensures Valid()
      ensures if |old(Contents())| >= EVENTS then Contents() == old(Contents()) && overflow && taken == multiset{}
              else Contents() == old(Contents()) + [e] && overflow == old(overflow) && taken == multiset{e.dev}
    {
      if queued >= EVENTS {
        overflow := true;
        return multiset{};
      }
      queue[queued] := e;
      queued := queued + 1;
      taken := multiset{e.dev};
    }

    method Drop() returns (released: multiset<Dev>)
      requires Valid()
      modifies this
      ensures Valid() && Contents() == [] && overflow == old(overflow) && released == EventRefs(old(Contents()))
    {
      released := multiset{};
      ghost var es := Contents();
      var i := 0;
      while i < queued
        invariant 0 <= i <= queued && Valid() && overflow == old(overflow) && Contents() == es
        invariant released == EventRefs(es[..i])
      {
        assert es[..i + 1][..i] == es[..i];
        released := released + multiset{queue[i].dev};
        i := i + 1;
      }
      assert es[..i] == es;
      queued := 0;
    }
  }

  /** The connections with a cookie. */
  class KnownTable {
    var known: array<Entry>
    var nknown: nat
    var next: nat

    ghost predicate Valid()
      reads this
    {
      nknown <= known.Length
    }

    ghost function View(): Known
      reads this, known
      requires Valid()
    {
      Known(known[..nknown], known.Length, next)
    }

    constructor ()
      ensures Valid() && fresh(known) && View() == Known([], 0, 0)
    {
      known := new Entry[0];
      nknown, next := 0, 0;
    }

    /** Drops the entries no scan lists any more, moving the others up. */
    method ForgetUnlisted(devs: seq<Dev>) returns (released: multiset<Dev>)
      requires Valid()
      modifies this, known
      ensures Valid() && known == old(known)
      ensures View() == old(View()).(entries := StillListed(old(View()).entries, devs))
      ensures released == UnlistedRefs(old(View()).entries, devs)
    {
      released := multiset{};
      ghost var es := known[..nknown];
      var k, i := 0, 0;
      while i < nknown
        invariant 0 <= k <= i <= nknown == |es| && Valid() && known == old(known) && next == old(next)
        invariant known[..k] == StillListed(es[..i], devs)
        invariant forall j | i <= j < |es| :: known[j] == es[j]
        invariant released == UnlistedRefs(es[..i], devs)
      {
        assert es[..i + 1][..i] == es[..i];
        ghost var kept := known[..k];
        if known[i].dev in devs {
          known[k] := known[i];
          k := k + 1;
          assert known[..k] == kept + [es[i]];
        } else {
          released := released + multiset{known[i].dev};
        }
        i := i + 1;
      }
      assert es[..i] == es;
      nknown := k;
    }

    /** Room for a cookie per listed device. */
    method Grow(room: nat)
      requires Valid() && nknown <= room
      modifies this
      ensures Valid() && fresh(known) && View() == old(View()).(cap := room)
    {
      var grown := new Entry[room](_ => Entry(0, 0));
      var i := 0;
      while i < nknown
        invariant 0 <= i <= nknown <= known.Length && nknown == old(nknown) && known == old(known) && next == old(next)
        invariant grown[..i] == known[..i] && known[..] == old(known[..])
      {
        grown[i] := known[i];
        i := i + 1;
      }
      known := grown;
    }

    /** The device's cookie; a new one takes a reference and one of the reserved slots. */
    method CookieOf(d: Dev) returns (c: nat, taken: multiset<Dev>)
      requires Valid() && (IndexOf(View().entries, d) == nknown ==> nknown < known.Length)
      modifies this, known
      ensures Valid() && known == old(known)
      ensures var es := old(View()).entries;
              if IndexOf(es, d) < |es| then c == es[IndexOf(es, d)].cookie && View() == old(View()) && taken == multiset{}
              else c == (old(next) + 1) % UNSIGNED && taken == multiset{d}
                   && View() == Known(es + [Entry(d, c)], old(View()).cap, c)
    {
      taken := multiset{};
      ghost var es := View().entries;
      var i := 0;
      while i < nknown
        invariant 0 <= i <= nknown && Valid() && known == old(known) && View() == old(View())
        invariant i <= IndexOf(es, d)
      {
        assert es[i] == known[i];
        if known[i].dev == d {
          return known[i].cookie, taken;
        }
        i := i + 1;
      }
      next := (next + 1) % UNSIGNED;
      known[nknown] := Entry(d, next);
      nknown := nknown + 1;
      assert known[..nknown] == es + [Entry(d, next)];
      return next, multiset{d};
    }

    method ReleaseAll() returns (released: multiset<Dev>)
      requires Valid()
      modifies this
      ensures Valid() && known == old(known) && View() == old(View()).(entries := [])
      ensures released == EntryRefs(old(View()).entries)
    {
      released := multiset{};
      ghost var es := known[..nknown];
      var i := 0;
      while i < nknown
        invariant 0 <= i <= nknown == |es| && Valid() && known == old(known) && View() == old(View())
        invariant released == EntryRefs(es[..i])
      {
        assert es[..i + 1][..i] == es[..i] && es[i] == known[i];
        released := released + multiset{known[i].dev};
        i := i + 1;
      }
      assert es[..i] == es;
      nknown := 0;
    }
  }

  /** The monitor: its events and cookies, the binding, the scan's lists, and the
      references libusb counts for it. */
  class BusMonitor {
    const events: EventQueue
    const table: KnownTable
    var arrivals: nat
    var lefts: nat
    var bound: Option<Dev>
    var left: Left
    var scanList: seq<Dev>
    var scanDevs: seq<Dev>
    var refs: multiset<Dev>

    ghost predicate Valid()
      reads this, events, table
    {
      events.Valid() && table.Valid()
    }

    ghost function View(): Mon
      reads this, events, events.queue, table, table.known
      requires Valid()
    {
      Mon(Queue(events.Contents(), events.overflow, arrivals, lefts), bound, left, Scan(scanList, scanDevs), table.View(), refs)
    }

    constructor ()
      ensures Valid() && View() == OPENED
      ensures fresh(events) && fresh(events.queue) && fresh(table) && fresh(table.known)
    {
      events := new EventQueue();
      table := new KnownTable();
      arrivals, lefts, bound, left := 0, 0, None, Staying;
      scanList, scanDevs, refs := [], [], multiset{};
    }

    method Callback(e: Event)
      requires Valid()
      modifies this, events, events.queue
      ensures Valid() && View() == Hotplug(old(View()), e)
    {
      var taken := events.Record(e);
      refs := refs + taken;
    }

    method TakeEvent(e: Event)
      requires Valid()
      modifies this
      ensures Valid() && View() == TakeOne(old(View()), e)
    {
      if e.left {
        if bound == Some(e.dev) {
          left := HasLeft;
        } else {
          lefts := lefts + 1;
        }
      } else {
        arrivals := arrivals + 1;
      }
    }

    method TakeEvents()
      requires Valid()
      modifies this
      ensures Valid() && View() == TakeAll(old(View()), old(events.Contents()))
    {
      ghost var es := events.Contents();
      var i := 0;
      while i < events.queued
        invariant 0 <= i <= events.queued == |es| && Valid() && events.Contents() == es
        invariant View() == TakeAll(old(View()), es[..i])
      {
        assert es[..i + 1][..i] == es[..i] && es[i] == events.queue[i];
        TakeEvent(events.queue[i]);
        i := i + 1;
      }
      assert es[..i] == es;
    }

    method Deliver(es: seq<Event>)
      requires Valid()
      modifies this, events, events.queue
      ensures Valid() && View() == HotplugAll(old(View()), es)
    {
      var i := 0;
      while i < |es|
        invariant 0 <= i <= |es| && Valid()
        invariant View() == HotplugAll(old(View()), es[..i])
      {
        assert es[..i + 1][..i] == es[..i];
        Callback(es[i]);
        i := i + 1;
      }
      assert es[..i] == es;
    }

    method ForgetEvents()
      requires Valid()
      modifies this, events
      ensures Valid() && View() == NoteOverflow(DropQueue(old(View())))
    {
      var released := events.Drop();
      refs := refs - released;
      if events.overflow {
        events.overflow := false;
        arrivals := arrivals + 1;
        if bound.Some? && left == Staying {
          left := Uncertain;
        }
      }
    }

    /** One dispatch; libusb calls back for each of these events. */
    method DispatchEvents(es: seq<Event>)
      requires Valid()
      modifies this, events, events.queue
      ensures Valid() && View() == Dispatch(old(View()), es)
    {
      Deliver(es);
      ghost var m1 := View();
      TakeEvents();
      TakeAllKeeps(m1, m1.queue.events);
      ForgetEvents();
    }

    method UnbindIt()
      requires Valid()
      modifies this
      ensures Valid() && View() == Unbind(old(View()))
    {
      if bound.Some? {
        refs := refs - multiset{bound.value};
        bound := None;
      }
      left := Staying;
    }

    method BindTo(list: Option<seq<Dev>>, same: Dev -> bool) returns (ok: bool)
      requires Valid()
      modifies this
      ensures Valid() && (ok, View()) == Bind(old(View()), list, same)
    {
      UnbindIt();
      if list.None? {
        return false;
      }
      var found := PickFrom(list.value, same);
      if |found| == 1 {
        bound := Some(found[0]);
        refs := refs + multiset{found[0]};
      }
      ok := |found| == 1;
    }

    /** Is the bound connection attached? Two looks at the bus with a dispatch in between. */
    method PresentBound(look1: Option<seq<Dev>>, es: seq<Event>, look2: Option<seq<Dev>>) returns (r: int)
      requires Valid()
      modifies this, events, events.queue
      ensures Valid() && (r, View()) == Present(old(View()), look1, es, look2)
    {
      if bound.None? {
        return ABSENT;
      }
      r := Look(bound.value, look1);
      if r <= 0 {
        return r;
      }
      ghost var m := View();
      DispatchEvents(es);
      DispatchBinds(m, es);
      if left == HasLeft {
        return ABSENT;
      }
      r := Look(bound.value, look2);
    }

    method EndScan()
      requires Valid()
      modifies this
      ensures Valid() && View() == ScanEnd(old(View()))
    {
      refs := refs - multiset(scanList);
      scanList, scanDevs := [], [];
    }

    method BeginScan(list: Option<seq<Dev>>, isStick: Dev -> bool, room: bool, canGrow: bool) returns (ok: bool)
      requires Valid()
      modifies this, table, table.known
      ensures Valid() && (table.known == old(table.known) || fresh(table.known))
      ensures (ok, View()) == ScanBegin(old(View()), list, isStick, room, canGrow)
    {
      EndScan();
      if list.None? {
        return false;
      }
      if !room {
        TakeList(list.value, []);
        EndScan();
        return false;
      }
      var devs := PickFrom(list.value, isStick);
      TakeList(list.value, devs);
      ForgetOthers();
      ok := MakeRoom(canGrow);
    }

    method TakeList(list: seq<Dev>, devs: seq<Dev>)
      requires Valid()
      modifies this
      ensures Valid() && View() == Listing(old(View()), list, devs)
    {
      scanList, scanDevs, refs := list, devs, refs + multiset(list);
    }

    method ForgetOthers()
      requires Valid()
      modifies this, table, table.known
      ensures Valid() && table.known == old(table.known) && View() == Forget(old(View()))
    {
      var released := table.ForgetUnlisted(scanDevs);
      refs := refs - released;
    }

    method MakeRoom(canGrow: bool) returns (ok: bool)
      requires Valid()
      modifies this, table
      ensures Valid() && (table.known == old(table.known) || fresh(table.known))
      ensures (ok, View()) == Reserve(old(View()), canGrow)
    {
      if table.nknown + |scanDevs| > table.known.Length {
        if !canGrow {
          EndScan();
          return false;
        }
        table.Grow(table.nknown + |scanDevs|);
      }
      ok := true;
    }

    /** One stick of the scan, whose cookie is reported. */
    method StepScan(i: nat) returns (c: Option<nat>)
      requires Valid() && Reserved(View())
      modifies this, table, table.known
      ensures Valid() && table.known == old(table.known)
      ensures View() == if i < |old(scanDevs)| then Cookie(old(View()), old(scanDevs)[i]).1 else old(View())
      ensures c == if i < |old(scanDevs)| then Some(Reported(old(View()), i)) else None
    {
      if i >= |scanDevs| {
        return None;
      }
      CookieReserved(View(), scanDevs[i]);
      var cookie, taken := table.CookieOf(scanDevs[i]);
      refs := refs + taken;
      c := Some(cookie);
    }

    method CloseAll()
      requires Valid()
      modifies this, events, table
      ensures Valid() && View() == Close(old(View()))
    {
      EndScan();
      var released := table.ReleaseAll();
      refs := refs - released;
      UnbindIt();
      released := events.Drop();
      refs := refs - released;
    }
  }

  /** The listed devices that match. */
  method PickFrom(list: seq<Dev>, match_: Dev -> bool) returns (found: seq<Dev>)
    ensures found == Matches(list, match_)
  {
    found := [];
    var i := 0;
    while i < |list|
      invariant 0 <= i <= |list| && found == Matches(list[..i], match_)
    {
      assert list[..i + 1][..i] == list[..i];
      if match_(list[i]) {
        found := found + [list[i]];
      }
      i := i + 1;
    }
    assert list[..i] == list;
  }
}
