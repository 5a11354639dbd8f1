/**
 * The bus monitor (ch341_monitor.c): what the hotplug callback records and what becomes
 * of it, the bound connection, the scan lists, a cookie per connection; and who owns each
 * libusb reference.
 *
 * A device object is its address. An address lives again, as another object, only after
 * its last reference is gone.
 */
module Ch341Monitor {
  import opened Prelude

  const EVENTS: nat := 32
  const UNSIGNED: nat := 0x1_0000_0000

  type Dev = nat

  datatype Event = Event(left: bool, dev: Dev)

  /** The bound connection: no LEFT seen, one seen, or events lost. */
  datatype Left = Staying | HasLeft | Uncertain

  datatype Queue = Queue(events: seq<Event>, overflow: bool, arrivals: nat, lefts: nat)

  datatype Scan = Scan(list: seq<Dev>, devs: seq<Dev>)

  datatype Entry = Entry(dev: Dev, cookie: nat)

  datatype Known = Known(entries: seq<Entry>, cap: nat, next: nat)

  /** `refs` are the references the monitor has taken and not released. */
  datatype Mon = Mon(queue: Queue, bound: Option<Dev>, left: Left, scan: Scan, known: Known, refs: multiset<Dev>)

  const OPENED := Mon(Queue([], false, 0, 0), None, Staying, Scan([], []), Known([], 0, 0), multiset{})

  // ---- hotplug ------------------------------------------------------------------------------

  /** The callback only records. */
  function Hotplug(m: Mon, e: Event): Mon {
    if |m.queue.events| >= EVENTS then m.(queue := m.queue.(overflow := true))
    else m.(queue := m.queue.(events := m.queue.events + [e]), refs := m.refs + multiset{e.dev})
  }

  function HotplugAll(m: Mon, es: seq<Event>): Mon {
    if es == [] then m else Hotplug(HotplugAll(m, es[..|es| - 1]), es[|es| - 1])
  }

  function TakeOne(m: Mon, e: Event): Mon {
    if !e.left then m.(queue := m.queue.(arrivals := m.queue.arrivals + 1))
    else if m.bound == Some(e.dev) then m.(left := HasLeft)
    else m.(queue := m.queue.(lefts := m.queue.lefts + 1))
  }

  function TakeAll(m: Mon, es: seq<Event>): Mon {
    if es == [] then m else TakeOne(TakeAll(m, es[..|es| - 1]), es[|es| - 1])
  }

  function EventRefs(es: seq<Event>): multiset<Dev> {
    if es == [] then multiset{} else EventRefs(es[..|es| - 1]) + multiset{es[|es| - 1].dev}
  }

  function DropQueue(m: Mon): Mon {
    m.(queue := m.queue.(events := []), refs := m.refs - EventRefs(m.queue.events))
  }

  /** Lost events: an arrival may be among them; so may the bound stick's LEFT. */
  function NoteOverflow(m: Mon): Mon {
    if !m.queue.overflow then m
    else m.(queue := m.queue.(overflow := false, arrivals := m.queue.arrivals + 1),
            left := if m.bound.Some? && m.left == Staying then Uncertain else m.left)
  }

  /** One dispatch, in which libusb reports these events. */
  function Dispatch(m: Mon, es: seq<Event>): Mon {
    var m1 := HotplugAll(m, es);
    NoteOverflow(DropQueue(TakeAll(m1, m1.queue.events)))
  }

  // ---- the bound connection --------------------------------------------------------------------

  function Unbind(m: Mon): Mon {
    m.(bound := None, left := Staying, refs := if m.bound.Some? then m.refs - multiset{m.bound.value} else m.refs)
  }

  function Matches(list: seq<Dev>, same: Dev -> bool): seq<Dev> {
    if list == [] then [] else Matches(list[..|list| - 1], same) + if same(list[|list| - 1]) then [list[|list| - 1]] else []
  }

  /** Binds the one listed device at the opened stick's location, if there is just one. */
  function Bind(m: Mon, list: Option<seq<Dev>>, same: Dev -> bool): (bool, Mon) {
    var m1 := Unbind(m);
    if list.None? then (false, m1)
    else
      var found := Matches(list.value, same);
      if |found| == 1 then (true, m1.(bound := Some(found[0]), refs := m1.refs + multiset{found[0]})) else (false, m1)
  }

  const UNREADABLE := -1
  const ABSENT := 0
  const PRESENT := 1

  function Look(d: Dev, list: Option<seq<Dev>>): int {
    if list.None? then UNREADABLE else if d in list.value then PRESENT else ABSENT
  }

  /** Is the bound connection attached? Two looks at the bus with a dispatch in between. */
  function Present(m: Mon, look1: Option<seq<Dev>>, es: seq<Event>, look2: Option<seq<Dev>>): (int, Mon) {
    if m.bound.None? then (ABSENT, m)
    else if Look(m.bound.value, look1) <= 0 then (Look(m.bound.value, look1), m)
    else
      var m1 := Dispatch(m, es);
      (if m1.left == HasLeft then ABSENT else Look(m.bound.value, look2), m1)
  }

  // ---- scans -------------------------------------------------------------------------------------

  function ScanEnd(m: Mon): Mon {
    m.(scan := Scan([], []), refs := m.refs - multiset(m.scan.list))
  }

  /** The entries some scanned device still has. */
  function StillListed(es: seq<Entry>, devs: seq<Dev>): seq<Entry> {
    if es == [] then []
    else StillListed(es[..|es| - 1], devs) + if es[|es| - 1].dev in devs then [es[|es| - 1]] else []
  }

  function EntryRefs(es: seq<Entry>): multiset<Dev> {
    if es == [] then multiset{} else EntryRefs(es[..|es| - 1]) + multiset{es[|es| - 1].dev}
  }

  /** The references of the entries no scanned device has. */
  function UnlistedRefs(es: seq<Entry>, devs: seq<Dev>): multiset<Dev> {
    if es == [] then multiset{}
    else
      var last := es[|es| - 1].dev;
      UnlistedRefs(es[..|es| - 1], devs) + if last in devs then multiset{} else multiset{last}
  }

  function Forget(m: Mon): Mon {
    m.(known := m.known.(entries := StillListed(m.known.entries, m.scan.devs)),
       refs := m.refs - UnlistedRefs(m.known.entries, m.scan.devs))
  }

  /** Room for a cookie per scanned device, or no scan. */
  function Reserve(m: Mon, grown: bool): (bool, Mon) {
    var need := |m.known.entries| + |m.scan.devs|;
    if need <= m.known.cap then (true, m)
    else if !grown then (false, ScanEnd(m))
    else (true, m.(known := m.known.(cap := need)))
  }

  function Listing(m: Mon, list: seq<Dev>, devs: seq<Dev>): Mon {
    m.(scan := Scan(list, devs), refs := m.refs + multiset(list))
  }

  /** A scan of the listed sticks, or none: without a list, or without room for them. */
  function ScanBegin(m: Mon, list: Option<seq<Dev>>, isStick: Dev -> bool, room: bool, grown: bool): (bool, Mon) {
    var m1 := ScanEnd(m);
    if list.None? then (false, m1)
    else if !room then (false, ScanEnd(Listing(m1, list.value, [])))
    else Reserve(Forget(Listing(m1, list.value, Matches(list.value, isStick))), grown)
  }

  function IndexOf(es: seq<Entry>, d: Dev): (i: nat)
    ensures i <= |es| && (i < |es| ==> es[i].dev == d) && forall j | 0 <= j < i :: es[j].dev != d
  {
    if es == [] || es[0].dev == d then 0 else 1 + IndexOf(es[1..], d)
  }

  /** The cookie of a device: the one it has, or the next. */
  function Cookie(m: Mon, d: Dev): (nat, Mon) {
    var i := IndexOf(m.known.entries, d);
    if i < |m.known.entries| then (m.known.entries[i].cookie, m)
    else
      var c := (m.known.next + 1) % UNSIGNED;
      (c, m.(known := m.known.(entries := m.known.entries + [Entry(d, c)], next := c), refs := m.refs + multiset{d}))
  }

  function Close(m: Mon): Mon {
    var m1 := ScanEnd(m);
    var m2 := m1.(known := m1.known.(entries := []), refs := m1.refs - EntryRefs(m1.known.entries));
    DropQueue(Unbind(m2))
  }

  // ---- every operation -----------------------------------------------------------------------------

  datatype Op =
    | OpDispatch(es: seq<Event>)
    | OpBind(list: Option<seq<Dev>>, same: Dev -> bool)
    | OpUnbind
    | OpPresent(look1: Option<seq<Dev>>, es: seq<Event>, look2: Option<seq<Dev>>)
    | OpScanBegin(list: Option<seq<Dev>>, isStick: Dev -> bool, room: bool, grown: bool)
    | OpScanStep(i: nat)
    | OpScanEnd

  function Step(m: Mon, op: Op): Mon {
    match op
    case OpDispatch(es) => Dispatch(m, es)
    case OpBind(list, same) => Bind(m, list, same).1
    case OpUnbind => Unbind(m)
    case OpPresent(look1, es, look2) => Present(m, look1, es, look2).1
    case OpScanBegin(list, isStick, room, grown) => ScanBegin(m, list, isStick, room, grown).1
    case OpScanStep(i) => if i < |m.scan.devs| then Cookie(m, m.scan.devs[i]).1 else m
    case OpScanEnd => ScanEnd(m)
  }

  // ---- references ------------------------------------------------------------------------------------

  function BoundRefs(b: Option<Dev>): multiset<Dev> {
    if b.Some? then multiset{b.value} else multiset{}
  }

  /** Each reference has one owner: an event, a known entry, the binding or the scan's list. */
  predicate Owned(m: Mon) {
    m.refs == EventRefs(m.queue.events) + EntryRefs(m.known.entries) + BoundRefs(m.bound) + multiset(m.scan.list)
  }

  lemma EventRefsMore(es: seq<Event>, e: Event)
    ensures EventRefs(es + [e]) == EventRefs(es) + multiset{e.dev}
  {
    assert (es + [e])[..|es|] == es;
  }

  lemma EntryRefsMore(es: seq<Entry>, e: Entry)
    ensures EntryRefs(es + [e]) == EntryRefs(es) + multiset{e.dev}
  {
    assert (es + [e])[..|es|] == es;
  }

  lemma HotplugOneOwned(m: Mon, e: Event)
    requires Owned(m)
    ensures Owned(Hotplug(m, e))
  {
    EventRefsMore(m.queue.events, e);
  }

  /** What recording events leaves alone. */
  predicate OnlyQueued(m: Mon, m1: Mon) {
    && m1.known == m.known && m1.scan == m.scan && m1.bound == m.bound && m1.left == m.left
    && m1.queue.arrivals == m.queue.arrivals && m1.queue.lefts == m.queue.lefts
  }

  lemma {:induction false} HotplugOwned(m: Mon, es: seq<Event>)
    requires Owned(m)
    ensures Owned(HotplugAll(m, es)) && OnlyQueued(m, HotplugAll(m, es))
  {
    if es != [] {
      HotplugOwned(m, es[..|es| - 1]);
      HotplugOneOwned(HotplugAll(m, es[..|es| - 1]), es[|es| - 1]);
    }
  }

  lemma {:induction false} TakeAllKeeps(m: Mon, es: seq<Event>)
    ensures var m1 := TakeAll(m, es);
            && m1 == m.(queue := m1.queue, left := m1.left)
            && m1.queue == m.queue.(arrivals := m1.queue.arrivals, lefts := m1.queue.lefts)
  {
    if es != [] { TakeAllKeeps(m, es[..|es| - 1]); }
  }

  lemma {:induction false} HotplugBinds(m: Mon, es: seq<Event>)
    ensures HotplugAll(m, es).bound == m.bound
  {
    if es != [] { HotplugBinds(m, es[..|es| - 1]); }
  }

  lemma DispatchBinds(m: Mon, es: seq<Event>)
    ensures Dispatch(m, es).bound == m.bound
  {
    HotplugBinds(m, es);
    TakeAllKeeps(HotplugAll(m, es), HotplugAll(m, es).queue.events);
  }

  lemma PresentDispatches(m: Mon, look1: Option<seq<Dev>>, es: seq<Event>, look2: Option<seq<Dev>>)
    ensures var m1 := Step(m, OpPresent(look1, es, look2));
            m1 == m || m1 == Step(m, OpDispatch(es))
  {
  }

  lemma DispatchOwned(m: Mon, es: seq<Event>)
    requires Owned(m)
    ensures var m1 := Dispatch(m, es);
            Owned(m1) && m1.known == m.known && m1.scan == m.scan && m1.bound == m.bound && m1.queue.events == []
  {
    HotplugOwned(m, es);
    var m1 := HotplugAll(m, es);
    TakeAllKeeps(m1, m1.queue.events);
  }

  lemma AddToLeft(a: multiset<Dev>, b: multiset<Dev>, d: multiset<Dev>)
    ensures a + b + d == (a + d) + b
  {
  }

  lemma {:induction false} StillListedRefs(es: seq<Entry>, devs: seq<Dev>)
    ensures EntryRefs(es) == EntryRefs(StillListed(es, devs)) + UnlistedRefs(es, devs)
  {
    if es != [] {
      var front, last := es[..|es| - 1], es[|es| - 1];
      StillListedRefs(front, devs);
      if last.dev in devs {
        EntryRefsMore(StillListed(front, devs), last);
        AddToLeft(EntryRefs(StillListed(front, devs)), UnlistedRefs(front, devs), multiset{last.dev});
      } else {
        assert StillListed(front, devs) + [] == StillListed(front, devs);
      }
    }
  }

  lemma ForgetOwned(m: Mon)
    requires Owned(m)
    ensures Owned(Forget(m))
  {
    StillListedRefs(m.known.entries, m.scan.devs);
  }

  lemma UnbindOwned(m: Mon)
    requires Owned(m)
    ensures Owned(Unbind(m))
  {
  }

  lemma BindOwned(m: Mon, list: Option<seq<Dev>>, same: Dev -> bool)
    requires Owned(m)
    ensures Owned(Bind(m, list, same).1)
  {
    UnbindOwned(m);
  }

  lemma ScanEndOwned(m: Mon)
    requires Owned(m)
    ensures Owned(ScanEnd(m))
  {
  }

  lemma ListingOwned(m: Mon, list: seq<Dev>, devs: seq<Dev>)
    requires Owned(m) && m.scan.list == []
    ensures Owned(Listing(m, list, devs))
  {
  }

  lemma ReserveOwned(m: Mon, grown: bool)
    requires Owned(m)
    ensures Owned(Reserve(m, grown).1)
  {
    ScanEndOwned(m);
  }

  lemma ScanBeginOwned(m: Mon, list: Option<seq<Dev>>, isStick: Dev -> bool, room: bool, grown: bool)
    requires Owned(m)
    ensures Owned(ScanBegin(m, list, isStick, room, grown).1)
  {
    ScanEndOwned(m);
    if list.Some? {
      var m1 := ScanEnd(m);
      ListingOwned(m1, list.value, []);
      ScanEndOwned(Listing(m1, list.value, []));
      ListingOwned(m1, list.value, Matches(list.value, isStick));
      ForgetOwned(Listing(m1, list.value, Matches(list.value, isStick)));
      ReserveOwned(Forget(Listing(m1, list.value, Matches(list.value, isStick))), grown);
    }
  }

  lemma OneMoreKnown(e: multiset<Dev>, k: multiset<Dev>, b: multiset<Dev>, l: multiset<Dev>, d: multiset<Dev>)
    ensures e + k + b + l + d == e + (k + d) + b + l
  {
  }

  lemma CookieOwned(m: Mon, d: Dev)
    requires Owned(m)
    ensures Owned(Cookie(m, d).1)
  {
    var i := IndexOf(m.known.entries, d);
    if i >= |m.known.entries| {
      EntryRefsMore(m.known.entries, Entry(d, (m.known.next + 1) % UNSIGNED));
      OneMoreKnown(EventRefs(m.queue.events), EntryRefs(m.known.entries), BoundRefs(m.bound), multiset(m.scan.list), multiset{d});
    }
  }

  lemma DispatchStepOwned(m: Mon, es: seq<Event>)
    requires Owned(m)
    ensures Owned(Step(m, OpDispatch(es)))
  {
    DispatchOwned(m, es);
  }

  lemma PresentStepOwned(m: Mon, look1: Option<seq<Dev>>, es: seq<Event>, look2: Option<seq<Dev>>)
    requires Owned(m)
    ensures Owned(Step(m, OpPresent(look1, es, look2)))
  {
    DispatchStepOwned(m, es);
    PresentDispatches(m, look1, es, look2);
    EitherOwned(Step(m, OpPresent(look1, es, look2)), m, Step(m, OpDispatch(es)));
  }

  lemma EitherOwned(m: Mon, m1: Mon, m2: Mon)
    requires Owned(m1) && Owned(m2) && (m == m1 || m == m2)
    ensures Owned(m)
  {
  }

  lemma BindStepOwned(m: Mon, list: Option<seq<Dev>>, same: Dev -> bool)
    requires Owned(m)
    ensures Owned(Step(m, OpBind(list, same)))
  {
    BindOwned(m, list, same);
  }

  lemma UnbindStepOwned(m: Mon)
    requires Owned(m)
    ensures Owned(Step(m, OpUnbind))
  {
    UnbindOwned(m);
  }

  lemma ScanBeginStepOwned(m: Mon, list: Option<seq<Dev>>, isStick: Dev -> bool, room: bool, grown: bool)
    requires Owned(m)
    ensures Owned(Step(m, OpScanBegin(list, isStick, room, grown)))
  {
    ScanBeginOwned(m, list, isStick, room, grown);
  }

  lemma ScanStepOwned(m: Mon, i: nat)
    requires Owned(m)
    ensures Owned(Step(m, OpScanStep(i)))
  {
    if i < |m.scan.devs| { CookieOwned(m, m.scan.devs[i]); }
  }

  lemma ScanEndStepOwned(m: Mon)
    requires Owned(m)
    ensures Owned(Step(m, OpScanEnd))
  {
    ScanEndOwned(m);
  }

  /** Every operation leaves each reference with one owner. */
  lemma StepOwned(m: Mon, op: Op)
    requires Owned(m)
    ensures Owned(Step(m, op))
  {
    match op
    case OpDispatch(es) => DispatchStepOwned(m, es);
    case OpBind(list, same) => BindStepOwned(m, list, same);
    case OpUnbind => UnbindStepOwned(m);
    case OpPresent(look1, es, look2) => PresentStepOwned(m, look1, es, look2);
    case OpScanBegin(list, isStick, room, grown) => ScanBeginStepOwned(m, list, isStick, room, grown);
    case OpScanStep(i) => ScanStepOwned(m, i);
    case OpScanEnd => ScanEndStepOwned(m);
  }

  /** Closing releases every reference, whatever came before. */
  lemma CloseReleasesAll(m: Mon)
    requires Owned(m)
    ensures Close(m).refs == multiset{}
    ensures Close(m).known.entries == [] && Close(m).queue.events == [] && Close(m).bound == None && Close(m).scan == Scan([], [])
  {
  }

  function Run(ops: seq<Op>): Mon {
    if ops == [] then OPENED else Step(Run(ops[..|ops| - 1]), ops[|ops| - 1])
  }

  /** From open to close, over any operations: no reference is without an owner, and none is
      left at the end. */
  lemma {:induction false} NoReferenceLeaks(ops: seq<Op>)
    ensures Owned(Run(ops)) && Close(Run(ops)).refs == multiset{}
  {
    if ops == [] {
      assert Owned(OPENED);
    } else {
      NoReferenceLeaks(ops[..|ops| - 1]);
      StepOwned(Run(ops[..|ops| - 1]), ops[|ops| - 1]);
    }
    CloseReleasesAll(Run(ops));
  }
}
