/**
 * What the monitor's cookies and events are worth: a cookie is a connection, a device
 * that stays listed keeps its cookie, the known table never outgrows its room, and no
 * hotplug event is lost without a trace.
 */
module Ch341MonitorCookies {
  import opened Prelude
  import opened Ch341Monitor

  // ---- cookies ------------------------------------------------------------------------------

  /** The monitor on its bus: the life each address is in, and the connection (address and
      life) each cookie was given to. */
  datatype World = World(m: Mon, life: Dev -> nat, given: map<nat, (Dev, nat)>, issued: nat)

  datatype Act = Monitor(op: Op) | Recycle(d: Dev)

  predicate IsKnown(m: Mon, d: Dev) {
    IndexOf(m.known.entries, d) < |m.known.entries|
  }

  predicate Issues(m: Mon, op: Op) {
    op.OpScanStep? && op.i < |m.scan.devs| && !IsKnown(m, m.scan.devs[op.i])
  }

  /** An address is given to a new object only when nobody holds the old one. */
  function StepWorld(w: World, act: Act): World {
    match act
    case Recycle(d) =>
      if d in w.m.refs then w else w.(life := x => if x == d then w.life(x) + 1 else w.life(x))
    case Monitor(op) =>
      if Issues(w.m, op) then
        var d := w.m.scan.devs[op.i];
        World(Step(w.m, op), w.life, w.given[Cookie(w.m, d).0 := (d, w.life(d))], w.issued + 1)
      else w.(m := Step(w.m, op))
  }

  function RunWorld(w: World, acts: seq<Act>): World {
    if acts == [] then w else StepWorld(RunWorld(w, acts[..|acts| - 1]), acts[|acts| - 1])
  }

  function Opened(life: Dev -> nat): World {
    World(OPENED, life, map[], 0)
  }

  predicate EntriesGiven(es: seq<Entry>, life: Dev -> nat, given: map<nat, (Dev, nat)>) {
    forall e | e in es :: e.cookie in given && given[e.cookie] == (e.dev, life(e.dev))
  }

  predicate Inv(w: World) {
    && Owned(w.m)
    && EntriesGiven(w.m.known.entries, w.life, w.given)
    && (w.issued < UNSIGNED ==> w.m.known.next == w.issued && forall c | c in w.given :: 1 <= c <= w.issued)
  }

  lemma {:induction false} EntryHoldsRef(es: seq<Entry>, e: Entry)
    requires e in es
    ensures e.dev in EntryRefs(es)
  {
    var front, last := es[..|es| - 1], es[|es| - 1];
    assert es == front + [last];
    if e != last {
      EntryHoldsRef(front, e);
    }
  }

  lemma {:induction false} StillListedAre(es: seq<Entry>, devs: seq<Dev>)
    ensures forall e :: e in StillListed(es, devs) <==> e in es && e.dev in devs
  {
    if es != [] {
      var front, last := es[..|es| - 1], es[|es| - 1];
      StillListedAre(front, devs);
      assert es == front + [last];
    }
  }

  lemma ScanBeginKnown(m: Mon, list: Option<seq<Dev>>, isStick: Dev -> bool, room: bool, grown: bool)
    ensures var m1 := ScanBegin(m, list, isStick, room, grown).1;
            && m1.known.next == m.known.next
            && m1.known.entries == if list.Some? && room then StillListed(m.known.entries, Matches(list.value, isStick))
                                   else m.known.entries
  {
  }

  lemma DispatchKnown(m: Mon, es: seq<Event>)
    requires Owned(m)
    ensures Step(m, OpDispatch(es)).known == m.known && Step(m, OpDispatch(es)).scan == m.scan
  {
    DispatchOwned(m, es);
  }

  lemma PresentKnown(m: Mon, look1: Option<seq<Dev>>, es: seq<Event>, look2: Option<seq<Dev>>)
    requires Owned(m)
    ensures var m1 := Step(m, OpPresent(look1, es, look2));
            m1.known == m.known && m1.scan == m.scan
  {
    DispatchKnown(m, es);
    PresentDispatches(m, look1, es, look2);
  }

  lemma OtherKnown(m: Mon, op: Op)
    requires Owned(m) && !op.OpScanBegin? && !op.OpScanStep?
    ensures Step(m, op).known == m.known && (!op.OpScanEnd? ==> Step(m, op).scan == m.scan)
  {
    match op
    case OpDispatch(es) => DispatchKnown(m, es);
    case OpPresent(look1, es, look2) => PresentKnown(m, look1, es, look2);
    case _ =>
  }

  lemma KnownAfter(m: Mon, op: Op)
    requires !Issues(m, op) && Owned(m)
    ensures forall e | e in Step(m, op).known.entries :: e in m.known.entries
    ensures Step(m, op).known.next == m.known.next
  {
    if op.OpScanBegin? {
      ScanBeginKnown(m, op.list, op.isStick, op.room, op.grown);
      if op.list.Some? { StillListedAre(m.known.entries, Matches(op.list.value, op.isStick)); }
    } else if op.OpScanStep? {
    } else {
      OtherKnown(m, op);
    }
  }

  lemma RecycleKeeps(w: World, d: Dev)
    requires Inv(w)
    ensures Inv(StepWorld(w, Recycle(d)))
  {
    if d !in w.m.refs {
      forall e | e in w.m.known.entries ensures e.dev != d {
        EntryHoldsRef(w.m.known.entries, e);
      }
    }
  }

  lemma IssuedWorld(w: World, op: Op)
    requires Issues(w.m, op)
    ensures var d := w.m.scan.devs[op.i];
            var (c, m1) := Cookie(w.m, d);
            StepWorld(w, Monitor(op)) == World(m1, w.life, w.given[c := (d, w.life(d))], w.issued + 1)
  {
  }

  lemma IssueKeeps(w: World, op: Op)
    requires Inv(w) && Issues(w.m, op) && w.issued + 1 < UNSIGNED
    ensures Inv(StepWorld(w, Monitor(op)))
    ensures Cookie(w.m, w.m.scan.devs[op.i]).0 !in w.given
  {
    var d := w.m.scan.devs[op.i];
    IssuedWorld(w, op);
    CookieOwned(w.m, d);
    NextCookie(w.m, d);
    MoreGiven(w.m.known.entries, w.life, w.given, d, w.issued + 1);
  }

  lemma NextCookie(m: Mon, d: Dev)
    requires !IsKnown(m, d) && m.known.next + 1 < UNSIGNED
    ensures var (c, m1) := Cookie(m, d);
            c == m.known.next + 1 && m1.known == Known(m.known.entries + [Entry(d, c)], m.known.cap, c)
  {
  }

  lemma MoreGiven(es: seq<Entry>, life: Dev -> nat, given: map<nat, (Dev, nat)>, d: Dev, c: nat)
    requires EntriesGiven(es, life, given) && c !in given
    ensures EntriesGiven(es + [Entry(d, c)], life, given[c := (d, life(d))])
  {
  }

  lemma StepKeeps(w: World, act: Act)
    requires Inv(w) && StepWorld(w, act).issued < UNSIGNED
    ensures Inv(StepWorld(w, act))
    ensures forall c | c in w.given :: c in StepWorld(w, act).given && StepWorld(w, act).given[c] == w.given[c]
  {
    match act
    case Recycle(d) => RecycleKeeps(w, d);
    case Monitor(op) =>
      if Issues(w.m, op) {
        IssueKeeps(w, op);
      } else {
        StepOwned(w.m, op);
        KnownAfter(w.m, op);
      }
  }

  lemma {:induction false} RunKeeps(w: World, acts: seq<Act>)
    requires Inv(w) && RunWorld(w, acts).issued < UNSIGNED
    ensures Inv(RunWorld(w, acts)) && w.issued <= RunWorld(w, acts).issued
    ensures forall c | c in w.given :: c in RunWorld(w, acts).given && RunWorld(w, acts).given[c] == w.given[c]
  {
    if acts != [] {
      RunKeeps(w, acts[..|acts| - 1]);
      StepKeeps(RunWorld(w, acts[..|acts| - 1]), acts[|acts| - 1]);
    }
  }

  /** The i-th device of the scan and the cookie its step reports. */
  function Reported(m: Mon, i: nat): nat
    requires i < |m.scan.devs|
  {
    Cookie(m, m.scan.devs[i]).0
  }

  lemma ReportedIsGiven(w: World, i: nat)
    requires Inv(w) && i < |w.m.scan.devs| && StepWorld(w, Monitor(OpScanStep(i))).issued < UNSIGNED
    ensures var w1 := StepWorld(w, Monitor(OpScanStep(i)));
            && Reported(w.m, i) in w1.given
            && w1.given[Reported(w.m, i)] == (w.m.scan.devs[i], w.life(w.m.scan.devs[i])) && w1.life == w.life
  {
  }

  /** Over any run of the monitor and its bus in which fewer than 2^32 cookies are issued,
      two scan steps that report the same cookie have seen the same connection: the same
      object in the same life, however its address was used in between. */
  lemma CookieIsConnection(life: Dev -> nat, before: seq<Act>, i: nat, between: seq<Act>, j: nat)
    ensures var w := RunWorld(Opened(life), before);
            var w2 := RunWorld(StepWorld(w, Monitor(OpScanStep(i))), between);
            && i < |w.m.scan.devs| && j < |w2.m.scan.devs| && w2.issued + 1 < UNSIGNED
            && Reported(w.m, i) == Reported(w2.m, j)
            ==> w.m.scan.devs[i] == w2.m.scan.devs[j] && w.life(w.m.scan.devs[i]) == w2.life(w2.m.scan.devs[j])
  {
    var w := RunWorld(Opened(life), before);
    var w1 := StepWorld(w, Monitor(OpScanStep(i)));
    var w2 := RunWorld(w1, between);
    IssuedGrows(w1, between);
    if i < |w.m.scan.devs| && j < |w2.m.scan.devs| && w2.issued + 1 < UNSIGNED {
      RunKeeps(Opened(life), before);
      SameCookieSameLife(w, i, between, j);
    }
  }

  lemma {:induction false} IssuedGrows(w: World, acts: seq<Act>)
    ensures w.issued <= RunWorld(w, acts).issued
  {
    if acts != [] { IssuedGrows(w, acts[..|acts| - 1]); }
  }

  lemma SameCookieSameLife(w: World, i: nat, between: seq<Act>, j: nat)
    requires Inv(w) && i < |w.m.scan.devs|
    requires var w2 := RunWorld(StepWorld(w, Monitor(OpScanStep(i))), between);
             j < |w2.m.scan.devs| && w2.issued + 1 < UNSIGNED
    ensures var w2 := RunWorld(StepWorld(w, Monitor(OpScanStep(i))), between);
            Reported(w.m, i) == Reported(w2.m, j) ==>
              w.m.scan.devs[i] == w2.m.scan.devs[j] && w.life(w.m.scan.devs[i]) == w2.life(w2.m.scan.devs[j])
  {
    var w1 := StepWorld(w, Monitor(OpScanStep(i)));
    IssuedGrows(w1, between);
    ReportedIsGiven(w, i);
    StepKeeps(w, Monitor(OpScanStep(i)));
    RunKeeps(w1, between);
    var w2 := RunWorld(w1, between);
    StepKeeps(w2, Monitor(OpScanStep(j)));
    ReportedIsGiven(w2, j);
  }

  /** Within one scan, whatever happens between two of its steps, two devices never share a
      cookie. */
  lemma ScanCookiesDistinct(life: Dev -> nat, before: seq<Act>, i: nat, between: seq<Act>, j: nat)
    ensures var w := RunWorld(Opened(life), before);
            var w2 := RunWorld(StepWorld(w, Monitor(OpScanStep(i))), between);
            && w2.m.scan == w.m.scan && i < |w.m.scan.devs| && j < |w.m.scan.devs| && w2.issued + 1 < UNSIGNED
            && Reported(w.m, i) == Reported(w2.m, j)
            ==> w.m.scan.devs[i] == w.m.scan.devs[j]
  {
    CookieIsConnection(life, before, i, between, j);
  }

  predicate HasCookie(m: Mon, d: Dev, c: nat) {
    IsKnown(m, d) && m.known.entries[IndexOf(m.known.entries, d)].cookie == c
  }

  lemma {:induction false} FirstStays(es: seq<Entry>, devs: seq<Dev>, d: Dev)
    requires IndexOf(es, d) < |es| && d in devs
    ensures var keep := StillListed(es, devs);
            IndexOf(keep, d) < |keep| && keep[IndexOf(keep, d)] == es[IndexOf(es, d)]
  {
    var front, last := es[..|es| - 1], es[|es| - 1];
    assert es == front + [last];
    IndexInFront(front, last, d);
    var keep := StillListed(front, devs);
    if IndexOf(front, d) < |front| {
      FirstStays(front, devs, d);
      if last.dev in devs { IndexInFront(keep, last, d); } else { assert keep + [] == keep; }
    } else {
      StillListedAre(front, devs);
      assert IndexOf(keep, d) == |keep|;
      IndexInFront(keep, last, d);
    }
  }

  lemma {:induction false} IndexInFront(front: seq<Entry>, last: Entry, d: Dev)
    ensures IndexOf(front + [last], d) == if IndexOf(front, d) < |front| then IndexOf(front, d)
                                          else if last.dev == d then |front| else |front| + 1
    decreases |front|
  {
    var es := front + [last];
    if front == [] {
      assert es[1..] == [];
    } else if front[0].dev != d {
      assert es[1..] == front[1..] + [last];
      IndexInFront(front[1..], last, d);
    }
  }

  /** A device with a cookie keeps it through every operation but a scan that does not list
      it: in consecutive scans that list it, its cookie is the same. */
  lemma CookieKept(m: Mon, op: Op, d: Dev, c: nat)
    requires Owned(m) && HasCookie(m, d, c)
    requires op.OpScanBegin? && op.list.Some? && op.room ==> d in Matches(op.list.value, op.isStick)
    ensures HasCookie(Step(m, op), d, c)
  {
    if op.OpScanBegin? {
      ScanBeginKnown(m, op.list, op.isStick, op.room, op.grown);
      if op.list.Some? && op.room { FirstStays(m.known.entries, Matches(op.list.value, op.isStick), d); }
    } else if op.OpScanStep? {
      if op.i < |m.scan.devs| { CookieKeepsOthers(m, m.scan.devs[op.i], d, c); }
    } else {
      OtherKnown(m, op);
    }
  }

  lemma CookieKeepsOthers(m: Mon, x: Dev, d: Dev, c: nat)
    requires HasCookie(m, d, c)
    ensures HasCookie(Cookie(m, x).1, d, c)
  {
    IndexInFront(m.known.entries, Entry(x, (m.known.next + 1) % UNSIGNED), d);
  }

  // ---- the room for cookies -----------------------------------------------------------------------

  /** The scanned devices that have no cookie yet. */
  function Unknown(m: Mon): set<Dev> {
    set d | d in m.scan.devs && !IsKnown(m, d)
  }

  /** There is room for all of them. */
  predicate Reserved(m: Mon) {
    |m.known.entries| + |Unknown(m)| <= m.known.cap
  }

  function Listed(devs: seq<Dev>): set<Dev> {
    set d | d in devs
  }

  lemma {:induction false} FewerThanListed(devs: seq<Dev>)
    ensures |Listed(devs)| <= |devs|
  {
    if devs == [] {
      assert Listed(devs) == {};
    } else {
      var front, last := devs[..|devs| - 1], devs[|devs| - 1];
      FewerThanListed(front);
      assert devs == front + [last];
      assert Listed(devs) == Listed(front) + {last};
    }
  }

  lemma SubsetFewer(a: set<Dev>, b: set<Dev>)
    requires a <= b
    ensures |a| <= |b|
  {
    assert b == a + (b - a);
  }

  lemma {:induction false} StillListedFewer(es: seq<Entry>, devs: seq<Dev>)
    ensures |StillListed(es, devs)| <= |es|
  {
    if es != [] { StillListedFewer(es[..|es| - 1], devs); }
  }

  lemma NoScanReserved(m: Mon)
    requires |m.known.entries| <= m.known.cap && m.scan.devs == []
    ensures Reserved(m)
  {
    assert Unknown(m) == {};
  }

  lemma ScanBeginRoom(m: Mon, list: Option<seq<Dev>>, isStick: Dev -> bool, room: bool, grown: bool)
    requires |m.known.entries| <= m.known.cap
    ensures var (ok, m1) := ScanBegin(m, list, isStick, room, grown);
            && |m1.known.entries| + |m1.scan.devs| <= m1.known.cap
            && (!ok ==> m1.scan.devs == [])
  {
    if list.Some? { StillListedFewer(m.known.entries, Matches(list.value, isStick)); }
  }

  lemma ScanBeginReserved(m: Mon, list: Option<seq<Dev>>, isStick: Dev -> bool, room: bool, grown: bool)
    requires Reserved(m)
    ensures Reserved(ScanBegin(m, list, isStick, room, grown).1)
  {
    ScanBeginRoom(m, list, isStick, room, grown);
    RoomReserved(ScanBegin(m, list, isStick, room, grown).1);
  }

  lemma RoomReserved(m: Mon)
    requires |m.known.entries| + |m.scan.devs| <= m.known.cap
    ensures Reserved(m)
  {
    FewerThanListed(m.scan.devs);
    SubsetFewer(Unknown(m), Listed(m.scan.devs));
  }

  lemma CookieReserved(m: Mon, d: Dev)
    requires Reserved(m) && d in m.scan.devs
    ensures Reserved(Cookie(m, d).1)
    ensures !IsKnown(m, d) ==> |m.known.entries| < m.known.cap
  {
    if !IsKnown(m, d) {
      var m1 := Cookie(m, d).1;
      forall x ensures IsKnown(m1, x) <==> IsKnown(m, x) || x == d {
        IndexInFront(m.known.entries, Entry(d, (m.known.next + 1) % UNSIGNED), x);
      }
      assert d in Unknown(m);
      assert Unknown(m1) == Unknown(m) - {d};
    }
  }

  /** The known table never outgrows what scan_begin reserved. */
  lemma StepReserved(m: Mon, op: Op)
    requires Reserved(m) && Owned(m)
    ensures Reserved(Step(m, op))
  {
    if op.OpScanBegin? {
      ScanBeginReserved(m, op.list, op.isStick, op.room, op.grown);
    } else if op.OpScanStep? {
      if op.i < |m.scan.devs| { CookieReserved(m, m.scan.devs[op.i]); }
    } else if op.OpScanEnd? {
      NoScanReserved(ScanEnd(m));
    } else {
      OtherKnown(m, op);
      SameTableReserved(m, Step(m, op));
    }
  }

  lemma SameTableReserved(m: Mon, m1: Mon)
    requires Reserved(m) && m1.known == m.known && m1.scan == m.scan
    ensures Reserved(m1)
  {
    assert Unknown(m1) == Unknown(m);
  }

  // ---- events ------------------------------------------------------------------------------------------

  function CountArrived(es: seq<Event>): nat {
    if es == [] then 0 else CountArrived(es[..|es| - 1]) + if es[|es| - 1].left then 0 else 1
  }

  /** The LEFT events of other devices than the bound one. */
  function CountLeft(es: seq<Event>, bound: Option<Dev>): nat {
    if es == [] then 0
    else
      var last := es[|es| - 1];
      CountLeft(es[..|es| - 1], bound) + if last.left && bound != Some(last.dev) then 1 else 0
  }

  /** The events there was room for. */
  function Heard(es: seq<Event>): seq<Event> {
    es[..Min(|es|, EVENTS)]
  }

  lemma {:induction false} HotplugHears(m: Mon, es: seq<Event>)
    requires m.queue.events == [] && !m.queue.overflow
    ensures var m1 := HotplugAll(m, es);
            && m1.queue == m.queue.(events := Heard(es), overflow := |es| > EVENTS)
            && m1.bound == m.bound && m1.left == m.left
  {
    if es != [] {
      HotplugHears(m, es[..|es| - 1]);
      if |es| <= EVENTS {
        assert Heard(es[..|es| - 1]) + [es[|es| - 1]] == Heard(es);
      } else {
        assert Heard(es[..|es| - 1]) == Heard(es);
      }
    }
  }

  lemma {:induction false} TakeAllCounts(m: Mon, es: seq<Event>)
    ensures var m1 := TakeAll(m, es);
            && m1.bound == m.bound && m1.queue == m.queue.(arrivals := m1.queue.arrivals, lefts := m1.queue.lefts)
            && m1.queue.arrivals == m.queue.arrivals + CountArrived(es)
            && m1.queue.lefts == m.queue.lefts + CountLeft(es, m.bound)
            && m1.left == if m.bound.Some? && Event(true, m.bound.value) in es then HasLeft else m.left
  {
    if es != [] {
      var front, last := es[..|es| - 1], es[|es| - 1];
      TakeAllCounts(m, front);
      assert es == front + [last];
    }
  }

  /** Every operation leaves the event queue drained. */
  predicate Drained(m: Mon) {
    m.queue.events == [] && !m.queue.overflow
  }

  lemma DispatchDrains(m: Mon, es: seq<Event>)
    ensures Drained(Dispatch(m, es))
  {
    var m1 := HotplugAll(m, es);
    TakeAllKeeps(m1, m1.queue.events);
  }

  lemma StepDrained(m: Mon, op: Op)
    requires Drained(m)
    ensures Drained(Step(m, op))
  {
    if op.OpDispatch? || op.OpPresent? { DispatchDrains(m, op.es); }
    if op.OpPresent? { PresentDispatches(m, op.look1, op.es, op.look2); }
  }

  lemma {:induction false} RunDrained(ops: seq<Op>)
    ensures Drained(Run(ops))
  {
    if ops != [] {
      RunDrained(ops[..|ops| - 1]);
      StepDrained(Run(ops[..|ops| - 1]), ops[|ops| - 1]);
    }
  }

  lemma DispatchFrom(m: Mon, es: seq<Event>)
    requires Drained(m)
    ensures var m1 := Dispatch(m, es);
            && (m1.left == HasLeft <==> m.left == HasLeft || (m.bound.Some? && Event(true, m.bound.value) in Heard(es)))
            && m1.queue.arrivals == m.queue.arrivals + CountArrived(Heard(es)) + (if |es| > EVENTS then 1 else 0)
            && m1.queue.lefts == m.queue.lefts + CountLeft(Heard(es), m.bound) && m1.bound == m.bound
            && (|es| > EVENTS && m.bound.Some? ==> m1.left != Staying)
            && (|es| <= EVENTS && m.left == Staying ==> m1.left != Uncertain)
  {
    HotplugHears(m, es);
    var m1 := HotplugAll(m, es);
    TakeAllCounts(m1, m1.queue.events);
  }

  /** After any operations a dispatch declares a LEFT only for a LEFT event of the bound device
      that it heard, counts every ARRIVED and every other LEFT it heard, and shows events it
      could not hold: as an arrival, and, while a connection is bound, as a LEFT or as
      uncertainty. */
  lemma DispatchSound(ops: seq<Op>, es: seq<Event>)
    ensures var m := Run(ops);
            var m1 := Dispatch(m, es);
            && (m1.left == HasLeft <==> m.left == HasLeft || (m.bound.Some? && Event(true, m.bound.value) in Heard(es)))
            && m1.queue.arrivals == m.queue.arrivals + CountArrived(Heard(es)) + (if |es| > EVENTS then 1 else 0)
            && m1.queue.lefts == m.queue.lefts + CountLeft(Heard(es), m.bound) && m1.bound == m.bound
            && (|es| > EVENTS && m.bound.Some? ==> m1.left != Staying)
            && (|es| <= EVENTS && m.left == Staying ==> m1.left != Uncertain)
  {
    RunDrained(ops);
    DispatchFrom(Run(ops), es);
  }

  /** After any operations the presence check answers "attached" exactly when both looks list
      the bound device and no LEFT of it is known by the second; "cannot tell" exactly when the
      look that had to decide could not be read; lost events alone never make it "gone". */
  lemma PresenceExact(ops: seq<Op>, look1: Option<seq<Dev>>, es: seq<Event>, look2: Option<seq<Dev>>)
    requires Run(ops).bound.Some?
    ensures var m := Run(ops);
            var r := Present(m, look1, es, look2).0;
            var b := m.bound.value;
            var gone := m.left == HasLeft || Event(true, b) in Heard(es);
            && (r == PRESENT <==> look1.Some? && b in look1.value && !gone && look2.Some? && b in look2.value)
            && (r == UNREADABLE <==> look1.None? || (b in look1.value && !gone && look2.None?))
  {
    DispatchSound(ops, es);
  }

  // ---- bindings and scans ------------------------------------------------------------------------

  ghost function Places(list: seq<Dev>, same: Dev -> bool): set<nat> {
    set i: nat | i < |list| && same(list[i])
  }

  lemma {:induction false} MatchesAre(list: seq<Dev>, same: Dev -> bool)
    ensures forall d :: d in Matches(list, same) <==> d in list && same(d)
    ensures |Matches(list, same)| == |Places(list, same)|
  {
    if list == [] {
      assert Places(list, same) == {};
    } else {
      var front, last := list[..|list| - 1], list[|list| - 1];
      MatchesAre(front, same);
      assert list == front + [last];
      PlacesMore(front, last, same);
    }
  }

  lemma PlacesMore(front: seq<Dev>, last: Dev, same: Dev -> bool)
    ensures |Places(front + [last], same)| == |Places(front, same)| + if same(last) then 1 else 0
  {
    assert Places(front + [last], same) == Places(front, same) + if same(last) then {|front|} else {};
  }

  /** Just one listed device is at that location. */
  ghost predicate OnlyMatch(list: seq<Dev>, same: Dev -> bool, d: Dev) {
    exists i | 0 <= i < |list| :: list[i] == d && same(d) && forall j | 0 <= j < |list| && j != i :: !same(list[j])
  }

  lemma OneMatch(list: seq<Dev>, same: Dev -> bool)
    ensures |Matches(list, same)| == 1 <==> exists d :: OnlyMatch(list, same, d)
    ensures |Matches(list, same)| == 1 ==> OnlyMatch(list, same, Matches(list, same)[0])
  {
    MatchesAre(list, same);
    var hits := Places(list, same);
    if |hits| == 1 {
      var i :| i in hits;
      assert hits == {i} by { assert |hits - {i}| == 0; }
      forall j | 0 <= j < |list| && j != i ensures !same(list[j]) { assert j !in hits; }
      assert Matches(list, same)[0] in Matches(list, same);
      assert OnlyMatch(list, same, list[i]);
    }
    if d :| OnlyMatch(list, same, d) {
      var i :| 0 <= i < |list| && list[i] == d && same(d) && forall j | 0 <= j < |list| && j != i :: !same(list[j]);
      assert hits == {i};
    }
  }

  /** A stick is bound exactly when the list could be read and just one listed device is at
      its location: that one, with no LEFT seen; otherwise nothing is. */
  lemma BoundExactly(m: Mon, list: Option<seq<Dev>>, same: Dev -> bool)
    ensures var (ok, m1) := Bind(m, list, same);
            && (ok <==> list.Some? && exists d :: OnlyMatch(list.value, same, d))
            && (ok ==> m1.bound.Some? && OnlyMatch(list.value, same, m1.bound.value))
            && (!ok ==> m1.bound.None?)
            && m1.left == Staying && m1.queue == m.queue && m1.known == m.known && m1.scan == m.scan
  {
    if list.Some? { OneMatch(list.value, same); }
  }

  /** A scan is begun exactly when there is a list and room; it then holds the listed sticks,
      and of the known table only what they still are. */
  lemma ScanBegunExactly(m: Mon, list: Option<seq<Dev>>, isStick: Dev -> bool, room: bool, grown: bool)
    ensures var (ok, m1) := ScanBegin(m, list, isStick, room, grown);
            && (ok <==> list.Some? && room
                        && (grown || |m1.known.entries| + |Matches(list.value, isStick)| <= m.known.cap))
            && (ok ==> m1.scan == Scan(list.value, Matches(list.value, isStick)))
            && (!ok ==> m1.scan == Scan([], []))
            && m1.bound == m.bound && m1.left == m.left && m1.queue == m.queue
            && (list.Some? && room ==> forall e :: e in m1.known.entries <==> e in m.known.entries && isStick(e.dev) && e.dev in list.value)
  {
    ScanBeginKnown(m, list, isStick, room, grown);
    if list.Some? {
      StillListedAre(m.known.entries, Matches(list.value, isStick));
      MatchesAre(list.value, isStick);
    }
  }
}
