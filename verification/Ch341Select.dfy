/**
 * The Meshstick selection (daemon_ch341_select.cpp): one bounded step per call
 * against a USB bus that may change during every blocking call.
 *
 * The bus, the clock and the opens are adversarial: every call out of the
 * selection is numbered, and `Env` answers it as it likes. A call out that reads
 * the clock may find it advanced by any amount; a call out that takes events may
 * deliver any number of ARRIVED and LEFT. All theorems hold for every `Env`.
 *
 * The functions here are the selection as a transition system on `Sel`; the class
 * Selector (Ch341Selector.dfy) is the same code updating its fields in place.
 */
module Ch341Select {
  import opened Prelude

  const ACCESS_MS: nat := 2000
  const BUSY_RETRY_MS: nat := 200
  const WALK_GAP_MS: nat := 1000
  const SETTLE_QUIET_MS: nat := 500
  const SETTLE_CAP_MS: nat := 2000

  /** The change counter is a C `unsigned`. */
  const COUNTER_WRAP: nat := 0x1_0000_0000

  // ---- what a scan and an identity read report ---------------------------------

  datatype Openable = Openable | Access | Gone | OtherError
  datatype SerialState = HasSerial | NoSerial | Unreadable
  datatype Item = Item(openable: Openable, state: SerialState, serial: string, port: string, cookie: nat)

  /** Port path and connection cookie: a replug on the same port is another one. */
  datatype Connection = Connection(port: string, cookie: nat)

  function KeyOf(it: Item): Connection {
    Connection(it.port, it.cookie)
  }

  /** Serials are compared on their first eight characters. */
  function First8(s: string): string {
    if |s| <= 8 then s else s[..8]
  }

  // ---- the environment -----------------------------------------------------------

  /** The answer to the call out with the given number. `opens` is the stick pine64 takes,
      asked for a serial or for any stick, beside the ones held; `identify` reads the
      identity of such a stick; `events` is the number of ARRIVED and of LEFT that taking
      events delivers. */
  datatype Env = Env(
    advance: nat -> nat,
    scanBegin: nat -> Option<nat>,
    scanStep: (nat, nat) -> Item,
    opens: (nat, Option<string>, seq<Item>) -> Option<Item>,
    identify: (nat, Item) -> Option<Item>,
    binds: nat -> bool,
    boundLeft: nat -> bool,
    events: nat -> (nat, nat))

  /** Everything the selection hears from outside: the clock, the call number, and
      the change notes with what a stale snapshot leaves behind.
      `changes` counts every ARRIVED and every unbound LEFT taken. */
  datatype Ears = Ears(
    env: Env,
    calls: nat,
    clock: nat,
    burstFirst: nat,
    burstLast: nat,
    capFirst: nat,
    changes: nat,
    accessHold: bool,
    finalPending: bool)

  /** The devices: the handles the selection holds open, the stick behind each handle
      (which only the environment knows), the monitor's binding and scan list, and (for
      the theorems) the identities handed out so far. */
  datatype Usb = Usb(
    open: set<nat>,
    nextDev: nat,
    sticks: map<nat, Item>,
    bound: Option<nat>,
    scanning: bool,
    handed: seq<Item>)

  // ---- the selection's own state -------------------------------------------------

  datatype Phase = Idle | Scan | Open | Walk | Done

  /** The remembered identity (`g_mode` with `g_serial` or `g_port`). */
  datatype Identity = AnyStick | BySerial(serial: string) | ByPort(port: string)

  datatype Deadline = Deadline(at: nat, seen: bool)

  /** The scan in hand: its items, the change count when it began, and whether it
      is the one final snapshot past the cap. */
  datatype Snapshot = Snapshot(items: seq<Item>, index: nat, changes: nat, final: bool)

  /** Rule B: sticks held, attempts and opens of this walk, its bound, its last end. */
  datatype WalkState = WalkState(held: seq<nat>, attempts: nat, opens: nat, snap: nat, end: nat)

  datatype Reason =
    | NotUnique | NoMatch | NoneAttached | SeveralWithoutSerial | SeveralSticks
    | KeptArriving | BusyStick | NoPermission | ListUnreadable
    | IdentityUnreadable | SerialUnreadable | WrongSerial | HasASerial | WrongPort | PortHasSerial
    | NotInDeviceList

  datatype Result = Pending | Opened(dev: nat) | Wait | Refused(why: Reason)

  datatype Sel = Sel(
    identity: Identity,
    atStart: bool,
    phase: Phase,
    shot: Snapshot,
    access: map<Connection, Deadline>,
    retryAt: nat,
    ruleB: bool,
    walk: WalkState,
    ears: Ears,
    usb: Usb)

  /** `g_changes == g_scan_changes`, both being 32-bit counters. */
  predicate SameCount(a: nat, b: nat) {
    a % COUNTER_WRAP == b % COUNTER_WRAP
  }

  predicate Unchanged(s: Sel) {
    SameCount(s.ears.changes, s.shot.changes)
  }

  // ---- calls out -------------------------------------------------------------------

  function Tick(e: Ears): Ears {
    e.(calls := e.calls + 1)
  }

  function Called(s: Sel): Sel {
    s.(ears := Tick(s.ears))
  }

  function ReadClock(e: Ears): Ears {
    e.(calls := e.calls + 1, clock := e.clock + e.env.advance(e.calls))
  }

  /** `now_ms()`: the reading is the clock afterwards. */
  function Now(s: Sel): (nat, Sel) {
    (ReadClock(s.ears).clock, s.(ears := ReadClock(s.ears)))
  }

  function CloseDev(s: Sel, dev: nat): Sel {
    s.(usb := s.usb.(open := s.usb.open - {dev}))
  }

  function StickOf(usb: Usb, dev: nat): Item {
    if dev in usb.sticks then usb.sticks[dev] else BLANK
  }

  function HeldSticks(usb: Usb, held: seq<nat>): seq<Item> {
    seq(|held|, i requires 0 <= i < |held| => StickOf(usb, held[i]))
  }

  /** pine64 opens some free stick, under a handle never used before, or none; `serial`
      is the one asked for, if one is. */
  function OpenDev(s: Sel, serial: Option<string>): (Option<nat>, Sel) {
    var stick := s.ears.env.opens(s.ears.calls, serial, HeldSticks(s.usb, s.walk.held));
    if stick.Some? then
      var dev := s.usb.nextDev;
      (Some(dev),
       Called(s).(usb := s.usb.(open := s.usb.open + {dev}, nextDev := dev + 1, sticks := s.usb.sticks[dev := stick.value])))
    else
      (None, Called(s))
  }

  function Identify(s: Sel, dev: nat): (Option<Item>, Sel) {
    (s.ears.env.identify(s.ears.calls, StickOf(s.usb, dev)), Called(s))
  }

  function BindDev(s: Sel, dev: nat): (bool, Sel) {
    var ok := s.ears.env.binds(s.ears.calls);
    (ok, Called(s).(usb := s.usb.(bound := if ok then Some(dev) else None)))
  }

  function Unbind(s: Sel): Sel {
    s.(usb := s.usb.(bound := None))
  }

  function BoundLeft(s: Sel): (bool, Sel) {
    (s.ears.env.boundLeft(s.ears.calls), Called(s))
  }

  function ScanEnd(s: Sel): Sel {
    s.(usb := s.usb.(scanning := false))
  }

  // ---- change notes ------------------------------------------------------------------

  function NoteArrival(e: Ears): Ears {
    var e1 := ReadClock(e);
    e1.(burstFirst := if e.burstFirst == 0 then e1.clock else e.burstFirst,
        capFirst := if e.capFirst == 0 then e1.clock else e.capFirst,
        burstLast := e1.clock,
        changes := e.changes + 1)
  }

  function NoteLeft(e: Ears): Ears {
    if e.capFirst == 0 then
      var e1 := ReadClock(e);
      e1.(capFirst := e1.clock, changes := e.changes + 1)
    else
      e.(changes := e.changes + 1)
  }

  function NoteArrivals(e: Ears, n: nat): Ears {
    if n == 0 then e else NoteArrival(NoteArrivals(e, n - 1))
  }

  function NoteLefts(e: Ears, n: nat): Ears {
    if n == 0 then e else NoteLeft(NoteLefts(e, n - 1))
  }

  /** `take_events`: every ARRIVED, then every unbound LEFT, the monitor has. */
  function TakeEvents(e: Ears): Ears {
    NoteLefts(NoteArrivals(Tick(e), e.env.events(e.calls).0), e.env.events(e.calls).1)
  }

  // ---- helpers -----------------------------------------------------------------------

  function SetOf(devs: seq<nat>): set<nat> {
    set d | d in devs
  }

  function ReleaseHeld(s: Sel): Sel {
    s.(walk := s.walk.(held := []), usb := s.usb.(open := s.usb.open - SetOf(s.walk.held)))
  }

  function FinishWait(s: Sel, retryAt: nat): (Result, Sel) {
    (Wait, ScanEnd(s).(phase := Idle, retryAt := retryAt))
  }

  function WaitNow(s: Sel): (Result, Sel) {
    var (now, s1) := Now(s);
    FinishWait(s1, now)
  }

  /** A change since the snapshot began makes it stale, unless it is the final
      one: past the 2 s cap the next snapshot is used regardless. */
  predicate IsStale(s: Sel) {
    !Unchanged(s) && !s.shot.final
  }

  /** What finding a stale snapshot leaves behind: the deadlines are kept and, past
      the cap, the next snapshot is the final one. */
  function StaleEars(e: Ears): Ears {
    e.(accessHold := true,
       finalPending := e.finalPending || (e.capFirst != 0 && e.clock >= e.capFirst + SETTLE_CAP_MS))
  }

  /** `snapshot_stale(now)` with the clock just read. */
  function SnapshotStale(s: Sel): (bool, Sel) {
    if IsStale(s) then (true, s.(ears := StaleEars(s.ears))) else (false, s)
  }

  function StaleNow(s: Sel): (bool, Sel) {
    SnapshotStale(Now(s).1)
  }

  function WindowStale(s: Sel): (bool, Sel) {
    StaleNow(s.(ears := TakeEvents(s.ears)))
  }

  function BurstAnswered(s: Sel): Sel {
    s.(ears := s.ears.(burstFirst := 0, burstLast := 0, capFirst := 0))
  }

  function Refuse(s: Sel, why: Reason): (Result, Sel) {
    var (now, s1) := Now(s);
    var (stale, s2) := SnapshotStale(s1);
    if stale then FinishWait(s2, now)
    else if s2.atStart then (Refused(why), ScanEnd(BurstAnswered(s2)).(phase := Idle))
    else FinishWait(BurstAnswered(s2), if Unchanged(s2) then 0 else now + SETTLE_QUIET_MS)
  }

  function Transient(s: Sel, why: Reason): (Result, Sel) {
    if s.atStart then Refuse(s, why)
    else
      var (now, s1) := Now(s);
      FinishWait(s1, now + BUSY_RETRY_MS)
  }

  function Busy(s: Sel, retryMs: nat): (Result, Sel) {
    var (now, s1) := Now(s);
    if s1.atStart then (Refused(BusyStick), ScanEnd(s1).(phase := Idle))
    else FinishWait(s1, now + retryMs)
  }

  // ---- ACCESS deadlines ----------------------------------------------------------------

  ghost predicate Eligible(access: map<Connection, Deadline>, seenOnly: bool, k: Connection) {
    k in access && (seenOnly ==> access[k].seen)
  }

  /** `r` is the earliest deadline among the eligible candidates, or 0 without one. */
  ghost predicate IsFirstDeadline(access: map<Connection, Deadline>, seenOnly: bool, r: nat) {
    && (forall k | Eligible(access, seenOnly, k) :: r <= access[k].at)
    && (if r == 0 then forall k :: !Eligible(access, seenOnly, k)
        else exists k :: Eligible(access, seenOnly, k) && access[k].at == r)
  }

  ghost predicate Stamped(access: map<Connection, Deadline>) {
    forall k | k in access :: access[k].at > 0
  }

  lemma FirstDeadlineExists(access: map<Connection, Deadline>, seenOnly: bool)
    requires Stamped(access)
    ensures exists r: nat :: IsFirstDeadline(access, seenOnly, r)
    decreases |access|
  {
    if forall k :: !Eligible(access, seenOnly, k) {
      assert IsFirstDeadline(access, seenOnly, 0);
    } else {
      var k :| Eligible(access, seenOnly, k);
      var rest := map j | j in access && j != k :: access[j];
      assert rest.Keys == access.Keys - {k};
      assert |rest.Keys| < |access.Keys|;
      FirstDeadlineExists(rest, seenOnly);
      var r: nat :| IsFirstDeadline(rest, seenOnly, r);
      var m := if r == 0 || access[k].at <= r then access[k].at else r;
      assert forall j | Eligible(access, seenOnly, j) && j != k :: Eligible(rest, seenOnly, j) && rest[j] == access[j];
      if r != 0 {
        var j :| Eligible(rest, seenOnly, j) && rest[j].at == r;
        assert Eligible(access, seenOnly, j);
      }
      assert IsFirstDeadline(access, seenOnly, m);
    }
  }

  ghost function FirstDeadline(access: map<Connection, Deadline>, seenOnly: bool): (r: nat) {
    if exists first: nat :: IsFirstDeadline(access, seenOnly, first) then
      var first: nat :| IsFirstDeadline(access, seenOnly, first); first
    else 0
  }

  lemma FirstDeadlineIs(access: map<Connection, Deadline>, seenOnly: bool, r: nat)
    requires Stamped(access)
    ensures IsFirstDeadline(access, seenOnly, FirstDeadline(access, seenOnly))
    ensures IsFirstDeadline(access, seenOnly, r) ==> FirstDeadline(access, seenOnly) == r
  {
    FirstDeadlineExists(access, seenOnly);
  }

  ghost function AccessExpired(s: Sel): (Result, Sel) {
    var (stale, s1) := StaleNow(s);
    if stale then WaitNow(s1.(ears := s1.ears.(accessHold := true)))
    else Refuse(s1.(access := map[]), NoPermission)
  }

  ghost function AccessWait(s: Sel): (Result, Sel) {
    var (now, s1) := Now(s);
    var (stale, s2) := SnapshotStale(s1);
    if stale then FinishWait(s2, now)
    else
      var first0 := FirstDeadline(s2.access, false);
      var first := if first0 == 0 then now + ACCESS_MS else first0;
      if now >= first then AccessExpired(s2)
      else FinishWait(s2.(ears := s2.ears.(accessHold := true)), Min(now + BUSY_RETRY_MS, first))
  }

  /** A scan item that can keep the decision open. */
  predicate ItemUnknown(identity: Identity, it: Item) {
    || it.openable == Access
    || it.openable == OtherError
    || (identity.BySerial? && it.openable == Openable && it.state == Unreadable)
  }

  // ---- the open ----------------------------------------------------------------------------

  datatype PostOpen = Good(id: Item) | ReadFailed | Bad(why: Reason)

  /** The post-open checks on one identity read. */
  function PostOpenCheck(identity: Identity, ruleB: bool, read: Option<Item>): PostOpen {
    if read.None? then ReadFailed
    else
      var id := read.value;
      if id.state == Unreadable then Bad(SerialUnreadable)
      else if identity.BySerial? && !(id.state == HasSerial && First8(id.serial) == First8(identity.serial)) then Bad(WrongSerial)
      else if ruleB && id.state != NoSerial then Bad(HasASerial)
      else if identity.ByPort? && id.port != identity.port then Bad(WrongPort)
      else if identity.ByPort? && id.state == HasSerial then Bad(PortHasSerial)
      else Good(id)
  }

  /** The first open fixes the identity for every reopen. */
  function Commit(identity: Identity, id: Item): Identity {
    if identity != AnyStick then identity
    else if id.state == HasSerial then BySerial(First8(id.serial))
    else ByPort(id.port)
  }

  function HandOut(s: Sel, dev: nat, id: Item): (Result, Sel) {
    (Opened(dev),
     BurstAnswered(s).(
       identity := Commit(s.identity, id),
       phase := Done,
       access := map[],
       usb := s.usb.(scanning := false, open := s.usb.open - {dev}, handed := s.usb.handed + [id])))
  }

  function BindFailed(s: Sel, dev: nat): (Result, Sel) {
    var (stale, s1) := WindowStale(CloseDev(Unbind(s), dev));
    if stale then WaitNow(s1) else Transient(s1, NotInDeviceList)
  }

  /** Before an open is committed: bind it, and look at the events of that window. */
  function BindAndCommit(s: Sel, dev: nat, id: Item): (Result, Sel) {
    var (bindOk, s1) := BindDev(s, dev);
    if !bindOk then BindFailed(s1, dev)
    else
      var (stale, s2) := WindowStale(s1);
      var (gone, s3) := BoundLeft(s2);
      if stale || gone then WaitNow(CloseDev(Unbind(s3), dev))
      else if !s3.ruleB && !Unchanged(s3) then Refuse(CloseDev(Unbind(s3), dev), KeptArriving)
      else HandOut(s3, dev, id)
  }

  /** `opened`: an opened stick is checked, bound and committed, or closed. */
  function OpenedDev(s: Sel, dev: nat): (Result, Sel) {
    var (read, s1) := Identify(s, dev);
    var check := PostOpenCheck(s1.identity, s1.ruleB, read);
    var (stale, s2) := WindowStale(s1);
    if stale then WaitNow(CloseDev(s2, dev))
    else if !s2.ruleB && !Unchanged(s2) then Refuse(CloseDev(s2, dev), KeptArriving)
    else match check
      case ReadFailed => Transient(CloseDev(s2, dev), IdentityUnreadable)
      case Bad(why) => Refuse(CloseDev(s2, dev), why)
      case Good(id) => BindAndCommit(s2, dev, id)
  }

  // ---- the decision after a scan --------------------------------------------------------------

  datatype Tally = Tally(match_: nat, unknown: nat, unopened: nat, noSerial: nat, present: nat)

  predicate CountsUnknown(it: Item) {
    it.openable != Openable || it.state == Unreadable
  }

  predicate Matches(identity: Identity, it: Item) {
    && !CountsUnknown(it)
    && it.state == HasSerial
    && identity.BySerial?
    && First8(it.serial) == First8(identity.serial)
  }

  function TallyOne(t: Tally, identity: Identity, it: Item): Tally {
    if it.openable == Gone then t
    else Tally(
        t.match_ + (if Matches(identity, it) then 1 else 0),
        t.unknown + (if CountsUnknown(it) then 1 else 0),
        t.unopened + (if it.openable != Openable then 1 else 0),
        t.noSerial + (if !CountsUnknown(it) && it.state == NoSerial then 1 else 0),
        t.present + 1)
  }

  function TallyItems(identity: Identity, items: seq<Item>): Tally {
    if items == [] then Tally(0, 0, 0, 0, 0)
    else TallyOne(TallyItems(identity, items[..|items| - 1]), identity, items[|items| - 1])
  }

  ghost function DecideSerial(s: Sel, t: Tally): (Result, Sel) {
    if t.match_ > 1 then Refuse(s, NotUnique)
    else if t.match_ == 1 && t.unknown == 0 then (Pending, s.(phase := Open))
    else if t.unknown > 0 then AccessWait(s)
    else Refuse(s, NoMatch)
  }

  /** When a Rule B walk may start: the gap since the last walk and, on a reopen,
      the settle of the ARRIVED burst. */
  function WalkDue(s: Sel): nat {
    var gap := if s.walk.end != 0 then s.walk.end + WALK_GAP_MS else 0;
    if !s.atStart && s.ears.burstFirst != 0 then
      Max(gap, Min(s.ears.burstLast + SETTLE_QUIET_MS, s.ears.burstFirst + SETTLE_CAP_MS))
    else gap
  }

  function StartWalk(s: Sel, present: nat): (Result, Sel) {
    var (now, s1) := Now(s);
    var due := WalkDue(s1);
    if now < due then FinishWait(s1, due)
    else
      var (stale, s2) := SnapshotStale(s1);
      if stale then FinishWait(s2, now)
      else (Pending, BurstAnswered(s2).(ruleB := true, phase := Walk,
                                        walk := WalkState([], 0, 0, present, s2.walk.end)))
  }

  ghost function DecideInner(s0: Sel): (Result, Sel) {
    var t := TallyItems(s0.identity, s0.shot.items);
    var s := s0.(ruleB := false);
    if s.identity.BySerial? then DecideSerial(s, t)
    else if t.present == 0 then Refuse(s, NoneAttached)
    else if t.present == 1 then
      if t.unopened > 0 then AccessWait(s) else (Pending, s.(phase := Open))
    else if t.noSerial > 1 then Refuse(s, SeveralWithoutSerial)
    else if t.unopened > 0 then AccessWait(s)
    else if t.noSerial == 0 then Refuse(s, SeveralSticks)
    else StartWalk(s, t.present)
  }

  function StillUnresolved(access: map<Connection, Deadline>): map<Connection, Deadline> {
    map k | k in access && access[k].seen :: access[k]
  }

  ghost function Decide(s: Sel): (Result, Sel) {
    var (r, s1) := DecideInner(s.(ears := s.ears.(accessHold := false), access := StillUnresolved(s.access)));
    (r, if s1.ears.accessHold then s1 else s1.(access := map[]))
  }

  // ---- one step -----------------------------------------------------------------------------------

  const BLANK: Item := Item(Access, NoSerial, "", "", 0)

  function ScanBegin(s: Sel): (Result, Sel) {
    var n := s.ears.env.scanBegin(s.ears.calls);
    if n.None? then
      // The failed read has seen the changes so far.
      Transient(ScanEnd(Called(s)).(shot := s.shot.(changes := s.ears.changes)), ListUnreadable)
    else
      (Pending, s.(
         shot := Snapshot(seq(n.value, _ => BLANK), 0, s.ears.changes, s.ears.finalPending),
         access := map k | k in s.access :: s.access[k].(seen := false),
         phase := Scan,
         ears := Tick(s.ears).(finalPending := false),
         usb := s.usb.(scanning := true)))
  }

  /** The stick at `index` is scanned: its deadline runs on, starts, or ends. */
  function ScanItem(s: Sel): (Result, Sel)
    requires s.shot.index < |s.shot.items|
  {
    var it := s.ears.env.scanStep(s.ears.calls, s.shot.index);
    var s1 := Called(s).(shot := s.shot.(items := s.shot.items[s.shot.index := it], index := s.shot.index + 1));
    var k := KeyOf(it);
    if !ItemUnknown(s.identity, it) then
      (Pending, s1.(access := map j | j in s.access && j != k :: s.access[j]))
    else if k in s.access then
      (Pending, s1.(access := s.access[k := s.access[k].(seen := true)]))
    else
      var (now, s2) := Now(s1);
      (Pending, s2.(access := s.access[k := Deadline(now + ACCESS_MS, true)]))
  }

  ghost function ScanStep(s: Sel): (Result, Sel) {
    if s.shot.index < |s.shot.items| then
      var first := FirstDeadline(s.access, true);
      if first == 0 then ScanItem(s)
      else
        var (now, s1) := Now(s);
        if now >= first then AccessExpired(s1) else ScanItem(s1)
    else Decide(s)
  }

  /** pine64 took none: the events of that window first, only then BUSY. */
  function OpenFailed(s: Sel, retryMs: nat): (Result, Sel) {
    var (stale, s1) := WindowStale(s);
    if stale then WaitNow(s1) else Busy(s1, retryMs)
  }

  /** The serial a plain open asks pine64 for. */
  function AskedFor(identity: Identity): Option<string> {
    if identity.BySerial? then Some(identity.serial) else None
  }

  function OpenStep(s: Sel): (Result, Sel) {
    var (stale, s1) := StaleNow(s);
    if stale then WaitNow(s1)
    else if !Unchanged(s1) then Refuse(s1, KeptArriving)
    else
      var (dev, s2) := OpenDev(s1, AskedFor(s1.identity));
      if dev.None? then OpenFailed(s2, BUSY_RETRY_MS)
      else OpenedDev(s2, dev.value)
  }

  function EndWalk(s: Sel): Sel {
    var (now, s1) := Now(ReleaseHeld(s));
    s1.(walk := s1.walk.(end := now))
  }

  function WalkOpened(s: Sel, dev: nat): (Result, Sel) {
    var (read, s1) := Identify(s, dev);
    var (stale, s2) := WindowStale(s1);
    if stale then WaitNow(EndWalk(CloseDev(s2, dev)))
    else if read.None? || read.value.state != NoSerial then
      (Pending, s2.(walk := s2.walk.(held := s2.walk.held + [dev])))
    else OpenedDev(EndWalk(s2), dev)
  }

  function Attempt(s: Sel): Sel {
    s.(walk := s.walk.(attempts := s.walk.attempts + 1, opens := s.walk.opens + 1))
  }

  function WalkAttempt(s: Sel): (Result, Sel) {
    var (dev, s1) := OpenDev(Attempt(s), None);
    if dev.None? then OpenFailed(EndWalk(s1), WALK_GAP_MS)
    else WalkOpened(s1, dev.value)
  }

  function WalkStep(s: Sel): (Result, Sel) {
    var (stale, s1) := StaleNow(s);
    if stale then WaitNow(EndWalk(s1))
    else if s1.walk.attempts >= s1.walk.snap then Busy(EndWalk(s1), WALK_GAP_MS)
    else WalkAttempt(s1)
  }

  ghost function Step(s: Sel): (Result, Sel) {
    match s.phase
    case Idle => ScanBegin(s)
    case Done => ScanBegin(s)
    case Scan => ScanStep(s)
    case Open => OpenStep(s)
    case Walk => WalkStep(s)
  }

  function Begin(s: Sel, atStart: bool): Sel {
    s.(atStart := atStart, phase := Idle, retryAt := 0)
  }

  function Cancel(s: Sel): Sel {
    var s1 := ReleaseHeld(s);
    var s2 := if s.phase == Scan || s.phase == Open || s.phase == Walk then ScanEnd(s1) else s1;
    s2.(phase := Idle, access := map[])
  }

  /** `daemon_ch341_select_init` with a selector ("" = none) in a given world. */
  function Init(env: Env, clock: nat, selector: string): Sel {
    Sel(if selector == "" then AnyStick else BySerial(First8(selector)),
        false, Idle, Snapshot([], 0, 0, false), map[], 0, false, WalkState([], 0, 0, 0, 0),
        Ears(env, 0, clock, 0, 0, 0, 0, false, false), Usb({}, 0, map[], None, false, []))
  }
}
