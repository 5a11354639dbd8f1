/**
 * The selection as the daemon keeps it: one object whose fields every step updates
 * in place. Each method is proved against the transition of the same name on the
 * abstract state `View()`, for which the safety and termination theorems hold.
 */
module Ch341Selector {
  import opened Prelude
  import S = Ch341Select

  class Selector {
    var identity: S.Identity
    var atStart: bool
    var phase: S.Phase
    var shot: S.Snapshot
    var access: map<S.Connection, S.Deadline>
    var retryAt: nat
    var ruleB: bool
    var walk: S.WalkState
    var ears: S.Ears
    var usb: S.Usb

    ghost function View(): S.Sel
      reads this
    {
      S.Sel(identity, atStart, phase, shot, access, retryAt, ruleB, walk, ears, usb)
    }

    constructor (env: S.Env, clock: nat, selector: string)
      ensures View() == S.Init(env, clock, selector)
    {
      identity := if selector == "" then S.AnyStick else S.BySerial(S.First8(selector));
      atStart, phase, shot, access := false, S.Idle, S.Snapshot([], 0, 0, false), map[];
      retryAt, ruleB, walk := 0, false, S.WalkState([], 0, 0, 0, 0);
      ears := S.Ears(env, 0, clock, 0, 0, 0, 0, false, false);
      usb := S.Usb({}, 0, map[], None, false, []);
    }

    // ---- calls out -----------------------------------------------------------------------

    method Now() returns (now: nat)
      modifies this
      ensures (now, View()) == S.Now(old(View()))
    {
      ears := ears.(calls := ears.calls + 1, clock := ears.clock + ears.env.advance(ears.calls));
      now := ears.clock;
    }

    method OpenDev(serial: Option<string>) returns (dev: Option<nat>)
      modifies this
      ensures (dev, View()) == S.OpenDev(old(View()), serial)
    {
      var stick := ears.env.opens(ears.calls, serial, S.HeldSticks(usb, walk.held));
      if stick.Some? {
        dev := Some(usb.nextDev);
        usb := usb.(open := usb.open + {usb.nextDev}, nextDev := usb.nextDev + 1,
                    sticks := usb.sticks[usb.nextDev := stick.value]);
      } else {
        dev := None;
      }
      ears := ears.(calls := ears.calls + 1);
    }

    method CloseDev(dev: nat)
      modifies this
      ensures View() == S.CloseDev(old(View()), dev)
    {
      usb := usb.(open := usb.open - {dev});
    }

    method Identify(dev: nat) returns (id: Option<S.Item>)
      modifies this
      ensures (id, View()) == S.Identify(old(View()), dev)
    {
      id := ears.env.identify(ears.calls, S.StickOf(usb, dev));
      ears := ears.(calls := ears.calls + 1);
    }

    method BindDev(dev: nat) returns (ok: bool)
      modifies this
      ensures (ok, View()) == S.BindDev(old(View()), dev)
    {
      ok := ears.env.binds(ears.calls);
      usb := usb.(bound := if ok then Some(dev) else None);
      ears := ears.(calls := ears.calls + 1);
    }

    method BoundLeft() returns (left: bool)
      modifies this
      ensures (left, View()) == S.BoundLeft(old(View()))
    {
      left := ears.env.boundLeft(ears.calls);
      ears := ears.(calls := ears.calls + 1);
    }

    // ---- change notes ------------------------------------------------------------------------

    method NoteArrival()
      modifies this
      ensures View() == old(View()).(ears := S.NoteArrival(old(View()).ears))
    {
      var now := Now();
      if ears.burstFirst == 0 { ears := ears.(burstFirst := now); }
      if ears.capFirst == 0 { ears := ears.(capFirst := now); }
      ears := ears.(burstLast := now, changes := ears.changes + 1);
    }

    method NoteLeft()
      modifies this
      ensures View() == old(View()).(ears := S.NoteLeft(old(View()).ears))
    {
      if ears.capFirst == 0 {
        var now := Now();
        ears := ears.(capFirst := now);
      }
      ears := ears.(changes := ears.changes + 1);
    }

    method TakeEvents()
      modifies this
      ensures View() == old(View()).(ears := S.TakeEvents(old(View()).ears))
    {
      var (arrivals, lefts) := ears.env.events(ears.calls);
      ears := ears.(calls := ears.calls + 1);
      ghost var start := View();
      var i := 0;
      while i < arrivals
        invariant 0 <= i <= arrivals
        invariant View() == start.(ears := S.NoteArrivals(start.ears, i))
      {
        NoteArrival();
        i := i + 1;
      }
      ghost var arrived := View();
      i := 0;
      while i < lefts
        invariant 0 <= i <= lefts
        invariant View() == arrived.(ears := S.NoteLefts(arrived.ears, i))
      {
        NoteLeft();
        i := i + 1;
      }
    }

    // ---- helpers -------------------------------------------------------------------------------

    method ReleaseHeld()
      modifies this
      ensures View() == S.ReleaseHeld(old(View()))
    {
      var i := 0;
      while i < |walk.held|
        invariant 0 <= i <= |walk.held|
        invariant View() == old(View()).(usb := old(usb).(open := old(usb).open - S.SetOf(walk.held[..i])))
      {
        CloseDev(walk.held[i]);
        assert S.SetOf(walk.held[..i + 1]) == S.SetOf(walk.held[..i]) + {walk.held[i]};
        i := i + 1;
      }
      assert walk.held[..|walk.held|] == walk.held;
      walk := walk.(held := []);
    }

    method FinishWait(at: nat) returns (r: S.Result)
      modifies this
      ensures (r, View()) == S.FinishWait(old(View()), at)
    {
      usb := usb.(scanning := false);
      phase := S.Idle;
      retryAt := at;
      r := S.Wait;
    }

    method WaitNow() returns (r: S.Result)
      modifies this
      ensures (r, View()) == S.WaitNow(old(View()))
    {
      var now := Now();
      r := FinishWait(now);
    }

    /** With the clock just read into `now`. */
    method SnapshotStale(now: nat) returns (stale: bool)
      requires now == ears.clock
      modifies this
      ensures (stale, View()) == S.SnapshotStale(old(View()))
    {
      if S.SameCount(ears.changes, shot.changes) || shot.final {
        return false;
      }
      if ears.capFirst != 0 && now >= ears.capFirst + S.SETTLE_CAP_MS {
        ears := ears.(finalPending := true);
      }
      ears := ears.(accessHold := true);
      stale := true;
    }

    method StaleNow() returns (stale: bool)
      modifies this
      ensures (stale, View()) == S.StaleNow(old(View()))
    {
      var now := Now();
      stale := SnapshotStale(now);
    }

    method WindowStale() returns (stale: bool)
      modifies this
      ensures (stale, View()) == S.WindowStale(old(View()))
    {
      TakeEvents();
      stale := StaleNow();
    }

    method Refuse(why: S.Reason) returns (r: S.Result)
      modifies this
      ensures (r, View()) == S.Refuse(old(View()), why)
    {
      var now := Now();
      var stale := SnapshotStale(now);
      if stale {
        r := FinishWait(now);
        return;
      }
      var arrived := !S.SameCount(ears.changes, shot.changes);
      ears := ears.(burstFirst := 0, burstLast := 0, capFirst := 0);
      if atStart {
        usb := usb.(scanning := false);
        phase := S.Idle;
        return S.Refused(why);
      }
      r := FinishWait(if arrived then now + S.SETTLE_QUIET_MS else 0);
    }

    method Transient(why: S.Reason) returns (r: S.Result)
      modifies this
      ensures (r, View()) == S.Transient(old(View()), why)
    {
      if atStart {
        r := Refuse(why);
        return;
      }
      var now := Now();
      r := FinishWait(now + S.BUSY_RETRY_MS);
    }

    method Busy(retryMs: nat) returns (r: S.Result)
      modifies this
      ensures (r, View()) == S.Busy(old(View()), retryMs)
    {
      var now := Now();
      if atStart {
        usb := usb.(scanning := false);
        phase := S.Idle;
        return S.Refused(S.BusyStick);
      }
      r := FinishWait(now + retryMs);
    }

    // ---- ACCESS deadlines -----------------------------------------------------------------------

    /** Over every candidate, in whatever order the map yields them. */
    method AccessFirstDeadline(seenOnly: bool) returns (first: nat)
      requires S.Stamped(access)
      ensures S.IsFirstDeadline(access, seenOnly, first)
      ensures first == S.FirstDeadline(access, seenOnly)
    {
      first := 0;
      var rest := access.Keys;
      while rest != {}
        invariant rest <= access.Keys
        invariant forall k | S.Eligible(access, seenOnly, k) && k !in rest :: first <= access[k].at && first != 0
        invariant first != 0 ==> exists k :: S.Eligible(access, seenOnly, k) && access[k].at == first
        decreases |rest|
      {
        var k :| k in rest;
        if (!seenOnly || access[k].seen) && (first == 0 || access[k].at < first) {
          assert S.Eligible(access, seenOnly, k);
          first := access[k].at;
        }
        rest := rest - {k};
      }
      S.FirstDeadlineIs(access, seenOnly, first);
    }

    method AccessExpired() returns (r: S.Result)
      modifies this
      ensures (r, View()) == S.AccessExpired(old(View()))
    {
      var stale := StaleNow();
      if stale {
        ears := ears.(accessHold := true);
        r := WaitNow();
        return;
      }
      access := map[];
      r := Refuse(S.NoPermission);
    }

    method AccessWait() returns (r: S.Result)
      requires S.Stamped(access)
      modifies this
      ensures (r, View()) == S.AccessWait(old(View()))
    {
      var now := Now();
      var stale := SnapshotStale(now);
      if stale {
        r := FinishWait(now);
        return;
      }
      var first := AccessFirstDeadline(false);
      if first == 0 {
        first := now + S.ACCESS_MS;
      }
      if now >= first {
        r := AccessExpired();
        return;
      }
      ears := ears.(accessHold := true);
      r := FinishWait(Min(now + S.BUSY_RETRY_MS, first));
    }

    // ---- the open -----------------------------------------------------------------------------------

    method BindFailed(dev: nat) returns (r: S.Result)
      modifies this
      ensures (r, View()) == S.BindFailed(old(View()), dev)
    {
      usb := usb.(bound := None);
      CloseDev(dev);
      var stale := WindowStale();
      if stale {
        r := WaitNow();
      } else {
        r := Transient(S.NotInDeviceList);
      }
    }

    method BindAndCommit(dev: nat, id: S.Item) returns (r: S.Result)
      modifies this
      ensures (r, View()) == S.BindAndCommit(old(View()), dev, id)
    {
      var bindOk := BindDev(dev);
      if !bindOk {
        r := BindFailed(dev);
        return;
      }
      var stale := WindowStale();
      var gone := BoundLeft();
      if stale || gone || (!ruleB && !S.SameCount(ears.changes, shot.changes)) {
        usb := usb.(bound := None);
        CloseDev(dev);
        if stale || gone {
          r := WaitNow();
        } else {
          r := Refuse(S.KeptArriving);
        }
        return;
      }
      identity := S.Commit(identity, id);
      usb := usb.(scanning := false);
      phase := S.Done;
      access := map[];
      ears := ears.(burstFirst := 0, burstLast := 0, capFirst := 0);
      usb := usb.(open := usb.open - {dev}, handed := usb.handed + [id]);
      r := S.Opened(dev);
    }

    method OpenedDev(dev: nat) returns (r: S.Result)
      modifies this
      ensures (r, View()) == S.OpenedDev(old(View()), dev)
    {
      var read := Identify(dev);
      var check := S.PostOpenCheck(identity, ruleB, read);
      var stale := WindowStale();
      if stale {
        CloseDev(dev);
        r := WaitNow();
        return;
      }
      if !ruleB && !S.SameCount(ears.changes, shot.changes) {
        CloseDev(dev);
        r := Refuse(S.KeptArriving);
        return;
      }
      match check
      case ReadFailed =>
        CloseDev(dev);
        r := Transient(S.IdentityUnreadable);
      case Bad(why) =>
        CloseDev(dev);
        r := Refuse(why);
      case Good(id) =>
        r := BindAndCommit(dev, id);
    }

    // ---- the decision after a scan ---------------------------------------------------------------------

    method CountItems() returns (t: S.Tally)
      ensures t == S.TallyItems(identity, shot.items)
    {
      t := S.Tally(0, 0, 0, 0, 0);
      var i := 0;
      while i < |shot.items|
        invariant 0 <= i <= |shot.items|
        invariant t == S.TallyItems(identity, shot.items[..i])
      {
        t := S.TallyOne(t, identity, shot.items[i]);
        assert shot.items[..i + 1][..i] == shot.items[..i];
        i := i + 1;
      }
      assert shot.items[..|shot.items|] == shot.items;
    }

    method StartWalk(present: nat) returns (r: S.Result)
      modifies this
      ensures (r, View()) == S.StartWalk(old(View()), present)
    {
      var now := Now();
      var due := 0;
      if walk.end != 0 {
        due := walk.end + S.WALK_GAP_MS;
      }
      if !atStart && ears.burstFirst != 0 {
        due := Max(due, Min(ears.burstLast + S.SETTLE_QUIET_MS, ears.burstFirst + S.SETTLE_CAP_MS));
      }
      if now < due {
        r := FinishWait(due);
        return;
      }
      var stale := SnapshotStale(now);
      if stale {
        r := FinishWait(now);
        return;
      }
      ears := ears.(burstFirst := 0, burstLast := 0, capFirst := 0);
      ruleB := true;
      walk := walk.(held := [], attempts := 0, opens := 0, snap := present);
      phase := S.Walk;
      r := S.Pending;
    }

    method DecideInner() returns (r: S.Result)
      requires S.Stamped(access)
      modifies this
      ensures (r, View()) == S.DecideInner(old(View()))
    {
      var t := CountItems();
      ruleB := false;
      if identity.BySerial? {
        if t.match_ > 1 {
          r := Refuse(S.NotUnique);
        } else if t.match_ == 1 && t.unknown == 0 {
          phase := S.Open;
          r := S.Pending;
        } else if t.unknown > 0 {
          r := AccessWait();
        } else {
          r := Refuse(S.NoMatch);
        }
      } else {
        r := DecideWithoutSerial(t);
      }
    }

    method DecideWithoutSerial(t: S.Tally) returns (r: S.Result)
      requires S.Stamped(access) && !identity.BySerial? && !ruleB && t == S.TallyItems(identity, shot.items)
      modifies this
      ensures (r, View()) == S.DecideInner(old(View()))
    {
      if t.present == 0 {
        r := Refuse(S.NoneAttached);
      } else if t.present == 1 {
        if t.unopened > 0 {
          r := AccessWait();
        } else {
          phase := S.Open;
          r := S.Pending;
        }
      } else if t.noSerial > 1 {
        r := Refuse(S.SeveralWithoutSerial);
      } else if t.unopened > 0 {
        r := AccessWait();
      } else if t.noSerial == 0 {
        r := Refuse(S.SeveralSticks);
      } else {
        r := StartWalk(t.present);
      }
    }

    method Decide() returns (r: S.Result)
      requires S.Stamped(access)
      modifies this
      ensures (r, View()) == S.Decide(old(View()))
    {
      ears := ears.(accessHold := false);
      access := map k | k in access && access[k].seen :: access[k];
      r := DecideInner();
      if !ears.accessHold {
        access := map[];
      }
    }

    // ---- one step ---------------------------------------------------------------------------------------

    method ScanBegin() returns (r: S.Result)
      modifies this
      ensures (r, View()) == S.ScanBegin(old(View()))
    {
      var n := ears.env.scanBegin(ears.calls);
      ears := ears.(calls := ears.calls + 1);
      if n.None? {
        shot := shot.(changes := ears.changes);
        usb := usb.(scanning := false);
        r := Transient(S.ListUnreadable);
        return;
      }
      usb := usb.(scanning := true);
      shot := S.Snapshot(seq(n.value, _ => S.BLANK), 0, ears.changes, ears.finalPending);
      ears := ears.(finalPending := false);
      access := map k | k in access :: access[k].(seen := false);
      phase := S.Scan;
      r := S.Pending;
    }

    method ScanItem() returns (r: S.Result)
      requires shot.index < |shot.items|
      modifies this
      ensures (r, View()) == S.ScanItem(old(View()))
    {
      var item := ears.env.scanStep(ears.calls, shot.index);
      ears := ears.(calls := ears.calls + 1);
      shot := shot.(items := shot.items[shot.index := item]);
      var key := S.KeyOf(item);
      if S.ItemUnknown(identity, item) {
        if key in access {
          access := access[key := access[key].(seen := true)];
        } else {
          var now := Now();
          access := access[key := S.Deadline(now + S.ACCESS_MS, true)];
        }
      } else {
        access := map k | k in access && k != key :: access[k];
      }
      shot := shot.(index := shot.index + 1);
      r := S.Pending;
    }

    method ScanStep() returns (r: S.Result)
      requires S.Stamped(access)
      modifies this
      ensures (r, View()) == S.ScanStep(old(View()))
    {
      if shot.index < |shot.items| {
        var first := AccessFirstDeadline(true);
        if first != 0 {
          var now := Now();
          if now >= first {
            r := AccessExpired();
            return;
          }
        }
        r := ScanItem();
      } else {
        r := Decide();
      }
    }

    method OpenFailed(retryMs: nat) returns (r: S.Result)
      modifies this
      ensures (r, View()) == S.OpenFailed(old(View()), retryMs)
    {
      var stale := WindowStale();
      if stale {
        r := WaitNow();
      } else {
        r := Busy(retryMs);
      }
    }

    method OpenStep() returns (r: S.Result)
      modifies this
      ensures (r, View()) == S.OpenStep(old(View()))
    {
      var stale := StaleNow();
      if stale {
        r := WaitNow();
        return;
      }
      if !S.SameCount(ears.changes, shot.changes) {
        r := Refuse(S.KeptArriving);
        return;
      }
      var dev := OpenDev(S.AskedFor(identity));
      if dev.None? {
        r := OpenFailed(S.BUSY_RETRY_MS);
        return;
      }
      r := OpenedDev(dev.value);
    }

    method EndWalk()
      modifies this
      ensures View() == S.EndWalk(old(View()))
    {
      ReleaseHeld();
      var now := Now();
      walk := walk.(end := now);
    }

    method WalkOpened(dev: nat) returns (r: S.Result)
      modifies this
      ensures (r, View()) == S.WalkOpened(old(View()), dev)
    {
      var read := Identify(dev);
      var stale := WindowStale();
      if stale {
        CloseDev(dev);
        EndWalk();
        r := WaitNow();
        return;
      }
      if read.None? || read.value.state != S.NoSerial {
        walk := walk.(held := walk.held + [dev]);
        return S.Pending;
      }
      EndWalk();
      r := OpenedDev(dev);
    }

    method WalkAttempt() returns (r: S.Result)
      modifies this
      ensures (r, View()) == S.WalkAttempt(old(View()))
    {
      walk := walk.(attempts := walk.attempts + 1, opens := walk.opens + 1);
      assert View() == S.Attempt(old(View()));
      var dev := OpenDev(None);
      ghost var s1 := View();
      if dev.Some? {
        r := WalkOpened(dev.value);
        assert (r, View()) == S.WalkOpened(s1, dev.value);
      } else {
        EndWalk();
        assert View() == S.EndWalk(s1);
        r := OpenFailed(S.WALK_GAP_MS);
      }
    }

    method WalkStep() returns (r: S.Result)
      modifies this
      ensures (r, View()) == S.WalkStep(old(View()))
    {
      var stale := StaleNow();
      if stale {
        EndWalk();
        r := WaitNow();
        return;
      }
      if walk.attempts >= walk.snap {
        EndWalk();
        r := Busy(S.WALK_GAP_MS);
        return;
      }
      r := WalkAttempt();
    }

    /** daemon_ch341_select_step: at most one scan step or one open attempt. */
    method Step() returns (r: S.Result)
      requires S.Stamped(access)
      modifies this
      ensures (r, View()) == S.Step(old(View()))
    {
      match phase
      case Idle => r := ScanBegin();
      case Done => r := ScanBegin();
      case Scan => r := ScanStep();
      case Open => r := OpenStep();
      case Walk => r := WalkStep();
    }

    method Begin(start: bool)
      modifies this
      ensures View() == S.Begin(old(View()), start)
    {
      atStart := start;
      phase := S.Idle;
      retryAt := 0;
    }

    method Cancel()
      modifies this
      ensures View() == S.Cancel(old(View()))
    {
      ReleaseHeld();
      if phase == S.Scan || phase == S.Open || phase == S.Walk {
        usb := usb.(scanning := false);
      }
      phase := S.Idle;
      access := map[];
    }
  }
}
