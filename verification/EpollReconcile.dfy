/**
 * epoll reconciliation (event_loop_epoll.cpp): mark the registrations asked for in this
 * epoch, sweep the others; the table then is the epoch's requests, and so is the
 * kernel's interest set.
 */
module EpollReconcile {
  const MAX_FDS: nat := 128
  const EPOCHS: nat := 0x1_0000_0000_0000_0000
  const EPOLLIN: nat := 1

  /** What a registration is asked for by: its owner and the owner's generation. */
  datatype Key = Key(owner: nat, generation: nat)

  datatype Entry = Entry(fd: nat, events: nat, seen: nat)

  datatype Request = Request(key: Key, fd: nat, events: nat)

  /** The registrations by key, the epoch, and whether it is under way. */
  datatype Table = Table(regs: map<Key, Entry>, epoch: nat, active: bool)

  /** The process's open descriptors, each with the key of its present life, and epoll's
      interest set, which loses a descriptor when it is closed. */
  datatype Kernel = Kernel(fds: map<nat, Key>, interest: map<nat, nat>)

  // ---- epoll_ctl --------------------------------------------------------------------------

  /** `refused`: the call fails for a reason of its own. */
  function CtlAdd(k: Kernel, fd: nat, events: nat, refused: bool): (bool, Kernel) {
    if refused || fd !in k.fds || fd in k.interest then (false, k)
    else (true, k.(interest := k.interest[fd := events]))
  }

  function CtlMod(k: Kernel, fd: nat, events: nat, refused: bool): (bool, Kernel) {
    if refused || fd !in k.interest then (false, k) else (true, k.(interest := k.interest[fd := events]))
  }

  /** False only for an error other than "not registered" and "not open". */
  function CtlDel(k: Kernel, fd: nat, refused: bool): (bool, Kernel) {
    if refused then (false, k) else (true, k.(interest := k.interest - {fd}))
  }

  // ---- the three calls -------------------------------------------------------------------------

  const EMPTY := Table(map[], 0, false)

  /** The 64-bit epoch counts up and wraps. */
  function NextEpoch(epoch: nat): (n: nat)
    ensures n < EPOCHS && (epoch < EPOCHS ==> n == if epoch + 1 == EPOCHS then 0 else epoch + 1)
  {
    (epoch + 1) % EPOCHS
  }

  function Begin(t: Table): (bool, Table) {
    if t.active then (false, t)
    else if NextEpoch(t.epoch) == 0 then (true, Table(map x | x in t.regs :: t.regs[x].(seen := 0), 1, true))
    else (true, t.(epoch := NextEpoch(t.epoch), active := true))
  }

  function Wanted(events: nat): nat {
    if events == 0 then EPOLLIN else events
  }

  function ReconcileFd(t: Table, k: Kernel, q: Request, refused: bool): (bool, Table, Kernel) {
    var ev := Wanted(q.events);
    if !t.active then (false, t, k)
    else if q.key in t.regs then
      var e := t.regs[q.key];
      if e.fd != q.fd then (false, t, k)
      else
        var (ok, k1) := if e.events != ev then CtlMod(k, q.fd, ev, refused) else (true, k);
        if ok then (true, t.(regs := t.regs[q.key := Entry(q.fd, ev, t.epoch)]), k1) else (false, t, k)
    else if |t.regs| >= MAX_FDS then (false, t, k)
    else
      var (ok, k1) := CtlAdd(k, q.fd, ev, refused);
      if ok then (true, t.(regs := t.regs[q.key := Entry(q.fd, ev, t.epoch)]), k1) else (false, t, k)
  }

  predicate Current(t: Table, key: Key) {
    key in t.regs && t.regs[key].seen == t.epoch
  }

  ghost predicate SeenNow(t: Table, fd: nat) {
    exists key :: Current(t, key) && t.regs[key].fd == fd
  }

  /** The descriptors the sweep removes: those of stale registrations, unless one asked for
      now has taken over the number. */
  ghost function Swept(t: Table): set<nat> {
    set key | key in t.regs && !Current(t, key) && !SeenNow(t, t.regs[key].fd) :: t.regs[key].fd
  }

  ghost function Kept(t: Table): Table {
    Table(map key | key in t.regs && Current(t, key) :: t.regs[key], t.epoch, false)
  }

  /** The end of an epoch; `refused` are the descriptors whose removal fails. Without a begin
      it is an error and changes nothing. */
  ghost function End(t: Table, k: Kernel, refused: set<nat>): (bool, Table, Kernel) {
    if !t.active then (false, t, k)
    else (Swept(t) * refused == {}, Kept(t), k.(interest := k.interest - (Swept(t) - refused)))
  }

  // ---- between the epochs, the process opens and closes ------------------------------------------

  function CloseFd(k: Kernel, fd: nat): Kernel {
    Kernel(k.fds - {fd}, k.interest - {fd})
  }

  function OpenFd(k: Kernel, fd: nat, key: Key): Kernel {
    if fd in k.fds then k else k.(fds := k.fds[fd := key])
  }

  // ---- what is kept --------------------------------------------------------------------------------

  /** A registration whose descriptor still lives its registered life is in the interest
      set with its events, and nothing else is. */
  ghost predicate Agree(t: Table, k: Kernel) {
    && (forall key | key in t.regs ::
          var e := t.regs[key];
          e.fd in k.fds && k.fds[e.fd] == key ==> e.fd in k.interest && k.interest[e.fd] == e.events)
    && (forall fd | fd in k.interest :: fd in k.fds && k.fds[fd] in t.regs && t.regs[k.fds[fd]].fd == fd)
  }

  ghost predicate Inv(t: Table, k: Kernel) {
    && |t.regs| <= MAX_FDS && t.epoch < EPOCHS
    && (forall key | key in t.regs :: t.regs[key].seen <= t.epoch)
    && Agree(t, k)
  }

  lemma BeginKeeps(t: Table, k: Kernel)
    requires Inv(t, k) && !t.active
    ensures var (ok, t1) := Begin(t);
            && ok && Inv(t1, k) && t1.active && t1.regs.Keys == t.regs.Keys
            && (forall key | key in t1.regs :: !Current(t1, key)
                                               && t1.regs[key].fd == t.regs[key].fd && t1.regs[key].events == t.regs[key].events)
  {
    var t1 := Begin(t).1;
    assert t1.regs.Keys == t.regs.Keys;
    SameSize(t1.regs, t.regs);
  }

  /** Epochs do not nest, and outside of one nothing is registered or swept. */
  lemma OnlyInAnEpoch(t: Table, k: Kernel, q: Request, refused: bool, kept: set<nat>)
    ensures t.active ==> Begin(t) == (false, t)
    ensures !t.active ==> ReconcileFd(t, k, q, refused) == (false, t, k) && End(t, k, kept) == (false, t, k)
  {
  }

  lemma SameSize(a: map<Key, Entry>, b: map<Key, Entry>)
    requires a.Keys == b.Keys
    ensures |a| == |b|
  {
    assert |a| == |a.Keys| && |b| == |b.Keys|;
  }

  /** The request is made by the key of the descriptor's present life. */
  predicate Honest(k: Kernel, q: Request) {
    q.fd in k.fds && k.fds[q.fd] == q.key
  }

  lemma ReconcileFdKeeps(t: Table, k: Kernel, q: Request, refused: bool)
    requires Inv(t, k) && Honest(k, q)
    ensures var (ok, t1, k1) := ReconcileFd(t, k, q, refused);
            && Inv(t1, k1) && k1.fds == k.fds && t1.epoch == t.epoch && t1.active == t.active
            && (ok ==> t1.regs == t.regs[q.key := Entry(q.fd, Wanted(q.events), t.epoch)])
            && (!ok ==> t1 == t && k1 == k)
  {
  }

  /** When a request is met: its epoch is under way, its key has not moved to another number,
      a new one has room, and the kernel does not refuse the call it takes. */
  lemma ReconcileFdExactly(t: Table, k: Kernel, q: Request, refused: bool)
    requires Inv(t, k) && Honest(k, q)
    ensures var (ok, t1, k1) := ReconcileFd(t, k, q, refused);
            && (ok <==> t.active && if q.key in t.regs then t.regs[q.key].fd == q.fd && (t.regs[q.key].events == Wanted(q.events) || !refused)
                                    else |t.regs| < 128 && !refused)
            && (ok ==> k1.interest == k.interest[q.fd := Wanted(q.events)])
  {
  }

  lemma ClosingKeeps(t: Table, k: Kernel, fd: nat)
    requires Inv(t, k)
    ensures Inv(t, CloseFd(k, fd))
  {
  }

  /** Opening a descriptor leaves table and kernel in agreement exactly when no registration
      of its number has the new life's key: when each life has a key of its own. */
  lemma OpeningKeepsExactly(t: Table, k: Kernel, fd: nat, key: Key)
    requires Inv(t, k) && fd !in k.fds
    ensures Inv(t, OpenFd(k, fd, key)) <==> !(key in t.regs && t.regs[key].fd == fd)
  {
    assert fd !in k.interest;
  }

  /** Everything marked in this epoch is marked by the present life of its descriptor. */
  ghost predicate Marked(t: Table, k: Kernel) {
    forall key | Current(t, key) :: t.regs[key].fd in k.fds && k.fds[t.regs[key].fd] == key
  }

  lemma EndKeeps(t: Table, k: Kernel, refused: set<nat>)
    requires Inv(t, k) && Marked(t, k) && t.active
    ensures var (ok, t1, k1) := End(t, k, refused); ok ==> Inv(t1, k1)
  {
    var (ok, t1, k1) := End(t, k, refused);
    assert t1.regs.Keys <= t.regs.Keys;
    Smaller(t1.regs, t.regs);
    forall key | key in t1.regs && t1.regs[key].fd in k1.fds && k1.fds[t1.regs[key].fd] == key
      ensures t1.regs[key].fd in k1.interest && k1.interest[t1.regs[key].fd] == t1.regs[key].events
    {
      assert Current(t, key) && SeenNow(t, t.regs[key].fd);
    }
    if ok {
      forall fd | fd in k1.interest ensures k1.fds[fd] in t1.regs {
        StillSeen(t, k, refused, fd);
        MarkedIsPresent(t, k, fd);
      }
    }
  }

  /** What survives a successful sweep was asked for. */
  lemma StillSeen(t: Table, k: Kernel, refused: set<nat>, fd: nat)
    requires Agree(t, k) && Swept(t) * refused == {}
    requires fd in k.interest && fd !in Swept(t) - refused
    ensures SeenNow(t, fd)
  {
    assert fd !in Swept(t) * refused;
    if Current(t, k.fds[fd]) {
      assert t.regs[k.fds[fd]].fd == fd;
    }
  }

  lemma MarkedIsPresent(t: Table, k: Kernel, fd: nat)
    requires Marked(t, k) && SeenNow(t, fd)
    ensures fd in k.fds && Current(t, k.fds[fd])
  {
    var now :| Current(t, now) && t.regs[now].fd == fd;
  }

  lemma Smaller(a: map<Key, Entry>, b: map<Key, Entry>)
    requires a.Keys <= b.Keys
    ensures |a| <= |b|
  {
    assert |a| == |a.Keys| && |b| == |b.Keys|;
    assert b.Keys == a.Keys + (b.Keys - a.Keys);
  }

  // ---- one epoch -----------------------------------------------------------------------------------

  datatype Marking = Marking(ok: bool, t: Table, k: Kernel)

  /** The epoch's requests in turn; `refused(i)`: the i-th one's epoll_ctl fails. */
  function MarkAll(t: Table, k: Kernel, qs: seq<Request>, refused: nat -> bool): Marking {
    if qs == [] then Marking(true, t, k)
    else
      var n := |qs| - 1;
      var m := MarkAll(t, k, qs[..n], refused);
      var (ok, t1, k1) := ReconcileFd(m.t, m.k, qs[n], refused(n));
      Marking(m.ok && ok, t1, k1)
  }

  predicate HonestAll(k: Kernel, qs: seq<Request>) {
    && (forall q | q in qs :: Honest(k, q))
    && forall i, j | 0 <= i < j < |qs| :: qs[i].key != qs[j].key
  }

  /** What is marked is what has been asked for. */
  ghost predicate MarkedExactly(t: Table, qs: seq<Request>) {
    && (forall q | q in qs :: q.key in t.regs && t.regs[q.key] == Entry(q.fd, Wanted(q.events), t.epoch))
    && (forall key | Current(t, key) :: exists q :: q in qs && q.key == key)
  }

  lemma {:induction false} MarkingKeeps(t: Table, k: Kernel, qs: seq<Request>, refused: nat -> bool)
    requires Inv(t, k) && HonestAll(k, qs) && forall key | key in t.regs :: !Current(t, key)
    ensures var m := MarkAll(t, k, qs, refused);
            && Inv(m.t, m.k) && m.k.fds == k.fds && m.t.epoch == t.epoch && m.t.active == t.active
            && Marked(m.t, m.k) && (m.ok ==> MarkedExactly(m.t, qs))
  {
    if qs != [] {
      var n := |qs| - 1;
      MarkingKeeps(t, k, qs[..n], refused);
      var m := MarkAll(t, k, qs[..n], refused);
      assert qs[n] in qs;
      ReconcileFdKeeps(m.t, m.k, qs[n], refused(n));
      MarkOne(m, qs, refused(n));
    }
  }

  lemma MarkOne(m: Marking, qs: seq<Request>, refused: bool)
    requires qs != [] && HonestAll(m.k, qs) && Inv(m.t, m.k)
    requires Marked(m.t, m.k) && (m.ok ==> MarkedExactly(m.t, qs[..|qs| - 1]))
    ensures var (ok, t1, k1) := ReconcileFd(m.t, m.k, qs[|qs| - 1], refused);
            Marked(t1, k1) && (m.ok && ok ==> MarkedExactly(t1, qs))
  {
    var n := |qs| - 1;
    var q := qs[n];
    assert qs == qs[..n] + [q];
    ReconcileFdKeeps(m.t, m.k, q, refused);
    var (ok, t1, k1) := ReconcileFd(m.t, m.k, q, refused);
    if m.ok && ok {
      forall p | p in qs ensures p.key in t1.regs && t1.regs[p.key] == Entry(p.fd, Wanted(p.events), t1.epoch) {
        if p != q {
          assert p in qs[..n];
        }
      }
      forall key | Current(t1, key) ensures exists p :: p in qs && p.key == key {
        if key == q.key {
          assert q in qs;
        } else {
          assert Current(m.t, key);
          var p :| p in qs[..n] && p.key == key;
          assert p in qs;
        }
      }
    }
  }

  /** The events asked for; readiness to read when none are. */
  predicate Watches(events: nat, asked: nat) {
    events == if asked == 0 then 1 else asked
  }

  /** The table and the kernel are this epoch's requests, no more and no less. */
  ghost predicate IsRequests(t: Table, k: Kernel, qs: seq<Request>) {
    && (forall q | q in qs :: && q.key in t.regs && t.regs[q.key].fd == q.fd && Watches(t.regs[q.key].events, q.events)
                              && q.fd in k.interest && Watches(k.interest[q.fd], q.events))
    && (forall key | key in t.regs :: exists q :: q in qs && q.key == key)
    && (forall fd | fd in k.interest :: exists q :: q in qs && q.fd == fd)
  }

  /** After an epoch whose every call succeeded, table and kernel are its requests. */
  lemma SuccessfulEpoch(t: Table, k: Kernel, qs: seq<Request>, refused: nat -> bool, kept: set<nat>)
    requires Inv(t, k) && !t.active && HonestAll(k, qs)
    ensures var m := MarkAll(Begin(t).1, k, qs, refused);
            var (ok, t2, k2) := End(m.t, m.k, kept);
            m.ok && ok ==> Inv(t2, k2) && !t2.active && k2.fds == k.fds && IsRequests(t2, k2, qs)
  {
    BeginKeeps(t, k);
    MarkingKeeps(Begin(t).1, k, qs, refused);
    var m := MarkAll(Begin(t).1, k, qs, refused);
    EndKeeps(m.t, m.k, kept);
    var (ok, t2, k2) := End(m.t, m.k, kept);
    if m.ok && ok {
      KeptAreRequests(m.t, k2, qs);
    }
  }

  /** Room for these requests beside what is registered, and no key of theirs on another
      number. */
  predicate Fitting(t: Table, qs: seq<Request>) {
    && |t.regs| + |qs| <= 128
    && forall q | q in qs && q.key in t.regs :: t.regs[q.key].fd == q.fd
  }

  lemma {:induction false} MarkingSucceeds(t: Table, k: Kernel, qs: seq<Request>, refused: nat -> bool)
    requires Inv(t, k) && t.active && HonestAll(k, qs) && Fitting(t, qs) && forall i: nat | i < |qs| :: !refused(i)
    ensures var m := MarkAll(t, k, qs, refused);
            && m.ok && Inv(m.t, m.k) && m.k.fds == k.fds && m.t.active && |m.t.regs| <= |t.regs| + |qs|
            && (forall key | key in m.t.regs :: (key in t.regs && m.t.regs[key].fd == t.regs[key].fd) || exists q :: q in qs && q.key == key)
  {
    if qs != [] {
      var front, q := qs[..|qs| - 1], qs[|qs| - 1];
      assert qs == front + [q];
      MarkingSucceeds(t, k, front, refused);
      var m := MarkAll(t, k, front, refused);
      ReconcileFdExactly(m.t, m.k, q, refused(|qs| - 1));
      ReconcileFdKeeps(m.t, m.k, q, refused(|qs| - 1));
      assert q in qs && forall p | p in front :: p.key != q.key;
      OneMore(m.t.regs, q.key, Entry(q.fd, Wanted(q.events), m.t.epoch));
    }
  }

  lemma OneMore(a: map<Key, Entry>, key: Key, e: Entry)
    ensures |a[key := e]| <= |a| + 1
  {
    assert a[key := e].Keys == a.Keys + {key};
  }

  /** An epoch of requests that fit succeeds when the kernel refuses nothing: its table and
      the interest set are then the requests. */
  lemma FittingEpochSucceeds(t: Table, k: Kernel, qs: seq<Request>, refused: nat -> bool)
    requires Inv(t, k) && !t.active && HonestAll(k, qs) && Fitting(t, qs) && forall i: nat | i < |qs| :: !refused(i)
    ensures var m := MarkAll(Begin(t).1, k, qs, refused);
            var (ok, t2, k2) := End(m.t, m.k, {});
            m.ok && ok && IsRequests(t2, k2, qs)
  {
    BeginKeeps(t, k);
    SameSize(Begin(t).1.regs, t.regs);
    MarkingSucceeds(Begin(t).1, k, qs, refused);
    SuccessfulEpoch(t, k, qs, refused, {});
  }

  lemma KeptAreRequests(t: Table, k2: Kernel, qs: seq<Request>)
    requires MarkedExactly(t, qs) && Agree(Kept(t), k2) && HonestAll(k2, qs)
    ensures IsRequests(Kept(t), k2, qs)
  {
    forall q | q in qs ensures q.key in Kept(t).regs && Kept(t).regs[q.key] == t.regs[q.key] {
      assert Current(t, q.key);
    }
    forall key | key in Kept(t).regs ensures exists q :: q in qs && q.key == key {
      assert Current(t, key);
    }
    forall fd | fd in k2.interest ensures exists q :: q in qs && q.fd == fd {
      assert Current(t, k2.fds[fd]);
    }
  }

  /** A life that takes over its predecessor's key on the same number, as the USB monitor's
      descriptors do, is taken for registered: the epoch succeeds without it. */
  lemma ReusedKeyIsLost(t: Table, k: Kernel, q: Request, refused: bool)
    requires Inv(t, k) && !t.active && Honest(k, q)
    requires q.key in t.regs && t.regs[q.key].fd == q.fd && t.regs[q.key].events == Wanted(q.events)
    ensures var k1 := OpenFd(CloseFd(k, q.fd), q.fd, q.key);
            var (ok, t2, k2) := ReconcileFd(Begin(t).1, k1, q, refused);
            && Honest(k1, q) && ok && Current(t2, q.key) && q.fd !in k2.interest
  {
    BeginKeeps(t, k);
  }

  // ---- a whole life -----------------------------------------------------------------------------------

  datatype LifeStep =
    | Closes(fd: nat)
    | Opens(fd: nat, key: Key)
    | Epoch(qs: seq<Request>, refused: nat -> bool, kept: set<nat>)

  datatype World = World(t: Table, k: Kernel) | Over

  /** One step of the process; it is over when a call fails (the loop then ends), and a
      life outside the keying rule is not one. */
  ghost function Live(w: World, step: LifeStep): World {
    if w == Over then Over
    else
      match step
      case Closes(fd) => w.(k := CloseFd(w.k, fd))
      case Opens(fd, key) =>
        if fd in w.k.fds || (key in w.t.regs && w.t.regs[key].fd == fd) then Over else w.(k := OpenFd(w.k, fd, key))
      case Epoch(qs, refused, kept) =>
        var m := MarkAll(Begin(w.t).1, w.k, qs, refused);
        var (ok, t2, k2) := End(m.t, m.k, kept);
        if HonestAll(w.k, qs) && m.ok && ok then World(t2, k2) else Over
  }

  ghost function LiveAll(steps: seq<LifeStep>): World {
    if steps == [] then World(EMPTY, Kernel(map[], map[])) else Live(LiveAll(steps[..|steps| - 1]), steps[|steps| - 1])
  }

  /** Over any life of the process, across closed and reused descriptor numbers and the
      wrap of the epoch: after each epoch, table and kernel are its requests. */
  lemma {:induction false} EveryLife(steps: seq<LifeStep>)
    ensures var w := LiveAll(steps);
            w != Over ==> && Inv(w.t, w.k) && !w.t.active
                          && (steps != [] && steps[|steps| - 1].Epoch? ==> IsRequests(w.t, w.k, steps[|steps| - 1].qs))
  {
    if steps != [] {
      EveryLife(steps[..|steps| - 1]);
      var w := LiveAll(steps[..|steps| - 1]);
      if w != Over {
        match steps[|steps| - 1]
        case Closes(fd) => ClosingKeeps(w.t, w.k, fd);
        case Opens(fd, key) => if fd !in w.k.fds { OpeningKeepsExactly(w.t, w.k, fd, key); }
        case Epoch(qs, refused, kept) => if HonestAll(w.k, qs) { SuccessfulEpoch(w.t, w.k, qs, refused, kept); }
      }
    }
  }
}
