/**
 * A framed packet from its acceptance to its answer: the packet handler, the worker, the
 * completion ring and the drain, over any interleaving of the two threads and with anything
 * else happening to the slots in between.
 *
 * Each accepted job gets a ticket; a ticket has one fate, and it is never revised.
 */
module FramedEndToEnd {
  import opened Prelude
  import opened FramedData
  import opened TxJob
  import opened ConfigApply
  import A = TxAsync
  import R = FramedRuntime
  import C = TxCompletion
  import S = ClientSlot
  import Q = ClientOutputQueue

  /** `Answered`: its result r was queued as a whole as the place-th frame of that connection.
      `Undelivered`: its completion found no connection; that of its slot by then is given.
      A connection is the number of changes its slot's generation has seen. */
  datatype Fate =
    | Pending
    | Discarded
    | Dropped
    | Answered(connection: nat, place: nat, r: JobResult)
    | Undelivered(connection: nat)

  /** An accepted job and, for a framed one, its slot as it was then. */
  datatype Ticket = Ticket(job: Job, at: S.Track)

  /** `live` are the tickets of the completions held, the job in flight and those waiting, in
      this order; `seq_` is the result sequence. */
  datatype World = World(sys: A.Sys, ring: C.Completions, tracks: seq<S.Track>, seq_: nat,
                         tickets: seq<Ticket>, fates: seq<Fate>, live: seq<nat>)

  /** `e.worker` of a packet is the worker as it is. */
  datatype Act =
    | Packet(i: nat, c: R.Ctrl, e: R.Env, payload: seq<byte>)
    | Raw(c: R.Ctrl, e: R.Env, payload: seq<byte>)
    | Thread(act: A.Action)
    | OnSlot(i: nat, op: S.Op)
    | Drain(sends: seq<Q.Send>)

  const UNSET := S.Track(S.INIT, [], 0)

  predicate Framed(t: Ticket) {
    t.job.slot != SLOT_NONE
  }

  // ---- one step -----------------------------------------------------------------------------

  /** What a send on the queued path does to the worker. */
  function AfterSend(s: A.Sys, c: R.Ctrl, created: bool, job: Job): A.Sys {
    if !c.ready || |job.payload| > c.limit || |job.payload| > MAX_RF_PAYLOAD then s
    else
      var s1 := A.MainStart(s, A.StartWorker(created));
      if s1.a.running then A.MainStart(s1, A.SubmitJob(job)) else s1
  }

  function Send(w: World, c: R.Ctrl, e: R.Env, t: R.Target, payload: seq<byte>, at: S.Track): World {
    var sent := R.SendChunk(c, e, t, payload);
    var w1 := w.(sys := AfterSend(w.sys, c, e.started, R.JobOf(c, t, payload)));
    if sent.job.None? then w1
    else w1.(tickets := w.tickets + [Ticket(sent.job.value, at)], fates := w.fates + [Pending], live := w.live + [|w.tickets|])
  }

  /** The main loop is at a send of the queued path. */
  predicate Sends(w: World, c: R.Ctrl) {
    w.sys.main == A.Free && w.sys.queueOn && c.queueOn
  }

  function Now(w: World, e: R.Env): R.Env {
    e.(worker := w.sys.a)
  }

  function AnswerTo(w: World, i: nat, c: R.Ctrl, e: R.Env, payload: seq<byte>): R.Packet
    requires i < |w.tracks|
  {
    R.TxPacket(c, Now(w, e), w.seq_, i, w.tracks[i].slot.generation, payload)
  }

  function PacketStep(w: World, i: nat, c: R.Ctrl, e: R.Env, payload: seq<byte>): World
    requires i < |w.tracks| && U16(w.seq_)
  {
    var t := w.tracks[i];
    var p := AnswerTo(w, i, c, e, payload);
    var target := R.Target(i, t.slot.generation, if c.resultOn then p.seq_ else 0);
    var w1 := Send(w, c, Now(w, e), target, payload, t).(seq_ := p.seq_);
    if p.answer.Now? then w1.(tracks := w.tracks[i := S.StepTrack(t, S.OpQueue(R.ResultNow(p.answer)))]) else w1
  }

  function Settle(fates: seq<Fate>, ks: seq<nat>, f: Fate): seq<Fate> {
    seq(|fates|, k requires 0 <= k < |fates| => if k in ks then f else fates[k])
  }

  function First(ks: seq<nat>, n: nat): seq<nat> {
    if n <= |ks| then ks[..n] else ks
  }

  function After(ks: seq<nat>, n: nat): seq<nat> {
    if n <= |ks| then ks[n..] else []
  }

  /** The live tickets a stop keeps: the completions and the job in flight. */
  function Kept(w: World): nat {
    |w.ring.entries| + |A.InFlight(w.sys.thread)|
  }

  /** The worker is stopped: what waits is discarded. */
  function Stopped(w: World, s1: A.Sys): World {
    w.(sys := s1, live := First(w.live, Kept(w)), fates := Settle(w.fates, After(w.live, Kept(w)), Discarded))
  }

  /** The worker records its result: the ring takes it, at the cost of its oldest if full. */
  function Recorded(w: World, s1: A.Sys): World
    requires w.sys.thread.Recording?
  {
    var lost := if |w.ring.entries| >= C.RESULTS then 1 else 0;
    w.(sys := s1, ring := C.PushResult(w.ring, w.sys.thread.r),
       live := After(w.live, lost), fates := Settle(w.fates, First(w.live, lost), Dropped))
  }

  function ThreadStep(u: Setup, w: World, act: A.Action): World {
    var w1 := w.(sys := A.Step(u, w.sys, act));
    match act
    case SubmitJob(_) => w
    case StopWorker => if w.sys.main != A.Free then w else Stopped(w, w1.sys)
    case RecordResult => if !w.sys.thread.Recording? then w1 else Recorded(w, w1.sys)
    case _ => w1
  }

  function Slots(tracks: seq<S.Track>): seq<S.Slot> {
    seq(|tracks|, i requires 0 <= i < |tracks| => tracks[i].slot)
  }

  function DeliverTracks(tracks: seq<S.Track>, r: JobResult, sends: seq<Q.Send>): seq<S.Track>
    requires U16(r.seq_)
  {
    if !C.Addressed(Slots(tracks), r) then tracks
    else
      var queued := S.StepTrack(tracks[r.slot], S.OpQueue(C.ResultFrame(r)));
      tracks[r.slot := S.StepTrack(queued, S.OpFlush(sends))]
  }

  function DrainFate(tracks: seq<S.Track>, r: JobResult, sends: seq<Q.Send>): Fate
    requires U16(r.seq_)
  {
    if C.Addressed(Slots(tracks), r) && S.Fits(tracks[r.slot].slot, C.ResultFrame(r)) then
      Answered(tracks[r.slot].changes, |tracks[r.slot].offered|, r)
    else
      Undelivered(if 0 <= r.slot < |tracks| then DeliverTracks(tracks, r, sends)[r.slot].changes else 0)
  }

  function DrainStep(w: World, sends: seq<Q.Send>): World
    requires w.ring.entries != [] && U16(w.ring.entries[0].seq_)
  {
    var r := w.ring.entries[0];
    w.(ring := w.ring.(entries := w.ring.entries[1..]), tracks := DeliverTracks(w.tracks, r, sends),
       live := After(w.live, 1), fates := Settle(w.fates, First(w.live, 1), DrainFate(w.tracks, r, sends)))
  }

  function Step(u: Setup, w: World, act: Act): World {
    match act
    case Packet(i, c, e, payload) =>
      if i < |w.tracks| && S.Live(w.tracks[i].slot) && Sends(w, c) && U16(w.seq_) then PacketStep(w, i, c, e, payload) else w
    case Raw(c, e, payload) => if Sends(w, c) then Send(w, c, Now(w, e), R.NO_TARGET, payload, UNSET) else w
    case Thread(a) => ThreadStep(u, w, a)
    case OnSlot(i, op) => if i < |w.tracks| then w.(tracks := w.tracks[i := S.StepTrack(w.tracks[i], op)]) else w
    case Drain(sends) => if w.ring.entries != [] && U16(w.ring.entries[0].seq_) then DrainStep(w, sends) else w
  }

  function Run(u: Setup, w: World, acts: seq<Act>): World {
    if acts == [] then w else Step(u, Run(u, w, acts[..|acts| - 1]), acts[|acts| - 1])
  }

  function Opened(p: Pipe, slots: nat): World {
    World(A.Started(p), C.Completions([], 0), seq(slots, i => UNSET), 0, [], [], [])
  }

  /** The drain step is what the drain does to the slots. */
  lemma DrainsAsDelivered(tracks: seq<S.Track>, r: JobResult, sends: seq<Q.Send>)
    requires U16(r.seq_)
    ensures Slots(DeliverTracks(tracks, r, sends)) == C.Deliver(Slots(tracks), r, sends)
  {
  }

  // ---- tickets ------------------------------------------------------------------------------

  function Rest(s: A.Sys): seq<Job> {
    A.InFlight(s.thread) + s.a.queue
  }

  predicate Increasing(ks: seq<nat>, n: nat) {
    && (forall i :: 0 <= i < |ks| ==> ks[i] < n)
    && forall i, j :: 0 <= i < j < |ks| ==> ks[i] < ks[j]
  }

  /** The live tickets are those of the completions held and of the jobs left, in this order. */
  predicate Matched(tickets: seq<Ticket>, live: seq<nat>, entries: seq<JobResult>, rest: seq<Job>)
    requires Increasing(live, |tickets|)
  {
    && |live| == |entries| + |rest|
    && (forall n :: 0 <= n < |entries| ==> Answers(entries[n], tickets[live[n]].job))
    && forall n :: |entries| <= n < |live| ==> tickets[live[n]].job == rest[n - |entries|]
  }

  predicate PendingLive(fates: seq<Fate>, live: seq<nat>) {
    forall k :: 0 <= k < |fates| ==> (fates[k] == Pending <==> k in live)
  }

  predicate Flow(w: World) {
    && |w.ring.entries| <= C.RESULTS && |w.fates| == |w.tickets| && Increasing(w.live, |w.tickets|)
    && Matched(w.tickets, w.live, w.ring.entries, Rest(w.sys)) && PendingLive(w.fates, w.live)
  }

  predicate Origin(t: Ticket, tracks: seq<S.Track>) {
    && U16(t.job.seq_)
    && (Framed(t) ==>
          && 0 <= t.job.slot < |tracks| && S.Live(t.at.slot) && S.ValidGeneration(t.at.slot.generation)
          && t.job.generation == t.at.slot.generation && S.Since(t.at, tracks[t.job.slot]))
  }

  /** A later connection of the slot whose generation is the same: no other, for 2^32 - 1
      changes. */
  predicate SameGeneration(at: nat, connection: nat) {
    at <= connection && (connection - at) % S.GENERATIONS == 0
  }

  /** What a fate says. */
  predicate FateOk(t: Ticket, f: Fate, tracks: seq<S.Track>) {
    match f
    case Answered(connection, place, r) =>
      && Answers(r, t.job) && U16(r.seq_) && 0 <= t.job.slot < |tracks| && SameGeneration(t.at.changes, connection)
      && (connection == t.at.changes ==> |t.at.offered| <= place)
      && var now := tracks[t.job.slot];
         && connection <= now.changes
         && (connection == now.changes ==> place < |now.offered| && now.offered[place] == C.ResultFrame(r))
    case Undelivered(connection) => Framed(t) ==> 0 <= t.job.slot < |tracks| && t.at.changes < connection <= tracks[t.job.slot].changes
    case _ => true
  }

  /** Two answers on one connection are two frames of it. */
  predicate OwnPlace(t1: Ticket, f1: Fate, t2: Ticket, f2: Fate) {
    f1.Answered? && f2.Answered? && t1.job.slot == t2.job.slot && f1.connection == f2.connection ==> f1.place != f2.place
  }

  predicate Settled(tickets: seq<Ticket>, fates: seq<Fate>, tracks: seq<S.Track>)
    requires |fates| == |tickets|
  {
    && (forall k :: 0 <= k < |fates| ==> Origin(tickets[k], tracks) && FateOk(tickets[k], fates[k], tracks))
    && forall j, k :: 0 <= j < k < |fates| ==> OwnPlace(tickets[j], fates[j], tickets[k], fates[k])
  }

  function Count(fates: seq<Fate>, f: Fate): nat {
    if fates == [] then 0 else Count(fates[..|fates| - 1], f) + if fates[|fates| - 1] == f then 1 else 0
  }

  predicate Counted(w: World) {
    && |w.tickets| == w.sys.a.n.accepted
    && Count(w.fates, Dropped) == w.ring.dropped && Count(w.fates, Discarded) == w.sys.a.n.dropped
  }

  predicate Ledger(w: World) {
    && Flow(w) && Counted(w) && U16(w.seq_)
    && Settled(w.tickets, w.fates, w.tracks)
    && forall i :: 0 <= i < |w.tracks| ==> S.ValidGeneration(w.tracks[i].slot.generation)
  }

  predicate Inv(w: World) {
    A.Inv(w.sys) && Ledger(w)
  }

  // ---- what a slot's steps keep ---------------------------------------------------------------

  lemma StepOffers(t: S.Track, op: S.Op)
    requires S.ValidGeneration(t.slot.generation)
    ensures var t1 := S.StepTrack(t, op);
            && t.changes <= t1.changes && S.ValidGeneration(t1.slot.generation)
            && (t1.changes == t.changes ==> t.offered <= t1.offered)
  {
    S.SameGenerationSameStep(t.slot, op);
    S.NextIsAfter(t.slot.generation, 0);
  }

  lemma TrackKeepsTicket(t: Ticket, f: Fate, tracks: seq<S.Track>, i: nat, op: S.Op)
    requires i < |tracks| && S.ValidGeneration(tracks[i].slot.generation)
    requires Origin(t, tracks) && FateOk(t, f, tracks)
    ensures var tracks1 := tracks[i := S.StepTrack(tracks[i], op)];
            Origin(t, tracks1) && FateOk(t, f, tracks1)
  {
    StepOffers(tracks[i], op);
    if Framed(t) && t.job.slot == i {
      S.StepSince(t.at, tracks[i], op);
    }
  }

  lemma TrackKeeps(tickets: seq<Ticket>, fates: seq<Fate>, tracks: seq<S.Track>, i: nat, op: S.Op)
    requires |fates| == |tickets| && Settled(tickets, fates, tracks)
    requires i < |tracks| && S.ValidGeneration(tracks[i].slot.generation)
    ensures S.ValidGeneration(S.StepTrack(tracks[i], op).slot.generation)
    ensures Settled(tickets, fates, tracks[i := S.StepTrack(tracks[i], op)])
  {
    StepOffers(tracks[i], op);
    forall k | 0 <= k < |fates|
      ensures Origin(tickets[k], tracks[i := S.StepTrack(tracks[i], op)])
      ensures FateOk(tickets[k], fates[k], tracks[i := S.StepTrack(tracks[i], op)])
    {
      TrackKeepsTicket(tickets[k], fates[k], tracks, i, op);
    }
  }

  // ---- settling --------------------------------------------------------------------------------

  lemma SettleFirst(fates: seq<Fate>, live: seq<nat>, n: nat, f: Fate)
    requires n <= |live| && Increasing(live, |fates|) && PendingLive(fates, live) && f != Pending
    ensures Increasing(After(live, n), |fates|) && PendingLive(Settle(fates, First(live, n), f), After(live, n))
  {
    SplitLive(live, n);
  }

  lemma SettleLast(fates: seq<Fate>, live: seq<nat>, n: nat, f: Fate)
    requires n <= |live| && Increasing(live, |fates|) && PendingLive(fates, live) && f != Pending
    ensures Increasing(First(live, n), |fates|) && PendingLive(Settle(fates, After(live, n), f), First(live, n))
  {
    SplitLive(live, n);
  }

  lemma SplitLive(live: seq<nat>, n: nat)
    requires n <= |live| && forall i, j :: 0 <= i < j < |live| ==> live[i] < live[j]
    ensures forall k :: k in live <==> k in First(live, n) || k in After(live, n)
    ensures forall k :: !(k in First(live, n) && k in After(live, n))
  {
    assert live == First(live, n) + After(live, n);
  }

  lemma {:induction false} CountSet(fates: seq<Fate>, k: nat, f: Fate, g: Fate)
    requires k < |fates|
    ensures Count(fates[k := f], g) + (if fates[k] == g then 1 else 0) == Count(fates, g) + (if f == g then 1 else 0)
  {
    var n := |fates| - 1;
    if k < n {
      assert fates[k := f][..n] == fates[..n][k := f];
      CountSet(fates[..n], k, f, g);
    } else {
      assert fates[k := f][..n] == fates[..n];
    }
  }

  lemma SettleMore(fates: seq<Fate>, ks: seq<nat>, k: nat, f: Fate)
    requires k < |fates| && k !in ks
    ensures Settle(fates, ks + [k], f) == Settle(fates, ks, f)[k := f] && Settle(fates, ks, f)[k] == fates[k]
  {
  }

  lemma {:induction false} SettleCounts(fates: seq<Fate>, ks: seq<nat>, f: Fate, g: Fate)
    requires Increasing(ks, |fates|) && (forall i :: 0 <= i < |ks| ==> fates[ks[i]] == Pending) && f != Pending && g != Pending
    ensures Count(Settle(fates, ks, f), g) == Count(fates, g) + (if f == g then |ks| else 0)
  {
    if ks == [] {
      assert Settle(fates, ks, f) == fates;
    } else {
      var front, k := ks[..|ks| - 1], ks[|ks| - 1];
      assert ks == front + [k];
      SettleCounts(fates, front, f, g);
      SettleMore(fates, front, k, f);
      CountSet(Settle(fates, front, f), k, f, g);
    }
  }

  lemma CountMore(fates: seq<Fate>, g: Fate)
    requires g != Pending
    ensures Count(fates + [Pending], g) == Count(fates, g)
  {
    assert (fates + [Pending])[..|fates|] == fates;
  }

  // ---- the two threads ----------------------------------------------------------------------------

  lemma SettleLost(tickets: seq<Ticket>, fates: seq<Fate>, tracks: seq<S.Track>, ks: seq<nat>, f: Fate)
    requires |fates| == |tickets| && Settled(tickets, fates, tracks) && f in {Discarded, Dropped}
    ensures Settled(tickets, Settle(fates, ks, f), tracks)
  {
  }

  /** All that settling the oldest or the newest tickets as lost changes. */
  lemma LoseFirst(tickets: seq<Ticket>, fates: seq<Fate>, tracks: seq<S.Track>, live: seq<nat>, n: nat, f: Fate)
    requires |fates| == |tickets| && Settled(tickets, fates, tracks) && f in {Discarded, Dropped}
    requires n <= |live| && Increasing(live, |fates|) && PendingLive(fates, live)
    ensures Lost(tickets, fates, Settle(fates, First(live, n), f), tracks, After(live, n), First(live, n), f)
  {
    SettleFirst(fates, live, n, f);
    SettleLost(tickets, fates, tracks, First(live, n), f);
    LostCounts(fates, live, First(live, n), f);
  }

  lemma LoseLast(tickets: seq<Ticket>, fates: seq<Fate>, tracks: seq<S.Track>, live: seq<nat>, n: nat, f: Fate)
    requires |fates| == |tickets| && Settled(tickets, fates, tracks) && f in {Discarded, Dropped}
    requires n <= |live| && Increasing(live, |fates|) && PendingLive(fates, live)
    ensures Lost(tickets, fates, Settle(fates, After(live, n), f), tracks, First(live, n), After(live, n), f)
  {
    SettleLast(fates, live, n, f);
    SettleLost(tickets, fates, tracks, After(live, n), f);
    LostCounts(fates, live, After(live, n), f);
  }

  lemma LostCounts(fates: seq<Fate>, live: seq<nat>, ks: seq<nat>, f: Fate)
    requires PendingLive(fates, live) && Increasing(ks, |fates|) && f in {Discarded, Dropped}
    requires forall i :: 0 <= i < |ks| ==> ks[i] in live
    ensures Count(Settle(fates, ks, f), Discarded) == Count(fates, Discarded) + (if f == Discarded then |ks| else 0)
    ensures Count(Settle(fates, ks, f), Dropped) == Count(fates, Dropped) + (if f == Dropped then |ks| else 0)
  {
    SettleCounts(fates, ks, f, Discarded);
    SettleCounts(fates, ks, f, Dropped);
  }

  /** What losing a ticket leaves in order: the others are still live, and it is counted. */
  predicate Lost(tickets: seq<Ticket>, fates: seq<Fate>, fates1: seq<Fate>, tracks: seq<S.Track>, left: seq<nat>, ks: seq<nat>, f: Fate) {
    && |fates1| == |fates| == |tickets| && Increasing(left, |tickets|)
    && PendingLive(fates1, left) && Settled(tickets, fates1, tracks)
    && Count(fates1, Discarded) == Count(fates, Discarded) + (if f == Discarded then |ks| else 0)
    && Count(fates1, Dropped) == Count(fates, Dropped) + (if f == Dropped then |ks| else 0)
  }

  /** Steps that neither take a job in nor let one go. */
  predicate MovesNone(s: A.Sys, act: A.Action) {
    && !act.SubmitJob? && (act.StopWorker? ==> s.main != A.Free) && (act.RecordResult? ==> !s.thread.Recording?)
  }

  lemma MovesNoneRest(u: Setup, s: A.Sys, act: A.Action)
    requires A.Inv(s) && MovesNone(s, act)
    ensures var t := A.Step(u, s, act);
            Rest(t) == Rest(s) && t.a.n.accepted == s.a.n.accepted && t.a.n.dropped == s.a.n.dropped
  {
    if act.TakeJob? && s.thread == A.AtLock && s.a.queue != [] {
      assert s.a.queue == [s.a.queue[0]] + s.a.queue[1..];
    }
  }

  lemma MovesNoneKeeps(u: Setup, w: World, act: A.Action)
    requires Inv(w) && MovesNone(w.sys, act)
    ensures Inv(ThreadStep(u, w, act))
  {
    A.StepKeeps(u, w.sys, act);
    MovesNoneRest(u, w.sys, act);
    assert ThreadStep(u, w, act) == w.(sys := A.Step(u, w.sys, act));
  }

  lemma StopRest(u: Setup, s: A.Sys)
    requires A.Inv(s) && s.main == A.Free
    ensures var t := A.Step(u, s, A.StopWorker);
            && A.Inv(t) && Rest(t) == A.InFlight(s.thread)
            && t.a.n == s.a.n.(dropped := s.a.n.dropped + |s.a.queue|)
  {
    A.StepKeeps(u, s, A.StopWorker);
    assert A.InFlight(s.thread) + [] == A.InFlight(s.thread);
  }

  lemma MatchedFirst(tickets: seq<Ticket>, live: seq<nat>, entries: seq<JobResult>, flight: seq<Job>, queue: seq<Job>)
    requires Increasing(live, |tickets|) && Matched(tickets, live, entries, flight + queue)
    ensures var first := First(live, |entries| + |flight|);
            Increasing(first, |tickets|) && Matched(tickets, first, entries, flight)
  {
  }

  lemma StoppedKeeps(w: World, s1: A.Sys)
    requires Ledger(w) && Rest(s1) == A.InFlight(w.sys.thread)
    requires s1.a.n == w.sys.a.n.(dropped := w.sys.a.n.dropped + |w.sys.a.queue|)
    ensures Ledger(Stopped(w, s1))
  {
    StoppedMatched(w, s1);
    LoseLast(w.tickets, w.fates, w.tracks, w.live, Kept(w), Discarded);
    StoppedLedger(w, Stopped(w, s1), After(w.live, Kept(w)));
  }

  lemma StoppedLedger(w: World, w1: World, ks: seq<nat>)
    requires w1 == w.(sys := w1.sys, live := w1.live, fates := w1.fates)
    requires |w.fates| == |w.tickets| && |w.ring.entries| <= C.RESULTS && Counted(w) && U16(w.seq_)
    requires forall i :: 0 <= i < |w.tracks| ==> S.ValidGeneration(w.tracks[i].slot.generation)
    requires w1.sys.a.n == w.sys.a.n.(dropped := w.sys.a.n.dropped + |ks|)
    requires Lost(w.tickets, w.fates, w1.fates, w.tracks, w1.live, ks, Discarded)
    requires Matched(w.tickets, w1.live, w.ring.entries, Rest(w1.sys))
    ensures Ledger(w1)
  {
    assert Flow(w1) && Counted(w1);
  }

  lemma StoppedMatched(w: World, s1: A.Sys)
    requires Flow(w) && Rest(s1) == A.InFlight(w.sys.thread)
    ensures |w.live| == Kept(w) + |w.sys.a.queue| && Increasing(First(w.live, Kept(w)), |w.tickets|)
    ensures Matched(w.tickets, First(w.live, Kept(w)), w.ring.entries, Rest(s1))
  {
    MatchedFirst(w.tickets, w.live, w.ring.entries, A.InFlight(w.sys.thread), w.sys.a.queue);
  }

  lemma RecordRest(u: Setup, s: A.Sys)
    requires A.Inv(s) && s.thread.Recording?
    ensures var t := A.Step(u, s, A.RecordResult);
            && A.Inv(t) && Rest(s) == [s.thread.job] + Rest(t) && Answers(s.thread.r, s.thread.job)
            && t.a.n == s.a.n.(processed := s.a.n.processed + 1)
  {
    A.StepKeeps(u, s, A.RecordResult);
  }

  /** The oldest completion leaves. */
  lemma MatchedAfter(tickets: seq<Ticket>, live: seq<nat>, entries: seq<JobResult>, rest: seq<Job>)
    requires Increasing(live, |tickets|) && Matched(tickets, live, entries, rest) && entries != []
    ensures Increasing(live[1..], |tickets|) && Matched(tickets, live[1..], entries[1..], rest)
  {
    forall n | 0 <= n < |entries| - 1 ensures Answers(entries[1..][n], tickets[live[1..][n]].job) {
      assert Answers(entries[n + 1], tickets[live[n + 1]].job);
    }
    forall n | |entries| - 1 <= n < |live| - 1 ensures tickets[live[1..][n]].job == rest[n - (|entries| - 1)] {
      assert tickets[live[n + 1]].job == rest[n + 1 - |entries|];
    }
  }

  /** The job in flight becomes a completion. */
  lemma MatchedMove(tickets: seq<Ticket>, live: seq<nat>, entries: seq<JobResult>, r: JobResult, job: Job, rest: seq<Job>)
    requires Increasing(live, |tickets|) && Matched(tickets, live, entries, [job] + rest) && Answers(r, job)
    ensures Matched(tickets, live, entries + [r], rest)
  {
    assert tickets[live[|entries|]].job == job;
    forall n | |entries| + 1 <= n < |live| ensures tickets[live[n]].job == rest[n - (|entries| + 1)] {
      assert tickets[live[n]].job == ([job] + rest)[n - |entries|];
    }
  }

  lemma MatchedRecord(tickets: seq<Ticket>, live: seq<nat>, ring: C.Completions, r: JobResult, job: Job, rest: seq<Job>)
    requires Increasing(live, |tickets|) && Matched(tickets, live, ring.entries, [job] + rest) && Answers(r, job)
    ensures var live1 := After(live, if |ring.entries| >= C.RESULTS then 1 else 0);
            Increasing(live1, |tickets|) && Matched(tickets, live1, C.PushResult(ring, r).entries, rest)
  {
    if |ring.entries| >= C.RESULTS {
      MatchedAfter(tickets, live, ring.entries, [job] + rest);
      MatchedMove(tickets, live[1..], ring.entries[1..], r, job, rest);
    } else {
      assert After(live, 0) == live;
      MatchedMove(tickets, live, ring.entries, r, job, rest);
    }
  }

  lemma RecordedKeeps(w: World, s1: A.Sys)
    requires Ledger(w) && w.sys.thread.Recording? && Answers(w.sys.thread.r, w.sys.thread.job)
    requires Rest(w.sys) == [w.sys.thread.job] + Rest(s1)
    requires s1.a.n == w.sys.a.n.(processed := w.sys.a.n.processed + 1)
    ensures Ledger(Recorded(w, s1))
  {
    var lost := if |w.ring.entries| >= C.RESULTS then 1 else 0;
    MatchedRecord(w.tickets, w.live, w.ring, w.sys.thread.r, w.sys.thread.job, Rest(s1));
    LoseFirst(w.tickets, w.fates, w.tracks, w.live, lost, Dropped);
  }

  lemma StopKeeps(u: Setup, w: World)
    requires Inv(w) && w.sys.main == A.Free
    ensures Inv(ThreadStep(u, w, A.StopWorker))
  {
    StopRest(u, w.sys);
    StoppedKeeps(w, A.Step(u, w.sys, A.StopWorker));
  }

  lemma RecordKeeps(u: Setup, w: World)
    requires Inv(w) && w.sys.thread.Recording?
    ensures Inv(ThreadStep(u, w, A.RecordResult))
  {
    RecordRest(u, w.sys);
    RecordedKeeps(w, A.Step(u, w.sys, A.RecordResult));
  }

  lemma ThreadKeeps(u: Setup, w: World, act: A.Action)
    requires Inv(w)
    ensures Inv(ThreadStep(u, w, act))
  {
    if act.StopWorker? && w.sys.main == A.Free {
      StopKeeps(u, w);
    } else if act.RecordResult? && w.sys.thread.Recording? {
      RecordKeeps(u, w);
    } else if !act.SubmitJob? {
      MovesNoneKeeps(u, w, act);
    }
  }

  // ---- sends -----------------------------------------------------------------------------------------

  /** A send hands its job to the worker exactly when it says so. */
  lemma SendAccepts(s: A.Sys, c: R.Ctrl, e: R.Env, t: R.Target, payload: seq<byte>)
    requires A.Inv(s) && s.main == A.Free && c.queueOn && e.worker == s.a
    ensures var sent := R.SendChunk(c, e, t, payload);
            var s1 := AfterSend(s, c, e.started, R.JobOf(c, t, payload));
            && A.Inv(s1) && s1.a.n.dropped == s.a.n.dropped
            && (sent.job.Some? ==> sent.job.value == R.JobOf(c, t, payload))
            && Rest(s1) == (if sent.job.Some? then Rest(s) + [sent.job.value] else Rest(s))
            && s1.a.n.accepted == s.a.n.accepted + (if sent.job.Some? then 1 else 0)
  {
    StartedRest(s, e);
    var s1 := A.MainStart(s, A.StartWorker(e.started));
    if s1.a.running { SubmittedRest(s1, R.JobOf(c, t, payload)); }
  }

  lemma StartedRest(s: A.Sys, e: R.Env)
    requires A.Inv(s) && s.main == A.Free && e.worker == s.a
    ensures var s1 := A.MainStart(s, A.StartWorker(e.started));
            && A.Inv(s1) && s1.main == A.Free && Rest(s1) == Rest(s) && s1.a.n == s.a.n && s1.a == R.StartedWorker(e)
  {
    A.MainStartKeeps(s, A.StartWorker(e.started));
  }

  lemma SubmittedRest(s: A.Sys, job: Job)
    requires A.Inv(s) && s.main == A.Free
    ensures var s1 := A.MainStart(s, A.SubmitJob(job));
            && A.Inv(s1) && s1.a.n.dropped == s.a.n.dropped
            && Rest(s1) == (if A.Accepts(s.a) then Rest(s) + [job] else Rest(s))
            && s1.a.n.accepted == s.a.n.accepted + (if A.Accepts(s.a) then 1 else 0)
  {
    A.MainStartKeeps(s, A.SubmitJob(job));
  }

  lemma SubmittedKeeps(w: World, s1: A.Sys, t: Ticket)
    requires Ledger(w) && Origin(t, w.tracks) && Rest(s1) == Rest(w.sys) + [t.job]
    requires s1.a.n.accepted == w.sys.a.n.accepted + 1 && s1.a.n.dropped == w.sys.a.n.dropped
    ensures Ledger(w.(sys := s1, tickets := w.tickets + [t], fates := w.fates + [Pending], live := w.live + [|w.tickets|]))
  {
    MatchedMore(w.tickets, w.live, w.ring.entries, Rest(w.sys), t);
    SettledMore(w.tickets, w.fates, w.tracks, t);
    PendingMore(w.fates, w.live);
    CountMore(w.fates, Dropped);
    CountMore(w.fates, Discarded);
  }

  lemma SendKeeps(w: World, c: R.Ctrl, e: R.Env, t: R.Target, payload: seq<byte>, at: S.Track)
    requires Inv(w) && w.sys.main == A.Free && c.queueOn && e.worker == w.sys.a
    requires Origin(Ticket(R.JobOf(c, t, payload), at), w.tracks)
    ensures Inv(Send(w, c, e, t, payload, at))
  {
    SendAccepts(w.sys, c, e, t, payload);
    if R.SendChunk(c, e, t, payload).job.Some? {
      SubmittedKeeps(w, AfterSend(w.sys, c, e.started, R.JobOf(c, t, payload)), Ticket(R.JobOf(c, t, payload), at));
    }
  }

  lemma MatchedMore(tickets: seq<Ticket>, live: seq<nat>, entries: seq<JobResult>, rest: seq<Job>, t: Ticket)
    requires Increasing(live, |tickets|) && Matched(tickets, live, entries, rest)
    ensures Increasing(live + [|tickets|], |tickets| + 1)
    ensures Matched(tickets + [t], live + [|tickets|], entries, rest + [t.job])
  {
  }

  lemma PendingMore(fates: seq<Fate>, live: seq<nat>)
    requires Increasing(live, |fates|) && PendingLive(fates, live)
    ensures PendingLive(fates + [Pending], live + [|fates|])
  {
  }

  lemma SettledMore(tickets: seq<Ticket>, fates: seq<Fate>, tracks: seq<S.Track>, t: Ticket)
    requires |fates| == |tickets| && Settled(tickets, fates, tracks) && Origin(t, tracks)
    ensures Settled(tickets + [t], fates + [Pending], tracks)
  {
  }

  lemma PacketKeeps(w: World, i: nat, c: R.Ctrl, e: R.Env, payload: seq<byte>)
    requires Inv(w) && Sends(w, c) && i < |w.tracks| && S.Live(w.tracks[i].slot)
    ensures Inv(PacketStep(w, i, c, e, payload))
  {
    var t := w.tracks[i];
    var p := AnswerTo(w, i, c, e, payload);
    var target := R.Target(i, t.slot.generation, if c.resultOn then p.seq_ else 0);
    assert S.Since(t, t);
    SendKeeps(w, c, Now(w, e), target, payload, t);
    var w1 := Send(w, c, Now(w, e), target, payload, t).(seq_ := p.seq_);
    assert Inv(w1);
    if p.answer.Now? { SlotKeeps(w1, i, S.OpQueue(R.ResultNow(p.answer))); }
  }

  lemma SlotKeeps(w: World, i: nat, op: S.Op)
    requires Inv(w) && i < |w.tracks|
    ensures Inv(w.(tracks := w.tracks[i := S.StepTrack(w.tracks[i], op)]))
  {
    TrackKeeps(w.tickets, w.fates, w.tracks, i, op);
  }

  // ---- the drain -----------------------------------------------------------------------------------

  /** A completion is answered on a connection of its job's generation, or that connection is
      over. */
  lemma DrainFateOk(t: Ticket, tracks: seq<S.Track>, r: JobResult, sends: seq<Q.Send>)
    requires Origin(t, tracks) && Answers(r, t.job)
    requires forall i :: 0 <= i < |tracks| ==> S.ValidGeneration(tracks[i].slot.generation)
    ensures FateOk(t, DrainFate(tracks, r, sends), DeliverTracks(tracks, r, sends))
  {
    if Framed(t) {
      var now := tracks[r.slot];
      S.GenerationComesBack(t.at.slot.generation, now.changes - t.at.changes);
      StepOffers(now, S.OpQueue(C.ResultFrame(r)));
      StepOffers(S.StepTrack(now, S.OpQueue(C.ResultFrame(r))), S.OpFlush(sends));
    }
  }

  lemma DeliverKeeps(tickets: seq<Ticket>, fates: seq<Fate>, tracks: seq<S.Track>, r: JobResult, sends: seq<Q.Send>)
    requires |fates| == |tickets| && Settled(tickets, fates, tracks) && U16(r.seq_)
    requires forall i :: 0 <= i < |tracks| ==> S.ValidGeneration(tracks[i].slot.generation)
    ensures var tracks1 := DeliverTracks(tracks, r, sends);
            && Settled(tickets, fates, tracks1)
            && forall i :: 0 <= i < |tracks1| ==> S.ValidGeneration(tracks1[i].slot.generation)
  {
    if C.Addressed(Slots(tracks), r) {
      var op := S.OpQueue(C.ResultFrame(r));
      var queued := tracks[r.slot := S.StepTrack(tracks[r.slot], op)];
      TrackKeeps(tickets, fates, tracks, r.slot, op);
      TrackKeeps(tickets, fates, queued, r.slot, S.OpFlush(sends));
      assert DeliverTracks(tracks, r, sends) == queued[r.slot := S.StepTrack(queued[r.slot], S.OpFlush(sends))];
    }
  }

  /** The answer's place is a new one. */
  lemma NewPlace(t1: Ticket, f1: Fate, t: Ticket, tracks: seq<S.Track>, r: JobResult, sends: seq<Q.Send>)
    requires FateOk(t1, f1, tracks) && Answers(r, t.job) && U16(r.seq_)
    ensures OwnPlace(t1, f1, t, DrainFate(tracks, r, sends)) && OwnPlace(t, DrainFate(tracks, r, sends), t1, f1)
  {
  }

  lemma SettleOne(tickets: seq<Ticket>, fates: seq<Fate>, tracks: seq<S.Track>, k: nat, f: Fate)
    requires |fates| == |tickets| && Settled(tickets, fates, tracks) && k < |fates| && FateOk(tickets[k], f, tracks)
    requires forall j :: 0 <= j < |fates| ==> OwnPlace(tickets[j], fates[j], tickets[k], f) && OwnPlace(tickets[k], f, tickets[j], fates[j])
    ensures Settled(tickets, Settle(fates, [k], f), tracks)
  {
  }

  lemma DrainSettles(w: World, sends: seq<Q.Send>)
    requires Ledger(w) && w.ring.entries != []
    ensures U16(w.ring.entries[0].seq_)
    ensures Settled(w.tickets, DrainStep(w, sends).fates, DrainStep(w, sends).tracks)
  {
    var r, k := w.ring.entries[0], w.live[0];
    assert Answers(r, w.tickets[k].job) && Origin(w.tickets[k], w.tracks);
    DrainFateOk(w.tickets[k], w.tracks, r, sends);
    DeliverKeeps(w.tickets, w.fates, w.tracks, r, sends);
    forall j | 0 <= j < |w.fates|
      ensures OwnPlace(w.tickets[j], w.fates[j], w.tickets[k], DrainFate(w.tracks, r, sends))
      ensures OwnPlace(w.tickets[k], DrainFate(w.tracks, r, sends), w.tickets[j], w.fates[j])
    {
      NewPlace(w.tickets[j], w.fates[j], w.tickets[k], w.tracks, r, sends);
    }
    assert First(w.live, 1) == [k];
    SettleOne(w.tickets, w.fates, DeliverTracks(w.tracks, r, sends), k, DrainFate(w.tracks, r, sends));
  }

  lemma DrainKeeps(w: World, sends: seq<Q.Send>)
    requires Inv(w) && w.ring.entries != []
    ensures U16(w.ring.entries[0].seq_) && Inv(DrainStep(w, sends))
  {
    DrainSettles(w, sends);
    var r := w.ring.entries[0];
    var f := DrainFate(w.tracks, r, sends);
    DeliverKeeps(w.tickets, w.fates, w.tracks, r, sends);
    MatchedAfter(w.tickets, w.live, w.ring.entries, Rest(w.sys));
    SettleFirst(w.fates, w.live, 1, f);
    SettleCounts(w.fates, First(w.live, 1), f, Discarded);
    SettleCounts(w.fates, First(w.live, 1), f, Dropped);
  }

  // ---- every run -------------------------------------------------------------------------------------

  lemma StepKeeps(u: Setup, w: World, act: Act)
    requires Inv(w)
    ensures Inv(Step(u, w, act))
  {
    match act
    case Packet(i, c, e, payload) =>
      if i < |w.tracks| && S.Live(w.tracks[i].slot) && Sends(w, c) { PacketKeeps(w, i, c, e, payload); }
    case Raw(c, e, payload) =>
      if Sends(w, c) { SendKeeps(w, c, Now(w, e), R.NO_TARGET, payload, UNSET); }
    case Thread(a) => ThreadKeeps(u, w, a);
    case OnSlot(i, op) => if i < |w.tracks| { SlotKeeps(w, i, op); }
    case Drain(sends) => if w.ring.entries != [] { DrainKeeps(w, sends); }
  }

  lemma {:induction false} IncreasingShort(ks: seq<nat>, n: nat)
    requires Increasing(ks, n)
    ensures |ks| <= n
  {
    if ks != [] { IncreasingShort(ks[..|ks| - 1], ks[|ks| - 1]); }
  }

  lemma EveryRun(u: Setup, p: Pipe, slots: nat, acts: seq<Act>)
    ensures Inv(Run(u, Opened(p, slots), acts))
  {
    RunExtends(u, Opened(p, slots), acts);
  }

  /** The last fate is pending exactly when the last live ticket is the last. */
  lemma LastLive(fates: seq<Fate>, live: seq<nat>)
    requires fates != [] && Increasing(live, |fates|) && PendingLive(fates, live)
    ensures var n := |fates| - 1;
            if fates[n] == Pending then
              live != [] && live == live[..|live| - 1] + [n]
              && Increasing(live[..|live| - 1], n) && PendingLive(fates[..n], live[..|live| - 1])
            else Increasing(live, n) && PendingLive(fates[..n], live)
  {
    var n, m := |fates| - 1, |live| - 1;
    if fates[n] == Pending {
      var i :| 0 <= i <= m && live[i] == n;
      assert live[i] <= live[m] < |fates|;
      assert live == live[..m] + [n];
    } else {
      assert n !in live;
    }
  }

  lemma {:induction false} CountPending(fates: seq<Fate>, live: seq<nat>)
    requires Increasing(live, |fates|) && PendingLive(fates, live)
    ensures Count(fates, Pending) == |live|
  {
    if fates == [] {
      IncreasingShort(live, 0);
    } else {
      var n := |fates| - 1;
      LastLive(fates, live);
      CountPending(fates[..n], if fates[n] == Pending then live[..|live| - 1] else live);
    }
  }

  /** Over any run: every accepted job has one fate. The pending ones are as many as jobs
      wait, are in flight or completed but not drained; the dropped and the discarded ones as
      many as ring and worker count; and every other fate is true. */
  lemma EveryJobOneFate(u: Setup, p: Pipe, slots: nat, acts: seq<Act>)
    ensures var w := Run(u, Opened(p, slots), acts);
            && |w.fates| == |w.tickets| == w.sys.a.n.accepted
            && Count(w.fates, Pending) == |w.ring.entries| + |A.InFlight(w.sys.thread)| + |w.sys.a.queue|
            && Count(w.fates, Dropped) == w.ring.dropped && Count(w.fates, Discarded) == w.sys.a.n.dropped
            && Settled(w.tickets, w.fates, w.tracks)
  {
    EveryRun(u, p, slots, acts);
    PendingCount(Run(u, Opened(p, slots), acts));
  }

  lemma PendingCount(w: World)
    requires Ledger(w)
    ensures Count(w.fates, Pending) == |w.ring.entries| + |A.InFlight(w.sys.thread)| + |w.sys.a.queue|
  {
    CountPending(w.fates, w.live);
  }

  // ---- one packet, from its acceptance on -------------------------------------------------------------

  /** Nothing that happens later revises a ticket or a fate. */
  predicate Extends(w: World, w1: World) {
    && w.tickets <= w1.tickets && |w.fates| <= |w1.fates|
    && forall k :: 0 <= k < |w.fates| && w.fates[k] != Pending ==> w1.fates[k] == w.fates[k]
  }

  lemma StepExtends(u: Setup, w: World, act: Act)
    requires Inv(w)
    ensures Extends(w, Step(u, w, act))
  {
    match act
    case Packet(i, c, e, payload) =>
      if i < |w.tracks| && S.Live(w.tracks[i].slot) && Sends(w, c) && U16(w.seq_) { PacketExtends(w, i, c, e, payload); }
    case Thread(a) => ThreadExtends(u, w, a);
    case Drain(sends) =>
      if w.ring.entries != [] && U16(w.ring.entries[0].seq_) {
        SettleExtends(w, First(w.live, 1), DrainFate(w.tracks, w.ring.entries[0], sends));
      }
    case _ =>
  }

  lemma PacketExtends(w: World, i: nat, c: R.Ctrl, e: R.Env, payload: seq<byte>)
    requires i < |w.tracks| && U16(w.seq_)
    ensures Extends(w, PacketStep(w, i, c, e, payload))
  {
  }

  lemma ThreadExtends(u: Setup, w: World, act: A.Action)
    requires Ledger(w)
    ensures Extends(w, ThreadStep(u, w, act))
  {
    SettleExtends(w, First(w.live, 1), Dropped);
    SettleExtends(w, After(w.live, Kept(w)), Discarded);
  }

  lemma SettleExtends(w: World, ks: seq<nat>, f: Fate)
    requires Ledger(w) && forall k :: k in ks ==> k in w.live
    ensures var fates1 := Settle(w.fates, ks, f);
            |fates1| == |w.fates| && forall k :: 0 <= k < |w.fates| && w.fates[k] != Pending ==> fates1[k] == w.fates[k]
  {
  }

  lemma {:induction false} RunExtends(u: Setup, w: World, acts: seq<Act>)
    requires Inv(w)
    ensures Inv(Run(u, w, acts)) && Extends(w, Run(u, w, acts))
  {
    if acts != [] {
      RunExtends(u, w, acts[..|acts| - 1]);
      StepKeeps(u, Run(u, w, acts[..|acts| - 1]), acts[|acts| - 1]);
      StepExtends(u, Run(u, w, acts[..|acts| - 1]), acts[|acts| - 1]);
    }
  }

  lemma {:induction false} CountHas(fates: seq<Fate>, k: nat)
    requires k < |fates|
    ensures Count(fates, fates[k]) > 0
  {
    if k < |fates| - 1 { CountHas(fates[..|fates| - 1], k); }
  }

  /** A packet gets a ticket exactly when it is to be answered later; a result due now is
      queued on its connection instead, and with TXRESULT on it is one or the other. */
  lemma PacketTicket(w: World, i: nat, c: R.Ctrl, e: R.Env, payload: seq<byte>)
    requires i < |w.tracks| && U16(w.seq_)
    ensures var a := AnswerTo(w, i, c, e, payload).answer;
            var w1 := PacketStep(w, i, c, e, payload);
            && w1.tickets == (if a.Later? then w.tickets + [Ticket(a.job, w.tracks[i])] else w.tickets)
            && w1.tracks == (if a.Now? then w.tracks[i := S.StepTrack(w.tracks[i], S.OpQueue(R.ResultNow(a)))] else w.tracks)
            && (a.Later? ==> a.job.slot == i)
            && (c.resultOn ==> a.Now? || a.Later?)
  {
    var t := w.tracks[i];
    var p := AnswerTo(w, i, c, e, payload);
    R.OkMeansAccepted(c, Now(w, e), R.Target(i, t.slot.generation, if c.resultOn then p.seq_ else 0), payload);
  }

  /** What has become of a job accepted on slot i, then in state `at`. */
  predicate Explained(w: World, i: nat, at: S.Track, job: Job, f: Fate) {
    i < |w.tracks|
    && var now := w.tracks[i];
    match f
    case Pending => w.ring.entries != [] || Rest(w.sys) != []
    case Discarded => w.sys.a.n.dropped > 0
    case Dropped => w.ring.dropped > 0
    case Answered(connection, place, r) =>
      && Answers(r, job) && U16(r.seq_)
      && (connection - at.changes < S.GENERATIONS ==> connection == at.changes)
      && (connection == at.changes == now.changes ==>
            && S.SameConnection(at, now) && |at.offered| <= place < |now.offered|
            && now.offered[place] == C.ResultFrame(r))
    case Undelivered(connection) => at.changes < connection <= now.changes
  }

  /** Every packet accepted for a later answer, whatever happened before and whatever happens
      after: once nothing waits any more it was discarded by a stop, dropped by a full ring,
      or its connection had ended, or its result was queued, whole and once, on the very
      connection it came on. */
  lemma AcceptedPacketAnswered(u: Setup, p: Pipe, slots: nat, before: seq<Act>, w: World, i: nat, c: R.Ctrl,
                               e: R.Env, payload: seq<byte>, after: seq<Act>)
    requires w == Run(u, Opened(p, slots), before)
    requires i < |w.tracks| && S.Live(w.tracks[i].slot) && Sends(w, c) && AnswerTo(w, i, c, e, payload).answer.Later?
    ensures var w1 := Run(u, Step(u, w, Packet(i, c, e, payload)), after);
            var job, k := AnswerTo(w, i, c, e, payload).answer.job, |w.tickets|;
            && k < |w1.fates| == |w1.tickets| && w1.tickets[k] == Ticket(job, w.tracks[i])
            && Explained(w1, i, w.tracks[i], job, w1.fates[k])
  {
    EveryRun(u, p, slots, before);
    AcceptedFrom(u, w, i, c, e, payload, after);
  }

  lemma AcceptedFrom(u: Setup, w: World, i: nat, c: R.Ctrl, e: R.Env, payload: seq<byte>, after: seq<Act>)
    requires Inv(w) && i < |w.tracks| && S.Live(w.tracks[i].slot) && Sends(w, c) && AnswerTo(w, i, c, e, payload).answer.Later?
    ensures var w1 := Run(u, Step(u, w, Packet(i, c, e, payload)), after);
            var job, k := AnswerTo(w, i, c, e, payload).answer.job, |w.tickets|;
            && k < |w1.fates| == |w1.tickets| && w1.tickets[k] == Ticket(job, w.tracks[i])
            && Explained(w1, i, w.tracks[i], job, w1.fates[k])
  {
    var w1 := Step(u, w, Packet(i, c, e, payload));
    PacketTicket(w, i, c, e, payload);
    StepKeeps(u, w, Packet(i, c, e, payload));
    RunExtends(u, w1, after);
    assert w1.tickets[|w.tickets|] == Ticket(AnswerTo(w, i, c, e, payload).answer.job, w.tracks[i]);
    FateExplained(Run(u, w1, after), |w.tickets|, i);
  }

  lemma FateExplained(w: World, k: nat, i: nat)
    requires Inv(w) && k < |w.tickets| && w.tickets[k].job.slot == i
    ensures Explained(w, i, w.tickets[k].at, w.tickets[k].job, w.fates[k])
  {
    var t := w.tickets[k];
    assert Origin(t, w.tracks) && FateOk(t, w.fates[k], w.tracks);
    CountHas(w.fates, k);
    match w.fates[k]
    case Pending => assert w.live != [];
    case Answered(connection, _, _) =>
      if connection - t.at.changes < S.GENERATIONS { SmallMultiple(connection - t.at.changes); }
    case _ =>
  }

  lemma SmallMultiple(n: nat)
    requires n % S.GENERATIONS == 0 && n < S.GENERATIONS
    ensures n == 0
  {
  }
}
