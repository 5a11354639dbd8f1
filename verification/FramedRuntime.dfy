/**
 * Framed TX packets and their answers (daemon_framed_data_runtime.cpp, send_data_chunk):
 * an immediate TX_RESULT, or an accepted job whose completion answers later, or an ERROR.
 */
module FramedRuntime {
  import opened Prelude
  import opened FramedData
  import opened TxJob
  import opened ListenBeforeTalk
  import A = TxAsync
  import P = FramedDataTx
  import S = ClientSlot
  import C = TxCompletion
  import Q = ClientOutputQueue

  // ---- one chunk ----------------------------------------------------------------------------

  /** The radio controller as a send finds it. */
  datatype Ctrl = Ctrl(ready: bool, resultOn: bool, queueOn: bool, managed: bool, lora: bool, limit: nat, cad: Cad)

  /** What a send meets: the worker, whether it could be started, whether the radio stays
      busy, the channel, and the radio's answer. */
  datatype Env = Env(worker: A.Async, started: bool, txBusy: bool, channel: Channel, rx: nat -> bool, sent: TxResult)

  datatype Target = Target(slot: int, generation: nat, seq_: nat)

  const NO_TARGET := Target(SLOT_NONE, 0, 0)

  /** The outcome of one chunk; `job` when one was accepted, `aired` when the direct path
      asked the radio to send. */
  datatype Sent = Sent(outcome: Outcome, job: Option<Job>, aired: bool)

  function JobCad(c: Ctrl): Cad {
    if c.lora && c.managed then c.cad else CAD_OFF
  }

  function StartedWorker(e: Env): A.Async {
    if e.worker.running then e.worker else e.worker.(stop := false, running := e.started)
  }

  function JobOf(c: Ctrl, t: Target, payload: seq<byte>): Job {
    Job(t.seq_, c.managed, false, JobCad(c), payload, t.slot, t.generation)
  }

  function SendQueued(c: Ctrl, e: Env, t: Target, payload: seq<byte>): Sent {
    if |payload| > MAX_RF_PAYLOAD then Sent(OutInvalidPacket, None, false)
    else if !e.worker.running && !e.started then Sent(OutRadioError, None, false)
    else if A.Accepts(StartedWorker(e)) then Sent(OutOk, Some(JobOf(c, t, payload)), false)
    else Sent(OutChannelBusy, None, false)
  }

  function SendDirect(c: Ctrl, e: Env, payload: seq<byte>): Sent {
    var d := Listen(e.channel, e.rx, Required(c.cad.idleTicks), c.cad.waitTicks, 0);
    var w := if c.lora && c.managed then DirectDecision(d, c.cad.sendAfterTimeout) else WaitFree;
    match w
    case WaitError => Sent(OutRadioError, None, false)
    case WaitBlock => Sent(OutChannelBusy, None, false)
    case _ => if |payload| > MAX_RF_PAYLOAD then Sent(OutInvalidPacket, None, false) else Sent(FromTxResult(e.sent), None, true)
  }

  /** send_data_chunk. */
  function SendChunk(c: Ctrl, e: Env, t: Target, payload: seq<byte>): Sent {
    if !c.ready then Sent(OutRadioNotReady, None, false)
    else if |payload| > c.limit then Sent(OutInvalidPacket, None, false)
    else if c.queueOn then SendQueued(c, e, t, payload)
    else if e.worker.queue != [] || e.worker.active then Sent(OutBusy, None, false)
    else if e.txBusy then Sent(OutChannelBusy, None, false)
    else SendDirect(c, e, payload)
  }

  /** On the queued path a chunk is OK exactly when its job was accepted, and the job is
      the packet with its target and with the policy of that moment; on the direct path
      no job ever is, and nothing goes on the air beside a queued or executing job. */
  lemma OkMeansAccepted(c: Ctrl, e: Env, t: Target, payload: seq<byte>)
    ensures var s := SendChunk(c, e, t, payload);
            && (c.queueOn ==> (s.outcome == OutOk <==> s.job.Some?) && !s.aired)
            && (!c.queueOn ==> s.job.None?)
            && (s.job.Some? ==> && s.job.value.payload == payload && |payload| <= c.limit
                                && s.job.value.seq_ == t.seq_ && s.job.value.slot == t.slot
                                && s.job.value.generation == t.generation
                                && s.job.value.managed == c.managed && !s.job.value.cadTimeout
                                && (if c.lora && c.managed then s.job.value.cad == c.cad else !s.job.value.cad.enabled)
                                && A.Accepts(StartedWorker(e)))
            && (s.aired ==> e.worker.queue == [] && !e.worker.active && !c.queueOn)
  {
  }

  predicate Residual(e: Env) {
    e.worker.queue != [] || e.worker.active
  }

  /** Every refusal has exactly one cause, and a radio asked to send is one that is ready,
      on the direct path, with no job left, free, and on a channel the policy lets through. */
  lemma RefusalsExact(c: Ctrl, e: Env, t: Target, payload: seq<byte>)
    requires c.limit <= MAX_RF_PAYLOAD
    ensures var s := SendChunk(c, e, t, payload);
            var goes := c.ready && |payload| <= c.limit;
            && (s.outcome == OutRadioNotReady && !s.aired <==> !c.ready)
            && (s.outcome == OutInvalidPacket && !s.aired <==> c.ready && |payload| > c.limit)
            && (s.outcome == OutBusy && !s.aired <==> goes && !c.queueOn && Residual(e))
            && (s.outcome == OutOk && !s.aired <==> goes && c.queueOn && StartedWorker(e).running && A.Accepts(StartedWorker(e)))
            && (s.outcome == OutRadioError && !s.aired <==>
                  goes && if c.queueOn then !e.worker.running && !e.started
                          else !Residual(e) && !e.txBusy && Heard(c, e, ProbeError))
            && (s.outcome == OutChannelBusy && !s.aired <==>
                  goes && if c.queueOn then (e.worker.running || e.started) && !A.Accepts(StartedWorker(e))
                          else !Residual(e) && (e.txBusy || Heard(c, e, Pending) || (Heard(c, e, TimedOut) && !c.cad.sendAfterTimeout)))
            && (s.aired <==> goes && !c.queueOn && !Residual(e) && !e.txBusy && LetsThrough(c, e))
            && (s.aired ==> s.outcome == FromTxResult(e.sent))
  {
  }

  /** What listening before a direct send ended in; managed LoRa alone listens. */
  predicate Heard(c: Ctrl, e: Env, v: Verdict) {
    c.lora && c.managed && Listen(e.channel, e.rx, Required(c.cad.idleTicks), c.cad.waitTicks, 0).verdict == v
  }

  /** Listen before talk applies to managed LoRa only. */
  predicate LetsThrough(c: Ctrl, e: Env) {
    c.lora && c.managed ==>
      var v := Listen(e.channel, e.rx, Required(c.cad.idleTicks), c.cad.waitTicks, 0).verdict;
      v == Clear || (v == TimedOut && c.cad.sendAfterTimeout)
  }

  // ---- one packet ----------------------------------------------------------------------------

  /** How a packet is answered. */
  datatype Answer = Now(status: byte, flags: byte, seq_: nat) | Later(job: Job) | NoAnswer

  /** The answer, the handler's return value, and the result sequence after it. */
  datatype Packet = Packet(answer: Answer, ret: int, seq_: nat)

  predicate EmitsNow(resultOn: bool, deferred: bool, outcome: Outcome) {
    resultOn && (!deferred || outcome != OutOk)
  }

  function OutcomeCode(o: Outcome): int {
    FramedStatus(o)
  }

  function NextSeq(c: Ctrl, seq_: nat): nat {
    if c.resultOn then (seq_ + 1) % 0x1_0000 else seq_
  }

  /** daemon_framed_tx_packet, on the slot with this index and generation. */
  function TxPacket(c: Ctrl, e: Env, seq_: nat, slot: nat, generation: nat, payload: seq<byte>): Packet {
    var next := NextSeq(c, seq_);
    var t := Target(slot, generation, if c.resultOn then next else 0);
    var s := SendChunk(c, e, t, payload);
    if EmitsNow(c.resultOn, c.queueOn, s.outcome) then
      Packet(Now(FramedStatus(s.outcome), if c.managed then FLAG_MANAGED else 0, t.seq_), 0, next)
    else
      Packet(if s.job.Some? then Later(s.job.value) else NoAnswer, if c.resultOn then 0 else OutcomeCode(s.outcome), next)
  }

  /** With TXRESULT on, a packet has exactly one answer: a result now, or an accepted job
      carrying its sequence number, slot and generation; never both and never neither,
      and never an ERROR frame besides. */
  lemma ExactlyOneAnswer(c: Ctrl, e: Env, seq_: nat, slot: nat, generation: nat, payload: seq<byte>)
    requires c.resultOn
    ensures var p := TxPacket(c, e, seq_, slot, generation, payload);
            var s := SendChunk(c, e, Target(slot, generation, p.seq_), payload);
            && p.ret == 0
            && (p.answer.Now? <==> s.job.None?) && (p.answer.Later? <==> s.job.Some?)
            && (p.answer.Now? ==> p.answer.seq_ == p.seq_ && p.answer.status == FramedStatus(s.outcome))
            && (p.answer.Later? ==> && p.answer.job.seq_ == p.seq_ && p.answer.job.slot == slot
                                    && p.answer.job.generation == generation && p.answer.job.payload == payload)
            && p.seq_ == (seq_ + 1) % 0x1_0000
  {
    OkMeansAccepted(c, e, Target(slot, generation, (seq_ + 1) % 0x1_0000), payload);
  }

  /** With TXRESULT off, a failed packet is an ERROR frame. An accepted one is still answered,
      its job carrying the client's slot and sequence number 0. That happens if and only if the
      queue is on, the radio is ready, the packet is within its limit and the worker runs or can
      be started and has room. */
  lemma ResultsOffStillAnswers(c: Ctrl, e: Env, seq_: nat, slot: nat, generation: nat, payload: seq<byte>)
    requires !c.resultOn && c.limit <= MAX_RF_PAYLOAD
    ensures var p := TxPacket(c, e, seq_, slot, generation, payload);
            var s := SendChunk(c, e, Target(slot, generation, 0), payload);
            && (p.ret != 0 <==> s.outcome != OutOk)
            && (p.answer.Later? <==> && c.queueOn && c.ready && |payload| <= c.limit
                                     && (e.worker.running || e.started) && A.Accepts(StartedWorker(e)))
            && (p.answer.Later? ==> p.answer.job.seq_ == 0 && p.answer.job.slot == slot && p.answer.job.generation == generation)
            && !p.answer.Now? && p.seq_ == seq_
  {
    OkMeansAccepted(c, e, Target(slot, generation, 0), payload);
  }

  /** Such a completion is addressed to the client as long as its connection lasts. */
  lemma UnaskedCompletion(c: Ctrl, e: Env, seq_: nat, slots: seq<S.Slot>, slot: nat, payload: seq<byte>, o: Outcome)
    requires !c.resultOn && c.limit <= MAX_RF_PAYLOAD && slot < |slots| && S.Live(slots[slot])
    ensures var p := TxPacket(c, e, seq_, slot, slots[slot].generation, payload);
            p.answer.Later? ==> C.Addressed(slots, ResultOf(p.answer.job, o))
  {
    ResultsOffStillAnswers(c, e, seq_, slot, slots[slot].generation, payload);
  }

  const IDLE_WORKER := A.INIT.(running := true)

  /** One byte sent with TXRESULT off on a new connection: its completion leaves a TX_RESULT
      frame on that connection. */
  lemma UnaskedResultArrives(fd: int, rx: nat -> bool)
    requires fd >= 0
    ensures var c := Ctrl(true, false, true, true, false, MAX_RF_PAYLOAD, CAD_OFF);
            var slots := [S.SetFd(S.INIT, fd)];
            var p := TxPacket(c, Env(IDLE_WORKER, true, false, n => ProbeFree, rx, TxOk), 7, 0, slots[0].generation, [1]);
            && p.answer.Later?
            && C.Deliver(slots, ResultOf(p.answer.job, OutOk), [])[0].pending == [TX_RESULT, 4, 0, 0, FLAG_MANAGED, 0, 0]
  {
  }

  /** Listen before talk would time out, and the policy is to send all the same. */
  predicate SendsAfterTimeout(c: Ctrl, e: Env) {
    && c.lora && c.managed && c.cad.sendAfterTimeout
    && Listen(e.channel, e.rx, Required(c.cad.idleTicks), c.cad.waitTicks, 0).verdict == TimedOut
  }

  /** A result sent now misses the CAD-timeout flag if and only if the packet goes out on the
      direct path after a CAD timeout; a completion carries the flag exactly after one. Either
      carries the managed flag exactly in managed mode. */
  lemma TimeoutFlagOnlyLater(c: Ctrl, e: Env, seq_: nat, slot: nat, generation: nat, payload: seq<byte>, d: Decision, sent: TxResult)
    requires c.limit <= MAX_RF_PAYLOAD
    ensures var p := TxPacket(c, e, seq_, slot, generation, payload);
            var s := SendChunk(c, e, Target(slot, generation, if c.resultOn then p.seq_ else 0), payload);
            && (p.answer.Now? && p.answer.flags != (if c.managed then 1 else 0) + (if s.aired && SendsAfterTimeout(c, e) then 4 else 0) <==>
                  && c.resultOn && c.ready && |payload| <= c.limit
                  && !c.queueOn && !Residual(e) && !e.txBusy && SendsAfterTimeout(c, e))
            && (p.answer.Later? && p.answer.job.cad.enabled ==>
                  QueuedResult(p.answer.job, d, sent).flags
                  == 1 + if d.verdict == TimedOut && p.answer.job.cad.sendAfterTimeout then 4 else 0)
            && (p.answer.Later? && !p.answer.job.cad.enabled ==>
                  SentResult(p.answer.job, sent).flags == if c.managed then 1 else 0)
  {
    OkMeansAccepted(c, e, Target(slot, generation, if c.resultOn then NextSeq(c, seq_) else 0), payload);
  }

  /** One byte sent directly on a channel that stays busy, where the policy sends after the
      timeout: it is on the air, and its result carries the managed flag alone. */
  lemma TimeoutFlagMissing(rx: nat -> bool)
    requires !rx(0)
    ensures var c := Ctrl(true, true, false, true, true, MAX_RF_PAYLOAD, Cad(true, 1, 1, 0, true));
            var e := Env(IDLE_WORKER, true, false, n => ProbeBusy, rx, TxOk);
            && SendsAfterTimeout(c, e) && SendChunk(c, e, Target(0, 1, 8), [1]).aired
            && TxPacket(c, e, 7, 0, 1, [1]).answer == Now(0, FLAG_MANAGED, 8)
  {
  }

  // ---- a whole stream ------------------------------------------------------------------------------

  /** The answers given for a stream's events so far, and the sequence counter. */
  datatype Answered = Answered(answers: seq<Answer>, seq_: nat)

  /** `ctrl(n)` and `env(n)` are what the n-th event meets; CONF may switch between any two. */
  function AnswerOne(ctrl: nat -> Ctrl, env: nat -> Env, slot: nat, generation: nat -> nat, r: Answered, ev: P.Event): Answered {
    match ev
    case Tx(payload) =>
      var n := |r.answers|;
      var p := TxPacket(ctrl(n), env(n), r.seq_, slot, generation(n), payload);
      Answered(r.answers + [p.answer], p.seq_)
    case Problem(_) => r.(answers := r.answers + [NoAnswer])
  }

  function AnswerAll(ctrl: nat -> Ctrl, env: nat -> Env, slot: nat, generation: nat -> nat, r: Answered, log: seq<P.Event>): Answered {
    if log == [] then r
    else AnswerOne(ctrl, env, slot, generation, AnswerAll(ctrl, env, slot, generation, r, log[..|log| - 1]), log[|log| - 1])
  }

  /** The packet handler as the parser sees it: its return value after these events. */
  function HandlerOf(ctrl: nat -> Ctrl, env: nat -> Env, slot: nat, generation: nat -> nat, r: Answered): P.Handler {
    (log, payload) =>
      var now := AnswerAll(ctrl, env, slot, generation, r, log);
      TxPacket(ctrl(|now.answers|), env(|now.answers|), now.seq_, slot, generation(|now.answers|), payload).ret
  }

  function SeqOf(a: Answer): nat {
    match a
    case Now(_, _, q) => q
    case Later(job) => job.seq_
    case NoAnswer => 0
  }

  /** How many of the events are packets met with TXRESULT on. */
  function OnCount(ctrl: nat -> Ctrl, log: seq<P.Event>): nat {
    if log == [] then 0
    else
      var n := |log| - 1;
      OnCount(ctrl, log[..n]) + if log[n].Tx? && ctrl(n).resultOn then 1 else 0
  }

  /** The n-th event's answer: a packet met with TXRESULT on has one, carrying the next
      number; met with TXRESULT off it has none at once; a rejected frame has none. */
  predicate AnswersEvent(on: bool, number: nat, a: Answer, ev: P.Event) {
    && (ev.Tx? && on ==> (a.Now? || a.Later?) && SeqOf(a) == number)
    && (ev.Tx? && !on ==> !a.Now?)
    && (ev.Problem? ==> a.NoAnswer?)
  }

  predicate WellAnswered(ctrl: nat -> Ctrl, seq_: nat, log: seq<P.Event>, answers: seq<Answer>) {
    |answers| == |log|
    && (log != [] ==>
          var n := |log| - 1;
          && WellAnswered(ctrl, seq_, log[..n], answers[..n])
          && AnswersEvent(ctrl(n).resultOn, (seq_ + OnCount(ctrl, log)) % 0x1_0000, answers[n], log[n]))
  }

  /** Over any stream of any split, while CONF switches as it likes: the parser's events are
      the grammar's, every packet met with TXRESULT on has its one answer, the answers are
      numbered consecutively, and only a packet met with TXRESULT off is reported as failed. */
  lemma EveryPacketAnswered(ctrl: nat -> Ctrl, env: nat -> Env, slot: nat, generation: nat -> nat,
                            seq_: nat, reads_: seq<seq<byte>>)
    requires seq_ < 0x1_0000
    ensures var h := HandlerOf(ctrl, env, slot, generation, Answered([], seq_));
            var log := P.Frames([], P.Flatten(reads_), h);
            && P.FeedReads([], P.INIT, reads_, h).0 == log
            && WellAnswered(ctrl, seq_, log, AnswerAll(ctrl, env, slot, generation, Answered([], seq_), log).answers)
            && forall i | 0 <= i < |log| && log[i] == P.Problem(P.TxFailed) :: i > 0 && log[i - 1].Tx? && !ctrl(i - 1).resultOn
  {
    var h := HandlerOf(ctrl, env, slot, generation, Answered([], seq_));
    var log := P.Frames([], P.Flatten(reads_), h);
    P.AnySplitSameEvents(reads_, [], h);
    AnswersMatch(ctrl, env, slot, generation, seq_, log);
    P.FramesExplained([], P.Flatten(reads_), h);
    FailuresMetOff(ctrl, env, slot, generation, seq_, log);
  }

  lemma FailuresMetOff(ctrl: nat -> Ctrl, env: nat -> Env, slot: nat, generation: nat -> nat, seq_: nat, log: seq<P.Event>)
    requires seq_ < 0x1_0000
    requires P.FailuresExplained(log, HandlerOf(ctrl, env, slot, generation, Answered([], seq_)))
    ensures forall i | 0 <= i < |log| && log[i] == P.Problem(P.TxFailed) :: i > 0 && log[i - 1].Tx? && !ctrl(i - 1).resultOn
  {
    forall i | 0 <= i < |log| && log[i] == P.Problem(P.TxFailed) ensures i > 0 && log[i - 1].Tx? && !ctrl(i - 1).resultOn {
      assert P.ExplainedAt(log, HandlerOf(ctrl, env, slot, generation, Answered([], seq_)), i - 1);
      if ctrl(i - 1).resultOn {
        NoFailureReports(ctrl, env, slot, generation, seq_, log[..i - 1], log[i - 1].payload);
      }
    }
  }

  lemma {:induction false} AnswersMatch(ctrl: nat -> Ctrl, env: nat -> Env, slot: nat, generation: nat -> nat,
                                        seq_: nat, log: seq<P.Event>)
    requires seq_ < 0x1_0000
    ensures var r := AnswerAll(ctrl, env, slot, generation, Answered([], seq_), log);
            WellAnswered(ctrl, seq_, log, r.answers) && r.seq_ == (seq_ + OnCount(ctrl, log)) % 0x1_0000
  {
    if log != [] {
      var front, ev := log[..|log| - 1], log[|log| - 1];
      AnswersMatch(ctrl, env, slot, generation, seq_, front);
      var now := AnswerAll(ctrl, env, slot, generation, Answered([], seq_), front);
      var r := AnswerOne(ctrl, env, slot, generation, now, ev);
      assert r.answers[..|front|] == now.answers;
      OneMoreAnswer(ctrl, env, slot, generation, now, ev);
      ModPlusOne(seq_ + OnCount(ctrl, front));
    }
  }

  lemma OneMoreAnswer(ctrl: nat -> Ctrl, env: nat -> Env, slot: nat, generation: nat -> nat, now: Answered, ev: P.Event)
    ensures var r := AnswerOne(ctrl, env, slot, generation, now, ev);
            var n := |now.answers|;
            && |r.answers| == n + 1 && AnswersEvent(ctrl(n).resultOn, r.seq_, r.answers[n], ev)
            && r.seq_ == if ev.Tx? && ctrl(n).resultOn then (now.seq_ + 1) % 0x1_0000 else now.seq_
  {
    var n := |now.answers|;
    if ev.Tx? && ctrl(n).resultOn {
      ExactlyOneAnswer(ctrl(n), env(n), now.seq_, slot, generation(n), ev.payload);
    }
  }

  lemma ModPlusOne(x: nat)
    ensures (x % 0x1_0000 + 1) % 0x1_0000 == (x + 1) % 0x1_0000
  {
  }

  lemma NoFailureReports(ctrl: nat -> Ctrl, env: nat -> Env, slot: nat, generation: nat -> nat,
                         seq_: nat, log: seq<P.Event>, payload: seq<byte>)
    requires seq_ < 0x1_0000 && ctrl(|log|).resultOn
    ensures HandlerOf(ctrl, env, slot, generation, Answered([], seq_))(log, payload) == 0
  {
    AnswersMatch(ctrl, env, slot, generation, seq_, log);
    var now := AnswerAll(ctrl, env, slot, generation, Answered([], seq_), log);
    ExactlyOneAnswer(ctrl(|log|), env(|log|), now.seq_, slot, generation(|log|), payload);
  }

  // ---- in place ------------------------------------------------------------------------------------

  function ResultNow(a: Answer): seq<byte>
    requires a.Now? && U16(a.seq_)
  {
    Frame(TX_RESULT, [a.status, a.flags, Low(a.seq_), High(a.seq_)])
  }

  class TxContext {
    var resultSeq: nat
    var target: Target

    constructor ()
      ensures resultSeq == 0 && target == NO_TARGET
    {
      resultSeq, target := 0, NO_TARGET;
    }

    /** One TX packet of the client in slot i: the target is set for just this send, and a
        result due now is queued whole or closes the client. */
    method HandlePacket(c: Ctrl, e: Env, slots: array<S.Slot>, i: nat, payload: seq<byte>) returns (ret: int, answer: Answer)
      requires i < slots.Length && U16(resultSeq)
      modifies this, slots
      ensures Packet(answer, ret, resultSeq) == TxPacket(c, e, old(resultSeq), i, old(slots[i]).generation, payload)
      ensures target == NO_TARGET && U16(resultSeq) && (answer.Now? ==> U16(answer.seq_))
      ensures slots[..] == if answer.Now? then old(slots[..])[i := S.Queue(old(slots[i]), ResultNow(answer))] else old(slots[..])
    {
      var seq_ := 0;
      if c.resultOn {
        resultSeq := (resultSeq + 1) % 0x1_0000;
        seq_ := resultSeq;
      }
      target := Target(i, slots[i].generation, seq_);
      var s := SendChunk(c, e, target, payload);
      target := NO_TARGET;
      if EmitsNow(c.resultOn, c.queueOn, s.outcome) {
        answer := Now(FramedStatus(s.outcome), if c.managed then FLAG_MANAGED else 0, seq_);
        slots[i] := S.Queue(slots[i], ResultNow(answer));
        return 0, answer;
      }
      answer := if s.job.Some? then Later(s.job.value) else NoAnswer;
      ret := if c.resultOn then 0 else OutcomeCode(s.outcome);
    }
  }

  /** The slots, and how many completions found another connection on theirs. */
  datatype Drained = Drained(slots: seq<S.Slot>, stale: nat)

  function DrainOne(d: Drained, r: JobResult, sends: seq<Q.Send>): Drained
    requires U16(r.seq_)
  {
    Drained(C.Deliver(d.slots, r, sends), d.stale + if C.Stale(d.slots, r) then 1 else 0)
  }

  /** Deliver every waiting completion, in order; `sends(k)` is what the k-th one's flush
      meets. */
  function DrainAll(slots: seq<S.Slot>, rs: seq<JobResult>, sends: nat -> seq<Q.Send>): Drained
    requires forall r | r in rs :: U16(r.seq_)
  {
    if rs == [] then Drained(slots, 0)
    else
      var n := |rs| - 1;
      DrainOne(DrainAll(slots, rs[..n], sends), rs[n], sends(n))
  }

  /** The k-th completion found another connection on its slot when its turn came. */
  predicate StaleAt(slots: seq<S.Slot>, rs: seq<JobResult>, sends: nat -> seq<Q.Send>, k: nat)
    requires forall r | r in rs :: U16(r.seq_)
  {
    k < |rs| && C.Stale(DrainAll(slots, rs[..k], sends).slots, rs[k])
  }

  ghost function StaleOnes(slots: seq<S.Slot>, rs: seq<JobResult>, sends: nat -> seq<Q.Send>): set<nat>
    requires forall r | r in rs :: U16(r.seq_)
  {
    set k: nat | k < |rs| && StaleAt(slots, rs, sends, k)
  }

  /** Each such completion is counted once. */
  lemma {:induction false} StaleCounted(slots: seq<S.Slot>, rs: seq<JobResult>, sends: nat -> seq<Q.Send>)
    requires forall r | r in rs :: U16(r.seq_)
    ensures DrainAll(slots, rs, sends).stale == |StaleOnes(slots, rs, sends)|
  {
    if rs == [] {
      assert StaleOnes(slots, rs, sends) == {};
    } else {
      var n := |rs| - 1;
      var front := StaleOnes(slots, rs[..n], sends);
      StaleCounted(slots, rs[..n], sends);
      forall k: nat | k < n ensures StaleAt(slots, rs[..n], sends, k) == StaleAt(slots, rs, sends, k) {
        assert rs[..n][..k] == rs[..k] && rs[..n][k] == rs[k];
      }
      StaleMore(front, StaleOnes(slots, rs, sends), n, StaleAt(slots, rs, sends, n));
    }
  }

  lemma StaleMore(front: set<nat>, all: set<nat>, n: nat, last: bool)
    requires forall k: nat :: k in all <==> k in front || (k == n && last)
    requires n !in front
    ensures |all| == |front| + if last then 1 else 0
  {
    assert all == front + if last then {n} else {};
  }

  lemma DrainMore(slots: seq<S.Slot>, rs: seq<JobResult>, k: nat, sends: nat -> seq<Q.Send>)
    requires k < |rs| && forall r | r in rs :: U16(r.seq_)
    ensures U16(rs[k].seq_)
    ensures DrainAll(slots, rs[..k + 1], sends) == DrainOne(DrainAll(slots, rs[..k], sends), rs[k], sends(k))
  {
    assert rs[k] in rs && rs[..k + 1][..k] == rs[..k];
  }

  /** `stale` is what the runtime's stale counter grows by. */
  method DrainCompletions(queue: C.CompletionQueue, slots: array<S.Slot>, sends: nat -> seq<Q.Send>) returns (stale: nat)
    requires queue.Valid() && slots.Length > 0
    requires forall r | r in queue.View().entries :: U16(r.seq_)
    modifies queue, slots
    ensures queue.Valid() && queue.View() == old(queue.View()).(entries := [])
    ensures Drained(slots[..], stale) == DrainAll(old(slots[..]), old(queue.View().entries), sends)
  {
    ghost var all := queue.View().entries;
    var k := 0;
    stale := 0;
    var next := queue.Pop();
    while next.Some?
      invariant queue.Valid() && queue.View().dropped == old(queue.View().dropped)
      invariant 0 <= k <= |all| && (next.None? ==> k == |all|)
      invariant next.Some? ==> k < |all| && next.value == all[k] && queue.View().entries == all[k + 1..]
      invariant next.None? ==> queue.View().entries == []
      invariant Drained(slots[..], stale) == DrainAll(old(slots[..]), all[..k], sends)
      decreases |all| - k
    {
      DrainMore(old(slots[..]), all, k, sends);
      var rc := C.DeliverToSlot(slots, next.value, sends(k));
      if rc == C.STALE {
        stale := stale + 1;
      }
      k := k + 1;
      next := queue.Pop();
    }
    assert all[..k] == all;
  }

  // ---- the parser's state beside the slots -----------------------------------------------------------

  /** A slot and the parser state kept beside it. */
  datatype Conn = Conn(slot: S.Slot, state: P.State)

  datatype Read = NothingReady | ReadBytes(bytes: seq<byte>) | WouldBlockRead | ReadError | EndOfFile

  /** One slot's turn in the framed pass; `after` is what the callbacks made of the slot. */
  ghost function Pass(k: Conn, r: Read, h: P.Handler, after: S.Slot): Conn
    requires P.Valid(k.state)
  {
    if !S.Live(k.slot) then k.(state := P.INIT)
    else
      match r
      case ReadBytes(bytes) => Conn(after, P.Feed([], k.state, bytes, h).1)
      case ReadError => Conn(S.Close(k.slot), P.INIT)
      case EndOfFile => Conn(S.Close(k.slot), P.INIT)
      case _ => k
  }

  /** A pass that finds the slot empty, or closes it itself, leaves the state at rest: the
      next connection is then parsed as its own stream. */
  lemma PassResets(k: Conn, r: Read, h: P.Handler, after: S.Slot, h2: P.Handler)
    requires P.Valid(k.state) && (!S.Live(k.slot) || r.ReadError? || r.EndOfFile?)
    ensures forall bs :: P.Feed([], Pass(k, r, h, after).state, bs, h2).0 == P.Frames([], bs, h2)
  {
    P.FreshStreamNeedsRest(P.INIT, h2);
  }

  /** Closed elsewhere and accepted again before a pass, the slot's new connection may be
      parsed behind what the old one left: a completion that meets a dead socket after half
      a header is enough. */
  lemma StaleStateReachable(fd1: int, fd2: int, h: P.Handler)
    requires fd1 >= 0 && fd2 >= 0
    ensures exists r: JobResult, sends: seq<Q.Send>, bytes: seq<byte> ::
              && U16(r.seq_)
              && var connected := S.SetFd(S.INIT, fd1);
                 var k := Pass(Conn(connected, P.INIT), ReadBytes(bytes), h, connected);
                 var closed := C.DeliverTo(k.slot, r, sends);
                 var reopened := k.(slot := S.SetFd(closed, fd2));
                 && !S.Live(closed)
                 && exists bs :: P.Feed([], reopened.state, bs, h).0 != P.Frames([], bs, h)
  {
    var r := JobResult(0, 0, OutOk, TxOk, 0, 0);
    var sends, bytes: seq<byte> := [Q.Failed], [TX_PACKET];
    var connected := S.SetFd(S.INIT, fd1);
    assert bytes[..0] == [];
    assert P.Feed([], P.INIT, [], h).1 == P.INIT;
    var k := Pass(Conn(connected, P.INIT), ReadBytes(bytes), h, connected);
    assert k.state.header == [TX_PACKET];
    P.FreshStreamNeedsRest(k.state, h);
    var queued := S.Queue(connected, C.ResultFrame(r));
    assert queued.pending != [];
    assert sends[..0] == [] && Q.Flush(queued.pending, []) == Q.Flushed([], queued.pending, Q.Sending);
    assert Q.Flush(queued.pending, sends).going == Q.Dead;
    var closed := C.DeliverTo(k.slot, r, sends);
    assert !S.Live(closed);
  }
}
