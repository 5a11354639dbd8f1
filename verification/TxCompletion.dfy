/**
 * Completions (daemon_tx_completion.cpp): a ring of 16 that drops the oldest, filled by
 * the worker and drained by the main loop into the submitter's slot.
 */
module TxCompletion {
  import opened Prelude
  import opened TxJob
  import opened Ring
  import opened ClientOutputQueue
  import opened S = ClientSlot
  import FramedData

  const RESULTS: nat := 16

  datatype Completions = Completions(entries: seq<JobResult>, dropped: nat)

  function PushResult(c: Completions, r: JobResult): Completions {
    if |c.entries| >= RESULTS then Completions(c.entries[1..] + [r], c.dropped + 1)
    else c.(entries := c.entries + [r])
  }

  class CompletionQueue {
    const entries: array<JobResult>
    var head: nat
    var count: nat
    var dropped: nat

    ghost predicate Valid()
      reads this
    {
      entries.Length == RESULTS && head < RESULTS && count <= RESULTS
    }

    ghost function View(): Completions
      reads this, entries
      requires Valid()
    {
      Completions(Held(entries[..], head, count), dropped)
    }

    constructor (blank: JobResult)
      ensures Valid() && fresh(entries) && View() == Completions([], 0)
    {
      entries := new JobResult[RESULTS](_ => blank);
      head, count, dropped := 0, 0, 0;
    }

    method Push(r: JobResult)
      requires Valid()
      modifies this, entries
      ensures Valid() && View() == PushResult(old(View()), r)
    {
      if count >= RESULTS {
        PopHeld(entries[..], head, count);
        head := (head + 1) % RESULTS;
        count := count - 1;
        dropped := dropped + 1;
      }
      PushHeld(entries[..], head, count, r);
      ghost var was := entries[..];
      var at := (head + count) % RESULTS;
      entries[at] := r;
      assert entries[..] == was[at := r];
      count := count + 1;
    }

    method Pop() returns (r: Option<JobResult>)
      requires Valid()
      modifies this
      ensures Valid()
      ensures var was := old(View());
              if was.entries == [] then r == None && View() == was
              else r == Some(was.entries[0]) && View() == was.(entries := was.entries[1..])
    {
      if count == 0 {
        return None;
      }
      PopHeld(entries[..], head, count);
      r := Some(entries[head]);
      head := (head + 1) % RESULTS;
      count := count - 1;
    }
  }

  // ---- what is kept and what is lost ------------------------------------------------------

  datatype RingOp = OpPush(r: JobResult) | OpPop

  /** The ring beside all results ever pushed and the places in that list that were popped. */
  datatype Traffic = Traffic(c: Completions, pushed: seq<JobResult>, popped: seq<nat>)

  const EMPTY := Traffic(Completions([], 0), [], [])

  function Step(t: Traffic, op: RingOp): Traffic {
    match op
    case OpPush(r) => t.(c := PushResult(t.c, r), pushed := t.pushed + [r])
    case OpPop =>
      if t.c.entries == [] then t
      else t.(c := t.c.(entries := t.c.entries[1..]), popped := t.popped + [|t.popped| + t.c.dropped])
  }

  function Run(ops: seq<RingOp>): Traffic {
    if ops == [] then EMPTY else Step(Run(ops[..|ops| - 1]), ops[|ops| - 1])
  }

  predicate Conserved(t: Traffic) {
    && |t.c.entries| <= RESULTS
    && |t.pushed| == |t.popped| + |t.c.entries| + t.c.dropped
    && t.c.entries == t.pushed[|t.pushed| - |t.c.entries|..]
    && (forall i :: 0 <= i < |t.popped| ==> t.popped[i] < |t.popped| + t.c.dropped)
    && forall i, j :: 0 <= i < j < |t.popped| ==> t.popped[i] < t.popped[j]
  }

  /** The ring holds the newest results in order, every result pushed is popped, held or
      dropped exactly once, and pops come in push order. */
  lemma {:induction false} NewestInOrder(ops: seq<RingOp>)
    ensures Conserved(Run(ops))
  {
    if ops != [] {
      NewestInOrder(ops[..|ops| - 1]);
      StepConserves(Run(ops[..|ops| - 1]), ops[|ops| - 1]);
    }
  }

  lemma StepConserves(t: Traffic, op: RingOp)
    requires Conserved(t)
    ensures Conserved(Step(t, op))
    ensures op.OpPop? && t.c.entries != [] ==> t.c.entries[0] == t.pushed[|t.popped| + t.c.dropped]
    ensures Step(t, op).c.dropped > t.c.dropped ==> |t.c.entries| == RESULTS
  {
    var t1 := Step(t, op);
    if op.OpPush? {
      var from := |t.pushed| - |t.c.entries|;
      assert t1.pushed[from..] == t.pushed[from..] + [op.r];
      if |t.c.entries| >= RESULTS {
        assert t1.pushed[from + 1..] == t.pushed[from..][1..] + [op.r];
      }
    }
  }

  // ---- delivery ------------------------------------------------------------------------------

  const FAILED := -1
  const NOBODY := 0
  const DELIVERED := 1
  const STALE := 2

  function ResultFrame(r: JobResult): seq<byte>
    requires FramedData.U16(r.seq_)
  {
    FramedData.Frame(FramedData.TX_RESULT,
                     [FramedStatus(r.outcome), r.flags, FramedData.Low(r.seq_), FramedData.High(r.seq_)])
  }

  /** What a client reads in a TX_RESULT: the outcome's code, the flags and the packet's
      sequence number, the low byte first. */
  lemma ResultReadsBack(r: JobResult)
    requires FramedData.U16(r.seq_)
    ensures var f := ResultFrame(r);
            && |f| == 7 && f[0] == 4 && f[1] == 4 && f[2] == 0
            && f[3] == (match r.outcome
                        case OutOk => 0
                        case OutBusy => 1
                        case OutChannelBusy => 2
                        case OutRadioNotReady => 3
                        case OutRadioError => 4
                        case OutInvalidPacket => 5
                        case OutInvalidBand => 6)
            && f[4] == r.flags && FramedData.Read16(f[5], f[6]) == r.seq_
  {
    FramedData.SixteenBits(r.seq_);
  }

  /** Who a completion goes to, if anyone: a live slot whose generation is the job's. */
  predicate Addressed(slots: seq<Slot>, r: JobResult) {
    && 0 <= r.slot < |slots| && Live(slots[r.slot])
    && (r.generation == 0 || slots[r.slot].generation == r.generation)
  }

  /** A completion whose slot lives, but for another connection. */
  predicate Stale(slots: seq<Slot>, r: JobResult) {
    && 0 <= r.slot < |slots| && Live(slots[r.slot])
    && r.generation !in {0, slots[r.slot].generation}
  }

  /** A completion whose slot lives is either that connection's or stale; one without a live
      slot is neither. */
  lemma AddressedOrStale(slots: seq<Slot>, r: JobResult)
    ensures Addressed(slots, r) || Stale(slots, r) <==> 0 <= r.slot < |slots| && Live(slots[r.slot])
    ensures !(Addressed(slots, r) && Stale(slots, r))
  {
  }

  function DeliverTo(s: Slot, r: JobResult, sends: seq<Send>): Slot
    requires FramedData.U16(r.seq_)
  {
    if !Fits(s, ResultFrame(r)) then Close(s) else FlushOutput(Queue(s, ResultFrame(r)), sends)
  }

  function Deliver(slots: seq<Slot>, r: JobResult, sends: seq<Send>): seq<Slot>
    requires FramedData.U16(r.seq_)
  {
    if Addressed(slots, r) then slots[r.slot := DeliverTo(slots[r.slot], r, sends)] else slots
  }

  method DeliverToSlot(slots: array<Slot>, r: JobResult, sends: seq<Send>) returns (rc: int)
    requires FramedData.U16(r.seq_)
    modifies slots
    ensures slots[..] == Deliver(old(slots[..]), r, sends)
    ensures rc == DELIVERED <==> Addressed(old(slots[..]), r) && Fits(old(slots[r.slot]), ResultFrame(r))
    ensures rc == STALE <==> Stale(old(slots[..]), r)
  {
    if slots.Length == 0 {
      return FAILED;
    }
    var idx := r.slot;
    if idx == SLOT_NONE || idx < 0 || idx >= slots.Length || !Live(slots[idx]) {
      return NOBODY;
    }
    if r.generation != 0 && slots[idx].generation != r.generation {
      return STALE;
    }
    var frame := new byte[FramedData.HEADER_LEN + FramedData.TX_RESULT_LEN](_ => 0);
    var _ := FramedData.EncodeTxResult(frame, FramedStatus(r.outcome), r.flags, r.seq_);
    assert frame[..] == frame[..FramedData.HEADER_LEN + FramedData.TX_RESULT_LEN] == ResultFrame(r);
    if !Fits(slots[idx], frame[..]) {
      slots[idx] := Close(slots[idx]);
      return FAILED;
    }
    slots[idx] := FlushOutput(Queue(slots[idx], frame[..]), sends);
    rc := DELIVERED;
  }

  /** A completion reaches the connection that submitted its job and no other: if the job
      was submitted under the slot's generation then, and fewer than 2^32 - 1 generation
      changes happened since, being addressed now means the very same connection. */
  lemma RightClient(slots: seq<Slot>, r: JobResult, submitted: S.Track, since: seq<S.Op>)
    requires ValidGeneration(submitted.slot.generation) && r.generation == submitted.slot.generation
    requires 0 <= r.slot < |slots| && slots[r.slot] == S.Run(submitted, since).slot
    requires S.Run(submitted, since).changes - submitted.changes < GENERATIONS
    ensures Addressed(slots, r) ==> Live(submitted.slot) && SameConnection(submitted, S.Run(submitted, since))
    ensures S.Run(submitted, since).changes == submitted.changes && Live(submitted.slot) ==> Addressed(slots, r)
  {
    GenerationsCount(submitted, since);
    if Addressed(slots, r) {
      EqualGenerationSameConnection(submitted, since);
    }
  }
}
