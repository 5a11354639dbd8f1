/**
 * One client's slot (client_slot.cpp): its socket, its generation and its output. What a
 * live connection has been sent, followed by what is pending, is at any time the
 * concatenation of the whole frames queued for it.
 */
module ClientSlot {
  import opened Prelude
  import opened ClientOutputQueue
  import opened ConfigStream
  import opened FramedData

  const NO_FD := -1
  const GENERATIONS: nat := 0xFFFF_FFFF

  /** `wire` is what the kernel has accepted on the slot's present connection. */
  datatype Slot = Slot(fd: int, generation: nat, pending: seq<byte>, wire: seq<byte>)

  const INIT := Slot(NO_FD, 1, [], [])

  predicate Live(s: Slot) {
    s.fd >= 0
  }

  /** The 32-bit generation counts up and skips 0. */
  function NextGeneration(g: nat): nat {
    var up := (g + 1) % 0x1_0000_0000;
    if up != 0 then up else 1
  }

  function SetFd(s: Slot, fd: int): Slot {
    Slot(fd, NextGeneration(s.generation), [], [])
  }

  function Close(s: Slot): Slot {
    Slot(NO_FD, NextGeneration(s.generation), [], [])
  }

  predicate Fits(s: Slot, bytes: seq<byte>) {
    |s.pending| + |bytes| <= OUTPUT_BYTES
  }

  /** Append, or close the slot when the bytes do not fit. */
  function Queue(s: Slot, bytes: seq<byte>): Slot {
    if Fits(s, bytes) then s.(pending := s.pending + bytes) else Close(s)
  }

  function FlushOutput(s: Slot, sends: seq<Send>): Slot {
    if !Live(s) then s.(pending := [])
    else
      var f := Flush(s.pending, sends);
      if f.going == Dead then Close(s) else s.(pending := f.rest, wire := s.wire + f.sent)
  }

  /** One slot's part of a broadcast. */
  function BroadcastTo(s: Slot, bytes: seq<byte>, sends: seq<Send>): Slot {
    if bytes == [] then s
    else if !Live(s) then s.(pending := [])
    else if !Fits(s, bytes) then Close(s)
    else FlushOutput(Queue(s, bytes), sends)
  }

  const MAX_ERROR_TEXT: nat := 255

  function ErrorText(msg: seq<byte>): seq<byte> {
    msg[..Min(|msg|, MAX_ERROR_TEXT)]
  }

  function ErrorFrame(msg: seq<byte>): seq<byte> {
    Frame(ERROR, ErrorText(msg))
  }

  // ---- whole frames only ------------------------------------------------------------------

  /** What happens to a slot. */
  datatype Op =
    | OpSetFd(fd: int)
    | OpClose
    | OpQueue(frame: seq<byte>)
    | OpQueueError(msg: seq<byte>)
    | OpFlush(sends: seq<Send>)
    | OpBroadcast(bytes: seq<byte>, sends: seq<Send>)

  /** An ERROR frame goes in as two appends, header and text; either failing closes. */
  function QueueError(s: Slot, msg: seq<byte>): Slot {
    var header, text := Header(ERROR, |ErrorText(msg)|), ErrorText(msg);
    if !Fits(s, header) then Close(s)
    else
      var s1 := Queue(s, header);
      if text == [] then s1 else if Fits(s1, text) then Queue(s1, text) else Close(s1)
  }

  function Step(s: Slot, op: Op): Slot {
    match op
    case OpSetFd(fd) => SetFd(s, fd)
    case OpClose => Close(s)
    case OpQueue(frame) => Queue(s, frame)
    case OpQueueError(msg) => QueueError(s, msg)
    case OpFlush(sends) => FlushOutput(s, sends)
    case OpBroadcast(bytes, sends) => BroadcastTo(s, bytes, sends)
  }

  /** The frames offered to the slot since its socket was last set, and how often its
      generation has changed. */
  datatype Track = Track(slot: Slot, offered: seq<seq<byte>>, changes: nat)

  function Offered(offered: seq<seq<byte>>, op: Op): seq<seq<byte>> {
    match op
    case OpSetFd(_) => []
    case OpQueue(frame) => offered + [frame]
    case OpQueueError(msg) => offered + [ErrorFrame(msg)]
    case OpBroadcast(bytes, _) => offered + [bytes]
    case _ => offered
  }

  function StepTrack(t: Track, op: Op): Track {
    var s := Step(t.slot, op);
    Track(s, Offered(t.offered, op), if s.generation == t.slot.generation then t.changes else t.changes + 1)
  }

  function Run(t: Track, ops: seq<Op>): Track {
    if ops == [] then t else StepTrack(Run(t, ops[..|ops| - 1]), ops[|ops| - 1])
  }

  function Concat(frames: seq<seq<byte>>): seq<byte> {
    if frames == [] then [] else Concat(frames[..|frames| - 1]) + frames[|frames| - 1]
  }

  lemma ConcatMore(frames: seq<seq<byte>>, frame: seq<byte>)
    ensures Concat(frames + [frame]) == Concat(frames) + frame
  {
    assert (frames + [frame])[..|frames|] == frames;
  }

  /** A live connection has been sent, and will be sent, whole frames in order. */
  predicate WholeFrames(t: Track) {
    && |t.slot.pending| <= OUTPUT_BYTES
    && (Live(t.slot) ==> t.slot.wire + t.slot.pending == Concat(t.offered))
  }

  lemma QueueKeeps(s: Slot, offered: seq<seq<byte>>, frame: seq<byte>)
    requires Live(s) && s.wire + s.pending == Concat(offered)
    ensures var s1 := Queue(s, frame);
            Live(s1) ==> s1.wire + s1.pending == Concat(offered + [frame])
  {
    ConcatMore(offered, frame);
    assert s.wire + (s.pending + frame) == (s.wire + s.pending) + frame;
  }

  lemma FlushKeeps(s: Slot, sends: seq<Send>)
    requires |s.pending| <= OUTPUT_BYTES
    ensures var s1 := FlushOutput(s, sends);
            && |s1.pending| <= OUTPUT_BYTES
            && (Live(s1) ==> s1.wire + s1.pending == s.wire + s.pending && s1.fd == s.fd && s1.generation == s.generation)
  {
    var f := Flush(s.pending, sends);
    assert s.wire + f.sent + f.rest == s.wire + (f.sent + f.rest);
  }

  lemma QueueErrorIsQueue(s: Slot, msg: seq<byte>)
    requires |s.pending| <= OUTPUT_BYTES
    ensures QueueError(s, msg) == Queue(s, ErrorFrame(msg))
  {
    var header, text := Header(ERROR, |ErrorText(msg)|), ErrorText(msg);
    assert s.pending + (header + text) == s.pending + header + text;
  }

  lemma StepKeeps(t: Track, op: Op)
    requires WholeFrames(t)
    ensures WholeFrames(StepTrack(t, op))
  {
    var s := t.slot;
    match op
    case OpQueue(frame) =>
      if Live(s) { QueueKeeps(s, t.offered, frame); }
    case OpQueueError(msg) =>
      QueueErrorIsQueue(s, msg);
      if Live(s) { QueueKeeps(s, t.offered, ErrorFrame(msg)); }
    case OpFlush(sends) =>
      FlushKeeps(s, sends);
    case OpBroadcast(bytes, sends) =>
      if Live(s) {
        QueueKeeps(s, t.offered, bytes);
        if Fits(s, bytes) { FlushKeeps(Queue(s, bytes), sends); }
      }
    case OpSetFd(fd) =>
    case OpClose =>
  }

  /** In every run: bytes sent plus bytes pending are exactly the frames offered since the
      connection was set, so the peer has a prefix of whole frames; a failed append never
      leaves a live connection with a frame missing or cut. */
  lemma {:induction false} OnlyWholeFrames(t: Track, ops: seq<Op>)
    requires WholeFrames(t)
    ensures WholeFrames(Run(t, ops))
    ensures var t1 := Run(t, ops); Live(t1.slot) ==> t1.slot.wire <= Concat(t1.offered)
  {
    if ops != [] {
      OnlyWholeFrames(t, ops[..|ops| - 1]);
      StepKeeps(Run(t, ops[..|ops| - 1]), ops[|ops| - 1]);
    }
    var t1 := Run(t, ops);
    if Live(t1.slot) { assert t1.slot.wire <= t1.slot.wire + t1.slot.pending; }
  }

  // ---- when a connection ends ---------------------------------------------------------------

  /** A live connection survives exactly when nothing ends it: a frame that does not fit, a
      failed send, a close, or another socket; and then it has what it was given. */
  lemma SurvivesExactly(s: Slot, op: Op)
    requires Live(s) && |s.pending| <= 65536
    ensures var s1 := Step(s, op);
            match op
            case OpSetFd(fd) => s1.fd == fd && s1.generation == NextGeneration(s.generation) && s1.pending == s1.wire == []
            case OpClose => Ended(s, s1)
            case OpQueue(frame) => if |s.pending| + |frame| <= 65536 then s1 == s.(pending := s.pending + frame) else Ended(s, s1)
            case OpQueueError(msg) =>
              var frame := ErrorFrame(msg);
              if |s.pending| + |frame| <= 65536 then s1 == s.(pending := s.pending + frame) else Ended(s, s1)
            case OpFlush(sends) => Sent(s, s.pending, sends, s1)
            case OpBroadcast(bytes, sends) =>
              if bytes == [] then s1 == s
              else if |s.pending| + |bytes| <= 65536 then Sent(s, s.pending + bytes, sends, s1) else Ended(s, s1)
  {
    if op.OpQueueError? { QueueErrorIsQueue(s, op.msg); }
  }

  predicate Ended(s: Slot, s1: Slot) {
    !Live(s1) && s1.generation != s.generation && s1.pending == s1.wire == []
  }

  /** A slot without a client holds nothing back: a flush or a broadcast empties it. */
  lemma NobodyHoldsNothing(s: Slot, bytes: seq<byte>, sends: seq<Send>)
    requires !Live(s)
    ensures FlushOutput(s, sends) == s.(pending := [])
    ensures BroadcastTo(s, bytes, sends) == if bytes == [] then s else s.(pending := [])
  {
  }

  /** What was to be sent is on the wire or still pending, or the connection is dead. */
  predicate Sent(s: Slot, pending: seq<byte>, sends: seq<Send>, s1: Slot) {
    var f := Flush(pending, sends);
    if f.going == Dead then Ended(s, s1) else s1 == s.(pending := f.rest, wire := s.wire + f.sent)
  }

  /** An ERROR frame says the message, cut to 255 bytes. */
  lemma ErrorFrameSays(msg: seq<byte>)
    ensures var f, n := ErrorFrame(msg), Min(|msg|, 255);
            |f| == 3 + n && f[0] == 3 && f[1] == n && f[2] == 0 && f[3..] == msg[..n]
  {
  }

  // ---- generations ------------------------------------------------------------------------

  predicate ValidGeneration(g: nat) {
    1 <= g <= GENERATIONS
  }

  function GenerationAfter(g: nat, changes: nat): nat {
    (g - 1 + changes) % GENERATIONS + 1
  }

  lemma NextIsAfter(g: nat, n: nat)
    requires ValidGeneration(g)
    ensures NextGeneration(GenerationAfter(g, n)) == GenerationAfter(g, n + 1)
    ensures NextGeneration(GenerationAfter(g, n)) != GenerationAfter(g, n)
  {
    var a := g - 1 + n;
    assert (a + 1) % GENERATIONS == if a % GENERATIONS == GENERATIONS - 1 then 0 else a % GENERATIONS + 1;
  }

  /** A generation comes back exactly after a multiple of 2^32 - 1 changes. */
  lemma GenerationComesBack(g: nat, n: nat)
    requires ValidGeneration(g)
    ensures GenerationAfter(g, n) == g <==> n % GENERATIONS == 0
  {
    var a, q := g - 1, n / GENERATIONS;
    var r := n - q * GENERATIONS;
    assert (a + n) % GENERATIONS == (a + r) % GENERATIONS by {
      assert a + n == (a + r) + q * GENERATIONS;
    }
    assert a + r < 2 * GENERATIONS;
  }

  /** A step without a generation change keeps the connection and all it was sent. */
  lemma SameGenerationSameStep(s: Slot, op: Op)
    requires ValidGeneration(s.generation)
    ensures var s1 := Step(s, op);
            && s1.generation in {s.generation, NextGeneration(s.generation)}
            && (s1.generation == s.generation ==> s1.fd == s.fd && s.wire <= s1.wire && !op.OpSetFd?)
  {
    NextIsAfter(s.generation, 0);
    assert GenerationAfter(s.generation, 0) == s.generation;
  }

  /** How a slot's present state relates to an earlier one: its generation counts the changes
      in between, and without one it is still the same connection. */
  predicate Since(t: Track, t1: Track) {
    && t.changes <= t1.changes
    && t1.slot.generation == GenerationAfter(t.slot.generation, t1.changes - t.changes)
    && (t1.changes == t.changes ==> SameConnection(t, t1))
  }

  lemma StepSince(t: Track, t1: Track, op: Op)
    requires ValidGeneration(t.slot.generation) && Since(t, t1)
    ensures ValidGeneration(t1.slot.generation) && Since(t, StepTrack(t1, op))
  {
    SameGenerationSameStep(t1.slot, op);
    NextIsAfter(t.slot.generation, t1.changes - t.changes);
  }

  lemma {:induction false} GenerationsCount(t: Track, ops: seq<Op>)
    requires ValidGeneration(t.slot.generation)
    ensures Since(t, Run(t, ops)) && ValidGeneration(Run(t, ops).slot.generation)
  {
    if ops != [] {
      GenerationsCount(t, ops[..|ops| - 1]);
      StepSince(t, Run(t, ops[..|ops| - 1]), ops[|ops| - 1]);
    }
  }

  predicate SameConnection(t: Track, t1: Track) {
    t1.slot.fd == t.slot.fd && t.slot.wire <= t1.slot.wire && t.offered <= t1.offered
  }

  /** An equal generation means the same connection, as long as fewer than 2^32 - 1
      changes happened in between. */
  lemma EqualGenerationSameConnection(t: Track, ops: seq<Op>)
    requires ValidGeneration(t.slot.generation)
    requires Run(t, ops).slot.generation == t.slot.generation
    requires Run(t, ops).changes - t.changes < GENERATIONS
    ensures SameConnection(t, Run(t, ops))
  {
    GenerationsCount(t, ops);
    GenerationComesBack(t.slot.generation, Run(t, ops).changes - t.changes);
  }

  // ---- the slot in place ------------------------------------------------------------------

  class ClientSlot {
    var fd: int
    var generation: nat
    const output: OutputQueue
    const stream: StreamBuffer
    ghost var wire: seq<byte>

    ghost predicate Valid()
      reads this, output, stream
    {
      output.Valid() && stream.Valid()
    }

    ghost function View(): Slot
      reads this, output, output.data
      requires output.Valid()
    {
      Slot(fd, generation, output.Contents(), wire)
    }

    constructor ()
      ensures Valid() && View() == INIT && stream.Buf() == []
      ensures fresh(output) && fresh(output.data) && fresh(stream) && fresh(stream.line)
    {
      fd, generation, wire := NO_FD, 1, [];
      output := new OutputQueue();
      stream := new StreamBuffer();
    }

    method SetSocket(newFd: int)
      requires Valid()
      modifies this, output, stream`len
      ensures Valid() && View() == SetFd(old(View()), newFd) && stream.Buf() == []
    {
      fd := newFd;
      generation := NextGeneration(generation);
      output.Reset();
      stream.Init();
      wire := [];
    }

    method CloseSocket()
      requires Valid()
      modifies this, output, stream`len
      ensures Valid() && View() == Close(old(View())) && stream.Buf() == []
    {
      fd := NO_FD;
      generation := NextGeneration(generation);
      output.Reset();
      stream.Init();
      wire := [];
    }

    method QueueBytes(bytes: seq<byte>)
      requires Valid()
      modifies this, output, output.data, stream`len
      ensures Valid() && View() == Queue(old(View()), bytes)
    {
      var ok := output.Append(bytes);
      if !ok {
        CloseSocket();
      }
    }

    method QueueErrorFrame(msg: seq<byte>)
      requires Valid()
      modifies this, output, output.data, stream`len
      ensures Valid() && View() == QueueError(old(View()), msg)
    {
      var text := ErrorText(msg);
      var ok := output.Append(Header(ERROR, |text|));
      if ok && |text| > 0 {
        ok := output.Append(text);
      }
      if !ok {
        CloseSocket();
      }
    }

    method FlushSocket(sends: seq<Send>)
      requires Valid()
      modifies this, output, output.data, stream`len
      ensures Valid() && View() == FlushOutput(old(View()), sends)
    {
      if fd < 0 {
        output.Reset();
        return;
      }
      var total, sent := output.FlushTo(sends);
      wire := wire + sent;
      if total < 0 {
        CloseSocket();
      }
    }
  }

  // ---- the slots of one channel -----------------------------------------------------------

  /** A new connection takes the first free slot, or none. */
  method AddClient(slots: array<Slot>, fd: int) returns (added: bool)
    modifies slots
    ensures added <==> exists i :: 0 <= i < slots.Length && !Live(old(slots[i]))
    ensures added ==> exists i :: 0 <= i < slots.Length && FirstFree(old(slots[..]), i)
                                  && slots[..] == old(slots[..])[i := SetFd(old(slots[i]), fd)]
    ensures !added ==> slots[..] == old(slots[..])
  {
    var i := 0;
    while i < slots.Length
      invariant 0 <= i <= slots.Length && slots[..] == old(slots[..])
      invariant forall j :: 0 <= j < i ==> Live(slots[j])
    {
      if !Live(slots[i]) {
        assert FirstFree(old(slots[..]), i);
        slots[i] := SetFd(slots[i], fd);
        return true;
      }
      i := i + 1;
    }
    added := false;
  }

  predicate FirstFree(slots: seq<Slot>, i: nat) {
    i < |slots| && !Live(slots[i]) && forall j :: 0 <= j < i ==> Live(slots[j])
  }

  /** Every slot gets its own part of a broadcast, whatever becomes of the others. */
  method Broadcast(slots: array<Slot>, bytes: seq<byte>, sends: nat -> seq<Send>)
    modifies slots
    ensures forall i :: 0 <= i < slots.Length ==> slots[i] == BroadcastTo(old(slots[i]), bytes, sends(i))
  {
    if |bytes| == 0 {
      return;
    }
    var i := 0;
    while i < slots.Length
      invariant 0 <= i <= slots.Length
      invariant forall j :: 0 <= j < i ==> slots[j] == BroadcastTo(old(slots[j]), bytes, sends(j))
      invariant forall j :: i <= j < slots.Length ==> slots[j] == old(slots[j])
    {
      if !Live(slots[i]) {
        slots[i] := slots[i].(pending := []);
      } else if !Fits(slots[i], bytes) {
        slots[i] := Close(slots[i]);
      } else {
        slots[i] := FlushOutput(Queue(slots[i], bytes), sends(i));
      }
      i := i + 1;
    }
  }
}
