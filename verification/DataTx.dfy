/**
 * Raw DATA input to TX jobs (data_tx.cpp, data_tx_queue_capacity_bytes): a read no larger
 * than the queue has room for, cut into chunks of what the radio takes.
 */
module DataTx {
  import opened Prelude
  import opened TxJob
  import opened TxAsync
  import TxQueue

  const MAX_CHUNK: nat := 255
  const READ_BUFFER: nat := 2048

  function ChunkLimit(limit: nat): (l: nat)
    ensures 1 <= l <= MAX_CHUNK && (1 <= limit <= MAX_CHUNK ==> l == limit)
  {
    if limit == 0 || limit > MAX_CHUNK then MAX_CHUNK else limit
  }

  function ChunkSize(remaining: nat, limit: nat): nat {
    if remaining > ChunkLimit(limit) then ChunkLimit(limit) else remaining
  }

  /** The bytes as the radio gets them. */
  function Chunks(bytes: seq<byte>, limit: nat): seq<seq<byte>>
    decreases |bytes|
  {
    if bytes == [] then []
    else
      var n := ChunkSize(|bytes|, limit);
      [bytes[..n]] + Chunks(bytes[n..], limit)
  }

  /** Chunks are never empty, never too long, and are exactly the bytes. */
  lemma {:induction false} ChunksAreTheBytes(bytes: seq<byte>, limit: nat)
    ensures Join(Chunks(bytes, limit)) == bytes
    ensures forall c | c in Chunks(bytes, limit) :: 0 < |c| <= ChunkLimit(limit)
    decreases |bytes|
  {
    if bytes != [] {
      var n := ChunkSize(|bytes|, limit);
      ChunksAreTheBytes(bytes[n..], limit);
      assert bytes == bytes[..n] + bytes[n..];
    }
  }

  function Join(chunks: seq<seq<byte>>): seq<byte> {
    if chunks == [] then [] else chunks[0] + Join(chunks[1..])
  }

  /** As few as the limit allows. */
  lemma {:induction false} ChunkCount(bytes: seq<byte>, limit: nat)
    ensures var n, l := |Chunks(bytes, limit)|, ChunkLimit(limit);
            |bytes| <= n * l < |bytes| + l
    decreases |bytes|
  {
    if bytes != [] {
      var n, l := ChunkSize(|bytes|, limit), ChunkLimit(limit);
      ChunkCount(bytes[n..], limit);
      var k := |Chunks(bytes[n..], limit)|;
      assert (k + 1) * l == k * l + l;
      if |bytes| <= l {
        assert Chunks(bytes[n..], limit) == [];
      }
    }
  }

  // ---- what the queue has room for ------------------------------------------------------------

  /** None: the direct path sends at once, without a bound. */
  function CapacityBytes(queueOn: bool, pending: nat, limit: nat): Option<nat> {
    if !queueOn then None
    else if pending >= TxQueue.JOBS then Some(0)
    else Some((TxQueue.JOBS - pending) * limit)
  }

  function ReadLimit(queueOn: bool, pending: nat, limit: nat): nat {
    Min(READ_BUFFER, CapacityBytes(queueOn, pending, limit).GetOr(READ_BUFFER))
  }

  /** A read within the capacity never needs more jobs than there is room for. */
  lemma ReadFits(bytes: seq<byte>, pending: nat, limit: nat)
    requires pending <= TxQueue.JOBS && 1 <= limit <= MAX_CHUNK
    requires |bytes| <= ReadLimit(true, pending, limit)
    ensures |Chunks(bytes, limit)| <= TxQueue.JOBS - pending
  {
    ChunkCount(bytes, limit);
    AtMost(|Chunks(bytes, limit)|, TxQueue.JOBS - pending, limit);
  }

  /** And no read within the buffer could be larger: one byte more would need more jobs than
      there is room for. The direct path reads as much as the buffer holds. */
  lemma ReadIsLargest(bytes: seq<byte>, pending: nat, limit: nat)
    requires pending <= 8 && 1 <= limit <= MAX_CHUNK
    requires ReadLimit(true, pending, limit) < |bytes| <= 2048
    ensures |Chunks(bytes, limit)| > 8 - pending
    ensures ReadLimit(false, pending, limit) == 2048
  {
    ChunkCount(bytes, limit);
    var n, room := |Chunks(bytes, limit)|, 8 - pending;
    if n <= room { ProductFewer(n, room, limit); }
  }

  lemma ProductFewer(n: nat, room: nat, limit: nat)
    requires n <= room
    ensures n * limit <= room * limit
  {
    NotNegative(room - n, limit);
    assert room * limit == n * limit + (room - n) * limit;
  }

  lemma AtMost(n: nat, room: nat, limit: nat)
    requires n * limit < room * limit + limit
    ensures n <= room
  {
    assert (n - room - 1) * limit == n * limit - room * limit - limit;
    if n - room - 1 >= 0 {
      NotNegative(n - room - 1, limit);
    }
  }

  lemma NotNegative(a: nat, b: nat)
    ensures a * b >= 0
  {
  }

  /** The worker takes up to `takes(i)` jobs before the i-th is submitted. */
  function TakeSome(a: Async, n: nat): Async
    decreases n
  {
    if n == 0 || a.queue == [] then a else TakeSome(Take(a), n - 1)
  }

  function SubmitAll(a: Async, jobs: seq<Job>, takes: nat -> nat): Async {
    if jobs == [] then a
    else
      var n := |jobs| - 1;
      Submit(TakeSome(SubmitAll(a, jobs[..n], takes), takes(n)), jobs[n])
  }

  lemma {:induction false} TakingFrees(a: Async, n: nat)
    ensures var b := TakeSome(a, n); |b.queue| <= |a.queue| && b.n == a.n && b.stop == a.stop
    decreases n
  {
    if n > 0 && a.queue != [] {
      TakingFrees(Take(a), n - 1);
    }
  }

  /** Whatever the worker takes meanwhile, every job of a fitting read is accepted. */
  lemma {:induction false} EveryChunkAccepted(a: Async, jobs: seq<Job>, takes: nat -> nat)
    requires !a.stop && |jobs| + |a.queue| <= TxQueue.JOBS
    ensures var b := SubmitAll(a, jobs, takes);
            && b.n == a.n.(accepted := a.n.accepted + |jobs|)
            && |b.queue| <= |a.queue| + |jobs| && b.stop == a.stop
  {
    if jobs != [] {
      var n := |jobs| - 1;
      EveryChunkAccepted(a, jobs[..n], takes);
      TakingFrees(SubmitAll(a, jobs[..n], takes), takes(n));
    }
  }

  /** From the read to the queue: none of the bytes of a bounded read is refused. */
  lemma BoundedReadAccepted(a: Async, bytes: seq<byte>, limit: nat, jobs: seq<Job>, takes: nat -> nat)
    requires !a.stop && |a.queue| <= TxQueue.JOBS && 1 <= limit <= MAX_CHUNK
    requires |bytes| <= ReadLimit(true, |a.queue|, limit)
    requires |jobs| == |Chunks(bytes, limit)|
    requires forall i | 0 <= i < |jobs| :: jobs[i].payload == Chunks(bytes, limit)[i]
    ensures SubmitAll(a, jobs, takes).n == a.n.(accepted := a.n.accepted + |jobs|)
    ensures Payloads(jobs) == bytes
  {
    ReadFits(bytes, |a.queue|, limit);
    EveryChunkAccepted(a, jobs, takes);
    ChunksAreTheBytes(bytes, limit);
    PayloadsAre(jobs, Chunks(bytes, limit));
  }

  function Payloads(jobs: seq<Job>): seq<byte> {
    if jobs == [] then [] else jobs[0].payload + Payloads(jobs[1..])
  }

  lemma {:induction false} PayloadsAre(jobs: seq<Job>, chunks: seq<seq<byte>>)
    requires |jobs| == |chunks| && forall i | 0 <= i < |jobs| :: jobs[i].payload == chunks[i]
    ensures Payloads(jobs) == Join(chunks)
    decreases |jobs|
  {
    if jobs != [] {
      PayloadsAre(jobs[1..], chunks[1..]);
    }
  }

  /** Were the capacity counted in 255-byte slots while chunks are cut to 63, one read
      would overrun the queue. */
  lemma OneLimitForBoth()
    ensures exists bytes: seq<byte> :: |bytes| <= ReadLimit(true, 0, 255) && |Chunks(bytes, 63)| > TxQueue.JOBS
  {
    var bytes: seq<byte> := seq(2040, i => 0);
    ChunkCount(bytes, 63);
    assert |bytes| <= ReadLimit(true, 0, 255);
  }

  // ---- the loops ----------------------------------------------------------------------------------

  /** Hands over chunk after chunk until one is refused: `ok(i)` is the handler's answer
      to the i-th. */
  method ForEachChunk(bytes: seq<byte>, limit: nat, ok: nat -> bool) returns (sent: nat, handed: seq<seq<byte>>)
    ensures handed <= Chunks(bytes, limit)
    ensures sent == |bytes| <==> AllTaken(Chunks(bytes, limit), ok)
    ensures sent == |bytes| ==> handed == Chunks(bytes, limit)
    ensures sent < |bytes| ==>
              && handed != [] && !ok(|handed| - 1)
              && (forall i | 0 <= i < |handed| - 1 :: ok(i)) && Join(handed[..|handed| - 1]) == bytes[..sent]
  {
    sent, handed := 0, [];
    assert bytes[0..] == bytes;
    while sent < |bytes|
      invariant 0 <= sent <= |bytes|
      invariant Chunks(bytes, limit) == handed + Chunks(bytes[sent..], limit)
      invariant forall i | 0 <= i < |handed| :: ok(i)
      invariant Join(handed) == bytes[..sent]
    {
      var n := ChunkSize(|bytes| - sent, limit);
      var chunk := bytes[sent..sent + n];
      ghost var before := handed;
      NextChunk(bytes, sent, limit, handed);
      JoinMore(handed, chunk);
      handed := handed + [chunk];
      assert handed[..|handed| - 1] == before;
      if !ok(|handed| - 1) {
        RefusedChunk(Chunks(bytes, limit), handed, Chunks(bytes[sent + n..], limit), ok);
        return;
      }
      assert bytes[..sent] + chunk == bytes[..sent + n];
      sent := sent + n;
    }
    assert bytes[sent..] == [] && bytes[..sent] == bytes;
  }

  lemma NextChunk(bytes: seq<byte>, sent: nat, limit: nat, handed: seq<seq<byte>>)
    requires sent < |bytes| && Chunks(bytes, limit) == handed + Chunks(bytes[sent..], limit)
    ensures var n := ChunkSize(|bytes| - sent, limit);
            Chunks(bytes, limit) == handed + [bytes[sent..sent + n]] + Chunks(bytes[sent + n..], limit)
  {
    var n, rest := ChunkSize(|bytes| - sent, limit), bytes[sent..];
    assert rest[..n] == bytes[sent..sent + n] && rest[n..] == bytes[sent + n..];
  }

  lemma RefusedChunk(all: seq<seq<byte>>, handed: seq<seq<byte>>, rest: seq<seq<byte>>, ok: nat -> bool)
    requires all == handed + rest && handed != [] && !ok(|handed| - 1)
    ensures handed <= all && exists i :: 0 <= i < |all| && !ok(i)
  {
    assert 0 <= |handed| - 1 < |all|;
  }

  lemma {:induction false} JoinMore(chunks: seq<seq<byte>>, chunk: seq<byte>)
    ensures Join(chunks + [chunk]) == Join(chunks) + chunk
    decreases |chunks|
  {
    if chunks == [] {
      assert [chunk][1..] == [];
    } else {
      JoinMore(chunks[1..], chunk);
      assert (chunks + [chunk])[1..] == chunks[1..] + [chunk];
    }
  }

  /** What read() answers: it could give that many bytes, or none yet, or it failed, or the
      client is gone. */
  datatype ReadAnswer = Available(n: nat) | NothingYet | ReadFailed | EndOfFile

  method ReadRoom(queueOn: bool, pending: nat, limit: nat) returns (room: nat)
    ensures room == ReadLimit(queueOn, pending, limit)
  {
    room := READ_BUFFER;
    if queueOn {
      var capacity := if pending >= TxQueue.JOBS then 0 else (TxQueue.JOBS - pending) * limit;
      if capacity < room {
        room := capacity;
      }
    }
  }

  /** One ready client: what it sent (`inKernel`) is read as far as the queue has room, and the
      excess stays where it is; without room nothing is read; an error or the end of the
      stream closes the client. */
  method ProcessClient(inKernel: seq<byte>, answer: ReadAnswer, queueOn: bool, pending: nat, limit: nat, ok: nat -> bool)
    returns (read: seq<byte>, left: seq<byte>, handed: seq<seq<byte>>, close: bool)
    requires answer.Available? ==> answer.n <= |inKernel|
    ensures read + left == inKernel
    ensures |read| == if answer.Available? then Min(answer.n, ReadLimit(queueOn, pending, limit)) else 0
    ensures close <==> ReadLimit(queueOn, pending, limit) > 0 && (answer.ReadFailed? || answer.EndOfFile?)
    ensures handed <= Chunks(read, limit)
    ensures AllTaken(Chunks(read, limit), ok) ==> handed == Chunks(read, limit)
  {
    read, left, handed, close := [], inKernel, [], false;
    var room := ReadRoom(queueOn, pending, limit);
    if room == 0 || answer.NothingYet? {
      return;
    }
    if !answer.Available? {
      close := true;
      return;
    }
    var n := if answer.n < room then answer.n else room;
    read, left := inKernel[..n], inKernel[n..];
    var sent;
    sent, handed := ForEachChunk(read, limit, ok);
  }

  predicate AllTaken(chunks: seq<seq<byte>>, ok: nat -> bool) {
    forall i | 0 <= i < |chunks| :: ok(i)
  }
}
