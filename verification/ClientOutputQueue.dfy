/**
 * The output queue of one client (client_output_queue.cpp): one buffer, appended to as a
 * whole or not at all, and sent in pieces from its front.
 */
module ClientOutputQueue {
  import opened Prelude

  const OUTPUT_BYTES: nat := 65536

  /** What one send() call did: it took bytes, or none (0), or failed. */
  datatype Send = Accepted(n: nat) | Interrupted | WouldBlock | Failed

  datatype Going = Sending | Blocked | Dead

  /** A flush: the bytes the kernel took, what is still pending, and how it goes on. */
  datatype Flushed = Flushed(sent: seq<byte>, rest: seq<byte>, going: Going)

  function SendOnce(f: Flushed, s: Send): Flushed {
    if f.going != Sending || f.rest == [] then f
    else
      match s
      case Accepted(n) =>
        if n == 0 then f.(going := Dead)
        else
          var k := Min(n, |f.rest|);
          Flushed(f.sent + f.rest[..k], f.rest[k..], Sending)
      case Interrupted => f
      case WouldBlock => f.(going := Blocked)
      case Failed => f.(going := Dead)
  }

  /** Flushing against the kernel's answers `sends`; at their end the socket would block. */
  function Flush(pending: seq<byte>, sends: seq<Send>): (r: Flushed)
    ensures r.sent + r.rest == pending
  {
    if sends == [] then Flushed([], pending, Sending)
    else SendOnce(Flush(pending, sends[..|sends| - 1]), sends[|sends| - 1])
  }

  lemma {:induction false} FlushStops(pending: seq<byte>, sends: seq<Send>, n: nat)
    requires n <= |sends|
    requires var f := Flush(pending, sends[..n]); f.going != Sending || f.rest == []
    ensures Flush(pending, sends) == Flush(pending, sends[..n])
    decreases |sends| - n
  {
    if n == |sends| {
      assert sends[..n] == sends;
    } else {
      assert sends[..n + 1][..n] == sends[..n];
      FlushStops(pending, sends, n + 1);
    }
  }

  /** After this answer a flush goes on. */
  predicate GoesOn(s: Send) {
    s.Interrupted? || (s.Accepted? && s.n > 0)
  }

  function Taken(sends: seq<Send>): nat {
    if sends == [] then 0
    else
      var last := sends[|sends| - 1];
      Taken(sends[..|sends| - 1]) + if last.Accepted? then last.n else 0
  }

  lemma {:induction false} FlushGoesOn(pending: seq<byte>, sends: seq<Send>)
    requires forall s | s in sends :: GoesOn(s)
    ensures var took := Min(Taken(sends), |pending|);
            Flush(pending, sends) == Flushed(pending[..took], pending[took..], Sending)
  {
    if sends == [] {
      assert pending[..0] == [] && pending[0..] == pending;
    } else {
      var front, last := sends[..|sends| - 1], sends[|sends| - 1];
      FlushGoesOn(pending, front);
      assert last in sends;
      var took, rest := Min(Taken(front), |pending|), pending[Min(Taken(front), |pending|)..];
      if last.Accepted? && rest != [] {
        var k := Min(last.n, |rest|);
        assert pending[..took] + rest[..k] == pending[..took + k] && rest[k..] == pending[took + k..];
      }
    }
  }

  /** What a flush sends: all that the socket accepts until the queue is empty or an answer
      stops it; it then waits if the socket would block, and the connection is dead if the
      send failed or took nothing. */
  lemma FlushExactly(pending: seq<byte>, sends: seq<Send>, n: nat)
    requires n <= |sends| && forall s | s in sends[..n] :: GoesOn(s)
    requires n < |sends| ==> Taken(sends[..n]) >= |pending| || !GoesOn(sends[n])
    ensures var took, f := Min(Taken(sends[..n]), |pending|), Flush(pending, sends);
            && f.sent == pending[..took] && f.rest == pending[took..]
            && f.going == if n == |sends| || took == |pending| then Sending
                          else if sends[n].WouldBlock? then Blocked else Dead
  {
    FlushGoesOn(pending, sends[..n]);
    if n == |sends| {
      assert sends[..n] == sends;
    } else if Taken(sends[..n]) >= |pending| {
      FlushStops(pending, sends, n);
    } else {
      assert sends[..n + 1][..n] == sends[..n];
      FlushStops(pending, sends, n + 1);
    }
  }

  class OutputQueue {
    const data: array<byte>
    var len: nat

    ghost predicate Valid()
      reads this
    {
      data.Length == OUTPUT_BYTES && len <= OUTPUT_BYTES
    }

    ghost function Contents(): seq<byte>
      reads this, data
      requires Valid()
    {
      data[..len]
    }

    constructor ()
      ensures Valid() && fresh(data) && Contents() == []
    {
      data := new byte[OUTPUT_BYTES](_ => 0);
      len := 0;
    }

    method Reset()
      requires Valid()
      modifies this
      ensures Valid() && Contents() == []
    {
      len := 0;
    }

    /** All of the bytes, or, when they do not fit, none of them. */
    method Append(bytes: seq<byte>) returns (ok: bool)
      requires Valid()
      modifies this, data
      ensures Valid()
      ensures ok <==> |old(Contents())| + |bytes| <= OUTPUT_BYTES
      ensures Contents() == if ok then old(Contents()) + bytes else old(Contents())
    {
      if |bytes| == 0 {
        return true;
      }
      if |bytes| > OUTPUT_BYTES - len {
        return false;
      }
      var i := 0;
      while i < |bytes|
        invariant 0 <= i <= |bytes| && len == old(len)
        invariant data[..len] == old(data[..len]) && data[len..len + i] == bytes[..i]
      {
        data[len + i] := bytes[i];
        i := i + 1;
      }
      assert data[..len + |bytes|] == data[..len] + data[len..len + |bytes|];
      len := len + |bytes|;
      ok := true;
    }

    method Consume(n: nat) returns (used: nat)
      requires Valid()
      modifies this, data
      ensures Valid() && used == Min(n, |old(Contents())|) && Contents() == old(Contents())[used..]
    {
      if n == 0 {
        return 0;
      }
      used := if n < len then n else len;
      if used == len {
        len := 0;
      } else if used > 0 {
        var i := 0;
        while i < len - used
          invariant 0 <= i <= len - used && len == old(len)
          invariant forall k | 0 <= k < i :: data[k] == old(data[used + k])
          invariant forall k | used + i <= k < len :: data[k] == old(data[k])
        {
          data[i] := data[used + i];
          i := i + 1;
        }
        len := len - used;
      }
    }

    /** Sends until the queue is empty, the socket would block, or it is dead (-1). */
    method FlushTo(sends: seq<Send>) returns (total: int, sent: seq<byte>)
      requires Valid()
      modifies this, data
      ensures Valid()
      ensures var f := Flush(old(Contents()), sends);
              sent == f.sent && Contents() == f.rest && total == if f.going == Dead then -1 else |sent|
    {
      ghost var pending := Contents();
      total, sent := 0, [];
      var i := 0;
      while len > 0 && i < |sends|
        invariant 0 <= i <= |sends| && Valid() && total == |sent|
        invariant Flush(pending, sends[..i]) == Flushed(sent, Contents(), Sending)
      {
        assert sends[..i + 1][..i] == sends[..i];
        i := i + 1;
        match sends[i - 1]
        case Accepted(n) =>
          if n == 0 {
            FlushStops(pending, sends, i);
            return -1, sent;
          }
          var took := if n <= len then n else len;
          assert data[..took] == data[..len][..took];
          sent, total := sent + data[..took], total + took;
          var _ := Consume(took);
        case Interrupted =>
        case WouldBlock =>
          FlushStops(pending, sends, i);
          return;
        case Failed =>
          FlushStops(pending, sends, i);
          return -1, sent;
      }
      if i < |sends| {
        FlushStops(pending, sends, i);
      } else {
        assert sends[..i] == sends;
      }
    }
  }
}
