/**
 * CONF line assembly from arbitrary reads (config_stream.cpp): CR is dropped, LF ends
 * a line, an overlong line ends the connection.
 */
module ConfigStream {
  import opened Prelude
  import opened ConfigParser

  const LINE_LEN: nat := 256
  const CR: byte := 13
  const LF: byte := 10

  /** What the handler is given as a C string: the bytes up to the first NUL. */
  function CString(bs: seq<byte>): string {
    if bs == [] || bs[0] == 0 then "" else [bs[0] as char] + CString(bs[1..])
  }

  /** The lines emitted so far, the line under way, and whether the stream still is one. */
  datatype Stream = Stream(lines: seq<string>, buf: seq<byte>, ok: bool)

  function FeedByte(s: Stream, b: byte): Stream {
    if !s.ok || b == CR then s
    else if b == LF then Stream(if s.buf == [] then s.lines else s.lines + [CString(s.buf)], [], true)
    else if |s.buf| + 1 >= LINE_LEN then Stream(s.lines, [], false)
    else s.(buf := s.buf + [b])
  }

  function Feed(s: Stream, bs: seq<byte>): Stream {
    if bs == [] then s else FeedByte(Feed(s, bs[..|bs| - 1]), bs[|bs| - 1])
  }

  // ---- the buffer in place ----------------------------------------------------------------

  class StreamBuffer {
    var line: array<byte>
    var len: nat

    ghost predicate Valid()
      reads this
    {
      line.Length == LINE_LEN && len < LINE_LEN
    }

    ghost function Buf(): seq<byte>
      requires Valid()
      reads this, line
    {
      line[..len]
    }

    constructor ()
      ensures Valid() && fresh(line) && Buf() == []
    {
      line := new byte[LINE_LEN](_ => 0);
      len := 0;
    }

    method Init()
      requires Valid()
      modifies this`len
      ensures Valid() && Buf() == []
    {
      len := 0;
    }

    /** One read's bytes; `lines` are the calls to the line handler, in order. */
    method FeedBytes(bs: seq<byte>) returns (ok: bool, lines: seq<string>)
      requires Valid()
      modifies this, line
      ensures Valid() && line == old(line)
      ensures Stream(lines, Buf(), ok) == Feed(Stream([], old(Buf()), true), bs)
    {
      ghost var start := Stream([], Buf(), true);
      lines := [];
      var i := 0;
      while i < |bs|
        invariant 0 <= i <= |bs| && Valid() && line == old(line)
        invariant Stream(lines, Buf(), true) == Feed(start, bs[..i])
      {
        assert bs[..i + 1][..i] == bs[..i];
        if bs[i] == CR {
        } else if bs[i] == LF {
          if len > 0 {
            lines := lines + [CString(line[..len])];
          }
          len := 0;
        } else if len + 1 >= LINE_LEN {
          len := 0;
          FeedStops(start, bs, i + 1);
          return false, lines;
        } else {
          line[len] := bs[i];
          len := len + 1;
        }
        i := i + 1;
      }
      assert bs[..|bs|] == bs;
      ok := true;
    }
  }

  lemma {:induction false} FeedStops(s: Stream, bs: seq<byte>, n: nat)
    requires n <= |bs| && !Feed(s, bs[..n]).ok
    ensures Feed(s, bs) == Feed(s, bs[..n])
    decreases |bs|
  {
    if n == |bs| {
      assert bs[..n] == bs;
    } else {
      assert bs[..|bs| - 1][..n] == bs[..n];
      FeedStops(s, bs[..|bs| - 1], n);
    }
  }

  // ---- the split into reads does not matter -----------------------------------------------------

  /** However the kernel cuts the bytes into reads, the lines are the same. */
  lemma {:induction false} AnySplitSameLines(s: Stream, a: seq<byte>, b: seq<byte>)
    ensures Feed(s, a + b) == Feed(Feed(s, a), b)
    decreases |b|
  {
    if b == [] {
      assert a + b == a;
    } else {
      assert (a + b)[..|a + b| - 1] == a + b[..|b| - 1];
      AnySplitSameLines(s, a, b[..|b| - 1]);
    }
  }

  // ---- what the lines are ---------------------------------------------------------------------------

  function WithoutCr(bs: seq<byte>): seq<byte> {
    if bs == [] then [] else WithoutCr(bs[..|bs| - 1]) + (if bs[|bs| - 1] == CR then [] else [bs[|bs| - 1]])
  }

  predicate NoLf(bs: seq<byte>) {
    forall i | 0 <= i < |bs| :: bs[i] != LF
  }

  lemma {:induction false} FeedSegment(lines: seq<string>, bs: seq<byte>)
    requires NoLf(bs)
    ensures Feed(Stream(lines, [], true), bs)
            == if |WithoutCr(bs)| < LINE_LEN then Stream(lines, WithoutCr(bs), true) else Stream(lines, [], false)
  {
    if bs != [] {
      FeedSegment(lines, bs[..|bs| - 1]);
    }
  }

  /** The stream as text: each LF-ended segment, its CRs removed, is one line. */
  function Segments(segs: seq<seq<byte>>): seq<byte> {
    if segs == [] then [] else Segments(segs[..|segs| - 1]) + segs[|segs| - 1] + [LF]
  }

  function LinesOf(segs: seq<seq<byte>>): seq<string> {
    if segs == [] then []
    else LinesOf(segs[..|segs| - 1])
         + (if WithoutCr(segs[|segs| - 1]) == [] then [] else [CString(WithoutCr(segs[|segs| - 1]))])
  }

  /** Exactly the non-empty lines come out, in order, and the stream stands, exactly
      when no line without its CRs is longer than the buffer takes. */
  lemma {:induction false} LinesComeOut(segs: seq<seq<byte>>)
    requires forall s | s in segs :: NoLf(s)
    ensures var r := Feed(Stream([], [], true), Segments(segs));
            && (r.ok <==> forall s | s in segs :: |WithoutCr(s)| < LINE_LEN)
            && (r.ok ==> r == Stream(LinesOf(segs), [], true))
  {
    if segs != [] {
      var front, last := segs[..|segs| - 1], segs[|segs| - 1];
      LinesComeOut(front);
      assert last in segs;
      var r := Feed(Stream([], [], true), Segments(front));
      assert Segments(segs) == Segments(front) + (last + [LF]);
      AnySplitSameLines(Stream([], [], true), Segments(front), last + [LF]);
      assert (last + [LF])[..|last|] == last;
      assert forall s | s in segs :: s in front || s == last;
      if r.ok {
        FeedSegment(r.lines, last);
      } else {
        FeedStops(r, last + [LF], 0);
      }
    }
  }

  /** A line is its bytes as characters, up to the first NUL. */
  lemma {:induction false} CStringIs(bs: seq<byte>, n: nat)
    requires n <= |bs| && (n < |bs| ==> bs[n] == 0) && forall i | 0 <= i < n :: bs[i] != 0
    ensures |CString(bs)| == n && forall i | 0 <= i < n :: CString(bs)[i] == bs[i] as char
    decreases |bs|
  {
    if n > 0 {
      CStringIs(bs[1..], n - 1);
    }
  }

  predicate CleanBuf(bs: seq<byte>) {
    forall i | 0 <= i < |bs| :: bs[i] != CR && bs[i] != LF
  }

  lemma {:induction false} CStringOneLine(bs: seq<byte>)
    requires CleanBuf(bs)
    ensures OneLine(CString(bs))
  {
    if bs != [] && bs[0] != 0 {
      CStringOneLine(bs[1..]);
    }
  }

  /** Every line handed to the command handler is one line: no CR and no LF. */
  lemma {:induction false} EmittedOneLine(s: Stream, bs: seq<byte>)
    requires CleanBuf(s.buf) && forall l | l in s.lines :: OneLine(l)
    ensures CleanBuf(Feed(s, bs).buf) && forall l | l in Feed(s, bs).lines :: OneLine(l)
  {
    if bs != [] {
      EmittedOneLine(s, bs[..|bs| - 1]);
      CStringOneLine(Feed(s, bs[..|bs| - 1]).buf);
    }
  }
}
