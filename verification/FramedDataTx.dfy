/**
 * The framed DATA stream parser (framed_data_tx.cpp): a byte automaton that resyncs by
 * the declared length of a rejected frame, against the grammar of the whole stream.
 *
 * The TX handler may answer as it likes, depending on everything before: `h` maps the
 * events so far and the payload to its return value.
 */
module FramedDataTx {
  import opened Prelude
  import opened FramedData

  datatype Problem = UnknownType | UnsupportedTooLarge | TxTooLarge | UnsupportedFrame | TxFailed

  /** A callback of the parser. */
  datatype Event = Tx(payload: seq<byte>) | Problem(what: Problem)

  type Handler = (seq<Event>, seq<byte>) -> int

  // ---- the grammar of a whole stream ----------------------------------------------------

  /** The frame's event, and the handler's failure after it if it fails. */
  function Deliver(log: seq<Event>, t: byte, payload: seq<byte>, h: Handler): seq<Event> {
    if t == TX_PACKET then log + [Tx(payload)] + (if h(log, payload) == 0 then [] else [Problem(TxFailed)])
    else log + [Problem(UnsupportedFrame)]
  }

  /** Why a header is rejected at once, if it is. */
  function HeaderProblem(t: byte, len: nat): Option<Problem> {
    if !TypeKnown(t) then Some(UnknownType)
    else if len <= MAX_RF_PAYLOAD then None
    else if t == TX_PACKET then Some(TxTooLarge) else Some(UnsupportedTooLarge)
  }

  /** All events of a byte stream, frame by frame: a rejected header is one problem and
      its declared payload is skipped; a frame cut off by the end of the stream has no
      event yet. */
  function Frames(log: seq<Event>, bs: seq<byte>, h: Handler): seq<Event>
    decreases |bs|
  {
    if |bs| < HEADER_LEN then log
    else
      var t, len, rest := bs[0], Read16(bs[1], bs[2]), bs[HEADER_LEN..];
      match HeaderProblem(t, len)
      case Some(what) => Frames(log + [Problem(what)], rest[Min(len, |rest|)..], h)
      case None =>
        if |rest| < len then log
        else Frames(Deliver(log, t, rest[..len], h), rest[len..], h)
  }

  // ---- the automaton ------------------------------------------------------------------------

  datatype State = State(header: seq<byte>, payload: seq<byte>, frameType: byte, expected: nat, skip: nat)

  const INIT := State([], [], 0, 0, 0)

  predicate Valid(s: State) {
    && |s.header| <= HEADER_LEN
    && (s.skip > 0 ==> s.header == [] && s.payload == [])
    && (|s.header| < HEADER_LEN ==> s.payload == [])
    && (|s.header| == HEADER_LEN ==>
          && s.frameType == s.header[0] && s.expected == Read16(s.header[1], s.header[2])
          && HeaderProblem(s.frameType, s.expected) == None
          && |s.payload| < s.expected)
  }

  function Complete(log: seq<Event>, s: State, h: Handler): (seq<Event>, State) {
    (Deliver(log, s.frameType, s.payload, h), INIT)
  }

  function HeaderReady(log: seq<Event>, header: seq<byte>, h: Handler): (seq<Event>, State)
    requires |header| == HEADER_LEN
  {
    var t, len := header[0], Read16(header[1], header[2]);
    match HeaderProblem(t, len)
    case Some(what) => (log + [Problem(what)], INIT.(skip := len))
    case None =>
      var s := State(header, [], t, len, 0);
      if len == 0 then Complete(log, s, h) else (log, s)
  }

  function FeedByte(log: seq<Event>, s: State, b: byte, h: Handler): (seq<Event>, State)
    requires Valid(s)
  {
    if s.skip > 0 then (log, s.(skip := s.skip - 1))
    else if |s.header| < HEADER_LEN then
      var header := s.header + [b];
      if |header| == HEADER_LEN then HeaderReady(log, header, h) else (log, s.(header := header))
    else
      var s1 := s.(payload := s.payload + [b]);
      if |s1.payload| == s1.expected then Complete(log, s1, h) else (log, s1)
  }

  lemma FeedByteValid(log: seq<Event>, s: State, b: byte, h: Handler)
    requires Valid(s)
    ensures Valid(FeedByte(log, s, b, h).1)
  {
  }

  ghost function Feed(log: seq<Event>, s: State, bs: seq<byte>, h: Handler): (r: (seq<Event>, State))
    requires Valid(s)
    ensures Valid(r.1)
  {
    if bs == [] then (log, s)
    else
      var (log1, s1) := Feed(log, s, bs[..|bs| - 1], h);
      FeedByteValid(log1, s1, bs[|bs| - 1], h);
      FeedByte(log1, s1, bs[|bs| - 1], h)
  }

  // ---- the automaton refines the grammar -------------------------------------------------------

  /** What the grammar makes of the rest of a stream met in this state. */
  function FramesFrom(log: seq<Event>, s: State, bs: seq<byte>, h: Handler): seq<Event> {
    Frames(log, s.header + s.payload + bs[Min(s.skip, |bs|)..], h)
  }

  lemma SkipRefines(log: seq<Event>, s: State, b: byte, bs: seq<byte>, h: Handler)
    requires Valid(s) && s.skip > 0
    ensures var (log1, s1) := FeedByte(log, s, b, h);
            FramesFrom(log, s, [b] + bs, h) == FramesFrom(log1, s1, bs, h)
  {
    var all := [b] + bs;
    assert all[Min(s.skip, |all|)..] == bs[Min(s.skip - 1, |bs|)..];
  }

  lemma HeaderByteRefines(log: seq<Event>, s: State, b: byte, bs: seq<byte>, h: Handler)
    requires Valid(s) && s.skip == 0 && |s.header| < HEADER_LEN
    ensures var (log1, s1) := FeedByte(log, s, b, h);
            FramesFrom(log, s, [b] + bs, h) == FramesFrom(log1, s1, bs, h)
  {
    var all, header := [b] + bs, s.header + [b];
    assert s.header + s.payload + all[0..] == header + bs;
    if |header| == HEADER_LEN {
      HeaderRefines(log, header, bs, h);
    } else {
      assert header + s.payload + bs[0..] == header + bs;
    }
  }

  lemma PayloadByteRefines(log: seq<Event>, s: State, b: byte, bs: seq<byte>, h: Handler)
    requires Valid(s) && |s.header| == HEADER_LEN
    ensures var (log1, s1) := FeedByte(log, s, b, h);
            FramesFrom(log, s, [b] + bs, h) == FramesFrom(log1, s1, bs, h)
  {
    var all, payload := [b] + bs, s.payload + [b];
    var text := s.header + payload + bs;
    assert s.header + s.payload + all[0..] == text;
    assert bs[0..] == bs;
    if |payload| == s.expected {
      WholeFrame(log, s.header, payload, bs, h);
      assert [] + [] + bs == bs;
    }
  }

  /** A frame that is all there is delivered, and the rest is parsed on. */
  lemma WholeFrame(log: seq<Event>, header: seq<byte>, payload: seq<byte>, bs: seq<byte>, h: Handler)
    requires |header| == HEADER_LEN && HeaderProblem(header[0], |payload|) == None
    requires |payload| == Read16(header[1], header[2])
    ensures Frames(log, header + payload + bs, h) == Frames(Deliver(log, header[0], payload, h), bs, h)
  {
    var text := header + payload + bs;
    assert text[..HEADER_LEN] == header && text[HEADER_LEN..] == payload + bs;
    assert (payload + bs)[..|payload|] == payload && (payload + bs)[|payload|..] == bs;
    assert text[0] == header[0] && text[1] == header[1] && text[2] == header[2];
  }

  /** Feeding one byte moves it from the rest of the stream into the state. */
  lemma FeedByteRefines(log: seq<Event>, s: State, b: byte, bs: seq<byte>, h: Handler)
    requires Valid(s)
    ensures var (log1, s1) := FeedByte(log, s, b, h);
            FramesFrom(log, s, [b] + bs, h) == FramesFrom(log1, s1, bs, h)
  {
    if s.skip > 0 {
      SkipRefines(log, s, b, bs, h);
    } else if |s.header| < HEADER_LEN {
      HeaderByteRefines(log, s, b, bs, h);
    } else {
      PayloadByteRefines(log, s, b, bs, h);
    }
  }

  /** One frame of the grammar. */
  lemma FirstFrame(log: seq<Event>, header: seq<byte>, bs: seq<byte>, h: Handler)
    requires |header| == HEADER_LEN
    ensures var t, len := header[0], Read16(header[1], header[2]);
            Frames(log, header + bs, h)
            == match HeaderProblem(t, len)
               case Some(what) => Frames(log + [Problem(what)], bs[Min(len, |bs|)..], h)
               case None => if |bs| < len then log else Frames(Deliver(log, t, bs[..len], h), bs[len..], h)
  {
    var text := header + bs;
    assert text[HEADER_LEN..] == bs && text[0] == header[0] && text[1] == header[1] && text[2] == header[2];
  }

  lemma HeaderRefines(log: seq<Event>, header: seq<byte>, bs: seq<byte>, h: Handler)
    requires |header| == HEADER_LEN
    ensures var (log1, s1) := HeaderReady(log, header, h);
            Frames(log, header + bs, h) == FramesFrom(log1, s1, bs, h)
  {
    FirstFrame(log, header, bs, h);
    var t, len := header[0], Read16(header[1], header[2]);
    match HeaderProblem(t, len)
    case Some(what) =>
      assert [] + [] + bs[Min(len, |bs|)..] == bs[Min(len, |bs|)..];
    case None =>
      assert bs[0..] == bs;
      if len == 0 {
        assert bs[..0] == [] && [] + [] + bs == bs;
      } else {
        assert header + [] + bs == header + bs;
      }
  }

  lemma NothingLeft(log: seq<Event>, s: State, h: Handler)
    requires Valid(s)
    ensures FramesFrom(log, s, [], h) == log
  {
    var text := s.header + s.payload + [];
    if |s.header| == HEADER_LEN {
      assert text[HEADER_LEN..] == s.payload && text[..HEADER_LEN] == s.header;
    }
  }

  lemma {:induction false} FeedRefines(log: seq<Event>, s: State, bs: seq<byte>, more: seq<byte>, h: Handler)
    requires Valid(s)
    ensures var (log1, s1) := Feed(log, s, bs, h);
            FramesFrom(log, s, bs + more, h) == FramesFrom(log1, s1, more, h)
    decreases |bs|
  {
    if bs == [] {
      assert bs + more == more;
    } else {
      var front, last := bs[..|bs| - 1], bs[|bs| - 1];
      assert bs + more == front + ([last] + more);
      FeedRefines(log, s, front, [last] + more, h);
      var (log1, s1) := Feed(log, s, front, h);
      FeedByteRefines(log1, s1, last, more, h);
    }
  }

  /** The automaton's events are the grammar's: for a stream from its beginning, and for
      one met in any state. */
  lemma AutomatonIsGrammar(log: seq<Event>, s: State, bs: seq<byte>, h: Handler)
    requires Valid(s)
    ensures Feed(log, s, bs, h).0 == FramesFrom(log, s, bs, h)
    ensures s == INIT ==> Feed(log, s, bs, h).0 == Frames(log, bs, h)
  {
    var (log1, s1) := Feed(log, s, bs, h);
    FeedRefines(log, s, bs, [], h);
    assert bs + [] == bs;
    NothingLeft(log1, s1, h);
    if s == INIT { assert [] + [] + bs[0..] == bs; }
  }

  /** The reads of a stream, fed one after the other. */
  ghost function FeedReads(log: seq<Event>, s: State, reads_: seq<seq<byte>>, h: Handler): (r: (seq<Event>, State))
    requires Valid(s)
    ensures Valid(r.1)
  {
    if reads_ == [] then (log, s)
    else
      var (log1, s1) := FeedReads(log, s, reads_[..|reads_| - 1], h);
      Feed(log1, s1, reads_[|reads_| - 1], h)
  }

  lemma FeedMore(log: seq<Event>, s: State, bs: seq<byte>, i: nat, h: Handler)
    requires Valid(s) && i < |bs|
    ensures var (log1, s1) := Feed(log, s, bs[..i], h);
            Feed(log, s, bs[..i + 1], h) == FeedByte(log1, s1, bs[i], h)
  {
    assert bs[..i + 1][..i] == bs[..i];
  }

  function Flatten(reads_: seq<seq<byte>>): seq<byte> {
    if reads_ == [] then [] else Flatten(reads_[..|reads_| - 1]) + reads_[|reads_| - 1]
  }

  /** However the stream is cut into reads, its events are the grammar's. */
  lemma {:induction false} AnySplitSameEvents(reads_: seq<seq<byte>>, rest: seq<byte>, h: Handler)
    ensures var (log1, s1) := FeedReads([], INIT, reads_, h);
            Frames([], Flatten(reads_) + rest, h) == FramesFrom(log1, s1, rest, h)
    ensures FeedReads([], INIT, reads_, h).0 == Frames([], Flatten(reads_), h)
  {
    if reads_ == [] {
      assert [] + [] + rest[0..] == rest;
      assert Flatten(reads_) + rest == rest;
      assert Flatten(reads_) == [];
    } else {
      var front, last := reads_[..|reads_| - 1], reads_[|reads_| - 1];
      AnySplitSameEvents(front, last + rest, h);
      AnySplitSameEvents(front, last, h);
      var (log1, s1) := FeedReads([], INIT, front, h);
      FeedRefines(log1, s1, last, rest, h);
      AutomatonIsGrammar(log1, s1, last, h);
      assert Flatten(reads_) + rest == Flatten(front) + (last + rest);
    }
  }

  // ---- round trip -------------------------------------------------------------------------------

  function EncodeAll(payloads: seq<seq<byte>>): seq<byte>
    requires forall p | p in payloads :: |p| <= MAX_RF_PAYLOAD
  {
    if payloads == [] then [] else Frame(TX_PACKET, payloads[0]) + EncodeAll(payloads[1..])
  }

  function Deliveries(log: seq<Event>, payloads: seq<seq<byte>>, h: Handler): seq<Event>
    decreases |payloads|
  {
    if payloads == [] then log else Deliveries(Deliver(log, TX_PACKET, payloads[0], h), payloads[1..], h)
  }

  /** One rejected or unsupported frame: exactly one problem, and the parser is back in
      step right after the frame's declared length. */
  lemma ResyncAfterFrame(log: seq<Event>, t: byte, payload: seq<byte>, rest: seq<byte>, h: Handler)
    requires U16(|payload|)
    ensures Frames(log, Frame(t, payload) + rest, h)
            == Frames(match HeaderProblem(t, |payload|)
                      case Some(what) => log + [Problem(what)]
                      case None => Deliver(log, t, payload, h), rest, h)
  {
    var text := Frame(t, payload) + rest;
    SixteenBits(|payload|);
    assert text[0] == t && text[1] == Low(|payload|) && text[2] == High(|payload|);
    assert text[HEADER_LEN..] == payload + rest;
    assert (payload + rest)[..|payload|] == payload && (payload + rest)[|payload|..] == rest;
  }

  /** Which frames are rejected, and why: any but a TX packet of at most 255 bytes. */
  lemma RejectedExactly(log: seq<Event>, t: byte, payload: seq<byte>, rest: seq<byte>, h: Handler)
    requires U16(|payload|) && !(t == 2 && |payload| <= 255)
    ensures var what := if t < 1 || t > 4 then UnknownType
                        else if t == 2 then TxTooLarge
                        else if |payload| > 255 then UnsupportedTooLarge else UnsupportedFrame;
            Frames(log, Frame(t, payload) + rest, h) == Frames(log + [Problem(what)], rest, h)
  {
    ResyncAfterFrame(log, t, payload, rest, h);
  }

  /** What a client's bytes mean, frame by frame: a TX packet of at most 255 bytes is sent
      once it is whole; any other frame is a problem, and its bytes are passed over. */
  function Meaning(bs: seq<byte>): seq<Event>
    decreases |bs|
  {
    if |bs| < 3 then []
    else
      var t: int, low: int, high: int := bs[0], bs[1], bs[2];
      var end := 3 + low + 256 * high;
      (if t < 1 || t > 4 then [Problem(UnknownType)]
       else if end > 258 then [Problem(if t == 2 then TxTooLarge else UnsupportedTooLarge)]
       else if end > |bs| then []
       else if t == 2 then [Tx(bs[3..end])]
       else [Problem(UnsupportedFrame)])
      + if end > |bs| then [] else Meaning(bs[end..])
  }

  function WithoutFailures(log: seq<Event>): seq<Event> {
    if log == [] then []
    else WithoutFailures(log[..|log| - 1]) + if log[|log| - 1] == Problem(TxFailed) then [] else [log[|log| - 1]]
  }

  lemma WithoutFailuresMore(log: seq<Event>, e: Event)
    ensures WithoutFailures(log + [e]) == WithoutFailures(log) + if e == Problem(TxFailed) then [] else [e]
  {
    assert (log + [e])[..|log|] == log;
  }

  lemma DeliverMeans(log: seq<Event>, t: byte, payload: seq<byte>, h: Handler)
    ensures WithoutFailures(Deliver(log, t, payload, h))
            == WithoutFailures(log) + [if t == 2 then Tx(payload) else Problem(UnsupportedFrame)]
  {
    if t == 2 {
      WithoutFailuresMore(log, Tx(payload));
      WithoutFailuresMore(log + [Tx(payload)], Problem(TxFailed));
      assert log + [Tx(payload)] + [] == log + [Tx(payload)];
    } else {
      WithoutFailuresMore(log, Problem(UnsupportedFrame));
    }
  }

  /** Where the frame with that length field ends, in these bytes. */
  function EndOf(bs: seq<byte>, len: nat): nat {
    Min(HEADER_LEN + len, |bs|)
  }

  lemma ProblemFirst(log: seq<Event>, bs: seq<byte>, len: nat, what: Problem, h: Handler)
    requires |bs| >= 3 && len == Read16(bs[1], bs[2]) && HeaderProblem(bs[0], len) == Some(what)
    ensures Frames(log, bs, h) == Frames(log + [Problem(what)], bs[EndOf(bs, len)..], h)
  {
    var rest := bs[HEADER_LEN..];
    assert rest[Min(len, |rest|)..] == bs[EndOf(bs, len)..];
  }

  lemma ProblemMeaning(bs: seq<byte>, len: nat, what: Problem)
    requires |bs| >= 3 && len == Read16(bs[1], bs[2]) && HeaderProblem(bs[0], len) == Some(what)
    ensures Meaning(bs) == [Problem(what)] + Meaning(bs[EndOf(bs, len)..])
  {
  }

  lemma FrameFirst(log: seq<Event>, bs: seq<byte>, len: nat, h: Handler)
    requires |bs| >= 3 && len == Read16(bs[1], bs[2]) && HeaderProblem(bs[0], len).None? && 3 + len <= |bs|
    ensures Frames(log, bs, h) == Frames(Deliver(log, bs[0], bs[3..3 + len], h), bs[EndOf(bs, len)..], h)
  {
    var rest := bs[HEADER_LEN..];
    assert rest[len..] == bs[EndOf(bs, len)..] && rest[..len] == bs[3..3 + len];
  }

  lemma FrameMeaning(bs: seq<byte>, len: nat)
    requires |bs| >= 3 && len == Read16(bs[1], bs[2]) && HeaderProblem(bs[0], len).None? && 3 + len <= |bs|
    ensures Meaning(bs) == [if bs[0] == 2 then Tx(bs[3..3 + len]) else Problem(UnsupportedFrame)] + Meaning(bs[EndOf(bs, len)..])
  {
    var t: int, low: int, high: int := bs[0], bs[1], bs[2];
    var end := 3 + low + 256 * high;
    assert 1 <= t <= 4 && end <= 258 && end == 3 + len == EndOf(bs, len);
    assert Meaning(bs) == (if t == 2 then [Tx(bs[3..end])] else [Problem(UnsupportedFrame)]) + Meaning(bs[end..]);
  }

  lemma UnfinishedMeaning(log: seq<Event>, bs: seq<byte>, h: Handler)
    requires |bs| >= 3 ==> HeaderProblem(bs[0], Read16(bs[1], bs[2])).None? && 3 + Read16(bs[1], bs[2]) > |bs|
    ensures Meaning(bs) == [] && Frames(log, bs, h) == log
  {
  }

  lemma Regrouped(log: seq<Event>, e: Event, more: seq<Event>)
    ensures (log + [e]) + more == log + ([e] + more)
  {
  }

  /** Apart from the handler's failures, the events of a stream are its meaning, whatever the
      handler answers. */
  lemma {:induction false} EventsAreMeaning(log: seq<Event>, bs: seq<byte>, h: Handler)
    ensures WithoutFailures(Frames(log, bs, h)) == WithoutFailures(log) + Meaning(bs)
    decreases |bs|
  {
    if |bs| < 3 || (HeaderProblem(bs[0], Read16(bs[1], bs[2])).None? && 3 + Read16(bs[1], bs[2]) > |bs|) {
      UnfinishedMeaning(log, bs, h);
    } else {
      var len := Read16(bs[1], bs[2]);
      var tail := bs[EndOf(bs, len)..];
      match HeaderProblem(bs[0], len)
      case Some(what) =>
        ProblemFirst(log, bs, len, what, h);
        ProblemMeaning(bs, len, what);
        WithoutFailuresMore(log, Problem(what));
        EventsAreMeaning(log + [Problem(what)], tail, h);
        Regrouped(WithoutFailures(log), Problem(what), Meaning(tail));
      case None =>
        var payload := bs[3..3 + len];
        FrameFirst(log, bs, len, h);
        FrameMeaning(bs, len);
        DeliverMeans(log, bs[0], payload, h);
        EventsAreMeaning(Deliver(log, bs[0], payload, h), tail, h);
        Regrouped(WithoutFailures(log), if bs[0] == 2 then Tx(payload) else Problem(UnsupportedFrame), Meaning(tail));
    }
  }

  /** So are the events of any reads: what is handed on is what the bytes mean. */
  lemma ReadsAreMeaning(reads_: seq<seq<byte>>, h: Handler)
    ensures WithoutFailures(FeedReads([], INIT, reads_, h).0) == Meaning(Flatten(reads_))
  {
    AnySplitSameEvents(reads_, [], h);
    EventsAreMeaning([], Flatten(reads_), h);
  }

  /** Encoded TX packets of any lengths come back as exactly those payloads, in order,
      and what follows them is parsed from a fresh start. */
  lemma {:induction false} TxPacketsRoundTrip(log: seq<Event>, payloads: seq<seq<byte>>, rest: seq<byte>, h: Handler)
    requires forall p | p in payloads :: |p| <= MAX_RF_PAYLOAD
    ensures Frames(log, EncodeAll(payloads) + rest, h) == Frames(Deliveries(log, payloads, h), rest, h)
    decreases |payloads|
  {
    if payloads == [] {
      assert EncodeAll(payloads) + rest == rest;
    } else {
      assert payloads[0] in payloads;
      var tail := EncodeAll(payloads[1..]) + rest;
      assert EncodeAll(payloads) + rest == Frame(TX_PACKET, payloads[0]) + tail;
      ResyncAfterFrame(log, TX_PACKET, payloads[0], tail, h);
      TxPacketsRoundTrip(Deliver(log, TX_PACKET, payloads[0], h), payloads[1..], rest, h);
    }
  }

  lemma {:induction false} DeliveriesAreTx(log: seq<Event>, payloads: seq<seq<byte>>, h: Handler)
    requires forall l, p :: h(l, p) == 0
    ensures Deliveries(log, payloads, h) == log + seq(|payloads|, i requires 0 <= i < |payloads| => Tx(payloads[i]))
    decreases |payloads|
  {
    if payloads != [] {
      DeliveriesAreTx(Deliver(log, TX_PACKET, payloads[0], h), payloads[1..], h);
    }
  }

  /** However they are cut into reads, concatenated TX packets of 0 to 255 bytes come out of the
      parser as exactly those payloads, in order, and nothing else. */
  lemma TxPacketsComeBack(reads_: seq<seq<byte>>, payloads: seq<seq<byte>>, h: Handler)
    requires forall p | p in payloads :: |p| <= MAX_RF_PAYLOAD
    requires Flatten(reads_) == EncodeAll(payloads) && forall l, p :: h(l, p) == 0
    ensures FeedReads([], INIT, reads_, h).0 == seq(|payloads|, i requires 0 <= i < |payloads| => Tx(payloads[i]))
  {
    AnySplitSameEvents(reads_, [], h);
    TxPacketsRoundTrip([], payloads, [], h);
    assert EncodeAll(payloads) + [] == EncodeAll(payloads);
    DeliveriesAreTx([], payloads, h);
  }

  // ---- failed packets ---------------------------------------------------------------------------

  /** A failed TX is reported right after each packet whose handler failed, and only there. */
  predicate FailuresExplained(log: seq<Event>, h: Handler) {
    && (forall i | 0 <= i < |log| && log[i] == Problem(TxFailed) :: i > 0 && log[i - 1].Tx?)
    && forall i | 0 <= i < |log| :: ExplainedAt(log, h, i)
  }

  predicate ExplainedAt(log: seq<Event>, h: Handler, i: nat)
    requires i < |log|
  {
    log[i].Tx? ==> (h(log[..i], log[i].payload) != 0 <==> i + 1 < |log| && log[i + 1] == Problem(TxFailed))
  }

  lemma DeliverExplained(log: seq<Event>, t: byte, payload: seq<byte>, h: Handler)
    requires FailuresExplained(log, h)
    ensures FailuresExplained(Deliver(log, t, payload, h), h)
  {
    var log1, n := Deliver(log, t, payload, h), |log|;
    assert log1[..n] == log && log1[n] == if t == TX_PACKET then Tx(payload) else Problem(UnsupportedFrame);
    assert t == TX_PACKET && h(log, payload) != 0 ==> |log1| == n + 2 && log1[n + 1] == Problem(TxFailed);
    forall i | 0 <= i < |log1| ensures ExplainedAt(log1, h, i) {
      if i < n {
        assert log1[i] == log[i] && log1[..i] == log[..i];
        assert ExplainedAt(log, h, i);
        if i + 1 < n { assert log1[i + 1] == log[i + 1]; }
      }
    }
  }

  lemma RejectExplained(log: seq<Event>, what: Problem, h: Handler)
    requires FailuresExplained(log, h) && what != TxFailed
    ensures FailuresExplained(log + [Problem(what)], h)
  {
    var log1 := log + [Problem(what)];
    forall i | 0 <= i < |log1| ensures ExplainedAt(log1, h, i) {
      if i < |log| {
        assert log1[..i] == log[..i];
        assert ExplainedAt(log, h, i);
      }
    }
  }

  lemma {:induction false} FramesExplained(log: seq<Event>, bs: seq<byte>, h: Handler)
    requires FailuresExplained(log, h)
    ensures FailuresExplained(Frames(log, bs, h), h)
    decreases |bs|
  {
    if |bs| >= HEADER_LEN {
      var t, len, rest := bs[0], Read16(bs[1], bs[2]), bs[HEADER_LEN..];
      match HeaderProblem(t, len)
      case Some(what) =>
        RejectExplained(log, what, h);
        FramesExplained(log + [Problem(what)], rest[Min(len, |rest|)..], h);
      case None =>
        if |rest| >= len {
          DeliverExplained(log, t, rest[..len], h);
          FramesExplained(Deliver(log, t, rest[..len], h), rest[len..], h);
        }
    }
  }

  // ---- a state left over from another connection -----------------------------------------------

  /** At rest: nothing of an earlier frame is remembered. */
  predicate AtRest(s: State) {
    s.header == [] && s.skip == 0
  }

  /** A new connection is parsed as its own stream exactly when the slot's state is at
      rest: whatever the slot remembers of an earlier frame spoils some stream. */
  lemma FreshStreamNeedsRest(s: State, h: Handler)
    requires Valid(s)
    ensures AtRest(s) <==> forall bs :: Feed([], s, bs, h).0 == Frames([], bs, h)
  {
    if AtRest(s) {
      forall bs ensures Feed([], s, bs, h).0 == Frames([], bs, h) {
        AutomatonIsGrammar([], s, bs, h);
        assert [] + [] + bs[0..] == bs;
      }
    } else if s.skip > 0 {
      StaleSkipSwallows(s, h);
    } else if |s.header| < HEADER_LEN {
      StaleHeaderReports(s, h);
    } else {
      StalePayloadReports(s, h);
    }
  }

  /** A stale skip swallows the first byte of an empty TX packet. */
  lemma StaleSkipSwallows(s: State, h: Handler)
    requires Valid(s) && s.skip > 0
    ensures exists bs :: Feed([], s, bs, h).0 != Frames([], bs, h)
  {
    var bs: seq<byte> := [TX_PACKET, 0, 0];
    AutomatonIsGrammar([], s, bs, h);
    var rest := bs[Min(s.skip, |bs|)..];
    assert s.header + s.payload + rest == rest && |rest| < HEADER_LEN;
    assert bs == Frame(TX_PACKET, []) + [];
    ResyncAfterFrame([], TX_PACKET, [], [], h);
    assert Frames([], bs, h) == Deliver([], TX_PACKET, [], h);
  }

  /** A stale start of a header is completed by the first bytes into a frame too large. */
  lemma StaleHeaderReports(s: State, h: Handler)
    requires Valid(s) && s.skip == 0 && 0 < |s.header| < HEADER_LEN
    ensures exists bs :: Feed([], s, bs, h).0 != Frames([], bs, h)
  {
    var bs: seq<byte> := if |s.header| == 1 then [0, 1] else [1];
    var header := s.header + bs;
    assert header[2] == 1;
    AutomatonIsGrammar([], s, bs, h);
    assert s.header + s.payload + bs[0..] == header + [];
    HeaderRefines([], header, [], h);
    var (log1, s1) := HeaderReady([], header, h);
    assert HeaderProblem(header[0], Read16(header[1], header[2])).Some?;
    NothingLeft(log1, s1, h);
  }

  /** A stale frame is completed by bytes that are, on their own, an unfinished frame. */
  lemma StalePayloadReports(s: State, h: Handler)
    requires Valid(s) && s.skip == 0 && |s.header| == HEADER_LEN
    ensures exists bs :: Feed([], s, bs, h).0 != Frames([], bs, h)
  {
    var bs := Unfinished(s.expected - |s.payload|);
    UnfinishedHasNoEvent(|bs|, h);
    RestOfFrameReports(s, bs, h);
  }

  lemma RestOfFrameReports(s: State, bs: seq<byte>, h: Handler)
    requires Valid(s) && s.skip == 0 && |s.header| == HEADER_LEN && |bs| == s.expected - |s.payload|
    ensures Feed([], s, bs, h).0 != []
  {
    AutomatonIsGrammar([], s, bs, h);
    var payload := s.payload + bs;
    assert s.header + s.payload + bs[0..] == s.header + payload + [];
    WholeFrame([], s.header, payload, [], h);
  }

  /** The first n bytes of a TX packet of 255 bytes. */
  function Unfinished(n: nat): (r: seq<byte>)
    ensures |r| == n
  {
    ([TX_PACKET, 255, 0] + seq(n, i => 0))[..n]
  }

  lemma UnfinishedHasNoEvent(n: nat, h: Handler)
    requires n <= MAX_RF_PAYLOAD
    ensures Frames([], Unfinished(n), h) == []
  {
    var bs := Unfinished(n);
    if n >= HEADER_LEN { assert bs[0] == TX_PACKET && bs[1] == 255 && bs[2] == 0; }
  }

  // ---- the parser's state, updated in place --------------------------------------------------------

  class TxState {
    const header: array<byte>
    const payload: array<byte>
    var headerLen: nat
    var payloadLen: nat
    var expected: nat
    var frameType: byte
    var skip: nat

    ghost predicate InBounds()
      reads this
    {
      && header.Length == HEADER_LEN && payload.Length == MAX_RF_PAYLOAD && header != payload
      && headerLen <= HEADER_LEN && payloadLen <= MAX_RF_PAYLOAD
    }

    ghost function View(): State
      reads this, header, payload
      requires InBounds()
    {
      State(header[..headerLen], payload[..payloadLen], frameType, expected, skip)
    }

    constructor ()
      ensures InBounds() && fresh(header) && fresh(payload) && View() == INIT
    {
      header := new byte[HEADER_LEN](_ => 0);
      payload := new byte[MAX_RF_PAYLOAD](_ => 0);
      headerLen, payloadLen, expected, frameType, skip := 0, 0, 0, 0, 0;
      new;
      assert View() == INIT;
    }

    method Init()
      requires InBounds()
      modifies this
      ensures InBounds() && View() == INIT
    {
      headerLen, payloadLen, expected, frameType, skip := 0, 0, 0, 0, 0;
    }

    method CompleteFrame(log: seq<Event>, h: Handler) returns (log1: seq<Event>)
      requires InBounds() && payloadLen == expected
      modifies this
      ensures InBounds() && (log1, View()) == Complete(log, old(View()), h)
    {
      log1 := log;
      var result := 0;
      if frameType == TX_PACKET {
        var bytes := payload[..expected];
        log1, result := log1 + [Tx(bytes)], h(log1, bytes);
      } else {
        log1 := log1 + [Problem(UnsupportedFrame)];
      }
      if result != 0 {
        log1 := log1 + [Problem(TxFailed)];
      }
      assert payload[..expected] == View().payload;
      assert frameType == TX_PACKET && result == 0 ==> log1 == log + [Tx(View().payload)] + [];
      Init();
    }

    /** The header is complete: reject it and skip its declared payload, or take its
        type and length. */
    method HeaderIsReady(log: seq<Event>) returns (log1: seq<Event>)
      requires InBounds() && headerLen == HEADER_LEN && payloadLen == 0 && skip == 0
      modifies this
      ensures InBounds()
      ensures var t, len := old(header[0]), Read16(old(header[1]), old(header[2]));
              match HeaderProblem(t, len)
              case Some(what) => log1 == log + [Problem(what)] && View() == INIT.(skip := len)
              case None => log1 == log && View() == old(View()).(frameType := t, expected := len)
    {
      log1 := log;
      var t, len := header[0], Read16(header[1], header[2]);
      if !TypeKnown(t) {
        log1 := log1 + [Problem(UnknownType)];
        Init();
        skip := len;
        return;
      }
      if t != TX_PACKET {
        if len > MAX_RF_PAYLOAD {
          log1 := log1 + [Problem(UnsupportedTooLarge)];
          Init();
          skip := len;
          return;
        }
        frameType, expected := t, len;
        return;
      }
      if len > MAX_RF_PAYLOAD {
        log1 := log1 + [Problem(TxTooLarge)];
        Init();
        skip := len;
        return;
      }
      frameType, expected := t, len;
    }

    method FeedOne(log: seq<Event>, b: byte, h: Handler) returns (log1: seq<Event>)
      requires InBounds() && Valid(View())
      modifies this, header, payload
      ensures InBounds() && (log1, View()) == FeedByte(log, old(View()), b, h)
    {
      log1 := log;
      if skip > 0 {
        skip := skip - 1;
        return;
      }
      ghost var was := View();
      if headerLen < HEADER_LEN {
        header[headerLen] := b;
        headerLen := headerLen + 1;
        assert header[..headerLen] == was.header + [b];
        if headerLen == HEADER_LEN {
          assert header[..HEADER_LEN] == was.header + [b];
          log1 := HeaderIsReady(log1);
          if headerLen == 0 {
            return;
          }
          if expected == 0 {
            log1 := CompleteFrame(log1, h);
          }
        }
        return;
      }
      if payloadLen < expected {
        payload[payloadLen] := b;
        payloadLen := payloadLen + 1;
        assert payload[..payloadLen] == was.payload + [b];
        if payloadLen == expected {
          log1 := CompleteFrame(log1, h);
        }
      }
    }

    method FeedState(log: seq<Event>, bytes: seq<byte>, h: Handler) returns (log1: seq<Event>)
      requires InBounds() && Valid(View())
      modifies this, header, payload
      ensures InBounds() && (log1, View()) == Feed(log, old(View()), bytes, h)
    {
      log1 := log;
      var i := 0;
      while i < |bytes|
        invariant 0 <= i <= |bytes| && InBounds()
        invariant (log1, View()) == Feed(log, old(View()), bytes[..i], h)
      {
        FeedMore(log, old(View()), bytes, i, h);
        log1 := FeedOne(log1, bytes[i], h);
        i := i + 1;
      }
      assert bytes[..|bytes|] == bytes;
    }
  }
}
