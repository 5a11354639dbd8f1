/**
 * The framed DATA protocol (framed_data.cpp): a three-byte header (type, little-endian
 * length) and a payload; the encoders write into the caller's buffer.
 */
module FramedData {
  import opened Prelude

  const HEADER_LEN: nat := 3
  const MAX_RF_PAYLOAD: nat := 255
  const RX_META_LEN: nat := 4
  const TX_RESULT_LEN: nat := 4

  const RX_PACKET: byte := 1
  const TX_PACKET: byte := 2
  const ERROR: byte := 3
  const TX_RESULT: byte := 4

  const STATUS_INVALID_BAND: byte := 6

  predicate TypeKnown(t: byte) {
    t == RX_PACKET || t == TX_PACKET || t == ERROR || t == TX_RESULT
  }

  /** The lengths a frame of each type may declare. */
  predicate LenValid(t: byte, len: nat) {
    if t == TX_PACKET then len <= MAX_RF_PAYLOAD
    else if t == RX_PACKET then RX_META_LEN <= len <= RX_META_LEN + MAX_RF_PAYLOAD
    else if t == TX_RESULT then len == TX_RESULT_LEN
    else t == ERROR
  }

  predicate U16(n: int) {
    0 <= n < 0x1_0000
  }

  function Low(n: nat): byte
    requires U16(n)
  {
    n % 0x100
  }

  function High(n: nat): byte
    requires U16(n)
  {
    n / 0x100
  }

  function Read16(lo: byte, hi: byte): (n: nat)
    ensures U16(n)
  {
    lo + 0x100 * hi
  }

  /** int16 to its two's-complement 16 bits, and back. */
  function ToU16(v: int): (n: nat)
    requires -0x8000 <= v < 0x8000
    ensures U16(n)
  {
    if v < 0 then v + 0x1_0000 else v
  }

  function ToI16(n: nat): (v: int)
    requires U16(n)
    ensures -0x8000 <= v < 0x8000
  {
    if n >= 0x8000 then n - 0x1_0000 else n
  }

  lemma SixteenBits(n: nat)
    requires U16(n)
    ensures Read16(Low(n), High(n)) == n
  {
  }

  lemma SignedRoundTrip(v: int)
    requires -0x8000 <= v < 0x8000
    ensures ToI16(Read16(Low(ToU16(v)), High(ToU16(v)))) == v
  {
    SixteenBits(ToU16(v));
  }

  function Header(t: byte, len: nat): seq<byte>
    requires U16(len)
  {
    [t, Low(len), High(len)]
  }

  function Frame(t: byte, payload: seq<byte>): seq<byte>
    requires U16(|payload|)
  {
    Header(t, |payload|) + payload
  }

  datatype Decoded = Decoded(frameType: byte, len: nat) | Rejected

  function Decode(header: seq<byte>): Decoded {
    if |header| < HEADER_LEN then Rejected
    else
      var len := Read16(header[1], header[2]);
      if LenValid(header[0], len) then Decoded(header[0], len) else Rejected
  }

  /** A header decodes to what it was encoded from, exactly when its length is valid. */
  lemma DecodeHeader(t: byte, len: nat, rest: seq<byte>)
    requires U16(len)
    ensures Decode(Header(t, len) + rest) == if LenValid(t, len) then Decoded(t, len) else Rejected
  {
    SixteenBits(len);
  }

  method EncodeHeader(frame: array<byte>, t: byte, len: nat) returns (ok: bool)
    requires U16(len)
    modifies frame
    ensures ok <==> frame.Length >= HEADER_LEN && LenValid(t, len)
    ensures ok ==> frame[..] == Header(t, len) + old(frame[HEADER_LEN..])
    ensures !ok ==> frame[..] == old(frame[..])
  {
    if frame.Length < HEADER_LEN || !LenValid(t, len) {
      return false;
    }
    frame[0], frame[1], frame[2] := t, Low(len), High(len);
    ok := true;
  }

  method DecodeHeaderBytes(header: array<byte>) returns (r: Decoded)
    ensures r == Decode(header[..])
  {
    if header.Length < HEADER_LEN {
      return Rejected;
    }
    var len := Read16(header[1], header[2]);
    if !LenValid(header[0], len) {
      return Rejected;
    }
    r := Decoded(header[0], len);
  }

  method CopyIn(frame: array<byte>, at: nat, bytes: seq<byte>)
    requires at + |bytes| <= frame.Length
    modifies frame
    ensures frame[..] == old(frame[..at]) + bytes + old(frame[at + |bytes|..])
  {
    var i := 0;
    while i < |bytes|
      invariant 0 <= i <= |bytes|
      invariant frame[at..at + i] == bytes[..i]
      invariant frame[..at] == old(frame[..at]) && frame[at + i..] == old(frame[at + i..])
    {
      frame[at + i] := bytes[i];
      i := i + 1;
    }
    assert frame[..] == frame[..at] + frame[at..at + |bytes|] + frame[at + |bytes|..];
  }

  method EncodeFrame(frame: array<byte>, t: byte, payload: seq<byte>) returns (ok: bool)
    requires U16(|payload|)
    modifies frame
    ensures ok <==> frame.Length >= HEADER_LEN + |payload| && LenValid(t, |payload|)
    ensures ok ==> frame[..HEADER_LEN + |payload|] == Frame(t, payload)
    ensures !ok ==> frame[..] == old(frame[..])
  {
    if frame.Length < HEADER_LEN + |payload| {
      return false;
    }
    ok := EncodeHeader(frame, t, |payload|);
    if ok {
      CopyIn(frame, HEADER_LEN, payload);
    }
  }

  function RxPayload(rssi: int, snr: int, rf: seq<byte>): seq<byte>
    requires -0x8000 <= rssi < 0x8000 && -0x8000 <= snr < 0x8000
  {
    [Low(ToU16(rssi)), High(ToU16(rssi)), Low(ToU16(snr)), High(ToU16(snr))] + rf
  }

  method EncodeRxPacket(frame: array<byte>, rssi: int, snr: int, rf: seq<byte>) returns (ok: bool)
    requires -0x8000 <= rssi < 0x8000 && -0x8000 <= snr < 0x8000
    modifies frame
    ensures ok <==> |rf| <= MAX_RF_PAYLOAD && frame.Length >= HEADER_LEN + RX_META_LEN + |rf|
    ensures ok ==> frame[..HEADER_LEN + RX_META_LEN + |rf|] == Frame(RX_PACKET, RxPayload(rssi, snr, rf))
    ensures !ok ==> frame[..] == old(frame[..])
  {
    if |rf| > MAX_RF_PAYLOAD || frame.Length < HEADER_LEN + RX_META_LEN + |rf| {
      return false;
    }
    ok := EncodeHeader(frame, RX_PACKET, RX_META_LEN + |rf|);
    CopyIn(frame, HEADER_LEN, RxPayload(rssi, snr, rf)[..RX_META_LEN]);
    CopyIn(frame, HEADER_LEN + RX_META_LEN, rf);
  }

  method EncodeTxResult(frame: array<byte>, status: byte, flags: byte, seq_: nat) returns (ok: bool)
    requires U16(seq_)
    modifies frame
    ensures ok <==> status <= STATUS_INVALID_BAND && frame.Length >= HEADER_LEN + TX_RESULT_LEN
    ensures ok ==> frame[..HEADER_LEN + TX_RESULT_LEN] == Frame(TX_RESULT, [status, flags, Low(seq_), High(seq_)])
    ensures !ok ==> frame[..] == old(frame[..])
  {
    if status > STATUS_INVALID_BAND || frame.Length < HEADER_LEN + TX_RESULT_LEN {
      return false;
    }
    ok := EncodeHeader(frame, TX_RESULT, TX_RESULT_LEN);
    CopyIn(frame, HEADER_LEN, [status, flags, Low(seq_), High(seq_)]);
  }

  /** A frame on the wire: its type, its payload's length in two bytes, the low one first, and
      the payload. The types and the lengths they may have are those of the protocol. */
  lemma FrameReadsBack(t: byte, payload: seq<byte>)
    requires U16(|payload|)
    ensures var f := Frame(t, payload);
            && |f| == 3 + |payload| && f[0] == t && Read16(f[1], f[2]) == |payload| && f[3..] == payload
    ensures var low: int, high: int := Frame(t, payload)[1], Frame(t, payload)[2]; |payload| == low + 256 * high
  {
    SixteenBits(|payload|);
  }

  /** The lengths each type of frame may declare. */
  lemma LengthsAllowed(t: byte, len: nat, rest: seq<byte>)
    requires U16(len)
    ensures Decode(Header(t, len) + rest).Decoded? <==>
              (t == 1 && 4 <= len <= 259) || (t == 2 && len <= 255) || t == 3 || (t == 4 && len == 4)
  {
    DecodeHeader(t, len, rest);
  }

  lemma FrameAt(t: byte, payload: seq<byte>)
    requires U16(|payload|) && |payload| >= RX_META_LEN
    ensures var f := Frame(t, payload);
            && f[3] == payload[0] && f[4] == payload[1] && f[5] == payload[2] && f[6] == payload[3]
            && f[7..] == payload[RX_META_LEN..]
  {
  }

  /** A client reads back exactly the metadata and the RF bytes that were sent. */
  lemma RxPacketReadsBack(rssi: int, snr: int, rf: seq<byte>)
    requires -0x8000 <= rssi < 0x8000 && -0x8000 <= snr < 0x8000 && |rf| <= MAX_RF_PAYLOAD
    ensures var f := Frame(RX_PACKET, RxPayload(rssi, snr, rf));
            && Decode(f) == Decoded(RX_PACKET, RX_META_LEN + |rf|)
            && |f| == HEADER_LEN + RX_META_LEN + |rf|
            && ToI16(Read16(f[3], f[4])) == rssi && ToI16(Read16(f[5], f[6])) == snr && f[7..] == rf
  {
    SignedRoundTrip(rssi);
    SignedRoundTrip(snr);
    var payload := RxPayload(rssi, snr, rf);
    DecodeHeader(RX_PACKET, |payload|, payload);
    FrameAt(RX_PACKET, payload);
  }
}
