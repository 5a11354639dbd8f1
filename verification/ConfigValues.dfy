/**
 * The values of the CONF protocol's key table, as docs/conf-protocol.md lists them, and the
 * airtime formula against the least number of coded blocks.
 */
module ConfigValues {
  import opened Prelude
  import opened ConfigParser
  import opened ConfigPolicy
  import opened ConfigValidate

  // ---- texts ----------------------------------------------------------------------------------

  /** Blank, tab, line feed, vertical tab, form feed, carriage return. */
  predicate Blank(c: char) {
    (c as int) in {32, 9, 10, 11, 12, 13}
  }

  predicate AllSpace(s: string) {
    forall c | c in s :: Blank(c)
  }

  /** A text without blanks at its ends. */
  predicate Trimmed(s: string) {
    s != "" ==> !Blank(s[0]) && !Blank(s[|s| - 1])
  }

  lemma SpaceIsBlank(c: char)
    ensures Space(c) <==> Blank(c)
  {
  }

  const SMALL := "abcdefghijklmnopqrstuvwxyz"
  const CAPITAL := "ABCDEFGHIJKLMNOPQRSTUVWXYZ"

  lemma LetterIs(k: nat, c: char)
    requires k < 26
    ensures Upper([SMALL[k]]) == [CAPITAL[k]] && Lower([CAPITAL[k]]) == [SMALL[k]]
    ensures c !in SMALL ==> Upper([c]) == [c]
    ensures c !in CAPITAL ==> Lower([c]) == [c]
  {
    assert SMALL[k] as int == 97 + k && CAPITAL[k] as int == 65 + k;
    if 'a' <= c <= 'z' { assert SMALL[c as int - 97] == c; }
    if 'A' <= c <= 'Z' { assert CAPITAL[c as int - 65] == c; }
  }

  lemma LetterByLetter(s: string, i: nat)
    requires i < |s|
    ensures |Upper(s)| == |Lower(s)| == |s| && [Upper(s)[i]] == Upper([s[i]]) && [Lower(s)[i]] == Lower([s[i]])
  {
  }

  /** Keys are read in capitals and some values in small letters: each letter in its other
      form, every other character as it is. */
  lemma LettersAre(s: string, i: nat, k: nat)
    requires i < |s| && k < 26
    ensures |Upper(s)| == |Lower(s)| == |s|
    ensures s[i] == SMALL[k] ==> Upper(s)[i] == CAPITAL[k]
    ensures s[i] == CAPITAL[k] ==> Lower(s)[i] == SMALL[k]
    ensures s[i] !in SMALL ==> Upper(s)[i] == s[i]
    ensures s[i] !in CAPITAL ==> Lower(s)[i] == s[i]
  {
    LetterIs(k, s[i]);
    LetterByLetter(s, i);
  }

  lemma {:induction false} TrimRightIs(core: string, right: string)
    requires Trimmed(core) && AllSpace(right)
    ensures TrimRight(core + right) == core
  {
    if right == "" {
      assert core + right == core;
      if core != "" { SpaceIsBlank(core[|core| - 1]); }
    } else {
      var front := right[..|right| - 1];
      assert (core + right)[..|core + right| - 1] == core + front;
      assert right[|right| - 1] in right;
      SpaceIsBlank(right[|right| - 1]);
      forall c | c in front ensures Blank(c) { assert c in right; }
      TrimRightIs(core, front);
    }
  }

  lemma {:induction false} TrimLeftIs(left: string, rest: string)
    requires AllSpace(left) && (rest != "" ==> !Blank(rest[0]))
    ensures TrimLeft(left + rest) == rest
  {
    if left == "" {
      assert left + rest == rest;
      if rest != "" { SpaceIsBlank(rest[0]); }
    } else {
      assert (left + rest)[1..] == left[1..] + rest;
      assert left[0] in left;
      SpaceIsBlank(left[0]);
      forall c | c in left[1..] ensures Blank(c) { assert c in left; }
      TrimLeftIs(left[1..], rest);
    }
  }

  /** The normal form of a text: the blanks around it dropped, its letters in lower case. */
  lemma NormalIs(left: string, core: string, right: string)
    requires AllSpace(left) && AllSpace(right) && Trimmed(core) && core != ""
    ensures Normal(left + core + right) == Lower(core)
  {
    assert left + core + right == left + (core + right);
    assert (core + right)[0] == core[0];
    TrimLeftIs(left, core + right);
    TrimRightIs(core, right);
  }

  /** docs/conf-protocol.md takes LDRO=AUTO and LDRO=auto only; any mix of cases is taken. */
  lemma LdroTakesAnyCase(c: Context)
    ensures ValueOk(c, LoRa, "LDRO", "Auto")
  {
    NormalIs("", "Auto", "");
    assert "" + "Auto" + "" == "Auto" && Lower("Auto") == "auto";
  }

  // ---- the key table -----------------------------------------------------------------------------

  predicate IntIn(c: Context, v: string, low: int, high: int) {
    c.num.int_(v).Some? && low <= c.num.int_(v).value <= high
  }

  predicate RealIn(c: Context, v: string, low: real, high: real) {
    c.num.float(v).Some? && low <= c.num.float(v).value <= high
  }

  /** A number in the list, give or take the tolerance of a float. */
  predicate Near(x: real, values: seq<real>) {
    exists i | 0 <= i < |values| :: values[i] - 0.0001 < x < values[i] + 0.0001
  }

  predicate RealNear(c: Context, v: string, values: seq<real>) {
    c.num.float(v).Some? && Near(c.num.float(v).value, values)
  }

  const BW_TABLE := [7.8, 10.4, 15.6, 20.8, 31.25, 41.7, 62.5, 125.0, 250.0, 500.0]
  const SHAPING_TABLE := [0.0, 0.3, 0.5, 0.7, 1.0]
  const RXBW_TABLE_SX127X := [2.6, 3.1, 3.9, 5.2, 6.3, 7.8, 10.4, 12.5, 15.6, 20.8, 25.0, 31.25, 31.3, 41.7, 50.0, 62.5,
                              83.3, 100.0, 125.0, 166.7, 200.0, 250.0]
  const RXBW_TABLE_SX1262 := [4.8, 5.8, 7.3, 9.7, 11.7, 14.6, 19.5, 23.4, 29.3, 39.0, 46.9, 58.6, 78.2, 93.8, 117.3,
                              156.2, 187.2, 234.3, 312.0, 373.6, 467.0]

  /** FREQ and POWER, the same in both modes. */
  predicate DocumentedCommon(c: Context, k: string, v: string) {
    if k == "FREQ" then 0.0 < c.freqMin < c.freqMax && RealIn(c, v, c.freqMin, c.freqMax)
    else if c.family == SX127x then IntIn(c, v, 2, 17) || (c.highPower && IntIn(c, v, 20, 20))
    else IntIn(c, v, 0, c.sx1262Max)
  }

  predicate DocumentedLora(c: Context, k: string, v: string) {
    if k == "FREQ" || k == "POWER" then DocumentedCommon(c, k, v)
    else if k == "SF" then IntIn(c, v, 7, 12)
    else if k == "BW" then RealNear(c, v, BW_TABLE)
    else if k == "CR" then IntIn(c, v, 5, 8)
    else if k == "PREAMBLE" then IntIn(c, v, 6, 512)
    else if k == "SYNC" then c.num.u32(v).Some? && c.num.u32(v).value <= 255
    else if k == "LDRO" then Normal(v) == "auto" || IntIn(c, v, 0, 1)
    else IntIn(c, v, 0, 1)
  }

  /** Of the FSK sync word: one or two bytes, none of them zero. */
  predicate TwoBytes(n: nat, high: nat, low: nat) {
    1 <= high <= 255 && 1 <= low <= 255 && n == 256 * high + low
  }

  predicate SyncBytes(n: nat) {
    1 <= n <= 255 || exists high: nat, low: nat | high <= 255 && low <= 255 :: TwoBytes(n, high, low)
  }

  predicate DocumentedFsk(c: Context, k: string, v: string) {
    if k == "FREQ" || k == "POWER" then DocumentedCommon(c, k, v)
    else if k == "BR" then RealIn(c, v, 0.5, 300.0)
    else if k == "FREQDEV" then
      c.num.float(v).Some? && 0.0 < c.num.float(v).value <= 200.0 && (c.family == SX1262 ==> c.num.float(v).value >= 0.6)
    else if k == "RXBW" then
      RealNear(c, v, if c.family == SX127x then RXBW_TABLE_SX127X else RXBW_TABLE_SX1262)
    else if k == "OOK" then c.family == SX127x && IntIn(c, v, 0, 1)
    else if k == "SHAPING" then
      var n := Normal(v); n == "off" || n == "none" || RealNear(c, n, SHAPING_TABLE)
    else if k == "ENCODING" then if c.family == SX127x then IntIn(c, v, 0, 2) else IntIn(c, v, 0, 0) || IntIn(c, v, 2, 2)
    else if k == "PREAMBLE" then IntIn(c, v, 0, 2048)
    else c.num.u32(v).Some? && SyncBytes(c.num.u32(v).value)
  }

  lemma SyncIsBytes(n: nat)
    ensures FskSyncValid(n) <==> SyncBytes(n)
  {
    var high, low := n / 256, n % 256;
    if h: nat, l: nat :| h <= 255 && l <= 255 && TwoBytes(n, h, l) {
      assert h == high && l == low && high % 256 == high;
    }
    if FskSyncValid(n) && n > 255 {
      assert high <= 255 && high % 256 == high;
      assert TwoBytes(n, high, low);
    }
  }

  lemma NearIs(x: real, values: seq<real>)
    ensures OneOf(x, values) <==> Near(x, values)
  {
    forall i | 0 <= i < |values| ensures FloatEqual(x, values[i]) <==> values[i] - 0.0001 < x < values[i] + 0.0001 {}
  }

  /** A value is accepted exactly as the table says. */
  lemma ValuesAsDocumented(c: Context, k: string, v: string)
    ensures k in {"FREQ", "POWER", "PREAMBLE", "SYNC", "SF", "BW", "CR", "LDRO", "CRC"} ==>
              (ValueOk(c, LoRa, k, v) <==> DocumentedLora(c, k, v))
    ensures k in {"FREQ", "POWER", "PREAMBLE", "SYNC", "BR", "FREQDEV", "RXBW", "OOK", "SHAPING", "ENCODING"} ==>
              (ValueOk(c, Fsk, k, v) <==> DocumentedFsk(c, k, v))
  {
    var f, n := c.num.float(v), c.num.float(Normal(v));
    if k == "BW" && f.Some? {
      NearIs(f.value, BW_TABLE);
    } else if k == "SHAPING" && n.Some? {
      NearIs(n.value, SHAPING_TABLE);
    } else if k == "RXBW" && f.Some? {
      NearIs(f.value, RXBW_TABLE_SX127X);
      NearIs(f.value, RXBW_TABLE_SX1262);
    } else if k == "SYNC" && c.num.u32(v).Some? {
      SyncIsBytes(c.num.u32(v).value);
    }
  }

  // ---- the airtime formula -------------------------------------------------------------------------

  /** The fewest blocks that carry so many bits. */
  predicate FewestBlocks(bits: int, block: nat, n: nat) {
    n * block >= bits && (n == 0 || (n - 1) * block < bits)
  }

  lemma CeilIsFewest(a: nat, b: nat)
    requires b > 0
    ensures FewestBlocks(a, b, CeilDiv(a, b))
  {
    var x := a + b - 1;
    assert x == (x / b) * b + x % b;
    if x / b > 0 { assert (x / b - 1) * b == (x / b) * b - b; }
  }

  lemma OnAirIs(preamble: nat, coded: nat, t: real)
    ensures OnAirMs(preamble, 8 + coded, t) == (preamble as real + 12.25 + coded as real) * t
  {
    assert (8 + coded) as real == 8.0 + coded as real;
  }

  /** Eight symbols, and the coded blocks of the fewest that carry the packet. */
  lemma SymbolsAre(sf: nat, ldro: bool, cr: nat, len: nat) returns (n: nat)
    requires sf >= 6
    ensures FewestBlocks(8 * len + 44 - 4 * sf, 4 * (if ldro then sf - 2 else sf), n)
    ensures PayloadSymbols(sf, ldro, cr, len) == 8 + n * cr
  {
    var bits, block := 8 * len + 44 - 4 * sf, 4 * (if ldro then sf - 2 else sf);
    n := if bits > 0 then CeilDiv(bits, block) else 0;
    if bits > 0 { CeilIsFewest(bits, block); }
  }

  /** A LoRa packet is on air for its preamble, 4.25 symbols of sync and eight, and the coded
      blocks of the fewest that carry it, two bits less each where a symbol takes 16 ms or
      more. */
  lemma AirtimeIs(sf: nat, bw: real, cr: nat, preamble: nat, len: nat) returns (n: nat, t: real)
    requires 6 <= sf && bw > 0.0 && cr >= 5
    ensures t == Pow2(sf) as real / bw
    ensures FewestBlocks(8 * len + 44 - 4 * sf, 4 * (if t >= 16.0 then sf - 2 else sf), n)
    ensures LoraAirtimeMs(sf, bw, cr, preamble, len) == (preamble as real + 12.25 + (n * cr) as real) * t
  {
    t := SymbolMs(sf, bw);
    n := SymbolsAre(sf, t >= 16.0, cr, len);
    SameTime(sf, bw, cr, preamble, len, n * cr, t);
  }

  lemma SameTime(sf: nat, bw: real, cr: nat, preamble: nat, len: nat, coded: nat, t: real)
    requires 6 <= sf && bw > 0.0 && cr >= 5 && t == SymbolMs(sf, bw)
    requires PayloadSymbols(sf, t >= 16.0, cr, len) == 8 + coded
    ensures LoraAirtimeMs(sf, bw, cr, preamble, len) == (preamble as real + 12.25 + coded as real) * t
  {
    assert LoraAirtimeMs(sf, bw, cr, preamble, len) == OnAirMs(preamble, 8 + coded, t);
    OnAirIs(preamble, coded, t);
  }

  /** An FSK packet is on air for its preamble's bits, ten bytes and itself, at the bit rate. */
  lemma FskAirtimeIs(br: real, preambleBits: nat, len: nat)
    requires br > 0.0
    ensures FskAirtimeMs(br, preambleBits, len) == (preambleBits + 8 * (len + 10)) as real / br
  {
  }
}
