/** The value policies and the airtime formulas (config_policy.cpp), over exact reals. */
module ConfigPolicy {
  datatype Mode = LoRa | Fsk
  datatype Family = SX127x | SX1262

  const MAX_AIRTIME_MS: real := 20000.0
  const MAX_PAYLOAD: nat := 255
  const FSK_SX127X_PAYLOAD: nat := 63

  /** radio_tx_payload_limit: the largest packet the radio takes in that mode. */
  function PayloadLimit(family: Family, mode: Mode): nat {
    if family == SX127x && mode == Fsk then FSK_SX127X_PAYLOAD else MAX_PAYLOAD
  }

  function AbsReal(x: real): real {
    if x < 0.0 then -x else x
  }

  predicate FloatEqual(a: real, b: real) {
    AbsReal(a - b) < 0.0001
  }

  predicate OneOf(x: real, allowed: seq<real>) {
    exists i | 0 <= i < |allowed| :: FloatEqual(x, allowed[i])
  }

  // ---- LoRa values -----------------------------------------------------------------------

  const LORA_BANDWIDTHS: seq<real> := [7.8, 10.4, 15.6, 20.8, 31.25, 41.7, 62.5, 125.0, 250.0, 500.0]

  predicate LoraSfValid(sf: int) { 7 <= sf <= 12 }
  predicate LoraBandwidthValid(bw: real) { OneOf(bw, LORA_BANDWIDTHS) }
  predicate LoraCrValid(cr: int) { 5 <= cr <= 8 }
  predicate LoraPreambleValid(p: int) { 6 <= p <= 512 }
  predicate LoraSyncValid(sync: nat) { sync <= 0xFF }

  predicate PowerValid(power: int, family: Family, highPower: bool, sx1262Max: int) {
    if family == SX127x then 2 <= power <= 17 || (highPower && power == 20)
    else 0 <= power <= sx1262Max
  }

  predicate FreqValid(f: real, min: real, max: real) {
    min > 0.0 && max > min && min <= f <= max
  }

  // ---- FSK values --------------------------------------------------------------------------

  const FSK_RXBW_SX127X: seq<real> := [2.6, 3.1, 3.9, 5.2, 6.3, 7.8, 10.4, 12.5, 15.6, 20.8, 25.0, 31.25, 31.3, 41.7,
                                       50.0, 62.5, 83.3, 100.0, 125.0, 166.7, 200.0, 250.0]
  const FSK_RXBW_SX1262: seq<real> := [4.8, 5.8, 7.3, 9.7, 11.7, 14.6, 19.5, 23.4, 29.3, 39.0, 46.9, 58.6, 78.2, 93.8,
                                       117.3, 156.2, 187.2, 234.3, 312.0, 373.6, 467.0]

  predicate FskBitrateValid(br: real) { 0.5 <= br <= 300.0 }

  predicate FskFreqdevValid(fd: real, family: Family) {
    0.0 < fd <= 200.0 && (family == SX1262 ==> fd >= 0.6)
  }

  predicate FskRxbwValid(bw: real, family: Family) {
    OneOf(bw, if family == SX1262 then FSK_RXBW_SX1262 else FSK_RXBW_SX127X)
  }

  predicate FskOokValid(ook: int, family: Family) { family != SX1262 && (ook == 0 || ook == 1) }

  predicate FskEncodingValid(e: int, family: Family) { 0 <= e <= 2 && (family == SX1262 ==> e != 1) }

  predicate FskPreambleValid(p: int) { 0 <= p <= 2048 }

  predicate FskSyncValid(sync: nat) {
    if sync == 0 || sync > 0xFFFF then false
    else if sync <= 0xFF then true
    else sync / 0x100 % 0x100 != 0 && sync % 0x100 != 0
  }

  // ---- airtime -----------------------------------------------------------------------------------

  function Pow2(n: nat): (p: nat)
    ensures p >= 1
  {
    if n == 0 then 1 else 2 * Pow2(n - 1)
  }

  /** Symbol time in ms: 2^SF over the bandwidth in kHz. */
  function SymbolMs(sf: nat, bwKhz: real): (t: real)
    requires bwKhz > 0.0
    ensures t > 0.0
  {
    Pow2(sf) as real / bwKhz
  }

  /** The one definition of the low-data-rate boundary. */
  predicate LdroRequired(sf: nat, bwKhz: real)
    requires bwKhz > 0.0
  {
    SymbolMs(sf, bwKhz) >= 16.0
  }

  function CeilDiv(a: nat, b: nat): nat
    requires b > 0
  {
    (a + b - 1) / b
  }

  /** Payload symbols: eight, and the coded blocks of a payload that needs any. */
  function PayloadSymbols(sf: nat, ldro: bool, cr: nat, len: nat): nat
    requires sf >= 6
  {
    var num := 8 * len + 28 + 16 - 4 * sf;
    var den := 4 * (if ldro then sf - 2 else sf);
    if num > 0 then 8 + CeilDiv(num, den) * cr else 8
  }

  /** Explicit header, CRC on; -1 for parameters outside the formula. */
  function LoraAirtimeMs(sf: int, bwKhz: real, cr: int, preamble: int, len: nat): real {
    if sf < 6 || bwKhz <= 0.0 || cr < 5 || preamble < 0 then -1.0
    else OnAirMs(preamble, PayloadSymbols(sf, LdroRequired(sf, bwKhz), cr, len), SymbolMs(sf, bwKhz))
  }

  /** Preamble, sync and payload symbols at the given symbol time. */
  function OnAirMs(preamble: nat, symbols: nat, symbolMs: real): real {
    (preamble as real + 4.25 + symbols as real) * symbolMs
  }

  function FskAirtimeMs(brKbps: real, preambleBits: int, len: nat): real {
    if brKbps <= 0.0 || preambleBits < 0 then -1.0
    else (preambleBits as real + 8.0 * (len as real + 10.0)) / brKbps
  }

  predicate WithinAirtime(ms: real) {
    0.0 <= ms <= MAX_AIRTIME_MS
  }

  // ---- a shorter packet is never longer on air -----------------------------------------------------

  lemma CeilDivMonotone(a: nat, b: nat, d: nat)
    requires d > 0 && a <= b
    ensures CeilDiv(a, d) <= CeilDiv(b, d)
  {
    var x, y := a + d - 1, b + d - 1;
    assert x == (x / d) * d + x % d && y == (y / d) * d + y % d;
    if x / d > y / d {
      ProductAtLeast(x / d, y / d + 1, d);
    }
  }

  lemma ProductAtLeast(x: nat, y: nat, d: nat)
    requires x >= y
    ensures x * d >= y * d
  {
  }

  lemma SymbolsMonotone(sf: nat, ldro: bool, cr: nat, shorter: nat, longer: nat)
    requires sf >= 6 && shorter <= longer
    ensures PayloadSymbols(sf, ldro, cr, shorter) <= PayloadSymbols(sf, ldro, cr, longer)
  {
    var den := 4 * (if ldro then sf - 2 else sf);
    var a, b := 8 * shorter + 44 - 4 * sf, 8 * longer + 44 - 4 * sf;
    if a > 0 {
      CeilDivMonotone(a, b, den);
      ProductAtLeast(CeilDiv(b, den), CeilDiv(a, den), cr);
    }
  }

  lemma OnAirMonotone(preamble: nat, fewer: nat, more: nat, symbolMs: real)
    requires fewer <= more && symbolMs > 0.0
    ensures 0.0 <= OnAirMs(preamble, fewer, symbolMs) <= OnAirMs(preamble, more, symbolMs)
  {
  }

  /** The gate checks the largest packet; every shorter one is then within the limit. */
  lemma LoraAirtimeMonotone(sf: int, bw: real, cr: int, preamble: int, shorter: nat, longer: nat)
    requires shorter <= longer && WithinAirtime(LoraAirtimeMs(sf, bw, cr, preamble, longer))
    ensures WithinAirtime(LoraAirtimeMs(sf, bw, cr, preamble, shorter))
    ensures LoraAirtimeMs(sf, bw, cr, preamble, shorter) <= LoraAirtimeMs(sf, bw, cr, preamble, longer)
  {
    var ldro, t := LdroRequired(sf, bw), SymbolMs(sf, bw);
    SymbolsMonotone(sf, ldro, cr, shorter, longer);
    OnAirMonotone(preamble, PayloadSymbols(sf, ldro, cr, shorter), PayloadSymbols(sf, ldro, cr, longer), t);
  }

  lemma QuotientMonotone(a: real, b: real, d: real)
    requires 0.0 <= a <= b && d > 0.0
    ensures 0.0 <= a / d <= b / d
  {
  }

  lemma FskAirtimeMonotone(br: real, preambleBits: int, shorter: nat, longer: nat)
    requires shorter <= longer && WithinAirtime(FskAirtimeMs(br, preambleBits, longer))
    ensures WithinAirtime(FskAirtimeMs(br, preambleBits, shorter))
    ensures FskAirtimeMs(br, preambleBits, shorter) <= FskAirtimeMs(br, preambleBits, longer)
  {
    QuotientMonotone(preambleBits as real + 8.0 * (shorter as real + 10.0), preambleBits as real + 8.0 * (longer as real + 10.0), br);
  }
}
