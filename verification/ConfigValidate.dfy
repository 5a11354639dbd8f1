/**
 * Whole-command validation of a SET (config_validate.cpp): every key and value is
 * judged for the mode the command ends in, before anything is applied.
 *
 * How a numeral is read is a parameter: each reader is any partial function of the
 * text. Everything proved holds for every reader.
 */
module ConfigValidate {
  import opened Prelude
  import opened ConfigParser
  import opened ConfigPolicy

  datatype Numerals = Numerals(
    int_: string -> Option<int>,
    float: string -> Option<real>,
    u32: string -> Option<nat>)

  /** What the process fixes at boot. */
  datatype Context = Context(
    family: Family,
    freqMin: real,
    freqMax: real,
    highPower: bool,
    sx1262Max: int,
    num: Numerals)

  datatype Reason =
    | MalformedToken | DuplicateKey | UnknownMode | UnknownKey | InvalidBoolean
    | InvalidFskValue | InvalidLoraValue | OffBand | HighPowerNotEnabled

  datatype Verdict = Valid(target: Mode) | Invalid(key: string, value: string, why: Reason)

  // ---- keys --------------------------------------------------------------------------------

  predicate LoraOnlyKey(k: string) {
    k == "SF" || k == "BW" || k == "CR" || k == "LDRO" || k == "CRC"
  }

  predicate FskOnlyKey(k: string) {
    k == "BR" || k == "FREQDEV" || k == "RXBW" || k == "OOK" || k == "SHAPING" || k == "ENCODING"
  }

  predicate CommonKey(k: string) {
    k == "FREQ" || k == "POWER" || k == "PREAMBLE" || k == "SYNC"
  }

  predicate KnownKey(k: string) {
    k == "GETRSSI" || CommonKey(k) || LoraOnlyKey(k) || FskOnlyKey(k)
  }

  /** The keys the apply path ignores in the given mode. */
  predicate ForeignKey(mode: Mode, k: string) {
    if mode == Fsk then LoraOnlyKey(k) else FskOnlyKey(k)
  }

  // ---- values -----------------------------------------------------------------------------------

  predicate Space(c: char) {
    c == ' ' || ('\t' <= c <= '\r')
  }

  function TrimLeft(s: string): string {
    if s != "" && Space(s[0]) then TrimLeft(s[1..]) else s
  }

  function TrimRight(s: string): string {
    if s != "" && Space(s[|s| - 1]) then TrimRight(s[..|s| - 1]) else s
  }

  function LowerChar(c: char): char {
    if 'A' <= c <= 'Z' then (c as int + 32) as char else c
  }

  function Lower(s: string): string {
    seq(|s|, i requires 0 <= i < |s| => LowerChar(s[i]))
  }

  function Normal(s: string): string {
    Lower(TrimRight(TrimLeft(s)))
  }

  predicate Bool01(num: Numerals, v: string) {
    num.int_(v) == Some(0) || num.int_(v) == Some(1)
  }

  predicate FreqOk(c: Context, v: string) {
    c.num.float(v).Some? && FreqValid(c.num.float(v).value, c.freqMin, c.freqMax)
  }

  predicate PowerOk(c: Context, v: string) {
    c.num.int_(v).Some? && PowerValid(c.num.int_(v).value, c.family, c.highPower, c.sx1262Max)
  }

  predicate LoraValueOk(c: Context, k: string, v: string) {
    var i, f, u := c.num.int_(v), c.num.float(v), c.num.u32(v);
    if k == "FREQ" then FreqOk(c, v)
    else if k == "POWER" then PowerOk(c, v)
    else if k == "SF" then i.Some? && LoraSfValid(i.value)
    else if k == "BW" then f.Some? && LoraBandwidthValid(f.value)
    else if k == "CR" then i.Some? && LoraCrValid(i.value)
    else if k == "CRC" then Bool01(c.num, v)
    else if k == "PREAMBLE" then i.Some? && LoraPreambleValid(i.value)
    else if k == "SYNC" then u.Some? && LoraSyncValid(u.value)
    else if k == "LDRO" then Normal(v) == "auto" || Bool01(c.num, v)
    else true
  }

  predicate ShapingOk(num: Numerals, v: string) {
    var n := Normal(v);
    n == "off" || n == "none" || (num.float(n).Some? && OneOf(num.float(n).value, [0.0, 0.3, 0.5, 0.7, 1.0]))
  }

  predicate FskValueOk(c: Context, k: string, v: string) {
    var i, f, u := c.num.int_(v), c.num.float(v), c.num.u32(v);
    if k == "FREQ" then FreqOk(c, v)
    else if k == "POWER" then PowerOk(c, v)
    else if k == "BR" then f.Some? && FskBitrateValid(f.value)
    else if k == "FREQDEV" then f.Some? && FskFreqdevValid(f.value, c.family)
    else if k == "RXBW" then f.Some? && FskRxbwValid(f.value, c.family)
    else if k == "OOK" then Bool01(c.num, v) && FskOokValid(i.value, c.family)
    else if k == "SHAPING" then ShapingOk(c.num, v)
    else if k == "ENCODING" then i.Some? && FskEncodingValid(i.value, c.family)
    else if k == "PREAMBLE" then i.Some? && FskPreambleValid(i.value)
    else if k == "SYNC" then u.Some? && FskSyncValid(u.value)
    else true
  }

  predicate ValueOk(c: Context, mode: Mode, k: string, v: string) {
    if mode == Fsk then FskValueOk(c, k, v) else LoraValueOk(c, k, v)
  }

  /** The reason given: a valid frequency off the band, or a power that needs the
      boot permission, is named as such. */
  function RejectReason(c: Context, mode: Mode, k: string, v: string): Reason {
    if k == "POWER" && c.family == SX127x && !c.highPower && c.num.int_(v) == Some(20) then HighPowerNotEnabled
    else if k == "FREQ" && c.num.float(v).Some? && c.num.float(v).value > 0.0
            && !FreqValid(c.num.float(v).value, c.freqMin, c.freqMax) then OffBand
    else if mode == Fsk then InvalidFskValue else InvalidLoraValue
  }

  // ---- the whole command -----------------------------------------------------------------------------

  function ModeOf(name: string): Option<Mode> {
    if name == "FSK" then Some(Fsk) else if name == "LORA" then Some(LoRa) else None
  }

  predicate RepeatsEarlier(kvs: seq<(string, string)>, i: nat)
    requires i < |kvs|
  {
    exists j | 0 <= j < i :: kvs[j].0 == kvs[i].0
  }

  /** What is wrong with token `i`, if anything. */
  function TokenFault(c: Context, target: Mode, kvs: seq<(string, string)>, i: nat): Option<Reason>
    requires i < |kvs|
  {
    var (k, v) := kvs[i];
    if !KnownKey(k) then Some(UnknownKey)
    else if RepeatsEarlier(kvs, i) then Some(DuplicateKey)
    else if k == "GETRSSI" then (if Bool01(c.num, v) then None else Some(InvalidBoolean))
    else if ForeignKey(target, k) || ValueOk(c, target, k, v) then None
    else Some(RejectReason(c, target, k, v))
  }

  /** The first faulty token decides. */
  function ValidateFrom(c: Context, target: Mode, kvs: seq<(string, string)>, i: nat): Verdict
    requires i <= |kvs|
    decreases |kvs| - i
  {
    if i == |kvs| then Valid(target)
    else match TokenFault(c, target, kvs, i)
      case Some(why) => Invalid(kvs[i].0, kvs[i].1, why)
      case None => ValidateFrom(c, target, kvs, i + 1)
  }

  function Validate(c: Context, cmd: Command, current: Mode): Verdict {
    if !cmd.isSet || !cmd.hasParams then Valid(current)
    else if cmd.malformed != [] then Invalid(cmd.malformed[0], "", MalformedToken)
    else if cmd.modeCount > 1 then Invalid("MODE", cmd.mode, DuplicateKey)
    else if cmd.mode != "" && ModeOf(cmd.mode).None? then Invalid("MODE", cmd.mode, UnknownMode)
    else ValidateFrom(c, if cmd.mode == "" then current else ModeOf(cmd.mode).value, cmd.tokens, 0)
  }

  method ValidateCommand(c: Context, cmd: Command, current: Mode) returns (r: Verdict)
    ensures r == Validate(c, cmd, current)
  {
    if !cmd.isSet || !cmd.hasParams {
      return Valid(current);
    }
    if cmd.malformed != [] {
      return Invalid(cmd.malformed[0], "", MalformedToken);
    }
    if cmd.modeCount > 1 {
      return Invalid("MODE", cmd.mode, DuplicateKey);
    }
    var target := current;
    if cmd.mode != "" {
      if cmd.mode == "FSK" {
        target := Fsk;
      } else if cmd.mode == "LORA" {
        target := LoRa;
      } else {
        return Invalid("MODE", cmd.mode, UnknownMode);
      }
    }
    var i := 0;
    while i < |cmd.tokens|
      invariant 0 <= i <= |cmd.tokens|
      invariant ValidateFrom(c, target, cmd.tokens, i) == Validate(c, cmd, current)
    {
      var (k, v) := cmd.tokens[i];
      if !KnownKey(k) {
        return Invalid(k, v, UnknownKey);
      }
      for j := 0 to i
        invariant forall n | 0 <= n < j :: cmd.tokens[n].0 != k
      {
        if cmd.tokens[j].0 == k {
          return Invalid(k, v, DuplicateKey);
        }
      }
      if k == "GETRSSI" {
        if !Bool01(c.num, v) {
          return Invalid(k, v, InvalidBoolean);
        }
      } else if !ForeignKey(target, k) && !ValueOk(c, target, k, v) {
        return Invalid(k, v, RejectReason(c, target, k, v));
      }
      i := i + 1;
    }
    r := Valid(target);
  }

  // ---- what acceptance means ------------------------------------------------------------------------------

  predicate TokenGood(c: Context, target: Mode, kv: (string, string)) {
    && KnownKey(kv.0)
    && (kv.0 == "GETRSSI" ==> Bool01(c.num, kv.1))
    && (kv.0 != "GETRSSI" && !ForeignKey(target, kv.0) ==> ValueOk(c, target, kv.0, kv.1))
  }

  predicate DistinctKeys(kvs: seq<(string, string)>) {
    forall i, j | 0 <= i < j < |kvs| :: kvs[i].0 != kvs[j].0
  }

  lemma {:induction false} ValidateFromMeans(c: Context, target: Mode, kvs: seq<(string, string)>, i: nat)
    requires i <= |kvs|
    ensures ValidateFrom(c, target, kvs, i).Valid?
            <==> forall j | i <= j < |kvs| :: TokenGood(c, target, kvs[j]) && !RepeatsEarlier(kvs, j)
    ensures ValidateFrom(c, target, kvs, i).Valid? ==> ValidateFrom(c, target, kvs, i).target == target
    decreases |kvs| - i
  {
    if i < |kvs| {
      ValidateFromMeans(c, target, kvs, i + 1);
    }
  }

  /** A SET is accepted exactly when nothing in it is malformed, at most one MODE is
      named and known, and its keys are known, distinct and, for the mode it ends in,
      valid or foreign; the verdict then names that mode. */
  lemma AcceptedExactlyWhen(c: Context, cmd: Command, current: Mode)
    requires cmd.isSet && cmd.hasParams
    ensures var target := if cmd.mode == "" then current else ModeOf(cmd.mode).GetOr(current);
            Validate(c, cmd, current).Valid?
            <==> cmd.malformed == [] && cmd.modeCount <= 1 && (cmd.mode == "" || ModeOf(cmd.mode).Some?)
                 && (forall kv | kv in cmd.tokens :: TokenGood(c, target, kv)) && DistinctKeys(cmd.tokens)
    ensures Validate(c, cmd, current).Valid? ==>
              Validate(c, cmd, current).target == if cmd.mode == "" then current else ModeOf(cmd.mode).GetOr(current)
  {
    var target := if cmd.mode == "" then current else ModeOf(cmd.mode).GetOr(current);
    ValidateFromMeans(c, target, cmd.tokens, 0);
    RepeatsMeans(cmd.tokens);
    assert forall j | 0 <= j < |cmd.tokens| :: cmd.tokens[j] in cmd.tokens;
  }

  lemma RepeatsMeans(kvs: seq<(string, string)>)
    ensures DistinctKeys(kvs) <==> forall j | 0 <= j < |kvs| :: !RepeatsEarlier(kvs, j)
  {
    if !DistinctKeys(kvs) {
      var i, j :| 0 <= i < j < |kvs| && kvs[i].0 == kvs[j].0;
      assert RepeatsEarlier(kvs, j);
    }
  }
}
