/**
 * What a CONF line comes to, key by key: which settings an accepted line leaves in the
 * driver, and what each answer means.
 */
module ConfigOutcome {
  import opened Prelude
  import opened ConfigParser
  import opened ConfigPolicy
  import opened ConfigValidate
  import opened ConfigApply
  import opened ConfigApplyReplay
  import R = ConfigReplay

  // ---- the keys of each mode -----------------------------------------------------------------

  const LORA_KEYS: set<string> := {"FREQ", "POWER", "PREAMBLE", "SYNC", "SF", "BW", "CR", "LDRO", "CRC"}
  const FSK_KEYS: set<string> :=
    {"FREQ", "POWER", "PREAMBLE", "SYNC", "BR", "FREQDEV", "RXBW", "OOK", "SHAPING", "ENCODING"}

  /** The keys the radio is set by in that mode. */
  function KeysOf(mode: Mode): set<string> {
    if mode == LoRa then LORA_KEYS else FSK_KEYS
  }

  lemma KeysExactly(mode: Mode, k: string)
    ensures KnownKey(k) <==> k == "GETRSSI" || k in LORA_KEYS || k in FSK_KEYS
    ensures KnownKey(k) ==> (k != "GETRSSI" && !ForeignKey(mode, k) <==> k in KeysOf(mode))
  {
  }

  // ---- what is set --------------------------------------------------------------------------------

  /** Each key of the mode set to its token's value, every other setting as before. */
  predicate SetBy(before: map<string, string>, mode: Mode, kvs: seq<R.Entry>, after: map<string, string>) {
    && (forall kv | kv in kvs && kv.0 in KeysOf(mode) :: kv.0 in after && after[kv.0] == kv.1)
    && (forall k | k in before.Keys + after.Keys ::
          (forall kv | kv in kvs :: kv.0 in KeysOf(mode) ==> kv.0 != k) ==> k in before && k in after && before[k] == after[k])
  }

  lemma SetByMore(before: map<string, string>, mode: Mode, front: seq<R.Entry>, last: R.Entry, mid: map<string, string>)
    requires SetBy(before, mode, front, mid) && forall kv | kv in front :: kv.0 != last.0
    ensures SetBy(before, mode, front + [last], if last.0 in KeysOf(mode) then mid[last.0 := last.1] else mid)
  {
  }

  lemma {:induction false} KeysSet(u: Setup, run: Run, kvs: seq<R.Entry>)
    requires run.ok && run.p.driver.Driver? && TokensGood(u, run.p.mode, kvs) && DistinctKeys(kvs)
    ensures var r := ApplyKeys(u, run, kvs, None);
            && r.ok && r.p.mode == run.p.mode && r.p.getrssi == run.p.getrssi
            && r.p.driver.Driver? && r.p.driver.mode == run.p.driver.mode
            && SetBy(run.p.driver.settings, run.p.mode, kvs, r.p.driver.settings)
  {
    if kvs != [] {
      var front, last := kvs[..|kvs| - 1], kvs[|kvs| - 1];
      assert kvs == front + [last];
      KeysSet(u, run, front);
      assert TokenGood(u.c, run.p.mode, last);
      KeysExactly(run.p.mode, last.0);
      SetByMore(run.p.driver.settings, run.p.mode, front, last, ApplyKeys(u, run, front, None).p.driver.settings);
    }
  }

  /** The flag of channel listening after these tokens: GETRSSI's value, if one is there. */
  predicate FlagBy(num: Numerals, before: bool, kvs: seq<R.Entry>, after: bool) {
    && (forall kv | kv in kvs && kv.0 == "GETRSSI" :: after <==> num.int_(kv.1) == Some(1))
    && ((forall kv | kv in kvs :: kv.0 != "GETRSSI") ==> after == before)
  }

  lemma {:induction false} FlagSet(u: Setup, mode: Mode, before: bool, kvs: seq<R.Entry>)
    requires TokensGood(u, mode, kvs) && DistinctKeys(kvs)
    ensures FlagBy(u.c.num, before, kvs, SetGetrssiAll(u.c.num, before, kvs))
  {
    if kvs != [] {
      var front, last := kvs[..|kvs| - 1], kvs[|kvs| - 1];
      assert kvs == front + [last];
      FlagSet(u, mode, before, front);
      assert TokenGood(u.c, mode, last);
    }
  }

  lemma {:induction false} KeysTouch(u: Setup, run: Run, kvs: seq<R.Entry>)
    requires run.ok && TokensGood(u, run.p.mode, kvs)
    ensures var r := ApplyKeys(u, run, kvs, None);
            r.ok && r.p.mode == run.p.mode && (r.touched <==> run.touched || exists kv :: kv in kvs && kv.0 in KeysOf(run.p.mode))
  {
    if kvs != [] {
      var front, last := kvs[..|kvs| - 1], kvs[|kvs| - 1];
      assert kvs == front + [last];
      KeysTouch(u, run, front);
      assert TokenGood(u.c, run.p.mode, last);
      KeysExactly(run.p.mode, last.0);
      if last.0 in KeysOf(run.p.mode) { assert last in kvs; }
    }
  }

  /** The mode a command ends in. */
  function ModeAfter(mode: Mode, cmd: Command): Mode {
    if cmd.mode == "FSK" then Fsk else if cmd.mode == "LORA" then LoRa else mode
  }

  /** What an accepted line without a fault comes to: the mode it names; listening as
      GETRSSI says; in the driver every key of that mode set to its value and all else as
      before (nothing, after a MODE); and the radio is left alone if and only if it names no
      mode and no such key. */
  lemma AcceptedLineSets(u: Setup, p: Pipe, line: string)
    requires OneLine(line) && Apply(u, p, line, None).0 in {Applied, OkNoRadio}
    ensures var cmd := Parse(line);
            var (status, q) := Apply(u, p, line, None);
            && q.mode == ModeAfter(p.mode, cmd) && FlagBy(u.c.num, p.getrssi, cmd.tokens, q.getrssi)
            && (cmd.mode != "" || p.driver.Driver? ==>
                  q.driver.Driver? && SetBy(if cmd.mode == "" then p.driver.settings else map[], q.mode, cmd.tokens, q.driver.settings))
            && (status == OkNoRadio <==> cmd.mode == "" && forall kv | kv in cmd.tokens :: kv.0 !in KeysOf(q.mode))
  {
    var cmd := Parse(line);
    ParsedTokensClean(line);
    AcceptedExactlyWhen(u.c, cmd, p.mode);
    var p1 := p.(shadow := Some(Shadow(u, p)));
    var start := if cmd.mode == "" then Run(true, false, 0, p1) else SwitchMode(u, p1, ModeOf(cmd.mode).GetOr(p1.mode), None);
    var flagged := start.(p := start.p.(getrssi := SetGetrssiAll(u.c.num, p.getrssi, cmd.tokens)));
    assert TokensGood(u, flagged.p.mode, cmd.tokens);
    FlagSet(u, flagged.p.mode, p.getrssi, cmd.tokens);
    KeysTouch(u, flagged, cmd.tokens);
    if flagged.p.driver.Driver? { KeysSet(u, flagged, cmd.tokens); }
    KeysLeaveFlag(u, flagged, cmd.tokens);
  }

  // ---- a driver call that fails -------------------------------------------------------------------

  /** The tokens the radio is set by in that mode. */
  function OwnTokens(mode: Mode, kvs: seq<R.Entry>): nat {
    if kvs == [] then 0
    else OwnTokens(mode, kvs[..|kvs| - 1]) + if kvs[|kvs| - 1].0 in KeysOf(mode) then 1 else 0
  }

  lemma {:induction false} KeysCalled(u: Setup, run: Run, kvs: seq<R.Entry>)
    requires run.ok && TokensGood(u, run.p.mode, kvs)
    ensures var r := ApplyKeys(u, run, kvs, None);
            r.ok && r.p.mode == run.p.mode && r.calls == run.calls + OwnTokens(run.p.mode, kvs)
  {
    if kvs != [] {
      var front, last := kvs[..|kvs| - 1], kvs[|kvs| - 1];
      assert kvs == front + [last];
      KeysCalled(u, run, front);
      assert TokenGood(u.c, run.p.mode, last);
      KeysExactly(run.p.mode, last.0);
    }
  }

  lemma KeyFault(u: Setup, run: Run, kv: R.Entry, n: nat)
    requires run.ok && TokenGood(u.c, run.p.mode, kv) && run.calls <= n
    ensures var r := ApplyKey(u, run, kv, Some(n));
            if run.calls == n && kv.0 in KeysOf(run.p.mode) then !r.ok && r.calls == n + 1 && r.p.driver.Suspect?
            else r == ApplyKey(u, run, kv, None)
  {
    KeysExactly(run.p.mode, kv.0);
  }

  lemma {:induction false} KeysFault(u: Setup, run: Run, kvs: seq<R.Entry>, n: nat)
    requires run.ok && TokensGood(u, run.p.mode, kvs) && run.calls <= n
    ensures var r := ApplyKeys(u, run, kvs, Some(n));
            if n < run.calls + OwnTokens(run.p.mode, kvs) then !r.ok && r.calls == n + 1 && r.p.driver.Suspect?
            else r == ApplyKeys(u, run, kvs, None)
  {
    if kvs != [] {
      var front, last := kvs[..|kvs| - 1], kvs[|kvs| - 1];
      assert kvs == front + [last];
      KeysFault(u, run, front, n);
      KeysCalled(u, run, front);
      if n >= run.calls + OwnTokens(run.p.mode, front) {
        KeyFault(u, ApplyKeys(u, run, front, None), last, n);
      }
    }
  }

  function Calls(mode: Mode, cmd: Command): nat {
    (if cmd.mode == "" then 0 else 1) + OwnTokens(ModeAfter(mode, cmd), cmd.tokens)
  }

  lemma CommitFault(u: Setup, p: Pipe, cmd: Command, n: nat)
    requires cmd.mode in {"", "FSK", "LORA"} && TokensGood(u, ModeAfter(p.mode, cmd), cmd.tokens)
    ensures var none, run := CommitRun(u, p, cmd, None), CommitRun(u, p, cmd, Some(n));
            && none.ok && none.calls == Calls(p.mode, cmd)
            && if n < Calls(p.mode, cmd) then !run.ok && run.calls == n + 1 && run.p.driver.Suspect? else run == none
  {
    var start := if cmd.mode == "" then Run(true, false, 0, p) else SwitchMode(u, p, ModeOf(cmd.mode).GetOr(p.mode), None);
    var flagged := start.(p := start.p.(getrssi := SetGetrssiAll(u.c.num, p.getrssi, cmd.tokens)));
    assert flagged.p.mode == ModeAfter(p.mode, cmd);
    KeysCalled(u, flagged, cmd.tokens);
    if flagged.calls <= n { KeysFault(u, flagged, cmd.tokens, n); }
  }

  /** An accepted line makes one driver call for its MODE and one for each key of the mode it
      ends in. If the n-th of them fails the line ends there, as a hardware error, with the
      driver suspect; a failure that none of them meets changes nothing. */
  lemma FaultExactly(u: Setup, p: Pipe, line: string, n: nat)
    requires OneLine(line) && Apply(u, p, line, None).0 in {Applied, OkNoRadio}
    ensures DriverCalls(u, p, line, None) == Calls(p.mode, Parse(line))
    ensures if n < Calls(p.mode, Parse(line)) then
              && Apply(u, p, line, Some(n)).0 == HwError && Apply(u, p, line, Some(n)).1.driver.Suspect?
              && DriverCalls(u, p, line, Some(n)) == n + 1
            else Apply(u, p, line, Some(n)) == Apply(u, p, line, None)
  {
    var cmd := Parse(line);
    ParsedTokensClean(line);
    VerdictExactly(u.c, cmd, p.mode);
    AcceptedExactlyWhen(u.c, cmd, p.mode);
    CommitFault(u, p.(shadow := Some(Shadow(u, p))), cmd, n);
  }

  // ---- what the answers mean ----------------------------------------------------------------------

  predicate FineAt(c: Context, mode: Mode, kvs: seq<R.Entry>, i: nat)
    requires i < |kvs|
  {
    TokenGood(c, mode, kvs[i]) && forall j | 0 <= j < i :: kvs[j].0 != kvs[i].0
  }

  /** Nothing is wrong with the first n tokens. */
  predicate FineUpTo(c: Context, mode: Mode, kvs: seq<R.Entry>, n: nat) {
    forall i: nat | i < |kvs| && i < n :: FineAt(c, mode, kvs, i)
  }

  predicate UnknownAt(c: Context, mode: Mode, kvs: seq<R.Entry>, i: nat) {
    i < |kvs| && kvs[i].0 !in LORA_KEYS + FSK_KEYS + {"GETRSSI"} && FineUpTo(c, mode, kvs, i)
  }

  lemma FaultMeans(c: Context, mode: Mode, kvs: seq<R.Entry>, i: nat)
    requires i < |kvs|
    ensures var fault := TokenFault(c, mode, kvs, i);
            && (fault.None? <==> FineAt(c, mode, kvs, i))
            && (fault == Some(UnknownKey) <==> kvs[i].0 !in LORA_KEYS + FSK_KEYS + {"GETRSSI"})
            && fault != Some(MalformedToken)
  {
    KeysExactly(mode, kvs[i].0);
  }

  lemma FineIsKnown(c: Context, mode: Mode, kvs: seq<R.Entry>, n: nat, i: nat)
    requires FineUpTo(c, mode, kvs, n) && i < n && i < |kvs|
    ensures !UnknownAt(c, mode, kvs, i)
  {
    assert FineAt(c, mode, kvs, i);
    KeysExactly(mode, kvs[i].0);
  }

  /** The first token with a fault is the only one that may be the unknown key. */
  lemma FaultStops(c: Context, mode: Mode, kvs: seq<R.Entry>, n: nat)
    requires n < |kvs| && FineUpTo(c, mode, kvs, n) && TokenFault(c, mode, kvs, n).Some?
    ensures !FineUpTo(c, mode, kvs, |kvs|)
    ensures UnknownAt(c, mode, kvs, n) <==> TokenFault(c, mode, kvs, n) == Some(UnknownKey)
    ensures forall i: nat | i != n :: !UnknownAt(c, mode, kvs, i)
  {
    FaultMeans(c, mode, kvs, n);
    forall i: nat | i != n ensures !UnknownAt(c, mode, kvs, i) {
      if i < n { FineIsKnown(c, mode, kvs, n, i); }
    }
  }

  lemma OneMoreFine(c: Context, mode: Mode, kvs: seq<R.Entry>, n: nat)
    requires n < |kvs| && FineUpTo(c, mode, kvs, n) && TokenFault(c, mode, kvs, n).None?
    ensures FineUpTo(c, mode, kvs, n + 1)
  {
    FaultMeans(c, mode, kvs, n);
  }

  /** What the verdict on a token line says. */
  ghost predicate VerdictSays(c: Context, mode: Mode, kvs: seq<R.Entry>, v: Verdict) {
    && (v.Valid? <==> FineUpTo(c, mode, kvs, |kvs|))
    && (v.Invalid? && v.why == UnknownKey <==> exists i: nat :: UnknownAt(c, mode, kvs, i))
    && (v.Invalid? ==> v.why != MalformedToken)
  }

  lemma {:induction false} UnknownKeyFirst(c: Context, mode: Mode, kvs: seq<R.Entry>, n: nat)
    requires n <= |kvs| && FineUpTo(c, mode, kvs, n)
    ensures VerdictSays(c, mode, kvs, ValidateFrom(c, mode, kvs, n))
    decreases |kvs| - n
  {
    if n == |kvs| {
      forall i: nat ensures !UnknownAt(c, mode, kvs, i) {
        if i < n { FineIsKnown(c, mode, kvs, n, i); }
      }
    } else if TokenFault(c, mode, kvs, n).None? {
      OneMoreFine(c, mode, kvs, n);
      UnknownKeyFirst(c, mode, kvs, n + 1);
    } else {
      FaultStops(c, mode, kvs, n);
      FaultMeans(c, mode, kvs, n);
    }
  }

  /** A SET with parameters that is well formed and names at most one, known mode. */
  predicate Shaped(cmd: Command) {
    && cmd.isSet && cmd.hasParams && cmd.malformed == []
    && cmd.modeCount <= 1 && cmd.mode in {"", "FSK", "LORA"}
  }

  lemma VerdictExactly(c: Context, cmd: Command, mode: Mode)
    requires cmd.isSet && cmd.hasParams
    ensures var target := ModeAfter(mode, cmd);
            var v := Validate(c, cmd, mode);
            && (v.Valid? <==> Shaped(cmd) && FineUpTo(c, target, cmd.tokens, |cmd.tokens|))
            && (v.Valid? ==> v.target == target)
            && (v.Invalid? && v.why == MalformedToken <==> cmd.malformed != [])
            && (v.Invalid? && v.why == UnknownKey <==> Shaped(cmd) && exists i: nat :: UnknownAt(c, target, cmd.tokens, i))
  {
    var target := ModeAfter(mode, cmd);
    UnknownKeyFirst(c, target, cmd.tokens, 0);
    ValidateFromMeans(c, target, cmd.tokens, 0);
    if Shaped(cmd) { assert Validate(c, cmd, mode) == ValidateFrom(c, target, cmd.tokens, 0); }
  }

  /** Which line gets which answer. */
  lemma AnswersExactly(u: Setup, p: Pipe, line: string, fault: Option<nat>)
    ensures var cmd := Parse(line);
            var target := ModeAfter(p.mode, cmd);
            var status := Apply(u, p, line, fault).0;
            && (status == RejectedMalformed <==> cmd.isSet && (!cmd.hasParams || cmd.malformed != []))
            && (status == Unknown <==>
                  !cmd.isSet || (cmd.hasParams && Shaped(cmd) && exists i: nat :: UnknownAt(u.c, target, cmd.tokens, i)))
            && (status in {Applied, OkNoRadio, HwError} <==>
                  Shaped(cmd) && FineUpTo(u.c, target, cmd.tokens, |cmd.tokens|) && Gate(u, p, cmd, target))
  {
    var cmd := Parse(line);
    if cmd.isSet && cmd.hasParams { VerdictExactly(u.c, cmd, p.mode); }
  }

  /** A refused line changes nothing. */
  lemma RefusedChangesNothing(u: Setup, p: Pipe, line: string, fault: Option<nat>)
    ensures var (status, q) := Apply(u, p, line, fault);
            status in {Unknown, RejectedMalformed, RejectedInvalid} ==>
              Shadow(u, q) == Shadow(u, p) && q == p.(shadow := q.shadow)
  {
  }
}
