/**
 * The replay refines the history: whatever CONF lines a process has applied, the one
 * command printed from the replay record rebuilds the same mode, the same driver
 * settings and the same shadow on a re-initialised radio.
 */
module ConfigApplyReplay {
  import opened Prelude
  import opened ConfigParser
  import opened ConfigPolicy
  import opened ConfigValidate
  import opened ConfigApply
  import R = ConfigReplay

  // ---- the shadow as a function of the record ----------------------------------------------

  function IntAt(num: Numerals, m: map<string, string>, k: string, default: int): int {
    if k in m then num.int_(m[k]).GetOr(default) else default
  }

  function FloatAt(num: Numerals, m: map<string, string>, k: string, default: real): real {
    if k in m then num.float(m[k]).GetOr(default) else default
  }

  /** The band defaults overridden by the recorded keys of the mode. */
  function EffectiveOf(u: Setup, mode: Mode, m: map<string, string>): Effective {
    var d, num := Defaults(u), u.c.num;
    if mode == LoRa then
      d.(sf := IntAt(num, m, "SF", d.sf), bw := FloatAt(num, m, "BW", d.bw), cr := IntAt(num, m, "CR", d.cr),
         preamble := IntAt(num, m, "PREAMBLE", d.preamble))
    else
      d.(br := FloatAt(num, m, "BR", d.br), fskPreamble := IntAt(num, m, "PREAMBLE", d.fskPreamble))
  }

  lemma NoteKeyIsUpdate(u: Setup, mode: Mode, m: map<string, string>, kv: R.Entry)
    requires ValueOk(u.c, mode, kv.0, kv.1)
    ensures NoteKey(u.c.num, mode, EffectiveOf(u, mode, m), kv) == EffectiveOf(u, mode, m[kv.0 := kv.1])
  {
  }

  // ---- the invariant -----------------------------------------------------------------------------

  /** A key the pipeline can have recorded in this mode. */
  predicate Recordable(u: Setup, mode: Mode, kv: R.Entry) {
    && KnownKey(kv.0) && kv.0 != "GETRSSI" && !ForeignKey(mode, kv.0)
    && ValueOk(u.c, mode, kv.0, kv.1)
  }

  predicate ModeRecorded(p: Pipe) {
    if p.replay.mode == "" then p.mode == LoRa else ModeOf(p.replay.mode) == Some(p.mode)
  }

  /** The record alone determines mode, shadow and, unless suspect, the driver. */
  ghost predicate Inv(u: Setup, p: Pipe) {
    && ModeRecorded(p)
    && R.UniqueKeys(p.replay.keys) && CleanTokens(p.replay.keys)
    && (forall kv | kv in p.replay.keys :: Recordable(u, p.mode, kv))
    && Shadow(u, p) == EffectiveOf(u, p.mode, R.MapOf(p.replay.keys))
    && (p.driver.Suspect? || p.driver == Driver(p.mode, R.MapOf(p.replay.keys)))
  }

  lemma BootInv(u: Setup)
    ensures Inv(u, Boot())
  {
  }

  lemma InNoted(keys: seq<R.Entry>, k: string, v: string, kv: R.Entry)
    requires kv in R.Note(keys, k, v)
    ensures kv in keys || kv == (k, v)
  {
  }

  lemma NoteKeepsInv(u: Setup, p: Pipe, kv: R.Entry)
    requires Inv(u, p) && Recordable(u, p.mode, kv) && CleanKey(kv.0) && CleanValue(kv.1)
    ensures Inv(u, p.(shadow := Some(NoteKey(u.c.num, p.mode, Shadow(u, p), kv)),
                      replay := p.replay.(keys := R.Note(p.replay.keys, kv.0, kv.1)),
                      driver := SetKey(p.driver, kv.0, kv.1)))
  {
    var keys := R.Note(p.replay.keys, kv.0, kv.1);
    R.NoteUnique(p.replay.keys, kv.0, kv.1);
    R.NoteIsUpdate(p.replay.keys, kv.0, kv.1);
    NoteKeyIsUpdate(u, p.mode, R.MapOf(p.replay.keys), kv);
    forall e | e in keys ensures Recordable(u, p.mode, e) && CleanKey(e.0) && CleanValue(e.1) {
      InNoted(p.replay.keys, kv.0, kv.1, e);
    }
  }

  predicate TokensGood(u: Setup, mode: Mode, kvs: seq<R.Entry>) {
    CleanTokens(kvs) && forall kv | kv in kvs :: TokenGood(u.c, mode, kv)
  }

  lemma {:induction false} ApplyKeysInv(u: Setup, run: Run, kvs: seq<R.Entry>, fault: Option<nat>)
    requires Inv(u, run.p) && TokensGood(u, run.p.mode, kvs)
    ensures Inv(u, ApplyKeys(u, run, kvs, fault).p) && ApplyKeys(u, run, kvs, fault).p.mode == run.p.mode
  {
    if kvs != [] {
      var front, last := kvs[..|kvs| - 1], kvs[|kvs| - 1];
      ApplyKeysInv(u, run, front, fault);
      assert last in kvs;
      var r := ApplyKeys(u, run, front, fault);
      if r.ok && last.0 != "GETRSSI" && !ForeignKey(r.p.mode, last.0) {
        NoteKeepsInv(u, r.p, last);
      }
    }
  }

  lemma CommitInv(u: Setup, p: Pipe, cmd: Command, fault: Option<nat>)
    requires Inv(u, p) && (cmd.mode == "" || ModeOf(cmd.mode).Some?)
    requires TokensGood(u, if cmd.mode == "" then p.mode else ModeOf(cmd.mode).value, cmd.tokens)
    ensures Inv(u, Commit(u, p, cmd, fault).1)
  {
    var start := if cmd.mode == "" then Run(true, false, 0, p) else SwitchMode(u, p, ModeOf(cmd.mode).GetOr(p.mode), fault);
    assert Inv(u, start.p);
    if start.ok {
      var flagged := start.(p := start.p.(getrssi := SetGetrssiAll(u.c.num, p.getrssi, cmd.tokens)));
      ApplyKeysInv(u, flagged, cmd.tokens, fault);
    }
  }

  lemma ApplyInv(u: Setup, p: Pipe, line: string, fault: Option<nat>)
    requires Inv(u, p) && OneLine(line)
    ensures Inv(u, Apply(u, p, line, fault).1)
  {
    var cmd := Parse(line);
    ParsedTokensClean(line);
    if cmd.isSet && cmd.hasParams && Validate(u.c, cmd, p.mode).Valid? {
      AcceptedExactlyWhen(u.c, cmd, p.mode);
      CommitInv(u, p.(shadow := Some(Shadow(u, p))), cmd, fault);
    }
  }

  // ---- what applying keys does, part by part ---------------------------------------------------------

  predicate AllRecordable(u: Setup, mode: Mode, kvs: seq<R.Entry>) {
    forall kv | kv in kvs :: Recordable(u, mode, kv)
  }

  function NoteKeys(num: Numerals, mode: Mode, e: Effective, kvs: seq<R.Entry>): Effective {
    if kvs == [] then e else NoteKey(num, mode, NoteKeys(num, mode, e, kvs[..|kvs| - 1]), kvs[|kvs| - 1])
  }

  lemma {:induction false} NoteKeysFromDefaults(u: Setup, mode: Mode, kvs: seq<R.Entry>)
    requires AllRecordable(u, mode, kvs)
    ensures NoteKeys(u.c.num, mode, Defaults(u), kvs) == EffectiveOf(u, mode, R.MapOf(kvs))
  {
    if kvs != [] {
      NoteKeysFromDefaults(u, mode, kvs[..|kvs| - 1]);
      assert kvs[|kvs| - 1] in kvs;
      NoteKeyIsUpdate(u, mode, R.MapOf(kvs[..|kvs| - 1]), kvs[|kvs| - 1]);
    }
  }

  /** From a fresh driver and the defaults, every key in turn. */
  lemma {:induction false} ApplyKeysParts(u: Setup, run: Run, kvs: seq<R.Entry>)
    requires run.ok && AllRecordable(u, run.p.mode, kvs) && Shadow(u, run.p) == Defaults(u)
    requires run.p.driver == Driver(run.p.mode, map[])
    ensures var r := ApplyKeys(u, run, kvs, None);
            && r.ok && (r.touched <==> run.touched || kvs != [])
            && r.p.mode == run.p.mode && r.p.getrssi == run.p.getrssi
            && Shadow(u, r.p) == NoteKeys(u.c.num, run.p.mode, Defaults(u), kvs)
            && r.p.replay == run.p.replay.(keys := R.NoteAll(run.p.replay.keys, kvs))
            && r.p.driver == Driver(run.p.mode, R.MapOf(kvs))
  {
    if kvs != [] {
      ApplyKeysParts(u, run, kvs[..|kvs| - 1]);
      assert kvs[|kvs| - 1] in kvs;
    }
  }

  // ---- the gate judges what apply will make of it ---------------------------------------------------------

  predicate SameAirtime(mode: Mode, a: Effective, b: Effective) {
    if mode == LoRa then a.sf == b.sf && a.bw == b.bw && a.cr == b.cr && a.preamble == b.preamble
    else a.br == b.br && a.fskPreamble == b.fskPreamble
  }

  lemma SameAirtimeOk(u: Setup, mode: Mode, a: Effective, b: Effective)
    requires SameAirtime(mode, a, b)
    ensures AirtimeOk(u, mode, a) == AirtimeOk(u, mode, b)
  {
  }

  /** Without a failing call the shadow ends on exactly the airtime the gate judged:
      the merged configuration and the applied one agree for the mode. */
  lemma {:induction false} MergeMatchesApply(u: Setup, run: Run, kvs: seq<R.Entry>, base: Effective)
    requires run.ok && SameAirtime(run.p.mode, base, Shadow(u, run.p))
    ensures var r := ApplyKeys(u, run, kvs, None);
            r.ok && r.p.mode == run.p.mode && SameAirtime(run.p.mode, MergeAll(u.c.num, run.p.mode, base, kvs), Shadow(u, r.p))
  {
    if kvs != [] {
      MergeMatchesApply(u, run, kvs[..|kvs| - 1], base);
      MergeOneMatches(u, ApplyKeys(u, run, kvs[..|kvs| - 1], None), kvs[|kvs| - 1],
                      MergeAll(u.c.num, run.p.mode, base, kvs[..|kvs| - 1]));
    }
  }

  lemma MergeOneMatches(u: Setup, run: Run, kv: R.Entry, merged: Effective)
    requires run.ok && SameAirtime(run.p.mode, merged, Shadow(u, run.p))
    ensures var r := ApplyKey(u, run, kv, None);
            r.ok && r.p.mode == run.p.mode && SameAirtime(run.p.mode, MergeOne(u.c.num, run.p.mode, merged, kv), Shadow(u, r.p))
  {
  }

  lemma ApplyKeepsAirtime(u: Setup, p: Pipe, line: string)
    requires AirtimeOk(u, p.mode, Shadow(u, p))
    ensures var q := Apply(u, p, line, None).1; AirtimeOk(u, q.mode, Shadow(u, q))
    ensures p.driver.Driver? ==> Apply(u, p, line, None).1.driver.Driver?
    ensures Apply(u, p, line, None).0 != HwError
  {
    var cmd := Parse(line);
    if cmd.isSet && cmd.hasParams {
      AcceptedExactlyWhen(u.c, cmd, p.mode);
      var v := Validate(u.c, cmd, p.mode);
      if v.Valid? && Gate(u, p, cmd, v.target) {
        var p1 := p.(shadow := Some(Shadow(u, p)));
        var start := if cmd.mode == "" then Run(true, false, 0, p1) else SwitchMode(u, p1, v.target, None);
        var flagged := start.(p := start.p.(getrssi := SetGetrssiAll(u.c.num, p.getrssi, cmd.tokens)));
        MergeMatchesApply(u, flagged, cmd.tokens, GateBase(u, p, cmd));
        var r := ApplyKeys(u, flagged, cmd.tokens, None);
        SameAirtimeOk(u, v.target, MergeAll(u.c.num, v.target, GateBase(u, p, cmd), cmd.tokens), Shadow(u, r.p));
        if p.driver.Driver? { KeysKeepDriver(u, flagged, cmd.tokens); }
      }
    }
  }

  lemma {:induction false} KeysKeepDriver(u: Setup, run: Run, kvs: seq<R.Entry>)
    requires run.ok && run.p.driver.Driver?
    ensures ApplyKeys(u, run, kvs, None).ok && ApplyKeys(u, run, kvs, None).p.driver.Driver?
  {
    if kvs != [] { KeysKeepDriver(u, run, kvs[..|kvs| - 1]); }
  }

  // ---- the replay ---------------------------------------------------------------------------------------------

  /** Replay's own parse, validation and gate, for any record the pipeline can hold. */
  lemma ReplayAccepted(u: Setup, p: Pipe)
    requires Inv(u, p) && R.Entries(p.replay) != []
    ensures var cmd := Parse(R.CommandOf(p.replay));
            && cmd.isSet && cmd.hasParams && cmd.mode == p.replay.mode && cmd.tokens == p.replay.keys
            && Validate(u.c, cmd, LoRa) == Valid(p.mode)
            && (Gate(u, Reinit(p), cmd, p.mode) <==> AirtimeOk(u, p.mode, Shadow(u, p)))
  {
    var cmd := Parse(R.CommandOf(p.replay));
    R.PrintParse(p.replay);
    AcceptedExactlyWhen(u.c, cmd, LoRa);
    forall kv | kv in cmd.tokens ensures TokenGood(u.c, p.mode, kv) {
      assert Recordable(u, p.mode, kv);
    }
    var run := Run(true, false, 0, Pipe(p.mode, false, None, R.EMPTY, Driver(p.mode, map[])));
    MergeMatchesApply(u, run, p.replay.keys, Defaults(u));
    ApplyKeysParts(u, run, p.replay.keys);
    NoteKeysFromDefaults(u, p.mode, p.replay.keys);
    SameAirtimeOk(u, p.mode, MergeAll(u.c.num, p.mode, Defaults(u), p.replay.keys), Shadow(u, p));
  }

  lemma {:induction false} NoFlagSet(num: Numerals, flag: bool, kvs: seq<R.Entry>)
    requires forall kv | kv in kvs :: kv.0 != "GETRSSI"
    ensures SetGetrssiAll(num, flag, kvs) == flag
  {
    if kvs != [] {
      assert kvs[|kvs| - 1] in kvs;
      NoFlagSet(num, flag, kvs[..|kvs| - 1]);
    }
  }

  lemma {:induction false} KeysLeaveFlag(u: Setup, run: Run, kvs: seq<R.Entry>)
    ensures ApplyKeys(u, run, kvs, None).p.getrssi == run.p.getrssi
  {
    if kvs != [] { KeysLeaveFlag(u, run, kvs[..|kvs| - 1]); }
  }

  lemma ReplayCommits(u: Setup, p: Pipe)
    requires Inv(u, p) && R.Entries(p.replay) != []
    ensures var cmd := Parse(R.CommandOf(p.replay));
            var (status, q) := Commit(u, Reinit(p).(shadow := Some(Defaults(u))), cmd, None);
            && status == Applied && q.mode == p.mode && Shadow(u, q) == Shadow(u, p)
            && q.replay == p.replay && q.driver == Driver(p.mode, R.MapOf(p.replay.keys)) && !q.getrssi
  {
    ReplayAccepted(u, p);
    var cmd, keys := Parse(R.CommandOf(p.replay)), p.replay.keys;
    var p1 := Reinit(p).(shadow := Some(Defaults(u)));
    var start := if cmd.mode == "" then Run(true, false, 0, p1) else SwitchMode(u, p1, p.mode, None);
    var flagged := start.(p := start.p.(getrssi := SetGetrssiAll(u.c.num, false, cmd.tokens)));
    ApplyKeysParts(u, flagged, keys);
    NoteKeysFromDefaults(u, p.mode, keys);
    NoFlagSet(u.c.num, false, keys);
    KeysLeaveFlag(u, flagged, keys);
    if cmd.mode == "" {
      R.NoteAllFixed(keys, keys);
    } else {
      R.NoteAllRebuilds(keys);
      assert p.replay.mode == if p.mode == Fsk then "FSK" else "LORA";
    }
  }

  /** A replay without a failing call, from any state the pipeline can be in. */
  lemma ReplayFrom(u: Setup, p: Pipe)
    requires Inv(u, p)
    ensures var (status, q) := Replay(u, p, None);
            && (Accepted(status) <==> R.Entries(p.replay) == [] || AirtimeOk(u, p.mode, Shadow(u, p)))
            && (Accepted(status) ==> Rebuilt(p, q) && Shadow(u, q) == Shadow(u, p) && Inv(u, q))
            && (Accepted(status) ==> !q.getrssi && (status == Applied <==> R.Entries(p.replay) != []))
  {
    if R.Entries(p.replay) == [] {
      assert p.replay.keys == [] && p.replay.mode == "";
    } else {
      CommandNotEmpty(p.replay);
      ReplayAccepted(u, p);
      ReplayCommits(u, p);
    }
  }

  /** The same mode and record, and every driver setting the record stands for. */
  predicate Rebuilt(p: Pipe, q: Pipe) {
    && q.mode == p.mode && q.replay == p.replay
    && q.driver == Driver(p.mode, R.MapOf(p.replay.keys))
    && (p.driver.Driver? ==> q.driver == p.driver)
  }

  lemma CommandNotEmpty(r: R.Record)
    requires R.Entries(r) != []
    ensures R.CommandOf(r) != ""
  {
    assert R.CommandOf(r)[0] == 'S';
  }

  lemma {:induction false} KeysWithoutFault(u: Setup, run: Run, kvs: seq<R.Entry>, fault: Option<nat>)
    ensures ApplyKeys(u, run, kvs, fault).ok ==> ApplyKeys(u, run, kvs, fault) == ApplyKeys(u, run, kvs, None)
  {
    if kvs != [] { KeysWithoutFault(u, run, kvs[..|kvs| - 1], fault); }
  }

  /** A command whose failing call is never made runs as without it. */
  lemma ApplyWithoutFault(u: Setup, p: Pipe, line: string, fault: Option<nat>)
    ensures Apply(u, p, line, fault).0 != HwError ==> Apply(u, p, line, fault) == Apply(u, p, line, None)
  {
    var cmd := Parse(line);
    var p1 := p.(shadow := Some(Shadow(u, p)));
    var start := if cmd.mode == "" then Run(true, false, 0, p1) else SwitchMode(u, p1, ModeOf(cmd.mode).GetOr(p1.mode), fault);
    KeysWithoutFault(u, start.(p := start.p.(getrssi := SetGetrssiAll(u.c.num, p1.getrssi, cmd.tokens))), cmd.tokens, fault);
  }

  /** A replug brings back what the record stands for, or ends the daemon; reception is armed
      again by it exactly when there was something to replay, and listening is off. */
  lemma ReplugRebuilds(u: Setup, p: Pipe, initOk: bool, fault: Option<nat>)
    requires Inv(u, p)
    ensures var back := ReinitAndReplay(u, p, initOk, fault);
            && (back.ok ==> Rebuilt(p, back.p) && Shadow(u, back.p) == Shadow(u, p) && Inv(u, back.p) && !back.p.getrssi)
            && (back.rearmed <==> back.ok && R.Entries(p.replay) != []) && (!initOk ==> !back.ok)
    ensures ReinitAndReplay(u, p, true, None).ok <==> R.Entries(p.replay) == [] || AirtimeOk(u, p.mode, Shadow(u, p))
  {
    ReplayFrom(u, p);
    ApplyWithoutFault(u, Reinit(p), R.CommandOf(p.replay), fault);
  }

  // ---- whole histories ----------------------------------------------------------------------------------------

  /** The lines of a history are lines, as the stream hands them over. */
  predicate Lines(evs: seq<Event>) {
    forall e | e in evs :: e.Conf? ==> OneLine(e.line)
  }

  /** After any history of CONF lines and replugs, with or without hardware errors, the
      replay record determines the mode, the shadow and every driver setting. */
  lemma {:induction false} HistoryInv(u: Setup, evs: seq<Event>)
    requires Lines(evs)
    ensures History(u, evs).Some? ==> Inv(u, History(u, evs).value)
  {
    if evs == [] {
      BootInv(u);
    } else {
      HistoryInv(u, evs[..|evs| - 1]);
      assert evs[|evs| - 1] in evs;
      var before := History(u, evs[..|evs| - 1]);
      if before.Some? {
        match evs[|evs| - 1]
        case Conf(line, fault) => ApplyInv(u, before.value, line, fault);
        case Replug(initOk, fault) => ReplugRebuilds(u, before.value, initOk, fault);
      }
    }
  }

  predicate Faultless(evs: seq<Event>) {
    forall e | e in evs :: e.fault == None && (e.Replug? ==> e.initOk)
  }

  /** Without hardware errors the daemon goes on, and the shadow stays within the airtime
      the gate allows, across replugs. */
  lemma {:induction false} HistoryAirtime(u: Setup, evs: seq<Event>)
    requires AirtimeOk(u, LoRa, Defaults(u)) && Lines(evs) && Faultless(evs)
    ensures History(u, evs).Some?
    ensures var p := History(u, evs).value; AirtimeOk(u, p.mode, Shadow(u, p)) && p.driver.Driver?
  {
    if evs != [] {
      var front, last := evs[..|evs| - 1], evs[|evs| - 1];
      HistoryAirtime(u, front);
      HistoryInv(u, front);
      assert last in evs;
      var p := History(u, front).value;
      match last
      case Conf(line, _) => ApplyKeepsAirtime(u, p, line);
      case Replug(_, _) => ReplugRebuilds(u, p, true, None);
    }
  }

  /** The gate admits a configuration exactly when every packet the radio takes in that mode
      (63 bytes for FSK on SX127x, else 255) is at most 20 s on air. FSK is judged from 4.8 kbps
      and 16 bits of preamble until they are set. */
  lemma GateJudgesEveryPacket(u: Setup, mode: Mode, e: Effective)
    ensures AirtimeOk(u, mode, e) <==>
              forall len: nat | len <= (if mode == Fsk && u.c.family == SX127x then 63 else 255) :: 0.0 <= AirtimeMs(mode, e, len) <= 20000.0
    ensures Defaults(u).br == 4.8 && Defaults(u).fskPreamble == 16
  {
    var limit := if mode == Fsk && u.c.family == SX127x then 63 else 255;
    if AirtimeOk(u, mode, e) {
      forall len: nat | len <= limit ensures 0.0 <= AirtimeMs(mode, e, len) <= 20000.0 {
        if mode == LoRa {
          LoraAirtimeMonotone(e.sf, e.bw, e.cr, e.preamble, len, limit);
        } else {
          FskAirtimeMonotone(e.br, e.fskPreamble, len, limit);
        }
      }
    } else {
      assert !(0.0 <= AirtimeMs(mode, e, limit) <= 20000.0);
    }
  }

  /** Airtime bound: after any history without a hardware error, every packet up to the
      payload limit of the current mode is at most 20 s on air. */
  lemma AirtimeBound(u: Setup, evs: seq<Event>, len: nat)
    requires AirtimeOk(u, LoRa, Defaults(u)) && Lines(evs) && Faultless(evs)
    ensures History(u, evs).Some?
    ensures var p := History(u, evs).value;
            len <= (if p.mode == Fsk && u.c.family == SX127x then 63 else 255) ==>
              0.0 <= AirtimeMs(p.mode, Shadow(u, p), len) <= 20000.0
  {
    HistoryAirtime(u, evs);
    var p := History(u, evs).value;
    GateJudgesEveryPacket(u, p.mode, Shadow(u, p));
  }

  /** Replay refines history, exactly when it may: after any history of CONF lines and
      replugs, the replay of the record is accepted if and only if the shadow is within the
      airtime limit; and then it rebuilds the mode, the shadow and every driver setting the
      record stands for, and leaves the record as it was. */
  lemma ReplayRefines(u: Setup, evs: seq<Event>)
    requires Lines(evs) && History(u, evs).Some?
    ensures var p := History(u, evs).value;
            var (status, q) := Replay(u, p, None);
            && (Accepted(status) <==> R.Entries(p.replay) == [] || AirtimeOk(u, p.mode, Shadow(u, p)))
            && (Accepted(status) ==> Rebuilt(p, q) && Shadow(u, q) == Shadow(u, p))
  {
    HistoryInv(u, evs);
    ReplayFrom(u, History(u, evs).value);
  }

  /** Without hardware errors the replay always succeeds, and a second one would change
      nothing: the rebuilt state is a fixpoint. */
  lemma FaultlessReplaySucceeds(u: Setup, evs: seq<Event>)
    requires Lines(evs) && Faultless(evs) && AirtimeOk(u, LoRa, Defaults(u))
    ensures History(u, evs).Some?
    ensures var p := History(u, evs).value;
            var (status, q) := Replay(u, p, None);
            && Accepted(status)
            && q.mode == p.mode && q.driver == p.driver && Shadow(u, q) == Shadow(u, p) && q.replay == p.replay
            && Replay(u, q, None) == (status, q)
  {
    HistoryAirtime(u, evs);
    ReplayRefines(u, evs);
  }

  /** A line makes a driver call exactly when its status says so. */
  lemma CallsShow(u: Setup, p: Pipe, line: string, fault: Option<nat>)
    ensures DriverCalls(u, p, line, fault) > 0 <==> Apply(u, p, line, fault).0 in {Applied, HwError}
  {
    var cmd := Parse(line);
    var p1 := p.(shadow := Some(Shadow(u, p)));
    var start := if cmd.mode == "" then Run(true, false, 0, p1) else SwitchMode(u, p1, ModeOf(cmd.mode).GetOr(p1.mode), fault);
    KeysShow(u, start.(p := start.p.(getrssi := SetGetrssiAll(u.c.num, p1.getrssi, cmd.tokens))), cmd.tokens, fault);
  }

  lemma {:induction false} KeysShow(u: Setup, run: Run, kvs: seq<R.Entry>, fault: Option<nat>)
    requires run.calls > 0 <==> run.touched || !run.ok
    ensures var r := ApplyKeys(u, run, kvs, fault); r.calls > 0 <==> r.touched || !r.ok
  {
    if kvs != [] { KeysShow(u, run, kvs[..|kvs| - 1], fault); }
  }

  // ---- the classification of a line ------------------------------------------------------------------------------

  /** A line not classified as touching the radio reaches no setter and no mode switch. */
  lemma UntouchedRadio(u: Setup, p: Pipe, line: string, fault: Option<nat>)
    requires !TouchesRadio(line)
    ensures var (status, q) := Apply(u, p, line, fault);
            q.driver == p.driver && q.mode == p.mode && q.replay == p.replay && Shadow(u, q) == Shadow(u, p)
            && status !in {Applied, HwError}
    ensures DriverCalls(u, p, line, fault) == 0
  {
    var cmd := Parse(line);
    if cmd.isSet && cmd.hasParams {
      ModeNeedsCount(line);
      var p1 := p.(shadow := Some(Shadow(u, p)));
      var run := Run(true, false, 0, p1.(getrssi := SetGetrssiAll(u.c.num, p.getrssi, cmd.tokens)));
      IgnoredKeys(u, run, cmd.tokens, fault);
    }
  }

  lemma {:induction false} IgnoredKeys(u: Setup, run: Run, kvs: seq<R.Entry>, fault: Option<nat>)
    requires forall kv | kv in kvs :: kv.0 == "GETRSSI"
    ensures ApplyKeys(u, run, kvs, fault) == run
  {
    if kvs != [] {
      IgnoredKeys(u, run, kvs[..|kvs| - 1], fault);
      assert kvs[|kvs| - 1] in kvs;
    }
  }

  lemma ModeNeedsCount(line: string)
    ensures Parse(line).modeCount == 0 ==> Parse(line).mode == ""
  {
    var text := StripEol(line);
    if |text| >= 4 { ModeFromCount(text[4..], 0, Command(true, true, "", 0, [], [])); }
  }

  lemma {:induction false} ModeFromCount(rest: string, start: nat, cmd: Command)
    requires cmd.modeCount == 0 ==> cmd.mode == ""
    ensures var r := ParseFrom(rest, start, cmd); r.modeCount >= cmd.modeCount && (r.modeCount == 0 ==> r.mode == "")
    decreases |rest| - start
  {
    if start < |rest| {
      var end := FindFrom(rest, ' ', start);
      ModeFromCount(rest, end + 1, AddToken(cmd, rest[start..end]));
    }
  }

  // ---- the shipped bands, and a hardware error -----------------------------------------------------------------

  lemma SymbolTimes()
    ensures Pow2(7) == 128 && Pow2(11) == 2048 && Pow2(12) == 4096
  {
    assert Pow2(4) == 16;
    assert Pow2(8) == 256;
  }

  /** Both bands boot within the limit: 433 MHz on SF12/BW125, 868 MHz on SF11/BW250. */
  lemma BandDefaultsWithinAirtime(c: Context)
    ensures AirtimeOk(Setup(c, 12, 125.0, 5, 8), LoRa, Defaults(Setup(c, 12, 125.0, 5, 8)))
    ensures AirtimeOk(Setup(c, 11, 250.0, 5, 16), LoRa, Defaults(Setup(c, 11, 250.0, 5, 16)))
  {
    SymbolTimes();
    assert SymbolMs(12, 125.0) == 32.768 && SymbolMs(11, 250.0) == 8.192;
    assert PayloadSymbols(12, true, 5, 255) == 263;
    assert PayloadSymbols(11, false, 5, 255) == 243;
  }

  const EXAMPLE_NUMERALS := Numerals(
    s => if s == "7" then Some(7) else None,
    s => if s == "7.8" then Some(7.8) else None,
    _ => None)

  const EXAMPLE := Setup(Context(SX127x, 430.0, 440.0, false, 20, EXAMPLE_NUMERALS), 12, 125.0, 5, 8)
  const EXAMPLE_KEYS: seq<R.Entry> := [("BW", "7.8"), ("SF", "7")]

  /** The replay's condition is needed: a command within the limit whose second setter
      fails leaves SF12 on BW7.8, and the replay of that record is refused. */
  lemma HardwareErrorCanBlockReplay()
    ensures exists u, evs :: Lines(evs) && AirtimeOk(u, LoRa, Defaults(u)) && History(u, evs).Some?
              && Replay(u, History(u, evs).value, None).0 == RejectedInvalid
  {
    var u, line := EXAMPLE, R.CommandOf(R.Record("", EXAMPLE_KEYS));
    var evs := [Conf(line, Some(1))];
    ExampleLine(line);
    BandDefaultsWithinAirtime(u.c);
    var p := ExampleHistory(line, evs);
    ExampleEnds(line);
    CommandNotEmpty(p.replay);
    ReplayAccepted(u, p);
  }

  lemma ExampleHistory(line: string, evs: seq<Event>) returns (p: Pipe)
    requires OneLine(line) && evs == [Conf(line, Some(1))]
    ensures p == Apply(EXAMPLE, Boot(), line, Some(1)).1
    ensures Lines(evs) && History(EXAMPLE, evs) == Some(p) && Inv(EXAMPLE, p)
  {
    p := Apply(EXAMPLE, Boot(), line, Some(1)).1;
    assert History(EXAMPLE, evs[..0]) == Some(Boot());
    assert History(EXAMPLE, evs) == Some(p);
    HistoryInv(EXAMPLE, evs);
  }

  lemma ExampleLine(line: string)
    requires line == R.CommandOf(R.Record("", EXAMPLE_KEYS))
    ensures OneLine(line) && Parse(line) == Command(true, true, "", 0, EXAMPLE_KEYS, [])
  {
    assert Upper("BW") == "BW" && Upper("SF") == "SF";
    assert CleanTokens(EXAMPLE_KEYS);
    R.PrintParse(R.Record("", EXAMPLE_KEYS));
    R.CommandOneLine(R.Record("", EXAMPLE_KEYS));
  }

  lemma ExampleEnds(line: string)
    requires line == R.CommandOf(R.Record("", EXAMPLE_KEYS))
    ensures var p := Apply(EXAMPLE, Boot(), line, Some(1)).1;
            p.replay == R.Record("", [("BW", "7.8")]) && p.mode == LoRa && !AirtimeOk(EXAMPLE, LoRa, Shadow(EXAMPLE, p))
  {
    var cmd := Parse(line);
    ExampleLine(line);
    ExampleAccepted(cmd);
    ExampleCommit(cmd);
    ExampleAirtimes();
  }

  lemma ExampleAccepted(cmd: Command)
    requires cmd == Command(true, true, "", 0, EXAMPLE_KEYS, [])
    ensures Validate(EXAMPLE.c, cmd, LoRa) == Valid(LoRa) && Gate(EXAMPLE, Boot(), cmd, LoRa)
  {
    var u, d := EXAMPLE, Defaults(EXAMPLE);
    assert FloatEqual(7.8, LORA_BANDWIDTHS[0]);
    AcceptedExactlyWhen(u.c, cmd, LoRa);
    assert cmd.tokens[..1] == [("BW", "7.8")] && cmd.tokens[..1][..0] == [];
    assert MergeAll(u.c.num, LoRa, d, cmd.tokens) == d.(bw := 7.8, sf := 7);
    ExampleAirtimes();
  }

  lemma ExampleCommit(cmd: Command)
    requires cmd == Command(true, true, "", 0, EXAMPLE_KEYS, [])
    ensures var d := Defaults(EXAMPLE);
            var p := Commit(EXAMPLE, Boot().(shadow := Some(d)), cmd, Some(1)).1;
            p.mode == LoRa && p.shadow == Some(d.(bw := 7.8)) && p.replay == R.Record("", [("BW", "7.8")])
  {
    var d := Defaults(EXAMPLE);
    var run := Run(true, false, 0, Boot().(shadow := Some(d)));
    assert EXAMPLE_KEYS[..1] == [("BW", "7.8")] && EXAMPLE_KEYS[..1][..0] == [];
    assert !SetGetrssiAll(EXAMPLE.c.num, false, EXAMPLE_KEYS);
    assert ApplyKeys(EXAMPLE, run, EXAMPLE_KEYS[..1], Some(1)).p == Pipe(LoRa, false, Some(d.(bw := 7.8)), R.Record("", [("BW", "7.8")]),
                                                              Driver(LoRa, map["BW" := "7.8"]));
  }

  lemma ExampleAirtimes()
    ensures WithinAirtime(LoraAirtimeMs(7, 7.8, 5, 8, 255))
    ensures !WithinAirtime(LoraAirtimeMs(12, 7.8, 5, 8, 255))
  {
    SymbolTimes();
    assert SymbolMs(7, 7.8) == 128.0 / 7.8 && SymbolMs(12, 7.8) == 4096.0 / 7.8;
    assert PayloadSymbols(7, true, 5, 255) == 523;
    assert PayloadSymbols(12, true, 5, 255) == 263;
  }
}
