/**
 * The CONFIG apply pipeline (config_apply.cpp): parse, validate, the airtime gate on
 * the merged configuration, MODE, GETRSSI, then one driver setter per key; with the
 * effective-config shadow and the replay record kept beside it.
 *
 * The driver is a map from key to the last value set since its last mode switch (its
 * setters are taken to be independent). `fault` names the driver call of a command
 * that fails, if any: the command ends there as a hardware error.
 */
module ConfigApply {
  import opened Prelude
  import opened ConfigParser
  import opened ConfigPolicy
  import opened ConfigValidate
  import R = ConfigReplay

  /** The airtime-relevant parameters the radio is taken to run on. */
  datatype Effective = Effective(sf: int, bw: real, cr: int, preamble: int, br: real, fskPreamble: int)

  /** The process: its validation context and its band's LoRa boot defaults. */
  datatype Setup = Setup(c: Context, sf: int, bw: real, cr: int, preamble: int)

  /** The band defaults, with the fixed FSK baseline. */
  function Defaults(u: Setup): Effective {
    Effective(u.sf, u.bw, u.cr, u.preamble, 4.8, 16)
  }

  /** After a failed call the driver's configuration is suspect until a mode switch
      succeeds. */
  datatype Driver = Driver(mode: Mode, settings: map<string, string>) | Suspect

  function SetKey(d: Driver, k: string, v: string): Driver {
    if d.Suspect? then d else d.(settings := d.settings[k := v])
  }

  /** `shadow` is None until first used: then it is the band defaults. */
  datatype Pipe = Pipe(mode: Mode, getrssi: bool, shadow: Option<Effective>, replay: R.Record, driver: Driver)

  datatype Status = OkNoRadio | Applied | RejectedInvalid | RejectedMalformed | Unknown | HwError

  function Shadow(u: Setup, p: Pipe): Effective {
    p.shadow.GetOr(Defaults(u))
  }

  function Boot(): Pipe {
    Pipe(LoRa, false, None, R.EMPTY, Driver(LoRa, map[]))
  }

  // ---- the airtime gate --------------------------------------------------------------------

  /** One token merged into the prospective configuration; an unreadable value (only
      ever one the mode ignores) changes nothing. */
  function MergeOne(num: Numerals, target: Mode, e: Effective, kv: R.Entry): Effective {
    var (k, v) := kv;
    if k == "SF" then e.(sf := num.int_(v).GetOr(e.sf))
    else if k == "BW" then e.(bw := num.float(v).GetOr(e.bw))
    else if k == "CR" then e.(cr := num.int_(v).GetOr(e.cr))
    else if k == "PREAMBLE" && target == LoRa then e.(preamble := num.int_(v).GetOr(e.preamble))
    else if k == "PREAMBLE" then e.(fskPreamble := num.int_(v).GetOr(e.fskPreamble))
    else if k == "BR" then e.(br := num.float(v).GetOr(e.br))
    else e
  }

  function MergeAll(num: Numerals, target: Mode, e: Effective, kvs: seq<R.Entry>): Effective {
    if kvs == [] then e else MergeOne(num, target, MergeAll(num, target, e, kvs[..|kvs| - 1]), kvs[|kvs| - 1])
  }

  function AirtimeMs(mode: Mode, e: Effective, len: nat): real {
    if mode == LoRa then LoraAirtimeMs(e.sf, e.bw, e.cr, e.preamble, len) else FskAirtimeMs(e.br, e.fskPreamble, len)
  }

  /** The largest packet the radio takes in that mode stays within 20 s. */
  predicate AirtimeOk(u: Setup, mode: Mode, e: Effective) {
    WithinAirtime(AirtimeMs(mode, e, PayloadLimit(u.c.family, mode)))
  }

  function GateBase(u: Setup, p: Pipe, cmd: Command): Effective {
    if cmd.mode == "" then Shadow(u, p) else Defaults(u)
  }

  predicate Gate(u: Setup, p: Pipe, cmd: Command, target: Mode) {
    AirtimeOk(u, target, MergeAll(u.c.num, target, GateBase(u, p, cmd), cmd.tokens))
  }

  // ---- apply -----------------------------------------------------------------------------------

  /** The shadow after one applied key. */
  function NoteKey(num: Numerals, mode: Mode, e: Effective, kv: R.Entry): Effective {
    var (k, v) := kv;
    if mode == LoRa then
      if k == "SF" then e.(sf := num.int_(v).GetOr(e.sf))
      else if k == "BW" then e.(bw := num.float(v).GetOr(e.bw))
      else if k == "CR" then e.(cr := num.int_(v).GetOr(e.cr))
      else if k == "PREAMBLE" then e.(preamble := num.int_(v).GetOr(e.preamble))
      else e
    else
      if k == "BR" then e.(br := num.float(v).GetOr(e.br))
      else if k == "PREAMBLE" then e.(fskPreamble := num.int_(v).GetOr(e.fskPreamble))
      else e
  }

  predicate Fails(fault: Option<nat>, call: nat) {
    fault == Some(call)
  }

  /** A command under way: driver calls made, whether it goes on, whether the radio
      was touched. */
  datatype Run = Run(ok: bool, touched: bool, calls: nat, p: Pipe)

  function SwitchMode(u: Setup, p: Pipe, m: Mode, fault: Option<nat>): Run {
    if Fails(fault, 0) then Run(false, false, 1, p.(driver := Suspect))
    else Run(true, true, 1, p.(mode := m, shadow := Some(Defaults(u)),
                               replay := R.Record(if m == Fsk then "FSK" else "LORA", []),
                               driver := Driver(m, map[])))
  }

  /** One key: ignored when it belongs to the other mode, else set, and on success
      noted in the shadow and in the record. */
  function ApplyKey(u: Setup, run: Run, kv: R.Entry, fault: Option<nat>): Run {
    var p := run.p;
    if !run.ok || kv.0 == "GETRSSI" || ForeignKey(p.mode, kv.0) then run
    else if Fails(fault, run.calls) then run.(ok := false, calls := run.calls + 1, p := p.(driver := Suspect))
    else Run(true, true, run.calls + 1,
             p.(shadow := Some(NoteKey(u.c.num, p.mode, Shadow(u, p), kv)),
                replay := p.replay.(keys := R.Note(p.replay.keys, kv.0, kv.1)),
                driver := SetKey(p.driver, kv.0, kv.1)))
  }

  function ApplyKeys(u: Setup, run: Run, kvs: seq<R.Entry>, fault: Option<nat>): Run {
    if kvs == [] then run else ApplyKey(u, ApplyKeys(u, run, kvs[..|kvs| - 1], fault), kvs[|kvs| - 1], fault)
  }

  function SetGetrssi(num: Numerals, flag: bool, kv: R.Entry): bool {
    if kv.0 == "GETRSSI" && Bool01(num, kv.1) then num.int_(kv.1) == Some(1) else flag
  }

  function SetGetrssiAll(num: Numerals, flag: bool, kvs: seq<R.Entry>): bool {
    if kvs == [] then flag else SetGetrssi(num, SetGetrssiAll(num, flag, kvs[..|kvs| - 1]), kvs[|kvs| - 1])
  }

  /** The run of a command that passed validation and the gate. */
  function CommitRun(u: Setup, p: Pipe, cmd: Command, fault: Option<nat>): Run {
    var start := if cmd.mode == "" then Run(true, false, 0, p) else SwitchMode(u, p, ModeOf(cmd.mode).GetOr(p.mode), fault);
    if !start.ok then start
    else ApplyKeys(u, start.(p := start.p.(getrssi := SetGetrssiAll(u.c.num, p.getrssi, cmd.tokens))), cmd.tokens, fault)
  }

  function Commit(u: Setup, p: Pipe, cmd: Command, fault: Option<nat>): (Status, Pipe) {
    var run := CommitRun(u, p, cmd, fault);
    (if !run.ok then HwError else if run.touched then Applied else OkNoRadio, run.p)
  }

  function RejectStatus(why: Reason): Status {
    if why == MalformedToken then RejectedMalformed else if why == UnknownKey then Unknown else RejectedInvalid
  }

  /** parse_and_apply_config_generic. The gate settles a lazy shadow even when it rejects. */
  function Apply(u: Setup, p: Pipe, line: string, fault: Option<nat>): (Status, Pipe) {
    var cmd := Parse(line);
    if !cmd.isSet then (Unknown, p)
    else if !cmd.hasParams then (RejectedMalformed, p)
    else match Validate(u.c, cmd, p.mode)
      case Invalid(_, _, why) => (RejectStatus(why), p)
      case Valid(target) =>
        var p1 := p.(shadow := Some(Shadow(u, p)));
        if !Gate(u, p, cmd, target) then (RejectedInvalid, p1) else Commit(u, p1, cmd, fault)
  }

  /** How many driver calls (mode switches and setters) the line makes. */
  function DriverCalls(u: Setup, p: Pipe, line: string, fault: Option<nat>): nat {
    var cmd := Parse(line);
    if !cmd.isSet || !cmd.hasParams then 0
    else match Validate(u.c, cmd, p.mode)
      case Invalid(_, _, _) => 0
      case Valid(target) =>
        if !Gate(u, p, cmd, target) then 0 else CommitRun(u, p.(shadow := Some(Shadow(u, p))), cmd, fault).calls
  }

  // ---- histories ------------------------------------------------------------------------------------

  /** The stick is back: band defaults and LoRa on a fresh driver; the record stays. */
  function Reinit(p: Pipe): Pipe {
    Pipe(LoRa, false, None, p.replay, Driver(LoRa, map[]))
  }

  /** The re-init's replay of the record through the same apply path. */
  function Replay(u: Setup, p: Pipe, fault: Option<nat>): (Status, Pipe) {
    if R.CommandOf(p.replay) == "" then (OkNoRadio, Reinit(p))
    else Apply(u, Reinit(p), R.CommandOf(p.replay), fault)
  }

  predicate Accepted(status: Status) {
    status in {Applied, OkNoRadio}
  }

  /** op_reinit: whether the radio is back, and whether reception was armed again after
      the replay. `initOk`: lora_init left the radio ready. */
  datatype Back = Back(ok: bool, rearmed: bool, p: Pipe)

  function ReinitAndReplay(u: Setup, p: Pipe, initOk: bool, fault: Option<nat>): Back {
    if !initOk then Back(false, false, Reinit(p))
    else
      var (status, q) := Replay(u, p, fault);
      Back(Accepted(status), status == Applied, q)
  }

  /** What happens to the configuration: a CONF line, or the stick's loss and return, each
      with the driver call that failed, if one did. */
  datatype Event = Conf(line: string, fault: Option<nat>) | Replug(initOk: bool, fault: Option<nat>)

  /** From boot on; None once a failed re-init has ended the daemon. */
  function History(u: Setup, evs: seq<Event>): Option<Pipe> {
    if evs == [] then Some(Boot())
    else
      match History(u, evs[..|evs| - 1])
      case None => None
      case Some(p) =>
        match evs[|evs| - 1]
        case Conf(line, fault) => Some(Apply(u, p, line, fault).1)
        case Replug(initOk, fault) =>
          var back := ReinitAndReplay(u, p, initOk, fault);
          if back.ok then Some(back.p) else None
  }
}
