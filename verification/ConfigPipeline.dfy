/**
 * The apply pipeline as the daemon keeps it: mode flag, GETRSSI flag, shadow, record
 * and driver updated in place, token by token; proved against ConfigApply.Apply.
 */
module ConfigPipeline {
  import opened Prelude
  import opened ConfigParser
  import opened ConfigPolicy
  import opened ConfigValidate
  import opened ConfigApply
  import R = ConfigReplay

  class Pipeline {
    const setup: Setup
    const record: R.ReplayRecord

    var mode: Mode
    var getrssi: bool
    var shadow: Option<Effective>
    var driver: Driver

    ghost function View(): Pipe
      reads this, record
    {
      Pipe(mode, getrssi, shadow, record.View(), driver)
    }

    constructor (setup: Setup)
      ensures this.setup == setup && fresh(record) && View() == Boot()
    {
      this.setup := setup;
      mode, getrssi, shadow, driver := LoRa, false, None, Driver(LoRa, map[]);
      record := new R.ReplayRecord();
    }

    /** The shadow, settled to the band defaults on its first use. */
    method SettledShadow() returns (e: Effective)
      modifies this
      ensures e == Shadow(setup, old(View()))
      ensures View() == old(View()).(shadow := Some(e))
    {
      if shadow.None? {
        shadow := Some(Defaults(setup));
      }
      e := shadow.value;
    }

    method AirtimeGate(cmd: Command, target: Mode) returns (ok: bool)
      modifies this
      ensures ok == Gate(setup, old(View()), cmd, target)
      ensures View() == old(View()).(shadow := Some(Shadow(setup, old(View()))))
    {
      var merged := SettledShadow();
      if cmd.mode != "" {
        merged := Defaults(setup);
      }
      ghost var base := merged;
      var i := 0;
      while i < |cmd.tokens|
        invariant 0 <= i <= |cmd.tokens|
        invariant merged == MergeAll(setup.c.num, target, base, cmd.tokens[..i])
      {
        merged := MergeOne(setup.c.num, target, merged, cmd.tokens[i]);
        assert cmd.tokens[..i + 1][..i] == cmd.tokens[..i];
        i := i + 1;
      }
      assert cmd.tokens[..|cmd.tokens|] == cmd.tokens;
      var limit := PayloadLimit(setup.c.family, target);
      var ms := if target == LoRa then LoraAirtimeMs(merged.sf, merged.bw, merged.cr, merged.preamble, limit)
                else FskAirtimeMs(merged.br, merged.fskPreamble, limit);
      ok := !(ms < 0.0 || ms > MAX_AIRTIME_MS);
    }

    method ApplyMode(m: Mode, fault: Option<nat>) returns (ok: bool)
      modifies this, record
      ensures var r := SwitchMode(setup, old(View()), m, fault); ok == r.ok && View() == r.p
    {
      if fault == Some(0) {
        driver := Suspect;
        return false;
      }
      driver := Driver(m, map[]);
      mode := m;
      shadow := Some(Defaults(setup));
      record.StartMode(if m == Fsk then "FSK" else "LORA");
      ok := true;
    }

    method ApplyGetrssi(tokens: seq<R.Entry>)
      modifies this
      ensures View() == old(View()).(getrssi := SetGetrssiAll(setup.c.num, old(getrssi), tokens))
    {
      var i := 0;
      while i < |tokens|
        invariant 0 <= i <= |tokens|
        invariant View() == old(View()).(getrssi := SetGetrssiAll(setup.c.num, old(getrssi), tokens[..i]))
      {
        if tokens[i].0 == "GETRSSI" && Bool01(setup.c.num, tokens[i].1) {
          getrssi := setup.c.num.int_(tokens[i].1) == Some(1);
        }
        assert tokens[..i + 1][..i] == tokens[..i];
        i := i + 1;
      }
      assert tokens[..|tokens|] == tokens;
    }

    /** One driver setter and, on success, its notes. */
    method ApplyParam(kv: R.Entry, call: nat, fault: Option<nat>) returns (ok: bool)
      modifies this, record
      ensures ok <==> fault != Some(call)
      ensures !ok ==> View() == old(View()).(driver := Suspect)
      ensures ok ==> View() == old(View()).(
                shadow := Some(NoteKey(setup.c.num, old(mode), Shadow(setup, old(View())), kv)),
                replay := old(View()).replay.(keys := R.Note(old(record.keys), kv.0, kv.1)),
                driver := SetKey(old(driver), kv.0, kv.1))
    {
      if fault == Some(call) {
        driver := Suspect;
        return false;
      }
      driver := SetKey(driver, kv.0, kv.1);
      var e := SettledShadow();
      shadow := Some(NoteKey(setup.c.num, mode, e, kv));
      record.NoteKey(kv.0, kv.1);
      ok := true;
    }

    method ApplyTokens(tokens: seq<R.Entry>, touched0: bool, calls0: nat, fault: Option<nat>) returns (ok: bool, touched: bool)
      modifies this, record
      ensures var r := ApplyKeys(setup, Run(true, touched0, calls0, old(View())), tokens, fault);
              ok == r.ok && (ok ==> touched == r.touched) && View() == r.p
    {
      ghost var start := Run(true, touched0, calls0, View());
      touched := touched0;
      var calls, i := calls0, 0;
      while i < |tokens|
        invariant 0 <= i <= |tokens|
        invariant Run(true, touched, calls, View()) == ApplyKeys(setup, start, tokens[..i], fault)
      {
        assert tokens[..i + 1][..i] == tokens[..i];
        if tokens[i].0 != "GETRSSI" && !ForeignKey(mode, tokens[i].0) {
          ok := ApplyParam(tokens[i], calls, fault);
          if !ok {
            AbortStands(setup, start, tokens, fault, i + 1);
            return;
          }
          touched, calls := true, calls + 1;
        }
        i := i + 1;
      }
      assert tokens[..|tokens|] == tokens;
      ok := true;
    }

    method CommitCommand(cmd: Command, fault: Option<nat>) returns (status: Status)
      requires cmd.mode == "" || ModeOf(cmd.mode).Some?
      modifies this, record
      ensures (status, View()) == Commit(setup, old(View()), cmd, fault)
    {
      var touched, calls := false, 0;
      if cmd.mode != "" {
        var ok := ApplyMode(ModeOf(cmd.mode).value, fault);
        if !ok {
          return HwError;
        }
        touched, calls := true, 1;
      }
      ApplyGetrssi(cmd.tokens);
      var ok;
      ok, touched := ApplyTokens(cmd.tokens, touched, calls, fault);
      status := if !ok then HwError else if touched then Applied else OkNoRadio;
    }

    method ParseAndApply(line: string, fault: Option<nat>) returns (status: Status)
      modifies this, record
      ensures (status, View()) == Apply(setup, old(View()), line, fault)
    {
      var cmd := ParseCommand(line);
      if !cmd.isSet {
        return Unknown;
      }
      if !cmd.hasParams {
        return RejectedMalformed;
      }
      var verdict := ValidateCommand(setup.c, cmd, mode);
      if verdict.Invalid? {
        return RejectStatus(verdict.why);
      }
      AcceptedExactlyWhen(setup.c, cmd, mode);
      var ok := AirtimeGate(cmd, verdict.target);
      if !ok {
        return RejectedInvalid;
      }
      status := CommitCommand(cmd, fault);
    }

    /** The re-init of a returned stick, the replay of the record copied before, and the
        re-arming of reception after it. */
    method Reinitialise(initOk: bool, fault: Option<nat>) returns (back: bool, rearmed: bool)
      modifies this, record
      ensures Back(back, rearmed, View()) == ReinitAndReplay(setup, old(View()), initOk, fault)
    {
      var replay := record.Command();
      mode, getrssi, shadow, driver := LoRa, false, None, Driver(LoRa, map[]);
      rearmed := false;
      if !initOk {
        return false, false;
      }
      if replay != "" {
        var status := ParseAndApply(replay, fault);
        if status == Applied {
          rearmed := true;
        } else if status != OkNoRadio {
          return false, false;
        }
      }
      back := true;
    }
  }

  /** A failed call ends the command: the remaining tokens do nothing. */
  lemma {:induction false} AbortStands(u: Setup, run: Run, kvs: seq<R.Entry>, fault: Option<nat>, n: nat)
    requires n <= |kvs| && !ApplyKeys(u, run, kvs[..n], fault).ok
    ensures ApplyKeys(u, run, kvs, fault) == ApplyKeys(u, run, kvs[..n], fault)
    decreases |kvs|
  {
    if n == |kvs| {
      assert kvs[..n] == kvs;
    } else {
      assert kvs[..|kvs| - 1][..n] == kvs[..n];
      AbortStands(u, run, kvs[..|kvs| - 1], fault, n);
    }
  }
}
