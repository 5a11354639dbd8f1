/**
 * What a SET line says: the stretches between its blanks, each an assignment, empty or
 * malformed.
 */
module ConfigGrammar {
  import opened ConfigParser
  import opened ConfigReplay

  // ---- the line -------------------------------------------------------------------------------

  /** A line's text, and the CRs and LFs behind it. */
  predicate EndsLine(text: string, eols: string) {
    && (text != "" ==> text[|text| - 1] !in {'\n', '\r'})
    && forall c | c in eols :: c in {'\n', '\r'}
  }

  lemma {:induction false} StripIs(text: string, eols: string)
    requires EndsLine(text, eols)
    ensures StripEol(text + eols) == text
  {
    if eols == "" {
      assert text + eols == text;
    } else {
      var front := eols[..|eols| - 1];
      assert (text + eols)[..|text + eols| - 1] == text + front;
      assert eols[|eols| - 1] in eols;
      forall c | c in front ensures c in {'\n', '\r'} { assert c in eols; }
      StripIs(text, front);
    }
  }

  /** A line is a SET exactly when it is that word alone, or that word and a blank; only then
      has it parameters. */
  lemma SetExactly(text: string, eols: string)
    requires EndsLine(text, eols)
    ensures var cmd := Parse(text + eols);
            && (cmd.isSet <==> text == "SET" || "SET " <= text)
            && (cmd.hasParams <==> "SET " <= text)
  {
    StripIs(text, eols);
    if "SET " <= text {
      assert text[..4] == "SET ";
      FlagsStay(text[4..], 0, SET_LINE);
    }
  }

  lemma {:induction false} FlagsStay(rest: string, start: nat, cmd: Command)
    ensures var r := ParseFrom(rest, start, cmd); r.isSet == cmd.isSet && r.hasParams == cmd.hasParams
    decreases |rest| - start
  {
    if start < |rest| {
      var end := FindFrom(rest, ' ', start);
      FlagsStay(rest, end + 1, AddToken(cmd, rest[start..end]));
    }
  }

  // ---- one stretch -----------------------------------------------------------------------------

  /** KEY=VALUE, split at the first "=". */
  predicate Assigns(t: string, k: string, v: string) {
    k != "" && '=' !in k && v != "" && t == k + "=" + v
  }

  predicate IsAssignment(t: string) {
    var eq := FindFrom(t, '=', 0);
    0 < eq && eq + 1 < |t|
  }

  lemma AssignmentIs(t: string)
    ensures IsAssignment(t) <==> exists k, v :: Assigns(t, k, v)
  {
    var eq := FindFrom(t, '=', 0);
    if IsAssignment(t) {
      assert t == t[..eq] + "=" + t[eq + 1..];
      assert Assigns(t, t[..eq], t[eq + 1..]);
    }
    if k, v :| Assigns(t, k, v) {
      FirstEquals(t, k, v);
    }
  }

  lemma FirstEquals(t: string, k: string, v: string)
    requires Assigns(t, k, v)
    ensures FindFrom(t, '=', 0) == |k| && t[..|k|] == k && t[|k| + 1..] == v
  {
    assert t[|k|] == '=';
    forall j | 0 <= j < |k| ensures t[j] != '=' { assert t[j] == k[j] && k[j] in k; }
  }

  /** A stretch is an assignment of its key in upper case (MODE apart, its value too), nothing
      when it is empty, and else malformed. */
  lemma StretchSays(cmd: Command, t: string)
    ensures t == "" ==> AddToken(cmd, t) == cmd
    ensures forall k, v | Assigns(t, k, v) ::
              AddToken(cmd, t) == if Upper(k) == "MODE" then cmd.(mode := Upper(v), modeCount := cmd.modeCount + 1)
                                  else cmd.(tokens := cmd.tokens + [(Upper(k), v)])
    ensures t != "" && (forall k, v :: !Assigns(t, k, v)) ==> AddToken(cmd, t) == cmd.(malformed := cmd.malformed + [t])
  {
    AssignmentIs(t);
    forall k, v | Assigns(t, k, v)
      ensures AddToken(cmd, t) == if Upper(k) == "MODE" then cmd.(mode := Upper(v), modeCount := cmd.modeCount + 1)
                                  else cmd.(tokens := cmd.tokens + [(Upper(k), v)])
    {
      FirstEquals(t, k, v);
    }
  }

  // ---- all of them ------------------------------------------------------------------------------

  /** Every text falls into stretches between its blanks. */
  lemma {:induction false} StretchesExist(text: string, at: nat) returns (ts: seq<string>)
    ensures TokensAt(text, at, ts)
    decreases |text| - at
  {
    if at >= |text| {
      ts := [];
    } else {
      var end := FindFrom(text, ' ', at);
      var rest := StretchesExist(text, end + 1);
      ts := [text[at..end]] + rest;
      assert |ts[0]| == end - at && ts[1..] == rest;
    }
  }

  function Malformed(ts: seq<string>): seq<string> {
    if ts == [] then [] else (if ts[0] != "" && !IsAssignment(ts[0]) then [ts[0]] else []) + Malformed(ts[1..])
  }

  /** The keys and values assigned, in order, but for MODE. */
  function Assigned(ts: seq<string>): seq<Entry> {
    if ts == [] then []
    else
      var eq := FindFrom(ts[0], '=', 0);
      (if IsAssignment(ts[0]) && Upper(ts[0][..eq]) != "MODE" then [(Upper(ts[0][..eq]), ts[0][eq + 1..])] else []) + Assigned(ts[1..])
  }

  lemma {:induction false} AddAllSays(cmd: Command, ts: seq<string>)
    ensures var r := AddAll(cmd, ts);
            r.malformed == cmd.malformed + Malformed(ts) && r.tokens == cmd.tokens + Assigned(ts)
    decreases |ts|
  {
    if ts != [] {
      AddAllSays(AddToken(cmd, ts[0]), ts[1..]);
    }
  }

  /** A SET line's assignments are its stretches' in their order; what else is not empty is
      malformed. */
  lemma LineSays(text: string, eols: string, ts: seq<string>)
    requires EndsLine(text, eols) && "SET " <= text && TokensAt(text[4..], 0, ts)
    ensures Parse(text + eols).tokens == Assigned(ts) && Parse(text + eols).malformed == Malformed(ts)
  {
    StripIs(text, eols);
    assert text[..4] == "SET ";
    ParseTokens(text[4..], 0, ts, SET_LINE);
    AddAllSays(SET_LINE, ts);
  }

  // ---- which lines touch the radio -----------------------------------------------------------------

  /** Some stretch assigns another key than GETRSSI. */
  ghost predicate AssignsBeside(ts: seq<string>) {
    exists t, k, v :: t in ts && Assigns(t, k, v) && Upper(k) != "GETRSSI"
  }

  lemma {:induction false} AddAllTouches(cmd: Command, ts: seq<string>)
    ensures var r := AddAll(cmd, ts);
            (r.modeCount > 0 || exists kv :: kv in r.tokens && kv.0 != "GETRSSI")
            <==> (cmd.modeCount > 0 || exists kv :: kv in cmd.tokens && kv.0 != "GETRSSI") || AssignsBeside(ts)
    decreases |ts|
  {
    if ts != [] {
      var cmd1 := AddToken(cmd, ts[0]);
      AddAllTouches(cmd1, ts[1..]);
      FirstTouches(cmd, ts[0]);
      BesideMore(ts);
    }
  }

  lemma FirstTouches(cmd: Command, t: string)
    ensures var r := AddToken(cmd, t);
            (r.modeCount > 0 || exists kv :: kv in r.tokens && kv.0 != "GETRSSI")
            <==> (cmd.modeCount > 0 || exists kv :: kv in cmd.tokens && kv.0 != "GETRSSI") || AssignsBeside([t])
  {
    AssignmentIs(t);
    StretchSays(cmd, t);
    if k, v :| Assigns(t, k, v) {
      FirstEquals(t, k, v);
      var r := AddToken(cmd, t);
      assert t in [t];
      if Upper(k) != "MODE" { assert (Upper(k), v) in r.tokens; }
      forall k1, v1 | Assigns(t, k1, v1) ensures k1 == k { FirstEquals(t, k1, v1); }
      forall kv | kv in cmd.tokens ensures kv in r.tokens {}
    }
  }

  lemma BesideMore(ts: seq<string>)
    requires ts != []
    ensures AssignsBeside(ts) <==> AssignsBeside([ts[0]]) || AssignsBeside(ts[1..])
  {
    if AssignsBeside([ts[0]]) {
      var t, k, v :| t in [ts[0]] && Assigns(t, k, v) && Upper(k) != "GETRSSI";
      assert t in ts;
    }
    if AssignsBeside(ts[1..]) {
      var t, k, v :| t in ts[1..] && Assigns(t, k, v) && Upper(k) != "GETRSSI";
      assert t in ts;
    }
    if AssignsBeside(ts) {
      var t, k, v :| t in ts && Assigns(t, k, v) && Upper(k) != "GETRSSI";
      assert t in [ts[0]] || t in ts[1..];
    }
  }

  /** A SET touches the radio exactly when it assigns anything but GETRSSI, valid or not. */
  lemma TouchesExactly(text: string, eols: string, ts: seq<string>)
    requires EndsLine(text, eols) && "SET " <= text && TokensAt(text[4..], 0, ts)
    ensures TouchesRadio(text + eols) <==> AssignsBeside(ts)
  {
    SetExactly(text, eols);
    StripIs(text, eols);
    assert text[..4] == "SET ";
    ParseTokens(text[4..], 0, ts, SET_LINE);
    AddAllTouches(SET_LINE, ts);
  }
}
