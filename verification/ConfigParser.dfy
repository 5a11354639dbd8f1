/** The SET line tokenizer (config_parser.cpp) and its classification of a line. */
module ConfigParser {
  datatype Command = Command(
    isSet: bool,
    hasParams: bool,
    mode: string,
    modeCount: nat,
    tokens: seq<(string, string)>,
    malformed: seq<string>)

  const NOT_SET := Command(false, false, "", 0, [], [])

  // ---- characters ------------------------------------------------------------------------

  function UpperChar(c: char): char {
    if 'a' <= c <= 'z' then (c as int - 32) as char else c
  }

  function Upper(s: string): (u: string)
    ensures |u| == |s| && forall i | 0 <= i < |s| :: u[i] == UpperChar(s[i])
  {
    seq(|s|, i requires 0 <= i < |s| => UpperChar(s[i]))
  }

  predicate Eol(c: char) {
    c == '\n' || c == '\r'
  }

  /** The line without its trailing CR and LF. */
  function StripEol(s: string): string {
    if s != "" && Eol(s[|s| - 1]) then StripEol(s[..|s| - 1]) else s
  }

  /** The first `c` at or after `start`, or the end of `s`. */
  function FindFrom(s: string, c: char, start: nat): (i: nat)
    requires start <= |s|
    ensures start <= i <= |s|
    ensures forall j | start <= j < i :: s[j] != c
    ensures i < |s| ==> s[i] == c
    decreases |s| - start
  {
    if start == |s| || s[start] == c then start else FindFrom(s, c, start + 1)
  }

  // ---- tokens ------------------------------------------------------------------------------

  function AddToken(cmd: Command, token: string): Command {
    var eq := FindFrom(token, '=', 0);
    if token == "" then cmd
    else if 0 < eq && eq + 1 < |token| then
      var key, val := Upper(token[..eq]), token[eq + 1..];
      if key == "MODE" then cmd.(mode := Upper(val), modeCount := cmd.modeCount + 1)
      else cmd.(tokens := cmd.tokens + [(key, val)])
    else cmd.(malformed := cmd.malformed + [token])
  }

  function ParseFrom(rest: string, start: nat, cmd: Command): Command
    decreases |rest| - start
  {
    if start >= |rest| then cmd
    else
      var end := FindFrom(rest, ' ', start);
      ParseFrom(rest, end + 1, AddToken(cmd, rest[start..end]))
  }

  function Parse(line: string): Command {
    var text := StripEol(line);
    if text == "SET" then Command(true, false, "", 0, [], [])
    else if |text| < 4 || text[..4] != "SET " then NOT_SET
    else ParseFrom(text[4..], 0, Command(true, true, "", 0, [], []))
  }

  /** A SET with MODE or any key but GETRSSI. */
  predicate TouchesRadio(line: string) {
    var cmd := Parse(line);
    cmd.isSet && cmd.hasParams && (cmd.modeCount > 0 || exists kv | kv in cmd.tokens :: kv.0 != "GETRSSI")
  }

  method ParseCommand(line: string) returns (cmd: Command)
    ensures cmd == Parse(line)
  {
    var text := line;
    while text != "" && Eol(text[|text| - 1])
      invariant StripEol(text) == StripEol(line)
      decreases |text|
    {
      text := text[..|text| - 1];
    }
    if text == "SET" {
      return Command(true, false, "", 0, [], []);
    }
    if |text| < 4 || text[..4] != "SET " {
      return NOT_SET;
    }
    cmd := Command(true, true, "", 0, [], []);
    var rest, start := text[4..], 0;
    while start < |rest|
      invariant ParseFrom(rest, start, cmd) == Parse(line)
      decreases |rest| - start
    {
      var end := FindFrom(rest, ' ', start);
      cmd := AddToken(cmd, rest[start..end]);
      start := end + 1;
    }
  }

  method CommandTouchesRadio(line: string) returns (touches: bool)
    ensures touches <==> TouchesRadio(line)
  {
    var cmd := ParseCommand(line);
    if !cmd.isSet || !cmd.hasParams {
      return false;
    }
    if cmd.modeCount > 0 {
      return true;
    }
    for i := 0 to |cmd.tokens|
      invariant forall j | 0 <= j < i :: cmd.tokens[j].0 == "GETRSSI"
    {
      if cmd.tokens[i].0 != "GETRSSI" {
        assert cmd.tokens[i] in cmd.tokens;
        return true;
      }
    }
    touches := false;
  }

  // ---- what a parsed token looks like --------------------------------------------------------

  predicate Lacks(s: string, c: char) {
    forall i | 0 <= i < |s| :: s[i] != c
  }

  /** A line as the stream hands it over: no CR and no LF. */
  predicate OneLine(s: string) {
    Lacks(s, '\n') && Lacks(s, '\r')
  }

  predicate CleanKey(k: string) {
    k != "" && k != "MODE" && Upper(k) == k && Lacks(k, '=') && Lacks(k, ' ') && OneLine(k)
  }

  predicate CleanValue(v: string) {
    v != "" && Lacks(v, ' ') && OneLine(v)
  }

  predicate CleanTokens(kvs: seq<(string, string)>) {
    forall kv | kv in kvs :: CleanKey(kv.0) && CleanValue(kv.1)
  }

  lemma UpperTwice(s: string)
    ensures Upper(Upper(s)) == Upper(s)
  {
  }

  lemma UpperKeepsClean(s: string)
    requires Lacks(s, '=') && Lacks(s, ' ') && OneLine(s)
    ensures Lacks(Upper(s), '=') && Lacks(Upper(s), ' ') && OneLine(Upper(s))
  {
  }

  lemma AddTokenClean(cmd: Command, token: string)
    requires CleanTokens(cmd.tokens) && Lacks(token, ' ') && OneLine(token)
    ensures CleanTokens(AddToken(cmd, token).tokens)
  {
    var eq := FindFrom(token, '=', 0);
    if token != "" && 0 < eq && eq + 1 < |token| {
      var key, val := token[..eq], token[eq + 1..];
      UpperTwice(key);
      UpperKeepsClean(key);
      assert CleanValue(val);
    }
  }

  lemma {:induction false} ParseFromClean(rest: string, start: nat, cmd: Command)
    requires CleanTokens(cmd.tokens) && OneLine(rest)
    ensures CleanTokens(ParseFrom(rest, start, cmd).tokens)
    decreases |rest| - start
  {
    if start < |rest| {
      var end := FindFrom(rest, ' ', start);
      AddTokenClean(cmd, rest[start..end]);
      ParseFromClean(rest, end + 1, AddToken(cmd, rest[start..end]));
    }
  }

  lemma StripEolOneLine(s: string)
    requires OneLine(s)
    ensures StripEol(s) == s
  {
  }

  /** Every token of a one-line command has an upper-case key and a value without
      blanks: what the replay record can print and read back. */
  lemma ParsedTokensClean(line: string)
    requires OneLine(line)
    ensures CleanTokens(Parse(line).tokens)
  {
    StripEolOneLine(line);
    if |line| >= 4 {
      assert OneLine(line[4..]);
      ParseFromClean(line[4..], 0, Command(true, true, "", 0, [], []));
    }
  }
}
