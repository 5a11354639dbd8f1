/**
 * The replay record (config_replay.cpp): the MODE and, per key, the last value a
 * successful apply wrote since that MODE; and the SET command that rebuilds it.
 */
module ConfigReplay {
  import opened Prelude
  import opened ConfigParser

  type Entry = (string, string)

  datatype Record = Record(mode: string, keys: seq<Entry>)

  const EMPTY := Record("", [])

  predicate Recorded(keys: seq<Entry>, k: string) {
    exists i | 0 <= i < |keys| :: keys[i].0 == k
  }

  /** The first entry of the key, or the end. */
  function IndexOf(keys: seq<Entry>, k: string): (i: nat)
    ensures i <= |keys|
    ensures i < |keys| ==> keys[i].0 == k
    ensures forall j | 0 <= j < i :: keys[j].0 != k
  {
    if keys == [] || keys[0].0 == k then 0 else 1 + IndexOf(keys[1..], k)
  }

  /** An applied key: its value replaces the key's last one, or the key is appended. */
  function Note(keys: seq<Entry>, k: string, v: string): seq<Entry> {
    var i := IndexOf(keys, k);
    if i < |keys| then keys[i := (k, v)] else keys + [(k, v)]
  }

  function NoteAll(keys: seq<Entry>, kvs: seq<Entry>): seq<Entry> {
    if kvs == [] then keys
    else Note(NoteAll(keys, kvs[..|kvs| - 1]), kvs[|kvs| - 1].0, kvs[|kvs| - 1].1)
  }

  function Assignment(kv: Entry): string {
    " " + kv.0 + "=" + kv.1
  }

  function Assignments(kvs: seq<Entry>): string {
    if kvs == [] then "" else Assignment(kvs[0]) + Assignments(kvs[1..])
  }

  /** What the command assigns: the mode, if any, then the keys in order. */
  function Entries(r: Record): seq<Entry> {
    (if r.mode == "" then [] else [("MODE", r.mode)]) + r.keys
  }

  /** "SET [MODE=<m>] K=V ...", or "" when nothing was applied. */
  function CommandOf(r: Record): string {
    if Entries(r) == [] then "" else "SET" + Assignments(Entries(r))
  }

  // ---- the record in place -----------------------------------------------------------------

  class ReplayRecord {
    var mode: string
    var keys: seq<Entry>

    constructor ()
      ensures View() == EMPTY
    {
      mode, keys := "", [];
    }

    function View(): Record
      reads this
    {
      Record(mode, keys)
    }

    method NoteKey(k: string, v: string)
      modifies this
      ensures View() == old(View()).(keys := Note(old(keys), k, v))
    {
      var i := 0;
      while i < |keys|
        invariant 0 <= i <= |keys| && keys == old(keys)
        invariant forall j | 0 <= j < i :: keys[j].0 != k
      {
        if keys[i].0 == k {
          IndexIs(keys, k, i);
          keys := keys[i := (k, v)];
          return;
        }
        i := i + 1;
      }
      keys := keys + [(k, v)];
    }

    method StartMode(m: string)
      modifies this
      ensures View() == Record(m, [])
    {
      mode := m;
      keys := [];
    }

    method Value(k: string) returns (v: Option<string>)
      ensures v.None? <==> !Recorded(keys, k)
      ensures v.Some? ==> (k, v.value) in keys
    {
      for i := 0 to |keys|
        invariant forall j | 0 <= j < i :: keys[j].0 != k
      {
        if keys[i].0 == k {
          assert keys[i] in keys;
          return Some(keys[i].1);
        }
      }
      v := None;
    }

    method Command() returns (cmd: string)
      ensures cmd == CommandOf(View())
    {
      if mode == "" && keys == [] {
        return "";
      }
      CommandSplit(View());
      cmd := "SET";
      if mode != "" {
        cmd := cmd + Assignment(("MODE", mode));
      }
      cmd := AppendAssignments(cmd);
    }

    method AppendAssignments(head: string) returns (cmd: string)
      ensures cmd == head + Assignments(keys)
    {
      cmd := head;
      var i := 0;
      assert keys[0..] == keys;
      while i < |keys|
        invariant 0 <= i <= |keys|
        invariant cmd + Assignments(keys[i..]) == head + Assignments(keys)
      {
        assert keys[i..][1..] == keys[i + 1..];
        cmd := cmd + Assignment(keys[i]);
        i := i + 1;
      }
    }
  }

  lemma CommandSplit(r: Record)
    requires Entries(r) != []
    ensures CommandOf(r) == if r.mode == "" then "SET" + Assignments(r.keys)
                            else "SET" + Assignment(("MODE", r.mode)) + Assignments(r.keys)
  {
    if r.mode == "" {
      assert Entries(r) == r.keys;
    } else {
      assert Entries(r)[1..] == r.keys;
    }
  }

  lemma IndexIs(keys: seq<Entry>, k: string, i: nat)
    requires i < |keys| && keys[i].0 == k && forall j | 0 <= j < i :: keys[j].0 != k
    ensures IndexOf(keys, k) == i
  {
  }

  // ---- the record's laws -----------------------------------------------------------------------

  predicate UniqueKeys(keys: seq<Entry>) {
    forall i, j | 0 <= i < j < |keys| :: keys[i].0 != keys[j].0
  }

  lemma NoteUnique(keys: seq<Entry>, k: string, v: string)
    requires UniqueKeys(keys)
    ensures UniqueKeys(Note(keys, k, v))
  {
  }

  /** The record as the map it stands for. */
  function MapOf(keys: seq<Entry>): map<string, string> {
    if keys == [] then map[] else MapOf(keys[..|keys| - 1])[keys[|keys| - 1].0 := keys[|keys| - 1].1]
  }

  lemma {:induction false} SetIsUpdate(keys: seq<Entry>, i: nat, v: string)
    requires UniqueKeys(keys) && i < |keys|
    ensures MapOf(keys[i := (keys[i].0, v)]) == MapOf(keys)[keys[i].0 := v]
    decreases |keys|
  {
    var n := |keys| - 1;
    var front, last, kv := keys[..n], keys[n], (keys[i].0, v);
    assert keys == front + [last];
    MapOfMore(front, last);
    if i == n {
      MapOfMore(front, kv);
      assert keys[i := kv] == front + [kv];
    } else {
      SetIsUpdate(front, i, v);
      SetInFront(front, last, i, kv);
    }
  }

  lemma SetInFront(front: seq<Entry>, last: Entry, i: nat, kv: Entry)
    requires i < |front| && kv.0 != last.0 && MapOf(front[i := kv]) == MapOf(front)[kv.0 := kv.1]
    ensures MapOf((front + [last])[i := kv]) == MapOf(front)[last.0 := last.1][kv.0 := kv.1]
  {
    MapOfMore(front[i := kv], last);
    assert (front + [last])[i := kv] == front[i := kv] + [last];
    UpdatesSwap(MapOf(front), kv.0, kv.1, last.0, last.1);
  }

  /** Noting a key is a map update: the record keeps the last value per key. */
  lemma NoteIsUpdate(keys: seq<Entry>, k: string, v: string)
    requires UniqueKeys(keys)
    ensures MapOf(Note(keys, k, v)) == MapOf(keys)[k := v]
  {
    var i := IndexOf(keys, k);
    if i < |keys| {
      SetIsUpdate(keys, i, v);
    } else {
      MapOfMore(keys, (k, v));
    }
  }

  lemma MapOfMore(keys: seq<Entry>, kv: Entry)
    ensures MapOf(keys + [kv]) == MapOf(keys)[kv.0 := kv.1]
  {
    assert (keys + [kv])[..|keys|] == keys;
  }

  lemma UpdatesSwap(m: map<string, string>, k: string, v: string, j: string, w: string)
    requires k != j
    ensures m[k := v][j := w] == m[j := w][k := v]
  {
  }

  /** Replaying a record on the empty one rebuilds it, in its own order. */
  lemma {:induction false} NoteAllRebuilds(keys: seq<Entry>)
    requires UniqueKeys(keys)
    ensures NoteAll([], keys) == keys
  {
    if keys != [] {
      NoteAllRebuilds(keys[..|keys| - 1]);
    }
  }

  /** Replaying a record on itself changes nothing. */
  lemma {:induction false} NoteAllFixed(keys: seq<Entry>, kvs: seq<Entry>)
    requires UniqueKeys(keys) && forall kv | kv in kvs :: kv in keys
    ensures NoteAll(keys, kvs) == keys
  {
    if kvs != [] {
      var front, last := kvs[..|kvs| - 1], kvs[|kvs| - 1];
      NoteAllFixed(keys, front);
      assert last in kvs;
      var i :| 0 <= i < |keys| && keys[i] == last;
      IndexIs(keys, last.0, i);
    }
  }

  // ---- the printed command parses back to the record ----------------------------------------------

  function Token(kv: Entry): string {
    kv.0 + "=" + kv.1
  }

  lemma AddTokenReads(cmd: Command, kv: Entry)
    requires kv.0 != "" && Upper(kv.0) == kv.0 && Lacks(kv.0, '=') && kv.1 != ""
    ensures AddToken(cmd, Token(kv)) == if kv.0 == "MODE" then cmd.(mode := Upper(kv.1), modeCount := cmd.modeCount + 1)
                                        else cmd.(tokens := cmd.tokens + [kv])
  {
    var t := Token(kv);
    assert t[|kv.0|] == '=';
    assert forall j | 0 <= j < |kv.0| :: t[j] == kv.0[j];
    assert FindFrom(t, '=', 0) == |kv.0|;
    assert t[..|kv.0|] == kv.0 && t[|kv.0| + 1..] == kv.1;
  }

  function AddAll(cmd: Command, ts: seq<string>): Command
    decreases |ts|
  {
    if ts == [] then cmd else AddAll(AddToken(cmd, ts[0]), ts[1..])
  }

  lemma AddFirst(cmd: Command, t: string, ts: seq<string>)
    ensures AddAll(cmd, [t] + ts) == AddAll(AddToken(cmd, t), ts)
  {
    assert ([t] + ts)[1..] == ts;
  }

  function Tokens(kvs: seq<Entry>): seq<string> {
    if kvs == [] then [] else [Token(kvs[0])] + Tokens(kvs[1..])
  }

  /** A token stands at this place, and a blank or nothing after it. */
  predicate TokenAt(text: string, at: nat, token: string) {
    && at + |token| <= |text| && text[at..at + |token|] == token
    && (at + |token| < |text| ==> text[at + |token|] == ' ')
  }

  lemma TokenEnds(text: string, at: nat, token: string)
    requires TokenAt(text, at, token) && Lacks(token, ' ')
    ensures FindFrom(text, ' ', at) == at + |token|
  {
    forall j | at <= j < at + |token| ensures text[j] != ' ' {
      assert text[j] == token[j - at];
    }
  }

  /** The parser takes a printed token and goes on after its blank. */
  lemma ParseToken(text: string, at: nat, token: string, cmd: Command)
    requires TokenAt(text, at, token) && Lacks(token, ' ')
    ensures ParseFrom(text, at, cmd) == ParseFrom(text, at + |token| + 1, AddToken(cmd, token))
  {
    TokenEnds(text, at, token);
  }

  /** From this place on the text is these tokens, with one blank between two. */
  predicate TokensAt(text: string, at: nat, ts: seq<string>)
    decreases |ts|
  {
    if ts == [] then at >= |text|
    else TokenAt(text, at, ts[0]) && Lacks(ts[0], ' ') && TokensAt(text, at + |ts[0]| + 1, ts[1..])
  }

  lemma ParseEnd(text: string, at: nat, cmd: Command)
    requires at >= |text|
    ensures ParseFrom(text, at, cmd) == cmd
  {
  }

  lemma {:induction false} ParseTokens(text: string, at: nat, ts: seq<string>, cmd: Command)
    requires TokensAt(text, at, ts)
    ensures ParseFrom(text, at, cmd) == AddAll(cmd, ts)
    decreases |ts|
  {
    if ts == [] {
      ParseEnd(text, at, cmd);
    } else {
      var cmd1, next := AddToken(cmd, ts[0]), at + |ts[0]| + 1;
      ParseToken(text, at, ts[0], cmd);
      ParseTokens(text, next, ts[1..], cmd1);
    }
  }

  predicate Blankless(kvs: seq<Entry>) {
    kvs == [] || (Lacks(Token(kvs[0]), ' ') && Blankless(kvs[1..]))
  }

  lemma {:induction false} AllBlankless(kvs: seq<Entry>)
    requires forall kv | kv in kvs :: Lacks(Token(kv), ' ')
    ensures Blankless(kvs)
  {
    if kvs != [] {
      assert kvs[0] in kvs;
      AllBlankless(kvs[1..]);
    }
  }

  /** Printed assignments without the blank in front. */
  function Printed(kvs: seq<Entry>): string
    requires kvs != []
  {
    Token(kvs[0]) + Assignments(kvs[1..])
  }

  /** Printed assignments begin with their first token and go on with the others. */
  lemma PrintedAt(text: string, at: nat, kvs: seq<Entry>)
    requires kvs != [] && at <= |text| && text[at..] == Printed(kvs)
    ensures var token, rest := Token(kvs[0]), kvs[1..];
            && TokenAt(text, at, token)
            && (rest == [] ==> at + |token| == |text|)
            && (rest != [] ==> at + |token| + 1 <= |text| && text[at + |token| + 1..] == Printed(rest))
  {
    var token, rest := Token(kvs[0]), kvs[1..];
    NextAssignment(rest);
    assert text[at..at + |token|] == text[at..][..|token|];
    assert text[at + |token|..] == text[at..][|token|..] == Assignments(rest);
    if rest != [] {
      assert text[at + |token|] == text[at + |token|..][0];
      assert text[at + |token| + 1..] == text[at + |token|..][1..];
    }
  }

  lemma {:induction false} PrintedTokens(text: string, at: nat, kvs: seq<Entry>)
    requires kvs != [] && Blankless(kvs) && at <= |text| && text[at..] == Printed(kvs)
    ensures TokensAt(text, at, Tokens(kvs))
    decreases |kvs|
  {
    var token, rest := Token(kvs[0]), kvs[1..];
    PrintedAt(text, at, kvs);
    if rest != [] {
      PrintedTokens(text, at + |token| + 1, rest);
    }
    OneMoreToken(text, at, token, Tokens(rest));
  }

  lemma OneMoreToken(text: string, at: nat, token: string, ts: seq<string>)
    requires TokenAt(text, at, token) && Lacks(token, ' ') && TokensAt(text, at + |token| + 1, ts)
    ensures TokensAt(text, at, [token] + ts)
  {
    assert ([token] + ts)[1..] == ts;
  }

  /** Printed assignments are none, or the blank in front of the next and the rest. */
  lemma NextAssignment(kvs: seq<Entry>)
    ensures Assignments(kvs) == "" <==> kvs == []
    ensures kvs != [] ==> Assignments(kvs) == " " + Printed(kvs)
  {
    if kvs != [] {
      assert Assignment(kvs[0]) == " " + Token(kvs[0]);
      Associate(" ", Token(kvs[0]), Assignments(kvs[1..]));
    }
  }

  lemma Associate(a: string, b: string, c: string)
    ensures (a + b) + c == a + (b + c)
  {
  }

  predicate CleanEach(kvs: seq<Entry>) {
    kvs == [] || (CleanKey(kvs[0].0) && CleanValue(kvs[0].1) && CleanEach(kvs[1..]))
  }

  lemma {:induction false} AllClean(kvs: seq<Entry>)
    requires CleanTokens(kvs)
    ensures CleanEach(kvs)
  {
    if kvs != [] {
      assert kvs[0] in kvs;
      AllClean(kvs[1..]);
    }
  }

  lemma {:induction false} ReadKeys(cmd: Command, kvs: seq<Entry>)
    requires CleanEach(kvs)
    ensures AddAll(cmd, Tokens(kvs)) == cmd.(tokens := cmd.tokens + kvs)
    decreases |kvs|
  {
    if kvs != [] {
      AddTokenReads(cmd, kvs[0]);
      AddFirst(cmd, Token(kvs[0]), Tokens(kvs[1..]));
      ReadKeys(cmd.(tokens := cmd.tokens + [kvs[0]]), kvs[1..]);
      assert cmd.tokens + kvs == (cmd.tokens + [kvs[0]]) + kvs[1..];
    }
  }

  predicate Printable(r: Record) {
    (r.mode == "" || (Upper(r.mode) == r.mode && CleanValue(r.mode))) && CleanTokens(r.keys)
  }

  const SET_LINE := Command(true, true, "", 0, [], [])

  lemma PrintedIsRead(r: Record)
    requires Printable(r) && Entries(r) != []
    ensures Parse(CommandOf(r)) == AddAll(SET_LINE, Tokens(Entries(r)))
  {
    var text, es := CommandOf(r), Entries(r);
    EntriesClean(r);
    CommandOneLine(r);
    StripEolOneLine(text);
    var tail := Printed(es);
    NextAssignment(es);
    assert text == "SET " + tail;
    assert text[..4] == "SET " && text[4..] == tail && |text| > 4;
    AllBlankless(es);
    assert tail[0..] == tail;
    PrintedTokens(tail, 0, es);
    ParseTokens(tail, 0, Tokens(es), SET_LINE);
  }

  lemma ReadPlain(r: Record)
    requires CleanEach(r.keys) && r.mode == ""
    ensures AddAll(SET_LINE, Tokens(Entries(r))) == SET_LINE.(tokens := r.keys)
  {
    assert Entries(r) == r.keys;
    ReadKeys(SET_LINE, r.keys);
  }

  lemma ReadWithMode(r: Record)
    requires CleanEach(r.keys) && r.mode != "" && Upper(r.mode) == r.mode
    ensures AddAll(SET_LINE, Tokens(Entries(r))) == SET_LINE.(mode := r.mode, modeCount := 1, tokens := r.keys)
  {
    var kv := ("MODE", r.mode);
    assert Entries(r) == [kv] + r.keys && Entries(r)[1..] == r.keys;
    AddFirst(SET_LINE, Token(kv), Tokens(r.keys));
    AddTokenReads(SET_LINE, kv);
    ReadKeys(SET_LINE.(mode := r.mode, modeCount := 1), r.keys);
  }

  /** SET print/parse round trip: a record with clean entries prints a command that
      parses back to the same mode and the same entries in order, nothing malformed. */
  lemma PrintParse(r: Record)
    requires Printable(r) && Entries(r) != []
    ensures Parse(CommandOf(r)) == Command(true, true, r.mode, if r.mode == "" then 0 else 1, r.keys, [])
  {
    PrintedIsRead(r);
    AllClean(r.keys);
    if r.mode == "" { ReadPlain(r); } else { ReadWithMode(r); }
  }

  lemma EntriesClean(r: Record)
    requires Printable(r)
    ensures forall kv | kv in Entries(r) :: Lacks(Token(kv), ' ') && OneLine(Token(kv))
  {
    forall kv | kv in Entries(r) ensures Lacks(Token(kv), ' ') && OneLine(Token(kv)) {
      assert kv == ("MODE", r.mode) || kv in r.keys;
    }
  }

  lemma {:induction false} AssignmentsOneLine(kvs: seq<Entry>)
    requires forall kv | kv in kvs :: OneLine(Token(kv))
    ensures OneLine(Assignments(kvs))
  {
    if kvs != [] {
      AssignmentsOneLine(kvs[1..]);
      assert Assignment(kvs[0]) == " " + Token(kvs[0]);
      assert kvs[0] in kvs;
    }
  }

  lemma CommandOneLine(r: Record)
    requires Printable(r)
    ensures OneLine(CommandOf(r))
  {
    EntriesClean(r);
    AssignmentsOneLine(Entries(r));
  }
}
