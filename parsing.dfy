/** The two line-oriented formats the engine reads, as functions from the
    file's lines to what the engine stores: the machine description
    ("configuration") and the initial tape. Each comes with a printer and the
    round trip that shows parsing recovers what was printed. */
module Parsing {
  import opened JavaText
  import opened Tapes
  import opened Semantics

  /** Everything that can abort construction or a result query. */
  datatype Error =
    | EmptyFile              // "File is empty", for either file
    | ConfigLine(line: nat)  // InvalidConfigFileException: "Line n is invalid"
    | TapeCell(cell: nat)    // InvalidTapeFileException: "Can't parse cell nb i"
    | BadNumber              // NumberFormatException from Integer.parseInt
    | MissingLine            // NoSuchElementException from Scanner.nextLine
    | BadSubstring           // StringIndexOutOfBoundsException from substring
    | BadDirection           // IllegalArgumentException from direction.valueOf
    | NotYetRun              // TuringMachineException from the result getters

  datatype Result<+T> = Ok(value: T) | Err(error: Error) {
    predicate IsFailure() {
      Err?
    }

    function PropagateFailure<U>(): Result<U>
      requires Err?
    {
      Err(error)
    }

    function Extract(): T
      requires Ok?
    {
      value
    }
  }

  /** The outcome of an operation that only changes state. */
  datatype Status = Pass | Fail(error: Error)

  function StatusOf<T>(r: Result<T>): Status {
    if r.Ok? then Pass else Fail(r.error)
  }

  /** `xs` placed in front of a successful list result. */
  function Prefixed<T>(xs: seq<T>, r: Result<seq<T>>): Result<seq<T>> {
    if r.Ok? then Ok(xs + r.value) else r
  }

  lemma PrefixedEmpty<T>(r: Result<seq<T>>)
    ensures Prefixed([], r) == r
  {
    if r.Ok? {
      assert [] + r.value == r.value;
    }
  }

  lemma PrefixedPrefixed<T>(xs: seq<T>, ys: seq<T>, r: Result<seq<T>>)
    ensures Prefixed(xs, Prefixed(ys, r)) == Prefixed(xs + ys, r)
  {
    if r.Ok? {
      assert xs + (ys + r.value) == xs + ys + r.value;
    }
  }

  const FieldSeps: set<char> := {':', ';'}  // line.split(":|;")
  const ListSeps: set<char> := {','}        // split(",")
  const EndSeps: set<char> := {',', ';'}    // split(",|;")
  const CellSeps: set<char> := {';'}        // split(";")

  /** The transition-line counter of `parseConfig` starts at 0 and is never
      incremented, so every token-count error in a transition line names
      line 0 + 5. */
  const TransitionLineNumber: nat := 5

  function Fields(line: string): seq<string> {
    Split(line, FieldSeps)
  }

  /** A header line `key:payload;` with exactly two fields. */
  predicate Header(line: string, key: string) {
    |Fields(line)| == 2 && Fields(line)[0] == key
  }

  function Number(s: string): Result<int> {
    match ParseInt(s)
    case Some(v) => Ok(v)
    case None => Err(BadNumber)
  }

  /** Applies `parse` to each token in order: the list of the values, or the
      error of the first token that fails. */
  function ParseAll<T>(tokens: seq<string>, parse: string -> Result<T>): (r: Result<seq<T>>)
    ensures r.Ok? ==> |r.value| == |tokens|
    decreases |tokens|
  {
    if |tokens| == 0 then Ok([])
    else
      var v :- parse(tokens[0]);
      var rest :- ParseAll(tokens[1..], parse);
      Ok([v] + rest)
  }

  /** The list is read in full exactly when every token parses, and it holds
      their values in order; a failure is the failure of the first token that
      does not parse. */
  lemma {:induction false} ParseAllSpec<T>(tokens: seq<string>, parse: string -> Result<T>)
    ensures ParseAll(tokens, parse).Ok? <==> forall k :: 0 <= k < |tokens| ==> parse(tokens[k]).Ok?
    ensures ParseAll(tokens, parse).Ok? ==> forall k :: 0 <= k < |tokens| ==> parse(tokens[k]) == Ok(ParseAll(tokens, parse).value[k])
    ensures ParseAll(tokens, parse).Err? ==>
      exists k :: (0 <= k < |tokens| && parse(tokens[k]) == Err(ParseAll(tokens, parse).error)
                   && forall j :: 0 <= j < k ==> parse(tokens[j]).Ok?)
    decreases |tokens|
  {
    if |tokens| > 0 {
      ParseAllSpec(tokens[1..], parse);
      assert forall k :: 1 <= k < |tokens| ==> tokens[1..][k - 1] == tokens[k];
      if parse(tokens[0]).Ok? && ParseAll(tokens, parse).Err? {
        var k :| 0 <= k < |tokens[1..]| && parse(tokens[1..][k]) == Err(ParseAll(tokens[1..], parse).error)
          && forall j :: 0 <= j < k ==> parse(tokens[1..][j]).Ok?;
        assert parse(tokens[k + 1]) == Err(ParseAll(tokens, parse).error);
        assert forall j :: 0 <= j < k + 1 ==> parse(tokens[j]).Ok? by {
          forall j | 0 < j < k + 1
            ensures parse(tokens[j]).Ok?
          {
            assert tokens[1..][j - 1] == tokens[j];
          }
        }
      }
    }
  }

  /** One token of `ParseAll`, taken from the front of `tokens[k..]`. */
  lemma ParseAllFrom<T>(tokens: seq<string>, k: nat, parse: string -> Result<T>)
    requires k < |tokens|
    ensures parse(tokens[k]).Err? ==> ParseAll(tokens[k..], parse) == Err(parse(tokens[k]).error)
    ensures parse(tokens[k]).Ok? ==> ParseAll(tokens[k..], parse) == Prefixed([parse(tokens[k]).value], ParseAll(tokens[k + 1..], parse))
  {
    assert tokens[k..][0] == tokens[k] && tokens[k..][1..] == tokens[k + 1..];
  }

  /** `for (String i : states) list.add(Integer.parseInt(i))`, as a list. */
  function Numbers(tokens: seq<string>): Result<seq<int>> {
    ParseAll(tokens, Number)
  }

  /** The list is read in full exactly when every token is an `int`, and it
      holds their values in order; otherwise the error is a bad number. */
  lemma NumbersSpec(tokens: seq<string>)
    ensures Numbers(tokens).Ok? <==> forall k :: 0 <= k < |tokens| ==> ParseInt(tokens[k]).Some?
    ensures Numbers(tokens).Ok? ==> forall k :: 0 <= k < |tokens| ==> ParseInt(tokens[k]) == Some(Numbers(tokens).value[k])
    ensures Numbers(tokens).Err? ==> Numbers(tokens).error == BadNumber
  {
    ParseAllSpec(tokens, Number);
  }

  /** One token of `Numbers`, taken from the front of `tokens[k..]`. */
  lemma NumbersFrom(tokens: seq<string>, k: nat)
    requires k < |tokens|
    ensures ParseInt(tokens[k]).None? ==> Numbers(tokens[k..]) == Err(BadNumber)
    ensures ParseInt(tokens[k]).Some? ==> Numbers(tokens[k..]) == Prefixed([ParseInt(tokens[k]).value], Numbers(tokens[k + 1..]))
  {
    ParseAllFrom(tokens, k, Number);
  }

  /** `direction.valueOf(s)`. */
  function ParseDirection(s: string): (r: Result<Dir>)
    ensures r.Ok? <==> s == "RIGHT" || s == "LEFT"
    ensures r.Ok? ==> DirName(r.value) == s
    ensures r.Err? ==> r.error == BadDirection
  {
    if s == "RIGHT" then Ok(Right)
    else if s == "LEFT" then Ok(Left)
    else Err(BadDirection)
  }

  function DirName(d: Dir): string {
    if d == Right then "RIGHT" else "LEFT"
  }

  function Cut(s: Option<string>): Result<string> {
    match s
    case Some(t) => Ok(t)
    case None => Err(BadSubstring)
  }

  /** One transition line `(state,read):(next,write,RIGHT|LEFT);`. */
  function ParseEntry(line: string): (r: Result<Entry>)
    ensures |Fields(line)| != 2 ==> r == Err(ConfigLine(TransitionLineNumber))
    ensures |Fields(line)| == 2 && |Split(Fields(line)[0], ListSeps)| != 2 ==> r == Err(ConfigLine(TransitionLineNumber))
    ensures |Fields(line)| == 2 && |Split(Fields(line)[1], EndSeps)| != 3 ==> r == Err(ConfigLine(TransitionLineNumber))
    ensures r.Ok? ==> EntryPrintable(r.value)
  {
    var fields := Fields(line);
    if |fields| != 2 then Err(ConfigLine(TransitionLineNumber))
    else
      var start := Split(fields[0], ListSeps);
      if |start| != 2 then Err(ConfigLine(TransitionLineNumber))
      else
        var end := Split(fields[1], EndSeps);
        if |end| != 3 then Err(ConfigLine(TransitionLineNumber))
        else
          var (state, read) :- ParseStart(start);
          var action :- ParseAction(end);
          Ok(Entry(state, read, action))
  }

  /** `is` and `r` from the pieces `(is` and `r)`. */
  function ParseStart(start: seq<string>): (r: Result<(int, int)>)
    requires |start| == 2
    ensures r.Ok? ==> IsInt(r.value.0) && IsInt(r.value.1)
  {
    var stateText :- Cut(DropFirst(start[0]));
    var state :- Number(stateText);
    var readText :- Cut(DropLast(start[1]));
    var read :- Number(readText);
    Ok((state, read))
  }

  /** `ns`, `w` and `d` from the pieces `(ns`, `w` and `d)`. */
  function ParseAction(end: seq<string>): (r: Result<Transition>)
    requires |end| == 3
    ensures r.Ok? ==> IsInt(r.value.next) && IsInt(r.value.write)
  {
    var nextText :- Cut(DropFirst(end[0]));
    var next :- Number(nextText);
    var write :- Number(end[1]);
    var dirText :- Cut(DropLast(end[2]));
    var dir :- ParseDirection(dirText);
    Ok(Transition(next, write, dir))
  }

  /** The transition lines, in order; the first bad line aborts. */
  function ParseEntries(lines: seq<string>): Result<seq<Entry>> {
    ParseAll(lines, ParseEntry)
  }

  /** The section is read in full exactly when every line is a transition,
      the entries are those of the lines in order, and a failure is the
      failure of the first line that is not a transition. */
  lemma ParseEntriesSpec(lines: seq<string>)
    ensures ParseEntries(lines).Ok? <==> forall k :: 0 <= k < |lines| ==> ParseEntry(lines[k]).Ok?
    ensures ParseEntries(lines).Ok? ==> forall k :: 0 <= k < |lines| ==> ParseEntry(lines[k]) == Ok(ParseEntries(lines).value[k])
    ensures ParseEntries(lines).Err? ==>
      exists k :: (0 <= k < |lines| && ParseEntry(lines[k]) == Err(ParseEntries(lines).error)
                   && forall j :: 0 <= j < k ==> ParseEntry(lines[j]).Ok?)
  {
    ParseAllSpec(lines, ParseEntry);
  }

  /** One line of `ParseEntries`, taken from the front of `lines[k..]`. */
  lemma EntriesFrom(lines: seq<string>, k: nat)
    requires k < |lines|
    ensures ParseEntry(lines[k]).Err? ==> ParseEntries(lines[k..]) == Err(ParseEntry(lines[k]).error)
    ensures ParseEntry(lines[k]).Ok? ==> ParseEntries(lines[k..]) == Prefixed([ParseEntry(lines[k]).value], ParseEntries(lines[k + 1..]))
  {
    ParseAllFrom(lines, k, ParseEntry);
  }

  /** What a configuration file sets up. */
  datatype Description = Description(statesNb: int, accepting: seq<int>, rejecting: seq<int>, entries: seq<Entry>)

  /** The payload of header line `n` (1-based), which must read `key:payload;`. */
  function Payload(lines: seq<string>, n: nat, key: string): (r: Result<string>)
    requires 1 <= n
  {
    if |lines| < n then Err(MissingLine)
    else if !Header(lines[n - 1], key) then Err(ConfigLine(n))
    else Ok(Fields(lines[n - 1])[1])
  }

  /** Line 1, `state_number:<int>;`. */
  function StatesNumber(lines: seq<string>): Result<int> {
    var text :- Payload(lines, 1, "state_number");
    Number(text)
  }

  /** Line `n`, `key:<int>,<int>,...;`. */
  function StateList(lines: seq<string>, n: nat, key: string): Result<seq<int>>
    requires 1 <= n
  {
    var text :- Payload(lines, n, key);
    Numbers(Split(text, ListSeps))
  }

  /** Line 4, `transitions:`, then the transition lines. */
  function TransitionSection(lines: seq<string>): Result<seq<Entry>> {
    if |lines| < 4 then Err(MissingLine)
    else if Fields(lines[3]) != ["transitions"] then Err(ConfigLine(4))
    else ParseEntries(lines[4..])
  }

  /** `parseConfig`: four header lines, then one transition per line. */
  function ReadConfig(lines: seq<string>): (r: Result<Description>)
    ensures |lines| == 0 ==> r == Err(EmptyFile)
    ensures |lines| > 0 && !Header(lines[0], "state_number") ==> r == Err(ConfigLine(1))
  {
    if |lines| == 0 then Err(EmptyFile)
    else
      var statesNb :- StatesNumber(lines);
      var accepting :- StateList(lines, 2, "accepting_states");
      var rejecting :- StateList(lines, 3, "rejecting_states");
      var entries :- TransitionSection(lines);
      Ok(Description(statesNb, accepting, rejecting, entries))
  }

  /** A configuration is accepted only with its four header lines in place,
      and then it holds the values they and the transition lines carry. */
  lemma ReadConfigOk(lines: seq<string>)
    requires ReadConfig(lines).Ok?
    ensures var d := ReadConfig(lines).value;
      && |lines| >= 4
      && Header(lines[0], "state_number")
      && Header(lines[1], "accepting_states")
      && Header(lines[2], "rejecting_states")
      && Fields(lines[3]) == ["transitions"]
      && ParseInt(Fields(lines[0])[1]) == Some(d.statesNb)
      && Numbers(Split(Fields(lines[1])[1], ListSeps)) == Ok(d.accepting)
      && Numbers(Split(Fields(lines[2])[1], ListSeps)) == Ok(d.rejecting)
      && ParseEntries(lines[4..]) == Ok(d.entries)
  {
  }

  /** Which error a rejected configuration reports: the first header line
      that is missing or malformed, in file order, then line 4, then the
      first transition line that does not parse. */
  lemma ReadConfigErrors(lines: seq<string>)
    requires |lines| > 0
    ensures !Header(lines[0], "state_number") ==> ReadConfig(lines) == Err(ConfigLine(1))
    ensures Header(lines[0], "state_number") && ParseInt(Fields(lines[0])[1]).None? ==> ReadConfig(lines) == Err(BadNumber)
    ensures StatesNumber(lines).Ok? ==>
      && (|lines| < 2 ==> ReadConfig(lines) == Err(MissingLine))
      && (|lines| >= 2 && !Header(lines[1], "accepting_states") ==> ReadConfig(lines) == Err(ConfigLine(2)))
      && (|lines| >= 2 && Header(lines[1], "accepting_states") && Numbers(Split(Fields(lines[1])[1], ListSeps)).Err? ==>
            ReadConfig(lines) == Err(BadNumber))
    ensures StatesNumber(lines).Ok? && StateList(lines, 2, "accepting_states").Ok? ==>
      && (|lines| < 3 ==> ReadConfig(lines) == Err(MissingLine))
      && (|lines| >= 3 && !Header(lines[2], "rejecting_states") ==> ReadConfig(lines) == Err(ConfigLine(3)))
      && (|lines| >= 3 && Header(lines[2], "rejecting_states") && Numbers(Split(Fields(lines[2])[1], ListSeps)).Err? ==>
            ReadConfig(lines) == Err(BadNumber))
    ensures StatesNumber(lines).Ok? && StateList(lines, 2, "accepting_states").Ok? && StateList(lines, 3, "rejecting_states").Ok? ==>
      && (|lines| < 4 ==> ReadConfig(lines) == Err(MissingLine))
      && (|lines| >= 4 && Fields(lines[3]) != ["transitions"] ==> ReadConfig(lines) == Err(ConfigLine(4)))
      && (|lines| >= 4 && Fields(lines[3]) == ["transitions"] && ParseEntries(lines[4..]).Err? ==>
            ReadConfig(lines) == Err(ParseEntries(lines[4..]).error))
  {
    if |lines| >= 2 && Header(lines[1], "accepting_states") {
      NumbersSpec(Split(Fields(lines[1])[1], ListSeps));
    }
    if |lines| >= 3 && Header(lines[2], "rejecting_states") {
      NumbersSpec(Split(Fields(lines[2])[1], ListSeps));
    }
  }

  /** Java's `split(":|;")` ignores a missing `;` terminator: the header line
      `accepting_states:1,2` is accepted, with payload `1,2`. */
  lemma UnterminatedHeaderAccepted()
    ensures Header("accepting_states:1,2", "accepting_states")
    ensures Fields("accepting_states:1,2")[1] == "1,2"
  {
    var ts := ["accepting_states", "1,2"];
    assert AllNoSep(ts, FieldSeps) by {
      assert NoSep(ts[1], FieldSeps) by {
        assert ts[1] == ['1', ',', '2'];
      }
    }
    assert Join(ts, ':') == "accepting_states:1,2";
    SplitJoin(ts, ':', FieldSeps);
  }

  /** The cells from token `from` on; a bad token aborts, naming its index. */
  function ParseCells(tokens: seq<string>, from: nat): (r: Result<seq<int>>)
    requires from <= |tokens|
    ensures r.Ok? ==> |r.value| == |tokens| - from
    ensures r.Err? ==> r.error.TapeCell? && from <= r.error.cell < |tokens|
    decreases |tokens| - from
  {
    if from == |tokens| then Ok([])
    else
      match ParseInt(tokens[from])
      case None => Err(TapeCell(from))
      case Some(v) => Prefixed([v], ParseCells(tokens, from + 1))
  }

  /** The cells are read in full exactly when every token is an `int`, and
      they hold the values in order; otherwise the error names the first
      token that is not. */
  lemma {:induction false} ParseCellsSpec(tokens: seq<string>, from: nat)
    requires from <= |tokens|
    ensures ParseCells(tokens, from).Ok? <==> forall k :: from <= k < |tokens| ==> ParseInt(tokens[k]).Some?
    ensures ParseCells(tokens, from).Ok? ==>
      forall k :: 0 <= k < |tokens| - from ==> ParseInt(tokens[from + k]) == Some(ParseCells(tokens, from).value[k])
    ensures ParseCells(tokens, from).Err? ==>
      var bad := ParseCells(tokens, from).error.cell;
      && ParseInt(tokens[bad]).None?
      && forall k :: from <= k < bad ==> ParseInt(tokens[k]).Some?
    decreases |tokens| - from
  {
    if from < |tokens| && ParseInt(tokens[from]).Some? {
      var v := ParseInt(tokens[from]).value;
      ParseCellsSpec(tokens, from + 1);
      var rest := ParseCells(tokens, from + 1);
      assert ParseCells(tokens, from) == Prefixed([v], rest);
      if rest.Ok? {
        var cells := [v] + rest.value;
        forall k | 0 <= k < |tokens| - from
          ensures ParseInt(tokens[from + k]) == Some(cells[k])
        {
          if k > 0 {
            assert cells[k] == rest.value[k - 1];
            assert from + k == (from + 1) + (k - 1);
          }
        }
      }
    }
  }

  /** One token of `ParseCells`, as the loop of `parseTape` takes it. */
  lemma CellsFrom(tokens: seq<string>, from: nat)
    requires from < |tokens|
    ensures ParseInt(tokens[from]).None? ==> ParseCells(tokens, from) == Err(TapeCell(from))
    ensures ParseInt(tokens[from]).Some? ==> ParseCells(tokens, from) == Prefixed([ParseInt(tokens[from]).value], ParseCells(tokens, from + 1))
  {
  }

  /** `parseTape`: one line of `;`-separated integers, cell 0 first. */
  function ReadTape(lines: seq<string>): (r: Result<seq<int>>)
    ensures |lines| == 0 ==> r == Err(EmptyFile)
    ensures |lines| > 0 && r.Ok? ==> |r.value| == |Split(lines[0], CellSeps)|
    ensures |lines| > 0 && r.Err? ==> r.error.TapeCell? && r.error.cell < |Split(lines[0], CellSeps)|
  {
    if |lines| == 0 then Err(EmptyFile) else ParseCells(Split(lines[0], CellSeps), 0)
  }

  /** A non-empty tape file is read in full exactly when every `;`-separated
      token of its first line is an `int`, cell k holding token k; otherwise
      the error names the first token that is not. */
  lemma ReadTapeSpec(lines: seq<string>)
    requires |lines| > 0
    ensures var tokens := Split(lines[0], CellSeps);
      var r := ReadTape(lines);
      && (r.Ok? <==> forall k :: 0 <= k < |tokens| ==> ParseInt(tokens[k]).Some?)
      && (r.Ok? ==> forall k :: 0 <= k < |tokens| ==> ParseInt(tokens[k]) == Some(r.value[k]))
      && (r.Err? ==> ParseInt(tokens[r.error.cell]).None? && forall k :: 0 <= k < r.error.cell ==> ParseInt(tokens[k]).Some?)
  {
    ParseCellsSpec(Split(lines[0], CellSeps), 0);
  }

  // ---------------------------------------------------------------------------
  // Printers and round trips

  function ShowInts(xs: seq<int>): (ts: seq<string>)
    ensures |ts| == |xs| && forall k :: 0 <= k < |xs| ==> ts[k] == ShowInt(xs[k])
  {
    seq(|xs|, k requires 0 <= k < |xs| => ShowInt(xs[k]))
  }

  /** The line `(state,read):(next,write,DIR);` for an entry. */
  function ShowEntry(e: Entry): string {
    var start := Join(["(" + ShowInt(e.state), ShowInt(e.read) + ")"], ',');
    var end := Join(["(" + ShowInt(e.action.next), ShowInt(e.action.write), DirName(e.action.dir) + ")"], ',');
    Join([start, end], ':') + ";"
  }

  function ShowEntries(es: seq<Entry>): (lines: seq<string>)
    ensures |lines| == |es| && forall k :: 0 <= k < |es| ==> lines[k] == ShowEntry(es[k])
  {
    seq(|es|, k requires 0 <= k < |es| => ShowEntry(es[k]))
  }

  /** The numbers of a description fit in an `int`, and both state lists are
      non-empty (an empty list prints as `key:;`, which the parser refuses). */
  predicate Printable(d: Description) {
    && IsInt(d.statesNb)
    && |d.accepting| > 0 && (forall k :: 0 <= k < |d.accepting| ==> IsInt(d.accepting[k]))
    && |d.rejecting| > 0 && (forall k :: 0 <= k < |d.rejecting| ==> IsInt(d.rejecting[k]))
    && forall k :: 0 <= k < |d.entries| ==> EntryPrintable(d.entries[k])
  }

  predicate EntryPrintable(e: Entry) {
    IsInt(e.state) && IsInt(e.read) && IsInt(e.action.next) && IsInt(e.action.write)
  }

  /** The header line `key:payload;`. */
  function HeaderLine(key: string, payload: string): string {
    Join([key, payload], ':') + ";"
  }

  function ShowConfig(d: Description): (lines: seq<string>)
    requires Printable(d)
  {
    [ HeaderLine("state_number", ShowInt(d.statesNb)),
      HeaderLine("accepting_states", Join(ShowInts(d.accepting), ',')),
      HeaderLine("rejecting_states", Join(ShowInts(d.rejecting), ',')),
      "transitions:" ]
    + ShowEntries(d.entries)
  }

  function ShowTape(cells: seq<int>): seq<string>
    requires |cells| > 0
  {
    [Join(ShowInts(cells), ';')]
  }

  lemma NoSepConcat(a: string, b: string, seps: set<char>)
    requires NoSep(a, seps) && NoSep(b, seps)
    ensures NoSep(a + b, seps)
  {
    assert forall i :: 0 <= i < |a + b| ==> (a + b)[i] == if i < |a| then a[i] else b[i - |a|];
  }

  /** No separator of any of the formats occurs in a printed number. */
  lemma ShowIntClean(n: int)
    ensures NoSep(ShowInt(n), {':', ';', ','})
    ensures NoSep(ShowInt(n), FieldSeps) && NoSep(ShowInt(n), ListSeps) && NoSep(ShowInt(n), CellSeps)
  {
    ShowIntNoSep(n, {':', ';', ','});
    ShowIntNoSep(n, FieldSeps);
    ShowIntNoSep(n, ListSeps);
    ShowIntNoSep(n, CellSeps);
  }

  lemma ShowIntsClean(xs: seq<int>)
    ensures AllNoSep(ShowInts(xs), FieldSeps) && AllNoSep(ShowInts(xs), ListSeps) && AllNoSep(ShowInts(xs), CellSeps)
  {
    forall k | 0 <= k < |xs|
      ensures NoSep(ShowInts(xs)[k], FieldSeps) && NoSep(ShowInts(xs)[k], ListSeps) && NoSep(ShowInts(xs)[k], CellSeps)
    {
      ShowIntClean(xs[k]);
    }
  }

  lemma NumbersShowInts(xs: seq<int>)
    requires forall k :: 0 <= k < |xs| ==> IsInt(xs[k])
    ensures Numbers(ShowInts(xs)) == Ok(xs)
  {
    var ts := ShowInts(xs);
    forall k | 0 <= k < |xs| ensures ParseInt(ts[k]) == Some(xs[k]) {
      ParseShowInt(xs[k]);
    }
    NumbersSpec(ts);
    var r := Numbers(ts);
    assert r.Ok?;
    assert r.value == xs;
  }

  /** The pieces of a printed `(state,read)` hold no separator of either
      kind. */
  lemma StartPiecesClean(state: int, read: int)
    ensures var ps := ["(" + ShowInt(state), ShowInt(read) + ")"];
      AllNoSep(ps, FieldSeps) && AllNoSep(ps, ListSeps)
  {
    ShowIntClean(state);
    ShowIntClean(read);
    NoSepConcat("(", ShowInt(state), FieldSeps);
    NoSepConcat(ShowInt(read), ")", FieldSeps);
    NoSepConcat("(", ShowInt(state), ListSeps);
    NoSepConcat(ShowInt(read), ")", ListSeps);
  }

  /** The `(state,read)` half of a printed transition line. */
  lemma StartShow(state: int, read: int)
    ensures var start := Join(["(" + ShowInt(state), ShowInt(read) + ")"], ',');
      && NoSep(start, FieldSeps) && |start| > 0
      && Split(start, ListSeps) == ["(" + ShowInt(state), ShowInt(read) + ")"]
  {
    var ps := ["(" + ShowInt(state), ShowInt(read) + ")"];
    StartPiecesClean(state, read);
    JoinNoSep(ps, ',', FieldSeps);
    JoinNonEmpty(ps, ',');
    SplitJoin(ps, ',', ListSeps);
  }

  lemma DirNameClean(dir: Dir)
    ensures NoSep(DirName(dir), FieldSeps) && NoSep(DirName(dir), EndSeps)
  {
  }

  /** The pieces of a printed `(next,write,DIR)` hold no separator of either
      kind. */
  lemma EndPiecesClean(next: int, write: int, dir: Dir)
    ensures var ps := ["(" + ShowInt(next), ShowInt(write), DirName(dir) + ")"];
      AllNoSep(ps, FieldSeps) && AllNoSep(ps, EndSeps)
  {
    ShowIntClean(next);
    ShowIntClean(write);
    ShowIntNoSep(next, EndSeps);
    ShowIntNoSep(write, EndSeps);
    DirNameClean(dir);
    NoSepConcat("(", ShowInt(next), FieldSeps);
    NoSepConcat(DirName(dir), ")", FieldSeps);
    NoSepConcat("(", ShowInt(next), EndSeps);
    NoSepConcat(DirName(dir), ")", EndSeps);
  }

  /** The `(next,write,DIR)` half of a printed transition line. */
  lemma EndShow(next: int, write: int, dir: Dir)
    ensures var end := Join(["(" + ShowInt(next), ShowInt(write), DirName(dir) + ")"], ',');
      && NoSep(end, FieldSeps) && |end| > 0
      && Split(end, EndSeps) == ["(" + ShowInt(next), ShowInt(write), DirName(dir) + ")"]
  {
    var ps := ["(" + ShowInt(next), ShowInt(write), DirName(dir) + ")"];
    EndPiecesClean(next, write, dir);
    JoinNoSep(ps, ',', FieldSeps);
    JoinNonEmpty(ps, ',');
    SplitJoin(ps, ',', EndSeps);
  }

  /** The printed pieces `(state` and `read)` give back both numbers. */
  lemma ParseStartShow(state: int, read: int)
    requires IsInt(state) && IsInt(read)
    ensures ParseStart(["(" + ShowInt(state), ShowInt(read) + ")"]) == Ok((state, read))
  {
    var a := "(" + ShowInt(state);
    var b := ShowInt(read) + ")";
    assert a[1..] == ShowInt(state);
    assert b[..|b| - 1] == ShowInt(read);
    ParseShowInt(state);
    ParseShowInt(read);
  }

  /** The printed pieces `(next`, `write` and `DIR)` give back the action. */
  lemma ParseActionShow(t: Transition)
    requires IsInt(t.next) && IsInt(t.write)
    ensures ParseAction(["(" + ShowInt(t.next), ShowInt(t.write), DirName(t.dir) + ")"]) == Ok(t)
  {
    var c := "(" + ShowInt(t.next);
    var f := DirName(t.dir) + ")";
    assert c[1..] == ShowInt(t.next);
    assert f[..|f| - 1] == DirName(t.dir);
    ParseShowInt(t.next);
    ParseShowInt(t.write);
  }

  /** A printed transition line parses back to the same entry. */
  lemma ParseEntryShowEntry(e: Entry)
    requires EntryPrintable(e)
    ensures ParseEntry(ShowEntry(e)) == Ok(e)
  {
    var start := Join(["(" + ShowInt(e.state), ShowInt(e.read) + ")"], ',');
    var end := Join(["(" + ShowInt(e.action.next), ShowInt(e.action.write), DirName(e.action.dir) + ")"], ',');
    StartShow(e.state, e.read);
    EndShow(e.action.next, e.action.write, e.action.dir);
    SplitJoinTerminated([start, end], ':', ';', FieldSeps);
    assert Fields(ShowEntry(e)) == [start, end];
    ParseStartShow(e.state, e.read);
    ParseActionShow(e.action);
  }

  /** The keywords of the header lines hold no field separator. */
  lemma KeywordsClean()
    ensures NoSep("state_number", FieldSeps)
    ensures NoSep("accepting_states", FieldSeps)
    ensures NoSep("rejecting_states", FieldSeps)
    ensures AllNoSep(["transitions"], FieldSeps)
  {
  }

  lemma HeaderShow(key: string, payload: string)
    requires |key| > 0 && |payload| > 0
    requires NoSep(key, FieldSeps) && NoSep(payload, FieldSeps)
    ensures Header(HeaderLine(key, payload), key)
    ensures Fields(HeaderLine(key, payload))[1] == payload
  {
    SplitJoinTerminated([key, payload], ':', ';', FieldSeps);
  }

  lemma ListShow(xs: seq<int>)
    requires |xs| > 0 && forall k :: 0 <= k < |xs| ==> IsInt(xs[k])
    ensures NoSep(Join(ShowInts(xs), ','), FieldSeps) && |Join(ShowInts(xs), ',')| > 0
    ensures Numbers(Split(Join(ShowInts(xs), ','), ListSeps)) == Ok(xs)
  {
    ShowIntsClean(xs);
    JoinNoSep(ShowInts(xs), ',', FieldSeps);
    JoinNonEmpty(ShowInts(xs), ',');
    SplitJoin(ShowInts(xs), ',', ListSeps);
    NumbersShowInts(xs);
  }

  lemma {:induction false} JoinNonEmpty(ts: seq<string>, c: char)
    requires |ts| >= 1 && |ts[0]| > 0
    ensures |Join(ts, c)| > 0
  {
  }

  /** Header line `n` of a printed description yields its payload. */
  lemma PayloadShow(lines: seq<string>, n: nat, key: string, payload: string)
    requires 1 <= n <= |lines|
    requires |key| > 0 && |payload| > 0 && NoSep(key, FieldSeps) && NoSep(payload, FieldSeps)
    requires lines[n - 1] == HeaderLine(key, payload)
    ensures Payload(lines, n, key) == Ok(payload)
  {
    HeaderShow(key, payload);
  }

  /** Header line 1 of a printed description gives back the number. */
  lemma StatesNumberShow(lines: seq<string>, n: int)
    requires IsInt(n) && |lines| >= 1
    requires lines[0] == HeaderLine("state_number", ShowInt(n))
    ensures StatesNumber(lines) == Ok(n)
  {
    KeywordsClean();
    ShowIntClean(n);
    PayloadShow(lines, 1, "state_number", ShowInt(n));
    ParseShowInt(n);
  }

  /** A printed state-list header line gives back the list. */
  lemma StateListShow(lines: seq<string>, n: nat, key: string, xs: seq<int>)
    requires 1 <= n <= |lines| && |key| > 0 && NoSep(key, FieldSeps)
    requires |xs| > 0 && forall k :: 0 <= k < |xs| ==> IsInt(xs[k])
    requires lines[n - 1] == HeaderLine(key, Join(ShowInts(xs), ','))
    ensures StateList(lines, n, key) == Ok(xs)
  {
    ListShow(xs);
    PayloadShow(lines, n, key, Join(ShowInts(xs), ','));
  }

  /** The `transitions:` line followed by printed entries gives back the
      entries. */
  lemma TransitionSectionShow(lines: seq<string>, es: seq<Entry>)
    requires |lines| >= 4 && lines[3] == "transitions:" && lines[4..] == ShowEntries(es)
    requires forall k :: 0 <= k < |es| ==> EntryPrintable(es[k])
    ensures TransitionSection(lines) == Ok(es)
  {
    KeywordsClean();
    assert lines[3] == Join(["transitions"], ':') + [':'];
    SplitJoinTerminated(["transitions"], ':', ':', FieldSeps);
    EntriesShow(es);
  }

  /** A configuration whose four parts read correctly reads as a whole. */
  lemma ReadConfigParts(lines: seq<string>, d: Description)
    requires |lines| > 0
    requires StatesNumber(lines) == Ok(d.statesNb)
    requires StateList(lines, 2, "accepting_states") == Ok(d.accepting)
    requires StateList(lines, 3, "rejecting_states") == Ok(d.rejecting)
    requires TransitionSection(lines) == Ok(d.entries)
    ensures ReadConfig(lines) == Ok(d)
  {
  }

  /** A printed description parses back to itself. */
  lemma ReadConfigShowConfig(d: Description)
    requires Printable(d)
    ensures ReadConfig(ShowConfig(d)) == Ok(d)
  {
    var lines := ShowConfig(d);
    KeywordsClean();
    StatesNumberShow(lines, d.statesNb);
    StateListShow(lines, 2, "accepting_states", d.accepting);
    StateListShow(lines, 3, "rejecting_states", d.rejecting);
    assert lines[4..] == ShowEntries(d.entries);
    TransitionSectionShow(lines, d.entries);
    ReadConfigParts(lines, d);
  }

  lemma EntriesShow(es: seq<Entry>)
    requires forall k :: 0 <= k < |es| ==> EntryPrintable(es[k])
    ensures ParseEntries(ShowEntries(es)) == Ok(es)
  {
    var lines := ShowEntries(es);
    forall k | 0 <= k < |es| ensures ParseEntry(lines[k]) == Ok(es[k]) {
      ParseEntryShowEntry(es[k]);
    }
    ParseEntriesSpec(lines);
    var r := ParseEntries(lines);
    assert r.Ok?;
    assert r.value == es;
  }

  /** A printed tape parses back to the same cells. */
  lemma ReadTapeShowTape(cells: seq<int>)
    requires |cells| > 0 && forall k :: 0 <= k < |cells| ==> IsInt(cells[k])
    ensures ReadTape(ShowTape(cells)) == Ok(cells)
  {
    var ts := ShowInts(cells);
    ShowIntsClean(cells);
    assert ts[|ts| - 1] != "";
    SplitJoin(ts, ';', CellSeps);
    forall k | 0 <= k < |cells| ensures ParseInt(ts[k]) == Some(cells[k]) {
      ParseShowInt(cells[k]);
    }
    ParseCellsSpec(ts, 0);
    var r := ParseCells(ts, 0);
    assert r.Ok?;
    assert r.value == cells;
    assert ReadTape(ShowTape(cells)) == r;
  }
}
