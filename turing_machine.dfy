/** The engine object: the fields of `TuringMachine`, updated in place by
    reads, writes and moves of the head, by the execution loop and by the two
    parsers. Each method is proved against the functions of `Tapes`,
    `Semantics` and `Parsing`. */
module TuringMachines {
  import opened JavaText
  import opened Tapes
  import opened Semantics
  import opened Parsing

  class TuringMachine {
    var statesNb: int
    var statesAccepting: seq<int>
    var statesRejecting: seq<int>
    var tapePositives: seq<int>   // cells 0, 1, 2, ...
    var tapeNegatives: seq<int>   // cells -1, -2, -3, ...
    var transitions: map<int, Transition>
    var currentState: int
    var currentIndex: int
    var accepted: int             // -1 until `execute` ends normally, then 1 or 0

    /** The head is on an existing cell or on the first one past the end of
        its list, and `accepted` holds one of its three values. */
    ghost predicate Valid()
      reads this`tapePositives, this`tapeNegatives, this`currentIndex, this`accepted
    {
      HeadInRange(TapeView(), currentIndex) && -1 <= accepted <= 1
    }

    function TapeView(): Tape
      reads this`tapePositives, this`tapeNegatives
    {
      Tape(tapePositives, tapeNegatives)
    }

    function AsMachine(): Machine
      reads this`statesNb, this`statesAccepting, this`statesRejecting, this`transitions
    {
      Machine(statesNb, statesAccepting, statesRejecting, transitions)
    }

    function Current(): Configuration
      reads this`currentState, this`currentIndex, this`tapePositives, this`tapeNegatives
    {
      Configuration(currentState, currentIndex, TapeView())
    }

    /** The field initialisation of the constructor; reading the files is
        `ParseConfig` and `ParseTape`. */
    constructor ()
      ensures Valid()
      ensures statesNb == 0 && statesAccepting == [] && statesRejecting == []
      ensures tapePositives == [] && tapeNegatives == [] && transitions == map[]
      ensures currentState == 0 && currentIndex == 0 && accepted == -1
    {
      statesNb := 0;
      statesAccepting := [];
      statesRejecting := [];
      tapePositives := [];
      tapeNegatives := [];
      transitions := map[];
      currentState := 0;
      currentIndex := 0;
      accepted := -1;
    }

    /** `getFinalState`: the state `execute` stopped in, an error before. */
    function GetFinalState(): (r: Result<int>)
      reads this
      ensures r.Ok? <==> accepted != -1
      ensures r.Ok? ==> r.value == currentState
      ensures r.Err? ==> r.error == NotYetRun
    {
      if accepted == -1 then Err(NotYetRun) else Ok(currentState)
    }

    /** `getAccepted`: whether `execute` stopped in an accepting state, an
        error before. */
    function GetAccepted(): (r: Result<bool>)
      reads this
      ensures r.Ok? <==> accepted != -1
      ensures r.Ok? ==> (r.value <==> accepted == 1)
      ensures r.Err? ==> r.error == NotYetRun
    {
      if accepted == -1 then Err(NotYetRun) else Ok(accepted == 1)
    }

    /** `readToTransition`: the table entry for the current state and `read`. */
    function ReadToTransition(read: int): Option<Transition>
      reads this
    {
      Lookup(transitions, statesNb, currentState, read)
    }

    /** `tapeRead`: the symbol under the head, creating its cell as 0 when the
        head has just stepped past the end of its list. */
    method TapeRead() returns (symbol: int)
      requires Valid()
      modifies this`tapePositives, this`tapeNegatives
      ensures Valid() && Materialized(TapeView(), currentIndex)
      ensures TapeView() == Grow(old(TapeView()), currentIndex)
      ensures symbol == At(old(TapeView()), currentIndex)
    {
      if currentIndex >= 0 {
        if |tapePositives| < currentIndex + 1 {
          tapePositives := tapePositives + [0];
        }
        symbol := tapePositives[currentIndex];
      } else {
        if |tapeNegatives| < -currentIndex {
          tapeNegatives := tapeNegatives + [0];
        }
        symbol := tapeNegatives[-currentIndex - 1];
      }
    }

    /** `tapeWrite`: overwrites the cell under the head, which a read has
        created. */
    method TapeWrite(toWrite: int)
      requires Valid() && Materialized(TapeView(), currentIndex)
      modifies this`tapePositives, this`tapeNegatives
      ensures Valid() && Materialized(TapeView(), currentIndex)
      ensures TapeView() == Write(old(TapeView()), currentIndex, toWrite)
      ensures |tapePositives| == |old(tapePositives)| && |tapeNegatives| == |old(tapeNegatives)|
      ensures At(TapeView(), currentIndex) == toWrite
      ensures forall j :: j != currentIndex ==> At(TapeView(), j) == At(old(TapeView()), j)
    {
      WriteKeepsOthers(TapeView(), currentIndex, toWrite);
      if currentIndex >= 0 {
        tapePositives := tapePositives[currentIndex := toWrite];
      } else {
        tapeNegatives := tapeNegatives[-currentIndex - 1 := toWrite];
      }
    }

    /** `move`: one cell to the right or to the left. */
    method Move(d: Dir)
      modifies this`currentIndex
      ensures currentIndex == Tapes.Move(old(currentIndex), d)
    {
      if d == Right {
        currentIndex := currentIndex + 1;
      } else {
        currentIndex := currentIndex - 1;
      }
    }

    /** One pass of the loop of `execute`: read the symbol under the head,
        look up its transition and, when there is one, set the next state,
        write and move. Without a transition (Java: the lookup yields null
        and the pass throws) nothing after the read happens. */
    method ExecuteStep() returns (read: int, fired: bool)
      requires Valid()
      modifies this`currentState, this`currentIndex, this`tapePositives, this`tapeNegatives
      ensures Valid()
      ensures fired ==> Step(AsMachine(), old(Current())) == Next(Current())
      ensures !fired ==> Step(AsMachine(), old(Current())) == Blocked(Current(), read)
    {
      read := TapeRead();
      var transition := ReadToTransition(read);
      if transition.None? {
        return read, false;
      }
      currentState := transition.value.next;
      TapeWrite(transition.value.write);
      Move(transition.value.dir);
      fired := true;
    }

    /** `execute`, allowed at most `fuel` passes of its loop: it runs until
        the state is accepting or rejecting and then records the verdict. A
        missing transition ends it with `Stuck` (Java: the exception is
        rethrown) and leaves `accepted` as it was. */
    method Execute(fuel: nat) returns (out: RunResult)
      requires Valid()
      modifies this`currentState, this`currentIndex, this`tapePositives, this`tapeNegatives, this`accepted
      ensures Valid()
      ensures out == Run(AsMachine(), old(Current()), fuel)
      ensures Current() == out.at
      ensures accepted == if out.Halted? then Verdict(AsMachine(), currentState) else old(accepted)
    {
      ghost var m := AsMachine();
      ghost var outcome := Run(m, Current(), fuel);
      var steps: nat := 0;
      while currentState !in statesAccepting && currentState !in statesRejecting
        invariant Valid()
        invariant steps <= fuel
        invariant accepted == old(accepted)
        invariant outcome == Run(m, Current(), fuel - steps)
        decreases fuel - steps
      {
        if steps == fuel {
          return OutOfFuel(Current());
        }
        RunUnfold(m, Current(), fuel - steps);
        var read, fired := ExecuteStep();
        if !fired {
          return Stuck(Current(), read);
        }
        steps := steps + 1;
      }
      accepted := if currentState in statesAccepting then 1 else 0;
      return Halted(Current());
    }

    /** `parseTape`: appends the cells of the tape file to the positive half
        of the tape, in order; on a bad cell the cells before it stay added. */
    method ParseTape(lines: seq<string>) returns (status: Status)
      requires Valid()
      modifies this`tapePositives
      ensures Valid()
      ensures status == StatusOf(ReadTape(lines))
      ensures |lines| == 0 ==> tapePositives == old(tapePositives)
      ensures ReadTape(lines).Ok? ==> tapePositives == old(tapePositives) + ReadTape(lines).value
      ensures old(tapePositives) <= tapePositives
      ensures ReadTape(lines).Err? && |lines| > 0 ==> |tapePositives| == |old(tapePositives)| + ReadTape(lines).error.cell
      ensures ReadTape(lines).Err? && |lines| > 0 ==>
        forall k :: 0 <= k < ReadTape(lines).error.cell ==>
          ParseInt(Split(lines[0], CellSeps)[k]) == Some(tapePositives[|old(tapePositives)| + k])
    {
      if |lines| == 0 {
        return Fail(EmptyFile);
      }
      var cells := Split(lines[0], CellSeps);
      ghost var added: seq<int> := [];
      PrefixedEmpty(ParseCells(cells, 0));
      for i := 0 to |cells|
        invariant Valid()
        invariant tapePositives == old(tapePositives) + added && |added| == i
        invariant ParseCells(cells, 0) == Prefixed(added, ParseCells(cells, i))
        invariant forall k :: 0 <= k < i ==> ParseInt(cells[k]) == Some(added[k])
      {
        CellsFrom(cells, i);
        var v := ParseInt(cells[i]);
        if v.None? {
          return Fail(TapeCell(i));
        }
        PrefixedPrefixed(added, [v.value], ParseCells(cells, i + 1));
        tapePositives := tapePositives + [v.value];
        added := added + [v.value];
      }
      return Pass;
    }

    /** The `for (String i : states) list.add(Integer.parseInt(i))` loop of
        `parseConfig`, collecting the numbers it appends. */
    static method ParseStates(tokens: seq<string>) returns (r: Result<seq<int>>)
      ensures r == Numbers(tokens)
    {
      var states: seq<int> := [];
      assert tokens[0..] == tokens;
      PrefixedEmpty(Numbers(tokens));
      for k := 0 to |tokens|
        invariant Numbers(tokens) == Prefixed(states, Numbers(tokens[k..]))
      {
        NumbersFrom(tokens, k);
        var v := ParseInt(tokens[k]);
        if v.None? {
          return Err(BadNumber);
        }
        PrefixedPrefixed(states, [v.value], Numbers(tokens[k + 1..]));
        states := states + [v.value];
      }
      assert tokens[|tokens|..] == [];
      assert states + [] == states;
      return Ok(states);
    }

    /** `parseConfig`: the four header lines set the number of states and
        append to the accepting and rejecting lists; every later line puts
        one transition into the table. */
    method ParseConfig(lines: seq<string>) returns (status: Status)
      modifies this`statesNb, this`statesAccepting, this`statesRejecting, this`transitions
      ensures status == StatusOf(ReadConfig(lines))
      ensures ReadConfig(lines).Ok? ==>
        var d := ReadConfig(lines).value;
        && statesNb == d.statesNb
        && statesAccepting == old(statesAccepting) + d.accepting
        && statesRejecting == old(statesRejecting) + d.rejecting
        && transitions == Register(old(transitions), d.statesNb, d.entries)
    {
      if |lines| == 0 {
        return Fail(EmptyFile);
      }
      var text := Payload(lines, 1, "state_number");
      if text.Err? {
        return Fail(text.error);
      }
      var nb := ParseInt(text.value);
      if nb.None? {
        return Fail(BadNumber);
      }
      statesNb := nb.value;

      text := Payload(lines, 2, "accepting_states");
      if text.Err? {
        return Fail(text.error);
      }
      var accepting := ParseStates(Split(text.value, ListSeps));
      if accepting.Err? {
        return Fail(accepting.error);
      }
      statesAccepting := statesAccepting + accepting.value;

      text := Payload(lines, 3, "rejecting_states");
      if text.Err? {
        return Fail(text.error);
      }
      var rejecting := ParseStates(Split(text.value, ListSeps));
      if rejecting.Err? {
        return Fail(rejecting.error);
      }
      statesRejecting := statesRejecting + rejecting.value;

      if |lines| < 4 {
        return Fail(MissingLine);
      }
      if Fields(lines[3]) != ["transitions"] {
        return Fail(ConfigLine(4));
      }

      var i := 4;
      ghost var done: seq<Entry> := [];
      PrefixedEmpty(ParseEntries(lines[4..]));
      while i < |lines|
        invariant 4 <= i <= |lines|
        invariant statesNb == nb.value
        invariant statesAccepting == old(statesAccepting) + accepting.value
        invariant statesRejecting == old(statesRejecting) + rejecting.value
        invariant ParseEntries(lines[4..]) == Prefixed(done, ParseEntries(lines[i..]))
        invariant transitions == Register(old(transitions), statesNb, done)
      {
        EntriesFrom(lines, i);
        var entry := ParseEntry(lines[i]);
        if entry.Err? {
          return Fail(entry.error);
        }
        var e := entry.value;
        transitions := transitions[Key(statesNb, e.state, e.read) := e.action];
        PrefixedPrefixed(done, [e], ParseEntries(lines[i + 1..]));
        ghost var before := done;
        done := done + [e];
        assert done[..|done| - 1] == before;
        i := i + 1;
      }
      assert lines[i..] == [];
      assert done + [] == done;
      assert TransitionSection(lines) == Ok(done);
      assert StatesNumber(lines) == Ok(nb.value);
      assert StateList(lines, 2, "accepting_states") == accepting;
      assert StateList(lines, 3, "rejecting_states") == rejecting;
      assert ReadConfig(lines) == Ok(Description(nb.value, accepting.value, rejecting.value, done));
      return Pass;
    }
  }
}
