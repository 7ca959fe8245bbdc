/** What the engine computes, as functions: the transition table keyed by the
    arithmetic encoding `statesNb * read + state`, one step of the machine, and
    a run bounded by a number of steps. */
module Semantics {
  import opened JavaText
  import opened Tapes

  /** The action of a transition: `(nextState, write, direction)`. */
  datatype Transition = Transition(next: int, write: int, dir: Dir)

  /** A transition line `(state,read):(next,write,dir);` as registered. */
  datatype Entry = Entry(state: int, read: int, action: Transition)

  // ---------------------------------------------------------------------------
  // The transition table

  /** The table key of the pair `(state, read)`, computed in Java `int`
      arithmetic (the product and the sum wrap around at 32 bits). */
  function Key(statesNb: int, state: int, read: int): (r: int)
    ensures IsInt(r)
    ensures IsInt(statesNb * read + state) ==> r == statesNb * read + state
  {
    Wrap(statesNb * read + state)
  }

  /** The pairs for which the encoding is meant to work: a declared state, and
      a key whose computation does not overflow. */
  predicate Encodable(statesNb: int, state: int, read: int) {
    0 <= state < statesNb && IsInt(statesNb * read + state)
  }

  lemma MulGap(nb: int, a: int, b: int)
    requires nb > 0 && a < b
    ensures nb * a + nb <= nb * b
  {
    assert nb * b - nb * a == nb * (b - a);
    assert nb * (b - a) >= nb * 1 by {
      assert b - a >= 1;
    }
  }

  /** Distinct encodable pairs get distinct keys (for reads of either sign). */
  lemma KeyInjective(statesNb: int, s1: int, r1: int, s2: int, r2: int)
    requires Encodable(statesNb, s1, r1) && Encodable(statesNb, s2, r2)
    ensures Key(statesNb, s1, r1) == Key(statesNb, s2, r2) <==> s1 == s2 && r1 == r2
  {
    if Key(statesNb, s1, r1) == Key(statesNb, s2, r2) {
      if r1 < r2 {
        MulGap(statesNb, r1, r2);
      } else if r2 < r1 {
        MulGap(statesNb, r2, r1);
      }
    }
  }

  /** A state outside `[0, statesNb)` is not rejected, and its pairs share keys
      with those of declared states, whether or not the key wraps around. */
  lemma KeyCollidesOutOfRange(statesNb: int, read: int)
    ensures Key(statesNb, statesNb, read) == Key(statesNb, 0, read + 1)
  {
    assert statesNb * (read + 1) == statesNb * read + statesNb;
  }

  /** `transitions.get(key)`, with Java's null as `None`. */
  function Lookup(table: map<int, Transition>, statesNb: int, state: int, read: int): Option<Transition> {
    var key := Key(statesNb, state, read);
    if key in table then Some(table[key]) else None
  }

  /** The table after `transitions.put(key, action)` for each entry in order. */
  function Register(table: map<int, Transition>, statesNb: int, entries: seq<Entry>): map<int, Transition>
    decreases |entries|
  {
    if |entries| == 0 then table
    else
      var e := entries[|entries| - 1];
      Register(table, statesNb, entries[..|entries| - 1])[Key(statesNb, e.state, e.read) := e.action]
  }

  /** The action of the last entry for `(state, read)`, read off the list of
      entries without any keys. */
  function LastFor(entries: seq<Entry>, state: int, read: int): (r: Option<Transition>)
    ensures r.Some? <==> exists k :: 0 <= k < |entries| && entries[k].state == state && entries[k].read == read
    decreases |entries|
  {
    if |entries| == 0 then None
    else
      var e := entries[|entries| - 1];
      if e.state == state && e.read == read then Some(e.action)
      else LastFor(entries[..|entries| - 1], state, read)
  }

  /** Looking up a pair after registering entries yields the action of the
      LAST entry for that pair (a later line replaces an earlier one), and the
      earlier table's entry when the pair was not registered again. */
  lemma {:induction false} RegisterLastWins(table: map<int, Transition>, statesNb: int, entries: seq<Entry>, state: int, read: int)
    requires forall k :: 0 <= k < |entries| ==> Encodable(statesNb, entries[k].state, entries[k].read)
    requires Encodable(statesNb, state, read)
    ensures Lookup(Register(table, statesNb, entries), statesNb, state, read)
         == if LastFor(entries, state, read).Some? then LastFor(entries, state, read) else Lookup(table, statesNb, state, read)
    decreases |entries|
  {
    if |entries| > 0 {
      var e := entries[|entries| - 1];
      KeyInjective(statesNb, e.state, e.read, state, read);
      if !(e.state == state && e.read == read) {
        RegisterLastWins(table, statesNb, entries[..|entries| - 1], state, read);
      }
    }
  }

  // ---------------------------------------------------------------------------
  // Execution

  /** The parts of the engine that stay fixed while it runs. */
  datatype Machine = Machine(statesNb: int, accepting: seq<int>, rejecting: seq<int>, table: map<int, Transition>)

  /** The parts that change: current state, head index, tape. */
  datatype Configuration = Configuration(state: int, head: int, tape: Tape)

  /** The loop of `execute` stops in a state of either list. */
  predicate Final(m: Machine, state: int) {
    state in m.accepting || state in m.rejecting
  }

  /** The value `execute` stores in `accepted` once it stops. */
  function Verdict(m: Machine, state: int): int {
    if state in m.accepting then 1 else 0
  }

  /** In a final state the verdict is 1 exactly for an accepting state and 0
      exactly for a rejecting state that is not also accepting. */
  lemma VerdictMeaning(m: Machine, state: int)
    requires Final(m, state)
    ensures Verdict(m, state) == 1 <==> state in m.accepting
    ensures Verdict(m, state) == 0 <==> state in m.rejecting && state !in m.accepting
  {
  }

  datatype StepResult =
    | Next(after: Configuration)
    | Blocked(grown: Configuration, read: int)  // no transition: the read has grown the tape

  /** One pass of the loop body: read, look up, set the state, write at the
      head, move. */
  function Step(m: Machine, c: Configuration): (r: StepResult)
    requires HeadInRange(c.tape, c.head)
    ensures r.Blocked? <==> Lookup(m.table, m.statesNb, c.state, At(c.tape, c.head)).None?
    ensures r.Blocked? ==>
      && r.read == At(c.tape, c.head)
      && r.grown.state == c.state && r.grown.head == c.head
      && Materialized(r.grown.tape, c.head) && At(r.grown.tape, c.head) == r.read
    ensures r.Next? ==>
      var t := Lookup(m.table, m.statesNb, c.state, At(c.tape, c.head)).value;
      && r.after.state == t.next
      && r.after.head == Move(c.head, t.dir)
      && HeadInRange(r.after.tape, r.after.head)
  {
    var g := Grow(c.tape, c.head);
    var read := At(g, c.head);
    match Lookup(m.table, m.statesNb, c.state, read)
    case None => Blocked(Configuration(c.state, c.head, g), read)
    case Some(t) => Next(Configuration(t.next, Move(c.head, t.dir), Write(g, c.head, t.write)))
  }

  /** What a step does to the tape, seen cell by cell: a blocked step
      changes no symbol; a step that fires writes its symbol at the head and
      changes no other cell. */
  lemma StepFrame(m: Machine, c: Configuration)
    requires HeadInRange(c.tape, c.head)
    ensures Step(m, c).Blocked? ==> forall j :: At(Step(m, c).grown.tape, j) == At(c.tape, j)
    ensures Step(m, c).Next? ==>
      && At(Step(m, c).after.tape, c.head) == Lookup(m.table, m.statesNb, c.state, At(c.tape, c.head)).value.write
      && forall j :: j != c.head ==> At(Step(m, c).after.tape, j) == At(c.tape, j)
  {
    GrowKeepsSymbols(c.tape, c.head);
    var g := Grow(c.tape, c.head);
    if Step(m, c).Next? {
      WriteKeepsOthers(g, c.head, Lookup(m.table, m.statesNb, c.state, At(c.tape, c.head)).value.write);
    }
  }

  datatype RunResult =
    | Halted(at: Configuration)              // stopped in an accepting or rejecting state
    | Stuck(at: Configuration, read: int)    // no transition for (state, read)
    | OutOfFuel(at: Configuration)           // the step budget ran out first

  /** `execute` from `c`, allowed at most `fuel` steps. */
  function Run(m: Machine, c: Configuration, fuel: nat): (r: RunResult)
    requires HeadInRange(c.tape, c.head)
    ensures HeadInRange(r.at.tape, r.at.head)
    decreases fuel
  {
    if Final(m, c.state) then Halted(c)
    else if fuel == 0 then OutOfFuel(c)
    else
      match Step(m, c)
      case Blocked(g, read) => Stuck(g, read)
      case Next(c') => Run(m, c', fuel - 1)
  }

  /** How a run can end: at once in a final state; halted only in a final
      state; otherwise stuck, with the head on a created cell holding the
      symbol read and no transition for it, unless the budget ran out. */
  lemma {:induction false} RunOutcome(m: Machine, c: Configuration, fuel: nat)
    requires HeadInRange(c.tape, c.head)
    ensures Final(m, c.state) ==> Run(m, c, fuel) == Halted(c)
    ensures Run(m, c, fuel).Halted? ==> Final(m, Run(m, c, fuel).at.state)
    ensures Run(m, c, fuel).OutOfFuel? ==> !Final(m, Run(m, c, fuel).at.state)
    ensures Run(m, c, fuel).Stuck? ==>
      var r := Run(m, c, fuel);
      && !Final(m, r.at.state)
      && Materialized(r.at.tape, r.at.head)
      && r.read == At(r.at.tape, r.at.head)
      && Lookup(m.table, m.statesNb, r.at.state, r.read).None?
    decreases fuel
  {
    if !Final(m, c.state) && fuel > 0 {
      RunUnfold(m, c, fuel);
      if Step(m, c).Next? {
        RunOutcome(m, Step(m, c).after, fuel - 1);
      }
    }
  }

  /** A run that is not over yet and has budget left takes one step. */
  lemma RunUnfold(m: Machine, c: Configuration, fuel: nat)
    requires HeadInRange(c.tape, c.head)
    requires !Final(m, c.state) && fuel > 0
    ensures Step(m, c).Blocked? ==> Run(m, c, fuel) == Stuck(Step(m, c).grown, Step(m, c).read)
    ensures Step(m, c).Next? ==> Run(m, c, fuel) == Run(m, Step(m, c).after, fuel - 1)
  {
  }

  /** A run that ended before its budget ends the same way with any larger
      budget: the budget only cuts off runs, it never changes their result. */
  lemma {:induction false} RunMoreFuel(m: Machine, c: Configuration, n: nat, k: nat)
    requires HeadInRange(c.tape, c.head)
    requires !Run(m, c, n).OutOfFuel?
    ensures Run(m, c, n + k) == Run(m, c, n)
    decreases n
  {
    if !Final(m, c.state) && n > 0 {
      RunUnfold(m, c, n);
      RunUnfold(m, c, n + k);
      if Step(m, c).Next? {
        RunMoreFuel(m, Step(m, c).after, n - 1, k);
        assert n - 1 + k == n + k - 1;
      }
    }
  }

  /** Running `n` steps and then `k` more is running `n + k` steps. */
  lemma {:induction false} RunCompose(m: Machine, c: Configuration, n: nat, k: nat)
    requires HeadInRange(c.tape, c.head)
    requires Run(m, c, n).OutOfFuel?
    ensures Run(m, c, n + k) == Run(m, Run(m, c, n).at, k)
    decreases n
  {
    assert !Final(m, c.state);
    if n == 0 {
      assert Run(m, c, n).at == c;
    } else {
      RunUnfold(m, c, n);
      assert Step(m, c).Next?;
      var c' := Step(m, c).after;
      RunUnfold(m, c, n + k);
      RunCompose(m, c', n - 1, k);
      calc {
        Run(m, c, n + k);
        Run(m, c', n + k - 1);
        { assert n + k - 1 == (n - 1) + k; }
        Run(m, c', (n - 1) + k);
        Run(m, Run(m, c', n - 1).at, k);
        Run(m, Run(m, c, n).at, k);
      }
    }
  }
}
