# A verified model of the single-tape Turing machine engine

This project models the engine class `TuringMachine` (file `TuringMachine.java`)
of a small Turing machine simulator. Its configuration has a fixed four-line
header (`state_number`, `accepting_states`, `rejecting_states`, `transitions:`)
followed by one transition per line. A run stops in a state of the accepting
or the rejecting list, and a missing transition ends `execute` with an
exception.

The engine keeps:

- a two-sided tape, lazily grown one zero cell at a time. It is stored as two
  lists: index i >= 0 at slot i of `tapePositives`, index -k at slot k - 1 of
  `tapeNegatives`;
- a transition table, a hash map keyed by the Java `int` expression
  `statesNb * read + state`;
- the current state, the head index and the verdict `accepted`
  (-1 before a run ends, then 1 or 0).

The project is organised as follows:

| file | module | contents |
|---|---|---|
| `java_text.dfy` | `JavaText` | The Java library behaviour the parsers rely on: `String.split` with a one-character pattern (trailing empty pieces dropped), `Integer.parseInt`, `substring` at either end and 32-bit `int` wrap-around. It also has the printing inverses `ShowInt` and `Join`. |
| `tapes.dfy` | `Tapes` | The tape as a value: slots, growth, reads and writes. |
| `semantics.dfy` | `Semantics` | The table key, lookup and registration. One step of the machine, and a run bounded by a step budget ("fuel"). |
| `parsing.dfy` | `Parsing` | The configuration and tape formats as functions from the file's lines to what the engine stores. Printers and the round trips. |
| `turing_machine.dfy` | `TuringMachines` | The class `TuringMachine`: the engine's fields, its methods updating them in place, each proved against the functions above. |

Behaviour of the code worth knowing:

- A missing transition ends `execute` with an exception; the model reports it
  as `Stuck` and leaves `accepted` as it was.
- The header lines are read in their fixed order: line 1 `state_number`,
  line 2 `accepting_states`, line 3 `rejecting_states`, line 4 `transitions:`.
- A header line without its `;` terminator is accepted, because
  `split(":|;")` does not check for it (`Parsing.UnterminatedHeaderAccepted`).
- Every token-count error in a transition line names line 5: the line counter
  of `parseConfig` starts at 0 and is never incremented. A bad number,
  substring or direction in a transition line names no line.
- The tape file's cells are appended to the positive half of the tape.

## Model

| member | source | states |
|---|---|---|
| TuringMachines.TuringMachine.constructor | TuringMachine.java:219-226 | A new engine has 0 states, empty lists, an empty tape and table, state 0, head 0 and `accepted == -1`. |
| TuringMachines.TuringMachine.GetFinalState | TuringMachine.java:27-30 | Fails with `NotYetRun` exactly while `accepted == -1`; otherwise yields the current state. |
| TuringMachines.TuringMachine.GetAccepted | TuringMachine.java:32-35 | Fails with `NotYetRun` exactly while `accepted == -1`; otherwise yields whether `accepted == 1`. |
| TuringMachines.TuringMachine.ReadToTransition | TuringMachine.java:37-40 | No contract of its own: it is `Semantics.Lookup` of the current state and `read` in the engine's table. Its behaviour is stated by `Semantics.KeyInjective` and `Semantics.RegisterLastWins`. |
| TuringMachines.TuringMachine.TapeRead | TuringMachine.java:42-56 | The tape becomes `Grow(old tape, head)`: the head's cell now exists. The symbol returned is the one the old tape held there (0 for a missing cell). The head stays in range. |
| TuringMachines.TuringMachine.TapeWrite | TuringMachine.java:58-65 | On a created cell: the tape becomes `Write(old tape, head, v)`. The head's cell holds `v`, both list lengths are kept, and every other cell is unchanged. |
| TuringMachines.TuringMachine.Move | TuringMachine.java:67-73 | The head index becomes `Tapes.Move(old index, d)`: `RIGHT` adds 1, `LEFT` subtracts 1. |
| TuringMachines.TuringMachine.ExecuteStep | TuringMachine.java:90-100 | One pass of the loop body is one `Semantics.Step`. With a transition, the new state, head and tape are `Step`'s next configuration. Without one, the state and head are kept, the tape has grown by the read, and the symbol read is returned. |
| TuringMachines.TuringMachine.Execute | TuringMachine.java:75-123 | The result is `Semantics.Run` from the initial configuration, and the fields hold its final configuration. `accepted` becomes the verdict of the final state when the run halts and is unchanged otherwise, so it stays -1 after a missing transition. |
| TuringMachines.TuringMachine.ParseTape | TuringMachine.java:125-144 | The status is that of `Parsing.ReadTape`. An empty file leaves the tape untouched. On success the parsed cells are appended to `tapePositives` in order. On a bad cell i, exactly i cells have been appended, holding the values of tokens 0 to i - 1. The old cells are never changed. |
| TuringMachines.TuringMachine.ParseStates | TuringMachine.java:169-170 | The loop over the comma-separated tokens yields `Parsing.Numbers` of the tokens. |
| TuringMachines.TuringMachine.ParseConfig | TuringMachine.java:146-212 | The status is that of `Parsing.ReadConfig`. On success, `statesNb` is the declared number and both parsed lists are appended to the state lists. The table is the old table after putting every transition line in order. |
| Tapes.Slot | TuringMachine.java:54 | Slot k of the list of i's sign stands for index i. |
| Tapes.SlotIndexOf | TuringMachine.java:54 | Slots and indices are in one-to-one correspondence, so index 0 and index -1 are different cells. |
| Tapes.Grow | TuringMachine.java:43-55 | An existing cell leaves the tape unchanged. A cell one past the end adds one 0 to the list of its sign. The other list is untouched, the sizes grow by at most one, and the cell afterwards exists with the same symbol. |
| Tapes.GrowKeepsSymbols | TuringMachine.java:44-53 | Growth changes no symbol at any index. |
| Tapes.Write | TuringMachine.java:60-64 | A write keeps both list lengths and puts `v` at `i`. |
| Tapes.WriteKeepsOthers | TuringMachine.java:60-64 | A write at `i` leaves the symbol at every other index unchanged. |
| Semantics.Key | TuringMachine.java:39 | The key `statesNb * read + state` is computed in Java `int` arithmetic. It is always an `int`, and equals the mathematical value when that fits in an `int`. The key is also used by the `put` at line 209. Distinct declared pairs get distinct keys by `Semantics.KeyInjective`. |
| Semantics.Lookup | TuringMachine.java:39 | No contract of its own: `transitions.get(key)`, with Java's null as `None`. What it returns after the transition lines are registered is stated by `Semantics.RegisterLastWins`. |
| Semantics.Register | TuringMachine.java:191-211 | No contract of its own: the table after `transitions.put(key, action)` for each transition line in order. `Semantics.RegisterLastWins` compares it with `Semantics.LastFor`, the last line for each pair read off the list of lines. |
| Semantics.KeyInjective | TuringMachine.java:39 | For declared states `0 <= state < statesNb` and keys without overflow, two pairs get the same key exactly when they are equal. This holds for reads of either sign. |
| Semantics.KeyCollidesOutOfRange | TuringMachine.java:39 | The state `statesNb` (outside the declared range) with read r shares its key with state 0 and read r + 1, for every r, including when the key wraps around. |
| Semantics.RegisterLastWins | TuringMachine.java:209 | For encodable pairs, a lookup after registering the transition lines gives the action of the last line for that pair. A pair without any line gives the earlier table's entry. |
| Semantics.Final | TuringMachine.java:87-88 | No contract of its own: the loop stops when the state is in the accepting or in the rejecting list. `Semantics.RunOutcome` states that runs halt exactly in such states. |
| Semantics.Verdict | TuringMachine.java:120 | No contract of its own: 1 for a state in the accepting list, 0 otherwise. `Semantics.VerdictMeaning` states what the value means in a final state. |
| Semantics.VerdictMeaning | TuringMachine.java:120 | In a final state, the verdict is 1 exactly for an accepting state. It is 0 exactly for a rejecting state that is not also accepting. |
| Semantics.Step | TuringMachine.java:93-100 | A step is blocked exactly when no transition exists for the state and the symbol read. A blocked step keeps the state and head and creates the head's cell. A step that fires sets the next state and moves the head by its direction. |
| Semantics.StepFrame | TuringMachine.java:93-100 | A blocked step changes no symbol. A step that fires writes its symbol at the head index before the move, and no other cell changes. |
| Semantics.Run | TuringMachine.java:87-119 | Every run ends with the head in range. |
| Semantics.RunOutcome | TuringMachine.java:87-120 | A run from a final state takes no step. A run halts only in a final state. A run out of budget is not in a final state. A stuck run is not final: the head's cell exists and holds the symbol read, and no transition exists for it. |
| Semantics.RunMoreFuel | TuringMachine.java:87-119 | A run that ended before its budget ends in the same way with any larger budget. |
| Semantics.RunCompose | TuringMachine.java:87-119 | `n` steps followed by `k` more steps are `n + k` steps. |
| JavaText.Wrap | TuringMachine.java:39 | The key arithmetic gives a Java `int`, and an `int` that does not overflow is kept as it is. |
| JavaText.WrapCongruent | TuringMachine.java:39 | The wrapped value is the two's-complement reading of the mathematical value modulo 2^32. |
| JavaText.Split | TuringMachine.java:133 | Every `split` of the engine (lines 133, 156, 164, 169, 173, 178, 183, 193, 197, 200). No piece holds a separator. A text without a separator is one piece. When the text holds a separator, trailing empty pieces are dropped, so a last piece that remains is not empty. `JavaText.SplitJoin` and `JavaText.SplitJoinTerminated` show that it undoes joining. |
| JavaText.SplitJoin | TuringMachine.java:133 | Splitting text joined with a separator gives back the pieces, provided no piece holds a separator and the last piece is not empty. |
| JavaText.SplitJoinTerminated | TuringMachine.java:156 | The same holds for text ending in a terminator: the empty piece after it is dropped. |
| JavaText.ParseInt | TuringMachine.java:138 | Only an `int` is produced. An empty string or a sign alone is refused, and the sign of the text is the sign of the value. |
| JavaText.ParseShowInt | TuringMachine.java:138 | Parsing the decimal text of an `int` gives the number back. |
| JavaText.DropFirst | TuringMachine.java:203 | `substring(1, length)` fails exactly on the empty string; otherwise it is the string without its first character. |
| JavaText.DropLast | TuringMachine.java:204 | `substring(0, length - 1)` fails exactly on the empty string; otherwise it is the string without its last character. |
| Parsing.ParseAllSpec | TuringMachine.java:170 | A list of tokens parses exactly when every token does, with the values in order. A failure is the failure of the first bad token. |
| Parsing.NumbersSpec | TuringMachine.java:169-170 | A state list parses exactly when every token is an `int`, with the values in order. Otherwise it fails with a number error. |
| Parsing.ParseEntry | TuringMachine.java:193-201 | A transition line whose fields, start or end has the wrong number of tokens fails, naming line 5. A parsed entry holds `int` values only. |
| Parsing.ParseStart | TuringMachine.java:203-204 | A parsed start holds two `int` values. |
| Parsing.ParseAction | TuringMachine.java:205-207 | A parsed action holds `int` values for the next state and the symbol to write. |
| Parsing.ParseDirection | TuringMachine.java:207 | `direction.valueOf` succeeds exactly on `RIGHT` and `LEFT`, and the direction it yields prints back as the same text. Any other text fails with `BadDirection`. |
| Parsing.ParseEntriesSpec | TuringMachine.java:191-211 | The transition section parses exactly when every line does, with the entries in order. A failure is that of the first bad line. |
| Parsing.ReadConfig | TuringMachine.java:149-159 | An empty file fails with `EmptyFile`. A bad first line fails naming line 1. |
| Parsing.ReadConfigOk | TuringMachine.java:155-186 | An accepted configuration has its four header lines in place, and it holds the number, the two lists and the entries those lines carry. |
| Parsing.ReadConfigErrors | TuringMachine.java:149-211 | A rejected configuration reports the first problem in file order: a missing or malformed line 1, 2 or 3 (a bad number on any of them), line 4, then the first bad transition line. |
| Parsing.UnterminatedHeaderAccepted | TuringMachine.java:164-167 | `accepting_states:1,2` passes the header check with payload `1,2`. |
| Parsing.ParseCells | TuringMachine.java:136-143 | A parsed tape has one cell per token. A failure names a token index. |
| Parsing.ParseCellsSpec | TuringMachine.java:136-143 | The tape parses exactly when every token is an `int`, cell k holding token k. Otherwise the error names the first bad token. |
| Parsing.ReadTape | TuringMachine.java:130-136 | An empty file fails with `EmptyFile`. A parsed tape has one cell per `;`-separated token, and a failure names one of them. |
| Parsing.ReadTapeSpec | TuringMachine.java:130-143 | A non-empty tape file parses exactly when every token of its first line is an `int`, cell k holding token k. Otherwise the error names the first bad token. |
| Parsing.ReadTapeShowTape | TuringMachine.java:125-144 | A printed tape parses back to the same cells. |
| Parsing.ParseStartShow | TuringMachine.java:203-204 | The printed pieces `(state` and `read)` parse back to both numbers. |
| Parsing.ParseActionShow | TuringMachine.java:205-207 | The printed pieces `(next`, `write` and `DIR)` parse back to the action. |
| Parsing.ParseEntryShowEntry | TuringMachine.java:193-207 | A printed transition line parses back to the same entry. |
| Parsing.EntriesShow | TuringMachine.java:191-211 | Printed transition lines parse back to the same entries. |
| Parsing.NumbersShowInts | TuringMachine.java:169-170 | Printed `int` values parse back to the same list. |
| Parsing.StatesNumberShow | TuringMachine.java:155-161 | A printed `state_number` line gives back the number. |
| Parsing.StateListShow | TuringMachine.java:163-170 | A printed state-list line gives back the list. |
| Parsing.TransitionSectionShow | TuringMachine.java:182-211 | `transitions:` followed by printed entries gives back the entries. |
| Parsing.ReadConfigShowConfig | TuringMachine.java:146-212 | A printed description with non-empty state lists and `int` values parses back to itself. |

## Left out

- Console output is not modelled: the trace, the diagnostic listing of the tape on a missing transition, and the debug messages.
- Files and `Scanner` are replaced by the sequence of a file's lines. The constructor's opening of files, and its choice of whether to parse, are not modelled; the constructor is its field initialisation, and `ParseConfig` and `ParseTape` are the parsers it calls.
- The command-line front end (`Main.java`) is not part of this model.
- The value holders `Pair` and `Triplet` become the datatype `Transition`. The three exception classes, `NumberFormatException`, `NoSuchElementException`, `StringIndexOutOfBoundsException` and `IllegalArgumentException` become the constructors of `Parsing.Error`. Message texts are not modelled; line and cell numbers are.
- `Integer.parseInt` accepts only ASCII digits here; Java also accepts other Unicode decimal digits.
- Execute: a run that never reaches a final state has no result in Java; the model bounds the loop by `fuel` passes and reports `OutOfFuel`.
- Execute: the head index is an unbounded integer. A head moving past 2^31 - 1 cells, and lists longer than Java allows, are not modelled.
- Execute: a missing transition throws a `NullPointerException` in Java. The model ends the run with `Stuck`, and its type is not modelled.
- Execute: the values of `getFinalState` and `getAccepted` after a run are stated through `accepted` and `Semantics.VerdictMeaning`, not as clauses of `Execute` itself.
- ExecuteStep is the loop body of `execute` as its own method; Java has it inline.
- ParseConfig: after a failure the fields are left unspecified. Java may already have set `statesNb` or appended part of a state list. The model's `ParseStates` collects a line's numbers before appending them, so a failing line appends none. Java's constructor propagates the exception, so the half-filled object is never used.
