# A verified model of the `turing` interpreter

`turing` is a Rust library that reads Turing-machine programs from text
and runs them on a tape of binary cells. This project models its three core
parts in Dafny, and proves what each part does.

- **The tape** (`src/tape.rs`), in `tape.dfy`. Cells are `Segment`s: `One`,
  `Zero` or `Empty`. `VecTape` keeps the cells it knows of and a cursor.
  - Moving right past the last cell appends a blank.
  - Moving left from cell 0 inserts a blank in front, so the cursor stays
    at 0.
  - `put` writes under the cursor, and `current` reads there.

  The `VecTape` class has the source's fields, `inner` and `position`.
  Its methods are proved against the value-level functions `MovedRight`,
  `MovedLeft` and `Written`. Those functions are proved to give an
  infinite tape: seen from the cursor (`Look`), a move shifts the view by
  one cell, and a write changes only the cell under the cursor.
  `ParseTape` models `VecTape::from_str`, and `Render` models its
  `Display`.
- **Programs** (`src/program.rs`), in `program.dfy`. A program is a list of
  lines.
  - Comment lines are empty or start with `#` or `/`.
  - `+n` sets the initial state; a later `+` line replaces an earlier one.
  - `-n` adds a final state, and `!n` adds an error state.
  - Every other line is a transition `from,to,condition,write,action`.
  
  The loop in `Program::from_str` is the method `ParseProgram`. It is proved
  equal to the fold `ParseProgramLines`. The module `ProgramFacts` then
  states what a parsed program holds, line by line:
  - the last `+` line;
  - every declared final and error state;
  - for each `(from, condition)`, the last transition given for it;
  - otherwise, the error of the first bad line, or `MissingInitialState`.

  State numbers follow Rust's `usize` parsing: an optional `+`, then ASCII
  digits, with a value of at most 2^64 − 1.
- **The machine** (`src/machine.rs`), in `machine.dfy`. `execute` repeats
  these steps:
  1. look up `(state, current segment)`;
  2. write, then move, then take the new state;
  3. stop with `Ok` on a final state, or with `ReachedError` on an error
     state. The final check comes first.
  
  A missing transition stops the loop with `UndefinedBehavior(state,
  segment)`. The method `Execute` is that loop over a `VecTape`. It is
  proved equal to the function `Execution`, which runs at most `fuel`
  iterations.

`scenario.dfy` proves two things about the example program of the doc
comment on `Program`:
- it parses to the expected program;
- it turns the tape `_111_` into `1000_`, which is the assertion of
  `test_next_integer`.

It also works through small programs that fail in each way the parser
and the machine report.

The code and its documentation differ in a few places. The model follows
the code:
- The doc comment on `Program` (src/program.rs:40-41) says error states
  are written with `+`. The code reads them from `!` lines
  (src/program.rs:166-168).
- `VecTape::from_str` puts the cursor on the first `1` or `0`. It uses
  position 0 to mean "no mark seen yet", though. A mark at index 0 is
  therefore overwritten by the next mark: `"10"` starts on index 1.
  `ParseTape` reproduces this behaviour, and `MarkAtIndexZeroDoesNotStick`
  states it.
- `InvalidProgram::MissingFrom` is never produced, because splitting a line
  on `,` always yields at least one field.
- The empty tape text parses to a tape with no cells. `current` panics on
  it, so the machine methods require a valid tape.

## Model

| member | source | states |
|---|---|---|
| Tape.ParseSegment | src/tape.rs:17-28 | `"1"` gives `One`, `"0"` gives `Zero`, and `"_"` or `" "` give `Empty`, each if and only if; every other string is `InvalidSegment` |
| Tape.SegmentCharRoundTrip | src/tape.rs:127-139 | the character `Display` writes for a segment parses back to that segment |
| Tape.MovedRight | src/tape.rs:70-76 | the cursor advances by one; the known cells are kept as a prefix; exactly one `Empty` is appended when the cursor passes the last cell; the tape stays valid |
| Tape.MovedLeft | src/tape.rs:78-84 | at cell 0, an `Empty` is inserted in front and the cursor stays at 0; otherwise the cursor moves back and the cells are unchanged |
| Tape.Written | src/tape.rs:86-88 | the cell under the cursor becomes the given segment; all other cells, the length and the cursor are unchanged |
| Tape.RightShiftsView | src/tape.rs:30-36 | on the infinite tape seen from the cursor, moving right shifts the view by one (cell k afterwards is cell k+1 before) |
| Tape.LeftShiftsView | src/tape.rs:30-39 | moving left shifts the view by one the other way, including at the left end where a blank is created |
| Tape.WriteChangesOnlyCursor | src/tape.rs:41-42 | a write changes the cell under the cursor and no other cell of the infinite tape |
| Tape.ParseCells | src/tape.rs:102-121 | parsing succeeds if and only if every character is a segment character; cell i is the segment of character i; otherwise `InvalidSegment` |
| Tape.FirstMark | src/tape.rs:102-117 | returns the first index at or after `from` that holds `1` or `0`, or 0 when there is none |
| Tape.ParseTape | src/tape.rs:98-124 | the tape text is accepted exactly when every character is a segment; the cells are read in order; the cursor is 0 only when no index ≥ 1 holds a mark, and otherwise it is the first index ≥ 1 that does |
| Tape.LeadingBlankStartsAtFirstMark | src/tape.rs:102-117 | when the text starts with a blank, the cursor is the first `1`/`0` |
| Tape.MarkAtIndexZeroDoesNotStick | src/tape.rs:104-117 | a mark at index 0 is overwritten by the next mark: `"1_1"` starts at 2 and `"10"` at 1 |
| Tape.EmptyTextGivesInvalidTape | src/tape.rs:98-124 | the empty text parses to a tape with no cells, on which the cursor is out of range |
| Tape.Render | src/tape.rs:127-139 | one character per cell, `1`, `0` or `_` |
| Tape.RenderRoundTrip | src/tape.rs:127-139 | parsing the displayed tape gives back the same cells |
| Tape.ParseRenderRoundTrip | src/tape.rs:98-139 | displaying a parsed tape text gives the text back, except that a space comes back as `_` |
| Tape.VecTape.constructor | src/tape.rs:55-66 | `new` requires the position to lie on the tape and builds exactly that tape |
| Tape.VecTape.FromParts | src/tape.rs:123 | the struct literal at the end of `from_str`: a tape with exactly the given cells and position |
| Tape.VecTape.FromStr | src/tape.rs:95-125 | the loop accepts the text exactly when `ParseTape` does, reports `InvalidSegment` otherwise, and builds a fresh tape whose value is `ParseTape`'s |
| Tape.VecTape.Right | src/tape.rs:70-76 | the new tape value is `MovedRight` of the old one |
| Tape.VecTape.Left | src/tape.rs:78-84 | the new tape value is `MovedLeft` of the old one |
| Tape.VecTape.Put | src/tape.rs:86-88 | the new tape value is `Written` of the old one |
| Tape.VecTape.Current | src/tape.rs:90-92 | the segment at offset 0 of the infinite-tape view |
| Tape.VecTape.Display | src/tape.rs:127-139 | the text written parses back to a tape with the same cells |
| Programs.ParseState | src/program.rs:99-106 | every error is `InvalidState`; an accepted text is non-empty, starts with a digit or `+`, continues with digits only, and its value fits in `usize` |
| Programs.ParseStateRoundTrip | src/program.rs:99-106 | the decimal form of n parses if and only if n ≤ 2^64−1, and then gives `State(n)`; a leading `+` changes nothing |
| Programs.ShortDecimalsAreStates | src/program.rs:99-106 | every string of 1 to 19 digits parses, to its decimal value |
| Programs.RejectedStates | src/program.rs:99-106 | the empty string, a lone `+`, a minus sign, and leading or trailing spaces are all `InvalidState` |
| Programs.ParseMove | src/program.rs:108-119 | `r`/`R` give `Right`, `l`/`L` give `Left`, and `n`/`N`/empty/`_`/space give `Nothing`, each if and only if; anything else is `InvalidAction` |
| Programs.Split | src/program.rs:125 | `str::split(',')`: one field more than there are separators, no field holding a separator, and the fields joined back give the line |
| Programs.SplitAppend | src/program.rs:125 | splitting at a separator splits the two sides independently |
| Programs.ParseTransition | src/program.rs:121-141 | 1, 2, 3 or 4 fields give `MissingTo`, `MissingCondition`, `MissingWrite` or `MissingAction`; `MissingFrom` never happens; with 5 or more fields a bad state gives `InvalidState`, then a bad condition or write gives `InvalidSegment`, then a bad action gives `InvalidAction`; succeeds exactly when all five fields parse, with those values |
| Programs.MissingFieldsBeforeContent | src/program.rs:125-131 | a short line reports its missing field whatever its fields contain |
| Programs.BadConditionLine | src/program.rs:133-136 | a transition line with good states and a bad condition is `InvalidSegment` |
| Programs.ExtraFieldsIgnored | src/program.rs:125-131 | fields after the fifth are ignored |
| Programs.ParseLine | src/program.rs:152-173 | comments are exactly the empty lines and those starting with `#` or `/`; a first character `+`, `-` or `!` makes an initial, final or error line (if and only if), whose state is the rest of the line and whose failure is the state's failure; any other line is a transition; `MissingInitialState` and `MissingFrom` never come from a line |
| Programs.RuleTextParses | src/program.rs:121-141 | a transition written in the program format reads back as that transition |
| Programs.DeclarationLineParses | src/program.rs:159-168 | `+n`, `-n` and `!n` read as the initial, final and error declarations of state n |
| Programs.Apply | src/program.rs:159-172 | one line's effect on the four variables: a comment changes nothing; `+` replaces the initial state; `-` and `!` add their state to the final or error set; a transition is stored under its own `(from, condition)`, replacing only what that key held, and every other key keeps its entry; each transition stays under its own key |
| Programs.Accumulate | src/program.rs:147-174 | the maps being built only ever hold a transition under its own `(from, condition)` key |
| Programs.AccumulateOkIff | src/program.rs:152-174 | the loop finishes without error if and only if every line parses |
| Programs.AccumulateErrorPersists | src/program.rs:152-174 | once a prefix of the lines has failed, the whole text fails with the same error, whatever the later lines are |
| Programs.ParseProgramLines | src/program.rs:143-183 | a parsed program stores each transition under its own `(from, condition)`; what it holds otherwise, and which error it reports, is stated by `ParseSucceedsIff`, `FirstBadLineDecides`, `InitialStateIsLastDeclared`, `DeclaredFinalAndErrorStates` and `TransitionIsLastForItsKey` below |
| Programs.ParseProgram | src/program.rs:143-183 | the loop over the lines returns exactly `ParseProgramLines`, a program or the same error |
| ProgramFacts.FirstBadLineDecides | src/program.rs:152-174 | when all earlier lines parse, the text fails with the first bad line's error |
| ProgramFacts.AppliedInitial | src/program.rs:160-162 | no initial state is set if and only if there is no initial line; otherwise it is the one from the last initial line |
| ProgramFacts.AppliedSets | src/program.rs:163-168 | the final (error) states are exactly the states of the final (error) lines |
| ProgramFacts.AppliedTransitions | src/program.rs:169-172 | a key is in the map if and only if some line gives a transition for it, and its value comes from the last such line |
| ProgramFacts.ParseSucceedsIff | src/program.rs:143-183 | the text parses if and only if every line parses and some line declares an initial state; if every line parses but none declares one, the error is `MissingInitialState` |
| ProgramFacts.InitialStateIsLastDeclared | src/program.rs:160-162 | the initial state of a parsed program comes from a `+` line, and no later line is a `+` line |
| ProgramFacts.DeclaredFinalAndErrorStates | src/program.rs:163-168 | a state is final (error) if and only if some line declares it with `-` (`!`) |
| ProgramFacts.TransitionIsLastForItsKey | src/program.rs:169-172 | the keys of the map are exactly the `(from, condition)` pairs of the transition lines, and each holds the transition from the last line with that key |
| Machine.Perform | src/machine.rs:49-55 | write, then move, on the infinite tape: seen from the new cursor, cell k is the written segment when k is the old cursor's offset (−1 after `Right`, +1 after `Left`, 0 after `Nothing`), and otherwise the old tape's cell k shifted by the move; the tape stays valid |
| Machine.Step | src/machine.rs:42-65 | without a transition for `(state, current)`, stops with `UndefinedBehavior` of exactly that pair and leaves the tape alone; otherwise writes and moves, stops with `Ok(to)` if and only if the new state is final, stops with `ReachedError(to)` when it is an error state and not final, and keeps running if and only if it is neither |
| Machine.Run | src/machine.rs:42-66 | every outcome is sound: `Ok` only in a final state, `ReachedError` only in an error state that is not final, and `UndefinedBehavior` only when the pair under the cursor has no transition; a run still going had no fuel, or its first step kept going |
| Machine.Execution | src/machine.rs:38-69 | a run starts in the initial state, and its outcome is sound |
| Machine.MoreFuelSameOutcome | src/machine.rs:42-68 | once stopped, more fuel gives the same result and tape |
| Machine.RunSplits | src/machine.rs:42-66 | running a+b iterations is running a, then b more from where they left off |
| Machine.StartingInFinalStateStillSteps | src/machine.rs:39-61 | the final check comes only after a step: a machine started in a final state returns `Ok` only through a transition, and stops with `UndefinedBehavior` without one |
| Machine.Execute | src/machine.rs:38-69 | the loop over a `VecTape` returns `Execution`'s result and leaves `Execution`'s tape; `None` exactly when the fuel ran out |
| Scenarios.IncrementLinesParse | src/program.rs:50-74 | every line of the example program reads as its intended comment, declaration or rule |
| Scenarios.IncrementLinesApply | src/program.rs:50-74 | the lines build initial state 0, final state 3 and the nine rules |
| Scenarios.IncrementParses | src/program.rs:50-74 | the example program's text parses to that program |
| Scenarios.IncrementRun | src/lib.rs:18-26 | on `_111_` the program stops in state 3 after 8 iterations, with cells `1000_` |
| Scenarios.NextIntegerTest | src/lib.rs:17-27 | with at least 8 iterations of fuel, the run halts with `Ok` in state 3, and its cells are those of `1000_` |
| Scenarios.LaterInitialStateWins | src/program.rs:160-162 | `+1` then `+2` gives initial state 2 |
| Scenarios.LaterTransitionWins | src/program.rs:169-172 | two rules for the same `(from, condition)`: only the second is kept |
| Scenarios.NoInitialStateLine | src/program.rs:176-181 | a comment and a rule without a `+` line give `MissingInitialState` |
| Scenarios.ShortLineBeforeMissingInitialState | src/program.rs:169-177 | a three-field line fails with `MissingWrite` before the missing initial state is noticed |
| Scenarios.FirstErrorWins | src/program.rs:152-174 | a bad condition on the second line is reported whatever follows |
| Scenarios.UndefinedTransition | src/machine.rs:43-47 | with no rule for `(0, Empty)`, the run stops with `UndefinedBehavior(0, Empty)` and an untouched tape |
| Scenarios.ErrorStateReached | src/machine.rs:57-65 | entering an error state stops with `ReachedError` after the write and move |
| Scenarios.FinalCheckedBeforeError | src/machine.rs:57-65 | a state that is both final and error ends the run with `Ok` |

## Left out

- Machine.Execute: the source's `loop` has no bound. The model runs at most `fuel` iterations and returns `None` when they run out. It does not claim that a program halts.
- `VecDequeTape` (src/tape.rs:141-232) is not modelled separately. It repeats `VecTape`'s code over a `VecDeque`, so the single `VecTape` class stands for both. The `Tape` trait is likewise modelled by that class's methods.
- `TuringMachine::from_tape`, `tape` and `tape_mut` (src/machine.rs:13-30) only wrap the tape. `Execute` takes the `VecTape` directly.
- Tape.VecTape.Right: `position += 1` on a `usize` is modelled on `nat`. The overflow is unreachable for a tape that fits in memory.
- Programs.ParseState: `usize` is taken to be 64 bits wide.
- `str::lines` (src/program.rs:152) is not modelled. A program is given as its sequence of lines, so splitting on `\n` and `\r\n` is not covered.
- `HashMap` and `HashSet` are modelled as Dafny `map` and `set`. Capacities and hashing are not modelled.
- Tape.VecTape.Display: the `fmt::Formatter` plumbing and its write errors are left out. The rendered text is returned as a string.
- `Program::from_parts` (src/program.rs:84-96) builds the struct from its parts, which is the `Program` datatype constructor.
- The panics of `VecTape::new` and of `current` on an out-of-range cursor are modelled as preconditions.
- Programs.RuleTextParses: covers rules whose states have a single digit, which are the only ones the example program uses. Any decimal state is covered by `ParseStateRoundTrip`.
- Scenarios.IncrementParses: the comment lines of the example program are abbreviated. Any comment parses the same way.
- examples/next_integer.tng is not part of this model. `NextIntegerTest` uses the example program from the doc comment on `Program` in its place.
- The example programs of `test_append`, `test_palindrome` and `test_copy` (src/lib.rs:29-59) are not part of this model.
- Reading files and printing are I/O, and are left out.
