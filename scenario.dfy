/** Concrete programs and tapes: the increment example from the doc comment
    on `Program` and the test `test_next_integer` (src/lib.rs), and small
    programs that exercise each way parsing and execution can fail. */
module Scenarios {
  import opened Wrappers
  import opened Errors
  import opened Tape
  import opened Programs
  import opened ProgramFacts
  import opened Machine

  /** A comment line: `#` followed by `note`. */
  function Remark(note: string): (r: string)
    ensures IsComment(r) && |r| == |note| + 1
  {
    "#" + note
  }

  /** A rule line read through `RuleTextParses`, with the line passed as a
      value so that the parser is not unfolded on a literal. */
  lemma RuleLine(line: string, from: nat, to: nat, condition: Segment, write: Segment, action: Move)
    requires from < 10 && to < 10 && line == RuleText(from, to, condition, write, action)
    ensures ParseLine(line) == Ok(TransitionLine(Transition(State(from), State(to), condition, write, action)))
  {
    RuleTextParses(from, to, condition, write, action);
  }

  /** The header of the program of the doc comment on `Program`
      (src/program.rs): comments and the `+0` and `-3` declarations. */
  function HeaderText(): seq<string>
  {
    [
      Remark(" Adds 1 to a binary number"),
      Remark(" Input: blank, digits, blank"),
      Remark(" Initial state"),
      "+0",
      Remark(" End state"),
      "-3",
      Remark(" from,to,condition,write,action"),
      ""
    ]
  }

  /** Its rules for state 0. */
  function StateZeroText(): seq<string>
  {
    [
      Remark(" State 0: right to the blank"),
      "0,0,0,0,r",
      "0,0,1,1,r",
      "0,1,_,_,l"
    ]
  }

  /** Its rules for state 1. */
  function StateOneText(): seq<string>
  {
    [
      Remark(" State 1: flip 1s leftwards"),
      "1,2,0,1,l",
      "1,1,1,0,l",
      Remark(" All 1s: the blank becomes 1"),
      "1,3,_,1,n"
    ]
  }

  /** Its rules for state 2. */
  function StateTwoText(): seq<string>
  {
    [
      Remark(" State 2: left to the blank"),
      "2,2,0,0,l",
      "2,2,1,1,l",
      Remark(" Back at the start: state 3"),
      "2,3,_,_,r"
    ]
  }

  /** The whole program, one string per line. */
  function IncrementText(): seq<string>
  {
    HeaderText() + StateZeroText() + StateOneText() + StateTwoText()
  }

  // The nine rules of the increment program, named after what they do.
  const SkipZero := Transition(State(0), State(0), Zero, Zero, Right)
  const SkipOne := Transition(State(0), State(0), One, One, Right)
  const TurnAtBlank := Transition(State(0), State(1), Empty, Empty, Left)
  const CarryZero := Transition(State(1), State(2), Zero, One, Left)
  const CarryOne := Transition(State(1), State(1), One, Zero, Left)
  const CarryBlank := Transition(State(1), State(3), Empty, One, Nothing)
  const ReturnZero := Transition(State(2), State(2), Zero, Zero, Left)
  const ReturnOne := Transition(State(2), State(2), One, One, Left)
  const ReturnBlank := Transition(State(2), State(3), Empty, Empty, Right)

  /** The rules of state 0, keyed by `(from, condition)`. */
  function StateZeroTable(): map<(State, Segment), Transition>
  {
    map[(State(0), Zero) := SkipZero, (State(0), One) := SkipOne, (State(0), Empty) := TurnAtBlank]
  }

  /** The rules of states 0 and 1. */
  function StateOneTable(): map<(State, Segment), Transition>
  {
    map[(State(0), Zero) := SkipZero, (State(0), One) := SkipOne, (State(0), Empty) := TurnAtBlank,
        (State(1), Zero) := CarryZero, (State(1), One) := CarryOne, (State(1), Empty) := CarryBlank]
  }

  /** All nine rules. */
  function IncrementTable(): map<(State, Segment), Transition>
  {
    map[(State(0), Zero) := SkipZero, (State(0), One) := SkipOne, (State(0), Empty) := TurnAtBlank,
        (State(1), Zero) := CarryZero, (State(1), One) := CarryOne, (State(1), Empty) := CarryBlank,
        (State(2), Zero) := ReturnZero, (State(2), One) := ReturnOne, (State(2), Empty) := ReturnBlank]
  }

  /** What that text declares. */
  function IncrementProgram(): Program
  {
    Program(State(0), {State(3)}, {}, IncrementTable())
  }

  /** The reading of the first eight lines: comments, `+0` and `-3`. */
  function HeaderLines(): seq<Line>
  {
    [Comment, Comment, Comment, InitialLine(State(0)), Comment, FinalLine(State(3)), Comment, Comment]
  }

  /** The reading of the section on state 0. */
  function StateZeroLines(): seq<Line>
  {
    [Comment, TransitionLine(SkipZero), TransitionLine(SkipOne), TransitionLine(TurnAtBlank)]
  }

  /** The reading of the section on state 1. */
  function StateOneLines(): seq<Line>
  {
    [Comment, TransitionLine(CarryZero), TransitionLine(CarryOne), Comment, TransitionLine(CarryBlank)]
  }

  /** The reading of the section on state 2. */
  function StateTwoLines(): seq<Line>
  {
    [Comment, TransitionLine(ReturnZero), TransitionLine(ReturnOne), Comment, TransitionLine(ReturnBlank)]
  }

  /** The line-by-line reading of that text. */
  function IncrementLines(): seq<Line>
  {
    HeaderLines() + StateZeroLines() + StateOneLines() + StateTwoLines()
  }

  /** The comments, the `+0` line, the `-3` line and the blank line. */
  lemma IncrementHeaderParses()
    ensures |HeaderText()| == |HeaderLines()|
    ensures forall i :: 0 <= i < |HeaderText()| ==> ParseLine(HeaderText()[i]) == Ok(HeaderLines()[i])
  {
    var text, parsed := HeaderText(), HeaderLines();
    forall i | 0 <= i < 8
      ensures ParseLine(text[i]) == Ok(parsed[i])
    {
      if i == 0 {
        assert IsComment(text[0]);
      } else if i == 1 {
        assert IsComment(text[1]);
      } else if i == 2 {
        assert IsComment(text[2]);
      } else if i == 3 {
        assert ShowNat(0) == "0" && text[3][1..] == "0";
        DeclarationLineParses(text[3], 0);
      } else if i == 4 {
        assert IsComment(text[4]);
      } else if i == 5 {
        assert ShowNat(3) == "3" && text[5][1..] == "3";
        DeclarationLineParses(text[5], 3);
      } else if i == 6 {
        assert IsComment(text[6]);
      } else if i == 7 {
        assert text[7] == "";
        assert IsComment(text[7]);
      }
    }
  }

  /** The rules of state 0. */
  lemma IncrementStateZeroParses()
    ensures |StateZeroText()| == |StateZeroLines()|
    ensures forall i :: 0 <= i < |StateZeroText()| ==> ParseLine(StateZeroText()[i]) == Ok(StateZeroLines()[i])
  {
    var text, parsed := StateZeroText(), StateZeroLines();
    forall i | 0 <= i < 4
      ensures ParseLine(text[i]) == Ok(parsed[i])
    {
      if i == 0 {
        assert IsComment(text[0]);
      } else if i == 1 {
        RuleLine(text[1], 0, 0, Zero, Zero, Right);
      } else if i == 2 {
        RuleLine(text[2], 0, 0, One, One, Right);
      } else if i == 3 {
        RuleLine(text[3], 0, 1, Empty, Empty, Left);
      }
    }
  }

  /** The rules of state 1. */
  lemma IncrementStateOneParses()
    ensures |StateOneText()| == |StateOneLines()|
    ensures forall i :: 0 <= i < |StateOneText()| ==> ParseLine(StateOneText()[i]) == Ok(StateOneLines()[i])
  {
    var text, parsed := StateOneText(), StateOneLines();
    forall i | 0 <= i < 5
      ensures ParseLine(text[i]) == Ok(parsed[i])
    {
      if i == 0 {
        assert IsComment(text[0]);
      } else if i == 1 {
        RuleLine(text[1], 1, 2, Zero, One, Left);
      } else if i == 2 {
        RuleLine(text[2], 1, 1, One, Zero, Left);
      } else if i == 3 {
        assert IsComment(text[3]);
      } else if i == 4 {
        RuleLine(text[4], 1, 3, Empty, One, Nothing);
      }
    }
  }

  /** The rules of state 2. */
  lemma IncrementStateTwoParses()
    ensures |StateTwoText()| == |StateTwoLines()|
    ensures forall i :: 0 <= i < |StateTwoText()| ==> ParseLine(StateTwoText()[i]) == Ok(StateTwoLines()[i])
  {
    var text, parsed := StateTwoText(), StateTwoLines();
    forall i | 0 <= i < 5
      ensures ParseLine(text[i]) == Ok(parsed[i])
    {
      if i == 0 {
        assert IsComment(text[0]);
      } else if i == 1 {
        RuleLine(text[1], 2, 2, Zero, Zero, Left);
      } else if i == 2 {
        RuleLine(text[2], 2, 2, One, One, Left);
      } else if i == 3 {
        assert IsComment(text[3]);
      } else if i == 4 {
        RuleLine(text[4], 2, 3, Empty, Empty, Right);
      }
    }
  }

  /** Each line of the increment text reads as the matching entry of
      `IncrementLines`. */
  lemma IncrementLinesParse()
    ensures |IncrementText()| == |IncrementLines()|
    ensures forall i :: 0 <= i < |IncrementText()| ==> ParseLine(IncrementText()[i]) == Ok(IncrementLines()[i])
  {
    IncrementHeaderParses();
    IncrementStateZeroParses();
    IncrementStateOneParses();
    IncrementStateTwoParses();
    var text, lines := IncrementText(), IncrementLines();
    forall i | 0 <= i < 22
      ensures ParseLine(text[i]) == Ok(lines[i])
    {
      if i < 8 {
        assert text[i] == HeaderText()[i] && lines[i] == HeaderLines()[i];
      } else if i < 12 {
        assert text[i] == StateZeroText()[i - 8] && lines[i] == StateZeroLines()[i - 8];
      } else if i < 17 {
        assert text[i] == StateOneText()[i - 12] && lines[i] == StateOneLines()[i - 12];
      } else {
        assert text[i] == StateTwoText()[i - 17] && lines[i] == StateTwoLines()[i - 17];
      }
    }
  }

  /** The variables once the `+0` and `-3` lines have been read. */
  function Declared(table: map<(State, Segment), Transition>): Builder
  {
    Builder(Some(State(0)), {State(3)}, {}, table)
  }

  /** The header declares initial state 0 and final state 3, and no rule. */
  lemma IncrementHeaderApply()
    ensures ApplyAll(HeaderLines()) == Declared(map[])
  {
    var b, ls := Builder(None, {}, {}, map[]), HeaderLines();
    assert ls[..1][..0] == [] && ls[..2][..1] == ls[..1] && ls[..3][..2] == ls[..2];
    assert ls[..4][..3] == ls[..3] && ls[..5][..4] == ls[..4] && ls[..6][..5] == ls[..5];
    assert ls[..7][..6] == ls[..6] && ls[..7] == ls[..|ls| - 1];
    var initial := b.(initialState := Some(State(0)));
    assert ApplyFrom(b, ls[..1]) == b;
    assert ApplyFrom(b, ls[..2]) == b;
    assert ApplyFrom(b, ls[..3]) == b;
    assert ApplyFrom(b, ls[..4]) == initial;
    assert ApplyFrom(b, ls[..5]) == initial;
    assert ApplyFrom(b, ls[..6]) == Declared(map[]);
    assert ApplyFrom(b, ls[..7]) == Declared(map[]);
  }

  /** The section on state 0 stores its three rules, one per line. */
  lemma StateZeroApply()
    ensures ApplyFrom(Declared(map[]), StateZeroLines()) == Declared(StateZeroTable())
  {
    var b, ls := Declared(map[]), StateZeroLines();
    assert ls[..1][..0] == [] && ls[..2][..1] == ls[..1] && ls[..3][..2] == ls[..2];
    assert ls[..3] == ls[..|ls| - 1];
    var t1 := map[][(State(0), Zero) := SkipZero];
    var t2 := t1[(State(0), One) := SkipOne];
    assert ApplyFrom(b, ls[..1]) == b;
    assert ApplyFrom(b, ls[..2]) == Declared(t1);
    assert ApplyFrom(b, ls[..3]) == Declared(t2);
  }

  /** The section on state 1 adds its three rules. */
  lemma StateOneApply()
    ensures ApplyFrom(Declared(StateZeroTable()), StateOneLines()) == Declared(StateOneTable())
  {
    var b, ls := Declared(StateZeroTable()), StateOneLines();
    assert ls[..1][..0] == [] && ls[..2][..1] == ls[..1] && ls[..3][..2] == ls[..2];
    assert ls[..4][..3] == ls[..3] && ls[..4] == ls[..|ls| - 1];
    var t1 := StateZeroTable()[(State(1), Zero) := CarryZero];
    var t2 := t1[(State(1), One) := CarryOne];
    assert ApplyFrom(b, ls[..1]) == b;
    assert ApplyFrom(b, ls[..2]) == Declared(t1);
    assert ApplyFrom(b, ls[..3]) == Declared(t2);
    assert ApplyFrom(b, ls[..4]) == Declared(t2);
  }

  /** The section on state 2 adds the last three rules. */
  lemma StateTwoApply()
    ensures ApplyFrom(Declared(StateOneTable()), StateTwoLines()) == Declared(IncrementTable())
  {
    var b, ls := Declared(StateOneTable()), StateTwoLines();
    assert ls[..1][..0] == [] && ls[..2][..1] == ls[..1] && ls[..3][..2] == ls[..2];
    assert ls[..4][..3] == ls[..3] && ls[..4] == ls[..|ls| - 1];
    var t1 := StateOneTable()[(State(2), Zero) := ReturnZero];
    var t2 := t1[(State(2), One) := ReturnOne];
    assert ApplyFrom(b, ls[..1]) == b;
    assert ApplyFrom(b, ls[..2]) == Declared(t1);
    assert ApplyFrom(b, ls[..3]) == Declared(t2);
    assert ApplyFrom(b, ls[..4]) == Declared(t2);
  }

  /** All the lines: the initial state 0, the final state 3 and the nine
      rules, none of them overridden. */
  lemma IncrementLinesApply()
    ensures ApplyAll(IncrementLines()) == Builder(Some(State(0)), {State(3)}, {}, IncrementProgram().transitions)
  {
    var start := Builder(None, {}, {}, map[]);
    var header, zero, one, two := HeaderLines(), StateZeroLines(), StateOneLines(), StateTwoLines();
    IncrementHeaderApply();
    ApplyFromAppend(start, header, zero);
    StateZeroApply();
    ApplyFromAppend(start, header + zero, one);
    StateOneApply();
    ApplyFromAppend(start, header + zero + one, two);
    StateTwoApply();
  }

  /** The text parses to that program. */
  lemma IncrementParses()
    ensures ParseProgramLines(IncrementText()) == Ok(IncrementProgram())
  {
    IncrementLinesParse();
    AccumulateReads(IncrementText(), IncrementLines());
    IncrementLinesApply();
  }

  /** The start tape of `test_next_integer`: blank, three 1s, blank, with
      the cursor on the first 1. */
  lemma IncrementStartTape()
    ensures ParseTape("_111_") == Ok(TapeValue([Empty, One, One, One, Empty], 1))
  {
    var start := ParseTape("_111_");
    assert ParseSegment(["_111_"[0]]) == Ok(Empty) && ParseSegment(["_111_"[4]]) == Ok(Empty);
    assert ParseSegment(["_111_"[1]]) == Ok(One) && ParseSegment(["_111_"[2]]) == Ok(One);
    assert ParseSegment(["_111_"[3]]) == Ok(One);
    assert start.value.inner == [Empty, One, One, One, Empty];
    assert IsMark("_111_"[1]);
  }

  /** The first four iterations: state 0 moves right over the digits to the
      blank, and steps back onto the last digit in state 1. */
  lemma IncrementMovesRight()
    ensures Run(IncrementProgram(), Config(State(0), TapeValue([Empty, One, One, One, Empty], 1)), 8) ==
      Run(IncrementProgram(), Config(State(1), TapeValue([Empty, One, One, One, Empty], 3)), 4)
  {
    var p := IncrementProgram();
    var c0 := Config(State(0), TapeValue([Empty, One, One, One, Empty], 1));
    var c1 := Config(State(0), TapeValue([Empty, One, One, One, Empty], 2));
    var c2 := Config(State(0), TapeValue([Empty, One, One, One, Empty], 3));
    var c3 := Config(State(0), TapeValue([Empty, One, One, One, Empty], 4));
    var c4 := Config(State(1), TapeValue([Empty, One, One, One, Empty], 3));
    assert Step(p, c0) == Running(c1);
    assert Step(p, c1) == Running(c2);
    assert Step(p, c2) == Running(c3);
    assert Step(p, c3) == Running(c4);
    assert Run(p, c3, 5) == Run(p, c4, 4);
    assert Run(p, c2, 6) == Run(p, c4, 4);
    assert Run(p, c1, 7) == Run(p, c4, 4);
  }

  /** The last four iterations: state 1 turns the three 1s into 0s moving
      left, writes 1 on the blank and stops in the final state 3. */
  lemma IncrementCarries()
    ensures Run(IncrementProgram(), Config(State(1), TapeValue([Empty, One, One, One, Empty], 3)), 4) ==
      Halted(Ok(State(3)), TapeValue([One, Zero, Zero, Zero, Empty], 0))
  {
    var p := IncrementProgram();
    var c4 := Config(State(1), TapeValue([Empty, One, One, One, Empty], 3));
    var c5 := Config(State(1), TapeValue([Empty, One, One, Zero, Empty], 2));
    var c6 := Config(State(1), TapeValue([Empty, One, Zero, Zero, Empty], 1));
    var c7 := Config(State(1), TapeValue([Empty, Zero, Zero, Zero, Empty], 0));
    assert Step(p, c4) == Running(c5);
    assert Step(p, c5) == Running(c6);
    assert Step(p, c6) == Running(c7);
    assert Step(p, c7) == Halted(Ok(State(3)), TapeValue([One, Zero, Zero, Zero, Empty], 0));
    assert Run(p, c7, 1) == Halted(Ok(State(3)), TapeValue([One, Zero, Zero, Zero, Empty], 0));
    assert Run(p, c6, 2) == Halted(Ok(State(3)), TapeValue([One, Zero, Zero, Zero, Empty], 0));
    assert Run(p, c5, 3) == Halted(Ok(State(3)), TapeValue([One, Zero, Zero, Zero, Empty], 0));
  }

  /** Adding one to 111 (between blanks, cursor on the first 1) takes 8
      iterations, ends in state 3 and leaves 1000 followed by a blank. */
  lemma IncrementRun()
    ensures ParseTape("_111_").Ok?
    ensures Execution(IncrementProgram(), ParseTape("_111_").value, 8) ==
      Halted(Ok(State(3)), TapeValue([One, Zero, Zero, Zero, Empty], 0))
  {
    IncrementStartTape();
    IncrementMovesRight();
    IncrementCarries();
  }

  /** The cells of the expected tape of `test_next_integer`. */
  lemma ParsedOneThousand()
    ensures ParseTape("1000_").Ok? && ParseTape("1000_").value.inner == [One, Zero, Zero, Zero, Empty]
  {
    var s := "1000_";
    assert ParseSegment([s[0]]) == Ok(One) && ParseSegment([s[1]]) == Ok(Zero);
    assert ParseSegment([s[2]]) == Ok(Zero) && ParseSegment([s[3]]) == Ok(Zero);
    assert ParseSegment([s[4]]) == Ok(Empty);
  }

  /** `test_next_integer` (src/lib.rs), with the increment program of the
      doc comment in place of the example file it reads: the program turns
      the tape `_111_` into one whose cells are those of `1000_`, whatever
      fuel of at least eight iterations it is given. */
  lemma NextIntegerTest(fuel: nat)
    requires fuel >= 8
    ensures ParseProgramLines(IncrementText()).Ok?
    ensures var run := Execution(ParseProgramLines(IncrementText()).value, ParseTape("_111_").value, fuel);
      run.Halted? && run.result == Ok(State(3)) && run.tape.inner == ParseTape("1000_").value.inner
  {
    IncrementParses();
    IncrementRun();
    MoreFuelSameOutcome(IncrementProgram(), Config(State(0), ParseTape("_111_").value), 8, fuel);
    ParsedOneThousand();
  }

  /** A later `+` line replaces an earlier one. */
  lemma LaterInitialStateWins()
    ensures ParseProgramLines(["+1", "+2"]) == Ok(Program(State(2), {}, {}, map[]))
  {
    var text := ["+1", "+2"];
    assert text[0][1..] == "1" && text[1][1..] == "2";
    assert text[..1] == ["+1"] && text[..1][..0] == [];
    assert Accumulate(text[..1]) == Ok(Builder(Some(State(1)), {}, {}, map[]));
  }

  /** Applying a `+0` line and two transitions for the same key keeps
      only the second transition. */
  lemma SecondRuleApplied(first: Transition, second: Transition)
    requires first.from == second.from && first.condition == second.condition
    ensures ApplyAll([InitialLine(State(0)), TransitionLine(first), TransitionLine(second)]) ==
      Builder(Some(State(0)), {}, {}, map[(second.from, second.condition) := second])
  {
    var key := (second.from, second.condition);
    var ls := [InitialLine(State(0)), TransitionLine(first), TransitionLine(second)];
    var start := Builder(None, {}, {}, map[]);
    assert ls[..1][..0] == [];
    assert ApplyFrom(start, ls[..1]) == Builder(Some(State(0)), {}, {}, map[]);
    assert ls[..2][..1] == ls[..1];
    assert ApplyFrom(start, ls[..2]) == Builder(Some(State(0)), {}, {}, map[key := first]);
    assert ls[..2] == ls[..|ls| - 1];
    assert map[key := first][key := second] == map[key := second];
  }

  /** Three lines that read as a `+0` line and two transitions for the same
      key give a program holding only the second transition. */
  lemma SecondRuleReplacesFirst(lines: seq<string>, first: Transition, second: Transition)
    requires |lines| == 3 && first.from == second.from && first.condition == second.condition
    requires ParseLine(lines[0]) == Ok(InitialLine(State(0)))
    requires ParseLine(lines[1]) == Ok(TransitionLine(first)) && ParseLine(lines[2]) == Ok(TransitionLine(second))
    ensures ParseProgramLines(lines) == Ok(Program(State(0), {}, {}, map[(second.from, second.condition) := second]))
  {
    var ls := [InitialLine(State(0)), TransitionLine(first), TransitionLine(second)];
    forall i | 0 <= i < |lines|
      ensures ParseLine(lines[i]) == Ok(ls[i])
    {
      if i == 0 {
      } else if i == 1 {
      } else {
      }
    }
    SecondRuleApplied(first, second);
    AccumulateReads(lines, ls);
  }

  /** A later transition with the same `(from, condition)` replaces the
      earlier one. */
  lemma LaterTransitionWins(lines: seq<string>, from: nat, to1: nat, to2: nat, condition: Segment,
                            w1: Segment, w2: Segment, a1: Move, a2: Move)
    requires from < 10 && to1 < 10 && to2 < 10
    requires |lines| == 3 && lines[0] == "+0"
    requires lines[1] == RuleText(from, to1, condition, w1, a1) && lines[2] == RuleText(from, to2, condition, w2, a2)
    ensures ParseProgramLines(lines) ==
      Ok(Program(State(0), {}, {}, map[(State(from), condition) := Transition(State(from), State(to2), condition, w2, a2)]))
  {
    assert ShowNat(0) == "0" && lines[0][1..] == "0";
    DeclarationLineParses(lines[0], 0);
    RuleLine(lines[1], from, to1, condition, w1, a1);
    RuleLine(lines[2], from, to2, condition, w2, a2);
    SecondRuleReplacesFirst(lines, Transition(State(from), State(to1), condition, w1, a1),
                            Transition(State(from), State(to2), condition, w2, a2));
  }

  /** A comment and a transition but no `+` line: `MissingInitialState`. */
  lemma NoInitialStateLine(comment: string, from: nat, to: nat, condition: Segment, write: Segment, action: Move)
    requires IsComment(comment) && from < 10 && to < 10
    ensures ParseProgramLines([comment, RuleText(from, to, condition, write, action)]) == Err(MissingInitialState)
  {
    var text := [comment, RuleText(from, to, condition, write, action)];
    RuleLine(text[1], from, to, condition, write, action);
    assert ParseLine(text[0]) == Ok(Comment);
    ParseSucceedsIff(text);
  }

  /** A transition line with only three fields reports the missing write
      segment, whatever the fields hold, even in a text without a `+` line:
      the bad line is reported before the missing initial state. */
  lemma ShortLineBeforeMissingInitialState(a: string, b: string, c: string)
    requires ',' !in a && ',' !in b && ',' !in c
    requires |a| > 0 && a[0] !in "#/+-!"
    ensures ParseProgramLines([a + [','] + b + [','] + c]) == Err(MissingWrite)
  {
    var lines := [a + [','] + b + [','] + c];
    MissingFieldsBeforeContent(a, b, c, "");
    assert lines[0][0] == a[0];
    FirstBadLineDecides(lines, 0);
  }

  /** The rule line with the unknown segment `x` as its condition. */
  lemma UnknownSegmentLine(line: string)
    requires line == "0,1,x,_,r"
    ensures ParseLine(line) == Err(InvalidSegment)
  {
    assert line == "0" + [','] + "1" + [','] + "x" + [','] + "_" + [','] + "r";
    BadConditionLine("0", "1", "x", "_", "r");
  }

  /** The first bad line is reported whatever follows it, including lines
      that are bad in another way. */
  lemma FirstErrorWins(lines: seq<string>)
    requires |lines| >= 2 && lines[0] == "+0" && lines[1] == "0,1,x,_,r"
    ensures ParseProgramLines(lines) == Err(InvalidSegment)
  {
    assert ShowNat(0) == "0" && lines[0][1..] == "0";
    DeclarationLineParses(lines[0], 0);
    UnknownSegmentLine(lines[1]);
    FirstBadLineDecides(lines, 1);
  }

  /** A program with no transition for `(initial state, blank)` run on an
      all-blank tape stops with exactly that pair, tape untouched. */
  lemma UndefinedTransition(fuel: nat)
    requires fuel > 0
    ensures Execution(Program(State(0), {State(1)}, {}, map[]), TapeValue([Empty, Empty, Empty], 0), fuel) ==
      Halted(Err(UndefinedBehavior(State(0), Empty)), TapeValue([Empty, Empty, Empty], 0))
  {
  }

  /** A program whose only transition enters an error state stops with
      `ReachedError` for that state. */
  lemma ErrorStateReached(fuel: nat)
    requires fuel > 0
    ensures var p := Program(State(0), {}, {State(1)},
                             map[(State(0), Empty) := Transition(State(0), State(1), Empty, One, Nothing)]);
      Execution(p, TapeValue([Empty], 0), fuel) == Halted(Err(ReachedError(State(1))), TapeValue([One], 0))
  {
  }

  /** A state declared both final and error behaves as final: the final
      check comes first. */
  lemma FinalCheckedBeforeError(fuel: nat)
    requires fuel > 0
    ensures var p := Program(State(0), {State(1)}, {State(1)},
                             map[(State(0), Empty) := Transition(State(0), State(1), Empty, Empty, Right)]);
      Execution(p, TapeValue([Empty], 0), fuel) == Halted(Ok(State(1)), TapeValue([Empty, Empty], 1))
  {
  }
}
