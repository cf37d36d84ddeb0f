/** The program model and its text parser, src/program.rs: states, moves,
    transitions, and the line-oriented program format with its error
    reporting. */
module Programs {
  import opened Wrappers
  import opened Errors
  import opened Tape

  /** The cursor action a transition performs after writing. */
  datatype Move = Left | Right | Nothing

  /** A state is an opaque `usize` label. */
  datatype State = State(id: nat)

  /** "In state `from` reading `condition`, write `write`, move `action` and
      become `to`." */
  datatype Transition = Transition(from: State, to: State, condition: Segment, write: Segment, action: Move)

  /** A parsed program. */
  datatype Program = Program(
    initialState: State,
    finalStates: set<State>,
    errorStates: set<State>,
    transitions: map<(State, Segment), Transition>)

  /** Every transition is stored under its own `(from, condition)`. */
  ghost predicate WellKeyed(m: map<(State, Segment), Transition>)
  {
    forall k :: k in m ==> (m[k].from, m[k].condition) == k
  }

  // ---------------------------------------------------------------------
  // States: `usize::from_str` on a 64-bit target.
  // ---------------------------------------------------------------------

  /** The largest `usize` of a 64-bit target. */
  const UsizeMax: nat := 0xFFFF_FFFF_FFFF_FFFF

  predicate IsDigit(c: char)
  {
    '0' <= c <= '9'
  }

  predicate AllDigits(s: string)
  {
    forall i :: 0 <= i < |s| ==> IsDigit(s[i])
  }

  /** The number a string of decimal digits denotes. */
  function DigitsValue(s: string): nat
    requires AllDigits(s)
  {
    if s == [] then 0
    else DigitsValue(s[..|s| - 1]) * 10 + (s[|s| - 1] as int - '0' as int)
  }

  /** `State::from_str`: an optional `+` sign followed by at least one ASCII
      digit, with no surrounding space allowed and a value that fits in a
      `usize`; anything else is `InvalidState`. */
  function ParseState(s: string): (r: Result<State, InvalidProgram>)
    ensures r.Err? ==> r.error == InvalidState
    ensures r.Ok? ==> |s| > 0 && (IsDigit(s[0]) || s[0] == '+') && AllDigits(s[1..])
    ensures r.Ok? ==> r.value.id <= UsizeMax
  {
    var digits := if |s| > 0 && s[0] == '+' then s[1..] else s;
    if digits != [] && AllDigits(digits) && DigitsValue(digits) <= UsizeMax then
      Ok(State(DigitsValue(digits)))
    else
      Err(InvalidState)
  }

  function DigitChar(d: nat): char
    requires d < 10
  {
    ('0' as int + d) as char
  }

  /** The decimal digits of `n`, without leading zeros. */
  function ShowNat(n: nat): (s: string)
    ensures |s| > 0 && AllDigits(s)
  {
    if n < 10 then [DigitChar(n)] else ShowNat(n / 10) + [DigitChar(n % 10)]
  }

  /** Reading the digits of `n` gives `n` back. */
  lemma {:induction false} ShowNatValue(n: nat)
    ensures DigitsValue(ShowNat(n)) == n
  {
    var s := ShowNat(n);
    if n >= 10 {
      assert s[..|s| - 1] == ShowNat(n / 10);
      ShowNatValue(n / 10);
    }
  }

  /** Writing a number in decimal and parsing it back gives that state,
      with or without a leading `+`, exactly when it fits in a `usize`. */
  lemma ParseStateRoundTrip(n: nat)
    ensures ParseState(ShowNat(n)).Ok? <==> n <= UsizeMax
    ensures n <= UsizeMax ==> ParseState(ShowNat(n)) == Ok(State(n))
    ensures ParseState("+" + ShowNat(n)) == ParseState(ShowNat(n))
  {
    ShowNatValue(n);
    assert ("+" + ShowNat(n))[1..] == ShowNat(n);
  }

  function Pow10(k: nat): nat
  {
    if k == 0 then 1 else 10 * Pow10(k - 1)
  }

  lemma {:induction false} DigitsValueBelowPow10(s: string)
    requires AllDigits(s)
    ensures DigitsValue(s) < Pow10(|s|)
  {
    if s != [] {
      DigitsValueBelowPow10(s[..|s| - 1]);
    }
  }

  lemma {:induction false} Pow10Monotone(j: nat, k: nat)
    requires j <= k
    ensures Pow10(j) <= Pow10(k)
    decreases k
  {
    if j < k {
      Pow10Monotone(j, k - 1);
    }
  }

  /** Any run of one to nineteen digits fits in a `usize`, so it is a
      state. */
  lemma ShortDecimalsAreStates(s: string)
    requires 0 < |s| <= 19 && AllDigits(s)
    ensures ParseState(s).Ok? && ParseState(s).value.id == DigitsValue(s)
  {
    DigitsValueBelowPow10(s);
    Pow10Monotone(|s|, 19);
    assert Pow10(1) == 10;
    assert Pow10(2) == 100;
    assert Pow10(3) == 1000;
    assert Pow10(4) == 10000;
    assert Pow10(5) == 100000;
    assert Pow10(6) == 1000000;
    assert Pow10(7) == 10000000;
    assert Pow10(8) == 100000000;
    assert Pow10(9) == 1000000000;
    assert Pow10(10) == 10000000000;
    assert Pow10(11) == 100000000000;
    assert Pow10(12) == 1000000000000;
    assert Pow10(13) == 10000000000000;
    assert Pow10(14) == 100000000000000;
    assert Pow10(15) == 1000000000000000;
    assert Pow10(16) == 10000000000000000;
    assert Pow10(17) == 100000000000000000;
    assert Pow10(18) == 1000000000000000000;
    assert Pow10(19) == 10000000000000000000;
  }

  /** Inputs `State::from_str` rejects: no digits, a lone sign, a minus
      sign, and surrounding space (nothing is trimmed). */
  lemma RejectedStates()
    ensures ParseState("") == Err(InvalidState)
    ensures ParseState("+") == Err(InvalidState)
    ensures ParseState("-1") == Err(InvalidState)
    ensures ParseState(" 1") == Err(InvalidState)
    ensures ParseState("1 ") == Err(InvalidState)
  {
    assert !IsDigit("-1"[0]);
    assert !IsDigit(" 1"[0]);
    assert !IsDigit("1 "[1]);
  }

  // ---------------------------------------------------------------------
  // Moves.
  // ---------------------------------------------------------------------

  /** `Move::from_str`: `r`/`R` is Right, `l`/`L` is Left, and `n`, `N`,
      the empty string, `_` and a space are Nothing; anything else is
      `InvalidAction`. */
  function ParseMove(s: string): (r: Result<Move, InvalidProgram>)
    ensures r == Ok(Right) <==> s == "r" || s == "R"
    ensures r == Ok(Left) <==> s == "l" || s == "L"
    ensures r == Ok(Nothing) <==> s == "n" || s == "N" || s == "" || s == "_" || s == " "
    ensures r.Err? ==> r.error == InvalidAction
  {
    if s == "r" || s == "R" then Ok(Right)
    else if s == "l" || s == "L" then Ok(Left)
    else if s == "n" || s == "N" || s == "" || s == "_" || s == " " then Ok(Nothing)
    else Err(InvalidAction)
  }

  // ---------------------------------------------------------------------
  // Splitting a line on commas (`str::split`).
  // ---------------------------------------------------------------------

  /** The pieces of `parts` glued back together with `sep`. */
  function Join(parts: seq<string>, sep: char): string
    requires |parts| > 0
  {
    if |parts| == 1 then parts[0] else parts[0] + [sep] + Join(parts[1..], sep)
  }

  function Count(s: string, c: char): nat
  {
    if s == [] then 0 else (if s[0] == c then 1 else 0) + Count(s[1..], c)
  }

  /** `s.split(sep)`: the maximal pieces between separators. There is
      always at least one piece, one more than there are separators, no
      piece holds a separator, and joining the pieces gives `s` back. */
  function Split(s: string, sep: char): (parts: seq<string>)
    ensures |parts| == Count(s, sep) + 1
    ensures forall i :: 0 <= i < |parts| ==> sep !in parts[i]
    ensures Join(parts, sep) == s
  {
    if s == [] then [""]
    else if s[0] == sep then [""] + Split(s[1..], sep)
    else
      var rest := Split(s[1..], sep);
      [[s[0]] + rest[0]] + rest[1..]
  }

  /** A separator splits the text on either side of it independently. */
  lemma {:induction false} SplitAppend(a: string, sep: char, b: string)
    ensures Split(a + [sep] + b, sep) == Split(a, sep) + Split(b, sep)
  {
    if a == [] {
      assert a + [sep] + b == [sep] + b;
      assert ([sep] + b)[1..] == b;
    } else {
      assert (a + [sep] + b)[1..] == a[1..] + [sep] + b;
      SplitAppend(a[1..], sep, b);
    }
  }

  /** Text without a separator is a single piece. */
  lemma {:induction false} SplitWithoutSeparator(s: string, sep: char)
    requires sep !in s
    ensures Split(s, sep) == [s]
  {
    if s != [] {
      SplitWithoutSeparator(s[1..], sep);
    }
  }

  /** Five comma-free fields joined by commas split back into those
      fields. */
  lemma SplitFiveFields(a: string, b: string, c: string, d: string, e: string)
    requires ',' !in a && ',' !in b && ',' !in c && ',' !in d && ',' !in e
    ensures Split(a + [','] + b + [','] + c + [','] + d + [','] + e, ',') == [a, b, c, d, e]
  {
    SplitWithoutSeparator(a, ',');
    SplitWithoutSeparator(b, ',');
    SplitWithoutSeparator(c, ',');
    SplitWithoutSeparator(d, ',');
    SplitWithoutSeparator(e, ',');
    SplitAppend(a, ',', b);
    SplitAppend(a + [','] + b, ',', c);
    SplitAppend(a + [','] + b + [','] + c, ',', d);
    SplitAppend(a + [','] + b + [','] + c + [','] + d, ',', e);
  }

  // ---------------------------------------------------------------------
  // Transitions.
  // ---------------------------------------------------------------------

  /** `Transition::from_str`. First the presence of the five comma-separated
      fields is checked (to, condition, write, action; the first piece always
      exists, so `MissingFrom` cannot happen), then the fields are parsed from
      left to right and the first bad one decides the error. Pieces after the
      fifth are ignored. */
  function ParseTransition(line: string): (r: Result<Transition, InvalidProgram>)
    ensures |Split(line, ',')| == 1 ==> r == Err(MissingTo)
    ensures |Split(line, ',')| == 2 ==> r == Err(MissingCondition)
    ensures |Split(line, ',')| == 3 ==> r == Err(MissingWrite)
    ensures |Split(line, ',')| == 4 ==> r == Err(MissingAction)
    ensures r != Err(MissingFrom)
    ensures |Split(line, ',')| >= 5 ==> var p := Split(line, ',');
      && (ParseState(p[0]).Err? || ParseState(p[1]).Err? ==> r == Err(InvalidState))
      && ((ParseState(p[0]).Ok? && ParseState(p[1]).Ok? &&
          (ParseSegment(p[2]).Err? || ParseSegment(p[3]).Err?)) ==> r == Err(InvalidSegment))
      && ((ParseState(p[0]).Ok? && ParseState(p[1]).Ok? && ParseSegment(p[2]).Ok? &&
           ParseSegment(p[3]).Ok? && ParseMove(p[4]).Err?) ==> r == Err(InvalidAction))
      && (r.Ok? <==> ParseState(p[0]).Ok? && ParseState(p[1]).Ok? && ParseSegment(p[2]).Ok? &&
                     ParseSegment(p[3]).Ok? && ParseMove(p[4]).Ok?)
      && (r.Ok? ==> r.value == Transition(ParseState(p[0]).value, ParseState(p[1]).value,
                                          ParseSegment(p[2]).value, ParseSegment(p[3]).value,
                                          ParseMove(p[4]).value))
  {
    var parts := Split(line, ',');
    if |parts| < 1 then Err(MissingFrom)
    else if |parts| < 2 then Err(MissingTo)
    else if |parts| < 3 then Err(MissingCondition)
    else if |parts| < 4 then Err(MissingWrite)
    else if |parts| < 5 then Err(MissingAction)
    else
      match ParseState(parts[0])
      case Err(e) => Err(e)
      case Ok(from) =>
        match ParseState(parts[1])
        case Err(e) => Err(e)
        case Ok(to) =>
          match ParseSegment(parts[2])
          case Err(e) => Err(e)
          case Ok(condition) =>
            match ParseSegment(parts[3])
            case Err(e) => Err(e)
            case Ok(write) =>
              match ParseMove(parts[4])
              case Err(e) => Err(e)
              case Ok(action) => Ok(Transition(from, to, condition, write, action))
  }

  /** Too few fields is reported before any field content is looked at:
      whatever one to four comma-free fields hold, their number alone
      decides which field is reported missing. */
  lemma MissingFieldsBeforeContent(a: string, b: string, c: string, d: string)
    requires ',' !in a && ',' !in b && ',' !in c && ',' !in d
    ensures ParseTransition(a) == Err(MissingTo)
    ensures ParseTransition(a + [','] + b) == Err(MissingCondition)
    ensures ParseTransition(a + [','] + b + [','] + c) == Err(MissingWrite)
    ensures ParseTransition(a + [','] + b + [','] + c + [','] + d) == Err(MissingAction)
  {
    SplitWithoutSeparator(a, ',');
    SplitWithoutSeparator(b, ',');
    SplitWithoutSeparator(c, ',');
    SplitWithoutSeparator(d, ',');
    SplitAppend(a, ',', b);
    SplitAppend(a + [','] + b, ',', c);
    SplitAppend(a + [','] + b + [','] + c, ',', d);
  }

  /** Fields are read from left to right: a line whose two states parse but
      whose condition does not is rejected with `InvalidSegment`, whatever
      its write and action fields hold. */
  lemma BadConditionLine(a: string, b: string, c: string, d: string, e: string)
    requires ',' !in a && ',' !in b && ',' !in c && ',' !in d && ',' !in e
    requires |a| > 0 && a[0] !in "#/+-!"
    requires ParseState(a).Ok? && ParseState(b).Ok? && ParseSegment(c).Err?
    ensures ParseLine(a + [','] + b + [','] + c + [','] + d + [','] + e) == Err(InvalidSegment)
  {
    SplitFiveFields(a, b, c, d, e);
    var line := a + [','] + b + [','] + c + [','] + d + [','] + e;
    assert line[0] == a[0];
  }

  /** Text after a fifth comma does not change how a complete transition
      line parses. */
  lemma ExtraFieldsIgnored(line: string, extra: string)
    requires |Split(line, ',')| >= 5
    ensures ParseTransition(line + [','] + extra) == ParseTransition(line)
  {
    SplitAppend(line, ',', extra);
    var p, q := Split(line + [','] + extra, ','), Split(line, ',');
    assert p[0] == q[0] && p[1] == q[1] && p[2] == q[2] && p[3] == q[3] && p[4] == q[4];
  }

  // ---------------------------------------------------------------------
  // Program lines.
  // ---------------------------------------------------------------------

  /** A line the parser skips: empty, or starting with `#` or `/`. */
  predicate IsComment(line: string)
  {
    |line| == 0 || line[0] == '#' || line[0] == '/'
  }

  /** What one program line declares. */
  datatype Line =
    | Comment
    | InitialLine(state: State)
    | FinalLine(state: State)
    | ErrorLine(state: State)
    | TransitionLine(transition: Transition)

  /** One iteration of the `Program::from_str` loop: skip a comment, read
      the state after `+`, `-` or `!`, and parse every other line as a
      transition. */
  function ParseLine(line: string): (r: Result<Line, InvalidProgram>)
    ensures r == Ok(Comment) <==> IsComment(line)
    ensures r.Ok? && r.value.InitialLine? <==>
      !IsComment(line) && line[0] == '+' && ParseState(line[1..]).Ok?
    ensures r.Ok? && r.value.FinalLine? <==>
      !IsComment(line) && line[0] == '-' && ParseState(line[1..]).Ok?
    ensures r.Ok? && r.value.ErrorLine? <==>
      !IsComment(line) && line[0] == '!' && ParseState(line[1..]).Ok?
    ensures r.Ok? && (r.value.InitialLine? || r.value.FinalLine? || r.value.ErrorLine?) ==>
      ParseState(line[1..]) == Ok(r.value.state)
    ensures !IsComment(line) && line[0] in "+-!" ==> (r.Err? <==> ParseState(line[1..]).Err?)
    ensures !IsComment(line) && line[0] !in "+-!" ==>
      (r.Err? <==> ParseTransition(line).Err?) &&
      (r.Ok? ==> r == Ok(TransitionLine(ParseTransition(line).value)))
    ensures r.Err? ==> r.error != MissingInitialState && r.error != MissingFrom
  {
    if IsComment(line) then Ok(Comment)
    else if line[0] == '+' then
      match ParseState(line[1..])
      case Err(e) => Err(e)
      case Ok(s) => Ok(InitialLine(s))
    else if line[0] == '-' then
      match ParseState(line[1..])
      case Err(e) => Err(e)
      case Ok(s) => Ok(FinalLine(s))
    else if line[0] == '!' then
      match ParseState(line[1..])
      case Err(e) => Err(e)
      case Ok(s) => Ok(ErrorLine(s))
    else
      match ParseTransition(line)
      case Err(e) => Err(e)
      case Ok(t) => Ok(TransitionLine(t))
  }

  /** A token `Move::from_str` reads as `m`. */
  function MoveChar(m: Move): char
  {
    match m
    case Right => 'r'
    case Left => 'l'
    case Nothing => 'n'
  }

  /** The text of a transition between one-digit states, as the program
      format writes it: from, to, condition, write and action separated by
      commas. */
  function RuleText(from: nat, to: nat, condition: Segment, write: Segment, action: Move): string
    requires from < 10 && to < 10
  {
    [DigitChar(from)] + [','] + [DigitChar(to)] + [','] + [SegmentChar(condition)] + [','] +
    [SegmentChar(write)] + [','] + [MoveChar(action)]
  }

  /** Such a line splits into its five one-character fields. */
  lemma RuleTextSplits(from: nat, to: nat, condition: Segment, write: Segment, action: Move)
    requires from < 10 && to < 10
    ensures Split(RuleText(from, to, condition, write, action), ',') ==
      [ShowNat(from), ShowNat(to), [SegmentChar(condition)], [SegmentChar(write)], [MoveChar(action)]]
  {
    SplitFiveFields([DigitChar(from)], [DigitChar(to)], [SegmentChar(condition)], [SegmentChar(write)], [MoveChar(action)]);
  }

  /** Such a line is read back as the transition it writes. */
  lemma RuleTextTransition(from: nat, to: nat, condition: Segment, write: Segment, action: Move)
    requires from < 10 && to < 10
    ensures ParseTransition(RuleText(from, to, condition, write, action)) ==
      Ok(Transition(State(from), State(to), condition, write, action))
  {
    RuleTextSplits(from, to, condition, write, action);
    ParseStateRoundTrip(from);
    ParseStateRoundTrip(to);
    SegmentCharRoundTrip(condition);
    SegmentCharRoundTrip(write);
  }

  /** And as a transition line: it starts with a digit, so it is neither a
      comment nor a state declaration. */
  lemma RuleTextParses(from: nat, to: nat, condition: Segment, write: Segment, action: Move)
    requires from < 10 && to < 10
    ensures ParseLine(RuleText(from, to, condition, write, action)) ==
      Ok(TransitionLine(Transition(State(from), State(to), condition, write, action)))
  {
    RuleTextTransition(from, to, condition, write, action);
    assert RuleText(from, to, condition, write, action)[0] == DigitChar(from);
  }

  /** A `+n`, `-n` or `!n` line whose state fits in a `usize` reads as
      the matching declaration. */
  lemma DeclarationLineParses(line: string, n: nat)
    requires n <= UsizeMax && |line| > 0 && line[1..] == ShowNat(n)
    ensures line[0] == '+' ==> ParseLine(line) == Ok(InitialLine(State(n)))
    ensures line[0] == '-' ==> ParseLine(line) == Ok(FinalLine(State(n)))
    ensures line[0] == '!' ==> ParseLine(line) == Ok(ErrorLine(State(n)))
  {
    ParseStateRoundTrip(n);
  }

  /** The four variables `Program::from_str` accumulates. */
  datatype Builder = Builder(
    initialState: Option<State>,
    finalStates: set<State>,
    errorStates: set<State>,
    transitions: map<(State, Segment), Transition>)

  /** The effect of one parsed line on the accumulated variables: a comment
      changes nothing; a declaration replaces the initial state or joins its
      set; a transition is stored under its own `(from, condition)`,
      replacing only what was stored under that key. */
  function Apply(b: Builder, l: Line): (r: Builder)
    ensures l.Comment? ==> r == b
    ensures r.initialState == (if l.InitialLine? then Some(l.state) else b.initialState)
    ensures r.finalStates == (if l.FinalLine? then b.finalStates + {l.state} else b.finalStates)
    ensures r.errorStates == (if l.ErrorLine? then b.errorStates + {l.state} else b.errorStates)
    ensures l.TransitionLine? ==>
      var key := (l.transition.from, l.transition.condition);
      && key in r.transitions && r.transitions[key] == l.transition
      && forall k :: k != key ==>
           (k in r.transitions <==> k in b.transitions) &&
           (k in b.transitions ==> r.transitions[k] == b.transitions[k])
    ensures !l.TransitionLine? ==> r.transitions == b.transitions
    ensures WellKeyed(b.transitions) ==> WellKeyed(r.transitions)
  {
    match l
    case Comment => b
    case InitialLine(s) => b.(initialState := Some(s))
    case FinalLine(s) => b.(finalStates := b.finalStates + {s})
    case ErrorLine(s) => b.(errorStates := b.errorStates + {s})
    case TransitionLine(t) => b.(transitions := b.transitions[(t.from, t.condition) := t])
  }

  /** The variables after the loop has consumed `lines`, or the first line
      error. */
  function Accumulate(lines: seq<string>): (r: Result<Builder, InvalidProgram>)
    ensures r.Ok? ==> WellKeyed(r.value.transitions)
  {
    if lines == [] then Ok(Builder(None, {}, {}, map[]))
    else
      match Accumulate(lines[..|lines| - 1])
      case Err(e) => Err(e)
      case Ok(b) =>
        match ParseLine(lines[|lines| - 1])
        case Err(e) => Err(e)
        case Ok(l) => Ok(Apply(b, l))
  }

  /** `Program::from_str` over the lines of the text. */
  function ParseProgramLines(lines: seq<string>): (r: Result<Program, InvalidProgram>)
    ensures r.Ok? ==> WellKeyed(r.value.transitions)
  {
    match Accumulate(lines)
    case Err(e) => Err(e)
    case Ok(b) =>
      match b.initialState
      case None => Err(MissingInitialState)
      case Some(s) => Ok(Program(s, b.finalStates, b.errorStates, b.transitions))
  }

  /** The loop gets through the text exactly when every line parses. */
  lemma {:induction false} AccumulateOkIff(lines: seq<string>)
    ensures Accumulate(lines).Ok? <==> forall i :: 0 <= i < |lines| ==> ParseLine(lines[i]).Ok?
  {
    if lines != [] {
      var n := |lines| - 1;
      AccumulateOkIff(lines[..n]);
      assert forall j :: 0 <= j < n ==> lines[..n][j] == lines[j];
    }
  }

  /** One more line: the loop either stops at the error it reports or
      applies it. */
  lemma AccumulateStep(lines: seq<string>, i: nat)
    requires i < |lines|
    ensures Accumulate(lines[..i + 1]) ==
      match Accumulate(lines[..i])
      case Err(e) => Err(e)
      case Ok(b) =>
        match ParseLine(lines[i])
        case Err(e) => Err(e)
        case Ok(l) => Ok(Apply(b, l))
  {
    assert lines[..i + 1][..i] == lines[..i];
  }

  /** Once a line has failed, the lines after it are never looked at. */
  lemma {:induction false} AccumulateErrorPersists(lines: seq<string>, i: nat, e: InvalidProgram)
    requires i <= |lines| && Accumulate(lines[..i]) == Err(e)
    ensures Accumulate(lines) == Err(e)
    decreases |lines| - i
  {
    if i < |lines| {
      AccumulateStep(lines, i);
      AccumulateErrorPersists(lines, i + 1, e);
    } else {
      assert lines[..i] == lines;
    }
  }

  /** `Program::from_str`: walks the lines once, updating the four
      variables in place, and stops at the first bad line. */
  method ParseProgram(lines: seq<string>) returns (r: Result<Program, InvalidProgram>)
    ensures r == ParseProgramLines(lines)
  {
    var transitions: map<(State, Segment), Transition> := map[];
    var initialState: Option<State> := None;
    var finalStates: set<State> := {};
    var errorStates: set<State> := {};
    for i := 0 to |lines|
      invariant Accumulate(lines[..i]) == Ok(Builder(initialState, finalStates, errorStates, transitions))
    {
      var line := lines[i];
      AccumulateStep(lines, i);
      if IsComment(line) {
        assert ParseLine(line) == Ok(Comment);
        continue;
      }
      if line[0] == '+' {
        var s := ParseState(line[1..]);
        if s.Err? {
          assert ParseLine(line) == Err(s.error);
          AccumulateErrorPersists(lines, i + 1, s.error);
          return Err(s.error);
        }
        assert ParseLine(line) == Ok(InitialLine(s.value));
        initialState := Some(s.value);
      } else if line[0] == '-' {
        var s := ParseState(line[1..]);
        if s.Err? {
          assert ParseLine(line) == Err(s.error);
          AccumulateErrorPersists(lines, i + 1, s.error);
          return Err(s.error);
        }
        assert ParseLine(line) == Ok(FinalLine(s.value));
        finalStates := finalStates + {s.value};
      } else if line[0] == '!' {
        var s := ParseState(line[1..]);
        if s.Err? {
          assert ParseLine(line) == Err(s.error);
          AccumulateErrorPersists(lines, i + 1, s.error);
          return Err(s.error);
        }
        assert ParseLine(line) == Ok(ErrorLine(s.value));
        errorStates := errorStates + {s.value};
      } else {
        var t := ParseTransition(line);
        if t.Err? {
          assert ParseLine(line) == Err(t.error);
          AccumulateErrorPersists(lines, i + 1, t.error);
          return Err(t.error);
        }
        assert ParseLine(line) == Ok(TransitionLine(t.value));
        transitions := transitions[(t.value.from, t.value.condition) := t.value];
      }
    }
    assert lines[..|lines|] == lines;
    if initialState.None? {
      return Err(MissingInitialState);
    }
    r := Ok(Program(initialState.value, finalStates, errorStates, transitions));
  }
}

/** What the program parser promises, stated over the lines of the text. */
module ProgramFacts {
  import opened Wrappers
  import opened Errors
  import opened Tape
  import opened Programs

  predicate DeclaresInitial(line: string)
  {
    ParseLine(line).Ok? && ParseLine(line).value.InitialLine?
  }

  predicate DeclaresKey(line: string, k: (State, Segment))
  {
    ParseLine(line).Ok? && HasKey(ParseLine(line).value, k)
  }

  /** The first line that fails decides the error; later lines, however
      bad, and a missing `+` line are not reported. */
  lemma FirstBadLineDecides(lines: seq<string>, i: nat)
    requires i < |lines| && ParseLine(lines[i]).Err?
    requires forall j :: 0 <= j < i ==> ParseLine(lines[j]).Ok?
    ensures ParseProgramLines(lines) == Err(ParseLine(lines[i]).error)
  {
    assert forall j :: 0 <= j < i ==> lines[..i][j] == lines[j];
    AccumulateOkIff(lines[..i]);
    AccumulateStep(lines, i);
    AccumulateErrorPersists(lines, i + 1, ParseLine(lines[i]).error);
  }

  /** The variables after applying already parsed lines in order, starting
      from `b`. */
  function ApplyFrom(b: Builder, ls: seq<Line>): Builder
  {
    if ls == [] then b else Apply(ApplyFrom(b, ls[..|ls| - 1]), ls[|ls| - 1])
  }

  /** The same, starting from the loop's initial variables. */
  function ApplyAll(ls: seq<Line>): Builder
  {
    ApplyFrom(Builder(None, {}, {}, map[]), ls)
  }

  /** Applying `x` and then `y` is applying `x + y`. */
  lemma {:induction false} ApplyFromAppend(b: Builder, x: seq<Line>, y: seq<Line>)
    ensures ApplyFrom(b, x + y) == ApplyFrom(ApplyFrom(b, x), y)
    decreases |y|
  {
    if y != [] {
      var n := |y| - 1;
      assert (x + y)[..|x + y| - 1] == x + y[..n];
      ApplyFromAppend(b, x, y[..n]);
    } else {
      assert x + y == x;
    }
  }

  /** The lines of a text that parses line by line. */
  function Parsed(lines: seq<string>): (ls: seq<Line>)
    requires forall i :: 0 <= i < |lines| ==> ParseLine(lines[i]).Ok?
    ensures |ls| == |lines| && forall i :: 0 <= i < |lines| ==> ParseLine(lines[i]) == Ok(ls[i])
  {
    seq(|lines|, i requires 0 <= i < |lines| => ParseLine(lines[i]).value)
  }

  /** When no line fails, the loop's variables are those of the parsed
      lines applied in order. */
  lemma {:induction false} AccumulateParsed(lines: seq<string>)
    requires forall i :: 0 <= i < |lines| ==> ParseLine(lines[i]).Ok?
    ensures Accumulate(lines) == Ok(ApplyAll(Parsed(lines)))
  {
    if lines != [] {
      var n := |lines| - 1;
      assert forall j :: 0 <= j < n ==> lines[..n][j] == lines[j];
      AccumulateParsed(lines[..n]);
      assert Parsed(lines)[..n] == Parsed(lines[..n]);
    }
  }

  /** The same, for a reading `ls` given line by line. */
  lemma AccumulateReads(lines: seq<string>, ls: seq<Line>)
    requires |ls| == |lines| && forall i :: 0 <= i < |lines| ==> ParseLine(lines[i]) == Ok(ls[i])
    ensures Accumulate(lines) == Ok(ApplyAll(ls))
  {
    AccumulateParsed(lines);
    assert Parsed(lines) == ls;
  }

  /** The initial state after applying `ls` is the one of its last
      `InitialLine`. */
  lemma {:induction false} AppliedInitial(ls: seq<Line>)
    ensures ApplyAll(ls).initialState.None? <==> forall i :: 0 <= i < |ls| ==> !ls[i].InitialLine?
    ensures ApplyAll(ls).initialState.Some? ==>
      exists i :: 0 <= i < |ls| && ls[i] == InitialLine(ApplyAll(ls).initialState.value) &&
                  forall j :: i < j < |ls| ==> !ls[j].InitialLine?
  {
    if ls != [] {
      var n := |ls| - 1;
      AppliedInitial(ls[..n]);
      assert forall j :: 0 <= j < n ==> ls[..n][j] == ls[j];
    }
  }

  /** The final and error sets after applying `ls` hold exactly the states
      of its `FinalLine`s and `ErrorLine`s. */
  lemma {:induction false} AppliedSets(ls: seq<Line>)
    ensures forall s :: s in ApplyAll(ls).finalStates <==> FinalLine(s) in ls
    ensures forall s :: s in ApplyAll(ls).errorStates <==> ErrorLine(s) in ls
  {
    if ls != [] {
      var n := |ls| - 1;
      AppliedSets(ls[..n]);
      assert ls == ls[..n] + [ls[n]];
    }
  }

  predicate HasKey(l: Line, k: (State, Segment))
  {
    l.TransitionLine? && (l.transition.from, l.transition.condition) == k
  }

  /** The keys of the table after applying `ls` are those of its
      transition lines. */
  lemma {:induction false} AppliedKeys(ls: seq<Line>)
    ensures forall k :: k in ApplyAll(ls).transitions <==> exists i :: 0 <= i < |ls| && HasKey(ls[i], k)
  {
    if ls != [] {
      var n := |ls| - 1;
      var front := ls[..n];
      AppliedKeys(front);
      assert forall j :: 0 <= j < n ==> front[j] == ls[j];
      var m0, m := ApplyAll(front).transitions, ApplyAll(ls).transitions;
      assert ApplyAll(ls) == Apply(ApplyAll(front), ls[n]);
      forall k
        ensures k in m <==> exists i :: 0 <= i < |ls| && HasKey(ls[i], k)
      {
        if HasKey(ls[n], k) {
          assert k in m;
        } else {
          assert k in m <==> k in m0;
          if k in m0 {
            var i :| 0 <= i < n && HasKey(front[i], k);
            assert HasKey(ls[i], k);
          }
          if exists i :: 0 <= i < |ls| && HasKey(ls[i], k) {
            var i :| 0 <= i < |ls| && HasKey(ls[i], k);
            assert HasKey(front[i], k);
          }
        }
      }
    }
  }

  /** Each entry of the table after applying `ls` comes from the last line
      with its key. */
  lemma {:induction false} AppliedLast(ls: seq<Line>)
    ensures forall k :: k in ApplyAll(ls).transitions ==>
      exists i :: 0 <= i < |ls| && ls[i] == TransitionLine(ApplyAll(ls).transitions[k]) &&
                  forall j :: i < j < |ls| ==> !HasKey(ls[j], k)
  {
    if ls != [] {
      var n := |ls| - 1;
      var front := ls[..n];
      AppliedLast(front);
      assert forall j :: 0 <= j < n ==> front[j] == ls[j];
      assert ApplyAll(ls) == Apply(ApplyAll(front), ls[n]);
      var m0, m := ApplyAll(front).transitions, ApplyAll(ls).transitions;
      forall k | k in m
        ensures exists i :: 0 <= i < |ls| && ls[i] == TransitionLine(m[k]) &&
                            forall j :: i < j < |ls| ==> !HasKey(ls[j], k)
      {
        if HasKey(ls[n], k) {
          assert ls[n] == TransitionLine(m[k]);
        } else {
          assert k in m0 && m[k] == m0[k];
          var i :| 0 <= i < n && front[i] == TransitionLine(m0[k]) &&
            forall j :: i < j < n ==> !HasKey(front[j], k);
          assert ls[i] == TransitionLine(m[k]);
          forall j | i < j < |ls|
            ensures !HasKey(ls[j], k)
          {
            if j < n {
              assert ls[j] == front[j];
            }
          }
        }
      }
    }
  }

  /** The table after applying `ls` holds, under each key, the transition of
      the last line with that key, and no other keys. */
  lemma AppliedTransitions(ls: seq<Line>)
    ensures forall k :: k in ApplyAll(ls).transitions <==> exists i :: 0 <= i < |ls| && HasKey(ls[i], k)
    ensures forall k :: k in ApplyAll(ls).transitions ==>
      exists i :: 0 <= i < |ls| && ls[i] == TransitionLine(ApplyAll(ls).transitions[k]) &&
                  forall j :: i < j < |ls| ==> !HasKey(ls[j], k)
  {
    AppliedKeys(ls);
    AppliedLast(ls);
  }


  /** A text parses exactly when every line parses and some line declares
      the initial state; when every line parses but none does, the error is
      `MissingInitialState`. */
  lemma ParseSucceedsIff(lines: seq<string>)
    ensures ParseProgramLines(lines).Ok? <==>
      (forall i :: 0 <= i < |lines| ==> ParseLine(lines[i]).Ok?) &&
      exists i :: 0 <= i < |lines| && DeclaresInitial(lines[i])
    ensures ((forall i :: 0 <= i < |lines| ==> ParseLine(lines[i]).Ok?) &&
             (forall i :: 0 <= i < |lines| ==> !DeclaresInitial(lines[i]))) ==>
      ParseProgramLines(lines) == Err(MissingInitialState)
  {
    AccumulateOkIff(lines);
    if forall i :: 0 <= i < |lines| ==> ParseLine(lines[i]).Ok? {
      var ls := Parsed(lines);
      AccumulateParsed(lines);
      AppliedInitial(ls);
    }
  }

  /** `+` lines: the last one wins. */
  lemma InitialStateIsLastDeclared(lines: seq<string>, p: Program)
    requires ParseProgramLines(lines) == Ok(p)
    ensures exists i :: 0 <= i < |lines| && ParseLine(lines[i]) == Ok(InitialLine(p.initialState)) &&
                        forall j :: i < j < |lines| ==> !DeclaresInitial(lines[j])
  {
    AccumulateOkIff(lines);
    var ls := Parsed(lines);
    AccumulateParsed(lines);
    AppliedInitial(ls);
    var i :| 0 <= i < |ls| && ls[i] == InitialLine(p.initialState) &&
      forall j :: i < j < |ls| ==> !ls[j].InitialLine?;
    assert ParseLine(lines[i]) == Ok(InitialLine(p.initialState));
  }

  /** `-` lines make up the final states and `!` lines the error states;
      nothing else adds to them. */
  lemma DeclaredFinalAndErrorStates(lines: seq<string>, p: Program)
    requires ParseProgramLines(lines) == Ok(p)
    ensures forall s :: s in p.finalStates <==>
      exists i :: 0 <= i < |lines| && ParseLine(lines[i]) == Ok(FinalLine(s))
    ensures forall s :: s in p.errorStates <==>
      exists i :: 0 <= i < |lines| && ParseLine(lines[i]) == Ok(ErrorLine(s))
  {
    AccumulateOkIff(lines);
    var ls := Parsed(lines);
    AccumulateParsed(lines);
    AppliedSets(ls);
    forall s
      ensures FinalLine(s) in ls <==> exists i :: 0 <= i < |lines| && ParseLine(lines[i]) == Ok(FinalLine(s))
      ensures ErrorLine(s) in ls <==> exists i :: 0 <= i < |lines| && ParseLine(lines[i]) == Ok(ErrorLine(s))
    {
    }
  }

  /** Each entry of the table is keyed by its own `(from, condition)`, the
      keys are exactly those of the transition lines, and a later line with
      the same key overwrites an earlier one. */
  lemma TransitionIsLastForItsKey(lines: seq<string>, p: Program)
    requires ParseProgramLines(lines) == Ok(p)
    ensures WellKeyed(p.transitions)
    ensures forall k :: k in p.transitions <==> exists i :: 0 <= i < |lines| && DeclaresKey(lines[i], k)
    ensures forall k :: k in p.transitions ==>
      exists i :: 0 <= i < |lines| && ParseLine(lines[i]) == Ok(TransitionLine(p.transitions[k])) &&
                  forall j :: i < j < |lines| ==> !DeclaresKey(lines[j], k)
  {
    AccumulateOkIff(lines);
    var ls := Parsed(lines);
    AccumulateParsed(lines);
    AppliedTransitions(ls);
    assert forall i, k :: 0 <= i < |lines| ==> (DeclaresKey(lines[i], k) <==> HasKey(ls[i], k));
  }
}
