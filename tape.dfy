/** The tape of src/tape.rs: the three-valued alphabet, the cursor over a
    growable window of cells, parsing a tape from text and printing it. */
module Tape {
  import opened Wrappers
  import opened Errors

  /** One cell of the tape. */
  datatype Segment = Zero | One | Empty

  /** `Segment::from_str`: exactly the four tokens "1", "0", "_" and " " are
      segments; every other string is rejected. */
  function ParseSegment(s: string): (r: Result<Segment, InvalidProgram>)
    ensures r == Ok(One) <==> s == "1"
    ensures r == Ok(Zero) <==> s == "0"
    ensures r == Ok(Empty) <==> s == "_" || s == " "
    ensures r.Err? ==> r.error == InvalidSegment
  {
    if s == "1" then Ok(One)
    else if s == "0" then Ok(Zero)
    else if s == "_" || s == " " then Ok(Empty)
    else Err(InvalidSegment)
  }

  /** The character `Display` writes for a segment. */
  function SegmentChar(g: Segment): char
  {
    match g
    case One => '1'
    case Zero => '0'
    case Empty => '_'
  }

  /** The printed character of a segment parses back to that segment. */
  lemma SegmentCharRoundTrip(g: Segment)
    ensures ParseSegment([SegmentChar(g)]) == Ok(g)
  {
  }

  /** A character that makes the text parser move its cursor. */
  predicate IsMark(c: char)
  {
    c == '1' || c == '0'
  }

  // ---------------------------------------------------------------------
  // The abstract value of a tape and the effect of each tape operation.
  // ---------------------------------------------------------------------

  /** The materialized window of cells and the cursor into it. */
  datatype TapeValue = TapeValue(inner: seq<Segment>, position: nat)
  {
    /** The tape invariant that `VecTape::new` asserts. */
    predicate Valid()
    {
      position < |inner|
    }

    /** The cell under the cursor (`current`). */
    function Current(): Segment
      requires Valid()
    {
      inner[position]
    }
  }

  /** The tape after `right`: the cursor advances and one blank is appended
      exactly when it steps past the last materialized cell. */
  function MovedRight(t: TapeValue): (r: TapeValue)
    requires t.Valid()
    ensures r.Valid()
    ensures r.position == t.position + 1
    ensures t.inner <= r.inner
    ensures |r.inner| == (if t.position + 1 == |t.inner| then |t.inner| + 1 else |t.inner|)
    ensures |r.inner| > |t.inner| ==> r.inner[|t.inner|] == Empty
  {
    var p := t.position + 1;
    if p == |t.inner| then TapeValue(t.inner + [Empty], p) else TapeValue(t.inner, p)
  }

  /** The tape after `left`: at the left edge one blank is prepended and the
      cursor stays at 0 (so it now reads that blank); elsewhere the cursor
      steps back over unchanged cells. */
  function MovedLeft(t: TapeValue): (r: TapeValue)
    requires t.Valid()
    ensures r.Valid()
    ensures t.position == 0 ==>
      r.position == 0 && |r.inner| == |t.inner| + 1 && r.inner[1..] == t.inner && r.Current() == Empty
    ensures t.position > 0 ==> r.position == t.position - 1 && r.inner == t.inner
  {
    if t.position == 0 then TapeValue([Empty] + t.inner, 0) else TapeValue(t.inner, t.position - 1)
  }

  /** The tape after `put(g)`: only the cell under the cursor changes, and it
      now holds `g`. */
  function Written(t: TapeValue, g: Segment): (r: TapeValue)
    requires t.Valid()
    ensures r.Valid() && r.position == t.position && |r.inner| == |t.inner|
    ensures r.Current() == g
    ensures forall i :: 0 <= i < |t.inner| && i != t.position ==> r.inner[i] == t.inner[i]
  {
    TapeValue(t.inner[t.position := g], t.position)
  }

  /** The logically infinite tape seen from the cursor: the cell `k` steps to
      the right of it (to the left for negative `k`); every cell outside the
      materialized window is blank. */
  function Look(t: TapeValue, k: int): Segment
  {
    var i := t.position as int + k;
    if 0 <= i < |t.inner| then t.inner[i] else Empty
  }

  /** `right` moves the cursor one cell right on the infinite tape. */
  lemma RightShiftsView(t: TapeValue, k: int)
    requires t.Valid()
    ensures Look(MovedRight(t), k) == Look(t, k + 1)
  {
  }

  /** `left` moves the cursor one cell left on the infinite tape, also when it
      has to materialize a new cell to do so. */
  lemma LeftShiftsView(t: TapeValue, k: int)
    requires t.Valid()
    ensures Look(MovedLeft(t), k) == Look(t, k - 1)
  {
    var r := MovedLeft(t);
    if t.position == 0 {
      var i := k;
      if 0 <= i < |r.inner| && i > 0 {
        assert r.inner[i] == t.inner[i - 1];
      }
    }
  }

  /** `put` changes the infinite tape at the cursor and nowhere else. */
  lemma WriteChangesOnlyCursor(t: TapeValue, g: Segment, k: int)
    requires t.Valid()
    ensures Look(Written(t, g), k) == if k == 0 then g else Look(t, k)
  {
  }

  // ---------------------------------------------------------------------
  // Text form of a tape: `from_str` and `Display`.
  // ---------------------------------------------------------------------

  /** The cells `from_str` reads, one per character; any character that is
      not a segment token rejects the whole text. */
  function ParseCells(s: string): (r: Result<seq<Segment>, InvalidProgram>)
    ensures r.Ok? <==> forall i :: 0 <= i < |s| ==> ParseSegment([s[i]]).Ok?
    ensures r.Ok? ==> |r.value| == |s| && forall i :: 0 <= i < |s| ==> ParseSegment([s[i]]) == Ok(r.value[i])
    ensures r.Err? ==> r.error == InvalidSegment
  {
    if s == [] then Ok([])
    else
      match ParseSegment([s[0]])
      case Err(e) => Err(e)
      case Ok(g) =>
        match ParseCells(s[1..])
        case Err(e) =>
          assert forall i :: 0 <= i < |s| - 1 ==> s[1..][i] == s[i + 1];
          Err(e)
        case Ok(rest) => Ok([g] + rest)
  }

  /** The first index at or after `from` holding a `1` or `0`, or 0 when there
      is none. */
  function FirstMark(s: string, from: nat): (p: nat)
    requires from >= 1
    decreases |s| - from
    ensures p == 0 <==> forall j :: from <= j < |s| ==> !IsMark(s[j])
    ensures p != 0 ==> from <= p < |s| && IsMark(s[p]) && forall j :: from <= j < p ==> !IsMark(s[j])
  {
    if from >= |s| then 0
    else if IsMark(s[from]) then from
    else FirstMark(s, from + 1)
  }

  /** The cursor `from_str` chooses. The parser only records a mark's index
      while its cursor is still 0, and recording index 0 leaves it 0, so a mark
      at index 0 never sticks: the cursor is the first mark at index 1 or
      later, else 0. */
  function StartCursor(s: string): nat
  {
    FirstMark(s, 1)
  }

  /** `VecTape::from_str` as a value. */
  function ParseTape(s: string): (r: Result<TapeValue, InvalidProgram>)
    ensures r.Ok? <==> forall i :: 0 <= i < |s| ==> ParseSegment([s[i]]).Ok?
    ensures r.Err? ==> r.error == InvalidSegment
    ensures r.Ok? ==> |r.value.inner| == |s|
    ensures r.Ok? ==> forall i :: 0 <= i < |s| ==> ParseSegment([s[i]]) == Ok(r.value.inner[i])
    ensures r.Ok? && r.value.position == 0 ==> forall j :: 1 <= j < |s| ==> !IsMark(s[j])
    ensures r.Ok? && r.value.position != 0 ==>
      1 <= r.value.position < |s| && IsMark(s[r.value.position]) &&
      forall j :: 1 <= j < r.value.position ==> !IsMark(s[j])
  {
    match ParseCells(s)
    case Err(e) => Err(e)
    case Ok(cells) => Ok(TapeValue(cells, StartCursor(s)))
  }

  /** A text whose first character is not a mark puts the cursor on its
      first mark, as the tape format describes. */
  lemma LeadingBlankStartsAtFirstMark(s: string, p: nat)
    requires |s| > 0 && !IsMark(s[0])
    requires p < |s| && IsMark(s[p]) && forall j :: 0 <= j < p ==> !IsMark(s[j])
    ensures StartCursor(s) == p
  {
  }

  /** A mark at index 0 is skipped: "1_1" starts at index 2 and "10" at
      index 1, not at their first mark. */
  lemma MarkAtIndexZeroDoesNotStick()
    ensures ParseTape("1_1") == Ok(TapeValue([One, Empty, One], 2))
    ensures ParseTape("10") == Ok(TapeValue([One, Zero], 1))
  {
    var a := ParseTape("1_1");
    assert ParseSegment(["1_1"[0]]) == Ok(One) && ParseSegment(["1_1"[1]]) == Ok(Empty);
    assert ParseSegment(["1_1"[2]]) == Ok(One);
    assert a.value.inner == [One, Empty, One];
    assert StartCursor("1_1") == 2;
    var b := ParseTape("10");
    assert ParseSegment(["10"[0]]) == Ok(One) && ParseSegment(["10"[1]]) == Ok(Zero);
    assert b.value.inner == [One, Zero];
    assert StartCursor("10") == 1;
  }

  /** The empty text parses to an empty tape, which breaks the invariant
      that `VecTape::new` would have asserted. */
  lemma EmptyTextGivesInvalidTape()
    ensures ParseTape("") == Ok(TapeValue([], 0))
    ensures !ParseTape("").value.Valid()
  {
  }

  /** `Display`: one character per cell, in order, without a cursor mark. */
  function Render(cells: seq<Segment>): (s: string)
    ensures |s| == |cells|
    ensures forall i :: 0 <= i < |cells| ==> s[i] == SegmentChar(cells[i])
  {
    if cells == [] then "" else [SegmentChar(cells[0])] + Render(cells[1..])
  }

  /** Printing a tape and parsing the text back gives the same cells; the
      cursor is not part of the round trip. */
  lemma RenderRoundTrip(cells: seq<Segment>)
    ensures ParseTape(Render(cells)).Ok?
    ensures ParseTape(Render(cells)).value.inner == cells
  {
    var s := Render(cells);
    forall i | 0 <= i < |s|
      ensures ParseSegment([s[i]]) == Ok(cells[i])
    {
      SegmentCharRoundTrip(cells[i]);
    }
  }

  /** Parsing then printing gives back the text, up to writing every space
      as `_`. */
  lemma ParseRenderRoundTrip(s: string)
    requires ParseTape(s).Ok?
    ensures |Render(ParseTape(s).value.inner)| == |s|
    ensures forall i :: 0 <= i < |s| ==>
      Render(ParseTape(s).value.inner)[i] == (if s[i] == ' ' then '_' else s[i])
  {
    var cells := ParseTape(s).value.inner;
    forall i | 0 <= i < |s|
      ensures Render(cells)[i] == (if s[i] == ' ' then '_' else s[i])
    {
      assert ParseSegment([s[i]]) == Ok(cells[i]);
      assert [s[i]] == "1" || [s[i]] == "0" || [s[i]] == "_" || [s[i]] == " ";
    }
  }

  // ---------------------------------------------------------------------
  // The tape object. `VecTape` and `VecDequeTape` have the same code over
  // two containers; this class stands for both.
  // ---------------------------------------------------------------------

  class VecTape {
    var inner: seq<Segment>
    var position: nat

    /** The abstract value of this tape. */
    ghost function Value(): TapeValue
      reads this
    {
      TapeValue(inner, position)
    }

    ghost predicate Valid()
      reads this
    {
      Value().Valid()
    }

    /** `VecTape::new`: the cursor must lie inside the given cells. */
    constructor (inner: seq<Segment>, position: nat)
      requires position < |inner|
      ensures Valid() && Value() == TapeValue(inner, position)
    {
      this.inner := inner;
      this.position := position;
    }

    /** The struct literal `from_str` ends with: it does not check the
        cursor. */
    constructor FromParts(inner: seq<Segment>, position: nat)
      ensures Value() == TapeValue(inner, position)
    {
      this.inner := inner;
      this.position := position;
    }

    /** `VecTape::from_str`: scans the text once, pushing one cell per
        character and recording the cursor. */
    static method FromStr(s: string) returns (r: Result<VecTape, InvalidProgram>)
      ensures r.Ok? <==> ParseTape(s).Ok?
      ensures r.Err? ==> r.error == InvalidSegment
      ensures r.Ok? ==> fresh(r.value) && r.value.Value() == ParseTape(s).value
    {
      var cells: seq<Segment> := [];
      var cursor: nat := 0;
      for idx := 0 to |s|
        invariant |cells| == idx
        invariant forall i :: 0 <= i < idx ==> ParseSegment([s[i]]) == Ok(cells[i])
        invariant cursor == 0 ==> forall j :: 1 <= j < idx ==> !IsMark(s[j])
        invariant cursor != 0 ==>
          1 <= cursor < idx && IsMark(s[cursor]) && forall j :: 1 <= j < cursor ==> !IsMark(s[j])
      {
        var part := s[idx];
        if part == '1' {
          cells := cells + [One];
          if cursor == 0 {
            cursor := idx;
          }
        } else if part == '0' {
          cells := cells + [Zero];
          if cursor == 0 {
            cursor := idx;
          }
        } else if part == '_' || part == ' ' {
          cells := cells + [Empty];
        } else {
          assert ParseSegment([s[idx]]).Err?;
          return Err(InvalidSegment);
        }
      }
      var expected := ParseTape(s).value;
      assert cells == expected.inner;
      var tape := new VecTape.FromParts(cells, cursor);
      r := Ok(tape);
    }

    /** `right`. */
    method Right()
      requires Valid()
      modifies this
      ensures Valid() && Value() == MovedRight(old(Value()))
    {
      position := position + 1;
      if position == |inner| {
        inner := inner + [Empty];
      }
    }

    /** `left`. */
    method Left()
      requires Valid()
      modifies this
      ensures Valid() && Value() == MovedLeft(old(Value()))
    {
      if position == 0 {
        inner := [Empty] + inner;
      } else {
        position := position - 1;
      }
    }

    /** `put`. */
    method Put(segment: Segment)
      requires Valid()
      modifies this
      ensures Valid() && Value() == Written(old(Value()), segment)
    {
      inner := inner[position := segment];
    }

    /** `current`: the cell of the infinite tape under the cursor. */
    function Current(): (g: Segment)
      reads this
      requires Valid()
      ensures g == Look(Value(), 0)
    {
      inner[position]
    }

    /** `Display`: the cells as text, which reads back as the same cells. */
    function Display(): (s: string)
      reads this
      ensures ParseTape(s).Ok? && ParseTape(s).value.inner == inner
    {
      RenderRoundTrip(inner);
      Render(inner)
    }
  }
}
