/** The execution engine of src/machine.rs: look up `(state, current)`,
    write, move, change state, and stop on a final state, an error state or
    a missing transition. */
module Machine {
  import opened Wrappers
  import opened Tape
  import opened Programs

  /** Why a run stopped without reaching a final state (src/error.rs). */
  datatype ExecutionError =
    | UndefinedBehavior(state: State, segment: Segment)
    | ReachedError(state: State)

  /** The loop's variables: the current state and the tape. */
  datatype Config = Config(state: State, tape: TapeValue)

  /** Where the loop stands: still going at `config`, or returned `result`
      leaving `tape` behind. */
  datatype Status =
    | Running(config: Config)
    | Halted(result: Result<State, ExecutionError>, tape: TapeValue)

  /** A status the loop can be in: the tape invariant holds, and a result
      is one the loop can return. */
  ghost predicate Sound(p: Program, r: Status)
  {
    match r
    case Running(c) => c.tape.Valid()
    case Halted(res, t) =>
      && t.Valid()
      && (res.Ok? ==> res.value in p.finalStates)
      && (res.Err? && res.error.ReachedError? ==>
            res.error.state in p.errorStates && res.error.state !in p.finalStates)
      && (res.Err? && res.error.UndefinedBehavior? ==>
            t.Current() == res.error.segment && (res.error.state, res.error.segment) !in p.transitions)
  }

  /** How far a move carries the cursor along the infinite tape. */
  function Shift(m: Move): int
  {
    match m
    case Left => -1
    case Right => 1
    case Nothing => 0
  }

  /** The tape after a transition's write and move, in that order: seen
      from the new cursor, the written segment sits where the cursor was,
      and every other cell is the old tape shifted by the move. */
  function Perform(t: TapeValue, tr: Transition): (r: TapeValue)
    requires t.Valid()
    ensures r.Valid()
    ensures forall k ::
      Look(r, k) == (if k + Shift(tr.action) == 0 then tr.write else Look(t, k + Shift(tr.action)))
  {
    var written := Written(t, tr.write);
    var moved :=
      match tr.action
      case Left => MovedLeft(written)
      case Right => MovedRight(written)
      case Nothing => written;
    assert forall k ::
      Look(moved, k) == (if k + Shift(tr.action) == 0 then tr.write else Look(t, k + Shift(tr.action)))
    by {
      forall k
        ensures Look(moved, k) ==
          if k + Shift(tr.action) == 0 then tr.write else Look(t, k + Shift(tr.action))
      {
        WriteChangesOnlyCursor(t, tr.write, k + Shift(tr.action));
        if tr.action == Left {
          LeftShiftsView(written, k);
        } else if tr.action == Right {
          RightShiftsView(written, k);
        }
      }
    }
    moved
  }

  /** One iteration of the `execute` loop. With no transition for
      `(state, current)` it stops with exactly that pair and leaves the tape
      alone; otherwise it writes, moves, takes the new state, and checks the
      final states before the error states. */
  function Step(p: Program, c: Config): (r: Status)
    requires c.tape.Valid()
    ensures Sound(p, r)
    ensures (c.state, c.tape.Current()) !in p.transitions ==>
      r == Halted(Err(UndefinedBehavior(c.state, c.tape.Current())), c.tape)
    ensures (c.state, c.tape.Current()) in p.transitions ==>
      var tr := p.transitions[(c.state, c.tape.Current())];
      && (r.Running? ==> r.config == Config(tr.to, Perform(c.tape, tr)))
      && (r.Halted? ==> r.tape == Perform(c.tape, tr) && r.result != Err(UndefinedBehavior(c.state, c.tape.Current())))
      && (r == Halted(Ok(tr.to), Perform(c.tape, tr)) <==> tr.to in p.finalStates)
      && (r.Running? <==> tr.to !in p.finalStates && tr.to !in p.errorStates)
      && (tr.to !in p.finalStates && tr.to in p.errorStates ==>
            r == Halted(Err(ReachedError(tr.to)), Perform(c.tape, tr)))
  {
    var current := c.tape.Current();
    if (c.state, current) !in p.transitions then
      Halted(Err(UndefinedBehavior(c.state, current)), c.tape)
    else
      var tr := p.transitions[(c.state, current)];
      var tape := Perform(c.tape, tr);
      if tr.to in p.finalStates then Halted(Ok(tr.to), tape)
      else if tr.to in p.errorStates then Halted(Err(ReachedError(tr.to)), tape)
      else Running(Config(tr.to, tape))
  }

  /** At most `fuel` iterations of the loop from `c`. */
  function Run(p: Program, c: Config, fuel: nat): (r: Status)
    requires c.tape.Valid()
    ensures Sound(p, r)
    ensures r.Running? ==> fuel == 0 || Step(p, c).Running?
    decreases fuel
  {
    if fuel == 0 then Running(c)
    else
      match Step(p, c)
      case Halted(res, t) => Halted(res, t)
      case Running(next) => Run(p, next, fuel - 1)
  }

  /** `execute`: the run of `p` on `tape`, from `p`'s initial state. */
  function Execution(p: Program, tape: TapeValue, fuel: nat): (r: Status)
    requires tape.Valid()
    ensures Sound(p, r)
  {
    Run(p, Config(p.initialState, tape), fuel)
  }

  /** A run that has stopped stays stopped with the same outcome, however
      much more fuel it is given. */
  lemma {:induction false} MoreFuelSameOutcome(p: Program, c: Config, fuel: nat, more: nat)
    requires c.tape.Valid() && fuel <= more
    requires Run(p, c, fuel).Halted?
    ensures Run(p, c, more) == Run(p, c, fuel)
    decreases fuel
  {
    match Step(p, c)
    case Halted(_, _) =>
    case Running(next) =>
      MoreFuelSameOutcome(p, next, fuel - 1, more - 1);
  }

  /** Running `a` iterations and then `b` more is running `a + b`. */
  lemma {:induction false} RunSplits(p: Program, c: Config, a: nat, b: nat)
    requires c.tape.Valid()
    ensures Run(p, c, a + b) ==
      match Run(p, c, a)
      case Halted(res, t) => Halted(res, t)
      case Running(mid) => Run(p, mid, b)
    decreases a
  {
    if a > 0 {
      match Step(p, c)
      case Halted(_, _) =>
      case Running(next) =>
        RunSplits(p, next, a - 1, b);
    }
  }

  /** The final and error checks come only after a step: even a machine
      started in a final state must first take a transition, and stops with
      `UndefinedBehavior` when it has none. */
  lemma StartingInFinalStateStillSteps(p: Program, tape: TapeValue, fuel: nat)
    requires tape.Valid() && fuel > 0
    requires p.initialState in p.finalStates
    ensures Execution(p, tape, fuel).Halted? && Execution(p, tape, fuel).result.Ok? ==>
      (p.initialState, tape.Current()) in p.transitions
    ensures (p.initialState, tape.Current()) !in p.transitions ==>
      Execution(p, tape, fuel) == Halted(Err(UndefinedBehavior(p.initialState, tape.Current())), tape)
  {
  }

  /** `TuringMachine::execute`, given at most `fuel` iterations: `None`
      means the fuel ran out while the machine was still running. */
  method Execute(program: Program, tape: VecTape, fuel: nat) returns (r: Option<Result<State, ExecutionError>>)
    requires tape.Valid()
    modifies tape
    ensures tape.Valid()
    ensures var run := Execution(program, old(tape.Value()), fuel);
      && (r.None? <==> run.Running?)
      && (r.None? ==> tape.Value() == run.config.tape)
      && (r.Some? ==> r.value == run.result && tape.Value() == run.tape)
  {
    var state := program.initialState;
    var remaining := fuel;
    while remaining > 0
      invariant tape.Valid()
      invariant Execution(program, old(tape.Value()), fuel) == Run(program, Config(state, tape.Value()), remaining)
      decreases remaining
    {
      var current := tape.Current();
      if (state, current) !in program.transitions {
        return Some(Err(UndefinedBehavior(state, current)));
      }
      var transition := program.transitions[(state, current)];
      ghost var before := Config(state, tape.Value());
      tape.Put(transition.write);
      match transition.action {
        case Left => tape.Left();
        case Right => tape.Right();
        case Nothing =>
      }
      state := transition.to;
      assert tape.Value() == Perform(before.tape, transition);
      if state in program.finalStates {
        return Some(Ok(state));
      }
      if state in program.errorStates {
        return Some(Err(ReachedError(state)));
      }
      remaining := remaining - 1;
    }
    return None;
  }
}
