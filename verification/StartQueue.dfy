/**
 Task starts, one at a time and in order: `start` and `startQueued` of src/agentHost/AhpAgentRuntime.ts.

 Every start chains a turn of its own behind `startQueueTail`.  The promise a start waits for is settled when every
 turn before its own has been released, whoever released it and in whatever order.
 */
module StartQueue {
  import opened Wrappers

  /** A start that was aborted while waiting releases its turn without ever having run. */
  datatype Phase = Waiting | Running | Finished | Skipped

  /** `entered` lists the starts whose bodies have begun, in the order in which they did. */
  datatype State = State(starts: seq<Phase>, entered: seq<nat>)

  const NEW: State := State([], [])

  predicate Released(p: Phase) {
    p == Finished || p == Skipped
  }

  /** `startQueueTail` as it was when `n` starts had been called: settled once all their turns are released. */
  predicate TailSettled(starts: seq<Phase>, n: nat)
    requires n <= |starts|
  {
    n == 0 || (TailSettled(starts, n - 1) && Released(starts[n - 1]))
  }

  lemma {:induction false} TailMeansAll(starts: seq<Phase>, n: nat)
    requires n <= |starts|
    ensures TailSettled(starts, n) <==> forall i | 0 <= i < n :: Released(starts[i])
    decreases n
  {
    if n == 0 {
    } else {
      TailMeansAll(starts, n - 1);
    }
  }

  datatype Step =
    | DoStart
    | DoEnter(i: nat)
    | DoAbort(i: nat)
    | DoFinish(i: nat)

  predicate CanEnter(s: State, i: nat) {
    i < |s.starts| && s.starts[i] == Waiting && TailSettled(s.starts, i)
  }

  /** An abort ends the wait of its own start only; a body that is running decides itself when it finishes. */
  function Apply(s: State, step: Step): State {
    match step
    case DoStart => s.(starts := s.starts + [Waiting])
    case DoEnter(i) =>
      if CanEnter(s, i) then State(s.starts[i := Running], s.entered + [i]) else s
    case DoAbort(i) =>
      if i < |s.starts| && s.starts[i] == Waiting then s.(starts := s.starts[i := Skipped]) else s
    case DoFinish(i) =>
      if i < |s.starts| && s.starts[i] == Running then s.(starts := s.starts[i := Finished]) else s
  }

  function Run(s: State, steps: seq<Step>): State
    decreases |steps|
  {
    if steps == [] then s else Run(Apply(s, steps[0]), steps[1..])
  }

  /** Everything before a start that has begun is over; those that began did so in call order. */
  ghost predicate Inv(s: State) {
    && (forall i, j | 0 <= i < j < |s.starts| && (s.starts[j] == Running || s.starts[j] == Finished) ::
          Released(s.starts[i]))
    && (forall a | 0 <= a < |s.entered| ::
          s.entered[a] < |s.starts| && (s.starts[s.entered[a]] == Running || s.starts[s.entered[a]] == Finished))
    && (forall a, b | 0 <= a < b < |s.entered| :: s.entered[a] < s.entered[b])
    && (forall i | 0 <= i < |s.starts| && (s.starts[i] == Running || s.starts[i] == Finished) :: i in s.entered)
  }

  lemma NothingBeyondWaiting(s: State, i: nat)
    requires Inv(s) && i < |s.starts| && s.starts[i] == Waiting
    ensures forall j | i <= j < |s.starts| :: s.starts[j] == Waiting || s.starts[j] == Skipped
  {
    assert !Released(s.starts[i]);
  }

  lemma EnterKeeps(s: State, i: nat)
    requires Inv(s) && CanEnter(s, i)
    ensures Inv(State(s.starts[i := Running], s.entered + [i]))
  {
    TailMeansAll(s.starts, i);
    var s' := State(s.starts[i := Running], s.entered + [i]);
    NothingBeyondWaiting(s, i);
    assert forall a | 0 <= a < |s.entered| :: s.entered[a] < i;
    assert s'.entered[|s.entered|] == i;
    forall j | 0 <= j < |s'.starts| && (s'.starts[j] == Running || s'.starts[j] == Finished) ensures j in s'.entered {
      if j != i {
        assert j in s.entered;
      }
    }
  }

  lemma OthersKeep(s: State, i: nat, next: Phase)
    requires Inv(s) && i < |s.starts|
    requires (s.starts[i] == Waiting && next == Skipped) || (s.starts[i] == Running && next == Finished)
    ensures Inv(s.(starts := s.starts[i := next]))
  {
  }

  lemma ApplyKeeps(s: State, step: Step)
    requires Inv(s)
    ensures Inv(Apply(s, step))
  {
    match step
    case DoEnter(i) => if CanEnter(s, i) { EnterKeeps(s, i); }
    case DoAbort(i) => if i < |s.starts| && s.starts[i] == Waiting { OthersKeep(s, i, Skipped); }
    case DoFinish(i) => if i < |s.starts| && s.starts[i] == Running { OthersKeep(s, i, Finished); }
    case DoStart =>
  }

  lemma {:induction false} RunKeeps(s: State, steps: seq<Step>)
    requires Inv(s)
    ensures Inv(Run(s, steps))
    decreases |steps|
  {
    hide Inv, Apply;
    if steps == [] {
    } else {
      ApplyKeeps(s, steps[0]);
      RunKeeps(Apply(s, steps[0]), steps[1..]);
    }
  }

  /** At most one start body runs at any time. */
  lemma OneAtATime(steps: seq<Step>, i: nat, j: nat)
    requires i < |Run(NEW, steps).starts| && j < |Run(NEW, steps).starts|
    requires Run(NEW, steps).starts[i] == Running && Run(NEW, steps).starts[j] == Running
    ensures i == j
  {
    RunKeeps(NEW, steps);
    hide Run;
  }

  /** Bodies begin in call order, each at most once; an aborted start lets no later one overtake an earlier one. */
  lemma EntersInCallOrder(steps: seq<Step>, a: nat, b: nat)
    requires a < b < |Run(NEW, steps).entered|
    ensures Run(NEW, steps).entered[a] < Run(NEW, steps).entered[b]
  {
    RunKeeps(NEW, steps);
    hide Run;
  }

  /** A waiting start gets its turn exactly when all earlier starts are over. */
  lemma TurnComesIffEarlierOver(s: State, i: nat)
    requires i < |s.starts| && s.starts[i] == Waiting
    ensures Apply(s, DoEnter(i)).starts[i] == Running <==> forall j | 0 <= j < i :: Released(s.starts[j])
  {
    TailMeansAll(s.starts, i);
  }

  /** Some start can always go on while any is unfinished: the first one that is not over runs or may enter. */
  lemma {:induction false} NeverStuck(s: State, n: nat)
    requires n <= |s.starts| && exists i :: 0 <= i < n && !Released(s.starts[i])
    ensures exists i: nat :: i < n && (s.starts[i] == Running || CanEnter(s, i))
    decreases n
  {
    if TailSettled(s.starts, n - 1) {
      TailMeansAll(s.starts, n - 1);
      assert !Released(s.starts[n - 1]);
      assert s.starts[n - 1] == Running || CanEnter(s, n - 1);
    } else {
      TailMeansAll(s.starts, n - 1);
      NeverStuck(s, n - 1);
    }
  }

  /** What each step comes to: a new start waits, an admitted one runs, and what is over stays over. */
  ghost predicate StepRight(s: State, step: Step, s': State) {
    match step
    case DoStart => s'.starts == s.starts + [Waiting] && s'.entered == s.entered
    case DoEnter(i) =>
      if i < |s.starts| && s.starts[i] == Waiting && (forall j | 0 <= j < i :: Released(s.starts[j]))
      then s'.starts == s.starts[i := Running] && s'.entered == s.entered + [i]
      else s' == s
    case DoAbort(i) =>
      if i < |s.starts| && s.starts[i] == Waiting then s'.starts == s.starts[i := Skipped] && s'.entered == s.entered else s' == s
    case DoFinish(i) =>
      if i < |s.starts| && s.starts[i] == Running then s'.starts == s.starts[i := Finished] && s'.entered == s.entered else s' == s
  }

  lemma StepMeans(s: State, step: Step)
    ensures StepRight(s, step, Apply(s, step))
  {
    if step.DoEnter? && step.i < |s.starts| { TailMeansAll(s.starts, step.i); }
  }

  /** Serving the starts that wait, in call order, ends them all: each gets its turn and runs. */
  lemma {:induction false} EveryoneIsServed(s: State, i: nat)
    requires i <= |s.starts| && (forall j | 0 <= j < i :: Released(s.starts[j]))
    requires forall j | i <= j < |s.starts| :: s.starts[j] == Waiting || s.starts[j] == Skipped
    ensures var s' := Served(s, i);
      && |s'.starts| == |s.starts|
      && forall j | 0 <= j < |s.starts| ::
           s'.starts[j] == if j >= i && s.starts[j] == Waiting then Finished else s.starts[j]
    decreases |s.starts| - i
  {
    if i == |s.starts| {
    } else {
      TailMeansAll(s.starts, i);
      EveryoneIsServed(ServedOne(s, i), i + 1);
    }
  }

  function ServedOne(s: State, i: nat): State {
    Apply(Apply(s, DoEnter(i)), DoFinish(i))
  }

  function Served(s: State, i: nat): State
    requires i <= |s.starts|
    decreases |s.starts| - i
  {
    if i == |s.starts| then s else Served(ServedOne(s, i), i + 1)
  }

  /** The part of the runtime object that queues starts. */
  class Starts {
    var phases: seq<Phase>
    ghost var entered: seq<nat>

    ghost function View(): State
      reads this
    {
      State(phases, entered)
    }

    ghost predicate Valid()
      reads this
    {
      Inv(View())
    }

    constructor ()
      ensures Valid() && View() == NEW
    {
      phases, entered := [], [];
    }

    /** Whatever happens next: one body at most runs, and bodies have begun in call order. */
    method Perform(step: Step)
      requires Valid()
      modifies this
      ensures Valid() && View() == Apply(old(View()), step)
      ensures StepRight(old(View()), step, View())
      ensures forall i, j | 0 <= i < |phases| && 0 <= j < |phases| && phases[i] == Running && phases[j] == Running :: i == j
      ensures forall a, b | 0 <= a < b < |entered| :: entered[a] < entered[b]
    {
      ApplyKeeps(View(), step);
      StepMeans(View(), step);
      match step {
        case DoStart => var _ := Call();
        case DoEnter(i) => var _ := Enter(i);
        case DoAbort(i) => Abort(i);
        case DoFinish(i) => Finish(i);
      }
    }

    /** `start`: takes the next turn. */
    method Call() returns (turn: nat)
      modifies this
      ensures turn == |old(phases)| && View() == Apply(old(View()), DoStart)
    {
      turn := |phases|;
      phases := phases + [Waiting];
    }

    /** The awaited predecessor: the chain of turns is walked from the oldest. */
    method PredecessorSettled(i: nat) returns (settled: bool)
      requires i <= |phases|
      ensures settled == TailSettled(phases, i)
    {
      TailMeansAll(phases, i);
      var k := 0;
      while k < i && (phases[k] == Finished || phases[k] == Skipped)
        invariant 0 <= k <= i
        invariant forall j | 0 <= j < k :: Released(phases[j])
      {
        k := k + 1;
      }
      settled := k == i;
    }

    method Enter(i: nat) returns (entering: bool)
      modifies this
      ensures View() == Apply(old(View()), DoEnter(i)) && entering == old(CanEnter(View(), i))
    {
      entering := false;
      if i < |phases| && phases[i] == Waiting {
        entering := PredecessorSettled(i);
        if entering {
          phases, entered := phases[i := Running], entered + [i];
        }
      }
    }

    method Abort(i: nat)
      modifies this
      ensures View() == Apply(old(View()), DoAbort(i))
    {
      if i < |phases| && phases[i] == Waiting {
        phases := phases[i := Skipped];
      }
    }

    method Finish(i: nat)
      modifies this
      ensures View() == Apply(old(View()), DoFinish(i))
    {
      if i < |phases| && phases[i] == Running {
        phases := phases[i := Finished];
      }
    }
  }
}
