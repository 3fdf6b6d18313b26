/** The state machine of one task record: src/domain/taskReducer.ts.  None stands for a rejected transition. */
module TaskReducer {
  import opened Wrappers

  type Id = nat

  datatype Status =
    | AcceptedTask
    | StartingAgent
    | Running
    | NeedsInput
    | Recovering
    | Cancelling
    | Completed
    | Failed
    | Cancelled
    | TimedOut

  predicate Terminal(status: Status) {
    status in {Completed, Failed, Cancelled, TimedOut}
  }

  datatype TaskEvent =
    | StartRequested
    | AgentStarted
    | Reported
    | InputRequired(input: Id)
    | InputAnswered(input: Id, answer: Id)
    | RecoveryStarted
    | CancelRequested
    | CancelConfirmed
    | Finished
    | FailedEvent
    | TimedOutEvent

  datatype Record = Record(owner: Id, leaseKey: Id, status: Status, eventSeq: nat, pending: Option<Id>, answered: map<Id, Id>)

  function Move(r: Record, status: Status): Record {
    r.(status := status, eventSeq := r.eventSeq + 1)
  }

  function MoveFrom(r: Record, allowed: set<Status>, status: Status): Option<Record> {
    if r.status in allowed then Some(Move(r, status)) else None
  }

  function Drop(r: Record): Record { r.(pending := None) }

  function Reduce(r: Record, e: TaskEvent): (next: Option<Record>) {
    if Terminal(r.status) then Some(r)
    else
      match e
      case StartRequested => MoveFrom(r, {AcceptedTask}, StartingAgent)
      case AgentStarted =>
        MoveFrom(r, {StartingAgent, Recovering},
                 if r.status == Recovering && r.pending.Some? then NeedsInput else Running)
      case Reported => MoveFrom(r, {Running, NeedsInput, Recovering, Cancelling}, r.status)
      case InputRequired(input) => MoveFrom(r.(pending := Some(input)), {Running, NeedsInput}, NeedsInput)
      case InputAnswered(input, answer) =>
        if input in r.answered && r.answered[input] == answer then Some(r)
        else if r.pending != Some(input) && (r.status != NeedsInput || r.pending.None?) then None
        else
          var answered := r.(answered := r.answered[input := answer]);
          if r.pending == Some(input) then MoveFrom(Drop(answered), {NeedsInput}, Running)
          else MoveFrom(answered, {NeedsInput}, NeedsInput)
      case RecoveryStarted => MoveFrom(r, {Running, NeedsInput}, Recovering)
      case CancelRequested => if r.status == Cancelling then Some(r) else Some(Move(Drop(r), Cancelling))
      case CancelConfirmed => MoveFrom(r, {Cancelling}, Cancelled)
      case Finished => MoveFrom(Drop(r), {Running, NeedsInput}, Completed)
      case FailedEvent => Some(Move(Drop(r), Failed))
      case TimedOutEvent => Some(Move(Drop(r), TimedOut))
  }

  /** Terminal states absorb; the sequence number moves by one exactly when the record changes. */
  lemma ReduceIsMonotone(r: Record, e: TaskEvent)
    ensures Terminal(r.status) ==> Reduce(r, e) == Some(r)
    ensures Reduce(r, e).Some? ==>
      var next := Reduce(r, e).value;
      && next.owner == r.owner && next.leaseKey == r.leaseKey
      && (next.eventSeq == r.eventSeq <==> next == r) && r.eventSeq <= next.eventSeq <= r.eventSeq + 1
      && (forall i | i in r.answered :: i in next.answered)
  {
  }

  /** How each state of a task is reached from another one, and that nothing else reaches it. */
  lemma StatesAreReachedBy(r: Record, e: TaskEvent)
    requires !Terminal(r.status)
    ensures var moves := Reduce(r, e).Some? && Reduce(r, e).value != r;
      var next := if moves then Reduce(r, e).value else r;
      && (next.status == Completed <==> e == Finished && r.status in {Running, NeedsInput})
      && (next.status == Failed <==> e == FailedEvent)
      && (next.status == TimedOut <==> e == TimedOutEvent)
      && (next.status == Cancelled <==> e == CancelConfirmed && r.status == Cancelling)
      && (moves && next.status == Cancelling <==> (e == CancelRequested && r.status != Cancelling) || (e == Reported && r.status == Cancelling))
      && (next.status == StartingAgent && next != r <==> e == StartRequested && r.status == AcceptedTask)
      && (next.status == Recovering && next != r <==>
            (e == RecoveryStarted && r.status in {Running, NeedsInput}) || (e == Reported && r.status == Recovering))
      && (e.InputRequired? && r.status in {Running, NeedsInput} ==> next.status == NeedsInput && next.pending == Some(e.input))
      && (e == AgentStarted && r.status in {StartingAgent, Recovering} ==>
            next.status == if r.status == Recovering && r.pending.Some? then NeedsInput else Running)
      && (e.InputAnswered? && r.status == NeedsInput && r.pending == Some(e.input)
          && !(e.input in r.answered && r.answered[e.input] == e.answer) ==>
            next.status == Running && next.pending.None? && next.answered == r.answered[e.input := e.answer])
      && (Terminal(next.status) && next.status != Cancelled ==> next.pending.None?)
      && (e == Reported ==> next.status == r.status && next.pending == r.pending && next.answered == r.answered)
  {
  }

  function ReduceAll(r: Record, events: seq<TaskEvent>): Record
    decreases |events|
  {
    if events == [] then r
    else
      var next := Reduce(r, events[0]);
      ReduceAll(if next.Some? then next.value else r, events[1..])
  }

  /** Over a whole history the sequence number never falls, and after the first terminal state nothing changes. */
  lemma {:induction false} HistoryIsMonotone(r: Record, events: seq<TaskEvent>)
    ensures var last := ReduceAll(r, events);
      r.eventSeq <= last.eventSeq <= r.eventSeq + |events| && (Terminal(r.status) ==> last == r)
    decreases |events|
  {
    hide Reduce;
    if events == [] {
    } else {
      ReduceIsMonotone(r, events[0]);
      var next := Reduce(r, events[0]);
      HistoryIsMonotone(if next.Some? then next.value else r, events[1..]);
    }
  }

  /** Anything that asks for input is resolved by the time the task ends. */
  lemma {:induction false} PendingMeansWaiting(r: Record, events: seq<TaskEvent>)
    requires r.pending.Some? ==> r.status in {NeedsInput, Recovering}
    ensures var last := ReduceAll(r, events); last.pending.Some? ==> last.status in {NeedsInput, Recovering}
    decreases |events|
  {
    if events == [] {
    } else {
      var next := Reduce(r, events[0]);
      PendingMeansWaiting(if next.Some? then next.value else r, events[1..]);
    }
  }
}
