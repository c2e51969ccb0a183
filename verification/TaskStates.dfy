/** The task status machine, as the server mutates it and as the client copies it. */
module TaskStates {
  import opened Wrappers

  datatype Status =
    | Queued | ContextReady | AwaitingPlanApproval | Planned | Executing
    | AwaitingScopeDecision | AwaitingCommandDecision | AwaitingStepReview
    | Validating | Repairing | AwaitingValidationDecision | Validated
    | ReadyForReview | Promoting | Succeeded | Failed | Aborted

  datatype Event = Event(from: Status, to: Status, reason: string)

  datatype Record = Record(status: Status, events: seq<Event>)

  /** The server's table. */
  function Transitions(from: Status): set<Status> {
    match from
    case Queued => {ContextReady, Failed, Aborted}
    case ContextReady => {AwaitingPlanApproval, Failed, Aborted}
    case AwaitingPlanApproval => {Planned, ContextReady, Failed, Aborted}
    case Planned => {Executing, Failed, Aborted}
    case Executing =>
      {Validating, AwaitingScopeDecision, AwaitingStepReview, AwaitingCommandDecision, Failed, Aborted}
    case AwaitingScopeDecision => {Executing, Failed, Aborted}
    case AwaitingCommandDecision => {Executing, Failed, Aborted}
    case AwaitingStepReview => {Executing, Failed, Aborted}
    case Validating => {Validated, Repairing, AwaitingValidationDecision, Failed, Aborted}
    case Repairing => {Executing, Validating, Failed, Aborted}
    case AwaitingValidationDecision => {Validated, Failed, Aborted}
    case Validated => {ReadyForReview, Failed, Aborted}
    case ReadyForReview => {Promoting, Aborted, Failed}
    case Promoting => {Succeeded, Failed, Aborted}
    case Succeeded => {}
    case Failed => {}
    case Aborted => {}
  }

  /** The client's table. */
  function ClientTransitions(from: Status): set<Status> {
    match from
    case Queued => {ContextReady, Failed, Aborted}
    case ContextReady => {AwaitingPlanApproval, Failed, Aborted}
    case AwaitingPlanApproval => {Planned, ContextReady, Failed, Aborted}
    case Planned => {Executing, Failed, Aborted}
    case Executing =>
      {Validating, AwaitingScopeDecision, AwaitingStepReview, AwaitingCommandDecision, Failed, Aborted}
    case AwaitingScopeDecision => {Executing, Failed, Aborted}
    case AwaitingStepReview => {Executing, Failed, Aborted}
    case AwaitingCommandDecision => {Executing, Failed, Aborted}
    case Validating => {Validated, Repairing, AwaitingValidationDecision, Failed, Aborted}
    case Repairing => {Executing, Validating, Failed, Aborted}
    case AwaitingValidationDecision => {Validated, Failed, Aborted}
    case Validated => {ReadyForReview, Failed, Aborted}
    case ReadyForReview => {Promoting, Failed, Aborted}
    case Promoting => {Succeeded, Failed, Aborted}
    case Succeeded => {}
    case Failed => {}
    case Aborted => {}
  }

  /** The edges in one view: the path to success, its detours and ways back, and from any unfinished
      status the two ways out. */
  lemma EdgeIff(from: Status, to: Status)
    ensures to in Transitions(from) <==>
            || (to in {Failed, Aborted} && from !in {Succeeded, Failed, Aborted})
            || (from == Queued && to == ContextReady)
            || (from == ContextReady && to == AwaitingPlanApproval)
            || (from == AwaitingPlanApproval && to == Planned)
            || (from == Planned && to == Executing)
            || (from == Executing && to == Validating)
            || (from == Validating && to == Validated)
            || (from == Validated && to == ReadyForReview)
            || (from == ReadyForReview && to == Promoting)
            || (from == Promoting && to == Succeeded)
            || (from == AwaitingPlanApproval && to == ContextReady)
            || (from == Executing && to in {AwaitingScopeDecision, AwaitingCommandDecision, AwaitingStepReview})
            || (to == Executing
                && from in {AwaitingScopeDecision, AwaitingCommandDecision, AwaitingStepReview, Repairing})
            || (from == Validating && to in {Repairing, AwaitingValidationDecision})
            || (from == Repairing && to == Validating)
            || (from == AwaitingValidationDecision && to == Validated)
  {
  }

  const PATH: seq<Status> := [
    Queued, ContextReady, AwaitingPlanApproval, Planned, Executing,
    Validating, Validated, ReadyForReview, Promoting, Succeeded]

  function TransitionTask(record: Record, to: Status, reason: string): Option<Record> {
    if to !in ClientTransitions(record.status) then None
    else Some(Record(to, record.events + [Event(record.status, to, reason)]))
  }

  function EndOf(events: seq<Event>): Status {
    if events == [] then Queued else events[|events| - 1].to
  }

  /** A connected chain of legal edges from the first status. */
  ghost predicate Chain(events: seq<Event>) {
    forall i | 0 <= i < |events| :: events[i].from == EndOf(events[..i]) && events[i].to in Transitions(events[i].from)
  }

  ghost predicate Consistent(record: Record) {
    Chain(record.events) && EndOf(record.events) == record.status
  }

  lemma ChainSnoc(events: seq<Event>, event: Event)
    requires Chain(events)
    ensures Chain(events + [event]) <==> event.from == EndOf(events) && event.to in Transitions(event.from)
  {
    var all := events + [event];
    assert all[..|events|] == events && all[|events|] == event;
    assert forall i | 0 <= i < |events| :: all[i] == events[i] && all[..i] == events[..i];
  }

  class TaskRecord {
    var status: Status
    var events: seq<Event>

    ghost function Value(): Record
      reads this
    {
      Record(status, events)
    }

    constructor ()
      ensures status == Queued && events == [] && Consistent(Value())
    {
      status, events := Queued, [];
    }

    /** `transition`: false stands for the error, which changes nothing. */
    method Transition(to: Status, reason: string) returns (legal: bool)
      requires Consistent(Value())
      modifies this
      ensures Consistent(Value())
      ensures legal <==> to in Transitions(old(status))
      ensures !legal ==> Value() == old(Value())
      ensures legal ==> status == to && events == old(events) + [Event(old(status), to, reason)]
      ensures TransitionTask(old(Value()), to, reason) == if legal then Some(Value()) else None
    {
      TablesAgree(status);
      if to !in Transitions(status) {
        return false;
      }
      ChainSnoc(events, Event(status, to, reason));
      events := events + [Event(status, to, reason)];
      status := to;
      legal := true;
    }
  }

  lemma TablesAgree(from: Status)
    ensures Transitions(from) == ClientTransitions(from)
  {
  }

  // ---- what every finished task went through ----

  /** How far along a status is; failed and aborted tasks are nowhere. */
  function Stage(status: Status): int {
    match status
    case Queued => 0
    case ContextReady => 1
    case AwaitingPlanApproval => 2
    case Planned => 3
    case Executing | AwaitingScopeDecision | AwaitingCommandDecision | AwaitingStepReview => 4
    case Validating | Repairing | AwaitingValidationDecision => 5
    case Validated => 6
    case ReadyForReview => 7
    case Promoting => 8
    case Succeeded => 9
    case Failed | Aborted => -1
  }

  /** The one status through which a stage is entered from the stage before. */
  function Milestone(stage: nat): (m: Status)
    requires stage <= 9
    ensures Stage(m) == stage
  {
    match stage
    case 0 => Queued
    case 1 => ContextReady
    case 2 => AwaitingPlanApproval
    case 3 => Planned
    case 4 => Executing
    case 5 => Validating
    case 6 => Validated
    case 7 => ReadyForReview
    case 8 => Promoting
    case 9 => Succeeded
  }

  /** An edge climbs at most one stage, and then into that stage's milestone. */
  lemma EdgesClimb(from: Status, to: Status)
    requires to in Transitions(from)
    ensures 0 <= Stage(from) <= 9 && Stage(to) <= 9
    ensures Stage(to) > Stage(from) ==> Stage(to) == Stage(from) + 1 && to == Milestone(Stage(to))
    ensures Stage(from) >= 3 && Stage(to) >= 0 ==> Stage(to) >= 4
  {
  }

  lemma StageBounds(s: Status)
    ensures -1 <= Stage(s) <= 9 && (Stage(s) == -1 <==> s in {Failed, Aborted}) && Stage(Planned) == 3
  {
  }

  lemma ChainPrefix(events: seq<Event>, n: nat)
    requires Chain(events) && n <= |events|
    ensures Chain(events[..n])
    ensures n > 0 ==> events[n - 1].from == EndOf(events[..n - 1]) && EndOf(events[..n]) == events[n - 1].to
                      && events[n - 1].to in Transitions(events[n - 1].from)
  {
    hide Transitions;
    assert forall i | 0 <= i < n :: events[..n][i] == events[i] && events[..n][..i] == events[..i];
  }

  /** A log at stage k or beyond passed that stage's milestone. */
  lemma {:induction false} PassedMilestone(events: seq<Event>, k: nat) returns (n: nat)
    requires Chain(events) && 0 < k <= Stage(EndOf(events))
    ensures 0 < n <= |events| && events[n - 1].to == Milestone(k) && Stage(EndOf(events[..n - 1])) == k - 1
  {
    hide Transitions, Stage, Milestone, Chain;
    if events == [] {
      assert Stage(Queued) == 0 by { QueuedFirst(); }
    }
    var last := |events| - 1;
    ChainPrefix(events, last);
    ChainPrefix(events, |events|);
    assert events[..|events|] == events;
    EdgesClimb(events[last].from, events[last].to);
    if Stage(EndOf(events[..last])) >= k {
      n := PassedMilestone(events[..last], k);
      assert events[..last][..n - 1] == events[..n - 1] && events[..last][n - 1] == events[n - 1];
    } else {
      n := |events|;
    }
  }

  lemma QueuedFirst()
    ensures Stage(Queued) == 0
  {
  }

  /** The milestones up to stage k are events of the log, in order. */
  ghost predicate Passed(events: seq<Event>, marks: seq<nat>) {
    && |marks| <= 9
    && (forall i | 0 <= i < |marks| :: marks[i] < |events| && events[marks[i]].to == Milestone(i + 1))
    && (forall i, j | 0 <= i < j < |marks| :: marks[i] < marks[j])
  }

  lemma {:induction false} MilestonesInOrder(events: seq<Event>, k: nat) returns (marks: seq<nat>)
    requires Chain(events) && k <= Stage(EndOf(events))
    ensures |marks| == k && Passed(events, marks)
    decreases k
  {
    hide Stage, Milestone, Chain, Transitions, EndOf;
    StageBounds(EndOf(events));
    if k == 0 {
      marks := [];
    } else {
      var n := PassedMilestone(events, k);
      ChainPrefix(events, n - 1);
      var before := MilestonesInOrder(events[..n - 1], k - 1);
      assert forall i | 0 <= i < |before| :: events[..n - 1][before[i]] == events[before[i]];
      marks := before + [n - 1];
    }
  }

  /** A task that succeeded went through every milestone, in order. */
  lemma SucceededPassedAll(record: Record)
    requires Consistent(record) && record.status == Succeeded
    ensures exists marks: seq<nat> :: PassedPath(record.events, marks)
  {
    assert Stage(Succeeded) == 9;
    var marks := MilestonesInOrder(record.events, 9);
    forall i | 0 <= i < 9 ensures record.events[marks[i]].to == PATH[i + 1] {
      MilestoneOfPath(i + 1);
    }
    assert PassedPath(record.events, marks);
  }

  /** The log has an event into each status of the path, in the path's order. */
  ghost predicate PassedPath(events: seq<Event>, marks: seq<nat>) {
    && |marks| == 9
    && (forall i | 0 <= i < 9 :: marks[i] < |events| && events[marks[i]].to == PATH[i + 1])
    && (forall i, j | 0 <= i < j < 9 :: marks[i] < marks[j])
  }

  lemma MilestoneOfPath(k: nat)
    requires k <= 9
    ensures Milestone(k) == PATH[k]
  {
  }

  /** Once planned, a task never returns to planning. */
  lemma NeverPlansAgain(events: seq<Event>, i: nat, j: nat)
    requires Chain(events) && i < j < |events| && events[i].to == Planned
    ensures events[j].to !in {Queued, ContextReady, AwaitingPlanApproval, Planned}
  {
    hide Chain;
    BeyondPlanned(events, i, j);
  }

  lemma {:induction false} BeyondPlanned(events: seq<Event>, i: nat, j: nat)
    requires Chain(events) && i < j < |events| && events[i].to == Planned
    ensures Stage(events[j].to) >= 4 || events[j].to in {Failed, Aborted}
    decreases j
  {
    hide Stage, Chain, Transitions;
    ChainPrefix(events, j);
    ChainPrefix(events, j + 1);
    EdgesClimb(events[j].from, events[j].to);
    StageBounds(events[j].to);
    if j > i + 1 {
      BeyondPlanned(events, i, j - 1);
      StageBounds(events[j - 1].to);
    }
  }
}
