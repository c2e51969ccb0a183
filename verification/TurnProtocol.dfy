/** One chat thread's detached turns, held-open gates, saved history and saved ledger, as a state
    machine whose steps are the code sections that run between two awaits. */
module TurnProtocol {
  import opened ControllerPhases
  import opened TodoLedgers
  import opened Wrappers

  type History = seq<string>

  /** The two gates a running turn waits at share one mechanism: a stored gate and a future. */
  datatype Hold = EditReview | CommandApproval

  datatype GateKind = Held(hold: Hold) | ModeChoice | Clarification(resumeEdit: bool)

  /** A stored gate. `id` numbers every gate ever raised on the thread. */
  datatype Gate = Gate(kind: GateKind, id: nat)

  /** `Cancelled` is a future that timed out or whose turn was stopped. */
  datatype Future = Waiting | Decided | Cancelled

  datatype Waiter = Waiter(gate: nat, future: Future)

  datatype Request = Message(text: string) | ModeDecision(mode: string) | ClarifyAnswer(answer: string)

  type Ledger = seq<TodoItem>

  /** A running loop: its phase, its own conversation list and its own ledger. */
  datatype Loop = Loop(phase: Phase, live: History, ledger: Ledger)

  /** Where a turn's task is suspended. */
  datatype Point =
    | Created(request: Request)
    | InLoop(loop: Loop)
    | AtGate(hold: Hold, gate: nat, loop: Loop)
    | AwaitingTask

  datatype Task = Task(at: Point, cancelled: bool)

  datatype Config = Config(taskSubsystem: bool, orchestrator: bool, strip: string -> string)

  datatype State = State(
    slot: Option<nat>,           // _active_turns
    turns: map<nat, Task>,       // tasks that have not finished
    waiters: map<Hold, Waiter>,  // _pending_edit, _pending_command
    cache: Option<History>,      // _histories
    gate: Option<Gate>,          // stored gate
    store: History,              // stored history
    todos: Option<Ledger>,       // stored ledger
    nextTurn: nat, nextGate: nat,
    epoch: nat,                  // first gate id of this process
    accepted: seq<nat>,          // gate of each accepted decision
    dispatched: seq<nat>)        // gate of each dispatched mode choice

  datatype Outcome = Answer | Submit | ProposeMode | Clarify

  /** What a turn's next section does, as far as the model, the tools and failures decide it. */
  datatype Choice =
    | Think(entries: History, rewrite: Rewrite)
    | Ask(hold: Hold, entries: History)
    | Complete(outcome: Outcome, entries: History)

  /** For a section whose course is settled already. */
  const GO: Choice := Think([], Refused)

  datatype Action =
    | Post(request: Request)
    | Run(turn: nat, choice: Choice)
    | Fail(turn: nat, cleared: bool)   // an exception, in a first section before or after it clears the gate
    | Decide(hold: Hold)
    | Expire(hold: Hold)
    | Stop
    | Restart

  function Init(): State {
    State(None, map[], map[], None, None, [], None, 0, 0, 0, [], [])
  }

  // ---- the steps ----

  /** The route guard and `launch_turn`: refused while a turn is registered. */
  function DoPost(s: State, request: Request): State {
    if s.slot.Some? then s
    else
      s.(slot := Some(s.nextTurn), turns := s.turns[s.nextTurn := Task(Created(request), false)],
         nextTurn := s.nextTurn + 1)
  }

  /** `_run_turn`'s finally: the turn is over and gives the slot back. */
  function Finish(s: State, id: nat): State {
    s.(turns := s.turns - {id}, slot := None)
  }

  function Seed(s: State): History {
    if s.cache.Some? then s.cache.value else s.store
  }

  function Enter(s: State, id: nat, phase: Phase, live: History): State {
    s.(turns := s.turns[id := Task(InLoop(Loop(phase, live, Loaded(s.todos))), false)], cache := Some(Seed(s)))
  }

  function BeginMessage(s: State, id: nat, text: string): State {
    var t := s.(gate := None);
    Enter(t, id, DECIDE, if Seed(t) == [] then [] else Seed(t) + [text])
  }

  function BeginMode(config: Config, s: State, id: nat, mode: string): State {
    if s.gate.None? || s.gate.value.kind != ModeChoice then Finish(s, id)
    else if (mode == "create_task" || mode == "resume") && !config.taskSubsystem then Finish(s, id)
    else
      var t := s.(gate := None, dispatched := s.dispatched + [s.gate.value.id]);
      if mode == "edit" then (if config.orchestrator then Enter(t, id, EDIT, Seed(t)) else Finish(t, id))
      else if mode == "explain" then Enter(t, id, EXPLAIN, Seed(t) + ["explain"])
      else if mode == "create_task" && config.orchestrator then
        t.(turns := t.turns[id := Task(AwaitingTask, false)], cache := Some(Seed(t)))
      else Finish(t, id)
  }

  /** The phase an answered question resumes in: an editing loop goes on editing, any other decides anew. */
  function ResumePhase(resumeEdit: bool): Phase {
    if resumeEdit then EDIT else DECIDE
  }

  function BeginClarify(config: Config, s: State, id: nat, answer: string): State {
    if s.gate.None? || !s.gate.value.kind.Clarification? || config.strip(answer) == "" then Finish(s, id)
    else
      Enter(s.(gate := None), id, ResumePhase(s.gate.value.kind.resumeEdit), Seed(s) + [config.strip(answer)])
  }

  function Begin(config: Config, s: State, id: nat, request: Request): State {
    match request
    case Message(text) => BeginMessage(s, id, text)
    case ModeDecision(mode) => BeginMode(config, s, id, mode)
    case ClarifyAnswer(answer) => BeginClarify(config, s, id, answer)
  }

  /** The gate that a proposal or a question presents. */
  function Presented(s: State, outcome: Outcome, phase: Phase): State {
    match outcome
    case ProposeMode => s.(gate := Some(Gate(ModeChoice, s.nextGate)), nextGate := s.nextGate + 1)
    case Clarify => s.(gate := Some(Gate(Clarification(phase == EDIT), s.nextGate)), nextGate := s.nextGate + 1)
    case _ => s
  }

  /** Normal end of a loop: history into cache and store, the ledger kept unless the request is over,
      then the outcome's gate, then the slot. */
  function EndLoop(s: State, id: nat, loop: Loop, outcome: Outcome): State {
    var saved := s.(cache := Some(loop.live), store := loop.live);
    var settled := saved.(todos := if outcome == Answer || outcome == Submit then None else Kept(loop.ledger));
    Finish(Presented(settled, outcome, loop.phase), id)
  }

  /** What the loop's own checks let through: modes are proposed while deciding, and an editing loop
      submits only once no item is open. Running out of budget answers in any phase. */
  predicate Ends(loop: Loop, outcome: Outcome) {
    && (outcome == ProposeMode ==> loop.phase == DECIDE)
    && (outcome == Submit ==> loop.phase == EDIT && Pending(loop.ledger) == [])
  }

  /** An edit is reviewed while editing; a command is approved in any phase but deciding. */
  predicate Asks(phase: Phase, hold: Hold) {
    match hold
    case EditReview => phase == EDIT
    case CommandApproval => phase != DECIDE
  }

  function LoopStep(s: State, id: nat, loop: Loop, choice: Choice): State {
    match choice
    case Think(entries, rewrite) =>
      var next := loop.(live := loop.live + entries);
      if rewrite.Replaced? && rewrite.items != [] then
        s.(turns := s.turns[id := Task(InLoop(next.(ledger := rewrite.items)), false)], todos := Kept(rewrite.items))
      else s.(turns := s.turns[id := Task(InLoop(next), false)])
    case Complete(outcome, entries) =>
      if Ends(loop, outcome) then EndLoop(s, id, loop.(live := loop.live + entries), outcome) else s
    case Ask(hold, entries) =>
      if !Asks(loop.phase, hold) then s
      else
        s.(gate := Some(Gate(Held(hold), s.nextGate)), nextGate := s.nextGate + 1,
           waiters := s.waiters[hold := Waiter(s.nextGate, Waiting)],
           turns := s.turns[id := Task(AtGate(hold, s.nextGate, loop.(live := loop.live + entries)), false)])
  }

  /** The callback's finally: the waiter is popped and the stored gate cleared. */
  function LeaveGate(s: State, hold: Hold): State {
    s.(waiters := s.waiters - {hold}, gate := None)
  }

  /** A cancellation unwinding: a non-empty partial history and the ledger are saved, the slot given back. */
  function Unwind(s: State, id: nat, loop: Loop): State {
    var t := if loop.live == [] then s else s.(cache := Some(loop.live), store := loop.live);
    Finish(t.(todos := Kept(loop.ledger)), id)
  }

  function DoRun(config: Config, s: State, id: nat, choice: Choice): State {
    if id !in s.turns then s
    else
      var task := s.turns[id];
      match task.at
      case Created(request) =>
        // cancelled before its first section, the task ends without ever reaching the finally
        if task.cancelled then s.(turns := s.turns - {id}) else Begin(config, s, id, request)
      case InLoop(loop) =>
        if task.cancelled then Unwind(s, id, loop) else LoopStep(s, id, loop, choice)
      case AtGate(hold, gate, loop) =>
        if hold in s.waiters && s.waiters[hold].future == Waiting then s
        else if task.cancelled then Unwind(LeaveGate(s, hold), id, loop)
        else
          var t := LeaveGate(s, hold);
          t.(turns := t.turns[id := Task(InLoop(loop), false)])
      case AwaitingTask =>
        if task.cancelled || choice.Complete? then Finish(s, id) else s
  }

  /** `_run_turn` after an exception: logged, and the slot given back. */
  function DoFail(s: State, id: nat, cleared: bool): State {
    if id !in s.turns || s.turns[id].cancelled || s.turns[id].at.AtGate? then s
    else Finish(if s.turns[id].at.Created? && cleared then s.(gate := None) else s, id)
  }

  function Fire(s: State, hold: Hold, future: Future): State
    requires hold in s.waiters
  {
    s.(waiters := s.waiters[hold := s.waiters[hold].(future := future)])
  }

  /** `resolve_edit` and `resolve_command`: fire the live future once, or clear an orphaned gate. */
  function DoDecide(s: State, hold: Hold): State {
    if hold in s.waiters && s.waiters[hold].future == Waiting then
      Fire(s, hold, Decided).(accepted := s.accepted + [s.waiters[hold].gate])
    else if s.gate.Some? && s.gate.value.kind == Held(hold) then s.(gate := None)
    else s
  }

  function CancelFuture(s: State, hold: Hold): State {
    if hold in s.waiters && s.waiters[hold].future == Waiting then
      Fire(s, hold, Cancelled)
    else s
  }

  function DoStop(s: State): State {
    if s.slot.None? || s.slot.value !in s.turns then s
    else
      var task := s.turns[s.slot.value];
      var t := if task.at.AtGate? then CancelFuture(s, task.at.hold) else s;
      t.(turns := t.turns[s.slot.value := task.(cancelled := true)])
  }

  /** Everything in memory is lost; what was stored stays. */
  function DoRestart(s: State): State {
    s.(slot := None, turns := map[], waiters := map[], cache := None, epoch := s.nextGate)
  }

  function Step(config: Config, s: State, action: Action): State {
    match action
    case Post(request) => DoPost(s, request)
    case Run(turn, choice) => DoRun(config, s, turn, choice)
    case Fail(turn, cleared) => DoFail(s, turn, cleared)
    case Decide(hold) => DoDecide(s, hold)
    case Expire(hold) => CancelFuture(s, hold)
    case Stop => DoStop(s)
    case Restart => DoRestart(s)
  }

  function After(config: Config, s: State, actions: seq<Action>): State {
    if actions == [] then s
    else Step(config, After(config, s, actions[..|actions| - 1]), actions[|actions| - 1])
  }

  // ---- the invariant ----

  ghost predicate NoRepeats(ids: seq<nat>) {
    forall i, j | 0 <= i < j < |ids| :: ids[i] != ids[j]
  }

  /** Unfinished turns are registered, so there is at most one. */
  ghost predicate Registered(s: State) {
    forall id | id in s.turns :: s.slot == Some(id) && id < s.nextTurn
  }

  /** Each waiter belongs to the turn suspended at its gate, and the other way round. */
  ghost predicate WaitersMatch(s: State) {
    && (forall hold | hold in s.waiters ::
          exists id :: id in s.turns && IsAt(s.turns[id].at, hold, s.waiters[hold].gate))
    && (forall id | id in s.turns && s.turns[id].at.AtGate? ::
          && s.turns[id].at.hold in s.waiters && s.waiters[s.turns[id].at.hold].gate == s.turns[id].at.gate
          && (s.turns[id].cancelled ==> s.waiters[s.turns[id].at.hold].future != Waiting))
  }

  predicate IsAt(at: Point, hold: Hold, gate: nat) {
    at.AtGate? && at.hold == hold && at.gate == gate
  }

  /** A stored edit or command gate has its waiter, unless an earlier process raised it. */
  ghost predicate GatesAnswerable(s: State) {
    && (s.gate.Some? && s.gate.value.kind.Held? ==>
          || s.gate.value.id < s.epoch
          || (s.gate.value.kind.hold in s.waiters && s.waiters[s.gate.value.kind.hold].gate == s.gate.value.id))
    && (forall id | id in s.turns && (s.turns[id].at.InLoop? || s.turns[id].at.AwaitingTask?) :: s.gate.None?)
    && (forall id | id in s.turns && s.turns[id].at.AtGate? ::
          s.gate.None? || s.gate.value == Gate(Held(s.turns[id].at.hold), s.turns[id].at.gate))
  }

  /** Gate ids are fresh, and each is accepted or dispatched at most once. */
  ghost predicate OncePerGate(s: State) {
    && s.epoch <= s.nextGate
    && (s.gate.Some? ==> s.gate.value.id < s.nextGate)
    && (forall hold | hold in s.waiters :: s.epoch <= s.waiters[hold].gate < s.nextGate)
    && (forall i | 0 <= i < |s.accepted| :: s.accepted[i] < s.nextGate)
    && (forall i | 0 <= i < |s.dispatched| :: s.dispatched[i] < s.nextGate)
    && NoRepeats(s.accepted) && NoRepeats(s.dispatched)
    && (forall hold | hold in s.waiters && s.waiters[hold].future == Waiting :: s.waiters[hold].gate !in s.accepted)
    && (s.gate.Some? && s.gate.value.kind == ModeChoice ==> s.gate.value.id !in s.dispatched)
  }

  predicate HasLoop(at: Point) {
    at.InLoop? || at.AtGate?
  }

  /** Cache and store agree, and a loop extends the stored history and has the stored ledger. */
  ghost predicate LoopsAgree(s: State) {
    && (s.cache.Some? ==> s.cache.value == s.store)
    && s.todos != Some([])
    && (forall id | id in s.turns && HasLoop(s.turns[id].at) ::
          s.store <= s.turns[id].at.loop.live && s.todos == Kept(s.turns[id].at.loop.ledger))
  }

  ghost predicate Inv(s: State) {
    Registered(s) && WaitersMatch(s) && GatesAnswerable(s) && OncePerGate(s) && LoopsAgree(s)
  }

  lemma {:induction false} StepKeeps(config: Config, s: State, action: Action)
    requires Inv(s)
    ensures Inv(Step(config, s, action))
    ensures s.store <= Step(config, s, action).store
  {
    match action {
      case Post(request) => PostKeeps(s, request);
      case Run(turn, choice) => RunKeeps(config, s, turn, choice);
      case Fail(turn, cleared) => FailKeeps(s, turn, cleared);
      case Decide(hold) => DecideKeeps(s, hold);
      case Expire(hold) => CancelKeeps(s, hold);
      case Stop => StopKeeps(s);
      case Restart =>
    }
  }

  lemma PostKeeps(s: State, request: Request)
    requires Inv(s)
    ensures Inv(DoPost(s, request)) && DoPost(s, request).store == s.store
  {
    if s.slot.None? {
      var t := DoPost(s, request);
      assert s.turns.Keys == {} by { assert forall id | id in s.turns :: s.slot == Some(id); }
      assert forall hold | hold in s.waiters :: false;
    }
  }

  lemma NoOtherTurn(s: State, id: nat)
    requires Registered(s) && id in s.turns
    ensures forall other | other in s.turns :: other == id
  {
  }

  lemma FinishKeeps(s: State, id: nat)
    requires Inv(s) && id in s.turns && !s.turns[id].at.AtGate?
    ensures Inv(Finish(s, id))
  {
    NoOtherTurn(s, id);
  }

  lemma UnwindKeeps(s: State, id: nat)
    requires Inv(s) && id in s.turns && s.turns[id].at.InLoop?
    ensures var t := Unwind(s, id, s.turns[id].at.loop); Inv(t) && s.store <= t.store
  {
    NoOtherTurn(s, id);
  }

  lemma RunKeeps(config: Config, s: State, id: nat, choice: Choice)
    requires Inv(s)
    ensures Inv(DoRun(config, s, id, choice)) && s.store <= DoRun(config, s, id, choice).store
  {
    if id in s.turns {
      hide Inv, Begin, LoopStep, LeaveGate, Unwind;
      var task := s.turns[id];
      match task.at {
        case Created(request) => if !task.cancelled { BeginKeeps(config, s, id, request); }
        case InLoop(loop) =>
          if task.cancelled { UnwindKeeps(s, id); }
          else { LoopKeeps(s, id, choice); }
        case AtGate(hold, gate, loop) => LeaveKeeps(s, id);
        case AwaitingTask => FinishKeeps(s, id);
      }
    }
  }

  lemma EnterKeeps(s: State, id: nat, phase: Phase, live: History)
    requires Inv(s) && id in s.turns && s.turns[id].at.Created? && s.gate.None? && s.store <= live
    ensures Inv(Enter(s, id, phase, live))
    ensures Inv(s.(turns := s.turns[id := Task(AwaitingTask, false)], cache := Some(Seed(s))))
  {
    NoOtherTurn(s, id);
    assert forall hold | hold in s.waiters :: false;
  }

  lemma ClearKeeps(s: State, id: nat)
    requires Inv(s) && id in s.turns && s.turns[id].at.Created?
    ensures Inv(s.(gate := None))
    ensures s.gate.Some? && s.gate.value.kind == ModeChoice ==>
              Inv(s.(gate := None, dispatched := s.dispatched + [s.gate.value.id]))
  {
    NoOtherTurn(s, id);
  }

  lemma BeginModeKeeps(config: Config, s: State, id: nat, mode: string)
    requires Inv(s) && id in s.turns && s.turns[id].at.Created?
    ensures Inv(BeginMode(config, s, id, mode)) && BeginMode(config, s, id, mode).store == s.store
  {
    hide Inv, Seed;
    FinishKeeps(s, id);
    ClearKeeps(s, id);
    SeedIsStore(s);
    if s.gate.Some? && s.gate.value.kind == ModeChoice {
      var t := s.(gate := None, dispatched := s.dispatched + [s.gate.value.id]);
      assert Seed(t) == s.store by { SeedOf(s, t); }
      FinishKeeps(t, id);
      EnterKeeps(t, id, EDIT, s.store);
      EnterKeeps(t, id, EXPLAIN, s.store + ["explain"]);
    }
  }

  lemma SeedIsStore(s: State)
    requires Inv(s)
    ensures Seed(s) == s.store
  {
  }

  lemma SeedOf(s: State, t: State)
    requires s.cache == t.cache && s.store == t.store
    ensures Seed(s) == Seed(t)
  {
  }

  lemma BeginKeeps(config: Config, s: State, id: nat, request: Request)
    requires Inv(s) && id in s.turns && s.turns[id] == Task(Created(request), false)
    ensures Inv(Begin(config, s, id, request)) && Begin(config, s, id, request).store == s.store
  {
    hide Inv, BeginMode;
    FinishKeeps(s, id);
    ClearKeeps(s, id);
    SeedIsStore(s);
    match request {
      case Message(text) =>
        EnterKeeps(s.(gate := None), id, DECIDE, if s.store == [] then [] else s.store + [text]);
      case ModeDecision(mode) =>
        BeginModeKeeps(config, s, id, mode);
      case ClarifyAnswer(answer) =>
        if s.gate.Some? && s.gate.value.kind.Clarification? {
          EnterKeeps(s.(gate := None), id, ResumePhase(s.gate.value.kind.resumeEdit), s.store + [config.strip(answer)]);
        }
    }
  }

  lemma AskKeeps(s: State, id: nat, hold: Hold, entries: History)
    requires Inv(s) && id in s.turns && s.turns[id].at.InLoop?
    ensures Inv(LoopStep(s, id, s.turns[id].at.loop, Ask(hold, entries)))
  {
    NoOtherTurn(s, id);
    assert forall h | h in s.waiters :: false;
    var t := LoopStep(s, id, s.turns[id].at.loop, Ask(hold, entries));
    if Asks(s.turns[id].at.loop.phase, hold) {
      assert IsAt(t.turns[id].at, hold, t.waiters[hold].gate);
    }
  }

  lemma ThinkKeeps(s: State, id: nat, entries: History, rewrite: Rewrite)
    requires Inv(s) && id in s.turns && s.turns[id].at.InLoop?
    ensures var t := LoopStep(s, id, s.turns[id].at.loop, Think(entries, rewrite));
            Inv(t) && t.store == s.store
  {
    NoOtherTurn(s, id);
    assert forall hold | hold in s.waiters :: false;
  }

  lemma CompleteKeeps(s: State, id: nat, outcome: Outcome, entries: History)
    requires Inv(s) && id in s.turns && s.turns[id].at.InLoop?
    ensures var t := LoopStep(s, id, s.turns[id].at.loop, Complete(outcome, entries));
            Inv(t) && s.store <= t.store
  {
    NoOtherTurn(s, id);
    assert forall hold | hold in s.waiters :: false;
    hide Pending;
  }

  lemma LoopKeeps(s: State, id: nat, choice: Choice)
    requires Inv(s) && id in s.turns && s.turns[id].at.InLoop?
    ensures var t := LoopStep(s, id, s.turns[id].at.loop, choice);
            Inv(t) && s.store <= t.store
  {
    hide Inv, EndLoop;
    match choice {
      case Ask(hold, entries) => AskKeeps(s, id, hold, entries);
      case Think(entries, rewrite) => ThinkKeeps(s, id, entries, rewrite);
      case Complete(outcome, entries) => CompleteKeeps(s, id, outcome, entries);
    }
  }

  lemma LeaveKeeps(s: State, id: nat)
    requires Inv(s) && id in s.turns && s.turns[id].at.AtGate?
    ensures var at := s.turns[id].at;
            var left := LeaveGate(s, at.hold);
            && Inv(left.(turns := left.turns[id := Task(InLoop(at.loop), false)]))
            && Inv(Unwind(left, id, at.loop)) && s.store <= Unwind(left, id, at.loop).store
  {
    NoOtherTurn(s, id);
    forall hold | hold in s.waiters ensures hold == s.turns[id].at.hold {
      var other :| other in s.turns && IsAt(s.turns[other].at, hold, s.waiters[hold].gate);
    }
  }

  lemma FireKeepsWaiters(s: State, hold: Hold, future: Future)
    requires WaitersMatch(s) && hold in s.waiters && future != Waiting
    ensures WaitersMatch(Fire(s, hold, future))
  {
    var t := Fire(s, hold, future);
    forall h | h in t.waiters ensures exists id :: id in t.turns && IsAt(t.turns[id].at, h, t.waiters[h].gate) {
      var id :| id in s.turns && IsAt(s.turns[id].at, h, s.waiters[h].gate);
      assert IsAt(t.turns[id].at, h, t.waiters[h].gate);
    }
  }

  lemma FireKeepsRest(s: State, hold: Hold, future: Future)
    requires hold in s.waiters && Registered(s) && GatesAnswerable(s) && LoopsAgree(s)
    ensures var t := Fire(s, hold, future); Registered(t) && GatesAnswerable(t) && LoopsAgree(t)
  {
  }

  lemma FireKeepsOnce(s: State, hold: Hold)
    requires OncePerGate(s) && WaitersMatch(s) && Registered(s)
    requires hold in s.waiters && s.waiters[hold].future == Waiting
    ensures OncePerGate(Fire(s, hold, Cancelled))
    ensures OncePerGate(Fire(s, hold, Decided).(accepted := s.accepted + [s.waiters[hold].gate]))
  {
    forall h | h in s.waiters ensures h == hold {
      var id :| id in s.turns && IsAt(s.turns[id].at, h, s.waiters[h].gate);
      var other :| other in s.turns && IsAt(s.turns[other].at, hold, s.waiters[hold].gate);
    }
  }

  lemma WithAccepted(s: State, accepted: seq<nat>)
    requires Registered(s) && WaitersMatch(s) && GatesAnswerable(s) && LoopsAgree(s)
    ensures var t := s.(accepted := accepted);
            Registered(t) && WaitersMatch(t) && GatesAnswerable(t) && LoopsAgree(t)
  {
  }

  lemma WithoutGate(s: State)
    requires Inv(s)
    ensures Inv(s.(gate := None))
  {
  }

  lemma FailKeeps(s: State, id: nat, cleared: bool)
    requires Inv(s)
    ensures Inv(DoFail(s, id, cleared)) && DoFail(s, id, cleared).store == s.store
  {
    WithoutGate(s);
    hide Inv;
    if id in s.turns && !s.turns[id].cancelled && !s.turns[id].at.AtGate? {
      FinishKeeps(if s.turns[id].at.Created? && cleared then s.(gate := None) else s, id);
    }
  }

  lemma DecideKeeps(s: State, hold: Hold)
    requires Inv(s)
    ensures Inv(DoDecide(s, hold)) && DoDecide(s, hold).store == s.store
  {
    hide Registered, WaitersMatch, GatesAnswerable, LoopsAgree, OncePerGate;
    WithoutGate(s);
    if hold in s.waiters && s.waiters[hold].future == Waiting {
      FireKeepsWaiters(s, hold, Decided);
      FireKeepsRest(s, hold, Decided);
      FireKeepsOnce(s, hold);
      WithAccepted(Fire(s, hold, Decided), s.accepted + [s.waiters[hold].gate]);
    }
  }

  lemma CancelKeeps(s: State, hold: Hold)
    requires Inv(s)
    ensures Inv(CancelFuture(s, hold)) && CancelFuture(s, hold).store == s.store
  {
    hide Registered, WaitersMatch, GatesAnswerable, LoopsAgree, OncePerGate;
    if hold in s.waiters && s.waiters[hold].future == Waiting {
      FireKeepsWaiters(s, hold, Cancelled);
      FireKeepsRest(s, hold, Cancelled);
      FireKeepsOnce(s, hold);
    }
  }

  lemma StopKeeps(s: State)
    requires Inv(s)
    ensures Inv(DoStop(s)) && DoStop(s).store == s.store
  {
    if s.slot.Some? && s.slot.value in s.turns {
      var id := s.slot.value;
      var task := s.turns[id];
      var t := if task.at.AtGate? then CancelFuture(s, task.at.hold) else s;
      if task.at.AtGate? { CancelKeeps(s, task.at.hold); }
      var u := t.(turns := t.turns[id := task.(cancelled := true)]);
      forall h | h in u.waiters ensures exists id :: id in u.turns && IsAt(u.turns[id].at, h, u.waiters[h].gate) {
        var other :| other in t.turns && IsAt(t.turns[other].at, h, t.waiters[h].gate);
        assert IsAt(u.turns[other].at, h, u.waiters[h].gate);
      }
    }
  }

  // ---- over whole runs ----

  lemma {:induction false} RunsKeepInv(config: Config, actions: seq<Action>)
    ensures Inv(After(config, Init(), actions))
  {
    if actions != [] {
      RunsKeepInv(config, actions[..|actions| - 1]);
      StepKeeps(config, After(config, Init(), actions[..|actions| - 1]), actions[|actions| - 1]);
    }
  }

  predicate NeverRestarts(actions: seq<Action>) {
    Restart !in actions
  }

  /** In every interleaving: at most one turn is unfinished, and it is the registered one; no gate's
      decision is accepted twice; no mode gate is dispatched twice. Without a restart, a stored edit or
      command gate always has the waiter that a decision will reach. */
  lemma {:induction false} ProtocolSafety(config: Config, actions: seq<Action>)
    ensures
      var s := After(config, Init(), actions);
      && (forall a, b | a in s.turns && b in s.turns :: a == b && s.slot == Some(a))
      && NoRepeats(s.accepted) && NoRepeats(s.dispatched)
      && (NeverRestarts(actions) && s.gate.Some? && s.gate.value.kind.Held? ==>
            && s.gate.value.kind.hold in s.waiters
            && s.waiters[s.gate.value.kind.hold].gate == s.gate.value.id
            && exists id :: id in s.turns && IsAt(s.turns[id].at, s.gate.value.kind.hold, s.gate.value.id))
  {
    RunsKeepInv(config, actions);
    if NeverRestarts(actions) {
      EpochZero(config, actions);
    }
  }

  lemma StepKeepsEpoch(config: Config, s: State, action: Action)
    requires action != Restart
    ensures Step(config, s, action).epoch == s.epoch
  {
  }

  lemma {:induction false} EpochZero(config: Config, actions: seq<Action>)
    requires NeverRestarts(actions)
    ensures After(config, Init(), actions).epoch == 0
  {
    hide Step;
    if actions != [] {
      EpochZero(config, actions[..|actions| - 1]);
      StepKeepsEpoch(config, After(config, Init(), actions[..|actions| - 1]), actions[|actions| - 1]);
    }
  }

  /** A thread's saved history only ever grows by appending, restarts, stops and failures included;
      cache and store agree whenever both exist; and a turn in its loop extends what is saved. */
  lemma {:induction false} HistoryOnlyGrows(config: Config, earlier: seq<Action>, later: seq<Action>)
    ensures
      var s := After(config, Init(), earlier);
      var t := After(config, Init(), earlier + later);
      && s.store <= t.store
      && (t.cache.Some? ==> t.cache.value == t.store)
      && (forall id | id in t.turns && HasLoop(t.turns[id].at) :: t.store <= t.turns[id].at.loop.live)
  {
    RunsKeepInv(config, earlier + later);
    hide Step;
    if later == [] {
      assert earlier + later == earlier;
    } else {
      var n := |later| - 1;
      HistoryOnlyGrows(config, earlier, later[..n]);
      RunsKeepInv(config, earlier + later[..n]);
      assert (earlier + later)[..|earlier + later| - 1] == earlier + later[..n];
      StepKeeps(config, After(config, Init(), earlier + later[..n]), later[n]);
    }
  }

  // ---- the ledger ----

  /** In every interleaving, restarts included: a running loop's ledger is the stored one. */
  lemma StoredLedgerIsLive(config: Config, actions: seq<Action>, id: nat)
    ensures
      var s := After(config, Init(), actions);
      id in s.turns && HasLoop(s.turns[id].at) ==>
        && s.todos == Kept(s.turns[id].at.loop.ledger)
        && Loaded(s.todos) == s.turns[id].at.loop.ledger
  {
    RunsKeepInv(config, actions);
    hide After;
  }

  /** The stored ledger changes in exactly three ways: a rewrite by `write_todos`, an answer, or a submit
      with no item open. No gate, decision, timeout, stop, failure or restart touches it. */
  lemma LedgerChangesIff(config: Config, s: State, action: Action)
    requires Inv(s)
    ensures
      Step(config, s, action).todos != s.todos <==>
        && action.Run? && action.turn in s.turns
        && s.turns[action.turn].at.InLoop? && !s.turns[action.turn].cancelled
        && var loop := s.turns[action.turn].at.loop;
           match action.choice
           case Think(_, rewrite) => rewrite.Replaced? && rewrite.items != [] && rewrite.items != loop.ledger
           case Complete(outcome, _) =>
             loop.ledger != []
             && (outcome == Answer || (outcome == Submit && loop.phase == EDIT && Pending(loop.ledger) == []))
           case _ => false
  {
    hide Registered, WaitersMatch, GatesAnswerable, OncePerGate, Begin, LoopStep;
    if action.Run? && action.turn in s.turns {
      var at := s.turns[action.turn].at;
      if at.InLoop? {
        LoopLedger(s, action.turn, action.choice);
      } else if at.Created? {
        BeginLedger(config, s, action.turn, at.request);
      }
    }
  }

  lemma LoopLedger(s: State, id: nat, choice: Choice)
    requires LoopsAgree(s) && id in s.turns && s.turns[id].at.InLoop?
    ensures
      var loop := s.turns[id].at.loop;
      LoopStep(s, id, loop, choice).todos != s.todos <==>
        match choice
        case Think(_, rewrite) => rewrite.Replaced? && rewrite.items != [] && rewrite.items != loop.ledger
        case Complete(outcome, _) =>
          loop.ledger != []
          && (outcome == Answer || (outcome == Submit && loop.phase == EDIT && Pending(loop.ledger) == []))
        case _ => false
  {
  }

  lemma BeginLedger(config: Config, s: State, id: nat, request: Request)
    ensures Begin(config, s, id, request).todos == s.todos && Begin(config, s, id, request).store == s.store
  {
  }

  /** A mode or clarify gate that is still stored. */
  predicate Raised(s: State, gate: Gate) {
    s.gate == Some(gate) && !gate.kind.Held?
  }

  lemma RaisedMeansNoLoop(s: State, gate: Gate)
    requires Inv(s) && Raised(s, gate)
    ensures forall id | id in s.turns :: s.turns[id].at.Created?
  {
    hide Registered, WaitersMatch, OncePerGate, LoopsAgree;
  }

  /** A step leaves the stored gate, clears it, or raises one with a fresh id. */
  lemma GateStep(config: Config, s: State, action: Action)
    ensures var t := Step(config, s, action);
            && s.nextGate <= t.nextGate
            && (t.gate == s.gate || t.gate == None || t.gate.value.id == s.nextGate)
  {
  }

  lemma GateKeepsLedger(config: Config, s: State, action: Action, gate: Gate)
    requires Inv(s) && gate.id < s.nextGate
    ensures Raised(s, gate) && Raised(Step(config, s, action), gate) ==>
              Step(config, s, action).todos == s.todos && Step(config, s, action).store == s.store
    ensures !Raised(s, gate) ==> !Raised(Step(config, s, action), gate)
    ensures gate.id < Step(config, s, action).nextGate
  {
    GateStep(config, s, action);
    if Raised(s, gate) {
      RaisedMeansNoLoop(s, gate);
      hide Inv, Begin;
      if action.Run? && action.turn in s.turns && !s.turns[action.turn].cancelled {
        BeginLedger(config, s, action.turn, s.turns[action.turn].at.request);
      }
    } else {
      hide Inv, Step;
    }
  }

  /** Whatever happens while a gate stays stored, restarts included, the ledger and the history stay too. */
  lemma {:induction false} StillRaised(config: Config, s: State, between: seq<Action>, gate: Gate)
    requires Inv(s) && gate.id < s.nextGate
    ensures
      var t := After(config, s, between);
      && Inv(t) && gate.id < t.nextGate
      && (Raised(t, gate) ==> Raised(s, gate) && t.todos == s.todos && t.store == s.store)
  {
    hide Inv, Step;
    if between != [] {
      var n := |between| - 1;
      StillRaised(config, s, between[..n], gate);
      StepKeeps(config, After(config, s, between[..n]), between[n]);
      GateKeepsLedger(config, After(config, s, between[..n]), between[n], gate);
    }
  }

  /** The ledger crosses a mode or clarify gate unchanged: whatever happens in between, restarts included,
      the loop that the gate's decision starts, or a message in its stead, has exactly the ledger the
      asking loop ended with. */
  lemma LedgerCrossesGate(config: Config, s: State, id: nat, outcome: Outcome, entries: History,
                          between: seq<Action>, request: Request, choice: Choice)
    requires Inv(s) && id in s.turns && s.turns[id].at.InLoop? && !s.turns[id].cancelled
    requires outcome in {ProposeMode, Clarify} && Ends(s.turns[id].at.loop, outcome)
    ensures
      var asked := Step(config, s, Run(id, Complete(outcome, entries)));
      var waiting := After(config, asked, between);
      var started := Step(config, Step(config, waiting, Post(request)), Run(waiting.nextTurn, choice));
      asked.gate.Some? && asked.gate.value.id == s.nextGate && Loaded(asked.todos) == s.turns[id].at.loop.ledger
      && (Raised(waiting, asked.gate.value) && waiting.slot == None
            && waiting.nextTurn in started.turns && started.turns[waiting.nextTurn].at.InLoop? ==>
          started.turns[waiting.nextTurn].at.loop.ledger == s.turns[id].at.loop.ledger)
  {
    var asked := Step(config, s, Run(id, Complete(outcome, entries)));
    AskingKeepsLedger(config, s, id, outcome, entries);
    StepKeeps(config, s, Run(id, Complete(outcome, entries)));
    hide Inv, Step;
    var waiting := After(config, asked, between);
    StillRaised(config, asked, between, asked.gate.value);
    if waiting.slot == None {
      StartedLedger(config, waiting, request, choice);
    }
  }

  lemma AskingKeepsLedger(config: Config, s: State, id: nat, outcome: Outcome, entries: History)
    requires Inv(s) && id in s.turns && s.turns[id].at.InLoop? && !s.turns[id].cancelled
    requires outcome in {ProposeMode, Clarify} && Ends(s.turns[id].at.loop, outcome)
    ensures
      var asked := Step(config, s, Run(id, Complete(outcome, entries)));
      && asked.gate.Some? && asked.gate.value.id == s.nextGate < asked.nextGate && !asked.gate.value.kind.Held?
      && Loaded(asked.todos) == s.turns[id].at.loop.ledger
  {
    KeptLoads(s.turns[id].at.loop.ledger);
  }

  lemma StartedLedger(config: Config, s: State, request: Request, choice: Choice)
    requires Inv(s) && s.slot == None
    ensures var started := Step(config, Step(config, s, Post(request)), Run(s.nextTurn, choice));
            s.nextTurn in started.turns && started.turns[s.nextTurn].at.InLoop? ==>
              started.turns[s.nextTurn].at.loop.ledger == Loaded(s.todos)
  {
    assert s.turns.Keys == {} by { assert forall other | other in s.turns :: s.slot == Some(other); }
  }

  /** So a submit ends a request only when no item is open of the list that `write_todos` last left,
      however many gates the request has crossed. */
  lemma SubmitNeedsClosedLedger(config: Config, actions: seq<Action>, id: nat, entries: History)
    ensures
      var s := After(config, Init(), actions);
      var t := Step(config, s, Run(id, Complete(Submit, entries)));
      id in s.turns && s.turns[id].at.InLoop? && !s.turns[id].cancelled && id !in t.turns ==>
        forall item | item in Loaded(s.todos) :: item.status != "pending" && item.status != "in_progress"
  {
    StoredLedgerIsLive(config, actions, id);
    NothingPendingIff(Loaded(After(config, Init(), actions).todos));
    hide After;
  }

  // ---- what a loop says is kept ----

  /** The entries that an action adds to the conversation of one turn's loop. */
  function Adds(s: State, id: nat, action: Action): History {
    if !action.Run? || action.turn != id || id !in s.turns || !s.turns[id].at.InLoop? || s.turns[id].cancelled then []
    else
      match action.choice
      case Think(entries, _) => entries
      case Ask(hold, entries) => if Asks(s.turns[id].at.loop.phase, hold) then entries else []
      case Complete(outcome, entries) => if Ends(s.turns[id].at.loop, outcome) then entries else []
  }

  /** All that one turn's loop says over a run, in order. */
  function Said(config: Config, s: State, id: nat, actions: seq<Action>): History {
    if actions == [] then []
    else
      var n := |actions| - 1;
      Said(config, s, id, actions[..n]) + Adds(After(config, s, actions[..n]), id, actions[n])
  }

  /** Over any run: a loop's conversation is what it started with and then all that its steps added, in
      order, whatever gates, decisions and timeouts come between; and once the loop ends or is stopped,
      that is the saved history. Only an exception or a restart leaves the history as it was. */
  lemma {:induction false} NothingSaidIsLost(config: Config, s: State, id: nat, actions: seq<Action>, last: Action)
    requires Inv(s) && id in s.turns && HasLoop(s.turns[id].at)
    requires id in After(config, s, actions).turns
    ensures
      var u := Step(config, After(config, s, actions), last);
      var all := s.turns[id].at.loop.live + Said(config, s, id, actions + [last]);
      if id in u.turns then HasLoop(u.turns[id].at) && u.turns[id].at.loop.live == all
      else u.store == if last.Run? then all else s.store
  {
    LiveIsSaid(config, s, id, actions);
    hide Inv, Step, Adds, HasLoop;
    var t := After(config, s, actions);
    AddsToLive(config, t, id, last);
    assert (actions + [last])[..|actions|] == actions;
    AddedUp(s.turns[id].at.loop.live, Said(config, s, id, actions), Adds(t, id, last));
  }

  lemma AddedUp(a: History, b: History, c: History)
    ensures (a + b) + c == a + (b + c)
  {
  }

  lemma {:induction false} LiveIsSaid(config: Config, s: State, id: nat, actions: seq<Action>)
    requires Inv(s) && id in s.turns && HasLoop(s.turns[id].at)
    ensures var t := After(config, s, actions);
            && Inv(t) && id < t.nextTurn
            && (id in t.turns ==>
                  && HasLoop(t.turns[id].at) && t.store == s.store
                  && t.turns[id].at.loop.live == s.turns[id].at.loop.live + Said(config, s, id, actions))
  {
    if actions != [] {
      var n := |actions| - 1;
      LiveIsSaid(config, s, id, actions[..n]);
      hide Inv, Step, Adds, HasLoop;
      var t := After(config, s, actions[..n]);
      StepKeeps(config, t, actions[n]);
      NoneComesBack(config, t, id, actions[n]);
      if id in t.turns {
        AddsToLive(config, t, id, actions[n]);
        AddedUp(s.turns[id].at.loop.live, Said(config, s, id, actions[..n]), Adds(t, id, actions[n]));
      }
    }
  }

  /** Turn ids are not used again. */
  lemma NoneComesBack(config: Config, s: State, id: nat, action: Action)
    requires id < s.nextTurn
    ensures id < Step(config, s, action).nextTurn
    ensures id in Step(config, s, action).turns ==> id in s.turns
  {
    if action.Run? && action.turn in s.turns {
      hide Begin, LoopStep;
      var at := s.turns[action.turn].at;
      match at {
        case Created(request) => BeginsItself(config, s, action.turn, request);
        case InLoop(loop) => LoopsItself(s, action.turn, loop, action.choice);
        case _ =>
      }
    }
  }

  lemma BeginsItself(config: Config, s: State, id: nat, request: Request)
    ensures var t := Begin(config, s, id, request); t.nextTurn == s.nextTurn && t.turns.Keys <= s.turns.Keys + {id}
  {
    hide Seed;
  }

  lemma LoopsItself(s: State, id: nat, loop: Loop, choice: Choice)
    ensures var t := LoopStep(s, id, loop, choice); t.nextTurn == s.nextTurn && t.turns.Keys <= s.turns.Keys + {id}
  {
    hide Ends, Asks;
  }

  lemma AddsToLive(config: Config, s: State, id: nat, action: Action)
    requires Inv(s) && id in s.turns && HasLoop(s.turns[id].at)
    ensures
      var t := Step(config, s, action);
      var live := s.turns[id].at.loop.live + Adds(s, id, action);
      if id in t.turns then HasLoop(t.turns[id].at) && t.turns[id].at.loop.live == live && t.store == s.store
      else t.store == if action.Run? then live else s.store
  {
    NoOtherTurn(s, id);
    hide WaitersMatch, GatesAnswerable, OncePerGate, Begin, Ends, Asks;
    if action.Run? {
      if s.turns[id].at.AtGate? || s.turns[id].cancelled {
        assert s.turns[id].at.loop.live + [] == s.turns[id].at.loop.live;
      }
    }
  }

  // ---- what the steps achieve ----

  /** A stretch of the loop keeps phase and gates, adds its entries, and takes the list it wrote, if any,
      as its ledger and as the stored one. */
  lemma ThinkGoesOn(config: Config, s: State, id: nat, entries: History, rewrite: Rewrite)
    requires Inv(s) && id in s.turns && s.turns[id].at.InLoop? && !s.turns[id].cancelled
    ensures
      var loop := s.turns[id].at.loop;
      var ledger := if rewrite.Replaced? && rewrite.items != [] then rewrite.items else loop.ledger;
      var t := Step(config, s, Run(id, Think(entries, rewrite)));
      && t.turns == map[id := Task(InLoop(Loop(loop.phase, loop.live + entries, ledger)), false)]
      && Loaded(t.todos) == ledger && t.store == s.store && t.gate == None && t.waiters == map[]
  {
    NoOtherTurn(s, id);
    KeptLoads(s.turns[id].at.loop.ledger);
    assert forall hold | hold in s.waiters :: false;
  }

  /** An edit is held for review in an editing turn, a command for approval in an editing or explaining
      one: the gate is stored, a fresh future waits, and the turn is suspended with its entries added. A
      loop never asks otherwise. */
  lemma AskSuspends(config: Config, s: State, id: nat, hold: Hold, entries: History)
    requires Inv(s) && id in s.turns && s.turns[id].at.InLoop? && !s.turns[id].cancelled
    ensures
      var loop := s.turns[id].at.loop;
      var asking := Loop(loop.phase, loop.live + entries, loop.ledger);
      var t := Step(config, s, Run(id, Ask(hold, entries)));
      if loop.phase == EDIT || (loop.phase == EXPLAIN && hold == CommandApproval) then
        && t.gate == Some(Gate(Held(hold), s.nextGate)) && t.waiters == map[hold := Waiter(s.nextGate, Waiting)]
        && t.turns == map[id := Task(AtGate(hold, s.nextGate, asking), false)]
        && t.store == s.store && t.todos == s.todos && t.accepted == s.accepted && t.slot == Some(id)
      else t == s
  {
    NoOtherTurn(s, id);
    assert forall h | h in s.waiters :: false;
  }

  /** The items that a submit must not leave behind. */
  predicate AllSettled(ledger: Ledger) {
    forall item | item in ledger :: item.status != "pending" && item.status != "in_progress"
  }

  /** A loop that ends frees the thread, saves all it said, drops the ledger of an answered or submitted
      request and keeps any other, and presents the gate its outcome calls for. Modes are proposed while
      deciding only, and a submit takes an editing loop with every item settled. */
  lemma CompleteSettles(config: Config, s: State, id: nat, outcome: Outcome, entries: History)
    requires Inv(s) && id in s.turns && s.turns[id].at.InLoop? && !s.turns[id].cancelled
    ensures
      var loop := s.turns[id].at.loop;
      var t := Step(config, s, Run(id, Complete(outcome, entries)));
      if (outcome == ProposeMode && loop.phase != DECIDE)
         || (outcome == Submit && (loop.phase != EDIT || !AllSettled(loop.ledger))) then t == s
      else
        && t.turns == map[] && t.slot == None && t.waiters == map[]
        && t.store == loop.live + entries && t.cache == Some(t.store)
        && Loaded(t.todos) == (if outcome == Answer || outcome == Submit then [] else loop.ledger)
        && t.gate == match outcome
                     case ProposeMode => Some(Gate(ModeChoice, s.nextGate))
                     case Clarify => Some(Gate(Clarification(loop.phase == EDIT), s.nextGate))
                     case _ => None
  {
    NoOtherTurn(s, id);
    var ledger := s.turns[id].at.loop.ledger;
    KeptLoads(ledger);
    NothingPendingIff(ledger);
    hide Pending, OncePerGate;
    assert forall hold | hold in s.waiters :: false;
    assert s.turns - {id} == map[];
  }

  /** A task's plan, awaited by the turn that created the task: when it is there the turn is over, with
      history and ledger as they were. */
  lemma PlannedTaskEndsTurn(config: Config, s: State, id: nat, choice: Choice)
    requires Inv(s) && id in s.turns && s.turns[id] == Task(AwaitingTask, false)
    ensures
      var t := Step(config, s, Run(id, choice));
      if choice.Complete? then
        t.turns == map[] && t.slot == None && t.store == s.store && t.todos == s.todos && t.gate == s.gate
      else t == s
  {
    NoOtherTurn(s, id);
    assert s.turns - {id} == map[];
  }

  /** A review or an approval that times out is not accepted, and the turn goes on with the gate gone. */
  lemma TimeoutResumesTurn(config: Config, s: State, hold: Hold, choice: Choice) returns (id: nat)
    requires Inv(s) && hold in s.waiters && s.waiters[hold].future == Waiting
    ensures var t := Step(config, s, Expire(hold));
            var u := Step(config, t, Run(id, choice));
            && id in s.turns && s.turns[id].at.AtGate? && !s.turns[id].cancelled
            && t.turns == s.turns && t.gate == s.gate && u.accepted == s.accepted
            && u.turns == map[id := Task(InLoop(s.turns[id].at.loop), false)]
            && u.gate == None && hold !in u.waiters && u.slot == Some(id)
            && u.store == s.store && u.todos == s.todos
  {
    id :| id in s.turns && IsAt(s.turns[id].at, hold, s.waiters[hold].gate);
    NoOtherTurn(s, id);
    hide OncePerGate, GatesAnswerable;
  }

  /** A decision on a live gate is taken, and the turn it was for then goes on with the gate gone. */
  lemma DecisionResumesTurn(config: Config, s: State, hold: Hold, choice: Choice) returns (id: nat)
    requires Inv(s) && s.gate.Some? && s.gate.value.kind == Held(hold) && s.gate.value.id >= s.epoch
    requires hold in s.waiters && s.waiters[hold].future == Waiting
    ensures var t := Step(config, s, Decide(hold));
            var u := Step(config, t, Run(id, choice));
            && t.accepted == s.accepted + [s.gate.value.id]
            && id in s.turns && s.turns[id].at.AtGate? && !s.turns[id].cancelled
            && u.turns == map[id := Task(InLoop(s.turns[id].at.loop), false)]
            && u.gate == None && hold !in u.waiters && u.slot == Some(id)
  {
    id :| id in s.turns && IsAt(s.turns[id].at, hold, s.waiters[hold].gate);
    NoOtherTurn(s, id);
  }

  /** What a suspended turn holds of the conversation. */
  function LiveOf(at: Point): History {
    if HasLoop(at) then at.loop.live else []
  }

  /** A stopped turn that has begun unwinds completely: nothing waits, the thread is free, and what it
      had of the conversation is saved. */
  lemma StopEndsTurn(config: Config, s: State, id: nat, choice: Choice)
    requires Inv(s) && id in s.turns && !s.turns[id].at.Created?
    ensures var u := Step(config, Step(config, s, Stop), Run(id, choice));
            && u.turns == map[] && u.waiters == map[] && u.slot == None && u.gate == None
            && u.store == (if LiveOf(s.turns[id].at) == [] then s.store else LiveOf(s.turns[id].at))
            && u.todos == s.todos && u.accepted == s.accepted && u.dispatched == s.dispatched
  {
    NoOtherTurn(s, id);
    forall h | h in s.waiters ensures s.turns[id].at.AtGate? && h == s.turns[id].at.hold {
      var other :| other in s.turns && IsAt(s.turns[other].at, h, s.waiters[h].gate);
    }
    hide OncePerGate, Begin, LoopStep;
  }

  function Sole(id: nat, phase: Phase, live: History, todos: Option<Ledger>): map<nat, Task> {
    map[id := Task(InLoop(Loop(phase, live, Loaded(todos))), false)]
  }

  /** What a mode choice comes to on a free thread: without a mode gate, or with a task mode while there
      are no tasks, nothing is dispatched and the gate stays; otherwise the gate is cleared and dispatched,
      and the mode starts a loop, awaits a new task's plan, or ends the turn. */
  ghost predicate ModeBegun(config: Config, s: State, mode: string, u: State) {
    var id := s.nextTurn;
    if s.gate.None? || s.gate.value.kind != ModeChoice
       || (mode in {"create_task", "resume"} && !config.taskSubsystem) then
      u.turns == map[] && u.slot == None && u.gate == s.gate && u.dispatched == s.dispatched
    else
      && u.gate == None && u.dispatched == s.dispatched + [s.gate.value.id]
      && u.turns == (if mode == "explain" then Sole(id, EXPLAIN, s.store + ["explain"], s.todos)
                     else if mode == "edit" && config.orchestrator then Sole(id, EDIT, s.store, s.todos)
                     else if mode == "create_task" && config.orchestrator then map[id := Task(AwaitingTask, false)]
                     else map[])
      && u.slot == if u.turns == map[] then None else Some(id)
  }

  /** With a free thread, a request that the stored gate admits starts a loop with exactly the saved
      history, what the user just said, and the saved ledger. */
  lemma FirstSectionSeeds(config: Config, s: State, request: Request, choice: Choice)
    requires Inv(s) && s.slot == None
    ensures
      var id := s.nextTurn;
      var u := Step(config, Step(config, s, Post(request)), Run(id, choice));
      && u.todos == s.todos
      && match request
      case Message(text) =>
        u.gate == None
        && u.turns == Sole(id, DECIDE, if s.store == [] then [] else s.store + [text], s.todos)
      case ModeDecision(mode) => ModeBegun(config, s, mode, u)
      case ClarifyAnswer(answer) =>
        if s.gate.None? || !s.gate.value.kind.Clarification? || config.strip(answer) == "" then
          u.turns == map[] && u.gate == s.gate && u.slot == None
        else
          && u.gate == None
          && u.turns == Sole(id, ResumePhase(s.gate.value.kind.resumeEdit), s.store + [config.strip(answer)], s.todos)
  {
    PostKeeps(s, request);
    assert s.turns.Keys == {} by { assert forall other | other in s.turns :: s.slot == Some(other); }
    assert s.turns == map[];
    if request.ModeDecision? {
      ModeSection(config, s, request.mode, choice);
    }
    hide BeginMode, ModeBegun, OncePerGate, WaitersMatch, GatesAnswerable;
  }

  lemma ModeSection(config: Config, s: State, mode: string, choice: Choice)
    requires Inv(s) && s.slot == None
    ensures
      var u := Step(config, Step(config, s, Post(ModeDecision(mode))), Run(s.nextTurn, choice));
      u.todos == s.todos && ModeBegun(config, s, mode, u)
  {
    assert s.turns.Keys == {} by { assert forall other | other in s.turns :: s.slot == Some(other); }
    assert s.turns == map[];
    hide OncePerGate, WaitersMatch, GatesAnswerable;
  }

  /** A question asked in a loop, then answered, even across a restart: the next turn has everything the
      asking turn had, the answer, and the ledger. It goes on in the same phase unless that was EXPLAIN:
      an explaining turn that asks comes back deciding, where it may propose a mode again. */
  lemma AnswerResumesLoop(config: Config, s: State, id: nat, entries: History, answer: string, restart: bool)
    requires Inv(s) && id in s.turns && s.turns[id].at.InLoop? && !s.turns[id].cancelled
    requires config.strip(answer) != ""
    ensures
      var loop := s.turns[id].at.loop;
      var asked := Step(config, s, Run(id, Complete(Clarify, entries)));
      var waiting := if restart then Step(config, asked, Restart) else asked;
      var u := Step(config, Step(config, waiting, Post(ClarifyAnswer(answer))), Run(s.nextTurn, GO));
      && asked.turns == map[] && asked.gate == Some(Gate(Clarification(loop.phase == EDIT), s.nextGate))
      && u.gate == None && u.turns.Keys == {s.nextTurn} && u.turns[s.nextTurn].at.InLoop?
      && var resumed := u.turns[s.nextTurn].at.loop;
         && resumed.live == loop.live + entries + [config.strip(answer)] && resumed.ledger == loop.ledger
         && (resumed.phase == loop.phase <==> loop.phase != EXPLAIN)
         && (loop.phase == EXPLAIN ==> resumed.phase == DECIDE)
  {
    RunKeeps(config, s, id, Complete(Clarify, entries));
    NoOtherTurn(s, id);
    var asked := Step(config, s, Run(id, Complete(Clarify, entries)));
    assert asked.turns == map[];
    assert asked.todos == Kept(s.turns[id].at.loop.ledger);
    KeptLoads(s.turns[id].at.loop.ledger);
    var waiting := if restart then Step(config, asked, Restart) else asked;
    if restart { StepKeeps(config, asked, Restart); }
    hide Inv;
    FirstSectionSeeds(config, waiting, ClarifyAnswer(answer), GO);
  }

  // ---- after a restart ----

  /** To a free thread a restart is invisible: the next request comes to the same. */
  lemma RestartIsInvisible(config: Config, s: State, request: Request, choice: Choice)
    requires Inv(s) && s.slot == None
    ensures
      var u := Step(config, Step(config, s, Post(request)), Run(s.nextTurn, choice));
      var v := Step(config, Step(config, Step(config, s, Restart), Post(request)), Run(s.nextTurn, choice));
      && u.turns == v.turns && u.gate == v.gate && u.todos == v.todos && u.dispatched == v.dispatched
      && u.store == v.store == s.store
  {
    StepKeeps(config, s, Restart);
    FirstSectionSeeds(config, s, request, choice);
    FirstSectionSeeds(config, DoRestart(s), request, choice);
    FirstSectionKeepsStore(config, s, request, choice);
    FirstSectionKeepsStore(config, DoRestart(s), request, choice);
    hide Inv, DoPost, DoRun;
  }

  lemma FirstSectionKeepsStore(config: Config, s: State, request: Request, choice: Choice)
    requires s.slot == None
    ensures Step(config, Step(config, s, Post(request)), Run(s.nextTurn, choice)).store == s.store
  {
    BeginLedger(config, DoPost(s, request), s.nextTurn, request);
    hide Begin;
  }

  /** A gate orphaned by a restart accepts no decision; the first attempt clears it. */
  lemma OrphanedGateClears(config: Config, s: State, hold: Hold)
    requires Inv(s) && s.gate.Some? && s.gate.value.kind == Held(hold)
    ensures var t := Step(config, DoRestart(s), Decide(hold));
            t.gate == None && t.accepted == s.accepted
  {
  }

  // ---- a decision while its turn still waits ----

  /** A decision is accepted exactly when a future waits for it, and it changes the stored gate exactly
      when it is for that gate and no future waits: the gate is orphaned, or the future is already done,
      decided, timed out or stopped, with its turn not yet resumed. */
  lemma DecisionChangesGateIff(config: Config, s: State, hold: Hold)
    requires Inv(s)
    ensures
      var t := Step(config, s, Decide(hold));
      var waits := hold in s.waiters && s.waiters[hold].future == Waiting;
      && t.accepted == (if waits then s.accepted + [s.waiters[hold].gate] else s.accepted)
      && (t.gate != s.gate <==> s.gate.Some? && s.gate.value.kind == Held(hold) && !waits)
      && (t.gate != s.gate ==> t.gate == None && t.turns == s.turns && t.waiters == s.waiters)
  {
    hide Inv;
  }

  lemma AfterSnoc(config: Config, s: State, actions: seq<Action>, action: Action)
    ensures After(config, s, actions + [action]) == Step(config, After(config, s, actions), action)
  {
    hide Step;
    assert (actions + [action])[..|actions|] == actions;
  }

  // A message, a proposed mode, the choice to edit, and an edit held for review.
  const TO_REVIEW := [
    Post(Message("fix it")), Run(0, GO), Run(0, Complete(ProposeMode, [])),
    Post(ModeDecision("edit")), Run(1, GO), Run(1, Ask(EditReview, []))]

  /** The run above ends with the turn waiting at its stored gate. */
  lemma HeldForReview(config: Config)
    requires config.orchestrator
    ensures After(config, Init(), TO_REVIEW) == HELD
  {
    var a := TO_REVIEW;
    FirstThree(config);
    NextThree(config);
    hide Step;
    assert After(config, Init(), []) == Init();
    AfterSnoc(config, Init(), [], a[0]);
    AfterSnoc(config, Init(), a[..1], a[1]);
    AfterSnoc(config, Init(), a[..2], a[2]);
    AfterSnoc(config, Init(), a[..3], a[3]);
    AfterSnoc(config, Init(), a[..4], a[4]);
    AfterSnoc(config, Init(), a[..5], a[5]);
    hide After;
    assert a[..1] == [] + [a[0]] && a[..2] == a[..1] + [a[1]] && a[..3] == a[..2] + [a[2]];
    assert a[..4] == a[..3] + [a[3]] && a[..5] == a[..4] + [a[4]] && a == a[..5] + [a[5]];
  }

  const HELD := State(
    Some(1), map[1 := Task(AtGate(EditReview, 1, Loop(EDIT, [], [])), false)],
    map[EditReview := Waiter(1, Waiting)], Some([]), Some(Gate(Held(EditReview), 1)), [], None, 2, 2, 0, [], [0])

  const PROPOSED := State(None, map[], map[], Some([]), Some(Gate(ModeChoice, 0)), [], None, 1, 1, 0, [], [])

  lemma FirstThree(config: Config)
    ensures Step(config, Step(config, Step(config, Init(), TO_REVIEW[0]), TO_REVIEW[1]), TO_REVIEW[2]) == PROPOSED
  {
    var s1 := Step(config, Init(), TO_REVIEW[0]);
    var s2 := Step(config, s1, TO_REVIEW[1]);
    assert s2.turns == map[0 := Task(InLoop(Loop(DECIDE, [], [])), false)];
    assert s2.turns - {0} == map[];
    assert s2.turns[0].at.loop.live + [] == [];
  }

  lemma NextThree(config: Config)
    requires config.orchestrator
    ensures Step(config, Step(config, Step(config, PROPOSED, TO_REVIEW[3]), TO_REVIEW[4]), TO_REVIEW[5]) == HELD
  {
    assert |"edit"| == 4 && |"create_task"| == 11 && |"resume"| == 6;
    var s4 := Step(config, PROPOSED, TO_REVIEW[3]);
    var s5 := Step(config, s4, TO_REVIEW[4]);
    assert s5.turns == map[1 := Task(InLoop(Loop(EDIT, [], [])), false)];
    assert s5.dispatched == [] + [0] == [0];
    var s6 := Step(config, s5, TO_REVIEW[5]);
    assert s6.turns[1].at.loop.live == [];
    assert s6.turns == HELD.turns && s6.waiters == HELD.waiters;
  }

  /** It happens: of two decisions in a row the second is refused, and so is one that comes after the
      timeout, but either clears the gate of a turn that is still suspended there. */
  lemma SecondDecisionClearsLiveGate(config: Config, first: Action)
    requires config.orchestrator && first in {Decide(EditReview), Expire(EditReview)}
    ensures
      var held := After(config, Init(), TO_REVIEW);
      var s := After(config, Init(), TO_REVIEW + [first]);
      var t := After(config, Init(), TO_REVIEW + [first] + [Decide(EditReview)]);
      && s.gate == held.gate == Some(Gate(Held(EditReview), 1))
      && t.gate == None && t.accepted == s.accepted
      && t.turns == held.turns && t.slot == Some(1) && 1 in t.turns && t.turns[1].at.AtGate?
  {
    HeldForReview(config);
    AfterSnoc(config, Init(), TO_REVIEW, first);
    AfterSnoc(config, Init(), TO_REVIEW + [first], Decide(EditReview));
    hide After;
    var s := Step(config, HELD, first);
    assert EditReview in s.waiters && s.waiters[EditReview].future != Waiting;
    assert s.gate == HELD.gate && s.turns == HELD.turns;
    assert Step(config, s, Decide(EditReview)) == s.(gate := None);
  }

  // ---- a turn cancelled before its first section ----

  /** The slot names a turn that is over: every later request is refused as in progress. */
  predicate Wedged(s: State) {
    s.slot.Some? && s.slot.value !in s.turns
  }

  /** Exactly one step wedges a thread: running a turn that was cancelled before it first ran. */
  lemma WedgedOnlyByEarlyCancel(config: Config, s: State, action: Action)
    requires Inv(s) && !Wedged(s)
    ensures Wedged(Step(config, s, action)) <==>
            action.Run? && action.turn in s.turns && s.turns[action.turn].at.Created? && s.turns[action.turn].cancelled
  {
    hide WaitersMatch, GatesAnswerable, OncePerGate, LoopsAgree, Pending;
    if action.Run? && action.turn in s.turns {
      NoOtherTurn(s, action.turn);
    }
  }

  /** And nothing but a restart frees it again. */
  lemma {:induction false} WedgedUntilRestart(config: Config, s: State, actions: seq<Action>)
    requires Inv(s) && Wedged(s) && NeverRestarts(actions)
    ensures Wedged(After(config, s, actions)) && After(config, s, actions).turns == map[]
  {
    hide Step, Inv;
    if actions == [] {
      WedgedHasNoTurns(s);
    } else {
      var n := |actions| - 1;
      WedgedUntilRestart(config, s, actions[..n]);
      WedgedStays(config, After(config, s, actions[..n]), actions[n]);
    }
  }

  lemma WedgedHasNoTurns(s: State)
    requires Inv(s) && Wedged(s)
    ensures s.turns == map[]
  {
  }

  lemma WedgedStays(config: Config, s: State, action: Action)
    requires Wedged(s) && s.turns == map[] && action != Restart
    ensures Wedged(Step(config, s, action)) && Step(config, s, action).turns == map[]
  {
  }

  /** It can happen: a message, and a stop that arrives before the turn's first section. */
  lemma EarlyStopWedges(config: Config)
    ensures Wedged(After(config, Init(), [Post(Message("hi")), Stop, Run(0, GO)]))
  {
    var actions := [Post(Message("hi")), Stop, Run(0, GO)];
    assert actions[..2] == [Post(Message("hi")), Stop];
    assert actions[..2][..1] == [Post(Message("hi"))];
    assert actions[..2][..1][..0] == [];
    var posted := Step(config, Init(), actions[0]);
    assert After(config, Init(), actions[..2][..1]) == posted;
    assert After(config, Init(), actions[..2]) == Step(config, posted, Stop);
  }
}
