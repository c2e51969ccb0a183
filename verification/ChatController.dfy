/** The controller's registries and thread record as the methods update them in place, each proved
    to take exactly the step of the protocol that `TurnProtocol` reasons about. */
module ChatController {
  import opened ControllerPhases
  import opened TodoLedgers
  import opened TurnProtocol
  import opened Wrappers

  class ThreadController {
    const config: Config
    var activeTurn: Option<nat>
    var tasks: map<nat, Task>
    var pending: map<Hold, Waiter>
    var histories: Option<History>
    var storedGate: Option<Gate>
    var storedHistory: History
    var storedTodos: Option<Ledger>
    var turnCount: nat
    var gateCount: nat
    ghost var epoch: nat
    ghost var accepted: seq<nat>
    ghost var dispatched: seq<nat>

    ghost function Now(): State
      reads this
    {
      State(activeTurn, tasks, pending, histories, storedGate, storedHistory, storedTodos,
            turnCount, gateCount, epoch, accepted, dispatched)
    }

    constructor (config: Config)
      ensures Now() == Init() && Inv(Now()) && this.config == config
    {
      this.config := config;
      activeTurn, tasks, pending, histories := None, map[], map[], None;
      storedGate, storedHistory, storedTodos, turnCount, gateCount := None, [], None, 0, 0;
      epoch, accepted, dispatched := 0, [], [];
    }

    /** A message, mode or clarify post: refused while a turn is registered, else launched. */
    method LaunchTurn(request: Request) returns (launched: bool)
      requires Inv(Now())
      modifies this`activeTurn, this`tasks, this`turnCount
      ensures Now() == Step(config, old(Now()), Post(request)) && Inv(Now())
      ensures launched <==> old(activeTurn) == None
      ensures launched ==> activeTurn.Some? && tasks.Keys == {activeTurn.value}
    {
      PostKeeps(Now(), request);
      launched := activeTurn.None?;
      if launched {
        tasks := tasks[turnCount := Task(Created(request), false)];
        activeTurn := Some(turnCount);
        turnCount := turnCount + 1;
        assert tasks.Keys == {activeTurn.value};
      }
    }

    /** `resolve_edit` and `resolve_command`. */
    method ResolveHold(hold: Hold) returns (taken: bool)
      requires Inv(Now())
      modifies this`pending, this`storedGate, this`accepted
      ensures Now() == Step(config, old(Now()), Decide(hold)) && Inv(Now())
      ensures taken <==> accepted != old(accepted)
      ensures taken ==> hold in old(pending) && old(pending[hold].gate) !in old(accepted)
    {
      DecideKeeps(Now(), hold);
      if hold !in pending || pending[hold].future != Waiting {
        if storedGate.Some? && storedGate.value.kind == Held(hold) {
          storedGate := None;
        }
        return false;
      }
      accepted := accepted + [pending[hold].gate];
      pending := pending[hold := pending[hold].(future := Decided)];
      taken := true;
    }

    /** The future's side of a timeout or a cancellation. */
    method CancelWaiter(hold: Hold)
      requires Inv(Now())
      modifies this`pending
      ensures Now() == Step(config, old(Now()), Expire(hold)) && Inv(Now())
    {
      CancelKeeps(Now(), hold);
      if hold in pending && pending[hold].future == Waiting {
        pending := pending[hold := pending[hold].(future := Cancelled)];
      }
    }

    /** `stop_turn` up to its await: false when there is nothing left to stop. */
    method StopTurn() returns (stopping: bool)
      requires Inv(Now())
      modifies this`tasks, this`pending
      ensures Now() == Step(config, old(Now()), Stop) && Inv(Now())
      ensures stopping <==> tasks != map[]
    {
      StopKeeps(Now());
      hide Inv;
      stopping := activeTurn.Some? && activeTurn.value in tasks;
      if stopping {
        var task := tasks[activeTurn.value];
        if task.at.AtGate? {
          CancelWaiter(task.at.hold);
        }
        tasks := tasks[activeTurn.value := task.(cancelled := true)];
        assert activeTurn.value in tasks;
      } else {
        SlotOrNothing(Now());
      }
    }

    /** A stretch of the loop: entries appended, and the ledger, when it is rewritten, written through. */
    method Continue(id: nat, entries: History, rewrite: Rewrite)
      requires Inv(Now()) && id in tasks && !tasks[id].cancelled && tasks[id].at.InLoop?
      modifies this`tasks, this`storedTodos
      ensures Now() == Step(config, old(Now()), Run(id, Think(entries, rewrite))) && Inv(Now())
      ensures var loop := old(tasks[id].at.loop);
              var ledger := if rewrite.Replaced? && rewrite.items != [] then rewrite.items else loop.ledger;
              && tasks == map[id := Task(InLoop(Loop(loop.phase, loop.live + entries, ledger)), false)]
              && storedTodos == Kept(ledger)
    {
      RunKeeps(config, Now(), id, Think(entries, rewrite));
      LoopsLedger(Now(), id);
      ThinkGoesOn(config, Now(), id, entries, rewrite);
      hide Inv;
      var loop := tasks[id].at.loop;
      loop := loop.(live := loop.live + entries);
      if rewrite.Replaced? && rewrite.items != [] {
        loop := loop.(ledger := rewrite.items);
        storedTodos := Some(rewrite.items);
      }
      tasks := tasks[id := Task(InLoop(loop), false)];
    }

    /** `_edit_decision_cb` and `_command_approval_cb` up to their await. */
    method RaiseGate(id: nat, hold: Hold, entries: History)
      requires Inv(Now()) && id in tasks && !tasks[id].cancelled
      requires tasks[id].at.InLoop? && Asks(tasks[id].at.loop.phase, hold)
      modifies this`storedGate, this`gateCount, this`pending, this`tasks
      ensures Now() == Step(config, old(Now()), Run(id, Ask(hold, entries))) && Inv(Now())
      ensures storedGate == Some(Gate(Held(hold), old(gateCount)))
      ensures pending == map[hold := Waiter(old(gateCount), Waiting)]
      ensures var loop := old(tasks[id].at.loop);
              var asking := Loop(loop.phase, loop.live + entries, loop.ledger);
              tasks == map[id := Task(AtGate(hold, old(gateCount), asking), false)]
    {
      RunKeeps(config, Now(), id, Ask(hold, entries));
      AskSuspends(config, Now(), id, hold, entries);
      hide Inv;
      storedGate := Some(Gate(Held(hold), gateCount));
      pending := pending[hold := Waiter(gateCount, Waiting)];
      var loop := tasks[id].at.loop;
      tasks := tasks[id := Task(AtGate(hold, gateCount, loop.(live := loop.live + entries)), false)];
      gateCount := gateCount + 1;
    }

    /** The callbacks after their await, decided or timed out: the finally, and back into the loop. */
    method ResumeTurn(id: nat)
      requires Inv(Now()) && id in tasks && !tasks[id].cancelled && tasks[id].at.AtGate?
      requires tasks[id].at.hold in pending && pending[tasks[id].at.hold].future != Waiting
      modifies this`storedGate, this`pending, this`tasks
      ensures Now() == Step(config, old(Now()), Run(id, GO)) && Inv(Now())
      ensures storedGate == None && pending == map[]
      ensures tasks == map[id := Task(InLoop(old(tasks[id].at.loop)), false)]
    {
      RunKeeps(config, Now(), id, GO);
      WaitersOf(Now(), id);
      OnlyTurn(Now(), id);
      hide Inv;
      var at := tasks[id].at;
      pending := pending - {at.hold};
      storedGate := None;
      ghost var others := tasks - {id};
      assert tasks[id := Task(InLoop(at.loop), false)] == others[id := Task(InLoop(at.loop), false)];
      tasks := tasks[id := Task(InLoop(at.loop), false)];
    }

    /** History into the cache and the store. */
    method Persist(live: History)
      modifies this`histories, this`storedHistory
      ensures Now() == old(Now()).(cache := Some(live), store := live)
    {
      histories := Some(live);
      storedHistory := live;
    }

    /** A finished request drops the stored ledger, an unfinished one keeps it. */
    method KeepTodos(ledger: Ledger, finished: bool)
      modifies this`storedTodos
      ensures Now() == old(Now()).(todos := if finished then None else Kept(ledger))
    {
      storedTodos := if finished || ledger == [] then None else Some(ledger);
    }

    /** `_finish`: the gate that a proposal or a question presents. */
    method Present(outcome: Outcome, phase: Phase)
      modifies this`storedGate, this`gateCount
      ensures Now() == Presented(old(Now()), outcome, phase)
    {
      match outcome {
        case ProposeMode =>
          storedGate := Some(Gate(ModeChoice, gateCount));
          gateCount := gateCount + 1;
        case Clarify =>
          storedGate := Some(Gate(Clarification(phase == EDIT), gateCount));
          gateCount := gateCount + 1;
        case _ =>
      }
    }

    /** `_run_turn`'s finally. */
    method GiveBack(id: nat)
      modifies this`tasks, this`activeTurn
      ensures Now() == Finish(old(Now()), id)
    {
      tasks := tasks - {id};
      activeTurn := None;
    }

    /** A normal end of the loop: history saved, the ledger kept or dropped, the outcome's gate presented,
        the slot given back. */
    method FinishTurn(id: nat, outcome: Outcome, entries: History)
      requires Inv(Now()) && id in tasks && !tasks[id].cancelled && tasks[id].at.InLoop?
      requires Ends(tasks[id].at.loop, outcome)
      modifies this`histories, this`storedHistory, this`storedTodos, this`storedGate, this`gateCount, this`tasks,
               this`activeTurn
      ensures Now() == Step(config, old(Now()), Run(id, Complete(outcome, entries))) && Inv(Now())
      ensures activeTurn == None && tasks == map[]
      ensures histories == Some(storedHistory) && storedHistory == old(tasks[id].at.loop.live) + entries
      ensures var over := outcome == Answer || outcome == Submit;
              Loaded(storedTodos) == if over then [] else old(tasks[id].at.loop.ledger)
      ensures var editing := old(tasks[id].at.loop.phase) == EDIT;
              storedGate == match outcome
                            case ProposeMode => Some(Gate(ModeChoice, old(gateCount)))
                            case Clarify => Some(Gate(Clarification(editing), old(gateCount)))
                            case _ => None
    {
      RunKeeps(config, Now(), id, Complete(outcome, entries));
      NothingPendingIff(tasks[id].at.loop.ledger);
      CompleteSettles(config, Now(), id, outcome, entries);
      OnlyTurn(Now(), id);
      LoopsLedger(Now(), id);
      FinishedIs(config, Now(), id, outcome, entries);
      hide Inv, Step;
      var loop := tasks[id].at.loop;
      Persist(loop.live + entries);
      KeepTodos(loop.ledger, outcome == Answer || outcome == Submit);
      Present(outcome, loop.phase);
      GiveBack(id);
    }

    /** `_run_turn` after an exception: in the loop, while a task's plan is awaited, or in the first section
        before or after it has cleared the gate. Nothing is saved, the slot is given back. */
    method FailTurn(id: nat, cleared: bool)
      requires Inv(Now()) && id in tasks && !tasks[id].cancelled && !tasks[id].at.AtGate?
      modifies this`tasks, this`activeTurn, this`storedGate
      ensures Now() == Step(config, old(Now()), Fail(id, cleared)) && Inv(Now())
      ensures activeTurn == None && tasks == map[]
      ensures storedGate == if old(tasks[id].at.Created?) && cleared then None else old(storedGate)
    {
      FailKeeps(Now(), id, cleared);
      OnlyTurn(Now(), id);
      hide Inv;
      if tasks[id].at.Created? && cleared {
        storedGate := None;
      }
      GiveBack(id);
    }

    /** A cancelled turn unwinding: the gate callback's finally, the partial history and the ledger,
        `_run_turn`'s finally. */
    method UnwindTurn(id: nat)
      requires Inv(Now()) && id in tasks && tasks[id].cancelled && HasLoop(tasks[id].at)
      modifies this`histories, this`storedHistory, this`storedTodos, this`storedGate, this`pending, this`tasks,
               this`activeTurn
      ensures Now() == Step(config, old(Now()), Run(id, GO)) && Inv(Now())
      ensures activeTurn == None && tasks == map[] && pending == map[] && storedGate == None
      ensures var live := old(tasks[id].at.loop.live); storedHistory == if live == [] then old(storedHistory) else live
      ensures storedTodos == old(storedTodos)
    {
      RunKeeps(config, Now(), id, GO);
      OnlyTurn(Now(), id);
      if tasks[id].at.InLoop? { GateOfLoop(Now(), id); }
      WaitersOf(Now(), id);
      LoopsLedger(Now(), id);
      hide Inv;
      var at := tasks[id].at;
      if at.AtGate? {
        pending := pending - {at.hold};
        storedGate := None;
      }
      if at.loop.live != [] {
        Persist(at.loop.live);
      }
      KeepTodos(at.loop.ledger, false);
      GiveBack(id);
    }

    /** `_seed_for`: the cached history, or the stored one, cached now. */
    method SeedFor() returns (seed: History)
      modifies this`histories
      ensures seed == Seed(old(Now())) && histories == Some(seed)
    {
      seed := if histories.Some? then histories.value else storedHistory;
      histories := Some(seed);
    }

    /** The first section of `handle_message`: it supersedes any gate and decides anew. */
    method HandleMessage(id: nat, text: string)
      requires Inv(Now()) && id in tasks && tasks[id] == Task(Created(Message(text)), false)
      modifies this`histories, this`storedGate, this`tasks
      ensures Now() == Step(config, old(Now()), Run(id, GO)) && Inv(Now())
      ensures storedGate == None && id in tasks
      ensures var live := if old(storedHistory) == [] then [] else old(storedHistory) + [text];
              tasks[id] == Task(InLoop(Loop(DECIDE, live, Loaded(storedTodos))), false)
    {
      RunKeeps(config, Now(), id, GO);
      SeedIsStore(Now());
      hide Inv;
      storedGate := None;
      var seed := SeedFor();
      var live := if seed == [] then [] else seed + [text];
      tasks := tasks[id := Task(InLoop(Loop(DECIDE, live, Loaded(storedTodos))), false)];
    }

    /** The first section of `resolve_clarify`. */
    method ResolveClarify(id: nat, answer: string) returns (resumes: bool)
      requires Inv(Now()) && id in tasks && tasks[id] == Task(Created(ClarifyAnswer(answer)), false)
      modifies this`histories, this`storedGate, this`tasks, this`activeTurn
      ensures Now() == Step(config, old(Now()), Run(id, GO)) && Inv(Now())
      ensures resumes <==> old(storedGate).Some? && old(storedGate).value.kind.Clarification?
                           && config.strip(answer) != ""
      ensures resumes ==>
                var phase := if old(storedGate).value.kind.resumeEdit then EDIT else DECIDE;
                var live := old(storedHistory) + [config.strip(answer)];
                && storedGate == None && id in tasks
                && tasks[id] == Task(InLoop(Loop(phase, live, Loaded(storedTodos))), false)
      ensures !resumes ==> storedGate == old(storedGate) && activeTurn == None
    {
      RunKeeps(config, Now(), id, GO);
      SeedIsStore(Now());
      hide Inv;
      resumes := storedGate.Some? && storedGate.value.kind.Clarification? && config.strip(answer) != "";
      if resumes {
        var phase := ResumePhase(storedGate.value.kind.resumeEdit);
        storedGate := None;
        var seed := SeedFor();
        var live := seed + [config.strip(answer)];
        tasks := tasks[id := Task(InLoop(Loop(phase, live, Loaded(storedTodos))), false)];
      } else {
        GiveBack(id);
      }
    }

    /** The first section of `resolve_mode`: the read and the clear of the gate have no await between. */
    method ResolveMode(id: nat, mode: string) returns (dispatches: bool)
      requires Inv(Now()) && id in tasks && tasks[id] == Task(Created(ModeDecision(mode)), false)
      modifies this`histories, this`storedGate, this`tasks, this`activeTurn, this`dispatched
      ensures Now() == Step(config, old(Now()), Run(id, GO)) && Inv(Now())
      ensures dispatches <==> dispatched != old(dispatched)
      ensures dispatches ==> old(storedGate).Some? && old(storedGate).value.id !in old(dispatched) && storedGate == None
    {
      RunKeeps(config, Now(), id, GO);
      ghost var before := Now();
      OfferedOnce(before);
      hide Inv;
      dispatches := false;
      if storedGate.Some? && storedGate.value.kind == ModeChoice
         && ((mode != "create_task" && mode != "resume") || config.taskSubsystem) {
        dispatches := true;
        dispatched := dispatched + [storedGate.value.id];
        storedGate := None;
        if mode == "explain" || ((mode == "edit" || mode == "create_task") && config.orchestrator) {
          var seed := SeedFor();
          var ledger := Loaded(storedTodos);
          tasks := tasks[id := Task(if mode == "edit" then InLoop(Loop(EDIT, seed, ledger))
                                    else if mode == "explain" then InLoop(Loop(EXPLAIN, seed + ["explain"], ledger))
                                    else AwaitingTask, false)];
          return;
        }
      }
      GiveBack(id);
    }
  }

  lemma FinishedIs(config: Config, s: State, id: nat, outcome: Outcome, entries: History)
    requires id in s.turns && !s.turns[id].cancelled && s.turns[id].at.InLoop? && Ends(s.turns[id].at.loop, outcome)
    ensures
      var loop := s.turns[id].at.loop;
      var saved := s.(cache := Some(loop.live + entries), store := loop.live + entries);
      var kept := saved.(todos := if outcome == Answer || outcome == Submit then None else Kept(loop.ledger));
      Step(config, s, Run(id, Complete(outcome, entries))) == Finish(Presented(kept, outcome, loop.phase), id)
  {
    hide Pending;
  }

  lemma LoopsLedger(s: State, id: nat)
    requires Inv(s) && id in s.turns && HasLoop(s.turns[id].at)
    ensures s.todos == Kept(s.turns[id].at.loop.ledger)
  {
  }

  lemma GateOfLoop(s: State, id: nat)
    requires Inv(s) && id in s.turns && s.turns[id].at.InLoop?
    ensures s.gate == None
  {
  }

  lemma SlotOrNothing(s: State)
    requires Inv(s) && !(s.slot.Some? && s.slot.value in s.turns)
    ensures s.turns == map[]
  {
  }

  lemma OnlyTurn(s: State, id: nat)
    requires Inv(s) && id in s.turns
    ensures s.turns - {id} == map[]
  {
    NoOtherTurn(s, id);
  }

  lemma WaitersOf(s: State, id: nat)
    requires Inv(s) && id in s.turns
    ensures s.turns[id].at.AtGate? ==>
              s.turns[id].at.hold in s.waiters && s.waiters - {s.turns[id].at.hold} == map[]
              && (s.turns[id].cancelled ==> s.waiters[s.turns[id].at.hold].future != Waiting)
    ensures !s.turns[id].at.AtGate? ==> s.waiters == map[]
  {
    NoOtherTurn(s, id);
    forall h | h in s.waiters ensures IsAt(s.turns[id].at, h, s.waiters[h].gate) {
      var other :| other in s.turns && IsAt(s.turns[other].at, h, s.waiters[h].gate);
    }
  }

  lemma OfferedOnce(s: State)
    requires Inv(s)
    ensures s.gate.Some? && s.gate.value.kind == ModeChoice ==> s.gate.value.id !in s.dispatched
  {
  }
}
