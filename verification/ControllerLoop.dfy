/** One controller turn: the loop that asks the model for an action, rejects, executes,
    edits or stops, whatever the model answers. */
module ControllerLoop {
  import opened ControllerPhases
  import opened PatchEngine
  import opened EditSession
  import opened TodoLedgers
  import opened Wrappers
  import TurnProtocol

  type Args = map<string, string>

  /** A model response: the fields the loop reads. A field of the wrong JSON type is as if absent. */
  datatype Response = Response(
    action: string, answer: string, question: string,
    tool: string, args: Option<Args>, todos: seq<RawItem>,
    optionModes: Option<seq<Option<string>>>, ops: seq<PatchOp>)

  datatype Config = Config(
    phase: Phase, maxIters: int, taskSubsystem: bool, autoAccept: bool, strip: string -> string)

  /** Everything a turn is started with: its configuration, the workspace, the ledger carried in,
      the model, which may answer anything at each call, and the user, who may decide anything at each
      review. */
  datatype Turn = Turn(config: Config, engine: Engine, disk: Files, items: seq<TodoItem>, model: nat -> Response,
                       user: nat -> bool)

  datatype Entry = AssistantTurn(action: string) | ToolResult(tool: string) | Message(text: string)

  datatype Key = Key(tool: string, args: Args)

  /** What one iteration did with the model's response. */
  datatype Event =
    | Rejected
    | Answered
    | Clarified
    | Proposed
    | BudgetSpent
    | DuplicateBlocked(key: Key)
    | Executed(key: Key, rewrite: Rewrite)
    | EmptyEdit
    | PatchFailed(ops: seq<PatchOp>)
    | Edited(batch: Batch)
    | SubmitBlocked
    | Submitted

  datatype Outcome = Exhausted | Ended | Finished(last: Event)

  const MAX_MALFORMED := 3

  // ---- the rules ----

  function AllowedModes(taskSubsystem: bool): set<string> {
    if taskSubsystem then {"edit", "create_task", "resume", "explain"} else {"edit", "explain"}
  }

  /** Bumping `context_lines` on `search_code` does not make a new call. */
  function DedupKey(tool: string, args: Args): Key {
    Key(tool, if tool == "search_code" then args - {"context_lines"} else args)
  }

  predicate ProposalCorrected(config: Config, response: Response) {
    || response.optionModes.None?
    || response.optionModes.value == []
    || exists i :: 0 <= i < |response.optionModes.value|
                   && (response.optionModes.value[i].None?
                       || response.optionModes.value[i].value !in AllowedModes(config.taskSubsystem))
  }

  predicate ActionCorrected(config: Config, response: Response) {
    || (response.action == "answer" && config.strip(response.answer) == "")
    || (response.action == "clarify" && config.strip(response.question) == "")
    || (response.action == "tool_call"
        && ((config.phase == DECIDE && response.tool == "run_command")
            || config.strip(response.tool) == "" || response.args.None? || response.args.value == map[]))
  }

  /** The response is turned back with a correction instead of being acted on. */
  predicate Corrected(config: Config, response: Response) {
    if response.action !in PhaseTypes(config.phase) then true
    else if response.action == "propose_mode" then ProposalCorrected(config, response)
    else ActionCorrected(config, response)
  }

  /** A well-formed `run_command` call is turned back while deciding, and only then: an explaining turn
      may run commands, as an editing one may. */
  lemma CommandsBarredOnlyWhileDeciding(config: Config, response: Response)
    requires response.action == "tool_call" && response.tool == "run_command"
    requires config.strip(response.tool) != "" && response.args.Some? && response.args.value != map[]
    ensures Corrected(config, response) <==> config.phase == DECIDE
  {
    assert "tool_call"[0] == 't' && "propose_mode"[0] == 'p' && "answer"[0] == 'a' && "clarify"[0] == 'c';
  }

  /** Which responses are acted on, action by action. */
  lemma ActedOnIff(config: Config, response: Response)
    ensures !Corrected(config, response) <==>
            || (response.action == "answer" && config.phase != EDIT && config.strip(response.answer) != "")
            || (response.action == "clarify" && config.strip(response.question) != "")
            || (response.action == "tool_call" && config.strip(response.tool) != ""
                && response.args.Some? && response.args.value != map[]
                && (config.phase == DECIDE ==> response.tool != "run_command"))
            || (response.action == "propose_mode" && config.phase == DECIDE
                && response.optionModes.Some? && response.optionModes.value != []
                && forall mode | mode in response.optionModes.value ::
                     mode in {Some("edit"), Some("explain")}
                     || (config.taskSubsystem && mode in {Some("create_task"), Some("resume")}))
            || (response.action == "edit" && config.phase == EDIT)
            || (response.action == "submit_changes" && config.phase == EDIT)
  {
    ActionsDiffer();
    ProposalAccepted(config, response);
    hide ProposalCorrected;
  }

  lemma ActionsDiffer()
    ensures "answer" != "clarify" && "answer" != "propose_mode" && "clarify" != "propose_mode"
    ensures "tool_call" != "answer" && "tool_call" != "clarify" && "tool_call" != "propose_mode"
    ensures "edit" !in {"answer", "clarify", "propose_mode", "tool_call", "submit_changes"}
    ensures "submit_changes" !in {"answer", "clarify", "propose_mode", "tool_call"}
  {
    assert "answer"[0] == 'a' && "clarify"[0] == 'c' && "propose_mode"[0] == 'p' && "tool_call"[0] == 't';
    assert "edit"[0] == 'e' && "submit_changes"[0] == 's';
  }

  lemma ProposalAccepted(config: Config, response: Response)
    ensures !ProposalCorrected(config, response) <==>
            && response.optionModes.Some? && response.optionModes.value != []
            && forall mode | mode in response.optionModes.value ::
                 mode in {Some("edit"), Some("explain")}
                 || (config.taskSubsystem && mode in {Some("create_task"), Some("resume")})
  {
    if response.optionModes.Some? && response.optionModes.value != [] {
      var modes := response.optionModes.value;
      forall mode | mode in modes
        ensures (mode.None? || mode.value !in AllowedModes(config.taskSubsystem)) <==>
                !(mode in {Some("edit"), Some("explain")}
                  || (config.taskSubsystem && mode in {Some("create_task"), Some("resume")}))
      {
      }
      if ProposalCorrected(config, response) {
        var i :| 0 <= i < |modes| && (modes[i].None? || modes[i].value !in AllowedModes(config.taskSubsystem));
        assert modes[i] in modes;
      }
    }
  }

  /** Two calls are one to the duplicate guard exactly when tool and arguments agree, `context_lines` of a
      code search apart. */
  lemma SameKeyIff(tool: string, args: Args, tool': string, args': Args)
    ensures DedupKey(tool, args) == DedupKey(tool', args') <==>
            && tool == tool'
            && forall name | name in args.Keys + args'.Keys && !(tool == "search_code" && name == "context_lines") ::
                 name in args && name in args' && args[name] == args'[name]
  {
    var a := if tool == "search_code" then args - {"context_lines"} else args;
    var b := if tool == "search_code" then args' - {"context_lines"} else args';
    assert a == b <==>
      forall name | name in args.Keys + args'.Keys && !(tool == "search_code" && name == "context_lines") ::
        name in args && name in args' && args[name] == args'[name] by {
      if a == b {
        forall name | name in args.Keys + args'.Keys && !(tool == "search_code" && name == "context_lines")
          ensures name in args && name in args' && args[name] == args'[name]
        {
          assert name in a || name in b;
          assert name in a && name in b && a[name] == b[name];
        }
      }
    }
  }

  // ---- what a history of events has led to ----

  function ExecutedKeys(events: seq<Event>): (keys: seq<Key>)
    ensures |keys| <= |events|
  {
    if events == [] then []
    else
      var before := ExecutedKeys(events[..|events| - 1]);
      var last := events[|events| - 1];
      if last.Executed? then before + [last.key] else before
  }

  function LedgerAfter(items: seq<TodoItem>, events: seq<Event>): seq<TodoItem> {
    if events == [] then items
    else
      var last := events[|events| - 1];
      if last.Executed? && last.rewrite.Replaced? then last.rewrite.items
      else LedgerAfter(items, events[..|events| - 1])
  }

  function Batches(events: seq<Event>): seq<Batch> {
    if events == [] then []
    else
      var before := Batches(events[..|events| - 1]);
      match events[|events| - 1]
      case PatchFailed(ops) => before + [Batch(ops, false)]
      case Edited(batch) => before + [batch]
      case _ => before
  }

  /** How many rejections in a row end the events. */
  function Streak(events: seq<Event>): nat {
    if events == [] || !events[|events| - 1].Rejected? then 0 else 1 + Streak(events[..|events| - 1])
  }

  predicate Terminal(event: Event) {
    event.Answered? || event.Clarified? || event.Proposed? || event.BudgetSpent? || event.Submitted?
  }

  ghost function SessionAfter(turn: Turn, events: seq<Event>): Session {
    AfterRun(turn.engine, Fresh(turn.disk), Batches(events))
  }

  /** `event` is what the rules prescribe for `response`, given everything that happened before. */
  ghost predicate Prescribed(turn: Turn, past: seq<Event>, response: Response, event: Event) {
    if Corrected(turn.config, response) then event == Rejected
    else if response.action == "answer" then event == Answered
    else if response.action == "clarify" then event == Clarified
    else if response.action == "propose_mode" then event == Proposed
    else if response.action == "tool_call" then ToolPrescribed(turn, past, response, event)
    else if response.action == "edit" then EditPrescribed(turn, past, response, event)
    else SubmitPrescribed(turn, past, event)
  }

  ghost predicate SubmitPrescribed(turn: Turn, past: seq<Event>, event: Event) {
    event == if Pending(LedgerAfter(turn.items, past)) != [] then SubmitBlocked else Submitted
  }

  ghost predicate ToolPrescribed(turn: Turn, past: seq<Event>, response: Response, event: Event)
    requires response.args.Some?
  {
    var key := DedupKey(response.tool, response.args.value);
    if |past| >= turn.config.maxIters then event == BudgetSpent
    else if key in ExecutedKeys(past) then event == DuplicateBlocked(key)
    else event.Executed? && event.key == key
         && (if response.tool == "write_todos" then Rewrites(turn.config.strip, response.todos, event.rewrite)
             else event.rewrite == Refused)
  }

  ghost predicate EditPrescribed(turn: Turn, past: seq<Event>, response: Response, event: Event) {
    if response.ops == [] then event == EmptyEdit
    else if !Applies(turn.engine, SessionAfter(turn, past), response.ops) then event == PatchFailed(response.ops)
    else event == Edited(Batch(response.ops, turn.config.autoAccept || turn.user(|past|)))
  }

  function Budget(config: Config): nat {
    if config.maxIters < 0 then 0 else config.maxIters + 1
  }

  /** A run so far: each event prescribed for the model's next response, and none after the
      event that ends the loop. */
  ghost predicate IsRun(turn: Turn, events: seq<Event>) {
    events == [] ||
    (var past, n := events[..|events| - 1], |events| - 1;
     && IsRun(turn, past) && GoesOn(past) && n < Budget(turn.config)
     && Prescribed(turn, past, turn.model(n), events[n]))
  }

  predicate GoesOn(events: seq<Event>) {
    (events == [] || !Terminal(events[|events| - 1])) && Streak(events) <= MAX_MALFORMED
  }

  /** How the loop ends after these events, if it does. */
  ghost predicate Ends(turn: Turn, events: seq<Event>, outcome: Outcome) {
    if events != [] && Terminal(events[|events| - 1]) then outcome == Finished(events[|events| - 1])
    else if Streak(events) > MAX_MALFORMED then outcome == Exhausted
    else outcome == Ended && |events| == Budget(turn.config)
  }

  /** What an iteration adds to the conversation. A tool result is known by its tool; the rejection that
      raises, the `streak`-th in a row, adds nothing. */
  function Recorded(response: Response, event: Event, streak: nat): seq<Entry> {
    match event
    case Rejected => if streak > MAX_MALFORMED then [] else [AssistantTurn(response.action), ToolResult("")]
    case BudgetSpent => []
    case DuplicateBlocked(_) => [AssistantTurn("{}"), ToolResult(response.tool)]
    case Executed(_, _) => [AssistantTurn("tool_call"), ToolResult(response.tool)]
    case EmptyEdit => [AssistantTurn("edit"), ToolResult("edit")]
    case PatchFailed(_) => [AssistantTurn("edit"), ToolResult("edit")]
    case Edited(batch) =>
      [AssistantTurn("edit"), ToolResult("edit")] + if batch.accepted then [ToolResult("retrieval_refresh")] else []
    case SubmitBlocked => [AssistantTurn("submit_changes"), ToolResult("")]
    case Answered => [AssistantTurn("answer")]
    case Clarified => [AssistantTurn("clarify")]
    case Proposed => [AssistantTurn("propose_mode")]
    case Submitted => [AssistantTurn("submit_changes")]
  }

  function HistoryOf(turn: Turn, events: seq<Event>): seq<Entry> {
    if events == [] then []
    else
      var n := |events| - 1;
      HistoryOf(turn, events[..n]) + Recorded(turn.model(n), events[n], Streak(events))
  }

  lemma HistorySnoc(turn: Turn, events: seq<Event>, event: Event)
    ensures HistoryOf(turn, events + [event]) ==
            HistoryOf(turn, events) + Recorded(turn.model(|events|), event, Streak(events + [event]))
  {
    hide Recorded, Streak;
    assert (events + [event])[..|events|] == events;
  }

  lemma RejectionRecorded(response: Response, streak: nat)
    ensures Recorded(response, Rejected, streak) ==
            if streak > MAX_MALFORMED then [] else [AssistantTurn(response.action), ToolResult("")]
  {
  }

  // ---- what every run keeps, for every sequence of model responses ----

  /** A run makes at most `maxIters + 1` model calls and `maxIters` tool executions,
      and never executes one (tool, arguments) key twice. */
  lemma {:induction false} RunIsBounded(turn: Turn, events: seq<Event>)
    requires IsRun(turn, events)
    ensures |events| == 0 || |events| <= turn.config.maxIters + 1
    ensures ExecutedKeys(events) == [] || |ExecutedKeys(events)| <= turn.config.maxIters
    ensures forall i, j | 0 <= i < j < |ExecutedKeys(events)| :: ExecutedKeys(events)[i] != ExecutedKeys(events)[j]
  {
    if events != [] {
      var past, n := events[..|events| - 1], |events| - 1;
      RunIsBounded(turn, past);
      LastPrescribed(turn, events);
      ExecutedOnce(turn, past, turn.model(n), events[n]);
      hide Prescribed, Streak;
    }
  }

  lemma ExecutedOnce(turn: Turn, past: seq<Event>, response: Response, event: Event)
    requires Prescribed(turn, past, response, event)
    ensures event.Executed? ==> |past| < turn.config.maxIters && event.key !in ExecutedKeys(past)
  {
    hide Corrected, ToolPrescribed, EditPrescribed, SubmitPrescribed, ExecutedKeys;
    CallsHaveArgs(turn.config, response);
    OthersExecuteNothing(turn, past, response, event);
    ToolExecutedOnce(turn, past, response, event);
  }

  lemma CallsHaveArgs(config: Config, response: Response)
    ensures !Corrected(config, response) && response.action == "tool_call" ==> response.args.Some?
  {
    ActionsDiffer();
    hide ProposalCorrected, PhaseTypes;
  }

  lemma OthersExecuteNothing(turn: Turn, past: seq<Event>, response: Response, event: Event)
    ensures EditPrescribed(turn, past, response, event) || SubmitPrescribed(turn, past, event) ==> !event.Executed?
  {
    hide SessionAfter, Applies, Pending, LedgerAfter;
  }

  lemma ToolExecutedOnce(turn: Turn, past: seq<Event>, response: Response, event: Event)
    ensures response.args.Some? && ToolPrescribed(turn, past, response, event) && event.Executed? ==>
              |past| < turn.config.maxIters && event.key !in ExecutedKeys(past)
  {
    hide DedupKey, Rewrites, ExecutedKeys;
  }

  lemma {:induction false} KeyExecuted(events: seq<Event>, key: Key)
    ensures key in ExecutedKeys(events) <==>
            exists j :: 0 <= j < |events| && events[j].Executed? && events[j].key == key
  {
    if events != [] {
      var n := |events| - 1;
      KeyExecuted(events[..n], key);
      assert forall j | 0 <= j < n :: events[..n][j] == events[j];
    }
  }

  /** What becomes of the n-th response when it is a well-formed tool call: with the budget spent it ends
      the loop, an earlier execution under the same key blocks it, and otherwise it is executed. */
  lemma {:induction false} ToolCallFate(turn: Turn, events: seq<Event>, n: nat)
    requires IsRun(turn, events) && n < |events|
    requires turn.model(n).action == "tool_call" && !Corrected(turn.config, turn.model(n))
    ensures
      var key := DedupKey(turn.model(n).tool, turn.model(n).args.value);
      var repeated := exists j :: 0 <= j < n && events[j].Executed? && events[j].key == key;
      if n >= turn.config.maxIters then events[n] == BudgetSpent
      else if repeated then events[n] == DuplicateBlocked(key)
      else events[n].Executed? && events[n].key == key
           && (events[n].rewrite.Replaced? ==> turn.model(n).tool == "write_todos")
  {
    if n < |events| - 1 {
      var past := events[..|events| - 1];
      ToolCallFate(turn, past, n);
      assert forall j | 0 <= j <= n :: past[j] == events[j];
    } else {
      ActionsDiffer();
      KeyExecuted(events[..n], DedupKey(turn.model(n).tool, turn.model(n).args.value));
      hide IsRun, Corrected, DedupKey, ExecutedKeys;
      assert Prescribed(turn, events[..n], turn.model(n), events[n]) by { LastPrescribed(turn, events); }
    }
  }

  /** What becomes of the n-th response when it is anything else. An edit that applies is kept if the
      session accepts by itself or the user accepts it; a submit goes through if no item is open. */
  lemma {:induction false} ResponseFate(turn: Turn, events: seq<Event>, n: nat)
    requires IsRun(turn, events) && n < |events|
    ensures
      var response, event := turn.model(n), events[n];
      if Corrected(turn.config, response) then event == Rejected
      else
        && (response.action == "answer" ==> event == Answered)
        && (response.action == "clarify" ==> event == Clarified)
        && (response.action == "propose_mode" ==> event == Proposed)
        && (response.action == "edit" ==>
              if response.ops == [] then event == EmptyEdit
              else if !Applies(turn.engine, SessionAfter(turn, events[..n]), response.ops) then
                event == PatchFailed(response.ops)
              else
                event.Edited? && event.batch.ops == response.ops
                && (event.batch.accepted <==> turn.config.autoAccept || turn.user(n)))
        && (response.action == "submit_changes" ==>
              if forall item | item in LedgerAfter(turn.items, events[..n]) ::
                   item.status != "pending" && item.status != "in_progress"
              then event == Submitted else event == SubmitBlocked)
  {
    var past := events[..|events| - 1];
    if n < |past| {
      ResponseFate(turn, past, n);
      assert past[..n] == events[..n] && past[n] == events[n];
      hide *;
    } else {
      assert past == events[..n];
      ActionsDiffer();
      NothingPendingIff(LedgerAfter(turn.items, past));
      LastPrescribed(turn, events);
      hide IsRun, Corrected, SessionAfter, LedgerAfter, Applies, Pending, DedupKey, ExecutedKeys;
    }
  }

  lemma LastPrescribed(turn: Turn, events: seq<Event>)
    requires IsRun(turn, events) && events != []
    ensures Prescribed(turn, events[..|events| - 1], turn.model(|events| - 1), events[|events| - 1])
  {
    hide Prescribed;
  }

  /** The ledger is the list carried in until it is rewritten, and then the last list written. */
  lemma {:induction false} LedgerIsLastRewrite(items: seq<TodoItem>, events: seq<Event>)
    ensures (forall i | 0 <= i < |events| && events[i].Executed? :: events[i].rewrite.Refused?) ==>
              LedgerAfter(items, events) == items
    ensures forall i | 0 <= i < |events| && events[i].Executed? && events[i].rewrite.Replaced?
              && (forall j | i < j < |events| && events[j].Executed? :: events[j].rewrite.Refused?) ::
              LedgerAfter(items, events) == events[i].rewrite.items
  {
    if events != [] {
      var n, past := |events| - 1, events[..|events| - 1];
      LedgerIsLastRewrite(items, past);
      assert forall j | 0 <= j < n :: past[j] == events[j];
      LedgerSnoc(items, past, events[n]);
      assert past + [events[n]] == events;
      hide LedgerAfter;
    }
  }

  lemma LedgerSnoc(items: seq<TodoItem>, past: seq<Event>, event: Event)
    ensures LedgerAfter(items, past + [event])
         == if event.Executed? && event.rewrite.Replaced? then event.rewrite.items else LedgerAfter(items, past)
  {
    assert (past + [event])[..|past|] == past;
  }

  /** A ledger of known statuses stays one. */
  lemma {:induction false} LedgerStaysKnown(turn: Turn, events: seq<Event>)
    requires IsRun(turn, events) && Known(turn.items)
    ensures Known(LedgerAfter(turn.items, events))
  {
    if events != [] {
      var n := |events| - 1;
      LedgerStaysKnown(turn, events[..n]);
      if events[n].Executed? && events[n].rewrite.Replaced? {
        RewriteIsKnown(turn, events[..n], turn.model(n), events[n]);
      }
      hide IsRun, Known;
    }
  }

  lemma RewriteIsKnown(turn: Turn, past: seq<Event>, response: Response, event: Event)
    requires Prescribed(turn, past, response, event) && event.Executed? && event.rewrite.Replaced?
    ensures Known(event.rewrite.items)
  {
    hide Corrected, DedupKey, SessionAfter, ExecutedKeys;
    forall i | 0 <= i < |event.rewrite.items|
      ensures event.rewrite.items[i].status in {"pending", "in_progress", "done", "blocked", "cancelled"}
    {
      assert Acceptable(turn.config.strip, response.todos[i]);
    }
  }

  /** What an iteration leaves in the conversation: nothing when it spends the budget or raises, else the
      model's turn under its own action, or under none when it is a blocked repeat, and, unless it ends
      the loop, the result that answers it; an accepted edit also refreshes the retrieved context. */
  lemma RecordedShape(turn: Turn, past: seq<Event>, response: Response, event: Event, streak: nat)
    requires Prescribed(turn, past, response, event)
    ensures
      var said := Recorded(response, event, streak);
      var refreshed := event.Edited? && event.batch.accepted;
      var tool := if response.action == "tool_call" && !event.Rejected? then response.tool
                  else if response.action == "edit" && !event.Rejected? then "edit" else "";
      if event.BudgetSpent? || (event.Rejected? && streak > 3) then said == []
      else
        && |said| == (if Terminal(event) then 1 else if refreshed then 3 else 2)
        && said[0] == AssistantTurn(if event.DuplicateBlocked? then "{}" else response.action)
        && (|said| >= 2 ==> said[1] == ToolResult(tool))
        && (|said| == 3 ==> said[2] == ToolResult("retrieval_refresh"))
  {
    ActionsDiffer();
    NotCorrectedAction(turn.config, response);
    CallsHaveArgs(turn.config, response);
    hide Corrected, SessionAfter, DedupKey, Rewrites, Applies, Pending, LedgerAfter, ExecutedKeys;
  }

  lemma NotCorrectedAction(config: Config, response: Response)
    ensures !Corrected(config, response) ==>
              response.action in {"answer", "clarify", "propose_mode", "tool_call", "edit", "submit_changes"}
  {
    ActionsDiffer();
    hide ProposalCorrected;
  }

  /** It opens with a turn of the model's, and every such turn is answered by a result before the next. */
  predicate Alternates(said: seq<Entry>) {
    && (said != [] ==> said[0].AssistantTurn?)
    && (forall i | 0 <= i < |said| - 1 && said[i].AssistantTurn? :: said[i + 1].ToolResult?)
  }

  predicate Unanswered(said: seq<Entry>) {
    said != [] && said[|said| - 1].AssistantTurn?
  }

  lemma AlternatesOn(said: seq<Entry>, more: seq<Entry>)
    requires Alternates(said) && Alternates(more) && !Unanswered(said)
    ensures Alternates(said + more)
    ensures more != [] ==> (Unanswered(said + more) <==> Unanswered(more))
  {
    var all := said + more;
    forall i | 0 <= i < |all| - 1 && all[i].AssistantTurn? ensures all[i + 1].ToolResult? {
      if i >= |said| {
        assert more[i - |said|].AssistantTurn?;
      }
    }
  }

  /** Over any run the conversation alternates, and only the turn that ends the loop stays unanswered. */
  lemma {:induction false} ConversationAlternates(turn: Turn, events: seq<Event>)
    requires IsRun(turn, events)
    ensures Alternates(HistoryOf(turn, events))
    ensures Unanswered(HistoryOf(turn, events)) ==> events != [] && Terminal(events[|events| - 1])
  {
    if events != [] {
      var past, n := events[..|events| - 1], |events| - 1;
      ConversationAlternates(turn, past);
      LastPrescribed(turn, events);
      hide Prescribed, Recorded, Terminal, Streak, Alternates, Unanswered;
      var more := Recorded(turn.model(n), events[n], Streak(events));
      RecordedAlternates(turn, past, turn.model(n), events[n], Streak(events));
      AlternatesOn(HistoryOf(turn, past), more);
      if more == [] {
        assert HistoryOf(turn, events) == HistoryOf(turn, past);
      }
    }
  }

  lemma RecordedAlternates(turn: Turn, past: seq<Event>, response: Response, event: Event, streak: nat)
    requires Prescribed(turn, past, response, event)
    ensures Alternates(Recorded(response, event, streak))
    ensures Unanswered(Recorded(response, event, streak)) ==> Terminal(event)
  {
    RecordedShape(turn, past, response, event, streak);
    hide Prescribed, Recorded, Terminal;
  }

  /** The loop runs out, neither ended nor raised, exactly at `maxIters` + 1 iterations. */
  lemma RunsOutAt(turn: Turn, events: seq<Event>)
    requires Ends(turn, events, Ended)
    ensures |events| == if turn.config.maxIters < 0 then 0 else turn.config.maxIters + 1
  {
  }

  /** The four responses before the n-th were all turned back. */
  ghost predicate FourTurnedBack(turn: Turn, n: nat) {
    n >= 4 && forall i: nat | n - 4 <= i < n :: Corrected(turn.config, turn.model(i))
  }

  /** The loop raises exactly when the fourth consecutive response has just been turned back,
      and no run goes on past such a point. */
  lemma {:induction false} RaisesOnFourthRejection(turn: Turn, events: seq<Event>, outcome: Outcome)
    requires IsRun(turn, events) && Ends(turn, events, outcome)
    ensures outcome == Exhausted <==> FourTurnedBack(turn, |events|)
    ensures forall n: nat | n < |events| :: !FourTurnedBack(turn, n)
  {
    hide Corrected, Prescribed;
    StreakIsTurnedBack(turn, events);
    if events != [] {
      NoneBeforeFourth(turn, events[..|events| - 1]);
    }
  }

  lemma RejectedIffCorrected(turn: Turn, past: seq<Event>, response: Response, event: Event)
    requires Prescribed(turn, past, response, event)
    ensures event.Rejected? <==> Corrected(turn.config, response)
  {
    hide Corrected, SessionAfter, DedupKey, Rewrites;
  }

  lemma {:induction false} StreakTurnedBack(turn: Turn, events: seq<Event>)
    requires IsRun(turn, events)
    ensures Streak(events) <= 4 && Streak(events) <= |events|
    ensures forall i: nat | |events| - Streak(events) <= i < |events| :: Corrected(turn.config, turn.model(i))
    ensures Streak(events) < |events| ==> !Corrected(turn.config, turn.model(|events| - Streak(events) - 1))
  {
    hide Corrected, Prescribed;
    if events != [] {
      var n := |events| - 1;
      StreakTurnedBack(turn, events[..n]);
      RejectedIffCorrected(turn, events[..n], turn.model(n), events[n]);
    }
  }

  lemma StreakIsTurnedBack(turn: Turn, events: seq<Event>)
    requires IsRun(turn, events)
    ensures Streak(events) > MAX_MALFORMED <==> FourTurnedBack(turn, |events|)
    ensures Streak(events) > 0 ==> !Terminal(events[|events| - 1])
  {
    hide Corrected, Prescribed;
    StreakTurnedBack(turn, events);
    if Streak(events) < |events| {
      var i: nat := |events| - Streak(events) - 1;
      assert !Corrected(turn.config, turn.model(i));
    }
  }

  lemma {:induction false} NoneBeforeFourth(turn: Turn, events: seq<Event>)
    requires IsRun(turn, events) && Streak(events) <= MAX_MALFORMED
    ensures forall n: nat | n <= |events| :: !FourTurnedBack(turn, n)
  {
    hide Corrected, Prescribed;
    StreakIsTurnedBack(turn, events);
    if events != [] {
      NoneBeforeFourth(turn, events[..|events| - 1]);
    }
  }

  /** The workspace is edited in the EDIT phase only, and `submit_changes` ends a run
      only when the ledger, as `write_todos` left it, has no open item. */
  lemma {:induction false} EditsAndSubmitsAreGuarded(turn: Turn, events: seq<Event>)
    requires IsRun(turn, events)
    ensures turn.config.phase != EDIT ==> Batches(events) == []
    ensures events != [] && events[|events| - 1] == Submitted ==>
              && turn.config.phase == EDIT
              && forall item | item in LedgerAfter(turn.items, events) ::
                   item.status != "pending" && item.status != "in_progress"
    ensures forall i | 0 <= i < |events| - 1 :: events[i] != Submitted
  {
    hide Prescribed, SessionAfter;
    if events != [] {
      var past := events[..|events| - 1];
      EditsAndSubmitsAreGuarded(turn, past);
      GuardedEvent(turn, past, turn.model(|past|), events[|past|]);
      NothingPendingIff(LedgerAfter(turn.items, past));
      assert forall i | 0 <= i < |past| :: past[i] == events[i];
    }
  }

  lemma GuardedEvent(turn: Turn, past: seq<Event>, response: Response, event: Event)
    requires Prescribed(turn, past, response, event)
    ensures event.PatchFailed? || event.Edited? || event.Submitted? ==> turn.config.phase == EDIT
    ensures event.Submitted? ==> Pending(LedgerAfter(turn.items, past)) == []
  {
    hide Rewrites, DedupKey, ProposalCorrected, ActionCorrected, SessionAfter, Pending, LedgerAfter, PhaseTypes;
    if turn.config.phase != EDIT {
      OnlyEditPhase(turn.config.phase);
      OtherActions(turn.config.phase);
    }
  }

  /** The outcome that an ending event hands to the thread's protocol. */
  function Handed(event: Event): TurnProtocol.Outcome
    requires Terminal(event)
  {
    match event
    case Answered | BudgetSpent => TurnProtocol.Answer
    case Clarified => TurnProtocol.Clarify
    case Proposed => TurnProtocol.ProposeMode
    case Submitted => TurnProtocol.Submit
  }

  /** What the thread's protocol takes for granted of a loop, every run keeps: it ends only with outcomes
      its phase and ledger admit, and only asks for reviews and approvals its phase admits. */
  lemma RunsFitProtocol(turn: Turn, events: seq<Event>, live: TurnProtocol.History)
    requires IsRun(turn, events) && events != []
    ensures
      var n := |events| - 1;
      var event := events[n];
      var loop := TurnProtocol.Loop(turn.config.phase, live, LedgerAfter(turn.items, events));
      && (Terminal(event) ==> TurnProtocol.Ends(loop, Handed(event)))
      && (event.Edited? ==> TurnProtocol.Asks(turn.config.phase, TurnProtocol.EditReview))
      && (event.Executed? && turn.model(n).tool == "run_command" ==>
            TurnProtocol.Asks(turn.config.phase, TurnProtocol.CommandApproval))
  {
    var n := |events| - 1;
    var past, response, event := events[..n], turn.model(n), events[n];
    GuardedEvent(turn, past, response, event);
    ProposesWhileDeciding(turn, past, response, event);
    hide IsRun, Prescribed, Pending, SessionAfter;
    assert !event.Executed? ==> LedgerAfter(turn.items, events) == LedgerAfter(turn.items, past);
  }

  lemma ProposesWhileDeciding(turn: Turn, past: seq<Event>, response: Response, event: Event)
    requires Prescribed(turn, past, response, event)
    ensures event.Proposed? ==> turn.config.phase == DECIDE
    ensures event.Executed? && response.tool == "run_command" ==> turn.config.phase != DECIDE
  {
    hide Rewrites, DedupKey, ProposalCorrected, SessionAfter, Pending, LedgerAfter, PhaseTypes;
    OnlyDecidePhase(turn.config.phase);
  }

  lemma OnlyDecidePhase(phase: Phase)
    ensures "propose_mode" in PhaseTypes(phase) ==> phase == DECIDE
  {
    assert "propose_mode"[0] == 'p';
    assert phase != DECIDE ==> forall action | action in PhaseTypes(phase) :: action[0] in "tecas";
  }

  lemma OtherActions(phase: Phase)
    requires phase != EDIT
    ensures PhaseTypes(phase) <= {"tool_call", "answer", "clarify", "propose_mode"}
  {
  }

  lemma OnlyEditPhase(phase: Phase)
    requires phase != EDIT
    ensures "edit" !in PhaseTypes(phase) && "submit_changes" !in PhaseTypes(phase)
  {
    assert "edit"[0] == 'e' && "submit_changes"[0] == 's';
    assert forall action | action in PhaseTypes(phase) :: action[0] in "tacp";
  }

  /** A turn's refinement: the workspace a run leaves is what applying only its accepted batches
      directly would leave, provided each batch that raised was harmless. Outside the EDIT phase
      it is left alone. */
  lemma TurnLeavesAcceptedEdits(turn: Turn, events: seq<Event>)
    requires IsRun(turn, events) && HarmlessRun(turn.engine, turn.disk, Batches(events))
    ensures SessionAfter(turn, events).disk == DirectRun(turn.engine, turn.disk, AcceptedOnly(Batches(events)))
    ensures turn.config.phase != EDIT ==> SessionAfter(turn, events).disk == turn.disk
  {
    TurnRefinesDirect(turn.engine, turn.disk, Batches(events));
    DropsRejected(turn.engine, turn.disk, Batches(events));
    EditsAndSubmitsAreGuarded(turn, events);
  }

  function AcceptedOnly(batches: seq<Batch>): (kept: seq<Batch>)
    ensures |kept| <= |batches|
    decreases |batches|
  {
    if batches == [] then []
    else if batches[0].accepted then [batches[0]] + AcceptedOnly(batches[1..])
    else AcceptedOnly(batches[1..])
  }

  lemma {:induction false} DropsRejected(engine: Engine, workspace: Files, batches: seq<Batch>)
    ensures DirectRun(engine, workspace, AcceptedOnly(batches)) == DirectRun(engine, workspace, batches)
    decreases |batches|
  {
    if batches != [] {
      var kept, rest := AcceptedOnly(batches), AcceptedOnly(batches[1..]);
      DropsRejected(engine, Direct(engine, workspace, batches[0]), batches[1..]);
      if batches[0].accepted {
        assert kept[1..] == rest && kept[0].accepted;
        assert kept[0].ops == batches[0].ops;
        assert Direct(engine, workspace, kept[0]) == Direct(engine, workspace, batches[0]);
        assert DirectRun(engine, workspace, kept) == DirectRun(engine, Direct(engine, workspace, kept[0]), kept[1..]);
      }
    }
  }

  lemma {:induction false} RunSnoc(engine: Engine, s: Session, batches: seq<Batch>, batch: Batch)
    ensures AfterRun(engine, s, batches + [batch]) == AfterBatch(engine, AfterRun(engine, s, batches), batch)
    decreases |batches|
  {
    hide AfterBatch;
    if batches == [] {
      assert [] + [batch] == [batch] && [batch][1..] == [];
    } else {
      assert (batches + [batch])[1..] == batches[1..] + [batch];
      RunSnoc(engine, AfterBatch(engine, s, batches[0]), batches[1..], batch);
    }
  }

  lemma Appended(turn: Turn, events: seq<Event>, event: Event)
    requires IsRun(turn, events) && GoesOn(events) && |events| < Budget(turn.config)
    requires Prescribed(turn, events, turn.model(|events|), event)
    ensures IsRun(turn, events + [event])
    ensures Streak(events + [event]) == if event.Rejected? then Streak(events) + 1 else 0
    ensures ExecutedKeys(events + [event])
         == if event.Executed? then ExecutedKeys(events) + [event.key] else ExecutedKeys(events)
    ensures LedgerAfter(turn.items, events + [event])
         == if event.Executed? && event.rewrite.Replaced? then event.rewrite.items else LedgerAfter(turn.items, events)
    ensures SessionAfter(turn, events + [event])
         == (match event
             case PatchFailed(ops) => AfterBatch(turn.engine, SessionAfter(turn, events), Batch(ops, false))
             case Edited(batch) => AfterBatch(turn.engine, SessionAfter(turn, events), batch)
             case _ => SessionAfter(turn, events))
    ensures !event.PatchFailed? && !event.Edited? ==> Batches(events + [event]) == Batches(events)
  {
    hide Prescribed, AfterBatch, AfterRun;
    assert (events + [event])[..|events|] == events;
    if event.PatchFailed? {
      RunSnoc(turn.engine, Fresh(turn.disk), Batches(events), Batch(event.ops, false));
    }
    if event.Edited? {
      RunSnoc(turn.engine, Fresh(turn.disk), Batches(events), event.batch);
    }
  }

  // ---- the loop itself ----

  /** The edit branch: patch the shadow, then promote or undo as the user, or auto-accept, decides. */
  method DoEdit(ghost turn: Turn, edit: TurnEditSession, response: Response, autoAccept: bool, decision: bool,
                ghost past: seq<Event>)
    returns (history: seq<Entry>, ghost event: Event)
    requires edit.engine == turn.engine && edit.State() == SessionAfter(turn, past)
    requires autoAccept == turn.config.autoAccept && decision == turn.user(|past|)
    modifies edit
    ensures EditPrescribed(turn, past, response, event) && !Terminal(event) && !event.Rejected? && !event.Executed?
    ensures forall streak: nat :: history == Recorded(response, event, streak)
    ensures edit.State() == (match event
                             case PatchFailed(ops) =>
                               AfterBatch(turn.engine, SessionAfter(turn, past), Batch(ops, false))
                             case Edited(batch) => AfterBatch(turn.engine, SessionAfter(turn, past), batch)
                             case _ => SessionAfter(turn, past))
  {
    hide SessionAfter, ApplyCandidate, AfterAccept, AfterReject, Touched, ValidOps, Seeded;
    history := [AssistantTurn("edit"), ToolResult("edit")];
    if response.ops == [] {
      event := EmptyEdit;
      return;
    }
    var diff := edit.Apply(response.ops);
    if diff.None? {
      event := PatchFailed(response.ops);
      return;
    }
    AppliesHasShadow(turn.engine, SessionAfter(turn, past), response.ops);
    var accepted := autoAccept || decision;
    if accepted {
      edit.Accept();
      history := history + [ToolResult("retrieval_refresh")];
    } else {
      edit.Reject();
    }
    event := Edited(Batch(response.ops, accepted));
  }

  /** The tool branch: refuse a repeated call, otherwise execute; `write_todos` rewrites the ledger. */
  method DoTool(ghost turn: Turn, ledger: TodoLedger, response: Response, strip: string -> string, maxIters: int,
                iteration: nat, seen: set<Key>, ghost past: seq<Event>)
    returns (history: seq<Entry>, seen': set<Key>, spent: bool, ghost event: Event)
    requires response.args.Some? && iteration == |past|
    requires maxIters == turn.config.maxIters && strip == turn.config.strip
    requires forall key :: key in seen <==> key in ExecutedKeys(past)
    requires ledger.items == LedgerAfter(turn.items, past)
    modifies ledger
    ensures ToolPrescribed(turn, past, response, event)
    ensures spent <==> event == BudgetSpent
    ensures forall streak: nat :: history == Recorded(response, event, streak)
    ensures event.BudgetSpent? || event.DuplicateBlocked? || event.Executed?
    ensures seen' == if event.Executed? then seen + {event.key} else seen
    ensures ledger.items == if event.Executed? && event.rewrite.Replaced? then event.rewrite.items
                            else LedgerAfter(turn.items, past)
    ensures old(ledger.stored == Kept(ledger.items)) ==> ledger.stored == Kept(ledger.items)
  {
    history, seen', spent := [], seen, false;
    if iteration >= maxIters {
      spent := true;
      event := BudgetSpent;
      return;
    }
    var key := DedupKey(response.tool, response.args.value);
    if key in seen {
      history := [AssistantTurn("{}"), ToolResult(response.tool)];
      event := DuplicateBlocked(key);
      return;
    }
    seen' := seen + {key};
    var rewrite := Refused;
    if response.tool == "write_todos" {
      rewrite := ledger.WriteTodos(strip, response.todos);
    }
    event := Executed(key, rewrite);
    history := [AssistantTurn("tool_call"), ToolResult(response.tool)];
  }

  /** One turn; `edit` exists only for an EDIT turn. */
  method Run(turn: Turn, edit: TurnEditSession?, ledger: TodoLedger, seed: seq<Entry>)
    returns (outcome: Outcome, history: seq<Entry>, ghost events: seq<Event>)
    requires turn.config.phase == EDIT ==> edit != null
    requires edit != null ==> edit.engine == turn.engine && edit.State() == Fresh(turn.disk)
    requires ledger.items == turn.items
    modifies edit, ledger
    ensures IsRun(turn, events) && Ends(turn, events, outcome)
    ensures ledger.items == LedgerAfter(turn.items, events)
    ensures old(ledger.stored == Kept(ledger.items)) ==> ledger.stored == Kept(ledger.items)
    ensures edit != null ==> edit.disk == SessionAfter(turn, events).disk && edit.shadow == None
    ensures history == seed + HistoryOf(turn, events)
  {
    hide Corrected, Streak, ExecutedKeys, LedgerAfter, Batches, HistoryOf, Recorded, Prescribed;
    hide IsRun, SessionAfter, ToolPrescribed, EditPrescribed;
    history := seed;
    events := [];
    var seen: set<Key> := {};
    var malformed := 0;
    var iteration := 0;
    var stop := false;
    outcome := Ended;
    StartOfRun(turn);
    assert seed + [] == seed;
    while !stop && iteration < turn.config.maxIters + 1
      invariant iteration == |events| <= Budget(turn.config)
      invariant IsRun(turn, events)
      invariant stop ==> Ends(turn, events, outcome)
      invariant !stop ==> GoesOn(events) && outcome == Ended
      invariant malformed == Streak(events)
      invariant forall key :: key in seen <==> key in ExecutedKeys(events)
      invariant ledger.items == LedgerAfter(turn.items, events)
      invariant old(ledger.stored == Kept(ledger.items)) ==> ledger.stored == Kept(ledger.items)
      invariant edit != null ==> edit.engine == turn.engine && edit.State() == SessionAfter(turn, events)
      invariant history == seed + HistoryOf(turn, events)
      decreases turn.config.maxIters + 1 - iteration
    {
      var response := turn.model(iteration);
      var more: seq<Entry>;
      ghost var event: Event;
      var done: Option<Outcome>;
      if Corrected(turn.config, response) {
        event := Rejected;
        malformed := malformed + 1;
        if malformed > MAX_MALFORMED {
          more, done := [], Some(Exhausted);
        } else {
          more, done := [AssistantTurn(response.action), ToolResult("")], None;
        }
        CorrectedPrescribes(turn, events, response);
      } else {
        more, seen, done, event := Act(turn, edit, ledger, response, iteration, seen, turn.user(iteration), events);
        malformed := 0;
      }
      Appended(turn, events, event);
      HistorySnoc(turn, events, event);
      RejectionRecorded(response, malformed);
      assert history + more == seed + (HistoryOf(turn, events) + more);
      events := events + [event];
      iteration := iteration + 1;
      history := history + more;
      if done.Some? {
        outcome := done.value;
        stop := true;
      }
    }
    if edit != null {
      edit.Close();
    }
  }

  lemma StartOfRun(turn: Turn)
    ensures IsRun(turn, []) && SessionAfter(turn, []) == Fresh(turn.disk) && HistoryOf(turn, []) == []
    ensures Streak([]) == 0 && ExecutedKeys([]) == [] && LedgerAfter(turn.items, []) == turn.items && GoesOn([])
  {
  }

  lemma CorrectedPrescribes(turn: Turn, past: seq<Event>, response: Response)
    requires Corrected(turn.config, response)
    ensures Prescribed(turn, past, response, Rejected)
  {
  }

  /** A response that passed the checks: dispatch on its action. */
  method Act(turn: Turn, edit: TurnEditSession?, ledger: TodoLedger, response: Response, iteration: nat,
             seen: set<Key>, decision: bool, ghost past: seq<Event>)
    returns (more: seq<Entry>, seen': set<Key>, done: Option<Outcome>, ghost event: Event)
    requires !Corrected(turn.config, response) && iteration == |past| && decision == turn.user(|past|)
    requires turn.config.phase == EDIT ==> edit != null
    requires forall key :: key in seen <==> key in ExecutedKeys(past)
    requires ledger.items == LedgerAfter(turn.items, past)
    requires edit != null ==> edit.engine == turn.engine && edit.State() == SessionAfter(turn, past)
    modifies edit, ledger
    ensures Prescribed(turn, past, response, event) && !event.Rejected?
    ensures done == if Terminal(event) then Some(Finished(event)) else None
    ensures forall streak: nat :: more == Recorded(response, event, streak)
    ensures seen' == if event.Executed? then seen + {event.key} else seen
    ensures ledger.items == if event.Executed? && event.rewrite.Replaced? then event.rewrite.items
                            else LedgerAfter(turn.items, past)
    ensures old(ledger.stored == Kept(ledger.items)) ==> ledger.stored == Kept(ledger.items)
    ensures edit != null ==> edit.State() == (match event
                             case PatchFailed(ops) =>
                               AfterBatch(turn.engine, SessionAfter(turn, past), Batch(ops, false))
                             case Edited(batch) => AfterBatch(turn.engine, SessionAfter(turn, past), batch)
                             case _ => SessionAfter(turn, past))
  {
    hide SessionAfter, ToolPrescribed, EditPrescribed, AfterBatch;
    more, seen', done := [], seen, None;
    if response.action == "answer" {
      more := [AssistantTurn("answer")];
      event := Answered;
      done := Some(Finished(Answered));
    } else if response.action == "tool_call" {
      var spent;
      more, seen', spent, event :=
        DoTool(turn, ledger, response, turn.config.strip, turn.config.maxIters, iteration, seen, past);
      done := if spent then Some(Finished(BudgetSpent)) else None;
    } else if response.action == "clarify" {
      more := [AssistantTurn("clarify")];
      event := Clarified;
      done := Some(Finished(Clarified));
    } else if response.action == "propose_mode" {
      more := [AssistantTurn("propose_mode")];
      event := Proposed;
      done := Some(Finished(Proposed));
    } else if response.action == "edit" {
      more, event := DoEdit(turn, edit, response, turn.config.autoAccept, decision, past);
    } else if response.action == "submit_changes" {
      var stillOpen := Pending(ledger.items);
      if stillOpen != [] {
        more := [AssistantTurn("submit_changes"), ToolResult("")];
        event := SubmitBlocked;
      } else {
        more := [AssistantTurn("submit_changes")];
        event := Submitted;
        done := Some(Finished(Submitted));
      }
    } else {
      assert false;
    }
  }
}
