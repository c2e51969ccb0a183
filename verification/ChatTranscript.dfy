/** A thread's transcript as the chat store rewrites it: in-flight pills messages and plan versions. */
module ChatTranscript {
  import opened Wrappers

  /** `turn` is the in-flight marker; `pills` and `thinking` are the rest of a message's metadata. */
  datatype Message = Message(
    content: string, kind: string, task: Option<string>,
    turn: Option<string>, pills: seq<string>, thinking: seq<string>)

  type Transcript = seq<Message>

  function InFlight(turn: string, pills: seq<string>, thinking: seq<string>): Message {
    Message("", "text", None, Some(turn), pills, thinking)
  }

  function Plan(task: string, markdown: string): Message {
    Message(markdown, "plan_card", Some(task), None, [], [])
  }

  /** The message a turn leaves behind. */
  function Closing(content: string, pills: seq<string>, thinking: seq<string>): Message {
    Message(content, "text", None, None, pills, thinking)
  }

  predicate Unmarked(messages: Transcript, turn: string) {
    forall i | 0 <= i < |messages| :: messages[i].turn != Some(turn)
  }

  /** No turn marks two messages. */
  ghost predicate OneMarkEach(messages: Transcript) {
    forall i, j | 0 <= i < j < |messages| && messages[i].turn.Some? :: messages[i].turn != messages[j].turn
  }

  /** The place of the first message a turn marks, or the length. */
  function MarkedAt(messages: Transcript, turn: string): (k: nat)
    ensures k <= |messages| && Unmarked(messages[..k], turn)
    ensures k < |messages| ==> messages[k].turn == Some(turn)
  {
    if messages == [] || messages[0].turn == Some(turn) then 0 else 1 + MarkedAt(messages[1..], turn)
  }

  function Upserted(messages: Transcript, turn: string, pills: seq<string>, thinking: seq<string>): Transcript {
    var k := MarkedAt(messages, turn);
    if k == |messages| then messages + [InFlight(turn, pills, thinking)]
    else messages[k := messages[k].(turn := Some(turn), pills := pills, thinking := thinking)]
  }

  function Finalized(messages: Transcript, turn: string, closing: Message): Transcript {
    var k := MarkedAt(messages, turn);
    if k == |messages| then messages
    else
      messages[k := messages[k].(content := closing.content, turn := None,
                                 pills := closing.pills, thinking := closing.thinking)]
  }

  /** What `_write_turn_message` leaves: the turn's own message finalized, or one appended. */
  function Closed(messages: Transcript, turn: string, closing: Message): Transcript {
    if Unmarked(messages, turn) then messages + [closing] else Finalized(messages, turn, closing)
  }

  function Cleared(messages: Transcript): (r: Transcript)
    ensures |r| == |messages|
    ensures forall i | 0 <= i < |messages| :: r[i] == messages[i].(turn := None)
  {
    seq(|messages|, i requires 0 <= i < |messages| => messages[i].(turn := None))
  }

  /** Every plan written for a task, oldest first. */
  function Versions(messages: Transcript, task: string): seq<string> {
    if messages == [] then []
    else
      var n := |messages| - 1;
      Versions(messages[..n], task)
      + if messages[n].kind == "plan_card" && messages[n].task == Some(task) then [messages[n].content] else []
  }

  function Planned(messages: Transcript, task: string, markdown: string): Transcript {
    var versions := Versions(messages, task);
    if versions != [] && versions[|versions| - 1] == markdown then messages else messages + [Plan(task, markdown)]
  }

  ghost predicate NoStutter(versions: seq<string>) {
    forall i | 0 < i < |versions| :: versions[i - 1] != versions[i]
  }

  // ---- one turn's writes among others ----

  /** What reaches the transcript during a turn: its pills, and breadcrumbs and cards of any origin. */
  datatype Write = Upsert(pills: seq<string>, thinking: seq<string>) | Other(message: Message)

  function FirstUpsert(writes: seq<Write>): (k: nat)
    ensures k <= |writes| && (k < |writes| ==> writes[k].Upsert?) && forall i | 0 <= i < k :: writes[i].Other?
  {
    if writes == [] || writes[0].Upsert? then 0 else 1 + FirstUpsert(writes[1..])
  }

  function Others(writes: seq<Write>): Transcript {
    if writes == [] then []
    else
      var n := |writes| - 1;
      Others(writes[..n]) + if writes[n].Other? then [writes[n].message] else []
  }

  /** The turn's message as its latest upsert left it. */
  function Latest(turn: string, writes: seq<Write>): Message
    requires FirstUpsert(writes) < |writes|
  {
    var n := |writes| - 1;
    if writes[n].Upsert? then InFlight(turn, writes[n].pills, writes[n].thinking)
    else
      assert FirstUpsert(writes[..n]) == FirstUpsert(writes) by { FirstUpsertOfPrefix(writes, n); }
      Latest(turn, writes[..n])
  }

  lemma {:induction false} FirstUpsertOfPrefix(writes: seq<Write>, n: nat)
    requires n <= |writes|
    ensures FirstUpsert(writes[..n]) == if FirstUpsert(writes) < n then FirstUpsert(writes) else n
  {
    var k := FirstUpsert(writes);
    var m := FirstUpsert(writes[..n]);
    assert k < n ==> writes[..n][k].Upsert?;
    assert m < n ==> writes[m].Upsert?;
  }

  /** The transcript after a turn's writes: the turn's one message stands where its first upsert was. */
  function Midway(start: Transcript, turn: string, writes: seq<Write>): Transcript {
    var k := FirstUpsert(writes);
    start + Others(writes[..k]) + (if k < |writes| then [Latest(turn, writes)] else []) + Others(writes[k..])
  }

  function Apply(messages: Transcript, turn: string, write: Write): Transcript {
    match write
    case Upsert(pills, thinking) => Upserted(messages, turn, pills, thinking)
    case Other(m) => messages + [m]
  }

  ghost predicate Foreign(writes: seq<Write>) {
    forall i | 0 <= i < |writes| && writes[i].Other? :: writes[i].message.turn.None?
  }

  lemma {:induction false} OthersUnmarked(writes: seq<Write>, turn: string)
    requires Foreign(writes)
    ensures Unmarked(Others(writes), turn)
  {
    if writes != [] {
      OthersUnmarked(writes[..|writes| - 1], turn);
    }
  }

  lemma OthersSnoc(writes: seq<Write>, write: Write)
    ensures Others(writes + [write]) == Others(writes) + if write.Other? then [write.message] else []
  {
    assert (writes + [write])[..|writes|] == writes;
  }

  lemma MarkedBetween(before: Transcript, m: Message, after: Transcript, turn: string)
    requires Unmarked(before, turn) && m.turn == Some(turn)
    ensures MarkedAt(before + [m] + after, turn) == |before|
  {
    assert (before + [m] + after)[|before|] == m;
    assert (before + [m] + after)[..|before|] == before;
  }

  lemma {:induction false} LatestIsInFlight(turn: string, writes: seq<Write>)
    requires FirstUpsert(writes) < |writes|
    ensures var m := Latest(turn, writes); m == InFlight(turn, m.pills, m.thinking)
  {
    var n := |writes| - 1;
    if writes[n].Other? {
      FirstUpsertOfPrefix(writes, n);
      LatestIsInFlight(turn, writes[..n]);
    }
  }

  lemma UpsertedBetween(before: Transcript, m: Message, after: Transcript, turn: string, other: Message)
    requires Unmarked(before, turn) && m == InFlight(turn, m.pills, m.thinking)
    requires other == InFlight(turn, other.pills, other.thinking)
    ensures Upserted(before + [m] + after, turn, other.pills, other.thinking) == before + [other] + after
  {
    MarkedBetween(before, m, after, turn);
    hide MarkedAt;
    assert (before + [m] + after)[|before|] == m;
  }

  lemma FinalizedBetween(before: Transcript, m: Message, after: Transcript, turn: string, closing: Message)
    requires Unmarked(before, turn) && m == InFlight(turn, m.pills, m.thinking)
    requires closing == Closing(closing.content, closing.pills, closing.thinking)
    ensures Finalized(before + [m] + after, turn, closing) == before + [closing] + after
    ensures MarkedAt(before + [m] + after, turn) == |before|
  {
    MarkedBetween(before, m, after, turn);
    hide MarkedAt;
    assert (before + [m] + after)[|before|] == m;
  }

  lemma LatestSnoc(turn: string, writes: seq<Write>, write: Write)
    requires FirstUpsert(writes) < |writes|
    ensures var k, next := FirstUpsert(writes), writes + [write];
            && FirstUpsert(next) == k
            && Latest(turn, next) ==
               (if write.Upsert? then InFlight(turn, write.pills, write.thinking) else Latest(turn, writes))
  {
    var next := writes + [write];
    FirstUpsertOfPrefix(next, |writes|);
    assert next[..|writes|] == writes;
    hide FirstUpsert;
  }

  lemma SplitSnoc(writes: seq<Write>, write: Write, k: nat)
    requires k <= |writes|
    ensures var next := writes + [write];
            next[..k] == writes[..k] && next[k..] == writes[k..] + [write]
  {
  }

  lemma LaterWrite(start: Transcript, turn: string, writes: seq<Write>, write: Write)
    requires Unmarked(start, turn) && Foreign(writes) && FirstUpsert(writes) < |writes|
    ensures Apply(Midway(start, turn, writes), turn, write) == Midway(start, turn, writes + [write])
  {
    hide Others, Upserted, FirstUpsert, Latest, MarkedAt;
    var k := FirstUpsert(writes);
    LatestSnoc(turn, writes, write);
    SplitSnoc(writes, write, k);
    OthersUnmarked(writes[..k], turn);
    LatestIsInFlight(turn, writes);
    OthersSnoc(writes[k..], write);
    var before, m, after := start + Others(writes[..k]), Latest(turn, writes), Others(writes[k..]);
    if write.Upsert? {
      UpsertedBetween(before, m, after, turn, InFlight(turn, write.pills, write.thinking));
    } else {
      Regroup(before, m, after, write.message);
    }
  }

  lemma Regroup(before: Transcript, m: Message, after: Transcript, last: Message)
    ensures before + [m] + after + [last] == before + [m] + (after + [last])
  {
  }

  lemma FirstWrite(start: Transcript, turn: string, writes: seq<Write>, write: Write)
    requires Unmarked(start, turn) && Foreign(writes) && FirstUpsert(writes) == |writes|
    ensures Apply(Midway(start, turn, writes), turn, write) == Midway(start, turn, writes + [write])
  {
    hide Others, MarkedAt, FirstUpsert, Latest;
    var next := writes + [write];
    NoUpsertYet(start, turn, writes);
    if write.Other? {
      OthersSnoc(writes, write);
      UpsertLast(turn, writes, write);
      NoUpsertYet(start, turn, next);
      hide Midway;
    } else {
      OthersUnmarked(writes, turn);
      AllUnmarked(start + Others(writes), turn);
      FirstUpsertWrite(start, turn, writes, write);
      hide Midway;
    }
  }

  lemma FirstUpsertWrite(start: Transcript, turn: string, writes: seq<Write>, write: Write)
    requires FirstUpsert(writes) == |writes| && write.Upsert?
    ensures Midway(start, turn, writes + [write]) ==
            start + Others(writes) + [InFlight(turn, write.pills, write.thinking)]
  {
    UpsertLast(turn, writes, write);
    SplitSnoc(writes, write, |writes|);
    OthersSnoc([], write);
    hide Others, FirstUpsert, Latest;
    assert writes[..|writes|] == writes && writes[|writes|..] + [write] == [] + [write];
    assert Others([]) == [] by { NoOthers(); }
  }

  lemma NoOthers()
    ensures Others([]) == []
  {
  }

  lemma UpsertLast(turn: string, writes: seq<Write>, write: Write)
    requires FirstUpsert(writes) == |writes|
    ensures write.Other? ==> FirstUpsert(writes + [write]) == |writes| + 1
    ensures write.Upsert? ==>
              FirstUpsert(writes + [write]) == |writes|
              && Latest(turn, writes + [write]) == InFlight(turn, write.pills, write.thinking)
  {
    FirstUpsertOfPrefix(writes + [write], |writes|);
    assert (writes + [write])[..|writes|] == writes;
    assert (writes + [write])[|writes|] == write;
    hide FirstUpsert;
  }

  lemma NoUpsertYet(start: Transcript, turn: string, writes: seq<Write>)
    requires FirstUpsert(writes) == |writes|
    ensures Midway(start, turn, writes) == start + Others(writes)
    ensures writes[..|writes|] == writes && writes[|writes|..] == [] && Others([]) == []
  {
    hide FirstUpsert, Latest;
    assert writes[..|writes|] == writes && writes[|writes|..] == [];
    assert start + Others(writes) + [] + [] == start + Others(writes);
  }

  /** One more write keeps the shape, whether it is the first upsert, a later one, or another message. */
  lemma MidwayStep(start: Transcript, turn: string, writes: seq<Write>, write: Write)
    requires Unmarked(start, turn) && Foreign(writes)
    ensures Apply(Midway(start, turn, writes), turn, write) == Midway(start, turn, writes + [write])
  {
    hide Midway, Apply, FirstUpsert;
    if FirstUpsert(writes) < |writes| {
      LaterWrite(start, turn, writes, write);
    } else {
      FirstWrite(start, turn, writes, write);
    }
  }

  /** However the writes of a turn mix with others, closing it leaves exactly one message of its own:
      at the place of its first upsert, or last if it had none. */
  lemma CloseLeavesOne(start: Transcript, turn: string, writes: seq<Write>, closing: Message)
    requires Unmarked(start, turn) && Foreign(writes)
    requires closing == Closing(closing.content, closing.pills, closing.thinking)
    ensures var midway := Midway(start, turn, writes);
            Closed(midway, turn, closing) ==
            start + Others(writes[..FirstUpsert(writes)]) + [closing] + Others(writes[FirstUpsert(writes)..])
  {
    var k := FirstUpsert(writes);
    OthersUnmarked(writes[..k], turn);
    if k < |writes| {
      LatestIsInFlight(turn, writes);
      hide Others, Finalized, MarkedAt, FirstUpsert, Latest, Foreign;
      var before, m, after := start + Others(writes[..k]), Latest(turn, writes), Others(writes[k..]);
      assert (before + [m] + after)[|before|] == m;
      FinalizedBetween(before, m, after, turn, closing);
    } else {
      NoUpsertYet(start, turn, writes);
      AllUnmarked(start + Others(writes), turn);
      hide Others, MarkedAt, FirstUpsert;
    }
  }

  lemma AllUnmarked(messages: Transcript, turn: string)
    ensures MarkedAt(messages, turn) == |messages| <==> Unmarked(messages, turn)
  {
    assert messages[..|messages|] == messages;
  }

  lemma VersionsSnoc(messages: Transcript, m: Message, task: string)
    ensures Versions(messages + [m], task) ==
            Versions(messages, task) + if m.kind == "plan_card" && m.task == Some(task) then [m.content] else []
  {
    assert (messages + [m])[..|messages|] == messages;
  }

  lemma NoVersions(task: string)
    ensures Versions([], task) == []
  {
  }

  lemma Unstuttered(versions: seq<string>, next: string)
    requires NoStutter(versions)
    ensures versions == [] || versions[|versions| - 1] != next ==> NoStutter(versions + [next])
  {
  }

  /** Only what a message is and says matters to its task's versions. */
  lemma {:induction false} SameVersions(a: Transcript, b: Transcript, task: string)
    requires |a| == |b|
    requires forall i | 0 <= i < |a| ::
               && a[i].kind == b[i].kind && a[i].task == b[i].task
               && (a[i].kind == "plan_card" ==> a[i].content == b[i].content)
    ensures Versions(a, task) == Versions(b, task)
  {
    if a != [] {
      SameVersions(a[..|a| - 1], b[..|b| - 1], task);
    }
  }

  lemma FinalizedUnmarks(messages: Transcript, turn: string, closing: Message)
    requires OneMarkEach(messages)
    ensures Unmarked(Finalized(messages, turn, closing), turn)
  {
    AllUnmarked(messages, turn);
  }

  /** The k-th message is the first that the turn marks. */
  predicate FirstMark(messages: Transcript, turn: string, k: int) {
    0 <= k < |messages| && messages[k].turn == Some(turn) && Unmarked(messages[..k], turn)
  }

  lemma MarkedAtIs(messages: Transcript, turn: string)
    ensures forall k | FirstMark(messages, turn, k) :: k == MarkedAt(messages, turn)
    ensures Unmarked(messages, turn) <==> MarkedAt(messages, turn) == |messages|
  {
    AllUnmarked(messages, turn);
    forall k | FirstMark(messages, turn, k) ensures k == MarkedAt(messages, turn) {
      PrefixUnmarked(messages, turn, k);
      PrefixUnmarked(messages, turn, MarkedAt(messages, turn));
    }
  }

  lemma PrefixUnmarked(messages: Transcript, turn: string, k: nat)
    requires k <= |messages| && Unmarked(messages[..k], turn)
    ensures forall i | 0 <= i < k :: messages[i].turn != Some(turn)
  {
    assert forall i | 0 <= i < k :: messages[..k][i] == messages[i];
  }

  predicate IsPlan(m: Message, task: string) {
    m.kind == "plan_card" && m.task == Some(task)
  }

  /** The k-th message is the last plan of the task. */
  ghost predicate LatestPlan(messages: Transcript, task: string, k: int) {
    && 0 <= k < |messages| && IsPlan(messages[k], task)
    && forall j | k < j < |messages| :: !IsPlan(messages[j], task)
  }

  lemma {:induction false} LatestPlanIs(messages: Transcript, task: string) returns (k: int)
    ensures var versions := Versions(messages, task);
            if versions == [] then k == -1 && forall i | 0 <= i < |messages| :: !IsPlan(messages[i], task)
            else LatestPlan(messages, task, k) && versions[|versions| - 1] == messages[k].content
  {
    if messages == [] {
      k := -1;
    } else {
      var n := |messages| - 1;
      var before := messages[..n];
      k := LatestPlanIs(before, task);
      VersionsSnoc(before, messages[n], task);
      assert before + [messages[n]] == messages;
      hide Versions;
      if IsPlan(messages[n], task) {
        k := n;
      } else {
        assert forall i | 0 <= i < n :: before[i] == messages[i];
      }
    }
  }

  /** A plan repeats exactly when it is what the task's latest plan says. */
  lemma PlanRepeats(messages: Transcript, task: string, markdown: string)
    ensures
      var versions := Versions(messages, task);
      versions != [] && versions[|versions| - 1] == markdown <==>
        exists k :: LatestPlan(messages, task, k) && messages[k].content == markdown
  {
    var last := LatestPlanIs(messages, task);
    hide Versions;
    forall k | LatestPlan(messages, task, k) ensures k == last {
    }
  }

  // ---- any run of the store's operations ----

  datatype Operation =
    | AppendOther(message: Message)
    | UpsertPills(turn: string, pills: seq<string>, thinking: seq<string>)
    | FinalizePills(turn: string, closing: Message)
    | ClearMarkers
    | AppendPlan(task: string, markdown: string)

  function After(messages: Transcript, op: Operation): Transcript {
    match op
    case AppendOther(m) => messages + [m]
    case UpsertPills(turn, pills, thinking) => Upserted(messages, turn, pills, thinking)
    case FinalizePills(turn, closing) => Finalized(messages, turn, closing)
    case ClearMarkers => Cleared(messages)
    case AppendPlan(task, markdown) => Planned(messages, task, markdown)
  }

  function AfterAll(operations: seq<Operation>): Transcript {
    if operations == [] then []
    else After(AfterAll(operations[..|operations| - 1]), operations[|operations| - 1])
  }

  /** What the other writers append: only the upsert marks, and only `append_plan_card` writes plans. */
  predicate Ordinary(m: Message) {
    m.turn.None? && m.kind != "plan_card"
  }

  ghost predicate OrdinaryAppends(operations: seq<Operation>) {
    forall i | 0 <= i < |operations| && operations[i].AppendOther? :: Ordinary(operations[i].message)
  }

  ghost predicate MarkedAreNotPlans(messages: Transcript) {
    forall i | 0 <= i < |messages| && messages[i].turn.Some? :: messages[i].kind != "plan_card"
  }

  ghost predicate Sane(messages: Transcript) {
    OneMarkEach(messages) && MarkedAreNotPlans(messages) && forall task :: NoStutter(Versions(messages, task))
  }

  /** What a task's versions become: one more under `AppendPlan`, when it differs; else no change. */
  function VersionsAfter(versions: seq<string>, task: string, op: Operation): seq<string> {
    if op.AppendPlan? && op.task == task && (versions == [] || versions[|versions| - 1] != op.markdown)
    then versions + [op.markdown] else versions
  }

  lemma OneRewritten(messages: Transcript, k: nat, m: Message, task: string)
    requires k < |messages| && messages[k].kind == m.kind != "plan_card" && messages[k].task == m.task
    ensures Versions(messages[k := m], task) == Versions(messages, task)
  {
    SameVersions(messages[k := m], messages, task);
  }

  lemma VersionsStep(messages: Transcript, op: Operation, task: string)
    requires MarkedAreNotPlans(messages) && (op.AppendOther? ==> Ordinary(op.message))
    ensures Versions(After(messages, op), task) == VersionsAfter(Versions(messages, task), task, op)
  {
    hide Versions, MarkedAt;
    match op {
      case AppendOther(m) => VersionsSnoc(messages, m, task);
      case UpsertPills(turn, pills, thinking) =>
        var k := MarkedAt(messages, turn);
        if k == |messages| {
          VersionsSnoc(messages, InFlight(turn, pills, thinking), task);
        } else {
          OneRewritten(messages, k, messages[k].(turn := Some(turn), pills := pills, thinking := thinking), task);
        }
      case FinalizePills(turn, closing) =>
        var k := MarkedAt(messages, turn);
        if k < |messages| {
          OneRewritten(messages, k, Finalized(messages, turn, closing)[k], task);
        }
      case ClearMarkers => SameVersions(Cleared(messages), messages, task);
      case AppendPlan(other, markdown) => VersionsSnoc(messages, Plan(other, markdown), task);
    }
  }

  lemma MarksStep(messages: Transcript, op: Operation)
    requires OneMarkEach(messages) && MarkedAreNotPlans(messages) && (op.AppendOther? ==> Ordinary(op.message))
    ensures OneMarkEach(After(messages, op)) && MarkedAreNotPlans(After(messages, op))
  {
    hide Versions;
    if op.UpsertPills? && MarkedAt(messages, op.turn) == |messages| {
      AllUnmarked(messages, op.turn);
    }
  }

  lemma StepKeepsSane(messages: Transcript, op: Operation)
    requires Sane(messages) && (op.AppendOther? ==> Ordinary(op.message))
    ensures Sane(After(messages, op))
  {
    hide After, Versions;
    MarksStep(messages, op);
    forall task ensures NoStutter(Versions(After(messages, op), task)) {
      VersionsStep(messages, op, task);
      if op.AppendPlan? {
        Unstuttered(Versions(messages, task), op.markdown);
      }
    }
  }

  /** Over any interleaving of store operations, from an empty transcript: each turn id marks at most one
      message, no plan is marked, and consecutive plan versions of every task differ. */
  lemma {:induction false} RunsKeepSane(operations: seq<Operation>)
    requires OrdinaryAppends(operations)
    ensures Sane(AfterAll(operations))
  {
    hide After;
    if operations != [] {
      var n := |operations| - 1;
      RunsKeepSane(operations[..n]);
      StepKeepsSane(AfterAll(operations[..n]), operations[n]);
    }
  }

  /** The plans handed to the store for a task, each dropped that repeats the last one kept. */
  function Kept(operations: seq<Operation>, task: string): seq<string> {
    if operations == [] then []
    else VersionsAfter(Kept(operations[..|operations| - 1], task), task, operations[|operations| - 1])
  }

  /** The versions a run leaves are exactly those: nothing else adds, changes or loses one. */
  lemma {:induction false} VersionsOfRun(operations: seq<Operation>, task: string)
    requires OrdinaryAppends(operations)
    ensures Versions(AfterAll(operations), task) == Kept(operations, task)
  {
    hide After, Versions, VersionsAfter;
    if operations == [] {
      NoVersions(task);
    } else {
      var n := |operations| - 1;
      VersionsOfRun(operations[..n], task);
      RunsKeepSane(operations[..n]);
      VersionsStep(AfterAll(operations[..n]), operations[n], task);
    }
  }

  class ChatStore {
    var messages: Transcript

    constructor ()
      ensures messages == []
    {
      messages := [];
    }

    lemma KeepsSane(op: Operation)
      requires op.AppendOther? ==> Ordinary(op.message)
      ensures Sane(messages) ==> Sane(After(messages, op))
    {
      if Sane(messages) {
        StepKeepsSane(messages, op);
      }
    }

    method AppendMessage(m: Message)
      modifies this
      ensures messages == After(old(messages), AppendOther(m))
      ensures old(Sane(messages)) && Ordinary(m) ==> Sane(messages)
    {
      if Ordinary(m) { KeepsSane(AppendOther(m)); }
      messages := messages + [m];
    }

    /** The search both pills operations start with. */
    method FindMarked(turn: string) returns (at: nat)
      ensures at == MarkedAt(messages, turn)
    {
      at := 0;
      while at < |messages| && messages[at].turn != Some(turn)
        invariant at <= |messages| && MarkedAt(messages, turn) == at + MarkedAt(messages[at..], turn)
      {
        at := at + 1;
      }
    }

    method UpsertInflightPills(turn: string, pills: seq<string>, thinking: seq<string>)
      modifies this
      ensures messages == After(old(messages), UpsertPills(turn, pills, thinking))
      ensures old(Sane(messages)) ==> Sane(messages)
      ensures Unmarked(old(messages), turn) ==>
                messages == old(messages) + [Message("", "text", None, Some(turn), pills, thinking)]
      ensures forall k | FirstMark(old(messages), turn, k) ::
                var m := old(messages)[k];
                messages == old(messages)[k := Message(m.content, m.kind, m.task, Some(turn), pills, thinking)]
    {
      MarkedAtIs(messages, turn);
      KeepsSane(UpsertPills(turn, pills, thinking));
      hide Sane;
      var at := FindMarked(turn);
      if at < |messages| {
        messages := messages[at := messages[at].(turn := Some(turn), pills := pills, thinking := thinking)];
      } else {
        messages := messages + [InFlight(turn, pills, thinking)];
      }
    }

    method FinalizeInflightPills(turn: string, content: string, pills: seq<string>, thinking: seq<string>)
      returns (found: bool)
      modifies this
      ensures messages == After(old(messages), FinalizePills(turn, Closing(content, pills, thinking)))
      ensures found <==> !Unmarked(old(messages), turn)
      ensures old(Sane(messages)) ==> Sane(messages) && Unmarked(messages, turn)
      ensures !found ==> messages == old(messages)
      ensures forall k | FirstMark(old(messages), turn, k) ::
                var m := old(messages)[k];
                messages == old(messages)[k := Message(content, m.kind, m.task, None, pills, thinking)]
    {
      MarkedAtIs(messages, turn);
      ghost var closing := Closing(content, pills, thinking);
      KeepsSane(FinalizePills(turn, closing));
      assert old(Sane(messages)) ==> Unmarked(Finalized(messages, turn, closing), turn) by {
        if Sane(messages) { FinalizedUnmarks(messages, turn, closing); }
      }
      hide Sane;
      var at := FindMarked(turn);
      AllUnmarked(messages, turn);
      if at == |messages| {
        return false;
      }
      messages := messages[at := messages[at].(content := content, turn := None, pills := pills, thinking := thinking)];
      found := true;
    }

    /** Drops every marker and nothing else. */
    method ClearInflightMarkers()
      modifies this
      ensures messages == After(old(messages), ClearMarkers)
      ensures |messages| == |old(messages)|
      ensures forall i | 0 <= i < |messages| ::
                var m := old(messages)[i];
                messages[i] == Message(m.content, m.kind, m.task, None, m.pills, m.thinking)
      ensures old(Sane(messages)) ==> Sane(messages)
      ensures forall turn :: Unmarked(messages, turn)
    {
      KeepsSane(ClearMarkers);
      hide Sane;
      var cleared: Transcript := [];
      var before := messages;
      for i := 0 to |before|
        invariant |cleared| == i && forall k | 0 <= k < i :: cleared[k] == before[k].(turn := None)
      {
        cleared := cleared + [before[i].(turn := None)];
      }
      assert cleared == Cleared(before);
      messages := cleared;
    }

    /** The search an append starts with: the content of the task's current plan. */
    method CurrentPlan(task: string) returns (latest: Option<string>)
      ensures var versions := Versions(messages, task);
              latest == if versions == [] then None else Some(versions[|versions| - 1])
    {
      hide Versions;
      latest := None;
      NoVersions(task);
      assert messages[..0] == [];
      for i := 0 to |messages|
        invariant var versions := Versions(messages[..i], task);
                  latest == if versions == [] then None else Some(versions[|versions| - 1])
      {
        assert messages[..i + 1] == messages[..i] + [messages[i]];
        VersionsSnoc(messages[..i], messages[i], task);
        if messages[i].kind == "plan_card" && messages[i].task == Some(task) {
          latest := Some(messages[i].content);
        }
      }
      assert messages[..|messages|] == messages;
    }

    /** A plan is appended exactly when it differs from its task's current version. */
    method AppendPlanCard(task: string, markdown: string) returns (appended: bool)
      modifies this
      ensures messages == After(old(messages), AppendPlan(task, markdown))
      ensures appended <==>
              !exists k :: LatestPlan(old(messages), task, k) && old(messages)[k].content == markdown
      ensures messages == if !appended then old(messages)
                          else old(messages) + [Message(markdown, "plan_card", Some(task), None, [], [])]
      ensures old(Sane(messages)) ==> Sane(messages)
    {
      PlanRepeats(messages, task, markdown);
      KeepsSane(AppendPlan(task, markdown));
      hide Versions, Sane, LatestPlan;
      var latest := CurrentPlan(task);
      if latest == Some(markdown) {
        return false;
      }
      messages := messages + [Plan(task, markdown)];
      appended := true;
    }

    /** `_write_turn_message`: finalize the turn's own message, or append one if it has none. */
    method WriteTurnMessage(turn: string, content: string, pills: seq<string>, thinking: seq<string>)
      modifies this
      ensures messages == Closed(old(messages), turn, Closing(content, pills, thinking))
      ensures old(Sane(messages)) ==> Sane(messages)
      ensures Unmarked(old(messages), turn) ==>
                messages == old(messages) + [Message(content, "text", None, None, pills, thinking)]
      ensures forall k | FirstMark(old(messages), turn, k) ::
                var m := old(messages)[k];
                messages == old(messages)[k := Message(content, m.kind, m.task, None, pills, thinking)]
    {
      hide Sane;
      AllUnmarked(messages, turn);
      var found := FinalizeInflightPills(turn, content, pills, thinking);
      if !found {
        AppendMessage(Closing(content, pills, thinking));
      }
    }

    /** A turn's writes and its close: exactly one message of its own is added, with the last pills. */
    method RunTurn(turn: string, writes: seq<Write>, content: string, pills: seq<string>, thinking: seq<string>)
      requires Unmarked(messages, turn) && Foreign(writes)
      modifies this
      ensures var k := FirstUpsert(writes);
              messages ==
              old(messages) + Others(writes[..k]) + [Closing(content, pills, thinking)] + Others(writes[k..])
      ensures old(Sane(messages)) && (forall i | 0 <= i < |writes| && writes[i].Other? :: Ordinary(writes[i].message))
              ==> Sane(messages)
    {
      hide FirstMark;
      ghost var start := messages;
      assert writes[..0] == [];
      for n := 0 to |writes|
        invariant messages == Midway(start, turn, writes[..n])
        invariant old(Sane(messages))
                  && (forall i | 0 <= i < |writes| && writes[i].Other? :: Ordinary(writes[i].message))
                  ==> Sane(messages)
      {
        hide Midway, MarkedAt, Upserted, Sane;
        assert writes[..n + 1] == writes[..n] + [writes[n]];
        MidwayStep(start, turn, writes[..n], writes[n]);
        match writes[n] {
          case Other(m) => AppendMessage(m);
          case Upsert(p, t) => UpsertInflightPills(turn, p, t);
        }
      }
      assert writes[..|writes|] == writes;
      hide Midway, Others, FirstUpsert, Closed, Sane;
      CloseLeavesOne(start, turn, writes, Closing(content, pills, thinking));
      WriteTurnMessage(turn, content, pills, thinking);
    }
  }
}
