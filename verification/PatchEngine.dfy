/** The patch engine as the edit session meets it: a whole-patch preflight that writes
    nothing, then a pass over the operations that writes each one as it goes. */
module PatchEngine {
  import opened Ordering
  import opened Wrappers

  type Path = string
  type Files = map<Path, string>

  /** A node edit, search-and-replace, range edit or diff is `EditFile`: `plan` is what preflight
      computes from the simulated text, `write` what the pass computes from the file itself. */
  datatype PatchOp =
    | CreateFile(file: Path, content: string)
    | DeleteFile(file: Path)
    | EditFile(file: Path, nodeEdit: bool, plan: string -> Option<string>, write: string -> Option<string>)

  /** `forbidden` is the path policy; `parses` is the syntax check (true for non-Python files). */
  datatype Engine = Engine(forbidden: Path -> bool, parses: (Path, string) -> bool)

  datatype Outcome = Raised(files: Files) | Applied(files: Files)

  function OpFiles(ops: seq<PatchOp>): set<Path> {
    set i | 0 <= i < |ops| :: ops[i].file
  }

  /** The files a successful batch reports, sorted and without repeats. */
  ghost function Touched(ops: seq<PatchOp>): seq<Path> {
    SortedIds(OpFiles(ops))
  }

  // ---- preflight ----

  /** One operation on the simulated sources; `None` reports an issue. */
  function PlanOp(files: Files, op: PatchOp): Option<Files> {
    match op
    case CreateFile(f, content) => if f in files then None else Some(files[f := content])
    case DeleteFile(f) => if f in files then Some(files - {f}) else None
    case EditFile(f, _, plan, _) =>
      if f !in files then None
      else match plan(files[f]) case None => None case Some(text) => Some(files[f := text])
  }

  function PlanOps(files: Files, ops: seq<PatchOp>): Option<Files>
    decreases |ops|
  {
    if ops == [] then Some(files)
    else match PlanOp(files, ops[0]) case None => None case Some(next) => PlanOps(next, ops[1..])
  }

  /** The final check of the combined text skips files a node edit touches. */
  predicate FinalTextParses(engine: Engine, files: Files, ops: seq<PatchOp>) {
    forall i | 0 <= i < |ops| ::
      (exists j :: 0 <= j < |ops| && ops[j].file == ops[i].file && ops[j].EditFile? && ops[j].nodeEdit)
      || ops[i].file !in files || engine.parses(ops[i].file, files[ops[i].file])
  }

  predicate Preflight(engine: Engine, files: Files, ops: seq<PatchOp>) {
    && (forall i | 0 <= i < |ops| :: !engine.forbidden(ops[i].file))
    && PlanOps(files, ops).Some?
    && FinalTextParses(engine, PlanOps(files, ops).value, ops)
  }

  // ---- the pass ----

  /** One operation on the files themselves; `None` raises. Deleting a plain file leaves it in place. */
  function RunOp(engine: Engine, files: Files, op: PatchOp): Option<Files> {
    match op
    case CreateFile(f, content) =>
      if f in files || !engine.parses(f, content) then None else Some(files[f := content])
    case DeleteFile(f) => if f in files then Some(files) else None
    case EditFile(f, _, _, write) =>
      if f !in files then None
      else match write(files[f]) case None => None case Some(text) => Some(files[f := text])
  }

  /** An operation that raises is noted and the pass goes on with the next one. */
  function RunOps(engine: Engine, files: Files, ops: seq<PatchOp>): Files {
    if ops == [] then files
    else
      var before := RunOps(engine, files, ops[..|ops| - 1]);
      match RunOp(engine, before, ops[|ops| - 1]) case None => before case Some(next) => next
  }

  function AnyRaised(engine: Engine, files: Files, ops: seq<PatchOp>): bool {
    if ops == [] then false
    else
      AnyRaised(engine, files, ops[..|ops| - 1])
      || RunOp(engine, RunOps(engine, files, ops[..|ops| - 1]), ops[|ops| - 1]).None?
  }

  function ApplyCandidate(engine: Engine, files: Files, ops: seq<PatchOp>): Outcome {
    if !Preflight(engine, files, ops) then Raised(files)
    else if AnyRaised(engine, files, ops) then Raised(RunOps(engine, files, ops))
    else Applied(RunOps(engine, files, ops))
  }

  // ---- what a batch writes, file by file ----

  function TextOf(files: Files, f: Path): Option<string> {
    if f in files then Some(files[f]) else None
  }

  /** What an operation does to the text of its own file. */
  predicate Writes(op: PatchOp, before: Option<string>, after: Option<string>) {
    match op
    case CreateFile(_, content) => before == None && after == Some(content)
    case DeleteFile(_) => before.Some? && after == before
    case EditFile(_, _, _, write) => before.Some? && after.Some? && after == write(before.value)
  }

  /** `texts` leads from a file's text before the batch to the one after it, through every operation on
      that file, in order. */
  ghost predicate WrittenBy(ops: seq<PatchOp>, f: Path, texts: seq<Option<string>>, first: Option<string>,
                            last: Option<string>) {
    && |texts| == |ops| + 1 && texts[0] == first && texts[|ops|] == last
    && forall i | 0 <= i < |ops| ::
         if ops[i].file == f then Writes(ops[i], texts[i], texts[i + 1]) else texts[i + 1] == texts[i]
  }

  ghost predicate FileWrittenBy(ops: seq<PatchOp>, f: Path, before: Files, after: Files) {
    exists texts :: WrittenBy(ops, f, texts, TextOf(before, f), TextOf(after, f))
  }

  /** An operation that raised: creating over a file or text that does not parse, or a missing file, or
      an edit that finds nothing to change. */
  ghost predicate Fails(engine: Engine, op: PatchOp, before: Option<string>) {
    match op
    case CreateFile(f, content) => before.Some? || !engine.parses(f, content)
    case DeleteFile(_) => before.None?
    case EditFile(_, _, _, write) => before.None? || write(before.value).None?
  }

  lemma OneOp(engine: Engine, files: Files, op: PatchOp)
    ensures RunOp(engine, files, op).None? <==> Fails(engine, op, TextOf(files, op.file))
    ensures var after := if RunOp(engine, files, op).Some? then RunOp(engine, files, op).value else files;
            && (RunOp(engine, files, op).Some? ==> Writes(op, TextOf(files, op.file), TextOf(after, op.file)))
            && forall f | f != op.file :: TextOf(after, f) == TextOf(files, f)
  {
  }

  lemma {:induction false} TextsWritten(engine: Engine, files: Files, ops: seq<PatchOp>, f: Path)
    returns (texts: seq<Option<string>>)
    requires !AnyRaised(engine, files, ops)
    ensures WrittenBy(ops, f, texts, TextOf(files, f), TextOf(RunOps(engine, files, ops), f))
  {
    if ops == [] {
      texts := [TextOf(files, f)];
    } else {
      var n := |ops| - 1;
      var before := TextsWritten(engine, files, ops[..n], f);
      OneOp(engine, RunOps(engine, files, ops[..n]), ops[n]);
      hide RunOp, Writes, TextOf;
      texts := before + [TextOf(RunOps(engine, files, ops), f)];
      forall i | 0 <= i < |ops|
        ensures if ops[i].file == f then Writes(ops[i], texts[i], texts[i + 1]) else texts[i + 1] == texts[i]
      {
        assert i < n ==> ops[..n][i] == ops[i] && texts[i] == before[i] && texts[i + 1] == before[i + 1];
      }
    }
  }

  /** When a batch applies, every file ends with the text its operations give it, in order. */
  lemma AppliedTexts(engine: Engine, files: Files, ops: seq<PatchOp>, f: Path)
    requires ApplyCandidate(engine, files, ops).Applied?
    ensures FileWrittenBy(ops, f, files, ApplyCandidate(engine, files, ops).files)
  {
    var texts := TextsWritten(engine, files, ops, f);
  }

  ghost predicate AllWrittenBy(ops: seq<PatchOp>, before: Files, after: Files) {
    forall f :: FileWrittenBy(ops, f, before, after)
  }

  lemma BatchWrites(engine: Engine, files: Files, ops: seq<PatchOp>)
    ensures ApplyCandidate(engine, files, ops).Applied? ==>
              AllWrittenBy(ops, files, ApplyCandidate(engine, files, ops).files)
  {
    hide ApplyCandidate, FileWrittenBy;
    if ApplyCandidate(engine, files, ops).Applied? {
      forall f ensures FileWrittenBy(ops, f, files, ApplyCandidate(engine, files, ops).files) {
        AppliedTexts(engine, files, ops, f);
      }
    }
  }

  /** So a created file that no later operation edits holds exactly the content given. */
  lemma CreatedFileHoldsContent(engine: Engine, files: Files, ops: seq<PatchOp>, i: nat)
    requires ApplyCandidate(engine, files, ops).Applied?
    requires i < |ops| && ops[i].CreateFile?
    requires forall j | i < j < |ops| && ops[j].file == ops[i].file :: !ops[j].EditFile?
    ensures TextOf(ApplyCandidate(engine, files, ops).files, ops[i].file) == Some(ops[i].content)
  {
    hide ApplyCandidate, TextOf, WrittenBy;
    var f := ops[i].file;
    AppliedTexts(engine, files, ops, f);
    var texts :| WrittenBy(ops, f, texts, TextOf(files, f), TextOf(ApplyCandidate(engine, files, ops).files, f));
    CreatedTextStays(ops, i, texts, TextOf(files, f), TextOf(ApplyCandidate(engine, files, ops).files, f));
  }

  lemma CreatedTextStays(ops: seq<PatchOp>, i: nat, texts: seq<Option<string>>, first: Option<string>,
                         last: Option<string>)
    requires i < |ops| && ops[i].CreateFile? && WrittenBy(ops, ops[i].file, texts, first, last)
    requires forall j | i < j < |ops| && ops[j].file == ops[i].file :: !ops[j].EditFile?
    ensures last == Some(ops[i].content)
  {
    assert Writes(ops[i], texts[i], texts[i + 1]);
    for j := i + 1 to |ops|
      invariant texts[j] == Some(ops[i].content)
    {
      assert ops[j].file == ops[i].file ==> Writes(ops[j], texts[j], texts[j + 1]);
    }
  }

  // ---- when a batch applies ----

  /** What preflight lets an operation do to the simulated sources. */
  ghost predicate Plans(op: PatchOp, before: Files, after: Files) {
    match op
    case CreateFile(f, content) => f !in before && after == before[f := content]
    case DeleteFile(f) => f in before && after == before - {f}
    case EditFile(f, _, plan, _) =>
      f in before && plan(before[f]).Some? && after == before[f := plan(before[f]).value]
  }

  /** `sources` are the simulated sources before the first operation and after each. */
  ghost predicate Planned(ops: seq<PatchOp>, sources: seq<Files>, files: Files) {
    && |sources| == |ops| + 1 && sources[0] == files
    && forall i | 0 <= i < |ops| :: Plans(ops[i], sources[i], sources[i + 1])
  }

  /** Every operation can be planned after the ones before it, none names a forbidden file, and the text
      planned for each file that ends up there parses, unless a node edit touches it. */
  ghost predicate PassesPreflight(engine: Engine, files: Files, ops: seq<PatchOp>, sources: seq<Files>) {
    && Planned(ops, sources, files)
    && forall f | f in OpFiles(ops) ::
         && !engine.forbidden(f)
         && (f in sources[|ops|] ==>
               || engine.parses(f, sources[|ops|][f])
               || exists j :: 0 <= j < |ops| && ops[j].file == f && ops[j].EditFile? && ops[j].nodeEdit)
  }

  lemma {:induction false} PlannedForward(files: Files, ops: seq<PatchOp>) returns (sources: seq<Files>)
    requires PlanOps(files, ops).Some?
    ensures Planned(ops, sources, files) && sources[|ops|] == PlanOps(files, ops).value
    decreases |ops|
  {
    if ops == [] {
      sources := [files];
    } else {
      var rest := PlannedForward(PlanOp(files, ops[0]).value, ops[1..]);
      sources := [files] + rest;
      forall i | 0 <= i < |ops| ensures Plans(ops[i], sources[i], sources[i + 1]) {
        assert i > 0 ==> Plans(ops[1..][i - 1], rest[i - 1], rest[i]);
      }
    }
  }

  lemma {:induction false} PlannedBack(files: Files, ops: seq<PatchOp>, sources: seq<Files>)
    requires Planned(ops, sources, files)
    ensures PlanOps(files, ops) == Some(sources[|ops|])
    decreases |ops|
  {
    if ops != [] {
      assert Plans(ops[0], sources[0], sources[1]);
      var rest := sources[1..];
      forall i | 0 <= i < |ops| - 1 ensures Plans(ops[1..][i], rest[i], rest[i + 1]) {
        assert Plans(ops[i + 1], sources[i + 1], sources[i + 2]);
      }
      PlannedBack(sources[1], ops[1..], rest);
    }
  }

  lemma FinalTextOf(engine: Engine, files: Files, ops: seq<PatchOp>)
    ensures
      (forall i | 0 <= i < |ops| :: !engine.forbidden(ops[i].file)) && FinalTextParses(engine, files, ops) <==>
      forall f | f in OpFiles(ops) ::
        && !engine.forbidden(f)
        && (f in files ==>
              || engine.parses(f, files[f])
              || exists j :: 0 <= j < |ops| && ops[j].file == f && ops[j].EditFile? && ops[j].nodeEdit)
  {
    forall i | 0 <= i < |ops| ensures ops[i].file in OpFiles(ops) {}
  }

  lemma PreflightMeans(engine: Engine, files: Files, ops: seq<PatchOp>)
    ensures Preflight(engine, files, ops) <==> exists sources :: PassesPreflight(engine, files, ops, sources)
  {
    if Preflight(engine, files, ops) {
      var sources := PlannedForward(files, ops);
      FinalTextOf(engine, sources[|ops|], ops);
      hide Planned, FinalTextParses, PlanOps, OpFiles;
      assert PassesPreflight(engine, files, ops, sources);
    }
    if sources :| PassesPreflight(engine, files, ops, sources) {
      PlannedBack(files, ops, sources);
      FinalTextOf(engine, sources[|ops|], ops);
      hide Planned, FinalTextParses, PlanOps, OpFiles;
    }
  }

  /** `states` are the files before the first operation and after each: one that fails writes nothing. */
  ghost predicate Passed(engine: Engine, ops: seq<PatchOp>, states: seq<Files>, files: Files) {
    && |states| == |ops| + 1 && states[0] == files
    && forall i | 0 <= i < |ops| :: PassesOn(engine, ops[i], states[i], states[i + 1])
  }

  ghost predicate PassesOn(engine: Engine, op: PatchOp, before: Files, after: Files) {
    if FailsIn(engine, op, before) then after == before
    else
      && Writes(op, TextOf(before, op.file), TextOf(after, op.file))
      && forall f | f != op.file :: TextOf(after, f) == TextOf(before, f)
  }

  ghost predicate FailsIn(engine: Engine, op: PatchOp, files: Files) {
    Fails(engine, op, TextOf(files, op.file))
  }

  /** The pass over any batch, whether it raises or not: it raises exactly when some operation fails on
      the files as the others before it left them, and leaves what all the others wrote. */
  lemma {:induction false} PassMeans(engine: Engine, files: Files, ops: seq<PatchOp>) returns (states: seq<Files>)
    ensures Passed(engine, ops, states, files) && states[|ops|] == RunOps(engine, files, ops)
    ensures AnyRaised(engine, files, ops) <==> exists i :: 0 <= i < |ops| && FailsIn(engine, ops[i], states[i])
  {
    if ops == [] {
      states := [files];
    } else {
      var n := |ops| - 1;
      var before := PassMeans(engine, files, ops[..n]);
      OneOp(engine, before[n], ops[n]);
      states := before + [RunOps(engine, files, ops)];
      hide RunOp, Writes, TextOf, Fails;
      assert PassesOn(engine, ops[n], states[n], states[n + 1]);
      hide PassesOn, FailsIn;
      forall i | 0 <= i < n
        ensures PassesOn(engine, ops[i], states[i], states[i + 1])
        ensures FailsIn(engine, ops[i], states[i]) <==> FailsIn(engine, ops[..n][i], before[i])
      {
        assert PassesOn(engine, ops[..n][i], before[i], before[i + 1]);
      }
    }
  }

  /** When a batch applies: it passes preflight, and no operation fails in the pass. */
  lemma AppliesIff(engine: Engine, files: Files, ops: seq<PatchOp>) returns (states: seq<Files>)
    ensures Passed(engine, ops, states, files)
    ensures
      var flight := exists sources :: PassesPreflight(engine, files, ops, sources);
      var failed := exists i :: 0 <= i < |ops| && FailsIn(engine, ops[i], states[i]);
      ApplyCandidate(engine, files, ops) ==
      if !flight then Raised(files) else if failed then Raised(states[|ops|]) else Applied(states[|ops|])
  {
    PreflightMeans(engine, files, ops);
    states := PassMeans(engine, files, ops);
    hide Preflight, PassesPreflight, RunOps, AnyRaised, Passed, FailsIn;
  }

  /** The exact outcome of a batch of one operation: when it applies, and what it leaves. */
  lemma LoneOp(engine: Engine, files: Files, op: PatchOp)
    ensures ApplyCandidate(engine, files, [op]) ==
            match op
            case CreateFile(f, content) =>
              if !engine.forbidden(f) && f !in files && engine.parses(f, content) then Applied(files[f := content])
              else Raised(files)
            case DeleteFile(f) => if !engine.forbidden(f) && f in files then Applied(files) else Raised(files)
            case EditFile(f, nodeEdit, plan, write) =>
              if !engine.forbidden(f) && f in files && plan(files[f]).Some?
                 && (nodeEdit || engine.parses(f, plan(files[f]).value)) && write(files[f]).Some?
              then Applied(files[f := write(files[f]).value])
              else Raised(files)
  {
    var ops := [op];
    assert ops[0] == op && ops[..0] == [] && ops[1..] == [];
    assert RunOps(engine, files, ops[..0]) == files && !AnyRaised(engine, files, ops[..0]);
    LonePreflight(engine, files, op);
    hide Preflight;
  }

  lemma LonePreflight(engine: Engine, files: Files, op: PatchOp)
    ensures Preflight(engine, files, [op]) <==>
            && !engine.forbidden(op.file)
            && match op
               case CreateFile(f, content) => f !in files && engine.parses(f, content)
               case DeleteFile(f) => f in files
               case EditFile(f, nodeEdit, plan, _) =>
                 f in files && plan(files[f]).Some? && (nodeEdit || engine.parses(f, plan(files[f]).value))
  {
    var ops := [op];
    assert ops[0] == op && ops[1..] == [];
    assert PlanOp(files, op).Some? ==> PlanOps(PlanOp(files, op).value, ops[1..]) == PlanOp(files, op);
    assert PlanOps(files, ops) == PlanOp(files, op);
    assert (forall i | 0 <= i < |ops| :: !engine.forbidden(ops[i].file)) <==> !engine.forbidden(op.file);
    if PlanOp(files, op).Some? {
      LoneFinalText(engine, PlanOp(files, op).value, op);
    }
    hide PlanOps, FinalTextParses;
  }

  lemma LoneFinalText(engine: Engine, planned: Files, op: PatchOp)
    ensures FinalTextParses(engine, planned, [op]) <==>
            (op.EditFile? && op.nodeEdit) || op.file !in planned || engine.parses(op.file, planned[op.file])
  {
    var ops := [op];
    assert ops[0] == op;
    assert (exists j :: 0 <= j < |ops| && ops[j].file == ops[0].file && ops[j].EditFile? && ops[j].nodeEdit)
      <==> op.EditFile? && op.nodeEdit;
  }

  method ApplyPatchCandidate(engine: Engine, files: Files, ops: seq<PatchOp>) returns (outcome: Outcome)
    ensures outcome == ApplyCandidate(engine, files, ops)
    ensures outcome.Applied? ==> AllWrittenBy(ops, files, outcome.files)
  {
    BatchWrites(engine, files, ops);
    hide AllWrittenBy, FinalTextParses;
    if !Preflight(engine, files, ops) {
      return Raised(files);
    }
    var current := files;
    var failed := false;
    for i := 0 to |ops|
      invariant current == RunOps(engine, files, ops[..i])
      invariant failed == AnyRaised(engine, files, ops[..i])
    {
      assert ops[..i + 1][..i] == ops[..i];
      match RunOp(engine, current, ops[i]) {
        case None => failed := true;
        case Some(next) => current := next;
      }
    }
    assert ops[..|ops|] == ops;
    outcome := if failed then Raised(current) else Applied(current);
  }

  // ---- what a batch can see and change ----

  ghost predicate Agree(a: Files, b: Files, f: Path) {
    (f in a <==> f in b) && (f in a ==> a[f] == b[f])
  }

  ghost predicate SameOn(a: Files, b: Files, paths: set<Path>) {
    forall f | f in paths :: Agree(a, b, f)
  }

  lemma SubFiles(ops: seq<PatchOp>)
    requires ops != []
    ensures OpFiles(ops[1..]) <= OpFiles(ops) && OpFiles(ops[..|ops| - 1]) <= OpFiles(ops)
  {
    forall i | 0 <= i < |ops| - 1
      ensures ops[1..][i].file in OpFiles(ops) && ops[..|ops| - 1][i].file in OpFiles(ops)
    {
      assert ops[1..][i] == ops[i + 1];
    }
  }

  lemma PlanOpLocal(a: Files, b: Files, op: PatchOp, paths: set<Path>)
    requires SameOn(a, b, paths) && op.file in paths
    ensures PlanOp(a, op).Some? <==> PlanOp(b, op).Some?
    ensures PlanOp(a, op).Some? ==> SameOn(PlanOp(a, op).value, PlanOp(b, op).value, paths)
  {
  }

  lemma {:induction false} PlanOpsLocal(a: Files, b: Files, ops: seq<PatchOp>, paths: set<Path>)
    requires SameOn(a, b, paths) && OpFiles(ops) <= paths
    ensures PlanOps(a, ops).Some? <==> PlanOps(b, ops).Some?
    ensures PlanOps(a, ops).Some? ==> SameOn(PlanOps(a, ops).value, PlanOps(b, ops).value, paths)
    decreases |ops|
  {
    if ops != [] {
      assert ops[0].file in OpFiles(ops);
      SubFiles(ops);
      PlanOpLocal(a, b, ops[0], paths);
      if PlanOp(a, ops[0]).Some? {
        PlanOpsLocal(PlanOp(a, ops[0]).value, PlanOp(b, ops[0]).value, ops[1..], paths);
      }
    }
  }

  lemma {:induction false} RunOpsLocal(engine: Engine, a: Files, b: Files, ops: seq<PatchOp>, paths: set<Path>)
    requires SameOn(a, b, paths) && OpFiles(ops) <= paths
    ensures SameOn(RunOps(engine, a, ops), RunOps(engine, b, ops), paths)
    ensures AnyRaised(engine, a, ops) <==> AnyRaised(engine, b, ops)
  {
    if ops != [] {
      var before, last := ops[..|ops| - 1], ops[|ops| - 1];
      assert last.file in OpFiles(ops);
      SubFiles(ops);
      RunOpsLocal(engine, a, b, before, paths);
    }
  }

  /** A batch behaves the same on two workspaces that agree on the files it names. */
  lemma ApplyLocal(engine: Engine, a: Files, b: Files, ops: seq<PatchOp>)
    requires SameOn(a, b, OpFiles(ops))
    ensures ApplyCandidate(engine, a, ops).Raised? <==> ApplyCandidate(engine, b, ops).Raised?
    ensures SameOn(ApplyCandidate(engine, a, ops).files, ApplyCandidate(engine, b, ops).files, OpFiles(ops))
  {
    var paths := OpFiles(ops);
    PlanOpsLocal(a, b, ops, paths);
    RunOpsLocal(engine, a, b, ops, paths);
    forall i | 0 <= i < |ops| ensures ops[i].file in paths {}
    if PlanOps(a, ops).Some? {
      FinalTextLocal(engine, PlanOps(a, ops).value, PlanOps(b, ops).value, ops);
    }
  }

  lemma FinalTextLocal(engine: Engine, a: Files, b: Files, ops: seq<PatchOp>)
    requires SameOn(a, b, OpFiles(ops))
    ensures FinalTextParses(engine, a, ops) <==> FinalTextParses(engine, b, ops)
  {
    forall i | 0 <= i < |ops| ensures ops[i].file in OpFiles(ops) {}
  }

  /** A batch changes only the files it names and removes none; when it raises nothing,
      every file it names exists afterwards. */
  lemma {:induction false} RunOpsFrame(engine: Engine, files: Files, ops: seq<PatchOp>)
    ensures forall f | f !in OpFiles(ops) :: Agree(RunOps(engine, files, ops), files, f)
    ensures files.Keys <= RunOps(engine, files, ops).Keys
    ensures !AnyRaised(engine, files, ops) ==> OpFiles(ops) <= RunOps(engine, files, ops).Keys
  {
    if ops != [] {
      var before, last := ops[..|ops| - 1], ops[|ops| - 1];
      RunOpsFrame(engine, files, before);
      forall i | 0 <= i < |before| ensures ops[i] == before[i] && before[i].file in OpFiles(ops) {
        assert ops[i].file in OpFiles(ops);
      }
      assert last.file in OpFiles(ops);
      assert OpFiles(ops) == OpFiles(before) + {last.file};
    }
  }

  /** A batch, whether it applies or raises, changes only the files it names and removes none. */
  lemma ApplyFrame(engine: Engine, files: Files, ops: seq<PatchOp>)
    ensures var outcome := ApplyCandidate(engine, files, ops);
            && files.Keys <= outcome.files.Keys
            && (forall f | f !in OpFiles(ops) :: Agree(outcome.files, files, f))
            && (forall f | !Agree(outcome.files, files, f) :: f in OpFiles(ops) && !engine.forbidden(f))
            && (outcome.Applied? ==> OpFiles(ops) <= outcome.files.Keys)
  {
    RunOpsFrame(engine, files, ops);
  }
}
