/** The per-turn edit session: patches land in a lazily filled shadow, accepted ones are
    promoted to the real workspace at once, rejected ones are undone in the shadow. */
module EditSession {
  import opened Ordering
  import opened PatchEngine
  import opened Wrappers

  /** The session's state: both trees, the files the shadow has ever held, and the pending batch. */
  datatype Session = Session(disk: Files, shadow: Option<Files>, touchedEver: set<Path>, pending: seq<Path>)

  datatype Batch = Batch(ops: seq<PatchOp>, accepted: bool)

  // ---- one step, as functions ----

  predicate Blank(text: string) {
    forall c | c in text ::
      c in [' ', '\t', '\n', '\r', '\U{0b}', '\U{0c}', '\U{1c}', '\U{1d}', '\U{1e}', '\U{1f}', '\U{85}', '\U{a0}']
  }

  predicate ParentPartAt(path: Path, i: nat) {
    && i + 2 <= |path| && path[i] == '.' && path[i + 1] == '.'
    && (i == 0 || path[i - 1] == '/') && (i + 2 == |path| || path[i + 2] == '/')
  }

  /** A workspace-relative, single-line path of bounded length. */
  predicate ValidFile(path: Path) {
    && !Blank(path)
    && (forall c | c in path :: c != '\n' && c != '\r' && c != '\0')
    && |path| <= 255
    && path[0] != '/'
    && !exists i | 0 <= i < |path| :: ParentPartAt(path, i)
  }

  /** The parts of a path between its slashes. */
  function Parts(path: Path): (parts: seq<string>)
    ensures parts != []
  {
    if path == "" then [""]
    else
      var rest := Parts(path[1..]);
      if path[0] == '/' then [""] + rest else [[path[0]] + rest[0]] + rest[1..]
  }

  lemma StartsWith(c: char, rest: string)
    ensures [c] + rest == ".." <==> c == '.' && rest == "."
    ensures [c] + rest == "." <==> c == '.' && rest == ""
  {
    assert ([c] + rest)[0] == c && ([c] + rest)[1..] == rest;
    assert ".."[1..] == "." && "."[1..] == "";
    assert ['.'] + "." == ".." && ['.'] + "" == ".";
  }

  /** Whether the text up to the next slash is exactly `..`, and whether a later part is. */
  lemma {:induction false} FirstPart(path: Path)
    ensures Parts(path)[0] == ".." <==>
            |path| >= 2 && path[0] == '.' && path[1] == '.' && (|path| == 2 || path[2] == '/')
    ensures Parts(path)[0] == "." <==> |path| >= 1 && path[0] == '.' && (|path| == 1 || path[1] == '/')
    ensures Parts(path)[0] == "" <==> path == "" || path[0] == '/'
  {
    if path != "" {
      FirstPart(path[1..]);
      if path[0] != '/' {
        var rest := Parts(path[1..])[0];
        assert Parts(path)[0] == [path[0]] + rest;
        StartsWith(path[0], rest);
      }
    }
  }

  lemma {:induction false} ParentParts(path: Path)
    ensures ".." in Parts(path)[1..] <==> exists i :: 0 < i < |path| && ParentPartAt(path, i)
  {
    if path != "" {
      var tail := path[1..];
      var rest := Parts(tail);
      ParentParts(tail);
      FirstPart(tail);
      assert Parts(path)[1..] == if path[0] == '/' then rest else rest[1..];
      assert ".." in rest <==> rest[0] == ".." || ".." in rest[1..];
      forall i | 1 < i < |path| ensures ParentPartAt(path, i) <==> i - 1 > 0 && ParentPartAt(tail, i - 1) {}
      if ".." in rest[1..] {
        var i :| 0 < i < |tail| && ParentPartAt(tail, i);
        assert ParentPartAt(path, i + 1);
      }
      if |path| > 1 {
        assert ParentPartAt(path, 1) <==> path[0] == '/' && rest[0] == "..";
      }
    }
  }

  /** Which paths an operation may name: a non-blank line of at most 255 characters, relative, and with no
      part `..` that could lead out of the workspace. */
  lemma ValidFileMeans(path: Path)
    ensures ValidFile(path) <==>
            && !Blank(path) && '\n' !in path && '\r' !in path && '\0' !in path && |path| <= 255
            && Parts(path)[0] != "" && ".." !in Parts(path)
  {
    FirstPart(path);
    ParentParts(path);
    assert ".." in Parts(path) <==> Parts(path)[0] == ".." || ".." in Parts(path)[1..];
    if path != "" {
      assert ParentPartAt(path, 0) <==> Parts(path)[0] == "..";
    }
    hide Parts, ParentPartAt;
  }

  predicate ValidOps(ops: seq<PatchOp>) {
    ops != [] && forall i | 0 <= i < |ops| :: ValidFile(ops[i].file)
  }

  function Restricted(files: Files, paths: set<Path>): Files {
    map f | f in files && f in paths :: files[f]
  }

  /** The shadow a batch is applied to: a fresh copy of its files, or the shadow so far with
      the files it has never held copied in from the real workspace. */
  ghost function Seeded(s: Session, paths: set<Path>): Files {
    match s.shadow
    case None => Restricted(s.disk, paths)
    case Some(shadow) => shadow + Restricted(s.disk, paths - s.touchedEver)
  }

  lemma SeedNothing(s: Session)
    ensures Seeded(s, {}) == if s.shadow.Some? then s.shadow.value else map[]
  {
  }

  lemma SeedNext(s: Session, paths: set<Path>, rel: Path)
    ensures Seeded(s, paths + {rel})
         == if rel in s.disk && rel !in (if s.shadow.Some? then s.touchedEver else {})
            then Seeded(s, paths)[rel := s.disk[rel]] else Seeded(s, paths)
  {
  }

  ghost function AfterApply(engine: Engine, s: Session, ops: seq<PatchOp>): Session {
    if !ValidOps(ops) then s
    else
      var outcome := ApplyCandidate(engine, Seeded(s, OpFiles(ops)), ops);
      s.(shadow := Some(outcome.files), touchedEver := s.touchedEver + OpFiles(ops),
         pending := if outcome.Applied? then Touched(ops) else s.pending)
  }

  ghost predicate Applies(engine: Engine, s: Session, ops: seq<PatchOp>) {
    ValidOps(ops) && ApplyCandidate(engine, Seeded(s, OpFiles(ops)), ops).Applied?
  }

  /** Copy each path from `source` where it exists there. */
  function CopiedInto(target: Files, source: Files, paths: seq<Path>): Files {
    target + map f | f in paths && f in source :: source[f]
  }

  function AfterAccept(s: Session): Session
    requires s.shadow.Some?
  {
    s.(disk := CopiedInto(s.disk, s.shadow.value, s.pending), pending := [])
  }

  function Restored(shadow: Files, disk: Files, paths: seq<Path>): Files {
    CopiedInto(shadow - (set f | f in paths && f !in disk), disk, paths)
  }

  lemma RestoreNext(shadow: Files, disk: Files, paths: seq<Path>, rel: Path)
    ensures Restored(shadow, disk, paths + [rel])
         == if rel in disk then Restored(shadow, disk, paths)[rel := disk[rel]]
            else Restored(shadow, disk, paths) - {rel}
  {
  }

  /** Restore each pending path from the real workspace, dropping those that do not exist there. */
  function AfterReject(s: Session): Session
    requires s.shadow.Some?
  {
    s.(shadow := Some(Restored(s.shadow.value, s.disk, s.pending)), pending := [])
  }

  ghost function AfterBatch(engine: Engine, s: Session, batch: Batch): Session {
    var t := AfterApply(engine, s, batch.ops);
    if !Applies(engine, s, batch.ops) then t
    else if batch.accepted then AfterAccept(t)
    else AfterReject(t)
  }

  ghost function AfterRun(engine: Engine, s: Session, batches: seq<Batch>): Session
    decreases |batches|
  {
    if batches == [] then s else AfterRun(engine, AfterBatch(engine, s, batches[0]), batches[1..])
  }

  function Fresh(disk: Files): Session {
    Session(disk, None, {}, [])
  }

  // ---- the same, file by file ----

  /** What the shadow holds before a patch: a named file the shadow has never held, as it is in the real
      workspace; any other file, as the shadow had it. */
  lemma SeededFile(s: Session, paths: set<Path>, f: Path)
    ensures TextOf(Seeded(s, paths), f) ==
            if s.shadow.None? then (if f in paths then TextOf(s.disk, f) else None)
            else if f in paths && f !in s.touchedEver && f in s.disk then Some(s.disk[f])
            else TextOf(s.shadow.value, f)
  {
  }

  /** What a promotion changes: each pending file that exists in the shadow, and nothing else. */
  lemma AcceptedFile(s: Session, f: Path)
    requires s.shadow.Some?
    ensures TextOf(AfterAccept(s).disk, f) ==
            if f in s.pending && f in s.shadow.value then Some(s.shadow.value[f]) else TextOf(s.disk, f)
    ensures AfterAccept(s).shadow == s.shadow && AfterAccept(s).pending == []
  {
  }

  /** What an undo changes: each pending file is again as it is in the real workspace, or gone. */
  lemma RejectedFile(s: Session, f: Path)
    requires s.shadow.Some?
    ensures AfterReject(s).shadow.Some? && AfterReject(s).disk == s.disk && AfterReject(s).pending == []
    ensures TextOf(AfterReject(s).shadow.value, f) ==
            if f in s.pending then TextOf(s.disk, f) else TextOf(s.shadow.value, f)
  {
  }

  /** The files a patch reports: those its operations name, each once and sorted. */
  lemma TouchedAre(ops: seq<PatchOp>)
    ensures StrictlySorted(Touched(ops), StringLess)
    ensures forall f :: f in Touched(ops) <==> exists i :: 0 <= i < |ops| && ops[i].file == f
  {
    TouchedFiles(ops);
  }

  // ---- the reference: accepted batches straight to the workspace ----

  function Direct(engine: Engine, workspace: Files, batch: Batch): Files {
    if !batch.accepted || !ValidOps(batch.ops) then workspace
    else match ApplyCandidate(engine, workspace, batch.ops) case Raised(_) => workspace case Applied(files) => files
  }

  function DirectRun(engine: Engine, workspace: Files, batches: seq<Batch>): Files
    decreases |batches|
  {
    if batches == [] then workspace else DirectRun(engine, Direct(engine, workspace, batches[0]), batches[1..])
  }

  /** Applying the batch either succeeds, or raises before it has changed anything. Both can be
      told from the workspace and the batch before the call. */
  predicate Harmless(engine: Engine, workspace: Files, ops: seq<PatchOp>) {
    ValidOps(ops) && Preflight(engine, workspace, ops) && AnyRaised(engine, workspace, ops) ==>
      RunOps(engine, workspace, ops) == workspace
  }

  predicate HarmlessRun(engine: Engine, workspace: Files, batches: seq<Batch>)
    decreases |batches|
  {
    batches == [] || (Harmless(engine, workspace, batches[0].ops)
                      && HarmlessRun(engine, Direct(engine, workspace, batches[0]), batches[1..]))
  }

  // ---- the patch-boundary invariant ----

  /** shadow == disk on every file the shadow has ever held. */
  ghost predicate Mirrors(s: Session) {
    s.shadow.Some? ==> SameOn(s.shadow.value, s.disk, s.touchedEver)
  }

  /** What holds in every state a turn can reach, mirrored or not. */
  ghost predicate WellKept(engine: Engine, s: Session) {
    match s.shadow
    case None => s.touchedEver == {}
    case Some(shadow) =>
      && shadow.Keys <= s.touchedEver
      && (forall f | f in s.touchedEver && f in s.disk :: f in shadow)
      && (forall f | f in s.touchedEver :: ValidFile(f))
      && (forall f | f in s.touchedEver && !Agree(shadow, s.disk, f) :: !engine.forbidden(f))
  }

  lemma SeededMirrors(engine: Engine, s: Session, paths: set<Path>)
    requires WellKept(engine, s) && Mirrors(s)
    ensures SameOn(Seeded(s, paths), s.disk, s.touchedEver + paths)
  {
  }

  lemma ApplyRestricted(engine: Engine, s: Session, ops: seq<PatchOp>)
    requires ValidOps(ops)
    ensures AfterApply(engine, s, ops).disk == s.disk
    ensures AfterApply(engine, s, ops).shadow.Some?
    ensures Applies(engine, s, ops) ==>
              && AfterApply(engine, s, ops).pending == Touched(ops)
              && OpFiles(ops) <= AfterApply(engine, s, ops).shadow.value.Keys
  {
    ApplyFrame(engine, Seeded(s, OpFiles(ops)), ops);
  }

  lemma TouchedFiles(ops: seq<PatchOp>)
    ensures forall f :: f in Touched(ops) <==> f in OpFiles(ops)
  {
    assert forall f :: f in Touched(ops) <==> f in Elements(Touched(ops));
  }

  lemma ApplyKeeps(engine: Engine, s: Session, ops: seq<PatchOp>)
    requires WellKept(engine, s)
    ensures WellKept(engine, AfterApply(engine, s, ops))
  {
    if ValidOps(ops) {
      var paths := OpFiles(ops);
      var seeded, t := Seeded(s, paths), AfterApply(engine, s, ops);
      ApplyFrame(engine, seeded, ops);
      SeededKeeps(engine, s, paths);
      assert forall f | f in paths :: ValidFile(f);
      hide ApplyCandidate, Seeded, OpFiles, ValidOps, ValidFile, Touched;
      forall f | f in t.shadow.value ensures f in t.touchedEver {
        assert f !in paths ==> Agree(t.shadow.value, seeded, f);
      }
      forall f | f in t.touchedEver && !Agree(t.shadow.value, t.disk, f) ensures !engine.forbidden(f) {
        assert Agree(t.shadow.value, seeded, f) ==> !Agree(seeded, s.disk, f);
      }
    }
  }

  lemma SeededKeeps(engine: Engine, s: Session, paths: set<Path>)
    requires WellKept(engine, s)
    ensures var seeded := Seeded(s, paths);
            && seeded.Keys <= s.touchedEver + paths
            && (forall f | f in s.touchedEver + paths && f in s.disk :: f in seeded)
            && (forall f | f in s.touchedEver + paths && !Agree(seeded, s.disk, f) :: !engine.forbidden(f))
  {
    var seeded := Seeded(s, paths);
    forall f | f in s.touchedEver + paths && !Agree(seeded, s.disk, f) ensures !engine.forbidden(f) {
      assert f in s.touchedEver && s.shadow.Some? && !Agree(s.shadow.value, s.disk, f);
    }
  }

  lemma AcceptKeeps(engine: Engine, s: Session)
    requires WellKept(engine, s) && s.shadow.Some?
    requires forall f | f in s.pending :: f in s.touchedEver
    ensures WellKept(engine, AfterAccept(s))
    ensures (forall f | f in s.touchedEver ::
               if f in s.pending then f in s.shadow.value else Agree(s.shadow.value, s.disk, f))
            ==> Mirrors(AfterAccept(s))
  {
    var t := AfterAccept(s);
    forall f | f in t.touchedEver && !Agree(t.shadow.value, t.disk, f) ensures !engine.forbidden(f) {
      assert !Agree(s.shadow.value, s.disk, f);
    }
    if forall f | f in s.touchedEver ::
         if f in s.pending then f in s.shadow.value else Agree(s.shadow.value, s.disk, f) {
      forall f | f in t.touchedEver ensures Agree(t.shadow.value, t.disk, f) {}
    }
  }

  lemma RejectKeeps(engine: Engine, s: Session)
    requires WellKept(engine, s) && s.shadow.Some?
    requires forall f | f in s.pending :: f in s.touchedEver
    ensures WellKept(engine, AfterReject(s)) && AfterReject(s).disk == s.disk
    ensures (forall f | f in s.touchedEver && f !in s.pending :: Agree(s.shadow.value, s.disk, f))
            ==> Mirrors(AfterReject(s))
  {
    var t := AfterReject(s);
    forall f | f in t.touchedEver && !Agree(t.shadow.value, t.disk, f) ensures !engine.forbidden(f) {
      assert !Agree(s.shadow.value, s.disk, f);
    }
    if forall f | f in s.touchedEver && f !in s.pending :: Agree(s.shadow.value, s.disk, f) {
      forall f | f in t.touchedEver ensures Agree(t.shadow.value, t.disk, f) {}
    }
  }

  lemma BatchKeeps(engine: Engine, s: Session, batch: Batch)
    requires WellKept(engine, s)
    ensures WellKept(engine, AfterBatch(engine, s, batch))
  {
    ApplyKeeps(engine, s, batch.ops);
    if Applies(engine, s, batch.ops) {
      var t := AfterApply(engine, s, batch.ops);
      ApplyRestricted(engine, s, batch.ops);
      TouchedFiles(batch.ops);
      if batch.accepted { AcceptKeeps(engine, t); } else { RejectKeeps(engine, t); }
    }
  }

  /** From a mirrored state a batch that applies does to the real workspace exactly what applying
      it directly would, if accepted, and nothing, if rejected; the states stay mirrored. */
  lemma {:induction false} AppliedBatch(engine: Engine, s: Session, batch: Batch)
    requires WellKept(engine, s) && Mirrors(s) && Applies(engine, s, batch.ops)
    ensures AfterBatch(engine, s, batch).disk == Direct(engine, s.disk, batch)
    ensures Mirrors(AfterBatch(engine, s, batch))
    ensures ApplyCandidate(engine, s.disk, batch.ops).Applied?
  {
    var paths := OpFiles(batch.ops);
    var seeded, t := Seeded(s, paths), AfterApply(engine, s, batch.ops);
    var direct := ApplyCandidate(engine, s.disk, batch.ops);
    ApplyKeeps(engine, s, batch.ops);
    ApplyRestricted(engine, s, batch.ops);
    SeededMirrors(engine, s, paths);
    ApplyLocal(engine, seeded, s.disk, batch.ops);
    ApplyFrame(engine, seeded, batch.ops);
    ApplyFrame(engine, s.disk, batch.ops);
    TouchedFiles(batch.ops);
    hide ApplyCandidate, Seeded, WellKept, OpFiles, ValidOps;
    forall f | f in t.touchedEver && f !in paths ensures Agree(t.shadow.value, t.disk, f) {
      assert Agree(t.shadow.value, seeded, f);
    }
    if batch.accepted {
      AcceptKeeps(engine, t);
      PromotionIsDirect(s.disk, t.shadow.value, direct.files, paths, t.pending);
    } else {
      RejectKeeps(engine, t);
    }
  }

  lemma PromotionIsDirect(disk: Files, shadow: Files, direct: Files, paths: set<Path>, list: seq<Path>)
    requires forall f :: f in list <==> f in paths
    requires SameOn(shadow, direct, paths) && paths <= shadow.Keys
    requires forall f | f !in paths :: Agree(direct, disk, f)
    ensures CopiedInto(disk, shadow, list) == direct
  {
    var promoted := CopiedInto(disk, shadow, list);
    forall f ensures f in promoted <==> f in direct {
      assert f !in paths ==> Agree(direct, disk, f);
    }
    forall f | f in direct ensures promoted[f] == direct[f] {
      assert f !in paths ==> Agree(direct, disk, f);
    }
  }

  /** Carried to the real workspace: after an accepted batch every file there has the text that the batch's
      operations on it give it, in order, starting from what was there. */
  lemma AcceptedTexts(engine: Engine, s: Session, batch: Batch, f: Path)
    requires WellKept(engine, s) && Mirrors(s) && Applies(engine, s, batch.ops) && batch.accepted
    ensures FileWrittenBy(batch.ops, f, s.disk, AfterBatch(engine, s, batch).disk)
  {
    AppliedBatch(engine, s, batch);
    AppliedTexts(engine, s.disk, batch.ops, f);
    hide AfterBatch, ApplyCandidate, FileWrittenBy, WellKept, Mirrors;
  }

  /** A batch that raises changes nothing in the real workspace. It leaves the shadow mirrored
      if and only if it was harmless: preflight stopped it, or nothing it wrote changed a file. */
  lemma RaisedBatch(engine: Engine, s: Session, batch: Batch)
    requires WellKept(engine, s) && Mirrors(s) && !Applies(engine, s, batch.ops)
    ensures AfterBatch(engine, s, batch).disk == s.disk == Direct(engine, s.disk, batch)
    ensures Mirrors(AfterBatch(engine, s, batch)) <==> Harmless(engine, s.disk, batch.ops)
  {
    if ValidOps(batch.ops) {
      var paths := OpFiles(batch.ops);
      var seeded, t := Seeded(s, paths), AfterApply(engine, s, batch.ops);
      var direct := ApplyCandidate(engine, s.disk, batch.ops);
      SeededMirrors(engine, s, paths);
      ApplyLocal(engine, seeded, s.disk, batch.ops);
      ApplyFrame(engine, seeded, batch.ops);
      ApplyFrame(engine, s.disk, batch.ops);
      assert Harmless(engine, s.disk, batch.ops) <==> direct.files == s.disk;
      hide ApplyCandidate, Harmless, Seeded, WellKept, OpFiles, ValidOps;
      assert SameOn(t.shadow.value, direct.files, paths);
      if direct.files == s.disk {
        forall f | f in t.touchedEver ensures Agree(t.shadow.value, t.disk, f) {
          assert f !in paths ==> Agree(t.shadow.value, seeded, f);
        }
      } else if SameOn(t.shadow.value, t.disk, t.touchedEver) {
        assert SameOn(direct.files, s.disk, paths);
        SameEverywhere(direct.files, s.disk, paths);
      }
    }
  }

  lemma SameEverywhere(a: Files, b: Files, paths: set<Path>)
    requires SameOn(a, b, paths) && forall f | f !in paths :: Agree(a, b, f)
    ensures a == b
  {
    forall f ensures f in a <==> f in b { assert f !in paths ==> Agree(a, b, f); }
    forall f | f in a ensures a[f] == b[f] { assert f !in paths ==> Agree(a, b, f); }
  }

  // ---- whole runs ----

  /** Every state a turn can reach is well kept, whatever its batches did. */
  lemma {:induction false} RunKeeps(engine: Engine, s: Session, batches: seq<Batch>)
    requires WellKept(engine, s)
    ensures WellKept(engine, AfterRun(engine, s, batches))
    decreases |batches|
  {
    hide WellKept, AfterBatch;
    if batches != [] {
      BatchKeeps(engine, s, batches[0]);
      RunKeeps(engine, AfterBatch(engine, s, batches[0]), batches[1..]);
    }
  }

  lemma TurnKeeps(engine: Engine, disk: Files, batches: seq<Batch>)
    ensures WellKept(engine, AfterRun(engine, Fresh(disk), batches))
  {
    RunKeeps(engine, Fresh(disk), batches);
  }

  /** No turn ever removes a file from the real workspace, whatever it deletes and has accepted. */
  lemma {:induction false} NothingVanishes(engine: Engine, s: Session, batches: seq<Batch>)
    ensures s.disk.Keys <= AfterRun(engine, s, batches).disk.Keys
    decreases |batches|
  {
    hide AfterBatch;
    if batches != [] {
      BatchRemovesNothing(engine, s, batches[0]);
      NothingVanishes(engine, AfterBatch(engine, s, batches[0]), batches[1..]);
    }
  }

  lemma BatchRemovesNothing(engine: Engine, s: Session, batch: Batch)
    ensures s.disk.Keys <= AfterBatch(engine, s, batch).disk.Keys
  {
    hide ApplyCandidate, Seeded, ValidOps, OpFiles;
    if Applies(engine, s, batch.ops) {
      AppliesHasShadow(engine, s, batch.ops);
    }
  }

  lemma AppliesHasShadow(engine: Engine, s: Session, ops: seq<PatchOp>)
    requires Applies(engine, s, ops)
    ensures AfterApply(engine, s, ops).shadow.Some? && AfterApply(engine, s, ops).disk == s.disk
  {
    hide ApplyCandidate, Seeded, ValidOps, OpFiles;
  }

  /** In particular an accepted deletion is reported as applied and changes nothing: the engine leaves
      a plain file in the shadow, and promotion copies it back as it was. */
  lemma AcceptedDeleteKeepsFile(engine: Engine, disk: Files, f: Path)
    requires ValidFile(f) && f in disk && !engine.forbidden(f)
    ensures Applies(engine, Fresh(disk), [DeleteFile(f)])
    ensures AfterRun(engine, Fresh(disk), [Batch([DeleteFile(f)], true)]).disk == disk
  {
    var ops := [DeleteFile(f)];
    assert OpFiles(ops) == {f} by { assert ops[0].file in OpFiles(ops); }
    SortedSingleton([f]);
    assert Elements([f]) == {f};
    var seeded := Seeded(Fresh(disk), {f});
    assert f in seeded && seeded[f] == disk[f];
    assert ValidOps(ops);
    DeleteIsNoOp(engine, seeded, f);
    assert CopiedInto(disk, seeded, [f]) == disk;
    AcceptedBatch(engine, Fresh(disk), ops, seeded);
    RunOne(engine, Fresh(disk), disk, Batch(ops, true));
    hide ApplyCandidate, ValidOps, Seeded, OpFiles, SortedIds, Preflight, AnyRaised, RunOps, AfterBatch, AfterRun;
  }

  /** The refinement: whatever batches a turn makes, whichever the user accepts and whichever
      raise, as long as raising ones are harmless the real workspace ends exactly as if only the
      accepted batches had been applied, in order, straight to the initial workspace. */
  lemma {:induction false} RunRefinesDirect(engine: Engine, s: Session, batches: seq<Batch>)
    requires WellKept(engine, s) && Mirrors(s) && HarmlessRun(engine, s.disk, batches)
    ensures AfterRun(engine, s, batches).disk == DirectRun(engine, s.disk, batches)
    ensures Mirrors(AfterRun(engine, s, batches)) && WellKept(engine, AfterRun(engine, s, batches))
    decreases |batches|
  {
    hide WellKept, Mirrors, AfterBatch, Applies, Direct, Harmless;
    if batches != [] {
      var t := AfterBatch(engine, s, batches[0]);
      BatchKeeps(engine, s, batches[0]);
      if Applies(engine, s, batches[0].ops) {
        AppliedBatch(engine, s, batches[0]);
      } else {
        RaisedBatch(engine, s, batches[0]);
      }
      RunRefinesDirect(engine, t, batches[1..]);
    }
  }

  lemma {:induction false} TurnRefinesDirect(engine: Engine, disk: Files, batches: seq<Batch>)
    requires HarmlessRun(engine, disk, batches)
    ensures AfterRun(engine, Fresh(disk), batches).disk == DirectRun(engine, disk, batches)
  {
    RunRefinesDirect(engine, Fresh(disk), batches);
  }

  /** All later harmless turns from `s` end where direct application from `s.disk` ends. */
  ghost predicate StaysFaithful(engine: Engine, s: Session) {
    forall more: seq<Batch> | HarmlessRun(engine, s.disk, more) ::
      AfterRun(engine, s, more).disk == DirectRun(engine, s.disk, more)
  }

  /** Mirroring is exactly what fidelity needs: from a state that is not mirrored, some later
      batch, harmless and accepted, promotes text nobody accepted. */
  lemma FaithfulIffMirrored(engine: Engine, s: Session)
    requires WellKept(engine, s)
    ensures StaysFaithful(engine, s) <==> Mirrors(s)
  {
    if Mirrors(s) {
      forall more: seq<Batch> | HarmlessRun(engine, s.disk, more)
        ensures AfterRun(engine, s, more).disk == DirectRun(engine, s.disk, more)
      {
        RunRefinesDirect(engine, s, more);
      }
    } else {
      var f :| f in s.touchedEver && !Agree(s.shadow.value, s.disk, f);
      PromotesStray(engine, s, f);
    }
  }

  /** The promoting batch is a lone `delete_file`: it leaves the shadow's stray text in place,
      counts the file as touched, and accepting it copies that text to the real workspace. */
  lemma PromotesStray(engine: Engine, s: Session, f: Path)
    requires WellKept(engine, s) && s.shadow.Some?
    requires f in s.touchedEver && !Agree(s.shadow.value, s.disk, f)
    ensures !StaysFaithful(engine, s)
  {
    var batch := Batch([DeleteFile(f)], true);
    StrayStep(engine, s, f);
    RunOne(engine, s, s.disk, batch);
    hide AfterBatch, Direct, Harmless, WellKept, AfterRun, DirectRun, HarmlessRun, SameOn;
    assert HarmlessRun(engine, s.disk, [batch]);
    assert AfterRun(engine, s, [batch]).disk != DirectRun(engine, s.disk, [batch]);
  }

  lemma {:induction false} RunOne(engine: Engine, s: Session, workspace: Files, batch: Batch)
    ensures AfterRun(engine, s, [batch]) == AfterBatch(engine, s, batch)
    ensures DirectRun(engine, workspace, [batch]) == Direct(engine, workspace, batch)
    ensures HarmlessRun(engine, workspace, [batch]) <==> Harmless(engine, workspace, batch.ops)
  {
    assert [batch][1..] == [];
  }

  lemma StrayStep(engine: Engine, s: Session, f: Path)
    requires WellKept(engine, s) && s.shadow.Some?
    requires f in s.touchedEver && !Agree(s.shadow.value, s.disk, f)
    ensures var batch := Batch([DeleteFile(f)], true);
            && f in s.shadow.value
            && s.disk[f := s.shadow.value[f]] != s.disk
            && AfterBatch(engine, s, batch).disk == s.disk[f := s.shadow.value[f]]
            && Direct(engine, s.disk, batch) == s.disk
            && Harmless(engine, s.disk, batch.ops)
  {
    var ops := [DeleteFile(f)];
    assert OpFiles(ops) == {f} by { assert ops[0].file in OpFiles(ops); }
    SortedSingleton([f]);
    assert Elements([f]) == {f};
    assert Seeded(s, {f}) == s.shadow.value;
    assert ValidOps(ops);
    assert f in s.shadow.value && !engine.forbidden(f);
    assert s.disk[f := s.shadow.value[f]] != s.disk;
    assert CopiedInto(s.disk, s.shadow.value, [f]) == s.disk[f := s.shadow.value[f]];
    DeleteIsNoOp(engine, s.shadow.value, f);
    DeleteIsNoOp(engine, s.disk, f);
    AcceptedBatch(engine, s, ops, s.shadow.value);
    hide ApplyCandidate, WellKept, ValidOps, Seeded, OpFiles, SortedIds, Preflight, AnyRaised, RunOps, Agree;
    hide CopiedInto, AfterBatch;
  }

  /** The state after a batch that applies and is accepted. */
  lemma AcceptedBatch(engine: Engine, s: Session, ops: seq<PatchOp>, files: Files)
    requires ValidOps(ops) && ApplyCandidate(engine, Seeded(s, OpFiles(ops)), ops) == Applied(files)
    ensures AfterBatch(engine, s, Batch(ops, true)).disk == CopiedInto(s.disk, files, Touched(ops))
  {
    hide ApplyCandidate, ValidOps, Seeded, OpFiles, Touched, CopiedInto;
  }

  lemma DeleteIsNoOp(engine: Engine, files: Files, f: Path)
    requires !engine.forbidden(f)
    ensures ApplyCandidate(engine, files, [DeleteFile(f)]) == if f in files then Applied(files) else Raised(files)
    ensures RunOps(engine, files, [DeleteFile(f)]) == files
  {
    var ops := [DeleteFile(f)];
    assert ops[..0] == [] && ops[1..] == [];
    assert !AnyRaised(engine, files, ops[..0]);
    assert RunOps(engine, files, ops[..0]) == files;
    if f in files {
      assert PlanOp(files, ops[0]) == Some(files - {f});
      assert PlanOps(files - {f}, ops[1..]) == Some(files - {f});
    } else {
      assert PlanOp(files, ops[0]) == None;
    }
  }

  /** So, for every batch from a mirrored state: the session stays faithful after it if and only
      if the batch was harmless. */
  lemma {:induction false} FaithfulIffHarmless(engine: Engine, s: Session, batch: Batch)
    requires WellKept(engine, s) && Mirrors(s)
    ensures StaysFaithful(engine, AfterBatch(engine, s, batch)) <==> Harmless(engine, s.disk, batch.ops)
    ensures AfterBatch(engine, s, batch).disk == Direct(engine, s.disk, batch)
  {
    BatchKeeps(engine, s, batch);
    FaithfulIffMirrored(engine, AfterBatch(engine, s, batch));
    if Applies(engine, s, batch.ops) {
      AppliedBatch(engine, s, batch);
      var paths := OpFiles(batch.ops);
      SeededMirrors(engine, s, paths);
      ApplyLocal(engine, Seeded(s, paths), s.disk, batch.ops);
    } else {
      RaisedBatch(engine, s, batch);
    }
  }

  // ---- the session object ----

  function FilesOf(ops: seq<PatchOp>): (files: seq<Path>)
    ensures Elements(files) == OpFiles(ops)
  {
    var files := seq(|ops|, i requires 0 <= i < |ops| => ops[i].file);
    assert forall i | 0 <= i < |ops| :: files[i] == ops[i].file && files[i] in Elements(files);
    files
  }

  class TurnEditSession {
    const engine: Engine
    var disk: Files
    var shadow: Option<Files>
    var touchedEver: set<Path>
    var pendingTouched: seq<Path>

    function State(): Session
      reads this
    {
      Session(disk, shadow, touchedEver, pendingTouched)
    }

    constructor (engine: Engine, disk: Files)
      ensures this.engine == engine && State() == Fresh(disk)
    {
      this.engine, this.disk := engine, disk;
      shadow, touchedEver, pendingTouched := None, {}, [];
    }

    /** Fill the shadow with the files about to be patched. */
    method EnsureShadow(touched: seq<Path>)
      modifies this`shadow, this`touchedEver
      ensures shadow == Some(Seeded(old(State()), Elements(touched)))
      ensures touchedEver == old(touchedEver) + Elements(touched)
    {
      var copy := if shadow.Some? then shadow.value else map[];
      var held := if shadow.Some? then touchedEver else {};
      var source, everBefore := disk, touchedEver;
      ghost var before := State();
      SeedNothing(before);
      for i := 0 to |touched|
        invariant copy == Seeded(before, Elements(touched[..i]))
      {
        assert touched[..i + 1] == touched[..i] + [touched[i]];
        ElementsAppend(touched[..i], touched[i]);
        SeedNext(before, Elements(touched[..i]), touched[i]);
        if touched[i] !in held && touched[i] in source {
          copy := copy[touched[i] := source[touched[i]]];
        }
      }
      assert touched[..|touched|] == touched;
      assert Elements(touched) == set f | f in touched;
      shadow := Some(copy);
      touchedEver := everBefore + set f | f in touched;
    }

    /** Patch the shadow. The diff lists the reported files that exist there; `None` means it raised. */
    method Apply(ops: seq<PatchOp>) returns (diff: Option<seq<Path>>)
      modifies this`shadow, this`touchedEver, this`pendingTouched
      ensures State() == AfterApply(engine, old(State()), ops)
      ensures diff == if Applies(engine, old(State()), ops) then Some(Touched(ops)) else None
      ensures diff.None? ==> pendingTouched == old(pendingTouched)
    {
      if !ValidOps(ops) {
        return None;
      }
      var touched := FilesOf(ops);
      EnsureShadow(touched);
      hide ValidOps, Seeded, OpFiles, StrictlySorted, Elements;
      var outcome := ApplyPatchCandidate(engine, shadow.value, ops);
      hide ApplyCandidate;
      shadow := Some(outcome.files);
      if outcome.Raised? {
        return None;
      }
      StringsOrdered(OpFiles(ops));
      pendingTouched := Sort(OpFiles(ops), StringLess);
      diff := Some(pendingTouched);
    }

    method Accept()
      requires shadow.Some?
      modifies this`disk, this`pendingTouched
      ensures State() == AfterAccept(old(State()))
    {
      var pending, source, promoted := pendingTouched, shadow.value, disk;
      ghost var start := promoted;
      for i := 0 to |pending|
        invariant promoted == CopiedInto(start, source, pending[..i])
      {
        var rel := pending[i];
        assert pending[..i + 1] == pending[..i] + [rel];
        if rel in source {
          promoted := promoted[rel := source[rel]];
        }
      }
      assert pending[..|pending|] == pending;
      disk := promoted;
      pendingTouched := [];
    }

    method Reject()
      requires shadow.Some?
      modifies this`shadow, this`pendingTouched
      ensures State() == AfterReject(old(State()))
    {
      var pending, source, restored := pendingTouched, disk, shadow.value;
      ghost var start := restored;
      for i := 0 to |pending|
        invariant restored == Restored(start, source, pending[..i])
      {
        var rel := pending[i];
        assert pending[..i + 1] == pending[..i] + [rel];
        RestoreNext(start, source, pending[..i], rel);
        if rel in source {
          restored := restored[rel := source[rel]];
        } else {
          restored := restored - {rel};
        }
      }
      assert pending[..|pending|] == pending;
      shadow := Some(restored);
      pendingTouched := [];
    }

    method Close()
      modifies this`shadow
      ensures shadow == None
    {
      shadow := None;
    }

    /** A turn's batches one after another, each accepted or rejected as the user decides. */
    method RunTurn(batches: seq<Batch>)
      modifies this
      ensures State() == AfterRun(engine, old(State()), batches)
      decreases |batches|
    {
      if batches == [] {
        return;
      }
      var diff := Apply(batches[0].ops);
      if diff.Some? {
        if batches[0].accepted { Accept(); } else { Reject(); }
      }
      RunTurn(batches[1..]);
    }
  }

  // ---- a harmful batch ----

  function Nowhere(path: Path): bool { false }

  function AnyText(path: Path, text: string): bool { true }

  function ToTwo(text: string): Option<string> { Some("two") }

  function Bang(text: string): Option<string> { Some(text + "!") }

  const LENIENT := Engine(Nowhere, AnyText)

  const DISK: Files := map["a" := "old", "b" := "one"]

  const STRAY: Files := map["a" := "old", "b" := "two"]

  const FAILED := [EditFile("b", false, ToTwo, ToTwo), DeleteFile("a"), CreateFile("a", "new")]

  const NEXT := [EditFile("b", false, Bang, Bang)]

  /** The harm is real. One batch edits `b` and replaces `a` by deleting and creating it; preflight
      passes, the create raises because the delete left `a` in place, and the edit of `b` stays in
      the shadow. The next accepted edit of `b` carries it into the real workspace. */
  lemma FailedBatchLeaksIntoNext()
    ensures
      var batches := [Batch(FAILED, true), Batch(NEXT, true)];
      && AfterRun(LENIENT, Fresh(DISK), batches).disk == DISK["b" := "two!"]
      && DirectRun(LENIENT, DISK, batches) == DISK["b" := "one!"]
  {
    var failed, next := Batch(FAILED, true), Batch(NEXT, true);
    var s := Session(DISK, Some(STRAY), {"a", "b"}, []);
    FailedStep();
    NextStep(DISK, DISK, None, "one!");
    NextStep(DISK, STRAY, Some(s), "two!");
    RunTwo(LENIENT, Fresh(DISK), DISK, failed, next);
  }

  lemma RunTwo(engine: Engine, s: Session, workspace: Files, first: Batch, second: Batch)
    ensures AfterRun(engine, s, [first, second]) == AfterBatch(engine, AfterBatch(engine, s, first), second)
    ensures DirectRun(engine, workspace, [first, second]) == Direct(engine, Direct(engine, workspace, first), second)
  {
    hide AfterBatch, Direct;
    RunOne(engine, AfterBatch(engine, s, first), Direct(engine, workspace, first), second);
    assert [first, second][1..] == [second];
  }

  lemma FailedStep()
    ensures AfterBatch(LENIENT, Fresh(DISK), Batch(FAILED, true)) == Session(DISK, Some(STRAY), {"a", "b"}, [])
    ensures Direct(LENIENT, DISK, Batch(FAILED, true)) == DISK
  {
    OneLetterValid("a");
    OneLetterValid("b");
    ReplaceRaises();
    assert OpFiles(FAILED) == {"a", "b"} by {
      assert FAILED[0].file in OpFiles(FAILED) && FAILED[1].file in OpFiles(FAILED);
    }
    assert ValidOps(FAILED);
    assert Seeded(Fresh(DISK), {"a", "b"}) == DISK;
    hide ApplyCandidate, ValidOps, OpFiles, Seeded;
  }

  /** The second batch, applied to a workspace directly or through a session whose shadow is `held`. */
  lemma NextStep(disk: Files, held: Files, session: Option<Session>, text: string)
    requires "b" in disk && "b" in held && text == held["b"] + "!"
    requires session.None? ==> held == disk
    requires session.Some? ==> session.value == Session(disk, Some(held), held.Keys, [])
    ensures session.None? ==> Direct(LENIENT, disk, Batch(NEXT, true)) == disk["b" := text]
    ensures session.Some? ==> AfterBatch(LENIENT, session.value, Batch(NEXT, true)).disk == disk["b" := text]
  {
    OneLetterValid("b");
    NextApplies(held);
    assert OpFiles(NEXT) == {"b"} by { assert NEXT[0].file in OpFiles(NEXT); }
    SortedSingleton(["b"]);
    assert Elements(["b"]) == {"b"};
    assert ValidOps(NEXT);
    assert session.Some? ==> Seeded(session.value, {"b"}) == held;
    if session.Some? {
      AcceptedBatch(LENIENT, session.value, NEXT, held["b" := text]);
    }
    hide ApplyCandidate, ValidOps, OpFiles, SortedIds, Seeded, AfterBatch;
  }

  lemma OneLetterValid(f: Path)
    requires f == "a" || f == "b"
    ensures ValidFile(f)
  {
    assert f[0] in f;
  }

  lemma ReplaceRaises()
    ensures ApplyCandidate(LENIENT, DISK, FAILED) == Raised(STRAY)
  {
    var disk := DISK;
    var edit, delete, create := FAILED[0], FAILED[1], FAILED[2];
    var edited := disk["b" := "two"];
    assert PlanOp(disk, edit) == Some(edited);
    assert PlanOp(edited, delete) == Some(edited - {"a"});
    assert PlanOp(edited - {"a"}, create) == Some((edited - {"a"})["a" := "new"]);
    assert FAILED[1..] == [delete, create] && FAILED[1..][1..] == [create] && FAILED[1..][1..][1..] == [];
    assert PlanOps(edited, [delete, create]) == PlanOps(edited - {"a"}, [create]) by {
      assert [delete, create][1..] == [create];
    }
    assert [create][1..] == [];
    assert PlanOps((edited - {"a"})["a" := "new"], []).Some?;
    assert PlanOps(edited - {"a"}, [create]).Some?;
    assert PlanOps(disk, FAILED).Some?;
    assert Preflight(LENIENT, disk, FAILED);
    hide Preflight, PlanOps;
    assert FAILED[..2] == [edit, delete] && FAILED[..2][..1] == [edit] && [edit][..0] == [];
    assert RunOps(LENIENT, disk, []) == disk && !AnyRaised(LENIENT, disk, []);
    assert RunOps(LENIENT, disk, [edit]) == edited && !AnyRaised(LENIENT, disk, [edit]);
    assert RunOps(LENIENT, disk, [edit, delete]) == edited && !AnyRaised(LENIENT, disk, [edit, delete]);
    assert RunOps(LENIENT, disk, FAILED) == edited && AnyRaised(LENIENT, disk, FAILED);
  }

  lemma NextApplies(disk: Files)
    requires "b" in disk
    ensures ApplyCandidate(LENIENT, disk, NEXT) == Applied(disk["b" := disk["b"] + "!"])
  {
    var edited := disk["b" := disk["b"] + "!"];
    assert NEXT[..0] == [] && NEXT[1..] == [];
    assert PlanOp(disk, NEXT[0]) == Some(edited) && PlanOps(edited, []) == Some(edited);
    assert RunOps(LENIENT, disk, []) == disk && !AnyRaised(LENIENT, disk, []);
  }
}
