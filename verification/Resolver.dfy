/** The resolver pass: parked call sites are looked up with a language server and the
    graph's fallback edges are rewritten from whatever it answers. */
module Resolver {
  import opened GraphModel
  import opened SymbolGraphs
  import opened Wrappers

  datatype LspLocation = LspLocation(path: string, line: nat, character: nat)

  /** What the oracle says when asked about one placeholder. A different answer may be
      given each time, so a run is described by one answer per placeholder. */
  datatype OracleAnswer = OracleAnswer(definition: Option<LspLocation>, implementations: seq<LspLocation>)

  const U32 := 0x1_0000_0000

  /** Server lines start at 0 and node lines at 1; both are 32-bit. */
  function TargetLine(loc: LspLocation): nat {
    (loc.line + 1) % U32
  }

  predicate AtOrAbove(node: SymbolNode, loc: LspLocation) {
    node.path == loc.path && node.line != 0 && node.line <= TargetLine(loc)
  }

  /** `id` is a stored node of the file, at or above the location, with none nearer. */
  ghost predicate Nearest(nodes: Nodes, loc: LspLocation, id: string) {
    && id in nodes && AtOrAbove(nodes[id], loc)
    && forall other | other in nodes && AtOrAbove(nodes[other], loc) :: nodes[other].line <= nodes[id].line
  }

  ghost predicate NoneAbove(nodes: Nodes, loc: LspLocation) {
    forall id | id in nodes :: !AtOrAbove(nodes[id], loc)
  }

  /** The server counts lines from zero; on the last 32-bit line the sum wraps, and no node is meant. */
  lemma AtOrAboveMeans(node: SymbolNode, loc: LspLocation)
    ensures loc.line < 0xFFFF_FFFF ==>
              (AtOrAbove(node, loc) <==> node.path == loc.path && 0 < node.line <= loc.line + 1)
    ensures loc.line == 0xFFFF_FFFF ==> !AtOrAbove(node, loc)
  {
  }

  /** `id` lies in the location's file, on its line or above it, with no node of the file strictly between. */
  ghost predicate Means(nodes: Nodes, loc: LspLocation, id: string) {
    && id in nodes && nodes[id].path == loc.path && 0 < nodes[id].line <= loc.line + 1
    && forall other | other in nodes && nodes[other].path == loc.path ::
         nodes[other].line <= nodes[id].line || loc.line + 1 < nodes[other].line
  }

  /** Which nodes a location can mean: those of its file on its own line or, failing that, on the closest
      line above. */
  lemma NearestMeans(nodes: Nodes, loc: LspLocation, id: string)
    requires loc.line < 0xFFFF_FFFF
    ensures Nearest(nodes, loc, id) <==> Means(nodes, loc, id)
  {
    forall other | other in nodes
      ensures AtOrAbove(nodes[other], loc) <==> nodes[other].path == loc.path && 0 < nodes[other].line <= loc.line + 1
    {
      AtOrAboveMeans(nodes[other], loc);
    }
    hide AtOrAbove;
  }

  lemma NoneAboveMeans(nodes: Nodes, loc: LspLocation)
    ensures loc.line < 0xFFFF_FFFF ==>
              (NoneAbove(nodes, loc) <==>
               forall id | id in nodes && nodes[id].path == loc.path ::
                 nodes[id].line == 0 || loc.line + 1 < nodes[id].line)
    ensures loc.line == 0xFFFF_FFFF ==> NoneAbove(nodes, loc)
  {
    forall other | other in nodes {
      AtOrAboveMeans(nodes[other], loc);
    }
    hide AtOrAbove;
  }

  // A class and, on the next line, its method.
  const CLASS_C := SymbolNode("C", "a.py", "C", Class, 1)
  const METHOD_M := SymbolNode("m", "a.py", "m", Method, 2)

  /** The server's line 0 is the class's line, its line 1 the method's. */
  lemma AdjacentLines(id: string, character: nat)
    ensures var nodes: Nodes := map["C" := CLASS_C, "m" := METHOD_M];
            && (Nearest(nodes, LspLocation("a.py", 0, character), id) <==> id == "C")
            && (Nearest(nodes, LspLocation("a.py", 1, character), id) <==> id == "m")
  {
    var nodes: Nodes := map["C" := CLASS_C, "m" := METHOD_M];
    assert "C"[0] != "m"[0];
    assert nodes["C"] == CLASS_C && nodes["m"] == METHOD_M;
    NearestMeans(nodes, LspLocation("a.py", 0, character), id);
    NearestMeans(nodes, LspLocation("a.py", 1, character), id);
    hide Nearest, NoneAbove;
  }

  /** What the pass did with one placeholder. */
  datatype Verdict = NoDefinition | OutsideWorkspace | Rewritten(declaration: string, implementers: seq<string>)

  /** `emitted` lists, in order, a nearest node for each implementation that is not the
      definition itself, lies in the workspace, and is not the declaration's own node. */
  ghost predicate FansOut(nodes: Nodes, definition: LspLocation, declaration: string,
                          locs: seq<LspLocation>, emitted: seq<string>) {
    if locs == [] then emitted == []
    else
      var before, last := locs[..|locs| - 1], locs[|locs| - 1];
      if last == definition || NoneAbove(nodes, last) then FansOut(nodes, definition, declaration, before, emitted)
      else
        || (Nearest(nodes, last, declaration) && FansOut(nodes, definition, declaration, before, emitted))
        || (emitted != [] && emitted[|emitted| - 1] != declaration && Nearest(nodes, last, emitted[|emitted| - 1])
            && FansOut(nodes, definition, declaration, before, emitted[..|emitted| - 1]))
  }

  /** `verdict` is what the rules allow for this placeholder and this oracle answer. */
  ghost predicate Follows(nodes: Nodes, placeholder: PlaceholderEdge, answer: OracleAnswer, verdict: Verdict) {
    match answer.definition
    case None => verdict == NoDefinition
    case Some(loc) =>
      if NoneAbove(nodes, loc) then verdict == OutsideWorkspace
      else
        && verdict.Rewritten?
        && Nearest(nodes, loc, verdict.declaration)
        && (placeholder.edgeKind != Calls ==> verdict.implementers == [])
        && (placeholder.edgeKind == Calls ==>
              FansOut(nodes, loc, verdict.declaration, answer.implementations, verdict.implementers))
  }

  function Fallback(p: PlaceholderEdge): SymbolEdge {
    SymbolEdge(p.fromId, p.externalToId, p.edgeKind)
  }

  function ResolvedEdge(p: PlaceholderEdge, declaration: string): SymbolEdge {
    SymbolEdge(p.fromId, declaration, p.edgeKind)
  }

  function ImplementsEdges(implementers: seq<string>, declaration: string): Edges {
    set id | id in implementers :: SymbolEdge(id, declaration, Implements)
  }

  function Drops(p: PlaceholderEdge, v: Verdict): Edges {
    if v.Rewritten? then {Fallback(p)} else {}
  }

  function Adds(p: PlaceholderEdge, v: Verdict): Edges {
    if v.Rewritten? then {ResolvedEdge(p, v.declaration)} + ImplementsEdges(v.implementers, v.declaration) else {}
  }

  /** The edge set after a pass with these verdicts. */
  function Rewrite(edges: Edges, placeholders: seq<PlaceholderEdge>, verdicts: seq<Verdict>): Edges
    requires |placeholders| == |verdicts|
  {
    if placeholders == [] then edges
    else
      var n := |placeholders| - 1;
      Rewrite(edges, placeholders[..n], verdicts[..n])
      - Drops(placeholders[n], verdicts[n]) + Adds(placeholders[n], verdicts[n])
  }

  ghost predicate DroppedAfter(placeholders: seq<PlaceholderEdge>, verdicts: seq<Verdict>, from: nat, e: SymbolEdge)
    requires |placeholders| == |verdicts|
  {
    exists j :: from <= j < |placeholders| && e in Drops(placeholders[j], verdicts[j])
  }

  ghost predicate AddedAt(placeholders: seq<PlaceholderEdge>, verdicts: seq<Verdict>, i: nat, e: SymbolEdge)
    requires |placeholders| == |verdicts|
  {
    i < |placeholders| && e in Adds(placeholders[i], verdicts[i])
  }

  /** Exactly which edges a pass leaves, for every placeholder list and every oracle: an edge is
      present at the end if and only if its last addition was not followed by a drop, or it was
      there before and nothing dropped it. */
  lemma {:induction false} EdgesAfterPass(edges: Edges, placeholders: seq<PlaceholderEdge>, verdicts: seq<Verdict>,
                                          e: SymbolEdge)
    requires |placeholders| == |verdicts|
    ensures e in Rewrite(edges, placeholders, verdicts) <==>
            || (e in edges && !DroppedAfter(placeholders, verdicts, 0, e))
            || (exists i: nat ::
                  AddedAt(placeholders, verdicts, i, e) && !DroppedAfter(placeholders, verdicts, i + 1, e))
  {
    if placeholders != [] {
      var n := |placeholders| - 1;
      var ps, vs := placeholders[..n], verdicts[..n];
      EdgesAfterPass(edges, ps, vs, e);
      forall from: nat | from <= n
        ensures DroppedAfter(placeholders, verdicts, from, e) <==>
                DroppedAfter(ps, vs, from, e) || e in Drops(placeholders[n], verdicts[n])
      {
        if j :| from <= j < n && e in Drops(ps[j], vs[j]) {
          assert e in Drops(placeholders[j], verdicts[j]);
        }
        if j :| from <= j < n + 1 && e in Drops(placeholders[j], verdicts[j]) {
          assert j < n ==> e in Drops(ps[j], vs[j]);
        }
      }
      forall i: nat
        ensures AddedAt(placeholders, verdicts, i, e) <==>
                AddedAt(ps, vs, i, e) || (i == n && e in Adds(placeholders[n], verdicts[n]))
      {
      }
      if e in Adds(placeholders[n], verdicts[n]) {
        assert AddedAt(placeholders, verdicts, n, e) && !DroppedAfter(placeholders, verdicts, n + 1, e);
      } else if e !in Drops(placeholders[n], verdicts[n]) {
        if i: nat :| AddedAt(ps, vs, i, e) && !DroppedAfter(ps, vs, i + 1, e) {
          assert AddedAt(placeholders, verdicts, i, e) && !DroppedAfter(placeholders, verdicts, i + 1, e);
        }
        if i: nat :| AddedAt(placeholders, verdicts, i, e) && !DroppedAfter(placeholders, verdicts, i + 1, e) {
          assert AddedAt(ps, vs, i, e) && !DroppedAfter(ps, vs, i + 1, e);
        }
      }
    }
  }

  /** The edge a resolved placeholder got survives the pass if and only if every later placeholder
      whose fallback is that very edge is made good by an addition at or after it. */
  lemma ResolvedEdgeSurvives(edges: Edges, placeholders: seq<PlaceholderEdge>, verdicts: seq<Verdict>, i: nat)
    requires |placeholders| == |verdicts| && i < |placeholders| && verdicts[i].Rewritten?
    ensures
      var e := ResolvedEdge(placeholders[i], verdicts[i].declaration);
      e in Rewrite(edges, placeholders, verdicts) <==>
      forall j | i < j < |placeholders| && e in Drops(placeholders[j], verdicts[j]) ::
        exists k: nat :: j <= k && AddedAt(placeholders, verdicts, k, e)
  {
    var e := ResolvedEdge(placeholders[i], verdicts[i].declaration);
    EdgesAfterPass(edges, placeholders, verdicts, e);
    assert AddedAt(placeholders, verdicts, i, e);
    if e in Rewrite(edges, placeholders, verdicts) {
      forall j | i < j < |placeholders| && e in Drops(placeholders[j], verdicts[j])
        ensures exists k: nat :: j <= k && AddedAt(placeholders, verdicts, k, e)
      {
        assert DroppedAfter(placeholders, verdicts, 0, e);
        var k: nat :| AddedAt(placeholders, verdicts, k, e) && !DroppedAfter(placeholders, verdicts, k + 1, e);
        assert j <= k;
      }
    } else {
      var last := LastAddition(placeholders, verdicts, i, e);
      var j: nat :| last + 1 <= j < |placeholders| && e in Drops(placeholders[j], verdicts[j]);
      assert forall k: nat | j <= k :: !AddedAt(placeholders, verdicts, k, e);
    }
  }

  lemma {:induction false} LastAddition(placeholders: seq<PlaceholderEdge>, verdicts: seq<Verdict>, i: nat,
                                        e: SymbolEdge)
    returns (last: nat)
    requires |placeholders| == |verdicts| && AddedAt(placeholders, verdicts, i, e)
    ensures i <= last && AddedAt(placeholders, verdicts, last, e)
    ensures forall k: nat | last < k :: !AddedAt(placeholders, verdicts, k, e)
    decreases |placeholders| - i
  {
    if k: nat :| i < k && AddedAt(placeholders, verdicts, k, e) {
      last := LastAddition(placeholders, verdicts, k, e);
    } else {
      last := i;
    }
  }

  /** When no chosen declaration is the external id of a placeholder of the pass, every resolved
      placeholder's edge is there at the end. The pass loses only fallback edges of resolved
      placeholders; what it adds beyond resolved edges are `Implements` edges, none a self-loop. */
  lemma PassRewritesFallbacks(nodes: Nodes, edges: Edges, placeholders: seq<PlaceholderEdge>,
                              answers: seq<OracleAnswer>, verdicts: seq<Verdict>)
    requires |placeholders| == |answers| == |verdicts|
    requires forall i | 0 <= i < |placeholders| :: Follows(nodes, placeholders[i], answers[i], verdicts[i])
    ensures
      (forall i, j | 0 <= i < |placeholders| && 0 <= j < |placeholders| && verdicts[i].Rewritten? ::
         verdicts[i].declaration != placeholders[j].externalToId) ==>
      forall i | 0 <= i < |placeholders| && verdicts[i].Rewritten? ::
        ResolvedEdge(placeholders[i], verdicts[i].declaration) in Rewrite(edges, placeholders, verdicts)
    ensures forall e | e in edges && e !in Rewrite(edges, placeholders, verdicts) ::
              exists j :: 0 <= j < |placeholders| && verdicts[j].Rewritten? && e == Fallback(placeholders[j])
    ensures forall e | e in Rewrite(edges, placeholders, verdicts) && e !in edges ::
              || (exists i :: 0 <= i < |placeholders| && verdicts[i].Rewritten?
                              && e == ResolvedEdge(placeholders[i], verdicts[i].declaration))
              || (e.kind == Implements && e.from != e.to && e.from in nodes && e.to in nodes)
  {
    if forall i, j | 0 <= i < |placeholders| && 0 <= j < |placeholders| && verdicts[i].Rewritten? ::
         verdicts[i].declaration != placeholders[j].externalToId {
      forall i | 0 <= i < |placeholders| && verdicts[i].Rewritten?
        ensures ResolvedEdge(placeholders[i], verdicts[i].declaration) in Rewrite(edges, placeholders, verdicts)
      {
        ResolvedEdgeSurvives(edges, placeholders, verdicts, i);
      }
    }
    forall e | e in edges && e !in Rewrite(edges, placeholders, verdicts)
      ensures exists j :: 0 <= j < |placeholders| && verdicts[j].Rewritten? && e == Fallback(placeholders[j])
    {
      EdgesAfterPass(edges, placeholders, verdicts, e);
      var j :| 0 <= j < |placeholders| && e in Drops(placeholders[j], verdicts[j]);
    }
    forall e | e in Rewrite(edges, placeholders, verdicts) && e !in edges
      ensures || (exists i :: 0 <= i < |placeholders| && verdicts[i].Rewritten?
                              && e == ResolvedEdge(placeholders[i], verdicts[i].declaration))
              || (e.kind == Implements && e.from != e.to && e.from in nodes && e.to in nodes)
    {
      EdgesAfterPass(edges, placeholders, verdicts, e);
      var i: nat :| AddedAt(placeholders, verdicts, i, e);
      if e != ResolvedEdge(placeholders[i], verdicts[i].declaration) {
        assert e in ImplementsEdges(verdicts[i].implementers, verdicts[i].declaration);
        ImplementersDiffer(nodes, answers[i].definition.value, verdicts[i].declaration,
                           answers[i].implementations, verdicts[i].implementers);
      }
    }
  }

  lemma {:induction false} ImplementersDiffer(nodes: Nodes, definition: LspLocation, declaration: string,
                                              locs: seq<LspLocation>, emitted: seq<string>)
    requires FansOut(nodes, definition, declaration, locs, emitted)
    ensures forall id | id in emitted :: id != declaration && id in nodes
    ensures |emitted| <= |locs|
  {
    if locs != [] {
      var before := locs[..|locs| - 1];
      if FansOut(nodes, definition, declaration, before, emitted) {
        ImplementersDiffer(nodes, definition, declaration, before, emitted);
      } else {
        ImplementersDiffer(nodes, definition, declaration, before, emitted[..|emitted| - 1]);
        assert emitted == emitted[..|emitted| - 1] + [emitted[|emitted| - 1]];
      }
    }
  }

  // ---- the same, told from the nodes and the answers alone ----

  /** A proviso to check before the pass: no node that a definition could be mapped to is the
      external id of a placeholder. Then every resolved edge is there at the end. */
  lemma NoExternalTargetsSurvive(nodes: Nodes, edges: Edges, placeholders: seq<PlaceholderEdge>,
                                 answers: seq<OracleAnswer>, verdicts: seq<Verdict>)
    requires |placeholders| == |answers| == |verdicts|
    requires forall i | 0 <= i < |placeholders| :: Follows(nodes, placeholders[i], answers[i], verdicts[i])
    requires forall i, j, id | 0 <= i < |answers| && 0 <= j < |placeholders| && answers[i].definition.Some?
               && Nearest(nodes, answers[i].definition.value, id) :: id != placeholders[j].externalToId
    ensures forall i | 0 <= i < |placeholders| && verdicts[i].Rewritten? ::
              ResolvedEdge(placeholders[i], verdicts[i].declaration) in Rewrite(edges, placeholders, verdicts)
  {
    hide Nearest, FansOut, Rewrite;
    forall i, j | 0 <= i < |placeholders| && 0 <= j < |placeholders| && verdicts[i].Rewritten?
      ensures verdicts[i].declaration != placeholders[j].externalToId
    {
      assert Nearest(nodes, answers[i].definition.value, verdicts[i].declaration);
    }
    PassRewritesFallbacks(nodes, edges, placeholders, answers, verdicts);
  }

  /** `id` is the one nearest node: nothing ties with it. */
  ghost predicate Only(nodes: Nodes, loc: LspLocation, id: string) {
    Nearest(nodes, loc, id) && forall other | Nearest(nodes, loc, other) :: other == id
  }

  /** A placeholder with this answer takes the edge away. */
  ghost predicate Clears(nodes: Nodes, p: PlaceholderEdge, answer: OracleAnswer, e: SymbolEdge) {
    answer.definition.Some? && !NoneAbove(nodes, answer.definition.value) && e == Fallback(p)
  }

  /** Some implementation other than the definition can be mapped to `id`, or can only be. */
  ghost predicate CanMeet(nodes: Nodes, definition: LspLocation, locs: seq<LspLocation>, id: string) {
    exists loc :: loc in locs && loc != definition && Nearest(nodes, loc, id)
  }

  ghost predicate IsBoundToMeet(nodes: Nodes, definition: LspLocation, locs: seq<LspLocation>, id: string) {
    exists loc :: loc in locs && loc != definition && Only(nodes, loc, id)
  }

  /** A placeholder with this answer can put the edge there: as its resolved edge, or by fanning out. */
  ghost predicate MayDraw(nodes: Nodes, p: PlaceholderEdge, answer: OracleAnswer, e: SymbolEdge) {
    && answer.definition.Some? && Nearest(nodes, answer.definition.value, e.to)
    && (|| (e.from == p.fromId && e.kind == p.edgeKind)
        || (p.edgeKind == Calls && e.kind == Implements && e.from != e.to
            && CanMeet(nodes, answer.definition.value, answer.implementations, e.from)))
  }

  /** It is bound to, however ties between equally near nodes are broken. */
  ghost predicate MustDraw(nodes: Nodes, p: PlaceholderEdge, answer: OracleAnswer, e: SymbolEdge) {
    && answer.definition.Some? && Only(nodes, answer.definition.value, e.to)
    && (|| (e.from == p.fromId && e.kind == p.edgeKind)
        || (p.edgeKind == Calls && e.kind == Implements && e.from != e.to
            && IsBoundToMeet(nodes, answer.definition.value, answer.implementations, e.from)))
  }

  lemma DropsIffClears(nodes: Nodes, p: PlaceholderEdge, answer: OracleAnswer, v: Verdict, e: SymbolEdge)
    requires Follows(nodes, p, answer, v)
    ensures e in Drops(p, v) <==> Clears(nodes, p, answer, e)
  {
    hide FansOut;
  }

  // What a fan-out can emit, and what it must.
  lemma {:induction false} FanOutBounds(nodes: Nodes, definition: LspLocation, declaration: string,
                                        locs: seq<LspLocation>, emitted: seq<string>)
    requires FansOut(nodes, definition, declaration, locs, emitted)
    ensures forall id | id in emitted :: id != declaration && CanMeet(nodes, definition, locs, id)
    ensures forall id | id != declaration && IsBoundToMeet(nodes, definition, locs, id) :: id in emitted
  {
    if locs != [] {
      var before, last := locs[..|locs| - 1], locs[|locs| - 1];
      assert forall loc :: loc in locs <==> loc in before || loc == last;
      if FansOut(nodes, definition, declaration, before, emitted)
         && (last == definition || NoneAbove(nodes, last) || Nearest(nodes, last, declaration)) {
        FanOutBounds(nodes, definition, declaration, before, emitted);
      } else {
        var n := |emitted| - 1;
        FanOutBounds(nodes, definition, declaration, before, emitted[..n]);
        assert forall id :: id in emitted <==> id in emitted[..n] || id == emitted[n];
      }
    }
  }

  lemma DrawBounds(nodes: Nodes, p: PlaceholderEdge, answer: OracleAnswer, v: Verdict, e: SymbolEdge)
    requires Follows(nodes, p, answer, v)
    ensures e in Adds(p, v) ==> MayDraw(nodes, p, answer, e)
    ensures MustDraw(nodes, p, answer, e) ==> e in Adds(p, v)
  {
    if v.Rewritten? {
      if p.edgeKind == Calls {
        FanOutBounds(nodes, answer.definition.value, v.declaration, answer.implementations, v.implementers);
      }
      hide FansOut;
      InImplements(v.implementers, v.declaration, e);
    }
  }

  lemma InImplements(implementers: seq<string>, declaration: string, e: SymbolEdge)
    ensures e in ImplementsEdges(implementers, declaration) <==>
            e.kind == Implements && e.to == declaration && e.from in implementers
  {
    assert e == SymbolEdge(e.from, e.to, e.kind);
  }

  // ---- breaking ties for or against an edge ----

  lemma NearestOf(nodes: Nodes, loc: LspLocation, ids: set<string>) returns (id: string)
    requires ids != {} && forall x | x in ids :: x in nodes && AtOrAbove(nodes[x], loc)
    ensures id in ids && forall x | x in ids :: nodes[x].line <= nodes[id].line
    decreases ids
  {
    id :| id in ids;
    if ids != {id} {
      var best := NearestOf(nodes, loc, ids - {id});
      if nodes[id].line < nodes[best].line {
        id := best;
      }
    }
  }

  /** A nearest node, when there is one: `id` itself or another, as asked, where there is the choice. */
  lemma PickNearest(nodes: Nodes, loc: LspLocation, id: string, want: bool) returns (picked: string)
    requires !NoneAbove(nodes, loc)
    ensures Nearest(nodes, loc, picked)
    ensures want && Nearest(nodes, loc, id) ==> picked == id
    ensures !want && !Only(nodes, loc, id) ==> picked != id
  {
    var ids := set x | x in nodes && AtOrAbove(nodes[x], loc);
    var some :| some in nodes && AtOrAbove(nodes[some], loc);
    assert some in ids;
    picked := NearestOf(nodes, loc, ids);
    if want && Nearest(nodes, loc, id) {
      picked := id;
    } else if !want && picked == id && !Only(nodes, loc, id) {
      picked :| Nearest(nodes, loc, picked) && picked != id;
    }
  }

  /** A fan-out that emits `id` if it can, or only if it must, as asked. */
  lemma {:induction false} PickEmitted(nodes: Nodes, definition: LspLocation, declaration: string,
                                       locs: seq<LspLocation>, id: string, want: bool)
    returns (emitted: seq<string>)
    ensures FansOut(nodes, definition, declaration, locs, emitted)
    ensures want && id != declaration && CanMeet(nodes, definition, locs, id) ==> id in emitted
    ensures !want && !IsBoundToMeet(nodes, definition, locs, id) ==> id !in emitted
  {
    emitted := [];
    if locs != [] {
      var before, last := locs[..|locs| - 1], locs[|locs| - 1];
      emitted := PickEmitted(nodes, definition, declaration, before, id, want);
      assert forall loc :: loc in locs <==> loc in before || loc == last;
      if last != definition && !NoneAbove(nodes, last) {
        var picked := PickNearest(nodes, last, id, want);
        if picked != declaration {
          assert (emitted + [picked])[..|emitted|] == emitted;
          emitted := emitted + [picked];
        }
      }
      hide Nearest, Only;
    }
  }

  /** A verdict for one placeholder that adds the edge if it can, or only if it must, as asked. */
  lemma PickVerdict(nodes: Nodes, p: PlaceholderEdge, answer: OracleAnswer, e: SymbolEdge, want: bool)
    returns (v: Verdict)
    ensures Follows(nodes, p, answer, v)
    ensures want && MayDraw(nodes, p, answer, e) ==> e in Adds(p, v)
    ensures !want && !MustDraw(nodes, p, answer, e) ==> e !in Adds(p, v)
  {
    if answer.definition.None? {
      v := NoDefinition;
    } else if NoneAbove(nodes, answer.definition.value) {
      v := OutsideWorkspace;
    } else {
      var d := answer.definition.value;
      var declaration := PickNearest(nodes, d, e.to, want);
      v := PickRewritten(nodes, p, answer, declaration, e.from, want);
      hide FansOut, Nearest, NoneAbove;
      InImplements(v.implementers, declaration, e);
      if declaration in v.implementers {
        ImplementersDiffer(nodes, d, declaration, answer.implementations, v.implementers);
      }
    }
  }

  /** The same with the declaration given: what is emitted is still open. */
  lemma PickRewritten(nodes: Nodes, p: PlaceholderEdge, answer: OracleAnswer, declaration: string, id: string,
                      want: bool)
    returns (v: Verdict)
    requires answer.definition.Some? && Nearest(nodes, answer.definition.value, declaration)
    ensures v.Rewritten? && v.declaration == declaration && Follows(nodes, p, answer, v)
    ensures p.edgeKind == Calls && want && id != declaration ==>
              CanMeet(nodes, answer.definition.value, answer.implementations, id) ==> id in v.implementers
    ensures !want && !IsBoundToMeet(nodes, answer.definition.value, answer.implementations, id) ==>
              id !in v.implementers
    ensures p.edgeKind != Calls ==> v.implementers == []
  {
    v := Rewritten(declaration, []);
    if p.edgeKind == Calls {
      var emitted :=
        PickEmitted(nodes, answer.definition.value, declaration, answer.implementations, id, want);
      v := Rewritten(declaration, emitted);
    }
    hide FansOut;
  }

  // ---- the exact condition ----

  /** The verdicts a pass can reach on these nodes and answers, with the i-th call mapped to `declaration`. */
  ghost predicate Reachable(nodes: Nodes, placeholders: seq<PlaceholderEdge>, answers: seq<OracleAnswer>,
                            i: nat, declaration: string, verdicts: seq<Verdict>) {
    && |placeholders| == |answers| == |verdicts| && i < |placeholders|
    && (forall k | 0 <= k < |placeholders| :: Follows(nodes, placeholders[k], answers[k], verdicts[k]))
    && verdicts[i].Rewritten? && verdicts[i].declaration == declaration
  }

  lemma {:induction false} PickVerdicts(nodes: Nodes, placeholders: seq<PlaceholderEdge>, answers: seq<OracleAnswer>,
                                        i: nat, declaration: string, want: bool) returns (verdicts: seq<Verdict>)
    requires |placeholders| == |answers| && i < |placeholders| && answers[i].definition.Some?
    requires Nearest(nodes, answers[i].definition.value, declaration)
    ensures Reachable(nodes, placeholders, answers, i, declaration, verdicts)
    ensures var e := ResolvedEdge(placeholders[i], declaration);
            forall k | i < k < |placeholders| ::
              && (want && MayDraw(nodes, placeholders[k], answers[k], e) ==> e in Adds(placeholders[k], verdicts[k]))
              && (!want && !MustDraw(nodes, placeholders[k], answers[k], e) ==>
                    e !in Adds(placeholders[k], verdicts[k]))
  {
    var e := ResolvedEdge(placeholders[i], declaration);
    hide Nearest, NoneAbove, MayDraw, MustDraw, Follows, Adds;
    verdicts := [];
    for k := 0 to |placeholders|
      invariant |verdicts| == k
      invariant forall m | 0 <= m < k :: Follows(nodes, placeholders[m], answers[m], verdicts[m])
      invariant i < k ==> verdicts[i].Rewritten? && verdicts[i].declaration == declaration
      invariant forall m | i < m < k ::
                  && (want && MayDraw(nodes, placeholders[m], answers[m], e) ==>
                        e in Adds(placeholders[m], verdicts[m]))
                  && (!want && !MustDraw(nodes, placeholders[m], answers[m], e) ==>
                        e !in Adds(placeholders[m], verdicts[m]))
    {
      var v;
      if k == i {
        v := PickRewritten(nodes, placeholders[i], answers[i], declaration, e.from, want);
      } else {
        v := PickVerdict(nodes, placeholders[k], answers[k], e, want);
      }
      verdicts := verdicts + [v];
    }
  }

  /** Every later placeholder that clears the edge is made good by one, at or after it, that is bound to
      draw it, or that can. */
  ghost predicate Redrawn(nodes: Nodes, placeholders: seq<PlaceholderEdge>, answers: seq<OracleAnswer>, i: nat,
                          e: SymbolEdge, must: bool)
    requires |placeholders| == |answers|
  {
    forall j | i < j < |placeholders| && Clears(nodes, placeholders[j], answers[j], e) ::
      exists k :: j <= k < |placeholders|
                  && if must then MustDraw(nodes, placeholders[k], answers[k], e)
                     else MayDraw(nodes, placeholders[k], answers[k], e)
  }

  /** The exact condition, to be checked on any graph before the pass. A placeholder's resolved edge is
      there at the end, however ties between equally near nodes are broken, if and only if every later
      placeholder that clears it is made good by one, at or after it, that is bound to draw it; and some
      way of breaking ties keeps it if and only if each is made good by one that can draw it. */
  lemma SurvivesIffRedrawn(nodes: Nodes, edges: Edges, placeholders: seq<PlaceholderEdge>,
                           answers: seq<OracleAnswer>, i: nat, declaration: string)
    requires |placeholders| == |answers| && i < |placeholders| && answers[i].definition.Some?
    requires Nearest(nodes, answers[i].definition.value, declaration)
    ensures
      var e := ResolvedEdge(placeholders[i], declaration);
      && ((forall verdicts | Reachable(nodes, placeholders, answers, i, declaration, verdicts) ::
             e in Rewrite(edges, placeholders, verdicts))
          <==> Redrawn(nodes, placeholders, answers, i, e, true))
      && ((exists verdicts :: Reachable(nodes, placeholders, answers, i, declaration, verdicts)
             && e in Rewrite(edges, placeholders, verdicts))
          <==> Redrawn(nodes, placeholders, answers, i, e, false))
  {
    var e := ResolvedEdge(placeholders[i], declaration);
    var against := PickVerdicts(nodes, placeholders, answers, i, declaration, false);
    var inFavour := PickVerdicts(nodes, placeholders, answers, i, declaration, true);
    forall verdicts | Reachable(nodes, placeholders, answers, i, declaration, verdicts)
      ensures Redrawn(nodes, placeholders, answers, i, e, true) ==> e in Rewrite(edges, placeholders, verdicts)
      ensures e in Rewrite(edges, placeholders, verdicts) ==> Redrawn(nodes, placeholders, answers, i, e, false)
    {
      SurvivalBounds(nodes, edges, placeholders, answers, verdicts, i, declaration);
    }
    PickedDecides(nodes, edges, placeholders, answers, against, i, declaration, false);
    PickedDecides(nodes, edges, placeholders, answers, inFavour, i, declaration, true);
    hide Reachable, Redrawn, Rewrite, Nearest;
  }

  lemma SurvivalBounds(nodes: Nodes, edges: Edges, placeholders: seq<PlaceholderEdge>, answers: seq<OracleAnswer>,
                       verdicts: seq<Verdict>, i: nat, declaration: string)
    requires Reachable(nodes, placeholders, answers, i, declaration, verdicts)
    ensures
      var e := ResolvedEdge(placeholders[i], declaration);
      && (Redrawn(nodes, placeholders, answers, i, e, true) ==> e in Rewrite(edges, placeholders, verdicts))
      && (e in Rewrite(edges, placeholders, verdicts) ==> Redrawn(nodes, placeholders, answers, i, e, false))
  {
    var e := ResolvedEdge(placeholders[i], declaration);
    ResolvedEdgeSurvives(edges, placeholders, verdicts, i);
    hide Follows, Rewrite, MayDraw, MustDraw, Clears, Drops, Adds;
    forall k | 0 <= k < |placeholders|
      ensures e in Drops(placeholders[k], verdicts[k]) <==> Clears(nodes, placeholders[k], answers[k], e)
      ensures AddedAt(placeholders, verdicts, k, e) ==> MayDraw(nodes, placeholders[k], answers[k], e)
      ensures MustDraw(nodes, placeholders[k], answers[k], e) ==> AddedAt(placeholders, verdicts, k, e)
    {
      DropsIffClears(nodes, placeholders[k], answers[k], verdicts[k], e);
      DrawBounds(nodes, placeholders[k], answers[k], verdicts[k], e);
    }
  }

  lemma PickedDecides(nodes: Nodes, edges: Edges, placeholders: seq<PlaceholderEdge>, answers: seq<OracleAnswer>,
                      verdicts: seq<Verdict>, i: nat, declaration: string, want: bool)
    requires Reachable(nodes, placeholders, answers, i, declaration, verdicts)
    requires var e := ResolvedEdge(placeholders[i], declaration);
             forall k | i < k < |placeholders| ::
               && (want && MayDraw(nodes, placeholders[k], answers[k], e) ==> e in Adds(placeholders[k], verdicts[k]))
               && (!want && !MustDraw(nodes, placeholders[k], answers[k], e) ==>
                     e !in Adds(placeholders[k], verdicts[k]))
    ensures
      var e := ResolvedEdge(placeholders[i], declaration);
      && (want && Redrawn(nodes, placeholders, answers, i, e, false) ==> e in Rewrite(edges, placeholders, verdicts))
      && (!want && e in Rewrite(edges, placeholders, verdicts) ==> Redrawn(nodes, placeholders, answers, i, e, true))
  {
    var e := ResolvedEdge(placeholders[i], declaration);
    ResolvedEdgeSurvives(edges, placeholders, verdicts, i);
    hide Follows, Rewrite, MayDraw, MustDraw, Clears, Drops, Adds;
    forall k | 0 <= k < |placeholders|
      ensures e in Drops(placeholders[k], verdicts[k]) <==> Clears(nodes, placeholders[k], answers[k], e)
    {
      DropsIffClears(nodes, placeholders[k], answers[k], verdicts[k], e);
    }
    assert forall k | i < k < |placeholders| :: AddedAt(placeholders, verdicts, k, e) <==>
             e in Adds(placeholders[k], verdicts[k]);
  }

  /** Where no two nodes of a file share a line there is nothing to break: both conditions are one, and
      it decides every pass. */
  ghost predicate NoTies(nodes: Nodes) {
    forall a, b | a in nodes && b in nodes && nodes[a].path == nodes[b].path
                  && nodes[a].line == nodes[b].line != 0 :: a == b
  }

  lemma WithoutTies(nodes: Nodes, p: PlaceholderEdge, answer: OracleAnswer, e: SymbolEdge)
    requires NoTies(nodes)
    ensures MayDraw(nodes, p, answer, e) <==> MustDraw(nodes, p, answer, e)
  {
    assert forall loc, id | Nearest(nodes, loc, id) :: Only(nodes, loc, id);
  }

  // ---- one order of the nodes ----

  // Within a pass the hash sets do not change, so equally near nodes are always told apart the same way.

  /** `pick` gives each location its node: a nearest one, where there is any. */
  ghost predicate Picks(nodes: Nodes, pick: LspLocation -> Option<string>) {
    forall loc :: if pick(loc).Some? then Nearest(nodes, loc, pick(loc).value) else NoneAbove(nodes, loc)
  }

  function PickedFanOut(pick: LspLocation -> Option<string>, definition: LspLocation, declaration: string,
                        locs: seq<LspLocation>): (emitted: seq<string>)
    ensures forall id :: id in emitted <==>
              id != declaration && exists loc :: loc in locs && loc != definition && pick(loc) == Some(id)
  {
    if locs == [] then []
    else
      var last := locs[|locs| - 1];
      var before := PickedFanOut(pick, definition, declaration, locs[..|locs| - 1]);
      assert forall loc :: loc in locs <==> loc in locs[..|locs| - 1] || loc == last;
      if last == definition || pick(last).None? || pick(last).value == declaration then before
      else before + [pick(last).value]
  }

  /** The verdict of one placeholder under that choice. */
  function Chosen(pick: LspLocation -> Option<string>, p: PlaceholderEdge, answer: OracleAnswer): Verdict {
    if answer.definition.None? then NoDefinition
    else
      var definition := answer.definition.value;
      if pick(definition).None? then OutsideWorkspace
      else
        var declaration := pick(definition).value;
        Rewritten(declaration, if p.edgeKind != Calls then []
                               else PickedFanOut(pick, definition, declaration, answer.implementations))
  }

  function AllChosen(pick: LspLocation -> Option<string>, placeholders: seq<PlaceholderEdge>,
                     answers: seq<OracleAnswer>): (verdicts: seq<Verdict>)
    requires |placeholders| == |answers|
    ensures |verdicts| == |placeholders|
    ensures forall k | 0 <= k < |placeholders| :: verdicts[k] == Chosen(pick, placeholders[k], answers[k])
  {
    seq(|placeholders|, k requires 0 <= k < |placeholders| => Chosen(pick, placeholders[k], answers[k]))
  }

  lemma {:induction false} PickedFansOut(nodes: Nodes, pick: LspLocation -> Option<string>, definition: LspLocation,
                                         declaration: string, locs: seq<LspLocation>)
    requires Picks(nodes, pick) && pick(definition) == Some(declaration)
    ensures FansOut(nodes, definition, declaration, locs, PickedFanOut(pick, definition, declaration, locs))
  {
    if locs != [] {
      var before := PickedFanOut(pick, definition, declaration, locs[..|locs| - 1]);
      PickedFansOut(nodes, pick, definition, declaration, locs[..|locs| - 1]);
      var last := locs[|locs| - 1];
      if pick(last).Some? {
        assert AtOrAbove(nodes[pick(last).value], last);
        assert (before + [pick(last).value])[..|before|] == before;
      }
      hide Nearest;
    }
  }

  lemma ChosenFollows(nodes: Nodes, pick: LspLocation -> Option<string>, p: PlaceholderEdge, answer: OracleAnswer)
    requires Picks(nodes, pick)
    ensures Follows(nodes, p, answer, Chosen(pick, p, answer))
  {
    if answer.definition.Some? && pick(answer.definition.value).Some? {
      var definition := answer.definition.value;
      assert Nearest(nodes, definition, pick(definition).value);
      PickedFansOut(nodes, pick, definition, pick(definition).value, answer.implementations);
      assert !NoneAbove(nodes, definition);
      hide FansOut, Nearest, PickedFanOut;
    }
  }

  /** Under that choice, the placeholder draws the edge. */
  ghost predicate Draws(pick: LspLocation -> Option<string>, p: PlaceholderEdge, answer: OracleAnswer, e: SymbolEdge) {
    && answer.definition.Some? && pick(answer.definition.value) == Some(e.to)
    && (|| (e.from == p.fromId && e.kind == p.edgeKind)
        || (p.edgeKind == Calls && e.kind == Implements && e.from != e.to
            && exists loc :: loc in answer.implementations && loc != answer.definition.value
                             && pick(loc) == Some(e.from)))
  }

  /** A pass that tells equally near nodes apart in one order does follow the rules, and in it a resolved
      edge survives if and only if every later placeholder that clears it is made good by one, at or
      after it, that draws it. */
  lemma SurvivesIffDrawn(nodes: Nodes, edges: Edges, pick: LspLocation -> Option<string>,
                         placeholders: seq<PlaceholderEdge>, answers: seq<OracleAnswer>, i: nat)
    requires Picks(nodes, pick) && |placeholders| == |answers| && i < |placeholders|
    requires answers[i].definition.Some? && pick(answers[i].definition.value).Some?
    ensures
      var verdicts := AllChosen(pick, placeholders, answers);
      var e := ResolvedEdge(placeholders[i], pick(answers[i].definition.value).value);
      && (forall k | 0 <= k < |placeholders| :: Follows(nodes, placeholders[k], answers[k], verdicts[k]))
      && (e in Rewrite(edges, placeholders, verdicts) <==>
            forall j | i < j < |placeholders| && Clears(nodes, placeholders[j], answers[j], e) ::
              exists k :: j <= k < |placeholders| && Draws(pick, placeholders[k], answers[k], e))
  {
    var verdicts := AllChosen(pick, placeholders, answers);
    var e := ResolvedEdge(placeholders[i], pick(answers[i].definition.value).value);
    assert verdicts[i] == Chosen(pick, placeholders[i], answers[i]);
    ResolvedEdgeSurvives(edges, placeholders, verdicts, i);
    hide Follows, Rewrite, Draws, Clears, Drops, Adds, Picks, Chosen, PickedFanOut;
    forall k | 0 <= k < |placeholders|
      ensures Follows(nodes, placeholders[k], answers[k], verdicts[k])
      ensures e in Drops(placeholders[k], verdicts[k]) <==> Clears(nodes, placeholders[k], answers[k], e)
      ensures AddedAt(placeholders, verdicts, k, e) <==> Draws(pick, placeholders[k], answers[k], e)
    {
      ChosenFollows(nodes, pick, placeholders[k], answers[k]);
      DropsIffClears(nodes, placeholders[k], answers[k], verdicts[k], e);
      ChosenDraws(pick, placeholders[k], answers[k], e);
    }
  }

  lemma ChosenDraws(pick: LspLocation -> Option<string>, p: PlaceholderEdge, answer: OracleAnswer, e: SymbolEdge)
    ensures e in Adds(p, Chosen(pick, p, answer)) <==> Draws(pick, p, answer, e)
  {
    var v := Chosen(pick, p, answer);
    if v.Rewritten? {
      InImplements(v.implementers, v.declaration, e);
    }
    hide PickedFanOut;
  }

  // The parser stores the target of an unresolved call as a node of the calling file, at the line of
  // the call. Here `caller` calls `f` twice; the first call's definition lies below that line in the
  // same file, where no other node is nearer, and the second call's definition is `f` in another file.
  const EXTERNAL := SymbolNode("external:call:f", "a.py", "f", Function, 9)
  const TARGET := SymbolNode("symbol:f", "b.py", "f", Function, 3)
  const CALLER := SymbolNode("caller", "a.py", "caller", Function, 2)
  const CALLER_FILE := SymbolNode("file:a.py", "a.py", "a.py", File, 1)
  const TARGET_FILE := SymbolNode("file:b.py", "b.py", "b.py", File, 1)
  const TWO_CALLS_NODES: Nodes :=
    map[EXTERNAL.id := EXTERNAL, TARGET.id := TARGET, CALLER.id := CALLER,
        CALLER_FILE.id := CALLER_FILE, TARGET_FILE.id := TARGET_FILE]
  const FIRST_CALL := PlaceholderEdge(CALLER.id, EXTERNAL.id, "a.py", 3, 0, Calls)
  const SECOND_CALL := PlaceholderEdge(CALLER.id, EXTERNAL.id, "a.py", 8, 0, Calls)
  const FIRST_ANSWER := OracleAnswer(Some(LspLocation("a.py", 11, 0)), [])
  const SECOND_ANSWER := OracleAnswer(Some(LspLocation("b.py", 2, 0)), [])

  /** Without the proviso it fails, on a graph and answers that can arise: the first call is rewritten
      to the external node itself, and the second call's rewrite takes that edge away. */
  lemma LaterFallbackTakesResolvedEdge(verdicts: seq<Verdict>)
    requires |verdicts| == 2
    requires Follows(TWO_CALLS_NODES, FIRST_CALL, FIRST_ANSWER, verdicts[0])
    requires Follows(TWO_CALLS_NODES, SECOND_CALL, SECOND_ANSWER, verdicts[1])
    ensures verdicts == [Rewritten(EXTERNAL.id, []), Rewritten(TARGET.id, [])]
    ensures ResolvedEdge(FIRST_CALL, EXTERNAL.id)
         !in Rewrite({Fallback(FIRST_CALL)}, [FIRST_CALL, SECOND_CALL], verdicts)
  {
    TwoCallsNearest();
    hide FansOut, Nearest, NoneAbove;
    NothingFansOut(TWO_CALLS_NODES, FIRST_ANSWER.definition.value, EXTERNAL.id, verdicts[0].implementers);
    NothingFansOut(TWO_CALLS_NODES, SECOND_ANSWER.definition.value, TARGET.id, verdicts[1].implementers);
    var placeholders := [FIRST_CALL, SECOND_CALL];
    ResolvedEdgeSurvives({Fallback(FIRST_CALL)}, placeholders, verdicts, 0);
    assert ResolvedEdge(FIRST_CALL, EXTERNAL.id) in Drops(placeholders[1], verdicts[1]);
    forall k: nat | 1 <= k ensures !AddedAt(placeholders, verdicts, k, ResolvedEdge(FIRST_CALL, EXTERNAL.id)) {}
  }

  /** Those verdicts do follow: the oracle and the graph above produce them. */
  lemma TwoCallsFollow()
    ensures Follows(TWO_CALLS_NODES, FIRST_CALL, FIRST_ANSWER, Rewritten(EXTERNAL.id, []))
    ensures Follows(TWO_CALLS_NODES, SECOND_CALL, SECOND_ANSWER, Rewritten(TARGET.id, []))
  {
    TwoCallsNearest();
    hide Nearest, NoneAbove;
  }

  lemma TwoCallsNearest()
    ensures EXTERNAL.id != TARGET.id
    ensures !NoneAbove(TWO_CALLS_NODES, FIRST_ANSWER.definition.value)
    ensures !NoneAbove(TWO_CALLS_NODES, SECOND_ANSWER.definition.value)
    ensures forall id :: Nearest(TWO_CALLS_NODES, FIRST_ANSWER.definition.value, id) <==> id == EXTERNAL.id
    ensures forall id :: Nearest(TWO_CALLS_NODES, SECOND_ANSWER.definition.value, id) <==> id == TARGET.id
  {
    var nodes := TWO_CALLS_NODES;
    assert EXTERNAL.id[0] == 'e' && TARGET.id[0] == 's' && CALLER.id[0] == 'c';
    assert CALLER_FILE.id[0] == TARGET_FILE.id[0] == 'f' && CALLER_FILE.id[5] == 'a' && TARGET_FILE.id[5] == 'b';
    assert EXTERNAL.path[0] == CALLER.path[0] == CALLER_FILE.path[0] == 'a';
    assert TARGET.path[0] == TARGET_FILE.path[0] == 'b';
    assert nodes[EXTERNAL.id] == EXTERNAL && nodes[TARGET.id] == TARGET && nodes[CALLER.id] == CALLER;
    assert nodes[CALLER_FILE.id] == CALLER_FILE && nodes[TARGET_FILE.id] == TARGET_FILE;
    assert AtOrAbove(nodes[EXTERNAL.id], FIRST_ANSWER.definition.value);
    assert AtOrAbove(nodes[TARGET.id], SECOND_ANSWER.definition.value);
    assert !AtOrAbove(nodes[TARGET.id], FIRST_ANSWER.definition.value);
    assert !AtOrAbove(nodes[EXTERNAL.id], SECOND_ANSWER.definition.value);
  }

  lemma NothingFansOut(nodes: Nodes, definition: LspLocation, declaration: string, emitted: seq<string>)
    requires FansOut(nodes, definition, declaration, [], emitted)
    ensures emitted == []
  {
  }

  // ---- the pass itself ----

  datatype PassCounts = PassCounts(total: nat, resolved: nat, none: nat, external: nat, implements: nat)

  function Tally(verdicts: seq<Verdict>): PassCounts {
    if verdicts == [] then PassCounts(0, 0, 0, 0, 0)
    else
      var c := Tally(verdicts[..|verdicts| - 1]);
      match verdicts[|verdicts| - 1]
      case NoDefinition => c.(total := c.total + 1, none := c.none + 1)
      case OutsideWorkspace => c.(total := c.total + 1, external := c.external + 1)
      case Rewritten(_, ids) => c.(total := c.total + 1, resolved := c.resolved + 1, implements := c.implements + |ids|)
  }

  /** Every implementation edge asked for, in order; an edge already there is asked for all the same. */
  function FannedOut(verdicts: seq<Verdict>): seq<string> {
    if verdicts == [] then []
    else
      var last := verdicts[|verdicts| - 1];
      FannedOut(verdicts[..|verdicts| - 1]) + if last.Rewritten? then last.implementers else []
  }

  /** The logged counters account for every placeholder exactly once, each under what became of it. */
  lemma {:induction false} CountersAddUp(verdicts: seq<Verdict>)
    ensures Tally(verdicts).total == |verdicts|
    ensures Tally(verdicts).total == Tally(verdicts).resolved + Tally(verdicts).none + Tally(verdicts).external
    ensures Tally(verdicts).none == |PlacesOf(verdicts, NoDefinition)|
    ensures Tally(verdicts).external == |PlacesOf(verdicts, OutsideWorkspace)|
    ensures Tally(verdicts).implements == |FannedOut(verdicts)|
  {
    if verdicts != [] {
      var n := |verdicts| - 1;
      CountersAddUp(verdicts[..n]);
      CountedOneMore(verdicts, NoDefinition);
      CountedOneMore(verdicts, OutsideWorkspace);
    }
  }

  function PlacesOf(verdicts: seq<Verdict>, v: Verdict): set<int> {
    set i | 0 <= i < |verdicts| && verdicts[i] == v
  }

  lemma CountedOneMore(verdicts: seq<Verdict>, v: Verdict)
    requires verdicts != []
    ensures |PlacesOf(verdicts, v)| ==
            |PlacesOf(verdicts[..|verdicts| - 1], v)| + if verdicts[|verdicts| - 1] == v then 1 else 0
  {
    var n := |verdicts| - 1;
    var before := PlacesOf(verdicts[..n], v);
    assert PlacesOf(verdicts, v) == if verdicts[n] == v then before + {n} else before;
  }

  /** The node at or just above a location. Equally near nodes are told apart only by
      hash-set order, so any of them may come back. */
  method NearestNodeAt(graph: SymbolGraph, loc: LspLocation) returns (best: Option<string>)
    requires graph.Valid()
    ensures best.None? ==> NoneAbove(graph.nodes, loc)
    ensures best.Some? ==> Nearest(graph.nodes, loc, best.value)
    ensures loc.line < 0xFFFF_FFFF && best.Some? ==> Means(graph.nodes, loc, best.value)
    ensures loc.line < 0xFFFF_FFFF && best.None? ==>
              forall id | id in graph.nodes && graph.nodes[id].path == loc.path ::
                graph.nodes[id].line == 0 || loc.line + 1 < graph.nodes[id].line
    ensures loc.line == 0xFFFF_FFFF ==> best.None?
  {
    NoneAboveMeans(graph.nodes, loc);
    if loc.line < 0xFFFF_FFFF {
      forall id ensures Nearest(graph.nodes, loc, id) ==> Means(graph.nodes, loc, id) {
        NearestMeans(graph.nodes, loc, id);
      }
    }
    var candidates := graph.NodesInFile(loc.path);
    NodesAreKeyed(graph, loc.path, candidates);
    var nearest := None;
    var todo := candidates;
    while todo != {}
      invariant todo <= candidates
      invariant nearest.None? ==> forall n | n in candidates - todo :: !AtOrAbove(n, loc)
      invariant nearest.Some? ==>
                  && nearest.value in candidates && AtOrAbove(nearest.value, loc)
                  && forall n | n in candidates - todo && AtOrAbove(n, loc) :: n.line <= nearest.value.line
      decreases todo
    {
      var node :| node in todo;
      todo := todo - {node};
      if node.line != 0 && node.line <= TargetLine(loc)
         && (nearest.None? || TargetLine(loc) - node.line < TargetLine(loc) - nearest.value.line) {
        nearest := Some(node);
      }
    }
    best := if nearest.None? then None else Some(nearest.value.id);
  }

  lemma NodesAreKeyed(graph: SymbolGraph, path: string, found: set<SymbolNode>)
    requires graph.Valid()
    requires found == set id | id in IdsInFile(graph.nodes, path) :: graph.nodes[id]
    ensures forall n | n in found :: n.path == path && n.id in graph.nodes && graph.nodes[n.id] == n
    ensures forall id | id in graph.nodes && graph.nodes[id].path == path :: graph.nodes[id] in found
  {
    forall id | id in graph.nodes && graph.nodes[id].path == path ensures graph.nodes[id] in found {
      assert id in IdsInFile(graph.nodes, path);
    }
  }

  /** One placeholder's implementations, each given an `Implements` edge to the declaration. */
  method FanOut(graph: SymbolGraph, definition: LspLocation, declaration: string, locs: seq<LspLocation>)
    returns (emitted: seq<string>)
    requires graph.Valid()
    modifies graph`edges, graph`adjacency, graph`reverseAdjacency
    ensures graph.Valid()
    ensures FansOut(graph.nodes, definition, declaration, locs, emitted)
    ensures graph.edges == old(graph.edges) + ImplementsEdges(emitted, declaration)
  {
    hide Indexed;
    emitted := [];
    for i := 0 to |locs|
      invariant graph.Valid()
      invariant FansOut(graph.nodes, definition, declaration, locs[..i], emitted)
      invariant graph.edges == old(graph.edges) + ImplementsEdges(emitted, declaration)
    {
      assert locs[..i + 1][..i] == locs[..i];
      if locs[i] == definition {
        continue;
      }
      var found := NearestNodeAt(graph, locs[i]);
      if found.None? {
        continue;
      }
      if found.value == declaration {
        assert Nearest(graph.nodes, locs[i], declaration);
        continue;
      }
      graph.AddEdge(SymbolEdge(found.value, declaration, Implements));
      ImplementsAppend(emitted, found.value, declaration);
      assert (emitted + [found.value])[..|emitted|] == emitted;
      emitted := emitted + [found.value];
    }
    assert locs[..|locs|] == locs;
  }

  lemma ImplementsAppend(emitted: seq<string>, id: string, declaration: string)
    ensures ImplementsEdges(emitted + [id], declaration)
         == ImplementsEdges(emitted, declaration) + {SymbolEdge(id, declaration, Implements)}
  {
    assert forall x :: x in emitted + [id] <==> x in emitted || x == id;
  }

  method ResolveInner(graph: SymbolGraph, answers: seq<OracleAnswer>, placeholders: seq<PlaceholderEdge>)
    returns (counts: PassCounts, ghost verdicts: seq<Verdict>)
    requires graph.Valid() && |answers| == |placeholders|
    modifies graph`edges, graph`adjacency, graph`reverseAdjacency
    ensures graph.Valid()
    ensures |verdicts| == |placeholders|
    ensures forall i | 0 <= i < |placeholders| :: Follows(graph.nodes, placeholders[i], answers[i], verdicts[i])
    ensures graph.edges == Rewrite(old(graph.edges), placeholders, verdicts)
    ensures counts == Tally(verdicts)
    ensures counts.total == |placeholders| == counts.resolved + counts.none + counts.external
  {
    hide Indexed;
    var resolved: nat, none: nat, external: nat, implements: nat := 0, 0, 0, 0;
    verdicts := [];
    for i := 0 to |placeholders|
      invariant graph.Valid() && |verdicts| == i
      invariant forall j | 0 <= j < i :: Follows(graph.nodes, placeholders[j], answers[j], verdicts[j])
      invariant graph.edges == Rewrite(old(graph.edges), placeholders[..i], verdicts)
      invariant Tally(verdicts) == PassCounts(i, resolved, none, external, implements)
    {
      var verdict := ResolveOne(graph, answers[i], placeholders[i]);
      match verdict {
        case NoDefinition => none := none + 1;
        case OutsideWorkspace => external := external + 1;
        case Rewritten(_, ids) => resolved, implements := resolved + 1, implements + |ids|;
      }
      assert placeholders[..i + 1][..i] == placeholders[..i];
      assert (verdicts + [verdict])[..i] == verdicts;
      verdicts := verdicts + [verdict];
    }
    assert placeholders[..|placeholders|] == placeholders;
    counts := PassCounts(|placeholders|, resolved, none, external, implements);
    CountersAddUp(verdicts);
  }

  /** The body of the pass's loop. */
  method ResolveOne(graph: SymbolGraph, answer: OracleAnswer, placeholder: PlaceholderEdge) returns (verdict: Verdict)
    requires graph.Valid()
    modifies graph`edges, graph`adjacency, graph`reverseAdjacency
    ensures graph.Valid()
    ensures Follows(graph.nodes, placeholder, answer, verdict)
    ensures graph.edges == old(graph.edges) - Drops(placeholder, verdict) + Adds(placeholder, verdict)
    ensures !verdict.Rewritten? ==> graph.edges == old(graph.edges)
    ensures verdict.Rewritten? ==> forall e :: e in graph.edges <==>
              || (e in old(graph.edges)
                  && e != SymbolEdge(placeholder.fromId, placeholder.externalToId, placeholder.edgeKind))
              || e == SymbolEdge(placeholder.fromId, verdict.declaration, placeholder.edgeKind)
              || (placeholder.edgeKind == Calls && e.kind == Implements && e.to == verdict.declaration
                  && e.from in verdict.implementers)
  {
    hide Indexed;
    if answer.definition.None? {
      return NoDefinition;
    }
    var definition := answer.definition.value;
    var found := NearestNodeAt(graph, definition);
    if found.None? {
      return OutsideWorkspace;
    }
    var declaration := found.value;
    var _ := graph.RemoveEdge(Fallback(placeholder));
    graph.AddEdge(ResolvedEdge(placeholder, declaration));
    if placeholder.edgeKind != Calls {
      return Rewritten(declaration, []);
    }
    var emitted := FanOut(graph, definition, declaration, answer.implementations);
    verdict := Rewritten(declaration, emitted);
    forall e ensures e in ImplementsEdges(emitted, declaration) <==>
                     e.kind == Implements && e.to == declaration && e.from in emitted {
      InImplements(emitted, declaration, e);
    }
  }
}
