/** What a query answers, against a definition of distance that mentions neither
    a queue nor a visited set. */
module QueryProofs {
  import opened Ordering
  import opened GraphModel
  import opened Wrappers

  // ---- distance ----

  /** Some edge of an allowed kind joins `a` and `b`, in either direction. */
  ghost predicate Linked(edges: Edges, kinds: Kinds, a: string, b: string) {
    exists kind :: (kinds.Some? ==> kind in kinds.value)
                   && (SymbolEdge(a, b, kind) in edges || SymbolEdge(b, a, kind) in edges)
  }

  /** A walk along allowed edges, each taken in either direction. */
  ghost predicate IsWalk(edges: Edges, kinds: Kinds, walk: seq<string>) {
    walk != [] && forall i | 0 < i < |walk| :: Linked(edges, kinds, walk[i - 1], walk[i])
  }

  /** `walk` leads from one of `roots` to `id` in at most `distance` steps. */
  ghost predicate Leads(edges: Edges, kinds: Kinds, roots: set<string>, walk: seq<string>, id: string, distance: nat) {
    IsWalk(edges, kinds, walk) && walk[0] in roots && walk[|walk| - 1] == id && |walk| <= distance + 1
  }

  /** The shortest undirected distance from `roots` to `id` over allowed kinds is at most `distance`. */
  ghost predicate Within(edges: Edges, kinds: Kinds, roots: set<string>, distance: nat, id: string) {
    exists walk :: Leads(edges, kinds, roots, walk, id, distance)
  }

  ghost function Beside(edges: Edges, kinds: Kinds, ids: set<string>): set<string> {
    set a, b | a in ids && b in NeighborIds(edges, kinds, a) :: b
  }

  /** The ids within `distance`, layer by layer. */
  ghost function Ball(edges: Edges, kinds: Kinds, roots: set<string>, distance: nat): set<string> {
    if distance == 0 then roots
    else Ball(edges, kinds, roots, distance - 1) + Beside(edges, kinds, Ball(edges, kinds, roots, distance - 1))
  }

  lemma NeighborsAreLinked(edges: Edges, kinds: Kinds, a: string, b: string)
    ensures b in NeighborIds(edges, kinds, a) <==> Linked(edges, kinds, a, b)
  {
    if Linked(edges, kinds, a, b) {
      var kind :| Allowed(kinds, kind) && (SymbolEdge(a, b, kind) in edges || SymbolEdge(b, a, kind) in edges);
      if SymbolEdge(a, b, kind) in edges {
        assert SymbolEdge(a, b, kind).from == a;
      } else {
        assert SymbolEdge(b, a, kind).to == a;
      }
    }
    if b in NeighborIds(edges, kinds, a) {
      var e :| e in edges && Allowed(kinds, e.kind) && ((e.from == a && e.to == b) || (e.from == b && e.to == a));
      assert e == SymbolEdge(e.from, e.to, e.kind);
    }
  }

  lemma NeighborsListed(edges: Edges, kinds: Kinds, id: string)
    ensures forall other :: other in SortedIds(NeighborIds(edges, kinds, id)) <==> Linked(edges, kinds, id, other)
  {
    var listed := SortedIds(NeighborIds(edges, kinds, id));
    hide NeighborIds, Linked;
    forall other ensures other in listed <==> Linked(edges, kinds, id, other) {
      NeighborsAreLinked(edges, kinds, id, other);
      assert other in listed <==> other in Elements(listed);
    }
  }

  lemma {:induction false} WalkIntoBall(edges: Edges, kinds: Kinds, roots: set<string>, walk: seq<string>,
                                        distance: nat)
    requires IsWalk(edges, kinds, walk) && walk[0] in roots && |walk| <= distance + 1
    ensures walk[|walk| - 1] in Ball(edges, kinds, roots, distance)
    decreases distance
  {
    if distance > 0 {
      if |walk| <= distance {
        WalkIntoBall(edges, kinds, roots, walk, distance - 1);
      } else {
        var before := walk[..|walk| - 1];
        WalkIntoBall(edges, kinds, roots, before, distance - 1);
        NeighborsAreLinked(edges, kinds, before[|before| - 1], walk[|walk| - 1]);
      }
    }
  }

  lemma {:induction false} BallByWalk(edges: Edges, kinds: Kinds, roots: set<string>, distance: nat, id: string)
    returns (walk: seq<string>)
    requires id in Ball(edges, kinds, roots, distance)
    ensures Leads(edges, kinds, roots, walk, id, distance)
  {
    hide NeighborIds, Linked;
    if distance == 0 {
      walk := [id];
    } else if id in Ball(edges, kinds, roots, distance - 1) {
      walk := BallByWalk(edges, kinds, roots, distance - 1, id);
    } else {
      var a :| a in Ball(edges, kinds, roots, distance - 1) && id in NeighborIds(edges, kinds, a);
      var before := BallByWalk(edges, kinds, roots, distance - 1, a);
      NeighborsAreLinked(edges, kinds, a, id);
      walk := before + [id];
    }
  }

  /** The layered ball and the shortest walks agree. */
  lemma BallIsDistance(edges: Edges, kinds: Kinds, roots: set<string>, distance: nat, id: string)
    ensures id in Ball(edges, kinds, roots, distance) <==> Within(edges, kinds, roots, distance, id)
  {
    if id in Ball(edges, kinds, roots, distance) {
      var walk := BallByWalk(edges, kinds, roots, distance, id);
    }
    if walk :| Leads(edges, kinds, roots, walk, id, distance) {
      WalkIntoBall(edges, kinds, roots, walk, distance);
    }
  }

  lemma BallLayer(edges: Edges, kinds: Kinds, roots: set<string>, h: nat)
    ensures Ball(edges, kinds, roots, h) <= Ball(edges, kinds, roots, h + 1)
    ensures forall a, b | a in Ball(edges, kinds, roots, h) && b in NeighborIds(edges, kinds, a) ::
              b in Ball(edges, kinds, roots, h + 1)
    ensures forall id | id in Ball(edges, kinds, roots, h + 1) && id !in Ball(edges, kinds, roots, h) ::
              exists a :: a in Ball(edges, kinds, roots, h) && id in NeighborIds(edges, kinds, a)
  {
    hide NeighborIds;
  }

  lemma {:induction false} BallGrows(edges: Edges, kinds: Kinds, roots: set<string>, near: nat, far: nat)
    requires near <= far
    ensures Ball(edges, kinds, roots, near) <= Ball(edges, kinds, roots, far)
    decreases far
  {
    hide NeighborIds, Beside;
    if near < far {
      BallGrows(edges, kinds, roots, near, far - 1);
    }
  }

  lemma {:induction false} BallStops(edges: Edges, kinds: Kinds, roots: set<string>, at: nat, distance: nat)
    requires at <= distance
    requires Beside(edges, kinds, Ball(edges, kinds, roots, at)) <= Ball(edges, kinds, roots, at)
    ensures Ball(edges, kinds, roots, distance) == Ball(edges, kinds, roots, at)
    decreases distance
  {
    hide NeighborIds, Beside;
    if at < distance {
      BallStops(edges, kinds, roots, at, distance - 1);
    }
  }

  // ---- the traversal, level by level ----

  ghost predicate OneOf(queue: seq<Entry>, id: string, depth: nat) {
    Entry(id, depth) in queue
  }

  /** While the traversal works on level `h`: everything nearer is visited, level `h` is visited
      or queued, and unless the depth cut is reached so are the neighbours of everything visited. */
  ghost predicate AtLevel(edges: Edges, kinds: Kinds, roots: set<string>, depth: nat, limit: nat,
                          queue: seq<Entry>, visited: set<string>, h: nat) {
    && h <= depth
    && |visited| <= limit
    && visited <= Ball(edges, kinds, roots, h)
    && (h > 0 ==> Ball(edges, kinds, roots, h - 1) <= visited)
    && (forall id | id in Ball(edges, kinds, roots, h) :: id in visited || OneOf(queue, id, h))
    && InOrder(edges, kinds, roots, depth, queue, h)
    && (h < depth ==> NeighborsQueued(edges, kinds, queue, visited, h))
  }

  /** Queue entries carry true distance bounds, nearest first, from two adjacent levels. */
  ghost predicate InOrder(edges: Edges, kinds: Kinds, roots: set<string>, depth: nat, queue: seq<Entry>, h: nat) {
    && (forall i | 0 <= i < |queue| ::
          && h <= queue[i].depth <= h + 1 && queue[i].depth <= depth
          && queue[i].id in Ball(edges, kinds, roots, queue[i].depth))
    && (forall i, j | 0 <= i < j < |queue| :: queue[i].depth <= queue[j].depth)
  }

  ghost predicate NeighborsQueued(edges: Edges, kinds: Kinds, queue: seq<Entry>, visited: set<string>, h: nat) {
    forall a, b | a in visited && b in NeighborIds(edges, kinds, a) ::
      b in visited || OneOf(queue, b, h) || OneOf(queue, b, h + 1)
  }

  /** A traversal result that took ids in order of distance: all of them, or the first `limit`. */
  ghost predicate NearestFirst(edges: Edges, kinds: Kinds, roots: set<string>, depth: nat, limit: nat,
                               found: Traversal) {
    && found.visited <= Ball(edges, kinds, roots, depth)
    && |found.visited| <= limit
    && (!found.truncated ==> found.visited == Ball(edges, kinds, roots, depth))
    && (found.truncated ==>
          && |found.visited| == limit
          && found.visited < Ball(edges, kinds, roots, depth)
          && exists h: nat :: OnShell(edges, kinds, roots, found.visited, h))
  }

  ghost predicate OnShell(edges: Edges, kinds: Kinds, roots: set<string>, visited: set<string>, h: nat) {
    visited <= Ball(edges, kinds, roots, h) && (h > 0 ==> Ball(edges, kinds, roots, h - 1) <= visited)
  }

  lemma LevelAdvances(edges: Edges, kinds: Kinds, roots: set<string>, depth: nat, limit: nat,
                      queue: seq<Entry>, visited: set<string>, h: nat)
    requires AtLevel(edges, kinds, roots, depth, limit, queue, visited, h)
    requires queue != [] && queue[0].depth == h + 1
    ensures AtLevel(edges, kinds, roots, depth, limit, queue, visited, h + 1)
  {
    hide Ball, NeighborIds;
    BallLayer(edges, kinds, roots, h);
    forall id | id in Ball(edges, kinds, roots, h) ensures id in visited {
      assert id in visited || OneOf(queue, id, h);
    }
    assert visited == Ball(edges, kinds, roots, h);
    forall id | id in Ball(edges, kinds, roots, h + 1) ensures id in visited || OneOf(queue, id, h + 1) {
      if id !in visited {
        var a :| a in Ball(edges, kinds, roots, h) && id in NeighborIds(edges, kinds, a);
        assert OneOf(queue, id, h) || OneOf(queue, id, h + 1);
      }
    }
    forall a, b | a in visited && b in NeighborIds(edges, kinds, a) ensures b in visited || OneOf(queue, b, h + 1) {
      assert b in Ball(edges, kinds, roots, h + 1);
    }
  }

  lemma LevelSkips(edges: Edges, kinds: Kinds, roots: set<string>, depth: nat, limit: nat,
                   queue: seq<Entry>, visited: set<string>, h: nat)
    requires AtLevel(edges, kinds, roots, depth, limit, queue, visited, h)
    requires queue != [] && queue[0].id in visited
    ensures AtLevel(edges, kinds, roots, depth, limit, queue[1..], visited, h)
  {
    DropVisited(queue, visited);
    forall i | 0 <= i < |queue[1..]| ensures queue[1..][i] == queue[i + 1] {}
  }

  lemma DropVisited(queue: seq<Entry>, visited: set<string>)
    requires queue != [] && queue[0].id in visited
    ensures forall id, d: nat | OneOf(queue, id, d) && id !in visited :: OneOf(queue[1..], id, d)
  {
    forall id, d: nat | OneOf(queue, id, d) && id !in visited ensures OneOf(queue[1..], id, d) {
      var i :| 0 <= i < |queue| && queue[i] == Entry(id, d);
      assert queue[1..][i - 1] == Entry(id, d);
    }
  }

  lemma LevelCuts(edges: Edges, kinds: Kinds, roots: set<string>, depth: nat, limit: nat,
                  queue: seq<Entry>, visited: set<string>, h: nat)
    requires AtLevel(edges, kinds, roots, depth, limit, queue, visited, h)
    requires queue != [] && queue[0].depth == h == depth && queue[0].id !in visited && |visited| < limit
    ensures AtLevel(edges, kinds, roots, depth, limit, queue[1..], visited + {queue[0].id}, h)
  {
    DropVisited(queue, visited + {queue[0].id});
    forall i | 0 <= i < |queue[1..]| ensures queue[1..][i] == queue[i + 1] {}
  }

  lemma LevelExpands(edges: Edges, kinds: Kinds, roots: set<string>, depth: nat, limit: nat,
                     queue: seq<Entry>, visited: set<string>, h: nat, neighbors: seq<string>)
    requires AtLevel(edges, kinds, roots, depth, limit, queue, visited, h)
    requires queue != [] && queue[0].depth == h < depth && queue[0].id !in visited && |visited| < limit
    requires Elements(neighbors) == NeighborIds(edges, kinds, queue[0].id)
    ensures var marked := visited + {queue[0].id};
            AtLevel(edges, kinds, roots, depth, limit, queue[1..] + Pushed(neighbors, marked, h + 1), marked, h)
  {
    var marked := visited + {queue[0].id};
    var pushed := Pushed(neighbors, marked, h + 1);
    PushKeepsOrder(edges, kinds, roots, depth, queue, h, neighbors, marked);
    PushQueuesNeighbors(edges, kinds, queue, visited, h, neighbors);
    DropVisited(queue, marked);
    forall id | id in Ball(edges, kinds, roots, h) ensures id in marked || OneOf(queue[1..] + pushed, id, h) {
      assert id in marked || OneOf(queue[1..], id, h);
    }
  }

  lemma PushKeepsOrder(edges: Edges, kinds: Kinds, roots: set<string>, depth: nat, queue: seq<Entry>, h: nat,
                       neighbors: seq<string>, marked: set<string>)
    requires InOrder(edges, kinds, roots, depth, queue, h)
    requires queue != [] && queue[0].depth == h < depth
    requires Elements(neighbors) == NeighborIds(edges, kinds, queue[0].id)
    ensures InOrder(edges, kinds, roots, depth, queue[1..] + Pushed(neighbors, marked, h + 1), h)
  {
    hide Ball, NeighborIds;
    BallLayer(edges, kinds, roots, h);
    var pushed := Pushed(neighbors, marked, h + 1);
    var rest := queue[1..] + pushed;
    var next := Ball(edges, kinds, roots, h + 1);
    forall i | 0 <= i < |pushed| ensures pushed[i].depth == h + 1 && pushed[i].id in next {
      assert pushed[i].id in Elements(neighbors);
    }
    forall i | 0 <= i < |rest|
      ensures rest[i] == if i < |queue| - 1 then queue[i + 1] else pushed[i - (|queue| - 1)]
    {
    }
    forall i, j | 0 <= i < j < |rest| ensures rest[i].depth <= rest[j].depth {
      if j < |queue| - 1 {
        assert queue[i + 1].depth <= queue[j + 1].depth;
      }
    }
  }

  lemma PushQueuesNeighbors(edges: Edges, kinds: Kinds, queue: seq<Entry>, visited: set<string>, h: nat,
                            neighbors: seq<string>)
    requires queue != [] && NeighborsQueued(edges, kinds, queue, visited, h)
    requires Elements(neighbors) == NeighborIds(edges, kinds, queue[0].id)
    ensures var marked := visited + {queue[0].id};
            NeighborsQueued(edges, kinds, queue[1..] + Pushed(neighbors, marked, h + 1), marked, h)
  {
    var marked := visited + {queue[0].id};
    var pushed := Pushed(neighbors, marked, h + 1);
    var rest := queue[1..] + pushed;
    DropVisited(queue, marked);
    forall a, b | a in marked && b in NeighborIds(edges, kinds, a)
      ensures b in marked || OneOf(rest, b, h) || OneOf(rest, b, h + 1)
    {
      if b !in marked {
        if a in visited {
          assert OneOf(queue[1..], b, h) || OneOf(queue[1..], b, h + 1);
        } else {
          assert b in Elements(neighbors);
          assert Entry(b, h + 1) in pushed;
        }
      }
    }
  }

  lemma LevelEnds(edges: Edges, kinds: Kinds, roots: set<string>, depth: nat, limit: nat, visited: set<string>, h: nat)
    requires AtLevel(edges, kinds, roots, depth, limit, [], visited, h)
    ensures visited == Ball(edges, kinds, roots, depth)
  {
    hide Ball, NeighborIds;
    assert forall id | id in Ball(edges, kinds, roots, h) :: id in visited || OneOf([], id, h);
    assert visited == Ball(edges, kinds, roots, h);
    if h < depth {
      BallStops(edges, kinds, roots, h, depth);
    }
  }

  lemma LevelShape(edges: Edges, kinds: Kinds, roots: set<string>, depth: nat, limit: nat,
                   queue: seq<Entry>, visited: set<string>, h: nat)
    requires AtLevel(edges, kinds, roots, depth, limit, queue, visited, h)
    ensures h <= depth && |visited| <= limit && OnShell(edges, kinds, roots, visited, h)
    ensures visited <= Ball(edges, kinds, roots, h)
    ensures queue != [] ==> h <= queue[0].depth <= h + 1 && queue[0].depth <= depth
    ensures queue != [] && queue[0].depth == h ==> queue[0].id in Ball(edges, kinds, roots, h)
  {
    hide Ball, NeighborIds;
  }

  /** From any state the traversal can be in, it ends with the nearest ids. */
  lemma {:induction false} TraverseNearestFirst(edges: Edges, kinds: Kinds, roots: set<string>, depth: nat, limit: nat,
                                                queue: seq<Entry>, visited: set<string>, h: nat)
    requires AtLevel(edges, kinds, roots, depth, limit, queue, visited, h)
    ensures NearestFirst(edges, kinds, roots, depth, limit, Traverse(edges, kinds, depth, limit, queue, visited))
    decreases EdgeIds(edges) + EntryIds(queue) - visited, |queue|, depth - h
  {
    hide Ball, NeighborIds, AtLevel, OnShell, Traverse, EntryIds, EdgeIds, Pushed;
    LevelShape(edges, kinds, roots, depth, limit, queue, visited, h);
    if queue == [] {
      TraverseEnds(edges, kinds, depth, limit, visited);
      LevelEnds(edges, kinds, roots, depth, limit, visited, h);
    } else if queue[0].depth == h + 1 {
      LevelAdvances(edges, kinds, roots, depth, limit, queue, visited, h);
      TraverseNearestFirst(edges, kinds, roots, depth, limit, queue, visited, h + 1);
    } else {
      var head := queue[0];
      TraverseSteps(edges, kinds, depth, limit, queue, visited);
      if head.id in visited {
        LevelSkips(edges, kinds, roots, depth, limit, queue, visited, h);
        TraverseNearestFirst(edges, kinds, roots, depth, limit, queue[1..], visited, h);
      } else if |visited| == limit {
        BallGrows(edges, kinds, roots, h, depth);
        assert head.id in Ball(edges, kinds, roots, depth) - visited;
      } else if head.depth >= depth {
        LevelCuts(edges, kinds, roots, depth, limit, queue, visited, h);
        TraverseNearestFirst(edges, kinds, roots, depth, limit, queue[1..], visited + {head.id}, h);
      } else {
        var neighbors := SortedIds(NeighborIds(edges, kinds, head.id));
        var pushed := Pushed(neighbors, visited + {head.id}, h + 1);
        LevelExpands(edges, kinds, roots, depth, limit, queue, visited, h, neighbors);
        TraverseNearestFirst(edges, kinds, roots, depth, limit, queue[1..] + pushed, visited + {head.id}, h);
      }
    }
  }

  lemma RootsStart(edges: Edges, kinds: Kinds, roots: seq<string>, depth: nat, limit: nat)
    ensures AtLevel(edges, kinds, Elements(roots), depth, limit, RootEntries(roots), {}, 0)
  {
    var queue := RootEntries(roots);
    forall id | id in Elements(roots) ensures OneOf(queue, id, 0) {
      var i :| 0 <= i < |roots| && roots[i] == id;
      assert queue[i] == Entry(id, 0);
    }
  }

  // ---- the query ----

  /** A query is truncated exactly when more ids lie within the depth than the limit allows.
      Untruncated, it visits exactly the ids within the depth. Truncated, it visits exactly
      `limit` of them, and no id it left out is nearer to the roots than one it took. */
  lemma QueryVisitsNearest(nodes: Nodes, edges: Edges, text: TextRules, request: GraphQueryRequest)
    ensures
      var kinds := KindSet(request.edgeKinds);
      var roots := Elements(Roots(nodes, text, request.mode, request.value));
      var found := Explored(nodes, edges, text, request);
      && (found.truncated <==> |Ball(edges, kinds, roots, request.depth)| > request.limit)
      && (!found.truncated ==> forall id :: id in found.visited <==> Within(edges, kinds, roots, request.depth, id))
      && (found.truncated ==>
            && |found.visited| == request.limit
            && (forall id | id in found.visited :: Within(edges, kinds, roots, request.depth, id))
            && (forall taken, left, d: nat | taken in found.visited && left !in found.visited
                  && Within(edges, kinds, roots, d, left) :: Within(edges, kinds, roots, d, taken)))
  {
    var kinds := KindSet(request.edgeKinds);
    var rootList := Roots(nodes, text, request.mode, request.value);
    var roots := Elements(rootList);
    var found := Explored(nodes, edges, text, request);
    var ball := Ball(edges, kinds, roots, request.depth);
    RootsStart(edges, kinds, rootList, request.depth, request.limit);
    TraverseNearestFirst(edges, kinds, roots, request.depth, request.limit, RootEntries(rootList), {}, 0);
    forall id ensures id in ball <==> Within(edges, kinds, roots, request.depth, id) {
      BallIsDistance(edges, kinds, roots, request.depth, id);
    }
    if found.truncated {
      SmallerSubset(found.visited, ball);
      forall taken, left, d: nat | taken in found.visited && left !in found.visited
                                   && Within(edges, kinds, roots, d, left)
        ensures Within(edges, kinds, roots, d, taken)
      {
        NoNearerLeftOut(edges, kinds, roots, found.visited, taken, left, d);
      }
    }
  }

  lemma NoNearerLeftOut(edges: Edges, kinds: Kinds, roots: set<string>, visited: set<string>,
                        taken: string, left: string, d: nat)
    requires exists h: nat :: OnShell(edges, kinds, roots, visited, h)
    requires taken in visited && left !in visited && Within(edges, kinds, roots, d, left)
    ensures Within(edges, kinds, roots, d, taken)
  {
    hide Ball, Within;
    var h: nat :| OnShell(edges, kinds, roots, visited, h);
    BallIsDistance(edges, kinds, roots, d, left);
    BallIsDistance(edges, kinds, roots, d, taken);
    if d < h {
      BallGrows(edges, kinds, roots, d, h - 1);
    } else {
      BallGrows(edges, kinds, roots, h, d);
    }
  }

  lemma SmallerSubset<T>(small: set<T>, large: set<T>)
    requires small < large
    ensures |small| < |large|
  {
    var x :| x in large && x !in small;
    assert large == small + (large - small);
    assert x in large - small;
  }

  lemma {:induction false} NothingAround(edges: Edges, kinds: Kinds, distance: nat)
    ensures Ball(edges, kinds, {}, distance) == {}
  {
    if distance > 0 {
      NothingAround(edges, kinds, distance - 1);
    }
  }

  lemma RootlessVisitsNothing(nodes: Nodes, edges: Edges, text: TextRules, request: GraphQueryRequest)
    requires Roots(nodes, text, request.mode, request.value) == []
    ensures Explored(nodes, edges, text, request) == Traversal({}, false)
  {
    assert RootEntries([]) == [];
    TraverseEnds(edges, KindSet(request.edgeKinds), request.depth, request.limit, {});
  }

  /** The ids of a query's nodes are the stored ones it visited, and its edges are the allowed
      edges between visited ids; both come back sorted, so the answer has one form. */
  lemma QueryAnswerContents(nodes: Nodes, edges: Edges, text: TextRules, request: GraphQueryRequest)
    requires KeyedById(nodes)
    ensures
      var answer := Answer(nodes, edges, text, request);
      var visited := Explored(nodes, edges, text, request).visited;
      && (forall node :: node in answer.nodes <==> node.id in nodes && nodes[node.id] == node && node.id in visited)
      && (forall e :: e in answer.edges <==>
            && e in edges && e.from in visited && e.to in visited
            && (request.edgeKinds.None? || e.kind in request.edgeKinds.value))
      && StrictlySorted(answer.nodes, NodeLess) && StrictlySorted(answer.edges, EdgeLess)
  {
    var answer := Answer(nodes, edges, text, request);
    var visited := Explored(nodes, edges, text, request).visited;
    if Roots(nodes, text, request.mode, request.value) == [] {
      RootlessVisitsNothing(nodes, edges, text, request);
    } else {
      var stored := StoredAmong(nodes, visited);
      forall node ensures node in answer.nodes <==> node.id in nodes && nodes[node.id] == node && node.id in visited {
        assert node in answer.nodes <==> node in Elements(answer.nodes);
        if node.id in nodes && nodes[node.id] == node && node.id in visited {
          assert stored[node.id] == node;
        }
      }
      forall e ensures e in answer.edges <==> e in InducedEdges(edges, KindSet(request.edgeKinds), visited) {
        assert e in answer.edges <==> e in Elements(answer.edges);
      }
    }
  }

  /** What the answer itself tells the client, with or without roots: it is marked truncated exactly when
      more ids lie within the depth than the limit; unmarked, it holds every stored node within the
      depth and every allowed edge between ids within it; its counts are those of its own lists. */
  lemma AnswerTells(nodes: Nodes, edges: Edges, text: TextRules, request: GraphQueryRequest)
    requires KeyedById(nodes)
    ensures
      var answer := Answer(nodes, edges, text, request);
      var kinds := KindSet(request.edgeKinds);
      var roots := Elements(answer.roots);
      && answer.roots == Roots(nodes, text, request.mode, request.value)
      && (answer.truncated <==> |Ball(edges, kinds, roots, request.depth)| > request.limit)
      && answer.stats.rootCount == |answer.roots|
      && answer.stats.nodeCount == |answer.nodes|
      && answer.stats.edgeCount == |answer.edges|
      && answer.stats.requestedDepth == request.depth && answer.stats.requestedLimit == request.limit
      && (!answer.truncated ==> forall node :: node in answer.nodes <==>
            node.id in nodes && nodes[node.id] == node && Within(edges, kinds, roots, request.depth, node.id))
      && (!answer.truncated ==> forall e :: e in answer.edges <==>
            && e in edges && (request.edgeKinds.None? || e.kind in request.edgeKinds.value)
            && Within(edges, kinds, roots, request.depth, e.from) && Within(edges, kinds, roots, request.depth, e.to))
  {
    QueryVisitsNearest(nodes, edges, text, request);
    QueryAnswerContents(nodes, edges, text, request);
    if Roots(nodes, text, request.mode, request.value) == [] {
      NothingAround(edges, KindSet(request.edgeKinds), request.depth);
      RootlessVisitsNothing(nodes, edges, text, request);
      var none: seq<string> := [];
      assert Elements(none) == {};
    }
    hide Explored, Roots, Within, Ball, StoredAmong, InducedEdges;
  }
}
