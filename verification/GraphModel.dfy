/** The symbol graph as a plain node map and edge set, and what the indexer
    promises its operations compute on them: root resolution, neighbours, the
    bounded traversal, snapshots. No index appears here; `SymbolGraphs` maintains
    the indexes and is proved to answer exactly as these definitions do. */
module GraphModel {
  import opened Ordering
  import opened Wrappers

  datatype SymbolKind = File | Module | Function | Class | Interface | Method | Variable

  datatype SymbolNode = SymbolNode(id: string, path: string, name: string, kind: SymbolKind, line: nat)

  datatype EdgeKind = Calls | Imports | Inherits | References | Implements

  datatype SymbolEdge = SymbolEdge(from: string, to: string, kind: EdgeKind)

  datatype GraphQueryMode = SymbolName | FilePath | NodeId

  datatype GraphQueryRequest = GraphQueryRequest(
    mode: GraphQueryMode, value: string, depth: nat, limit: nat, edgeKinds: Option<seq<EdgeKind>>)

  datatype GraphQueryStats = GraphQueryStats(
    rootCount: nat, nodeCount: nat, edgeCount: nat, requestedDepth: nat, requestedLimit: nat)

  datatype GraphQueryResponse = GraphQueryResponse(
    roots: seq<string>, nodes: seq<SymbolNode>, edges: seq<SymbolEdge>, truncated: bool, stats: GraphQueryStats)

  /** Unicode lower-casing and trimming belong to the string library; any functions will do. */
  datatype TextRules = TextRules(lower: string -> string, trim: string -> string)

  type Nodes = map<string, SymbolNode>
  type Edges = set<SymbolEdge>
  type Kinds = Option<set<EdgeKind>>

  ghost predicate KeyedById(nodes: Nodes) {
    forall id | id in nodes :: nodes[id].id == id
  }

  predicate Allowed(kinds: Kinds, kind: EdgeKind) {
    kinds.Some? ==> kind in kinds.value
  }

  function KindSet(kinds: Option<seq<EdgeKind>>): Kinds {
    if kinds.None? then None else Some(set k | k in kinds.value)
  }

  // ---- brute-force readings of the node map and the edge set ----

  function IdsInFile(nodes: Nodes, path: string): set<string> {
    set id | id in nodes && nodes[id].path == path
  }

  function IdsNamed(nodes: Nodes, text: TextRules, loweredName: string): set<string> {
    set id | id in nodes && text.lower(nodes[id].name) == loweredName
  }

  function FileIds(nodes: Nodes, path: string): set<string> {
    set id | id in nodes && nodes[id].path == path && nodes[id].kind == File
  }

  function NeighborIds(edges: Edges, kinds: Kinds, id: string): set<string> {
    (set e | e in edges && e.from == id && Allowed(kinds, e.kind) :: e.to)
    + (set e | e in edges && e.to == id && Allowed(kinds, e.kind) :: e.from)
  }

  ghost function Roots(nodes: Nodes, text: TextRules, mode: GraphQueryMode, value: string): seq<string> {
    var wanted := text.trim(value);
    if wanted == "" then []
    else match mode
      case NodeId => if wanted in nodes then [wanted] else []
      case FilePath =>
        var files := FileIds(nodes, wanted);
        SortedIds(if files != {} then files else IdsInFile(nodes, wanted))
      case SymbolName => SortedIds(IdsNamed(nodes, text, text.lower(wanted)))
  }

  /** What the roots of a request are, mode by mode: exactly these ids, in order. */
  lemma RootsAre(nodes: Nodes, text: TextRules, mode: GraphQueryMode, value: string)
    ensures StrictlySorted(Roots(nodes, text, mode, value), StringLess)
    ensures text.trim(value) == "" ==> Roots(nodes, text, mode, value) == []
    ensures text.trim(value) != "" ==> forall id :: id in Roots(nodes, text, mode, value) <==>
              id in nodes &&
              match mode
              case NodeId => id == text.trim(value)
              case SymbolName => text.lower(nodes[id].name) == text.lower(text.trim(value))
              case FilePath =>
                nodes[id].path == text.trim(value)
                && (nodes[id].kind == File
                    || forall other | other in nodes && nodes[other].path == nodes[id].path ::
                         nodes[other].kind != File)
  {
    var roots, wanted := Roots(nodes, text, mode, value), text.trim(value);
    forall id ensures id in roots <==> id in Elements(roots) {}
    if wanted != "" && mode == FilePath {
      var files := FileIds(nodes, wanted);
      if other :| other in nodes && nodes[other].path == wanted && nodes[other].kind == File {
        assert other in files;
      }
    }
  }

  // ---- sorted listings of nodes and edges ----

  predicate NodeLess(a: SymbolNode, b: SymbolNode) {
    StringLess(a.id, b.id)
  }

  function KindName(kind: EdgeKind): string {
    match kind
    case Calls => "Calls"
    case Imports => "Imports"
    case Inherits => "Inherits"
    case References => "References"
    case Implements => "Implements"
  }

  predicate EdgeLess(a: SymbolEdge, b: SymbolEdge) {
    StringLess(a.from, b.from)
    || (a.from == b.from
        && (StringLess(a.to, b.to) || (a.to == b.to && StringLess(KindName(a.kind), KindName(b.kind)))))
  }

  /** Kinds sort by name, as they are printed. */
  lemma KindsByName(a: EdgeKind, b: EdgeKind)
    ensures KindName(Calls) == "Calls" && KindName(Imports) == "Imports" && KindName(Inherits) == "Inherits"
    ensures KindName(References) == "References" && KindName(Implements) == "Implements"
    ensures KindName(a) == KindName(b) ==> a == b
  {
    KindNamesDistinct(a, b);
  }

  /** Which kinds a request allows: all, or those it lists. */
  lemma AllowedKinds(listed: Option<seq<EdgeKind>>, kind: EdgeKind)
    ensures Allowed(KindSet(listed), kind) <==> listed.None? || kind in listed.value
  {
  }

  lemma NodesOrdered(nodes: Nodes)
    requires KeyedById(nodes)
    ensures StrictTotalOn(NodeLess, nodes.Values)
  {
    var s := nodes.Values;
    forall x | x in s ensures !NodeLess(x, x) { StringLessTrichotomy(x.id, x.id); }
    forall x, y | x in s && y in s && x != y ensures NodeLess(x, y) || NodeLess(y, x) {
      StringLessTrichotomy(x.id, y.id);
    }
    forall x, y, z | x in s && y in s && z in s && NodeLess(x, y) && NodeLess(y, z) ensures NodeLess(x, z) {
      StringLessTransitive(x.id, y.id, z.id);
    }
  }

  lemma EdgesOrdered(s: Edges)
    ensures StrictTotalOn(EdgeLess, s)
  {
    forall x | x in s ensures !EdgeLess(x, x) { EdgeLessTrichotomy(x, x); }
    forall x, y | x in s && y in s && x != y ensures EdgeLess(x, y) || EdgeLess(y, x) { EdgeLessTrichotomy(x, y); }
    forall x, y, z | x in s && y in s && z in s && EdgeLess(x, y) && EdgeLess(y, z) ensures EdgeLess(x, z) {
      EdgeLessTransitive(x, y, z);
    }
  }

  lemma EdgeLessTrichotomy(x: SymbolEdge, y: SymbolEdge)
    ensures EdgeLess(x, y) || x == y || EdgeLess(y, x)
    ensures !EdgeLess(x, x)
  {
    StringLessTrichotomy(x.from, y.from);
    StringLessTrichotomy(x.to, y.to);
    StringLessTrichotomy(KindName(x.kind), KindName(y.kind));
    KindNamesDistinct(x.kind, y.kind);
    StringLessTrichotomy(KindName(x.kind), KindName(x.kind));
    StringLessTrichotomy(x.from, x.from);
    StringLessTrichotomy(x.to, x.to);
  }

  lemma KindNamesDistinct(a: EdgeKind, b: EdgeKind)
    ensures KindName(a) == KindName(b) ==> a == b
  {
    assert KindName(Calls) == ['C', 'a', 'l', 'l', 's'];
    assert KindName(Calls)[1] == 'a' && KindName(Imports)[1] == 'm' && KindName(Inherits)[1] == 'n';
    assert KindName(References)[1] == 'e' && KindName(Implements)[2] == 'p' && KindName(Imports)[2] == 'p';
    assert |KindName(Imports)| == 7 && |KindName(Implements)| == 10;
  }

  lemma EdgeLessTransitive(x: SymbolEdge, y: SymbolEdge, z: SymbolEdge)
    requires EdgeLess(x, y) && EdgeLess(y, z)
    ensures EdgeLess(x, z)
  {
    if StringLess(x.from, y.from) && StringLess(y.from, z.from) {
      StringLessTransitive(x.from, y.from, z.from);
    } else if x.from == y.from == z.from {
      if StringLess(x.to, y.to) && StringLess(y.to, z.to) {
        StringLessTransitive(x.to, y.to, z.to);
      } else if x.to == y.to == z.to {
        StringLessTransitive(KindName(x.kind), KindName(y.kind), KindName(z.kind));
      }
    }
  }

  ghost function NodeListing(nodes: Nodes): (r: seq<SymbolNode>)
    requires KeyedById(nodes)
    ensures Elements(r) == nodes.Values && StrictlySorted(r, NodeLess)
  {
    NodesOrdered(nodes);
    Listing(nodes.Values, NodeLess)
  }

  ghost function EdgeListing(edges: Edges): (r: seq<SymbolEdge>)
    ensures Elements(r) == edges && |r| == |edges| && StrictlySorted(r, EdgeLess)
  {
    EdgesOrdered(edges);
    Listing(edges, EdgeLess)
  }

  /** The listings in so many words: nodes by id; edges by source, then target, then kind name. */
  lemma ListingsOrdered(nodes: Nodes, edges: Edges, i: nat, j: nat)
    requires KeyedById(nodes) && i < j
    ensures j < |NodeListing(nodes)| ==> StringLess(NodeListing(nodes)[i].id, NodeListing(nodes)[j].id)
    ensures j < |EdgeListing(edges)| ==>
              var a, b := EdgeListing(edges)[i], EdgeListing(edges)[j];
              if a.from != b.from then StringLess(a.from, b.from)
              else if a.to != b.to then StringLess(a.to, b.to)
              else StringLess(KindName(a.kind), KindName(b.kind))
  {
    if j < |NodeListing(nodes)| {
      assert NodeLess(NodeListing(nodes)[i], NodeListing(nodes)[j]);
    }
    if j < |EdgeListing(edges)| {
      var a, b := EdgeListing(edges)[i], EdgeListing(edges)[j];
      assert EdgeLess(a, b);
      StringLessTrichotomy(a.from, b.from);
      StringLessTrichotomy(a.to, b.to);
    }
  }

  // ---- the bounded traversal ----

  datatype Entry = Entry(id: string, depth: nat)

  datatype Traversal = Traversal(visited: set<string>, truncated: bool)

  function EntryIds(queue: seq<Entry>): set<string> {
    set entry | entry in queue :: entry.id
  }

  function EdgeIds(edges: Edges): set<string> {
    (set e | e in edges :: e.from) + (set e | e in edges :: e.to)
  }

  /** The queue entries one expansion appends: the unvisited neighbours, in the order listed. */
  function Pushed(neighbors: seq<string>, visited: set<string>, depth: nat): (entries: seq<Entry>)
    ensures forall i | 0 <= i < |entries| ::
              entries[i].depth == depth && entries[i].id in neighbors && entries[i].id !in visited
    ensures forall id | id in neighbors && id !in visited :: Entry(id, depth) in entries
  {
    if neighbors == [] then []
    else
      var last := neighbors[|neighbors| - 1];
      var before := Pushed(neighbors[..|neighbors| - 1], visited, depth);
      assert forall id | id in neighbors :: id == last || id in neighbors[..|neighbors| - 1];
      if last in visited then before else before + [Entry(last, depth)]
  }

  function Queued(ids: seq<string>, depth: nat): seq<Entry> {
    seq(|ids|, i requires 0 <= i < |ids| => Entry(ids[i], depth))
  }

  /** They are exactly the unvisited neighbours, each as often and in the order listed. */
  lemma {:induction false} PushedInOrder(neighbors: seq<string>, visited: set<string>, depth: nat)
    returns (ids: seq<string>)
    ensures Pushed(neighbors, visited, depth) == Queued(ids, depth)
    ensures IsSelection(neighbors, ids, id => id !in visited)
  {
    hide IsSelection;
    ids := [];
    var unvisited := id => id !in visited;
    if neighbors == [] {
      SelectionOfNone(unvisited);
    } else {
      var n := |neighbors| - 1;
      var before := PushedInOrder(neighbors[..n], visited, depth);
      SelectionSnoc(neighbors[..n], before, unvisited, neighbors[n]);
      assert neighbors == neighbors[..n] + [neighbors[n]];
      ids := if neighbors[n] !in visited then before + [neighbors[n]] else before;
      assert Queued(before + [neighbors[n]], depth) == Queued(before, depth) + [Entry(neighbors[n], depth)];
    }
  }

  /** The traversal from a queue and a visited set: ids are marked only when they are
      popped, so the queue may hold the same id several times at several depths. */
  ghost function Traverse(edges: Edges, kinds: Kinds, depth: nat, limit: nat,
                          queue: seq<Entry>, visited: set<string>): Traversal
    decreases EdgeIds(edges) + EntryIds(queue) - visited, |queue|
  {
    if queue == [] then Traversal(visited, false)
    else
      var head := queue[0];
      assert EntryIds(queue[1..]) <= EntryIds(queue);
      assert head.id in EntryIds(queue);
      if head.id in visited then Traverse(edges, kinds, depth, limit, queue[1..], visited)
      else if |visited| == limit then Traversal(visited, true)
      else
        var marked := visited + {head.id};
        if head.depth >= depth then Traverse(edges, kinds, depth, limit, queue[1..], marked)
        else
          var pushed := Pushed(SortedIds(NeighborIds(edges, kinds, head.id)), marked, head.depth + 1);
          PushedIdsInEdges(edges, kinds, head.id, marked, head.depth + 1);
          assert EntryIds(queue[1..] + pushed) <= EntryIds(queue) + EdgeIds(edges);
          Traverse(edges, kinds, depth, limit, queue[1..] + pushed, marked)
  }

  lemma TraverseEnds(edges: Edges, kinds: Kinds, depth: nat, limit: nat, visited: set<string>)
    ensures Traverse(edges, kinds, depth, limit, [], visited) == Traversal(visited, false)
  {
  }

  /** One turn of the traversal loop, and the measure that every turn shrinks. */
  lemma TraverseSteps(edges: Edges, kinds: Kinds, depth: nat, limit: nat, queue: seq<Entry>, visited: set<string>)
    requires queue != []
    ensures
      var here := Traverse(edges, kinds, depth, limit, queue, visited);
      var rest := queue[1..];
      var marked := visited + {queue[0].id};
      var longer := rest + Pushed(SortedIds(NeighborIds(edges, kinds, queue[0].id)), marked, queue[0].depth + 1);
      var open := EdgeIds(edges) + EntryIds(queue) - visited;
      && EdgeIds(edges) + EntryIds(rest) - visited <= open
      && (queue[0].id in visited ==> here == Traverse(edges, kinds, depth, limit, rest, visited))
      && (queue[0].id !in visited && |visited| == limit ==> here == Traversal(visited, true))
      && (queue[0].id !in visited && |visited| != limit ==>
            && EdgeIds(edges) + EntryIds(rest) - marked < open
            && EdgeIds(edges) + EntryIds(longer) - marked < open
            && here == Traverse(edges, kinds, depth, limit, if queue[0].depth >= depth then rest else longer, marked))
  {
    var rest := queue[1..];
    var marked := visited + {queue[0].id};
    var pushed := Pushed(SortedIds(NeighborIds(edges, kinds, queue[0].id)), marked, queue[0].depth + 1);
    PushedIdsInEdges(edges, kinds, queue[0].id, marked, queue[0].depth + 1);
    assert EntryIds(rest) <= EntryIds(queue);
    assert queue[0].id in EntryIds(queue);
    assert EntryIds(rest + pushed) <= EntryIds(queue) + EdgeIds(edges);
  }

  lemma PushedIdsInEdges(edges: Edges, kinds: Kinds, id: string, visited: set<string>, depth: nat)
    ensures EntryIds(Pushed(SortedIds(NeighborIds(edges, kinds, id)), visited, depth)) <= EdgeIds(edges)
  {
    var ids := SortedIds(NeighborIds(edges, kinds, id));
    var entries := Pushed(ids, visited, depth);
    forall entry | entry in entries ensures entry.id in EdgeIds(edges) {
      assert entry.id in Elements(ids);
    }
  }

  function RootEntries(roots: seq<string>): seq<Entry> {
    seq(|roots|, i requires 0 <= i < |roots| => Entry(roots[i], 0))
  }

  ghost function Explored(nodes: Nodes, edges: Edges, text: TextRules, request: GraphQueryRequest): Traversal {
    Traverse(edges, KindSet(request.edgeKinds), request.depth, request.limit,
             RootEntries(Roots(nodes, text, request.mode, request.value)), {})
  }

  lemma ExploredIs(nodes: Nodes, edges: Edges, text: TextRules, request: GraphQueryRequest)
    ensures Explored(nodes, edges, text, request) ==
            Traverse(edges, KindSet(request.edgeKinds), request.depth, request.limit,
                     RootEntries(Roots(nodes, text, request.mode, request.value)), {})
  {
  }

  function StoredAmong(nodes: Nodes, ids: set<string>): Nodes {
    map id | id in nodes && id in ids :: nodes[id]
  }

  function InducedEdges(edges: Edges, kinds: Kinds, ids: set<string>): Edges {
    set e | e in edges && e.from in ids && e.to in ids && Allowed(kinds, e.kind)
  }

  /** The whole answer, as a function of the node map, the edge set and the request. */
  ghost function Answer(nodes: Nodes, edges: Edges, text: TextRules, request: GraphQueryRequest): GraphQueryResponse
    requires KeyedById(nodes)
  {
    var roots := Roots(nodes, text, request.mode, request.value);
    if roots == [] then
      GraphQueryResponse([], [], [], false, GraphQueryStats(0, 0, 0, request.depth, request.limit))
    else
      var found := Explored(nodes, edges, text, request);
      var ns := NodeListing(StoredAmong(nodes, found.visited));
      var es := EdgeListing(InducedEdges(edges, KindSet(request.edgeKinds), found.visited));
      GraphQueryResponse(roots, ns, es, found.truncated,
                         GraphQueryStats(|roots|, |ns|, |es|, request.depth, request.limit))
  }
}
