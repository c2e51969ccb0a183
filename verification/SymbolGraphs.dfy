/** The indexer's symbol graph: a node map and an edge set kept together with four
    derived indexes, all updated in place. */
module SymbolGraphs {
  import opened Ordering
  import opened GraphModel
  import opened QueryProofs
  import opened Wrappers

  datatype Link = Link(id: string, kind: EdgeKind)

  type LinkIndex = map<string, set<Link>>
  type IdIndex = map<string, set<string>>

  datatype PlaceholderEdge = PlaceholderEdge(
    fromId: string, externalToId: string, filePath: string, line: nat, character: nat, edgeKind: EdgeKind)

  // ---- what the indexes must be ----

  ghost predicate NoEmptyBucket<K, V>(index: map<K, set<V>>) {
    forall k | k in index :: index[k] != {}
  }

  /** `adjacency` is exactly the edge set read from the source side. */
  ghost predicate ProjectsOutgoing(adjacency: LinkIndex, edges: Edges) {
    && NoEmptyBucket(adjacency)
    && (forall e | e in edges :: e.from in adjacency && Link(e.to, e.kind) in adjacency[e.from])
    && (forall id, l | id in adjacency && l in adjacency[id] :: SymbolEdge(id, l.id, l.kind) in edges)
  }

  /** `reverse` is exactly the edge set read from the target side. */
  ghost predicate ProjectsIncoming(reverse: LinkIndex, edges: Edges) {
    && NoEmptyBucket(reverse)
    && (forall e | e in edges :: e.to in reverse && Link(e.from, e.kind) in reverse[e.to])
    && (forall id, l | id in reverse && l in reverse[id] :: SymbolEdge(l.id, id, l.kind) in edges)
  }

  /** `index` is exactly the inverse of `keys`, which gives each stored id its index key. */
  ghost predicate Inverts(index: IdIndex, keys: map<string, string>) {
    && NoEmptyBucket(index)
    && (forall id | id in keys :: keys[id] in index && id in index[keys[id]])
    && (forall k, id | k in index && id in index[k] :: id in keys && keys[id] == k)
  }

  function NameKeys(text: TextRules, nodes: Nodes): map<string, string> {
    map id | id in nodes :: text.lower(nodes[id].name)
  }

  function PathKeys(nodes: Nodes): map<string, string> {
    map id | id in nodes :: nodes[id].path
  }

  /** The four indexes agree with the sets they speed up. */
  ghost predicate Indexed(text: TextRules, nodes: Nodes, edges: Edges, adjacency: LinkIndex, reverse: LinkIndex,
                          names: IdIndex, paths: IdIndex) {
    && KeyedById(nodes)
    && ProjectsOutgoing(adjacency, edges)
    && ProjectsIncoming(reverse, edges)
    && Inverts(names, NameKeys(text, nodes))
    && Inverts(paths, PathKeys(nodes))
  }

  lemma SameBuckets<K, V>(a: map<K, set<V>>, b: map<K, set<V>>)
    requires NoEmptyBucket(a) && NoEmptyBucket(b)
    requires forall k, v | k in a && v in a[k] :: k in b && v in b[k]
    requires forall k, v | k in b && v in b[k] :: k in a && v in a[k]
    ensures a == b
  {
    forall k | k in a ensures k in b { var v :| v in a[k]; }
    forall k | k in b ensures k in a { var v :| v in b[k]; }
    forall k | k in a ensures a[k] == b[k] {}
  }

  /** The node map and edge set determine all four indexes, so any history that reaches the
      same nodes and edges reaches the same indexes. */
  lemma IndexesDetermined(text: TextRules, nodes: Nodes, edges: Edges,
                          adjacency: LinkIndex, reverse: LinkIndex, names: IdIndex, paths: IdIndex,
                          adjacency': LinkIndex, reverse': LinkIndex, names': IdIndex, paths': IdIndex)
    requires Indexed(text, nodes, edges, adjacency, reverse, names, paths)
    requires Indexed(text, nodes, edges, adjacency', reverse', names', paths')
    ensures adjacency == adjacency' && reverse == reverse' && names == names' && paths == paths'
  {
    forall id, l | id in adjacency && l in adjacency[id] ensures id in adjacency' && l in adjacency'[id] {
      assert SymbolEdge(id, l.id, l.kind) in edges;
    }
    forall id, l | id in adjacency' && l in adjacency'[id] ensures id in adjacency && l in adjacency[id] {
      assert SymbolEdge(id, l.id, l.kind) in edges;
    }
    forall id, l | id in reverse && l in reverse[id] ensures id in reverse' && l in reverse'[id] {
      assert SymbolEdge(l.id, id, l.kind) in edges;
    }
    forall id, l | id in reverse' && l in reverse'[id] ensures id in reverse && l in reverse[id] {
      assert SymbolEdge(l.id, id, l.kind) in edges;
    }
    SameBuckets(adjacency, adjacency');
    SameBuckets(reverse, reverse');
    SameInverse(names, names', NameKeys(text, nodes));
    SameInverse(paths, paths', PathKeys(nodes));
  }

  lemma SameInverse(a: IdIndex, b: IdIndex, keys: map<string, string>)
    requires Inverts(a, keys) && Inverts(b, keys)
    ensures a == b
  {
    forall k, id | k in a && id in a[k] ensures k in b && id in b[k] { assert keys[id] == k; }
    forall k, id | k in b && id in b[k] ensures k in a && id in a[k] { assert keys[id] == k; }
    SameBuckets(a, b);
  }

  /** One bucket lookup is a brute-force scan of the keys. */
  lemma Lookup(index: IdIndex, keys: map<string, string>, key: string)
    requires Inverts(index, keys)
    ensures forall id :: id in (if key in index then index[key] else {}) <==> id in keys && keys[id] == key
  {
  }

  // ---- bucket updates ----

  function InsertEntry<K, V>(index: map<K, set<V>>, key: K, value: V): map<K, set<V>> {
    index[key := (if key in index then index[key] else {}) + {value}]
  }

  function RemoveEntry<K, V>(index: map<K, set<V>>, key: K, value: V): map<K, set<V>> {
    if key !in index then index
    else if index[key] - {value} == {} then index - {key}
    else index[key := index[key] - {value}]
  }

  lemma Unindex(index: IdIndex, keys: map<string, string>, id: string)
    requires Inverts(index, keys) && id in keys
    ensures Inverts(RemoveEntry(index, keys[id], id), keys - {id})
  {
    var k := keys[id];
    var index' := RemoveEntry(index, k, id);
    forall other | other in keys - {id} ensures keys[other] in index' && other in index'[keys[other]] {
      assert other in index[keys[other]];
      if keys[other] == k {
        assert other in index[k] - {id};
      }
    }
  }

  lemma Reindex(index: IdIndex, keys: map<string, string>, id: string, key: string)
    requires Inverts(index, keys) && id !in keys
    ensures Inverts(InsertEntry(index, key, id), keys[id := key])
  {
  }

  lemma AddEdgeOutgoing(adjacency: LinkIndex, edges: Edges, e: SymbolEdge)
    requires ProjectsOutgoing(adjacency, edges)
    ensures ProjectsOutgoing(InsertEntry(adjacency, e.from, Link(e.to, e.kind)), edges + {e})
  {
  }

  lemma AddEdgeIncoming(reverse: LinkIndex, edges: Edges, e: SymbolEdge)
    requires ProjectsIncoming(reverse, edges)
    ensures ProjectsIncoming(InsertEntry(reverse, e.to, Link(e.from, e.kind)), edges + {e})
  {
  }

  lemma RemoveEdgeOutgoing(adjacency: LinkIndex, edges: Edges, e: SymbolEdge)
    requires ProjectsOutgoing(adjacency, edges)
    ensures ProjectsOutgoing(RemoveEntry(adjacency, e.from, Link(e.to, e.kind)), edges - {e})
  {
    var index' := RemoveEntry(adjacency, e.from, Link(e.to, e.kind));
    forall d | d in edges - {e} ensures d.from in index' && Link(d.to, d.kind) in index'[d.from] {
      assert d == SymbolEdge(d.from, d.to, d.kind) && e == SymbolEdge(e.from, e.to, e.kind);
      assert Link(d.to, d.kind) in adjacency[d.from];
      if d.from == e.from {
        assert Link(d.to, d.kind) in adjacency[e.from] - {Link(e.to, e.kind)};
      }
    }
  }

  lemma RemoveEdgeIncoming(reverse: LinkIndex, edges: Edges, e: SymbolEdge)
    requires ProjectsIncoming(reverse, edges)
    ensures ProjectsIncoming(RemoveEntry(reverse, e.to, Link(e.from, e.kind)), edges - {e})
  {
    var index' := RemoveEntry(reverse, e.to, Link(e.from, e.kind));
    forall d | d in edges - {e} ensures d.to in index' && Link(d.from, d.kind) in index'[d.to] {
      assert d == SymbolEdge(d.from, d.to, d.kind) && e == SymbolEdge(e.from, e.to, e.kind);
      assert Link(d.from, d.kind) in reverse[d.to];
      if d.to == e.to {
        assert Link(d.from, d.kind) in reverse[e.to] - {Link(e.from, e.kind)};
      }
    }
  }

  lemma Rekey(index: IdIndex, keys: map<string, string>, id: string, key: string)
    requires Inverts(index, keys)
    ensures var dropped := if id in keys then RemoveEntry(index, keys[id], id) else index;
            Inverts(InsertEntry(dropped, key, id), keys[id := key])
  {
    if id in keys {
      Unindex(index, keys, id);
      Reindex(RemoveEntry(index, keys[id], id), keys - {id}, id, key);
      assert (keys - {id})[id := key] == keys[id := key];
    } else {
      Reindex(index, keys, id, key);
    }
  }

  /** Storing a node, after dropping the index entries of the node it replaces, keeps the indexes exact. */
  lemma IndexedUpsert(text: TextRules, nodes: Nodes, edges: Edges, adjacency: LinkIndex, reverse: LinkIndex,
                      names: IdIndex, paths: IdIndex, node: SymbolNode)
    requires Indexed(text, nodes, edges, adjacency, reverse, names, paths)
    ensures
      var names' := if node.id in nodes then RemoveEntry(names, text.lower(nodes[node.id].name), node.id) else names;
      var paths' := if node.id in nodes then RemoveEntry(paths, nodes[node.id].path, node.id) else paths;
      Indexed(text, nodes[node.id := node], edges, adjacency, reverse,
              InsertEntry(names', text.lower(node.name), node.id), InsertEntry(paths', node.path, node.id))
  {
    hide ProjectsOutgoing, ProjectsIncoming, Inverts;
    Rekey(names, NameKeys(text, nodes), node.id, text.lower(node.name));
    Rekey(paths, PathKeys(nodes), node.id, node.path);
    assert NameKeys(text, nodes[node.id := node]) == NameKeys(text, nodes)[node.id := text.lower(node.name)];
    assert PathKeys(nodes[node.id := node]) == PathKeys(nodes)[node.id := node.path];
  }

  /** Bucket lookups are brute-force scans of the node map. */
  lemma IndexedLookups(text: TextRules, nodes: Nodes, edges: Edges, adjacency: LinkIndex, reverse: LinkIndex,
                       names: IdIndex, paths: IdIndex, key: string)
    requires Indexed(text, nodes, edges, adjacency, reverse, names, paths)
    ensures (if key in names then names[key] else {}) == IdsNamed(nodes, text, key)
    ensures (if key in paths then paths[key] else {}) == IdsInFile(nodes, key)
  {
    hide ProjectsOutgoing, ProjectsIncoming, Inverts, NoEmptyBucket;
    var named, inFile := if key in names then names[key] else {}, if key in paths then paths[key] else {};
    assert forall id :: id in named <==> id in NameKeys(text, nodes) && NameKeys(text, nodes)[id] == key by {
      Lookup(names, NameKeys(text, nodes), key);
    }
    assert forall id :: id in inFile <==> id in PathKeys(nodes) && PathKeys(nodes)[id] == key by {
      Lookup(paths, PathKeys(nodes), key);
    }
  }

  function LinkedIds(links: set<Link>, kinds: Kinds): set<string> {
    set l | l in links && Allowed(kinds, l.kind) :: l.id
  }

  /** The two adjacency buckets of an id give exactly a scan of the edge set. */
  lemma NeighborsFromIndexes(edges: Edges, adjacency: LinkIndex, reverse: LinkIndex, kinds: Kinds, id: string)
    requires ProjectsOutgoing(adjacency, edges) && ProjectsIncoming(reverse, edges)
    ensures NeighborIds(edges, kinds, id)
         == (if id in adjacency then LinkedIds(adjacency[id], kinds) else {})
          + (if id in reverse then LinkedIds(reverse[id], kinds) else {})
  {
    var outgoing := if id in adjacency then LinkedIds(adjacency[id], kinds) else {};
    var incoming := if id in reverse then LinkedIds(reverse[id], kinds) else {};
    forall e | e in edges && e.from == id && Allowed(kinds, e.kind) ensures e.to in outgoing {
      assert Link(e.to, e.kind) in adjacency[id];
    }
    forall e | e in edges && e.to == id && Allowed(kinds, e.kind) ensures e.from in incoming {
      assert Link(e.from, e.kind) in reverse[id];
    }
    forall b | b in outgoing ensures b in NeighborIds(edges, kinds, id) {
      var l :| l in adjacency[id] && Allowed(kinds, l.kind) && l.id == b;
      assert SymbolEdge(id, b, l.kind) in edges && SymbolEdge(id, b, l.kind).from == id;
    }
    forall b | b in incoming ensures b in NeighborIds(edges, kinds, id) {
      var l :| l in reverse[id] && Allowed(kinds, l.kind) && l.id == b;
      assert SymbolEdge(b, id, l.kind) in edges && SymbolEdge(b, id, l.kind).to == id;
    }
  }

  // ---- snapshots ----

  /** The node map a snapshot's node list loads to: for a repeated id the last entry wins. */
  function LoadedNodes(list: seq<SymbolNode>): Nodes {
    if list == [] then map[]
    else LoadedNodes(list[..|list| - 1])[list[|list| - 1].id := list[|list| - 1]]
  }

  lemma {:induction false} LoadedNodesAre(list: seq<SymbolNode>)
    requires forall i, j | 0 <= i < j < |list| :: list[i].id != list[j].id
    ensures forall id :: id in LoadedNodes(list) <==> exists i :: 0 <= i < |list| && list[i].id == id
    ensures forall i | 0 <= i < |list| :: list[i].id in LoadedNodes(list) && LoadedNodes(list)[list[i].id] == list[i]
  {
    if list != [] {
      var before := list[..|list| - 1];
      LoadedNodesAre(before);
      forall id ensures id in LoadedNodes(list) <==> exists i :: 0 <= i < |list| && list[i].id == id {
        if id in LoadedNodes(before) {
          var i :| 0 <= i < |before| && before[i].id == id;
          assert list[i].id == id;
        }
        if i :| 0 <= i < |list| && list[i].id == id {
          assert i < |before| ==> before[i].id == id;
        }
      }
      forall i | 0 <= i < |list|
        ensures list[i].id in LoadedNodes(list) && LoadedNodes(list)[list[i].id] == list[i]
      {
        assert i < |before| ==> before[i] == list[i];
      }
    }
  }

  /** Of several entries with one id the last is loaded. */
  lemma {:induction false} LastEntryWins(list: seq<SymbolNode>, i: nat)
    requires i < |list| && forall j | i < j < |list| :: list[j].id != list[i].id
    ensures list[i].id in LoadedNodes(list) && LoadedNodes(list)[list[i].id] == list[i]
  {
    if i < |list| - 1 {
      var before := list[..|list| - 1];
      assert before[i] == list[i] && forall j | i < j < |before| :: before[j] == list[j];
      LastEntryWins(before, i);
    }
  }

  /** A snapshot is complete: loading it gives back the same nodes and edges. */
  lemma SnapshotReloads(nodes: Nodes, edges: Edges)
    requires KeyedById(nodes)
    ensures LoadedNodes(NodeListing(nodes)) == nodes
    ensures Elements(EdgeListing(edges)) == edges
  {
    hide LoadedNodes, StringLess, NodeLess, EdgeLess;
    ListedIdsDiffer(NodeListing(nodes));
    LoadsBack(nodes, NodeListing(nodes));
  }

  lemma LoadsBack(nodes: Nodes, listed: seq<SymbolNode>)
    requires KeyedById(nodes) && Elements(listed) == nodes.Values
    requires forall i, j | 0 <= i < j < |listed| :: listed[i].id != listed[j].id
    ensures LoadedNodes(listed) == nodes
  {
    hide LoadedNodes;
    LoadedNodesAre(listed);
    var loaded := LoadedNodes(listed);
    forall id | id in nodes ensures id in loaded && loaded[id] == nodes[id] {
      assert nodes[id] in Elements(listed);
      var i :| 0 <= i < |listed| && listed[i] == nodes[id];
    }
    forall id | id in loaded ensures id in nodes {
      var i :| 0 <= i < |listed| && listed[i].id == id;
      assert listed[i] in Elements(listed);
    }
  }

  lemma ListedIdsDiffer(listed: seq<SymbolNode>)
    requires StrictlySorted(listed, NodeLess)
    ensures forall i, j | 0 <= i < j < |listed| :: listed[i].id != listed[j].id
  {
    forall i, j | 0 <= i < j < |listed| ensures listed[i].id != listed[j].id {
      StringLessTrichotomy(listed[i].id, listed[j].id);
      assert NodeLess(listed[i], listed[j]);
    }
  }

  /** A snapshot is canonical: it is the only sorted listing of its nodes and edges, so graphs
      with equal contents write identical snapshots whatever order they were filled in. */
  lemma SnapshotIsCanonical(nodes: Nodes, edges: Edges, nodeList: seq<SymbolNode>, edgeList: seq<SymbolEdge>)
    requires KeyedById(nodes)
    requires StrictlySorted(nodeList, NodeLess) && Elements(nodeList) == nodes.Values
    requires StrictlySorted(edgeList, EdgeLess) && Elements(edgeList) == edges
    ensures nodeList == NodeListing(nodes) && edgeList == EdgeListing(edges)
  {
    hide StringLess;
    NodesOrdered(nodes);
    EdgesOrdered(edges);
    ListingIsUnique(nodeList, NodeListing(nodes), NodeLess);
    ListingIsUnique(edgeList, EdgeListing(edges), EdgeLess);
  }

  // ---- pruning and placeholders ----

  predicate ResolverManaged(kind: EdgeKind) {
    kind == Calls || kind == Implements || kind == Inherits
  }

  /** The resolver-managed edges whose source node is stored in `path`. */
  function PruneVictims(nodes: Nodes, edges: Edges, path: string): Edges {
    set e | e in edges && ResolverManaged(e.kind) && e.from in nodes && nodes[e.from].path == path
  }

  lemma PruneNext(nodes: Nodes, listed: seq<SymbolEdge>, e: SymbolEdge, path: string)
    ensures PruneVictims(nodes, Elements(listed + [e]), path)
         == PruneVictims(nodes, Elements(listed), path) + PruneVictims(nodes, {e}, path)
    ensures PruneVictims(nodes, {e}, path)
         == if ResolverManaged(e.kind) && e.from in nodes && nodes[e.from].path == path then {e} else {}
  {
    assert Elements(listed + [e]) == Elements(listed) + {e};
  }

  function ParkedFor(queue: seq<PlaceholderEdge>, filePath: string, wanted: bool): seq<PlaceholderEdge> {
    if queue == [] then []
    else
      var before := ParkedFor(queue[..|queue| - 1], filePath, wanted);
      var last := queue[|queue| - 1];
      if (last.filePath == filePath) == wanted then before + [last] else before
  }

  function InFile(filePath: string): PlaceholderEdge -> bool {
    (p: PlaceholderEdge) => p.filePath == filePath
  }

  function Elsewhere(filePath: string): PlaceholderEdge -> bool {
    (p: PlaceholderEdge) => p.filePath != filePath
  }

  /** Each part is a selection: its file's placeholders, or all the others, in their old order. */
  lemma {:induction false} ParkedInOrder(queue: seq<PlaceholderEdge>, filePath: string, wanted: bool)
    ensures IsSelection(queue, ParkedFor(queue, filePath, wanted),
                        if wanted then InFile(filePath) else Elsewhere(filePath))
  {
    hide IsSelection;
    var kept := if wanted then InFile(filePath) else Elsewhere(filePath);
    if queue == [] {
      SelectionOfNone(kept);
    } else {
      var n := |queue| - 1;
      ParkedInOrder(queue[..n], filePath, wanted);
      SelectionSnoc(queue[..n], ParkedFor(queue[..n], filePath, wanted), kept, queue[n]);
      assert queue == queue[..n] + [queue[n]];
    }
  }

  /** Draining one file's placeholders loses none, duplicates none, and disturbs no other file's. */
  lemma {:induction false} DrainPartitions(queue: seq<PlaceholderEdge>, filePath: string)
    ensures multiset(ParkedFor(queue, filePath, true)) + multiset(ParkedFor(queue, filePath, false)) == multiset(queue)
    ensures forall p | p in ParkedFor(queue, filePath, true) :: p.filePath == filePath
    ensures forall p | p in ParkedFor(queue, filePath, false) :: p.filePath != filePath
  {
    if queue != [] {
      DrainPartitions(queue[..|queue| - 1], filePath);
      assert queue == queue[..|queue| - 1] + [queue[|queue| - 1]];
    }
  }

  class SymbolGraph {
    const text: TextRules
    var nodes: Nodes
    var edges: Edges
    var adjacency: LinkIndex
    var reverseAdjacency: LinkIndex
    var symbolNameIndex: IdIndex
    var filePathIndex: IdIndex
    var placeholderEdges: seq<PlaceholderEdge>

    ghost predicate Valid()
      reads this
    {
      Indexed(text, nodes, edges, adjacency, reverseAdjacency, symbolNameIndex, filePathIndex)
    }

    constructor (text: TextRules)
      ensures Valid() && this.text == text && nodes == map[] && edges == {} && placeholderEdges == []
    {
      this.text := text;
      nodes, edges := map[], {};
      adjacency, reverseAdjacency := map[], map[];
      symbolNameIndex, filePathIndex := map[], map[];
      placeholderEdges := [];
    }

    constructor FromSnapshot(text: TextRules, nodeList: seq<SymbolNode>, edgeList: seq<SymbolEdge>)
      ensures Valid() && this.text == text && placeholderEdges == []
      ensures nodes == LoadedNodes(nodeList) && edges == Elements(edgeList)
    {
      this.text := text;
      nodes, edges := map[], {};
      adjacency, reverseAdjacency := map[], map[];
      symbolNameIndex, filePathIndex := map[], map[];
      placeholderEdges := [];
      new;
      assert Valid();
      hide Indexed;
      for i := 0 to |nodeList|
        invariant Valid() && nodes == LoadedNodes(nodeList[..i]) && edges == {} && placeholderEdges == []
      {
        UpsertNode(nodeList[i]);
        assert nodeList[..i + 1][..i] == nodeList[..i];
      }
      assert nodeList[..|nodeList|] == nodeList;
      for i := 0 to |edgeList|
        invariant Valid() && nodes == LoadedNodes(nodeList) && placeholderEdges == []
        invariant edges == Elements(edgeList[..i])
      {
        AddEdge(edgeList[i]);
        assert edgeList[..i + 1] == edgeList[..i] + [edgeList[i]];
      }
      assert edgeList[..|edgeList|] == edgeList;
    }

    lemma KeyedNodes(id: string)
      requires Valid()
      ensures id in nodes ==> nodes[id].id == id
    {
    }

    method UpsertNode(node: SymbolNode)
      requires Valid()
      modifies this`nodes, this`symbolNameIndex, this`filePathIndex
      ensures Valid() && nodes == old(nodes)[node.id := node]
    {
      hide Indexed;
      IndexedUpsert(text, nodes, edges, adjacency, reverseAdjacency, symbolNameIndex, filePathIndex, node);
      KeyedNodes(node.id);
      if node.id in nodes {
        var previous := nodes[node.id];
        symbolNameIndex := RemoveEntry(symbolNameIndex, text.lower(previous.name), previous.id);
        filePathIndex := RemoveEntry(filePathIndex, previous.path, previous.id);
      }
      nodes := nodes[node.id := node];
      symbolNameIndex := InsertEntry(symbolNameIndex, text.lower(node.name), node.id);
      filePathIndex := InsertEntry(filePathIndex, node.path, node.id);
    }

    method AddEdge(edge: SymbolEdge)
      requires Valid()
      modifies this`edges, this`adjacency, this`reverseAdjacency
      ensures Valid() && edges == old(edges) + {edge}
    {
      if edge !in edges {
        AddEdgeOutgoing(adjacency, edges, edge);
        AddEdgeIncoming(reverseAdjacency, edges, edge);
        edges := edges + {edge};
        adjacency := InsertEntry(adjacency, edge.from, Link(edge.to, edge.kind));
        reverseAdjacency := InsertEntry(reverseAdjacency, edge.to, Link(edge.from, edge.kind));
      }
    }

    method RemoveEdge(edge: SymbolEdge) returns (removed: bool)
      requires Valid()
      modifies this`edges, this`adjacency, this`reverseAdjacency
      ensures Valid() && edges == old(edges) - {edge}
      ensures removed <==> edge in old(edges)
    {
      if edge !in edges {
        return false;
      }
      RemoveEdgeOutgoing(adjacency, edges, edge);
      RemoveEdgeIncoming(reverseAdjacency, edges, edge);
      edges := edges - {edge};
      adjacency := RemoveEntry(adjacency, edge.from, Link(edge.to, edge.kind));
      reverseAdjacency := RemoveEntry(reverseAdjacency, edge.to, Link(edge.from, edge.kind));
      removed := true;
    }

    method PruneResolvedCallsFromFile(filePath: string)
      requires Valid()
      modifies this`edges, this`adjacency, this`reverseAdjacency
      ensures Valid() && edges == old(edges) - PruneVictims(nodes, old(edges), filePath)
      ensures forall e :: e in edges <==>
                e in old(edges)
                && !(e.kind in {Calls, Implements, Inherits} && e.from in nodes && nodes[e.from].path == filePath)
    {
      hide Indexed;
      var listed := AllEdges();
      var victims := FilterVictims(listed, filePath);
      RemoveEdges(victims);
    }

    method FilterVictims(listed: seq<SymbolEdge>, filePath: string) returns (victims: seq<SymbolEdge>)
      ensures Elements(victims) == PruneVictims(nodes, Elements(listed), filePath)
    {
      victims := [];
      for i := 0 to |listed|
        invariant Elements(victims) == PruneVictims(nodes, Elements(listed[..i]), filePath)
      {
        var e := listed[i];
        PruneNext(nodes, listed[..i], e, filePath);
        assert listed[..i + 1] == listed[..i] + [e];
        if ResolverManaged(e.kind) && e.from in nodes && nodes[e.from].path == filePath {
          ElementsAppend(victims, e);
          victims := victims + [e];
        }
      }
      assert listed[..|listed|] == listed;
    }

    method RemoveEdges(victims: seq<SymbolEdge>)
      requires Valid()
      modifies this`edges, this`adjacency, this`reverseAdjacency
      ensures Valid() && edges == old(edges) - Elements(victims)
    {
      hide Indexed;
      for i := 0 to |victims|
        invariant Valid() && edges == old(edges) - Elements(victims[..i])
      {
        assert victims[..i + 1] == victims[..i] + [victims[i]];
        ElementsAppend(victims[..i], victims[i]);
        var _ := RemoveEdge(victims[i]);
      }
      assert victims[..|victims|] == victims;
    }

    method PushPlaceholder(placeholder: PlaceholderEdge)
      modifies this`placeholderEdges
      ensures placeholderEdges == old(placeholderEdges) + [placeholder]
    {
      placeholderEdges := placeholderEdges + [placeholder];
    }

    method TakePlaceholders() returns (drained: seq<PlaceholderEdge>)
      modifies this`placeholderEdges
      ensures drained == old(placeholderEdges) && placeholderEdges == []
    {
      drained := placeholderEdges;
      placeholderEdges := [];
    }

    method TakePlaceholdersForFile(filePath: string) returns (drained: seq<PlaceholderEdge>)
      modifies this`placeholderEdges
      ensures drained == ParkedFor(old(placeholderEdges), filePath, true)
      ensures IsSelection(old(placeholderEdges), drained, InFile(filePath))
      ensures IsSelection(old(placeholderEdges), placeholderEdges, Elsewhere(filePath))
      ensures placeholderEdges == ParkedFor(old(placeholderEdges), filePath, false)
    {
      var keep: seq<PlaceholderEdge> := [];
      drained := [];
      var taken := placeholderEdges;
      for i := 0 to |taken|
        invariant drained == ParkedFor(taken[..i], filePath, true)
        invariant keep == ParkedFor(taken[..i], filePath, false)
      {
        assert taken[..i + 1][..i] == taken[..i];
        if taken[i].filePath == filePath {
          drained := drained + [taken[i]];
        } else {
          keep := keep + [taken[i]];
        }
      }
      assert taken[..|taken|] == taken;
      ParkedInOrder(taken, filePath, true);
      ParkedInOrder(taken, filePath, false);
      placeholderEdges := keep;
    }

    method NodesInFile(filePath: string) returns (found: set<SymbolNode>)
      requires Valid()
      ensures found == set id | id in IdsInFile(nodes, filePath) :: nodes[id]
      ensures forall n :: n in found <==> n.id in nodes && nodes[n.id] == n && n.path == filePath
    {
      var ids := PathBucket(filePath);
      found := set id | id in ids && id in nodes :: nodes[id];
    }

    method AllNodes() returns (listed: seq<SymbolNode>)
      requires Valid()
      ensures listed == NodeListing(nodes)
    {
      NodesOrdered(nodes);
      listed := Sort(nodes.Values, NodeLess);
    }

    method AllEdges() returns (listed: seq<SymbolEdge>)
      ensures listed == EdgeListing(edges)
    {
      EdgesOrdered(edges);
      listed := Sort(edges, EdgeLess);
    }

    method Neighbors(id: string, kinds: Kinds) returns (ordered: seq<string>)
      requires Valid()
      ensures ordered == SortedIds(NeighborIds(edges, kinds, id))
      ensures forall other :: other in ordered <==> Linked(edges, kinds, id, other)
    {
      hide Linked, NeighborIds, StringLess, LinkedIds, NoEmptyBucket, Inverts;
      NeighborsListed(edges, kinds, id);
      NeighborsFromIndexes(edges, adjacency, reverseAdjacency, kinds, id);
      hide Indexed, ProjectsOutgoing, ProjectsIncoming;
      var found: set<string> := {};
      if id in adjacency {
        found := found + LinkedIds(adjacency[id], kinds);
      }
      if id in reverseAdjacency {
        found := found + LinkedIds(reverseAdjacency[id], kinds);
      }
      assert found == NeighborIds(edges, kinds, id);
      StringsOrdered(found);
      ordered := Sort(found, StringLess);
    }

    method ResolveRoots(mode: GraphQueryMode, value: string) returns (roots: seq<string>)
      requires Valid()
      ensures roots == Roots(nodes, text, mode, value)
    {
      hide Indexed, StringLess, StrictlySorted;
      var wanted := text.trim(value);
      if wanted == "" {
        return [];
      }
      var found: set<string>;
      match mode {
        case NodeId =>
          found := if wanted in nodes then {wanted} else {};
          SortedSingleton(if wanted in nodes then [wanted] else []);
          assert found == Elements(if wanted in nodes then [wanted] else []);
        case FilePath =>
          var candidates := PathBucket(wanted);
          var fileRoots := set id | id in candidates && id in nodes && nodes[id].kind == File;
          assert fileRoots == FileIds(nodes, wanted);
          found := if fileRoots == {} then candidates else fileRoots;
        case SymbolName =>
          found := NameBucket(text.lower(wanted));
      }
      StringsOrdered(found);
      roots := Sort(found, StringLess);
    }

    method PathBucket(path: string) returns (ids: set<string>)
      requires Valid()
      ensures ids == IdsInFile(nodes, path)
    {
      hide Indexed;
      IndexedLookups(text, nodes, edges, adjacency, reverseAdjacency, symbolNameIndex, filePathIndex, path);
      ids := if path in filePathIndex then filePathIndex[path] else {};
    }

    method NameBucket(loweredName: string) returns (ids: set<string>)
      requires Valid()
      ensures ids == IdsNamed(nodes, text, loweredName)
    {
      hide Indexed;
      IndexedLookups(text, nodes, edges, adjacency, reverseAdjacency, symbolNameIndex, filePathIndex, loweredName);
      ids := if loweredName in symbolNameIndex then symbolNameIndex[loweredName] else {};
    }

    method Query(request: GraphQueryRequest) returns (answer: GraphQueryResponse)
      requires Valid()
      ensures answer == Answer(nodes, edges, text, request)
      ensures answer.truncated <==>
              |Ball(edges, KindSet(request.edgeKinds), Elements(answer.roots), request.depth)| > request.limit
      ensures answer.stats == GraphQueryStats(|answer.roots|, |answer.nodes|, |answer.edges|,
                                              request.depth, request.limit)
    {
      AnswerTells(nodes, edges, text, request);
      hide Indexed, Explored, Roots, Ball, Within, KeyedById, StoredAmong, InducedEdges, NodeListing, EdgeListing;
      var roots := ResolveRoots(request.mode, request.value);
      if roots == [] {
        return GraphQueryResponse(roots, [], [], false, GraphQueryStats(0, 0, 0, request.depth, request.limit));
      }
      var kinds := KindSet(request.edgeKinds);
      var visited, truncated := Visit(roots, kinds, request.depth, request.limit);
      var listedNodes, listedEdges := Induced(visited, kinds);
      var stats := GraphQueryStats(|roots|, |listedNodes|, |listedEdges|, request.depth, request.limit);
      answer := GraphQueryResponse(roots, listedNodes, listedEdges, truncated, stats);
      ExploredIs(nodes, edges, text, request);
    }

    /** The last part of `Query`: the stored nodes visited and the allowed edges between visited ids, sorted. */
    method Induced(visited: set<string>, kinds: Kinds)
      returns (listedNodes: seq<SymbolNode>, listedEdges: seq<SymbolEdge>)
      requires Valid()
      ensures KeyedById(nodes) && listedNodes == NodeListing(StoredAmong(nodes, visited))
      ensures listedEdges == EdgeListing(InducedEdges(edges, kinds, visited))
    {
      hide ProjectsOutgoing, ProjectsIncoming, Inverts, EdgeLess, NodeLess;
      ghost var stored := StoredAmong(nodes, visited);
      var keptNodes := set id | id in visited && id in nodes :: nodes[id];
      assert keptNodes == stored.Values by {
        forall n | n in keptNodes ensures n in stored.Values { assert stored[n.id] == n; }
      }
      NodesOrdered(stored);
      listedNodes := Sort(keptNodes, NodeLess);

      var all := AllEdges();
      assert Elements(all) == edges;
      var keptEdges := set e | e in all && e.from in visited && e.to in visited && Allowed(kinds, e.kind);
      assert keptEdges == InducedEdges(edges, kinds, visited) by {
        forall e ensures e in all <==> e in edges { assert e in all <==> e in Elements(all); }
      }
      EdgesOrdered(keptEdges);
      listedEdges := Sort(keptEdges, EdgeLess);
    }

    /** The traversal loop of `Query`. */
    method Visit(roots: seq<string>, kinds: Kinds, depth: nat, limit: nat)
      returns (visited: set<string>, truncated: bool)
      requires Valid()
      ensures Traversal(visited, truncated) == Traverse(edges, kinds, depth, limit, RootEntries(roots), {})
    {
      hide Indexed, Traverse, Pushed, NeighborIds, EntryIds, EdgeIds, StrictlySorted, Elements;
      visited, truncated := {}, false;
      var queue := RootEntries(roots);
      while queue != []
        invariant Traverse(edges, kinds, depth, limit, queue, visited)
               == Traverse(edges, kinds, depth, limit, RootEntries(roots), {})
        decreases EdgeIds(edges) + EntryIds(queue) - visited, |queue|
      {
        TraverseSteps(edges, kinds, depth, limit, queue, visited);
        var head := queue[0];
        queue := queue[1..];
        if head.id !in visited {
          if |visited| == limit {
            truncated := true;
            return;
          }
          visited := visited + {head.id};
          if head.depth < depth {
            var neighbors := Neighbors(head.id, kinds);
            queue := Enqueue(queue, neighbors, visited, head.depth + 1);
          }
        }
      }
      TraverseEnds(edges, kinds, depth, limit, visited);
    }

    /** The inner loop of the traversal: queue every neighbour not yet visited. */
    static method Enqueue(queue: seq<Entry>, neighbors: seq<string>, visited: set<string>, depth: nat)
      returns (longer: seq<Entry>)
      ensures longer == queue + Pushed(neighbors, visited, depth)
    {
      longer := queue;
      for i := 0 to |neighbors|
        invariant longer == queue + Pushed(neighbors[..i], visited, depth)
      {
        assert neighbors[..i + 1][..i] == neighbors[..i];
        if neighbors[i] !in visited {
          longer := longer + [Entry(neighbors[i], depth)];
        }
      }
      assert neighbors[..|neighbors|] == neighbors;
    }
  }

  /** Write a snapshot and load it again: the copy has the same nodes, edges and indexes,
      so it answers every query the same. */
  method Reload(graph: SymbolGraph) returns (copy: SymbolGraph)
    requires graph.Valid()
    ensures fresh(copy) && copy.Valid() && copy.text == graph.text
    ensures copy.nodes == graph.nodes && copy.edges == graph.edges
    ensures copy.adjacency == graph.adjacency && copy.reverseAdjacency == graph.reverseAdjacency
    ensures copy.symbolNameIndex == graph.symbolNameIndex && copy.filePathIndex == graph.filePathIndex
  {
    var nodeList := graph.AllNodes();
    var edgeList := graph.AllEdges();
    copy := new SymbolGraph.FromSnapshot(graph.text, nodeList, edgeList);
    SnapshotReloads(graph.nodes, graph.edges);
    IndexesDetermined(graph.text, graph.nodes, graph.edges,
                      graph.adjacency, graph.reverseAdjacency, graph.symbolNameIndex, graph.filePathIndex,
                      copy.adjacency, copy.reverseAdjacency, copy.symbolNameIndex, copy.filePathIndex);
  }
}
