# AI Editor: a verified model

This project models the parts of the AI Editor that keep hard state, and proves what they keep:

- **The symbol graph of the indexer** (`services/indexer-rs`): a node map and an edge set with four
  derived indexes, the bounded search that answers graph queries, snapshots, and the resolver pass
  that rewrites edges from language-server answers.
- **The edit engine of a chat turn** (`services/agentd-py`): the patch engine, the per-turn shadow
  that is promoted or undone batch by batch, and the controller loop that drives it under a model
  that may answer anything.
- **The turn protocol of a chat thread**: registry slot, held-open review gates, timeouts, stops and
  restarts, and the conversation history and checklist that cross turns, as a state machine whose
  steps are the code sections between two awaits.
- **The wire formats and stream readers**: language-server framing, `file://` URIs, the chunked
  server-sent-event readers, and the callback-to-iterator queue of the editor client.
- **Three smaller machines**: language-server session slots with their restart budget, the chat
  transcript's in-flight pills and plan versions, and the task status machine.

## How it is laid out

| file | models |
|---|---|
| `Wrappers.dfy` | the value that may be missing |
| `Ordering.dfy` | sorted listings, and why a set has only one |
| `GraphModel.dfy` | the graph as plain sets: roots, neighbours, the search as a function, the answer |
| `QueryProofs.dfy` | distance defined by walks, and the search measured against it |
| `SymbolGraphs.dfy` | the `SymbolGraph` object with its indexes, updated in place |
| `Resolver.dfy` | the resolver pass over a `SymbolGraph` |
| `PatchEngine.dfy` | preflight and the pass over the operations |
| `EditSession.dfy` | the `TurnEditSession` object and its refinement proof |
| `TodoLedgers.dfy` | the checklist, its stored copy and its one writer |
| `ControllerPhases.dfy` | the one-way phases and the actions they admit |
| `ControllerLoop.dfy` | the loop and what every run keeps |
| `TurnProtocol.dfy` | the thread's state machine and its invariant |
| `ChatController.dfy` | the controller's methods that move that machine, each proved to take one step of it |
| `LspFraming.dfy`, `FileUris.dfy` | framing and URIs |
| `EventStreams.dfy`, `PatchEventQueue.dfy` | the client's stream readers and its queue |
| `SessionSlots.dfy`, `ChatTranscript.dfy`, `TaskStates.dfy` | the smaller machines |

Objects whose methods update fields are classes. Each method's `ensures` ties the new state to a
function of the old one, and the lemmas reason about those functions. What the code cannot know in
advance is a parameter that may be anything: the model's responses, the user's decisions, the
oracle's locations, whether a server starts, how bytes are cut into chunks.

## Where the code and its documentation disagree

The model follows the code; each disagreement is stated as a lemma.

- `edit_session.py:3-7` promises that shadow and workspace agree at every patch boundary. They need
  not: the patch engine notes an operation that raises and goes on with the others, so a batch that
  raises may leave writes in the shadow (`engine.py:1018-1054`), and `delete_file` leaves a plain file
  where it is (`engine.py:413-421`). `EditSession.FailedBatchLeaksIntoNext` is a two-batch turn that
  promotes text nobody accepted. `EditSession.RaisedBatch` and `EditSession.FaithfulIffHarmless` say
  exactly when the promise holds: if and only if a batch that passes preflight and then raises wrote
  nothing new, which is a condition on the workspace and the batch before the call.
- `controller.py:157-163` promises that a turn always gives its registry slot back. A turn cancelled
  before its first section never reaches the `finally`: `TurnProtocol.EarlyStopWedges`. It is the only
  way, and only a restart frees the thread: `WedgedOnlyByEarlyCancel`, `WedgedUntilRestart`.
- `controller.py:625-626` promises that a decision never changes the stored gate while its turn waits.
  `TurnProtocol.DecisionChangesGateIff` says when a decision does, in any state: exactly when it is for that
  gate and no future waits, which while its turn is suspended means that the future is already done
  (decided, timed out or stopped) with the turn not yet resumed.
  `TurnProtocol.SecondDecisionClearsLiveGate` is a run from the start that gets there.
- `resolver.rs:119-133` replaces a fallback edge by the resolved one. When a later placeholder's
  fallback is the same triple as an earlier resolved edge, that edge is lost again, as it is for two
  calls of one function whose external node lies nearest to the first answer:
  `Resolver.LaterFallbackTakesResolvedEdge`. `Resolver.SurvivesIffRedrawn` is the exact condition on the
  nodes and the answers, for any graph, with ties between equally near nodes broken in any way;
  `Resolver.SurvivesIffDrawn` is the exact condition for a pass that breaks them in one given order; and
  `Resolver.NoExternalTargetsSurvive` is a simple condition that suffices.
- `edit_session.py:96-99` is to promote an accepted patch. An accepted deletion of a plain file is
  reported as applied and deletes nothing: the engine leaves the file in the shadow
  (`engine.py:413-421`), and promotion copies it back as it was. `EditSession.AcceptedDeleteKeepsFile`;
  no turn ever removes a file from the real workspace: `EditSession.NothingVanishes`.
- `controller.py:315` and `controller.py:649` call `run_command` a tool of editing turns. It is turned
  back only while deciding, so an explaining turn runs commands and raises their gates too:
  `ControllerLoop.CommandsBarredOnlyWhileDeciding`.
- `controller_prompts.py:91-93` forbids an explaining turn to propose a mode again. One that asks a question
  comes back deciding when it is answered, and may: `TurnProtocol.AnswerResumesLoop`.

## Model

| member | source | states |
|---|---|---|
| QueryProofs.QueryVisitsNearest | services/indexer-rs/src/graph.rs:294-383 | for every graph and request: truncated exactly when more ids lie within the depth than the limit; untruncated, the visited ids are exactly those with a walk of allowed edges, in either direction, of at most that length; truncated, exactly `limit` are visited and no id left out is nearer than one taken |
| QueryProofs.QueryAnswerContents | services/indexer-rs/src/graph.rs:346-382 | for every request, rootless ones included: the answer's nodes are the stored ones visited, its edges exactly those of an allowed kind between visited ids, both strictly sorted; without roots both are empty |
| QueryProofs.AnswerTells | services/indexer-rs/src/graph.rs:294-383 | on the answer's own fields, for every request: it says truncated if and only if more ids lie within the depth of its roots than the limit, and its statistics are the lengths of its own lists with the depth and limit asked for |
| GraphModel.RootsAre | services/indexer-rs/src/graph.rs:385-438 | the roots mode by mode: the stored id asked for; every node whose lower-cased name is the lower-cased one asked for; every file node of the path, or all of its nodes if it has none; none for a blank value |
| GraphModel.AllowedKinds | services/indexer-rs/src/graph.rs:312-316 | a request allows every kind unless it lists some, and then exactly those |
| GraphModel.PushedInOrder | services/indexer-rs/src/graph.rs:339-343 | an expansion queues exactly the unvisited neighbours, in the order listed |
| GraphModel.ListingsOrdered | services/indexer-rs/src/graph.rs:349-368 | nodes are listed by id; edges by source, then target, then kind name |
| GraphModel.KindsByName | services/indexer-rs/src/graph.rs:363-368 | the printed names the kinds sort by, and no two alike |
| Ordering.StringLessIsDictionary | services/indexer-rs/src/graph.rs:271 | strings compare as in a dictionary: at the first place where they differ, or the shorter first |
| QueryProofs.TraverseNearestFirst | services/indexer-rs/src/graph.rs:318-344 | from any state the loop can be in, with duplicates queued at two depths, the search ends having taken ids in order of distance |
| QueryProofs.BallIsDistance | services/indexer-rs/src/graph.rs:325-344 | the layered ball the search fills and the set of ids within a walk distance are the same |
| GraphModel.TraverseSteps | services/indexer-rs/src/graph.rs:325-344 | each turn of the loop shrinks a measure, so the search terminates for every graph, limit and depth |
| SymbolGraphs.SymbolGraph.Query | services/indexer-rs/src/graph.rs:294-383 | the in-place search over the indexes returns the answer defined on the plain node map and edge set; it is truncated if and only if the ball around its roots holds more ids than the limit, and its statistics count its own lists |
| SymbolGraphs.SymbolGraph.Induced | services/indexer-rs/src/graph.rs:346-368 | the stored nodes visited and the allowed edges between visited ids, sorted |
| SymbolGraphs.SymbolGraph.Visit | services/indexer-rs/src/graph.rs:316-344 | the queue loop, marking ids only when popped, computes the traversal |
| SymbolGraphs.SymbolGraph.Enqueue | services/indexer-rs/src/graph.rs:339-343 | appends every neighbour not yet visited, in order, possibly again |
| SymbolGraphs.SymbolGraph.ResolveRoots | services/indexer-rs/src/graph.rs:385-438 | roots by id, by path (file nodes first, else all nodes of the file) or by lower-cased name equal a scan of the node map, sorted |
| SymbolGraphs.SymbolGraph.Neighbors | services/indexer-rs/src/graph.rs:440-474 | the two adjacency buckets give exactly a scan of the edge set, sorted |
| SymbolGraphs.NeighborsFromIndexes | services/indexer-rs/src/graph.rs:447-469 | outgoing and incoming buckets together are the undirected neighbours in the edge set |
| SymbolGraphs.SymbolGraph.NodesInFile | services/indexer-rs/src/graph.rs:177-182 | the path index gives exactly the stored nodes of the file |
| SymbolGraphs.SymbolGraph.UpsertNode | services/indexer-rs/src/graph.rs:132-147 | stores the node, replacing one of the same id, and keeps all four indexes exact with no empty bucket |
| SymbolGraphs.SymbolGraph.AddEdge | services/indexer-rs/src/graph.rs:149-163 | adds the edge to the set and to both adjacency indexes, keeping them exact projections |
| SymbolGraphs.SymbolGraph.RemoveEdge | services/indexer-rs/src/graph.rs:223-241 | removes exactly the edge, reports whether it was there, and drops buckets that become empty |
| SymbolGraphs.SymbolGraph.PruneResolvedCallsFromFile | services/indexer-rs/src/graph.rs:249-267 | removes exactly the calls, implements and inherits edges whose source node is stored in the file |
| SymbolGraphs.SymbolGraph.FilterVictims | services/indexer-rs/src/graph.rs:251-263 | selects exactly those edges from a listing |
| SymbolGraphs.SymbolGraph.PushPlaceholder | services/indexer-rs/src/graph.rs:188-190 | parks one placeholder at the end of the queue |
| SymbolGraphs.SymbolGraph.TakePlaceholders | services/indexer-rs/src/graph.rs:195-197 | hands out the whole queue and leaves it empty |
| SymbolGraphs.SymbolGraph.TakePlaceholdersForFile | services/indexer-rs/src/graph.rs:202-217 | splits the queue by file: what it hands out is the file's placeholders, what stays the others, each in queue order |
| SymbolGraphs.ParkedInOrder | services/indexer-rs/src/graph.rs:202-217 | a file's placeholders, and the rest, are selections of the queue in its order |
| SymbolGraphs.DrainPartitions | services/indexer-rs/src/graph.rs:199-217 | draining one file's placeholders loses none, repeats none and disturbs no other file's |
| SymbolGraphs.SymbolGraph.AllNodes | services/indexer-rs/src/graph.rs:269-273 | the unique listing of the nodes sorted by id |
| SymbolGraphs.SymbolGraph.AllEdges | services/indexer-rs/src/graph.rs:275-292 | the unique listing of the edges sorted by source, target and kind name |
| SymbolGraphs.SymbolGraph.FromSnapshot | services/indexer-rs/src/graph.rs:121-130 | loads a node list, last entry of an id winning, and an edge list into a graph with exact indexes |
| SymbolGraphs.LastEntryWins | services/indexer-rs/src/graph.rs:121-130 | of several snapshot entries with one id the last is stored |
| SymbolGraphs.SnapshotReloads | services/indexer-rs/src/graph.rs:121-130 | loading a snapshot's listings gives back the same node map and edge set |
| SymbolGraphs.SnapshotIsCanonical | services/indexer-rs/src/graph.rs:269-292 | a snapshot is the only sorted listing of its contents, so graphs with equal contents write identical snapshots whatever the insertion order |
| SymbolGraphs.IndexesDetermined | services/indexer-rs/src/graph.rs:120-163 | the node map and edge set determine all four indexes, whatever history reached them |
| SymbolGraphs.Reload | services/indexer-rs/src/graph.rs:121-130 | writing a snapshot and loading it gives a graph equal in nodes, edges and all four indexes |
| SymbolGraphs.IndexedUpsert | services/indexer-rs/src/graph.rs:132-147 | dropping the replaced node's index entries before inserting the new ones keeps every index an exact inverse |
| SymbolGraphs.IndexedLookups | services/indexer-rs/src/graph.rs:177-182 | name and path buckets are brute-force scans of the node map |
| Ordering.ListingIsUnique | services/indexer-rs/src/graph.rs:269-292 | two strictly sorted listings of one set are the same sequence |
| Resolver.EdgesAfterPass | services/indexer-rs/src/resolver.rs:86-168 | for every placeholder list and oracle, exactly which edges a pass leaves: an edge is there if and only if its last addition was not followed by a drop, or it was there before and nothing dropped it |
| Resolver.ResolvedEdgeSurvives | services/indexer-rs/src/resolver.rs:119-133 | a resolved edge is there at the end if and only if every later drop of the same triple is made good |
| Resolver.PassRewritesFallbacks | services/indexer-rs/src/resolver.rs:86-168 | if no chosen declaration is a placeholder's external id, every resolved placeholder ends with its edge; only fallback edges of resolved placeholders are lost; everything else added is a non-self-loop implements edge between stored nodes |
| Resolver.SurvivesIffRedrawn | services/indexer-rs/src/resolver.rs:96-206 | told from any nodes and answers before the pass: a resolved edge survives, however ties are broken, if and only if every later placeholder that clears it is made good by one, at or after it, that is bound to draw it; it survives for some way of breaking ties if and only if each is made good by one that can |
| Resolver.SurvivesIffDrawn | services/indexer-rs/src/resolver.rs:96-206 | with ties broken in one given order, as within a pass: the pass follows the rules, and a resolved edge survives if and only if every later placeholder that clears it is made good by one, at or after it, that draws it |
| Resolver.NoExternalTargetsSurvive | services/indexer-rs/src/resolver.rs:119-133 | if no node that any definition could be mapped to is a placeholder's external id, every resolved edge survives |
| Resolver.DrawBounds | services/indexer-rs/src/resolver.rs:119-167 | a placeholder adds only edges it can draw, and every edge it is bound to draw |
| Resolver.FanOutBounds | services/indexer-rs/src/resolver.rs:151-167 | fan-out emits only nodes nearest to an implementation other than the definition, never the declaration, and every node that is the only nearest one |
| Resolver.PickVerdict | services/indexer-rs/src/resolver.rs:96-206 | ties can be broken so that a placeholder adds an edge it can draw, or leaves out one it is not bound to draw |
| Resolver.WithoutTies | services/indexer-rs/src/resolver.rs:195-204 | where no two nodes of a file share a line, what a placeholder can draw it is bound to draw |
| Resolver.LaterFallbackTakesResolvedEdge | services/indexer-rs/src/resolver.rs:122-132 | without that proviso it fails: for two calls of one function, with nodes shaped as the parser makes them and two answers, the pass can only end without the first call's resolved edge |
| Resolver.TwoCallsFollow | services/indexer-rs/src/resolver.rs:96-133 | those nodes and answers do yield the two verdicts |
| Resolver.ResolveInner | services/indexer-rs/src/resolver.rs:86-178 | the loop over placeholders rewrites the graph by verdicts that follow the rules, nodes untouched, with total = resolved + none + external |
| Resolver.ResolveOne | services/indexer-rs/src/resolver.rs:96-168 | one placeholder: no answer, answer outside the workspace, or fallback replaced and implementations fanned out for calls only |
| Resolver.FanOut | services/indexer-rs/src/resolver.rs:151-167 | each implementation that is not the definition, lies in the workspace and is not the declaration's own node gets one implements edge |
| Resolver.ImplementersDiffer | services/indexer-rs/src/resolver.rs:151-167 | no fan-out edge is a self-loop, and each starts at a stored node |
| Resolver.NearestNodeAt | services/indexer-rs/src/resolver.rs:186-206 | for a zero-based location below the last 32-bit line: finds a stored node of the file with 0 < line <= location line + 1 and no node of the file strictly between, if there is one at all; ties are open |
| Resolver.NearestMeans | services/indexer-rs/src/resolver.rs:180-206 | the look-up relation in direct words: the node is of the file, on the one-based line of the location or above it, and no node of the file lies strictly between |
| Resolver.NoneAboveMeans | services/indexer-rs/src/resolver.rs:180-206 | no node is found exactly when every node of the file is lineless or below the location |
| Resolver.AtOrAboveMeans | services/indexer-rs/src/resolver.rs:188-196 | which nodes a location can mean, with the wrap-around on the last 32-bit line |
| Resolver.AdjacentLines | services/indexer-rs/src/resolver.rs:188-204 | a class and its method on adjacent lines: line 0 of the server means the class, line 1 the method |
| Resolver.CountersAddUp | services/indexer-rs/src/resolver.rs:169-177 | the logged counters account for every placeholder exactly once |
| PatchEngine.ApplyPatchCandidate | services/agentd-py/agentd/patch/engine.py:994-1056 | preflight first; then every operation, each failure noted and passed over, writes kept, raising at the end if any failed; when it applies, every file ends with the text its operations, in order, give it |
| PatchEngine.AppliesIff | services/agentd-py/agentd/patch/engine.py:648-1056 | for every batch: it raises with the files untouched unless each operation can be planned after the ones before it, no file is forbidden and every planned text parses; otherwise it leaves what the pass wrote, and applies if and only if no operation failed in the pass |
| PatchEngine.PassMeans | services/agentd-py/agentd/patch/engine.py:1018-1054 | the pass over any batch, step by step: an operation that fails writes nothing, any other changes its own file as it says and no other; it raises if and only if some operation failed |
| PatchEngine.PreflightMeans | services/agentd-py/agentd/patch/engine.py:648-992 | preflight passes if and only if there are simulated sources, one after each operation, that each operation may lead to, and the last ones parse |
| PatchEngine.AppliedTexts | services/agentd-py/agentd/patch/engine.py:1018-1056 | when a batch applies, each file's final text comes from the operations on that file in order: created with the content, edited to the write's result of the text before, left as it was by a deletion |
| PatchEngine.CreatedFileHoldsContent | services/agentd-py/agentd/patch/engine.py:401-411 | a created file that no later operation edits holds exactly the content given |
| PatchEngine.LoneOp | services/agentd-py/agentd/patch/engine.py:401-421 | the exact outcome of a batch of one operation: when it applies, and the files it leaves |
| PatchEngine.ApplyLocal | services/agentd-py/agentd/patch/engine.py:994-1056 | a batch behaves the same on two workspaces that agree on the files it names |
| PatchEngine.ApplyFrame | services/agentd-py/agentd/patch/engine.py:994-1056 | a batch, applied or raised, changes only files it names and is allowed to change, removes none, and when applied leaves all of them existing |
| EditSession.TurnRefinesDirect | services/agentd-py/agentd/chat/edit_session.py:71-110 | whatever batches a turn makes and whichever are accepted, if each raising batch is harmless the real workspace ends as if only the accepted batches had been applied, in order, straight to the initial workspace |
| EditSession.RunRefinesDirect | services/agentd-py/agentd/chat/edit_session.py:71-110 | the same from any mirrored state, with shadow == real kept on every file ever touched |
| EditSession.AppliedBatch | services/agentd-py/agentd/chat/edit_session.py:88-110 | a batch that applies changes the real workspace exactly as direct application would, if accepted, and not at all, if rejected; the mirror is kept |
| EditSession.AcceptedTexts | services/agentd-py/agentd/chat/edit_session.py:88-99 | after an accepted batch from a mirrored session every file of the real workspace holds what the operations on it, in order, make of its text there |
| EditSession.RaisedBatch | services/agentd-py/agentd/chat/edit_session.py:88-94 | a batch that raises never changes the real workspace, and keeps the mirror if and only if it was harmless |
| EditSession.FaithfulIffMirrored | services/agentd-py/agentd/chat/edit_session.py:3-7 | mirroring is exactly what later fidelity needs: from an unmirrored state some harmless accepted batch promotes unaccepted text |
| EditSession.FaithfulIffHarmless | services/agentd-py/agentd/chat/edit_session.py:88-110 | for every batch from a mirrored state, the session stays faithful if and only if the batch was harmless |
| EditSession.PromotesStray | services/agentd-py/agentd/chat/edit_session.py:96-99 | the promoting batch is a lone delete, which leaves the stray text in place and counts it as touched |
| EditSession.FailedBatchLeaksIntoNext | services/agentd-py/agentd/patch/engine.py:1018-1054 | a concrete turn: a raising batch's edit reaches the real workspace with the next accepted edit |
| EditSession.TurnKeeps | services/agentd-py/agentd/chat/edit_session.py:71-110 | in every state a turn can reach, whatever its batches did, the shadow holds only touched, valid paths, and a file that differs from the real one was allowed to change |
| EditSession.BatchKeeps | services/agentd-py/agentd/chat/edit_session.py:71-110 | one batch keeps that |
| EditSession.NothingVanishes | services/agentd-py/agentd/workspace/promote.py:12-19 | no turn, whatever it deletes and has accepted, removes a file from the real workspace |
| EditSession.TouchedAre | services/agentd-py/agentd/patch/engine.py:1056 | a patch reports the files its operations name, each once and sorted |
| EditSession.AcceptedDeleteKeepsFile | services/agentd-py/agentd/patch/engine.py:413-421 | an accepted deletion of any allowed plain file applies without error and leaves the workspace as it was |
| EditSession.TurnEditSession.EnsureShadow | services/agentd-py/agentd/chat/edit_session.py:71-86 | first a copy of the named files, later only files the shadow has never held |
| EditSession.SeededFile | services/agentd-py/agentd/chat/edit_session.py:71-86 | file by file: a named file the shadow has never held is as in the real workspace, any other as the shadow had it |
| EditSession.TurnEditSession.Apply | services/agentd-py/agentd/chat/edit_session.py:88-94 | validates, seeds, patches; on a raise the seeded and half-patched shadow and the old pending list stay |
| EditSession.ValidFileMeans | services/agentd-py/agentd/chat/edit_session.py:36-51 | which paths an operation may name: a non-blank line of at most 255 characters, relative, with no part `..` |
| EditSession.TurnEditSession.Accept | services/agentd-py/agentd/chat/edit_session.py:96-99 | copies each pending file that exists in the shadow to the real workspace |
| EditSession.AcceptedFile | services/agentd-py/agentd/chat/edit_session.py:96-99 | file by file: a pending file that exists in the shadow is copied, no other is touched |
| EditSession.TurnEditSession.Reject | services/agentd-py/agentd/chat/edit_session.py:101-110 | restores each pending file from the real workspace, dropping those that do not exist there |
| EditSession.RejectedFile | services/agentd-py/agentd/chat/edit_session.py:101-110 | file by file: a pending file is again as in the real workspace, or gone; no other is touched |
| EditSession.TurnEditSession.RunTurn | services/agentd-py/agentd/chat/controller_loop.py:513-600 | batches one after another, promoted or undone as decided, reach the state the refinement is about |
| TodoLedgers.Pending | services/agentd-py/agentd/chat/todo_ledger.py:40-41 | nothing is listed as open exactly when no item is pending or in progress |
| TodoLedgers.NothingPendingIff | services/agentd-py/agentd/chat/todo_ledger.py:36-37 | nothing is listed if and only if no item is pending or in progress; with known statuses, if and only if every item is done, blocked or cancelled |
| TodoLedgers.PendingListing | services/agentd-py/agentd/chat/todo_ledger.py:36-37 | the listing holds exactly the items that are pending or in progress, in order |
| TodoLedgers.TodoLedger.WriteTodos | services/agentd-py/agentd/chat/todo_source.py:67-89 | replaces the whole list item by item and writes it through to the store, or, if any item is bad, leaves both as they were; a stored copy that agreed still agrees |
| TodoLedgers.TodoLedger.constructor | services/agentd-py/agentd/chat/controller.py:299 | a loop's ledger starts as the stored one |
| TodoLedgers.TodoLedger.Settle | services/agentd-py/agentd/chat/controller.py:397-401 | a finished request drops the stored list, an unfinished one keeps it so that it loads back unchanged |
| ControllerPhases.ControllerPhaseSM.Enter | services/agentd-py/agentd/chat/controller_phase.py:23-31 | a phase is entered from DECIDE only, else nothing changes |
| ControllerLoop.Run | services/agentd-py/agentd/chat/controller_loop.py:227-631 | for every sequence of responses and user decisions, the loop's events are a prescribed run that ends as the rules say; the conversation grows by exactly what each event records; the ledger is the last list written and the stored one stays the loop's own; the dispatch never falls through; the shadow is closed on every exit |
| ControllerLoop.ActedOnIff | services/agentd-py/agentd/chat/controller_loop.py:94-160 | which responses are acted on, action by action, with the fields, modes and phases spelled out; every other one is turned back |
| ControllerLoop.ResponseFate | services/agentd-py/agentd/chat/controller_loop.py:362-629 | what becomes of the n-th response of any run: turned back, answered, asked, proposed; an edit is empty, fails, or is applied and kept if and only if the session or the user accepts it; a submit goes through if and only if no item is pending or in progress |
| ControllerLoop.ToolCallFate | services/agentd-py/agentd/chat/controller_loop.py:395-467 | what becomes of a well-formed tool call: with the budget spent it ends the loop, an earlier execution under the same key blocks it, otherwise it is executed; only `write_todos` rewrites the ledger |
| ControllerLoop.SameKeyIff | services/agentd-py/agentd/reasoning/react_common.py:23-29 | two calls are one to the duplicate guard if and only if tool and arguments agree, the context lines of a code search apart |
| ControllerLoop.LedgerIsLastRewrite | services/agentd-py/agentd/chat/todo_ledger.py:32-34 | the ledger is the list carried in until it is rewritten, and then the last list written |
| ControllerLoop.LedgerStaysKnown | services/agentd-py/agentd/chat/todo_source.py:67-89 | a ledger of known statuses stays one over every run |
| ControllerLoop.RecordedShape | services/agentd-py/agentd/chat/controller_loop.py:366-629 | what an iteration leaves in the conversation: the model's turn under its own action, then, unless it ends the loop, the result of the tool it called; nothing when it raises or spends the budget |
| ControllerLoop.ConversationAlternates | services/agentd-py/agentd/chat/controller_loop.py:366-629 | over any run the conversation opens with a turn of the model's, every turn is answered by a result before the next, and only the one that ends the loop stays unanswered |
| ControllerLoop.RunsOutAt | services/agentd-py/agentd/chat/controller_loop.py:301 | the loop runs out exactly at `max_iters` + 1 iterations |
| ControllerLoop.CommandsBarredOnlyWhileDeciding | services/agentd-py/agentd/chat/controller_loop.py:73-80 | a well-formed command call is turned back while deciding and in no other phase |
| ControllerLoop.RunIsBounded | services/agentd-py/agentd/chat/controller_loop.py:301-467 | at most `max_iters` + 1 model calls, at most `max_iters` tool executions, no (tool, arguments) key executed twice |
| ControllerLoop.RaisesOnFourthRejection | services/agentd-py/agentd/chat/controller_loop.py:373-390 | the loop raises exactly when the fourth response in a row has just been turned back, and never goes on past that point |
| ControllerLoop.EditsAndSubmitsAreGuarded | services/agentd-py/agentd/chat/controller_loop.py:484-629 | the workspace is edited in the EDIT phase only, and submit ends a run only there and only when no item of the ledger is pending or in progress |
| ControllerLoop.RunsFitProtocol | services/agentd-py/agentd/chat/controller_loop.py:366-629 | what the thread's protocol takes for granted of a loop every run keeps: it proposes only while deciding, submits only from EDIT with no open item, and asks for reviews and command approvals only in the phases that may |
| ControllerLoop.TurnLeavesAcceptedEdits | services/agentd-py/agentd/chat/controller_loop.py:513-600 | the workspace a run leaves is what applying only its accepted batches would leave, if raising batches were harmless; outside EDIT it is unchanged |
| ControllerLoop.DropsRejected | services/agentd-py/agentd/chat/controller_loop.py:547-558 | rejected batches can be struck from the reference run |
| ControllerLoop.Act | services/agentd-py/agentd/chat/controller_loop.py:391-630 | every response that passes the checks is dispatched as prescribed; NotImplementedError is never reached |
| ControllerLoop.DoEdit | services/agentd-py/agentd/chat/controller_loop.py:484-600 | empty, raising, accepted and rejected edits each leave the session in the prescribed state |
| ControllerLoop.DoTool | services/agentd-py/agentd/chat/controller_loop.py:395-467 | budget, duplicate guard, execution, in that order |
| TurnProtocol.ProtocolSafety | services/agentd-py/agentd/chat/controller.py:142-174 | in every interleaving: at most one unfinished turn, and it is the registered one; each edit or command gate's decision accepted at most once; each mode gate dispatched at most once; without a restart, a stored edit or command gate has its waiter and its suspended turn |
| TurnProtocol.StepKeeps | services/agentd-py/agentd/chat/controller.py:142-892 | the invariant holds across every post, turn section, exception, decision, timeout, stop and restart |
| TurnProtocol.StoredLedgerIsLive | services/agentd-py/agentd/chat/todo_source.py:86-88 | in every interleaving, restarts included, a running loop's ledger is the stored one |
| TurnProtocol.LedgerChangesIff | services/agentd-py/agentd/chat/controller.py:378-401 | the stored ledger changes exactly by a rewrite, by an answer, or by a submit from EDIT with no item open; no gate, decision, timeout, stop, failure or restart touches it |
| TurnProtocol.LedgerCrossesGate | services/agentd-py/agentd/chat/controller.py:397-401 | whatever happens while a mode or clarify gate stays stored, restarts included, the loop started next has exactly the ledger the asking loop ended with |
| TurnProtocol.StillRaised | services/agentd-py/agentd/chat/controller.py:525-555 | a mode or clarify gate that is gone never comes back, and while it stays neither ledger nor history changes |
| TurnProtocol.SubmitNeedsClosedLedger | services/agentd-py/agentd/chat/controller_loop.py:601-629 | over any run, a submit ends a turn only when no item of the stored list is pending or in progress, however many gates the request has crossed |
| TurnProtocol.HistoryOnlyGrows | services/agentd-py/agentd/chat/controller.py:203-216 | a thread's saved history only grows by appending over any run; cache and store agree whenever both exist; a running loop extends what is saved |
| TurnProtocol.NothingSaidIsLost | services/agentd-py/agentd/chat/controller.py:367-396 | over any run: a loop's conversation is what it started with followed by everything its steps added, in order; once it ends or is stopped, that is the saved history; only an exception or a restart leaves the history as it was |
| TurnProtocol.ThinkGoesOn | services/agentd-py/agentd/chat/controller.py:195-201 | a stretch of the loop keeps phase, gate and saved history, adds its entries, and takes the list it wrote, if any, as its ledger and as the stored one |
| TurnProtocol.AskSuspends | services/agentd-py/agentd/chat/controller.py:557-583 | a review in an editing turn, or a command approval in an editing or explaining one, stores a fresh gate with a waiting future and suspends the turn with its entries added; nothing else asks |
| TurnProtocol.CompleteSettles | services/agentd-py/agentd/chat/controller.py:384-460 | a loop that ends frees the thread, saves all it said, drops the ledger of an answered or submitted request and keeps any other, and presents the gate of its outcome; a proposal needs DECIDE, a submit EDIT with no item pending or in progress |
| TurnProtocol.PlannedTaskEndsTurn | services/agentd-py/agentd/chat/controller.py:817-848 | a turn that awaits the plan of its task ends when it is there, with history and ledger as they were |
| TurnProtocol.FirstSectionSeeds | services/agentd-py/agentd/chat/controller.py:271-284 | on a free thread, a message, an admitted mode choice or an admitted answer starts a loop with exactly the saved history, what the user just said, and the saved ledger, in the phase asked for; creating a task awaits its plan; a stale request, or a task mode without the task subsystem, starts nothing and leaves the gate |
| TurnProtocol.DecisionResumesTurn | services/agentd-py/agentd/chat/controller.py:557-583 | a decision on a live gate is accepted, and the turn then goes on with gate and waiter gone |
| TurnProtocol.TimeoutResumesTurn | services/agentd-py/agentd/chat/controller.py:571-583 | a review or approval that times out is not accepted, and its turn goes on with gate and waiter gone |
| TurnProtocol.StopEndsTurn | services/agentd-py/agentd/chat/controller.py:719-738 | stopping a turn that has begun unwinds it completely, frees the thread, saves the conversation it had and keeps the ledger |
| TurnProtocol.AnswerResumesLoop | services/agentd-py/agentd/chat/controller.py:402-409 | a question asked in a loop and then answered, even across a restart, resumes with everything the asking turn had, the answer and the ledger; in the same phase if and only if that was not EXPLAIN, which comes back as DECIDE |
| TurnProtocol.RestartIsInvisible | services/agentd-py/agentd/chat/controller.py:203-216 | to a free thread a restart is invisible: the next request comes to the same loop, gate, history and ledger |
| TurnProtocol.OrphanedGateClears | services/agentd-py/agentd/chat/controller.py:631-641 | after a restart a stored edit or command gate accepts no decision, and the first attempt clears it |
| TurnProtocol.DecisionChangesGateIff | services/agentd-py/agentd/chat/controller.py:631-643 | in every state: a decision is accepted if and only if a future waits for it, and changes the stored gate if and only if it is for that gate and no future waits, the gate being orphaned or the future already done; it then clears the gate and accepts nothing |
| TurnProtocol.SecondDecisionClearsLiveGate | services/agentd-py/agentd/chat/controller.py:631-641 | a run from the start in which a second decision, or one after the timeout, clears the gate of a turn still suspended there |
| TurnProtocol.WedgedOnlyByEarlyCancel | services/agentd-py/agentd/chat/controller.py:154-174 | a free-standing registry slot is left behind by exactly one step: running a turn that was cancelled before its first section |
| TurnProtocol.WedgedUntilRestart | services/agentd-py/agentd/chat/controller.py:154-174 | such a thread refuses every request until a restart |
| TurnProtocol.EarlyStopWedges | services/agentd-py/agentd/chat/controller.py:730-734 | it happens: a message, then a stop before the first section |
| ChatController.ThreadController.LaunchTurn | services/agentd-py/agentd/api/routes.py:1203-1221 | refused while a turn is registered, otherwise one new turn, registered in the same section |
| ChatController.ThreadController.ResolveHold | services/agentd-py/agentd/chat/controller.py:623-717 | true exactly when a waiting future took the decision, a gate not accepted before; otherwise only an orphaned gate is cleared |
| ChatController.ThreadController.CancelWaiter | services/agentd-py/agentd/chat/controller.py:571-583 | a timeout cancels a future only while it waits |
| ChatController.ThreadController.StopTurn | services/agentd-py/agentd/chat/controller.py:719-731 | false exactly when no turn is unfinished; otherwise the turn, and a future it waits for, are cancelled |
| ChatController.ThreadController.HandleMessage | services/agentd-py/agentd/chat/controller.py:244-275 | a message supersedes any gate and starts a deciding loop from the saved history and ledger |
| ChatController.ThreadController.ResolveClarify | services/agentd-py/agentd/chat/controller.py:852-892 | a non-blank answer to a clarify gate resumes a loop and clears the gate; anything else leaves the gate and starts nothing |
| ChatController.ThreadController.Continue | services/agentd-py/agentd/chat/controller.py:195-201 | a stretch of the loop: the turn's conversation is the old one plus the entries, and a rewritten ledger is stored at once, so the stored one stays the loop's own |
| ChatController.ThreadController.RaiseGate | services/agentd-py/agentd/chat/controller.py:557-578 | an edit in an editing turn, or a command in an editing or explaining one, stores a fresh gate together with its waiting future, and suspends the turn with its entries added |
| ChatController.ThreadController.ResumeTurn | services/agentd-py/agentd/chat/controller.py:575-583 | decided or timed out, the turn goes on in its loop with gate and waiter gone |
| ChatController.ThreadController.FinishTurn | services/agentd-py/agentd/chat/controller.py:384-460 | the stored history is the conversation with the last entries, the ledger is dropped after an answer or a submit and kept otherwise, the gate is the one the outcome presents, and the slot is given back |
| ChatController.ThreadController.FailTurn | services/agentd-py/agentd/chat/controller.py:154-174 | a turn that raises, in its loop, awaiting a task's plan, or in its first section before or after clearing the gate, saves nothing and gives the slot back |
| ChatController.ThreadController.UnwindTurn | services/agentd-py/agentd/chat/controller.py:367-383 | a cancelled turn pops its waiter, clears its gate, saves exactly its partial conversation when there is one, keeps its ledger, and gives the slot back |
| ChatController.ThreadController.ResolveMode | services/agentd-py/agentd/chat/controller.py:749-850 | dispatches a mode gate that was never dispatched before and clears it in the same section, or does nothing |
| LspFraming.StreamReadsBack | services/indexer-rs/src/lsp.rs:1384-1425 | reading the frames of any list of bodies, whatever bytes they hold, returns exactly the bodies and then the end of stream |
| LspFraming.CutStreamYieldsPrefix | services/indexer-rs/src/lsp.rs:1391-1425 | wherever the stream breaks off, the bodies handed on are the first of those sent |
| LspFraming.FrameReadsBack | services/indexer-rs/src/lsp.rs:1384-1425 | one frame before any bytes reads back as its body, leaving those bytes |
| LspFraming.AnyHeaderReads | services/indexer-rs/src/lsp.rs:1391-1425 | a message under any header, case for case: no length, a bad one, or more promised than is there is an error; otherwise the last `content-length`, in letters of either case, cuts the body, and other fields do not matter |
| LspFraming.NoColonIsMalformed | services/indexer-rs/src/lsp.rs:1407-1410 | a header line without a colon is an error whatever came before |
| LspFraming.NotTextIsMalformed | services/indexer-rs/src/lsp.rs:1398 | so is one that is not UTF-8 text |
| LspFraming.HeaderThenNothing | services/indexer-rs/src/lsp.rs:1399-1401 | a stream that ends within the header is at its end, unless a length before did not parse |
| LspFraming.ParsesIff | services/indexer-rs/src/lsp.rs:1412-1415 | a length parses if and only if it is decimal digits, perhaps behind a plus sign, of a number that fits 64 bits |
| LspFraming.ParsesBack | services/indexer-rs/src/lsp.rs:1412-1415 | a number parses back from its digits behind any sign and zeros, if it fits 64 bits |
| LspFraming.CutFrame | services/indexer-rs/src/lsp.rs:1391-1425 | a frame cut short yields a body if and only if the body is empty and its last newline alone is missing, and then that body |
| LspFraming.DecimalReadsBack | services/indexer-rs/src/lsp.rs:1386-1418 | the printed length parses to the length |
| LspFraming.ReadMessageLoop | services/indexer-rs/src/lsp.rs:1391-1425 | the header loop with its mutable length, end-of-stream, malformed-header and short-body exits equals the reader the theorems are about |
| FileUris.DecodeInvertsEncode | services/indexer-rs/src/lsp.rs:1327-1367 | decoding an encoded path gives it back, for every byte string |
| FileUris.EncodeInjective | services/indexer-rs/src/lsp.rs:1327-1344 | two paths encode alike only if they are equal |
| FileUris.EscapedAs | services/indexer-rs/src/lsp.rs:1340 | a byte that does not stand for itself becomes a percent sign and its two upper-case hexadecimal digits |
| FileUris.PlainIff | services/indexer-rs/src/lsp.rs:1331-1339 | which bytes stand for themselves |
| FileUris.HexDigitIff | services/indexer-rs/src/lsp.rs:1369-1376 | a hexadecimal digit of either case reads as its value, and nothing else reads |
| FileUris.UriRoundTripsIff | services/indexer-rs/src/lsp.rs:1304-1321 | a path comes back from its URI if and only if it starts with a slash and holds no backslash |
| FileUris.UriRoundTrip | services/indexer-rs/src/lsp.rs:1304-1321 | what comes back for any path: its forward-slash form behind a leading slash |
| FileUris.SameUriIff | services/indexer-rs/src/lsp.rs:1304-1316 | two paths share a URI exactly when those forms agree |
| FileUris.EncodeUriPath | services/indexer-rs/src/lsp.rs:1327-1344 | the byte loop computes the encoding and emits only plain bytes and percent signs |
| FileUris.DecodeUriPercent | services/indexer-rs/src/lsp.rs:1349-1367 | the scanning loop, which passes malformed and truncated escapes through, computes the decoding |
| EventStreams.ReadEvents | apps/editor-client/src/client/http-backend-client.ts:590-609 | however the text is cut into chunks, the reader yields exactly the events of the newline-terminated lines of the whole text, through its last one |
| EventStreams.LinesOfJoin | apps/editor-client/src/client/http-backend-client.ts:598-600 | splitting a buffer and carrying its tail over gives the lines of the whole text |
| EventStreams.ServerTextReads | services/agentd-py/agentd/api/routes.py:1227-1237 | data frames mixed with pings decode to exactly the events reported, through the server's last |
| EventStreams.ClientYieldsWhatWasSent | apps/editor-client/src/client/http-backend-client.ts:337-354 | client and server together: the events sent, through the client's last one; and if the connection breaks anywhere, a prefix of them |
| PatchEventQueue.YieldsInOrder | apps/editor-client/src/client/http-backend-client.ts:420-451 | in every interleaving of pushes, end and pulls: what was pushed before the end is queued and yielded in order through the first done; a blocked consumer implies an empty queue, an unfinished stream and an armed notify; a return means nothing is owed |
| PatchEventQueue.DrainsToTheEnd | apps/editor-client/src/client/http-backend-client.ts:439-450 | once the stream has ended, as many pulls as are queued and one more finish the iteration, nothing lost |
| SessionSlots.SessionManager.ApplyOperation | services/indexer-rs/src/lsp.rs:997-1105 | when exactly an operation is applied: directly, or on a retry after a restart while fewer than three attempts are counted; exactly how many are counted and how many servers were started; otherwise the language is disabled; other languages and disabled slots are untouched |
| SessionSlots.SessionManager.EnsureSession | services/indexer-rs/src/lsp.rs:1107-1150 | starts a server only for a slot that has neither a session nor a disabled mark, once |
| SessionSlots.SessionManager.SessionFor | services/indexer-rs/src/lsp.rs:957-970 | hands out a session exactly when the adapter is enabled, the language supported and its server running, started if need be |
| SessionSlots.SessionManager.WaitForIndexing | services/indexer-rs/src/lsp.rs:863-893 | leaves every language with a running server or disabled, and a disabled one as it was |
| SessionSlots.SessionManager.Serve | services/indexer-rs/src/lsp.rs:100-114 | over any run of operations, borrowed sessions, start-up waits and failures: at most three servers and three restarts counted per language, disabled for good, disabled exactly when failed, and then without a session |
| ChatTranscript.CloseLeavesOne | services/agentd-py/agentd/chat/controller.py:499-513 | however a turn's pills mix with other messages, closing it leaves exactly one message of its own, at the place of its first upsert, or last |
| ChatTranscript.MidwayStep | services/agentd-py/agentd/chat/storage.py:197-234 | each further upsert rewrites that one message in place and moves nothing |
| ChatTranscript.ChatStore.RunTurn | services/agentd-py/agentd/chat/storage.py:185-275 | any number of upserts and a close change the transcript by one message with the last pills |
| ChatTranscript.RunsKeepSane | services/agentd-py/agentd/chat/storage.py:185-336 | over any interleaving of store operations, from an empty transcript: each turn id marks at most one message, no plan is marked, and consecutive plan versions of every task differ |
| ChatTranscript.StepKeepsSane | services/agentd-py/agentd/chat/storage.py:185-336 | each operation keeps that |
| ChatTranscript.VersionsOfRun | services/agentd-py/agentd/chat/storage.py:303-336 | the versions a run leaves of a task are exactly the plans handed over for it, each dropped that repeats the last one kept; no other operation adds, changes or loses one |
| ChatTranscript.PlanRepeats | services/agentd-py/agentd/chat/storage.py:303-336 | a plan repeats the last version exactly when the task's last plan message holds it |
| ChatTranscript.ChatStore.AppendMessage | services/agentd-py/agentd/chat/storage.py:185-195 | appends at the end; an unmarked message that is no plan keeps the transcript sound |
| ChatTranscript.ChatStore.UpsertInflightPills | services/agentd-py/agentd/chat/storage.py:197-234 | appends the turn's pills message if it has none marked, else gives its first marked one the new pills in place; one mark for each turn and every plan version are kept |
| ChatTranscript.ChatStore.FinalizeInflightPills | services/agentd-py/agentd/chat/storage.py:238-275 | true exactly when the turn had a marked message, whose first one then holds the content and pills, unmarked, in place; no plan version is rewritten |
| ChatTranscript.ChatStore.ClearInflightMarkers | services/agentd-py/agentd/chat/storage.py:277-301 | drops every marker and nothing else |
| ChatTranscript.ChatStore.AppendPlanCard | services/agentd-py/agentd/chat/storage.py:303-336 | appends the plan exactly when it is not what the task's latest plan says |
| ChatTranscript.ChatStore.WriteTurnMessage | services/agentd-py/agentd/chat/controller.py:499-513 | closes the turn's own message in place, or appends one, with exactly the content and pills given, keeping the transcript sound |
| TaskStates.SucceededPassedAll | services/agentd-py/agentd/domain/state_machine.py:8-62 | every task that succeeded passed context, plan approval, planned, executing, validating, validated, review, promoting and succeeded, in that order |
| TaskStates.NeverPlansAgain | services/agentd-py/agentd/domain/state_machine.py:8-62 | after planned, no status of planning ever comes back |
| TaskStates.TaskRecord.Transition | services/agentd-py/agentd/domain/state_machine.py:65-88 | a legal edge is taken and logged, an illegal one changes nothing; the log stays a connected chain of legal edges ending at the status; the client's copying form agrees |
| TaskStates.TablesAgree | apps/editor-client/src/domain/task-state.ts:3-21 | the client's table and the server's allow the same edges |
| TaskStates.EdgeIff | services/agentd-py/agentd/domain/state_machine.py:8-62 | the legal edges in one view: the path to success, its detours and ways back, and from every unfinished status to failed and aborted |

## Left out

- HTTP, sqlite, process spawning, file watching, tree-sitter, model providers and the VS Code panels: outside the model; what they can do enters as parameters.
- JSON: messages, tool arguments and patch operations are already parsed, and serialised bodies are byte strings; operations the engine's own schema rejects before it starts are not represented.
- Resolver.TargetLine: the line number wraps at 32 bits as in a release build; a debug build panics there instead.
- Resolver.NearestNodeAt: equally near nodes are told apart by hash-set order, so the result is a relation, not a function.
- SymbolGraphs.SymbolGraph: lower-casing and trimming are arbitrary functions, and paths are strings, so lossy path conversion is not represented.
- PatchEngine.ApplyPatchCandidate: the four kinds of text edit are one operation with an arbitrary plan and an arbitrary write; directories, symbolic links and `./` spellings of the same path are not represented, and `allowed_files` is always the files the batch names.
- EditSession.TurnEditSession: nothing else writes to the real workspace during a turn; `run_command` can, and then the refinement does not apply.
- EditSession.ValidFile: Python's blank test is modelled for the common white-space characters, not for every Unicode space.
- EditSession.TurnEditSession.Apply: the diff is the list of reported files, not their text.
- ControllerLoop.Run: history entries keep their kind and tool, not their text; memory compaction is off, broadcasts and trace files are not represented, and a turn cancelled in mid-loop is part of `TurnProtocol` instead.
- TodoLedgers.TodoLedger: the stored copy is the list itself; its JSON text is not represented.
- Resolver.SurvivesIffRedrawn: ties are broken anew at every look-up; that one pass breaks them in one order is `Resolver.SurvivesIffDrawn`, where that order is given.
- TurnProtocol.StepKeeps: one thread; routes outside the chat, breadcrumbs, broadcasts and the remembered command rules are not represented; whether an accepted decision that races a stop is still acted on is not claimed; the sections of creating a task are one wait.
- TurnProtocol.HistoryOnlyGrows: with memory compaction on, the loop rewrites its history and the property does not hold.
- LspFraming.StreamReadsBack: the line reader's UTF-8 check and the trimming of a header value are parameters that behave as the standard library does on ASCII; bodies are at most a machine word long.
- FileUris.UriRoundTripsIff: on the bytes of UTF-8 text; lossy replacement of invalid sequences is not represented.
- EventStreams.ReadEvents: chunks are decoded text; a character split between two network chunks is put together by the platform's decoder, which is not part of this model.
- PatchEventQueue.YieldsInOrder: a stream that fails ends the iteration like one that finishes, as in the code; the lost error is not represented.
- SessionSlots.SessionManager: back-off sleeps, warnings, diagnostics and the request cache.
- ChatTranscript.ChatStore: one existing thread; `resolve_diff_card`, which sets one metadata field this model does not hold; the pills messages that mode and clarify exits append beside the marked one, and a submit with neither summary nor pills, which writes no closing message.
- TaskStates.TaskRecord: times, usage and budget checks.
