# Proofs about the graph and tree library

This project models the algorithms at the centre of the library and proves what they promise. Each
module stands for one of them.

| module | models |
|---|---|
| `EditDistanceSpec`, `TreeNumbering`, `TreeEditDistanceProgram`, `TreeMappings`, `Sorting` | tree edit distance: the keyroot dynamic programme over two shared tables equals the recursive forest distance, which is the least cost of a node mapping and obeys the metric laws |
| `StatementOrder`, `StatementCanonicalizer`, `StatementParts`, `StatementExchange` | the reordering of independent statements: when it is a normal form, and that it keeps meaning; the program that groups, orders and writes back in place; and when an exchange in the dump shows in what it writes |
| `ProvenanceView`, `SourceLocatorProgram`, `MergeResults` | content-addressed provenance ids over an arbitrary hash: probing, combination, resolution, eviction, and the union of two chains of tables, with what it leaves resolvable |
| `WriterPreferringMutex` | the reader-writer lock that prefers writers, as atomic steps of any number of threads |
| `SlotProtocol` | the Empty, Writing and Public states of a library slot with counted handles, as atomic steps |
| `SourceMap` | the `mappings` string of a source map against the decoder of ECMA-426, sections 6 and 9 |
| `OccurrenceLibrary`, `OccurrenceTraversal` | a hierarchy of instantiated graphs: interned paths, the recursive visit, the cursor with its stack, and the 64-bit count |
| `OccurrenceEdges`, `OccurrenceChains`, `OccurrenceConverse` | edges resolved across hierarchy boundaries, with unrolled and grouped loops, in both directions: what each direction finds, and exactly where they are converses |
| `OccurrenceCycles`, `Walks` | cycles of the unrolled view come from cycles of stored edges without carries |
| `Peeling`, `OccurrenceOrder`, `BodyTraversal` | dependency orders: cycles and what is behind them, the order of occurrences, and the cached two-pass walk of one body forward and backward |
| `HierarchyOrder` | the order of all occurrences of a hierarchy whose bodies are acyclic |
| `PackedEdges` | packed edge slots, long words and pooled overflow sets as one symmetric set of edges, of which an entry may hold some more than once |
| `Options`, `Sequences` | a value that may be missing, and the laws of concatenation that several modules use |
| `ChunkTree`, `TreeDump` | the append-only tree in chunks of eight siblings, its two iterators, and its dump written and read back |

Classes and methods follow the loops and fields of the program; their contracts tie them to functions
and relations that the lemmas are about.

## Where the code differs from what it says

- `find_graph` is documented to return nothing while a writer is alive. A final release tests the deleted
  flag, and a commit whether its graph still belongs to the library, before it takes the registry lock, so
  either can run after the graph was deleted and created anew, and then publishes the new body while its
  writer is at work. `SlotProtocol.HiddenIff` states exactly which steps do so, and `OvertakingHappens`
  gives a run.
- The canonical statement order is meant to make equivalent programs identical. It does not in two cases.
  Statements that write no variable keep their original order (`StatementOrder.NormalFormIff`). And an
  exchange can bring an attribute setting next to an assignment of the same name; the pass then takes the
  two for one statement, which changes the result unless the canonical order takes them one right after
  the other anyway. `StatementExchange.ExchangeIff` states exactly when an exchange shows, and
  `BroughtTogetherShows` gives a dump.
- A merge that drops the old version of a file is meant to drop the incoming combinations that still name
  it, so that the table can be saved and loaded again. It does so after each table of the chain that drops
  something, and not for the tables in front of that one: a combination there can be left naming an id that
  is gone (`MergeResults.DanglingStays`). When no table but the one in front brings another version of a
  file, all combinations resolve (`MergeResolves`).
- A difference of 2^31 or more is written as a VLQ number that decoders by ECMA-426 reject
  (`SourceMap.VlqRoundTrip`, `Render`).
- The exact count of occurrences gives up for an empty loop over a large callee although nothing is below
  it (`OccurrenceTraversal.EmptyLoopGivesUp`; exactly when, in `GivesUpExactly`).
- In-edges and out-edges are not always converses: not inside an unrolled loop with a body, not inside one
  that can be inactive, not inside a grouped loop with a body, and not past a loop without ordinals
  (`OccurrenceConverse.LoopBodyBreaksConverse`, `InactiveLoopBreaksConverse`, `GroupedBodyBreaksConverse`,
  `EmptyLoopBreaksConverse`), nor for the index of an unrolled loop that has a body and is not entered.
  `SiteAgreesIff` states for every call site exactly when its two directions agree, by its loop, its verdict
  and the stored edges at its ports and inside. The inputs of a call that is entered are a matter of their
  own: they list what drives the call, but resolutions pass them by on the way inside.
- Unrolling replaces the carries of a loop by edges from one ordinal to the next, so as to leave no cycle.
  That holds when the stored edges without carries form none with every unrolled loop as one node
  (`OccurrenceCycles.UnrollingAddsNoCycle`); with the body of the loop looked through instead it does not
  (`LookingThroughFails`). A visit also lists the calls that it enters; for these every call has to be one
  node (`FlatStaysAcyclic`, `CallsLookedThroughFail`).
- Deleting an edge uses the two handles with the marks they come with. Unless a marked driver comes with
  an unmarked sink, it leaves the edge known at one end, or deletes the edge in the other direction
  (`PackedEdges.DelEdge`, with one input for each of the failing marks).
- An edge that is added twice is held twice in inline slots, but once in an overflow set. Deleting it then
  leaves it at one end (`PackedEdges.SecondCopyStays`), and deleting a pin or a node can leave an edge to
  what was deleted (`DoubledEdgeStays`); `DeletePin` and `DeleteNode` state exactly when.
- An abort tests its library before it takes the registry lock, so that it can mark a body that was
  created meanwhile (`SlotProtocol.AbortHitsSuccessor`).
- A pre-order walk from a node without children goes on beyond the node when the node or an ancestor has a
  next sibling (`ChunkTree.WalkIsSubtree`).
- A text that is empty, or holds a quote or a newline, does not survive a dump; a newline even makes a
  second node (`TreeDump.TextComesBack`, `NewlineSplitsNode`). `ThereAndBack` states exactly when a tree
  comes back.

In the first table column below, a member is named by its module and, where it has one, its class.

## Model

| member | source | states |
|---|---|---|
| `EditDistanceSpec.DistByTrees` | `hhds/tree_edit_distance.hpp:172-178` | The distance can be computed with the rightmost trees matched as wholes, which is what the branch that reads an earlier table cell does; for all costs |
| `EditDistanceSpec.Subadditive` | `hhds/tree_edit_distance.hpp:176-178` | The distance of two concatenations is at most the sum of the distances of their parts, for all forests and all costs |
| `EditDistanceSpec.DistFromEmpty` | `hhds/tree_edit_distance.hpp:120-126` | The distance from the empty forest is one insertion per node |
| `EditDistanceSpec.DistToEmpty` | `hhds/tree_edit_distance.hpp:127-133` | The distance to the empty forest is one deletion per node |
| `EditDistanceSpec.DistSymmetric` | `hhds/tree_edit_distance.hpp:71-76` | The distance is symmetric when insertion and deletion cost the same and the relabel cost is symmetric |
| `EditDistanceSpec.DistNonNegative` | `hhds/tree_edit_distance.hpp:24-28` | Distances are non-negative for non-negative costs |
| `EditDistanceSpec.DistZeroIff` | `hhds/tree_edit_distance.hpp:71-76` | With positive insertion and deletion costs, the distance is zero exactly for forests of one shape whose nodes relabel for free |
| `EditDistanceSpec.DistReflexive` | `hhds/tree_edit_distance.hpp:71-76` | Equal forests are at distance zero when relabelling a node to itself is free and no cost is negative |
| `EditDistanceSpec.DistTriangle` | `hhds/tree_edit_distance.hpp:71-76` | The triangle inequality holds when it holds for relabelling and costs are non-negative |
| `TreeNumbering.SubtreesNest` | `hhds/tree_edit_distance.hpp:78-99` | In post-order, the subtree of a node inside another subtree lies inside it as a whole |
| `TreeNumbering.FirstChildNumber` | `hhds/tree_edit_distance.hpp:89-95` | The first child of a node was numbered before it, at the place the leftmost leaf is read from |
| `TreeNumbering.NumbersRebuild` | `hhds/tree_edit_distance.hpp:78-99` | Labels and leftmost leaves together determine the forest that was numbered |
| `TreeNumbering.KeyrootOrder` | `hhds/tree_edit_distance.hpp:103-111` | Inside the subtree of a keyroot, the nodes on its leftmost path belong to it and all others to an earlier keyroot |
| `TreeNumbering.SettledBefore` | `hhds/tree_edit_distance.hpp:145-149` | A tree-distance cell that a keyroot pair reads was completed by an earlier pair |
| `TreeEditDistanceProgram.TreeEditDistance.Build` | `hhds/tree_edit_distance.hpp:78-114` | Post-order numbers, leftmost leaves and the sorted keyroots are those of the tree |
| `TreeEditDistanceProgram.TreeEditDistance.FillBorders` | `hhds/tree_edit_distance.hpp:159-165` | The border cells hold the distances from and to the empty forest |
| `TreeEditDistanceProgram.TreeEditDistance.FillRow` | `hhds/tree_edit_distance.hpp:168-180` | One row of the inner table holds forest distances; its cells on both leftmost paths complete tree distances, and no other tree distance changes |
| `TreeEditDistanceProgram.TreeEditDistance.ForestDist` | `hhds/tree_edit_distance.hpp:154-182` | One keyroot pair completes all tree distances on its two leftmost paths, reads only those off the paths, and changes no other |
| `TreeEditDistanceProgram.TreeEditDistance.Run` | `hhds/tree_edit_distance.hpp:116-152` | For all trees, present or not, and all costs, the result is the recursive edit distance |
| `TreeEditDistanceProgram.TreeEditDistance.Compute` | `hhds/tree_edit_distance.hpp:36-52` | The same for the entry point |
| `TreeEditDistanceProgram.DefaultZeroIff` | `hhds/tree_edit_distance.hpp:71-76` | Without a caller's function and with positive costs, the distance is zero if and only if the forests have the same shape and the same types at the same places |
| `TreeEditDistanceProgram.SingleNodes` | `hhds/tree_edit_distance.hpp:71-76` | For two single nodes it is what the caller's function says of the first and the second, or a deletion and an insertion, whichever is less |
| `TreeMappings.LowerBound` | `hhds/tree_edit_distance.hpp:116-182` | No ancestor- and order-preserving mapping of nodes is cheaper than the distance |
| `TreeMappings.Attained` | `hhds/tree_edit_distance.hpp:116-182` | Some such mapping costs exactly the distance |
| `TreeMappings.DistIsLeastMapping` | `hhds/tree_edit_distance.hpp:116-182` | The distance is the least cost of such a mapping, for all costs |
| `StatementOrder.CanonPermutes` | `hhds/hhds_tree_diff.cpp:327-338` | The canonical order has the same statements, each as often |
| `StatementOrder.CanonEquivalent` | `hhds/hhds_tree_diff.cpp:290-338` | The canonical order is reached by exchanging adjacent independent statements |
| `StatementOrder.NormalForm` | `hhds/hhds_tree_diff.cpp:314-338` | For one list of groups: when those that write nothing are all equal, two lists have the same canonical order exactly when exchanges of adjacent independent groups lead from one to the other; what the pass makes of the exchanged dump, where it groups the lines anew, is StatementExchange.ExchangeIff |
| `StatementOrder.NormalFormIff` | `hhds/hhds_tree_diff.cpp:314-319` | For every list of groups: all rearrangements by such exchanges have its canonical order if and only if the groups that write nothing are all equal |
| `StatementOrder.SwapKeepsCanon` | `hhds/hhds_tree_diff.cpp:314-338` | An exchange of adjacent independent groups keeps the canonical order unless both write nothing and differ |
| `StatementOrder.ReadyKeysDiffer` | `hhds/hhds_tree_diff.cpp:314-319` | Two different statements that write and are ready together have different keys, so the index never decides between them |
| `StatementOrder.LessIff` | `hhds/hhds_tree_diff.cpp:314-319` | One key comes before another if and only if it is a proper prefix of it, or has the smaller character at the first place where they differ |
| `StatementOrder.CanonicalUnique` | `hhds/hhds_tree_diff.cpp:327-338` | One order of the statements is canonical: only one takes, at each place, the statement that comes first by key and index among those that wait for none that is left |
| `StatementOrder.CanonKeepsMeaning` | `hhds/hhds_tree_diff.cpp:113-131` | When each statement changes only what it writes, and depends only on what it reads and writes, the canonical order ends in the same store from any store |
| `StatementOrder.DependsIff` | `hhds/hhds_tree_diff.cpp:290-312` | Two different statements depend on each other if and only if some effects that are faithful to what the two read and write end in different stores for the two orders |
| `StatementCanonicalizer.StmtOfProper` | `hhds/hhds_tree_diff.cpp:113-131` | A group does not list the variable it writes among those it reads, has that variable as its key, and reads nothing when it writes nothing |
| `StatementCanonicalizer.GroupsCover` | `hhds/hhds_tree_diff.cpp:233-284` | The groups are the subtrees of the scope in order, none lost or repeated |
| `StatementCanonicalizer.StatementsCover` | `hhds/hhds_tree_diff.cpp:216-284` | The lines of the groups are the lines of the scope |
| `StatementCanonicalizer.RewrittenPermutes` | `hhds/hhds_tree_diff.cpp:340-349` | The rewritten lines are a permutation of the lines; those outside the scope stay in place |
| `StatementCanonicalizer.ExtractRefs` | `hhds/hhds_tree_diff.cpp:113-131` | The variable written is the name of the first line that names a reference, and those read are exactly the other names |
| `StatementCanonicalizer.FirstRefOf` | `hhds/hhds_tree_diff.cpp:243-258` | The name compared for pairing is that of the first reference line behind the first line, named or not |
| `StatementCanonicalizer.FindSubtrees` | `hhds/hhds_tree_diff.cpp:216-228` | The subtrees start exactly at the lines one deeper than the scope and end where the next starts |
| `StatementCanonicalizer.BuildGroups` | `hhds/hhds_tree_diff.cpp:233-284` | Each group is one subtree, or an attribute with the assignment of the same variable behind it |
| `StatementCanonicalizer.BuildGraph` | `hhds/hhds_tree_diff.cpp:290-312` | The successor lists hold exactly the later dependent statements, and the counts the earlier ones |
| `StatementCanonicalizer.Release` | `hhds/hhds_tree_diff.cpp:333-337` | Taking a statement out leaves the counts of what still blocks each remaining one, and makes ready exactly those left unblocked |
| `StatementCanonicalizer.LeastIsPick` | `hhds/hhds_tree_diff.cpp:314-320` | The first element of the ordered ready set is the statement the canonical order takes next |
| `StatementCanonicalizer.KahnOrder` | `hhds/hhds_tree_diff.cpp:327-338` | The emitted indices spell the canonical order: each is the statement that comes first by key, then by index, among those that wait for none that is left |
| `StatementCanonicalizer.WriteBack` | `hhds/hhds_tree_diff.cpp:340-349` | The lines of the scope are overwritten with the given ones and nothing else changes |
| `StatementCanonicalizer.CanonicalizeOneStmts` | `hhds/hhds_tree_diff.cpp:204-350` | The array ends up with the statements of the scope in canonical order, in place, whatever their number |
| `StatementParts.WholeReady` | `hhds/hhds_tree_diff.cpp:290-312` | An attribute setting and its assignment taken for one group are ready exactly when neither waits for anything before the two |
| `StatementParts.TogetherIff` | `hhds/hhds_tree_diff.cpp:250-338` | Taking pairs for one group each leaves the rewritten lines as they would be without, if and only if the canonical order takes the two of every pair one right after the other |
| `StatementExchange.GroupedAnew` | `hhds/hhds_tree_diff.cpp:233-284` | Groups put side by side in any order are found again, except that neighbours that match become one |
| `StatementExchange.ReplacedStatements` | `hhds/hhds_tree_diff.cpp:204-284` | In a dump whose scope was filled with other groups, the pass finds the same scope and these groups, grouped anew |
| `StatementExchange.ExchangeIff` | `hhds/hhds_tree_diff.cpp:204-350` | For every dump, an exchange of two adjacent independent groups leaves the rewritten dump as it was if and only if the two are not different groups that write nothing, and the canonical order takes any two that came to match one right after the other; where groups match by a name or write nothing |
| `StatementExchange.BroughtTogetherShows` | `hhds/hhds_tree_diff.cpp:250-272` | A dump and an exchange of independent groups, all of which write, that changes the result: it brings an attribute setting next to an assignment |
| `ProvenanceView.ResolveAllExact` | `hhds/source_locator.hpp:285-317` | On an acyclic table the resolution of an id lists exactly the concrete entries it reaches, each once |
| `ProvenanceView.PrimaryIsFirst` | `hhds/source_locator.hpp:264-283` | The primary anchor, when there is one, is the first one of the full resolution |
| `ProvenanceView.RenamingInjective` | `hhds/source_locator.hpp:943-965` | A renaming that carries payloads over is injective when no payload is stored twice |
| `ProvenanceView.RenamingKeepsMeaning` | `hhds/source_locator.hpp:1183-1248` | Under such a renaming every id resolves to the renamed anchors, in the same order |
| `ProvenanceView.ExtendingKeepsMeaning` | `hhds/source_locator.hpp:943-965` | Entries under fresh ids change no resolution of the ids that were there |
| `ProvenanceView.GrowAcyclic` | `hhds/source_locator.hpp:943-965` | An entry whose parents are present, under a fresh id, keeps the table acyclic |
| `ProvenanceView.MergeStep` | `hhds/source_locator.hpp:1183-1248` | Merging one more entry keeps that all merged ids carry their payloads and no earlier id changes |
| `SourceLocatorProgram.RoomBySize` | `hhds/source_locator.hpp:886-900` | While fewer entries than ids exist, the cyclic probe from any id finds a free one |
| `SourceLocatorProgram.FinishHash` | `hhds/source_locator.hpp:732-735` | The id of a hash is its 64 bits, or the least id for the hash zero |
| `SourceLocatorProgram.PlacedAgain` | `hhds/source_locator.hpp:886-900` | What is minted once more, whatever was added in between, gets the id that it has |
| `SourceLocatorProgram.PlacedAtHome` | `hhds/source_locator.hpp:886-900` | The id is the hash itself exactly when that id is free or has this payload |
| `SourceLocatorProgram.SourceLocator.InternFile` | `hhds/source_locator.hpp:826-837` | A path keeps its file number or gets the next one, with its content hash; no id changes its meaning |
| `SourceLocatorProgram.SourceLocator.ProbeAnchor` | `hhds/source_locator.hpp:886-900` | The probe ends, at an entry of the same identity or at a free id, wherever the hash points |
| `SourceLocatorProgram.SourceLocator.InsertAnchor` | `hhds/source_locator.hpp:882-910` | The id is the first one in the cyclic probe that is free or has this payload, and stands for the anchor; the recorded line is that of the first writer |
| `SourceLocatorProgram.SourceLocator.InsertCombine` | `hhds/source_locator.hpp:943-965` | The same for an entry with parents |
| `SourceLocatorProgram.SourceLocator.Mint` | `hhds/source_locator.hpp:158-175` | A minted span resolves to the path and range it was minted for, for any hash function; its id is the first one from its own hash on that is free or has this span, and an entry that is new records the given line |
| `SourceLocatorProgram.SourceLocator.MintLine` | `hhds/source_locator.hpp:182-187` | The same for a line |
| `SourceLocatorProgram.SourceLocator.CombineIds` | `hhds/source_locator.hpp:188-203` | No parents give the invalid id, one parent stands for itself, and several have one id for the ordered list, the first one from its hash on that is free or has the list |
| `SourceLocatorProgram.SourceLocator.Resolve` | `hhds/source_locator.hpp:267-283` | On a sound table the loop along first parents arrives at the primary anchor; the answer spells kind, path, start and end of the entry it stands for, and the line that the entry records; without an answer, all that is reached leads on |
| `SourceLocatorProgram.SourceLocator.AnchorAt` | `hhds/source_locator.hpp:838-840` | The anchor of a concrete id has the kind, path, start and end of what the id stands for, and the line that its entry records |
| `SourceLocatorProgram.SourceLocator.ResolveAllAnchors` | `hhds/source_locator.hpp:287-317` | On any table, the anchors listed are those of different concrete ids below the given one, of all of them when nothing was cut off, each with the fields of its entry; on an acyclic table in first-parent-first order, and a deep enough limit truncates nothing |
| `SourceLocatorProgram.SourceLocator.RemoveEntriesById` | `hhds/source_locator.hpp:969-985` | Exactly the given entries go, the others keep their order, and the index is rebuilt |
| `SourceLocatorProgram.ClosedHoldsTainted` | `hhds/source_locator.hpp:1003-1018` | A set closed under the cascade rule holds every combination that transitively uses an evicted anchor |
| `SourceLocatorProgram.SourceLocator.EvictFileEntries` | `hhds/source_locator.hpp:993-1020` | Exactly the anchors of the file go, with the combinations that transitively use them |
| `SourceLocatorProgram.PurgeIsLargest` | `hhds/source_locator.hpp:1029-1047` | What remains is the largest table in which every parent resolves |
| `SourceLocatorProgram.SourceLocator.PurgeUnresolvedCombines` | `hhds/source_locator.hpp:1029-1047` | The fixpoint loop drops exactly the combinations that do not resolve, and leaves none |
| `SourceLocatorProgram.SourceLocator.MergeEntry` | `hhds/source_locator.hpp:1220-1240` | One entry is carried over, with its parents renamed, under the id at which the probe from its hash ends; the renaming records that, and a new anchor records the line of the entry |
| `SourceLocatorProgram.SourceLocator.FoldFile` | `hhds/source_locator.hpp:1191-1218` | A content hash that comes in is adopted; exactly when both sides know one and the two differ, the entries of the file go, with the combinations that transitively use them |
| `SourceLocatorProgram.SourceLocator.FoldFiles` | `hhds/source_locator.hpp:1194-1218` | Over a list of files: the hashes on record and the entries left are those of the files in order, and it tells exactly whether one was another version than the one known by then |
| `SourceLocatorProgram.SourceLocator.Merge` | `hhds/source_locator.hpp:1183-1248` | For any chain of tables, edited files included: what ids stand for afterwards, the renaming and the content hashes are those of the merge on views, file by file, entry by entry and table by table. Without a conflict of file versions, all entries of a closed source chain are carried over, no earlier entry changes, and every new anchor records the line of an entry that came in under its name |
| `SourceLocatorProgram.MergeKeepsMeaning` | `hhds/source_locator.hpp:1183-1248` | After a merge, each source id, renamed, resolves to the same anchors in the same order, and each earlier id resolves as before |
| `SourceLocatorProgram.MergeKeepsLines` | `hhds/source_locator.hpp:882-910` | When the source names nothing twice, the new anchor that an id becomes has the line that the source recorded for that id |
| `MergeResults.MergeResolves` | `hhds/source_locator.hpp:1241-1247` | After a merge every combination names ids that are there, when that held before, parents come in before the combinations that name them, and no table but the one in front brings another version of a file |
| `MergeResults.FrontPurges` | `hhds/source_locator.hpp:1241-1247` | When the table in front brings another version, that holds whatever came in before |
| `MergeResults.DanglingStays` | `hhds/source_locator.hpp:1185-1189` | When a table behind it does, a combination of the table in front can be left naming an id that is gone: a chain of two tables |
| `WriterPreferringMutex.ExclusiveKept` | `hhds/graph.hpp:67-109` | Every step keeps the counters equal to the threads they count and a writer apart from everyone else |
| `WriterPreferringMutex.WakeupKept` | `hhds/graph.hpp:67-109` | Every step keeps that no thread sleeps on a condition that holds without a notification on its way |
| `WriterPreferringMutex.RunsAreSafe` | `hhds/graph.hpp:67-109` | Both hold in every state of every run, for any number of threads |
| `WriterPreferringMutex.NeverTogether` | `hhds/graph.hpp:67-75` | In every run a writer is never together with a reader or another writer |
| `WriterPreferringMutex.ReadersDrain` | `hhds/graph.hpp:85-101` | While a writer waits, no reader is admitted: readers left plus readers gone are the readers there were |
| `WriterPreferringMutex.WriterGetsItsTurn` | `hhds/graph.hpp:60-75` | Once the readers seen have left, a waiting writer is awake or about to be woken |
| `WriterPreferringMutex.ReaderAdmitted` | `hhds/graph.hpp:85-90` | A reader is admitted exactly when no writer is active or waiting, whatever other readers do |
| `WriterPreferringMutex.WriterAdmitted` | `hhds/graph.hpp:69-75` | A writer is admitted exactly when nobody holds the lock |
| `WriterPreferringMutex.CanMove` | `hhds/graph.hpp:67-109` | A thread that is not asleep can take exactly the steps of its place, and a sleeping one can only be woken |
| `WriterPreferringMutex.Leaving` | `hhds/graph.hpp:77-101` | A thread that leaves owes a notification exactly when it was the writer or the last reader, and a notification wakes every sleeper |
| `WriterPreferringMutex.SharedMutex.Lock` | `hhds/graph.hpp:69-75` | The critical section takes the step of the state machine, and enters exactly when there is no writer and no reader |
| `WriterPreferringMutex.SharedMutex.Unlock` | `hhds/graph.hpp:77-83` | The critical section takes the step of the state machine |
| `WriterPreferringMutex.SharedMutex.LockShared` | `hhds/graph.hpp:85-90` | The critical section takes the step of the state machine, and enters exactly when no writer is active or waiting |
| `WriterPreferringMutex.SharedMutex.UnlockShared` | `hhds/graph.hpp:92-101` | The critical section takes the step of the state machine |
| `SlotProtocol.NoReaderKept` | `hhds/graph.hpp:2684-2735` | Copy-then-check against swap-then-count: no step leaves a granted writer together with a reader of the same body |
| `SlotProtocol.WritingOwnedKept` | `hhds/graph.hpp:3029-3075` | Every step keeps that a slot in writing has an open writer on its body |
| `SlotProtocol.ReachableSafe` | `hhds/graph.hpp:2683-2740` | The invariants hold in every state that any interleaving reaches, with the unlocked checks of commit, abort and final release as steps of their own |
| `SlotProtocol.WriterIsAlone` | `hhds/graph.hpp:2703-2740` | In every interleaving a body has at most one writer handle, and while a slot is granted for writing nobody holds a reader on its body |
| `SlotProtocol.HiddenIff` | `hhds/graph.hpp:3432-3506` | A step keeps uncommitted bodies hidden from lookups exactly when it is not a commit or final release that passed its first check before a deletion and runs after the slot was created anew |
| `SlotProtocol.ReachableHidden` | `hhds/graph.hpp:2678-2682` | Without such a step, an uncommitted body stays hidden in all reachable states |
| `SlotProtocol.OvertakingHappens` | `hhds/graph.hpp:3432-3468` | Such a step is reachable, and a lookup then returns a body whose writer is at work |
| `SlotProtocol.AbortHitsSuccessor` | `hhds/graph.hpp:3495-3506` | An abort whose check came before a deletion can mark the body that was created anew, which is then dropped |
| `SlotProtocol.ClaimGrants` | `hhds/graph.hpp:2703-2740` | From every safe public slot a claim ends in an open writer on its body exactly when nobody else holds the body, and otherwise leaves the slot as it was |
| `SlotProtocol.FindReturns` | `hhds/graph.hpp:2683-2700` | A lookup returns the body exactly when the slot is public |
| `SlotProtocol.CreateOpens` | `hhds/graph.hpp:3029-3075` | An empty slot gives a new body, in writing, with one open writer |
| `SlotProtocol.CommitPublishes` | `hhds/graph.hpp:3470-3493` | A commit of the body in writing makes it public and freezes it |
| `SlotProtocol.CloseEnds` | `hhds/graph.hpp:3432-3468` | The release of a writer publishes the body, or drops it when the writer created it and an abort is pending |
| `SlotProtocol.DeleteEmpties` | `hhds/graph.hpp:3152-3177` | A deletion empties the slot and marks the body deleted, whoever holds it |
| `SlotProtocol.AbortMarks` | `hhds/graph.hpp:3495-3506` | An abort of a body that is not deleted marks the slot and changes nothing else |
| `SlotProtocol.ReadersGoBack` | `hhds/graph.hpp:2683-2700` | A reader can be given back or shared, and a copy that was turned down is dropped; nothing else changes |
| `SourceMap.VlqRoundTrip` | `hhds/sourcemap_emit.hpp:41-52` | What is written is read back exactly when its magnitude is below 2^31, the limit that decoders by ECMA-426 apply |
| `SourceMap.DigitsAreBase64` | `hhds/sourcemap_emit.hpp:41-52` | The digits are those of the Base64 alphabet |
| `SourceMap.KnownNumbers` | `hhds/sourcemap_emit.hpp:41-52` | Some numbers and what they are written as |
| `SourceMap.AppendVlq` | `hhds/sourcemap_emit.hpp:41-52` | The 64-bit loop appends the base64 digits of the signed value |
| `SourceMap.NewLines` | `hhds/sourcemap_emit.hpp:132-137` | One separator for every line passed |
| `SourceMap.AppendSegment` | `hhds/sourcemap_emit.hpp:131-150` | A segment is appended with its separator and its four differences; a new line resets the generated column only |
| `SourceMap.KnownMappings` | `hhds/sourcemap_emit.hpp:127-150` | Three segments on two lines and what they are written as |
| `SourceMap.Mappings` | `hhds/sourcemap_emit.hpp:127-150` | The loop yields the encoding of the list, for any number of lines and segments |
| `SourceMap.MappingsRoundTrip` | `hhds/sourcemap_emit.hpp:127-150` | Decoding yields exactly the segments written, if and only if no difference reaches 2^31 |
| `SourceMap.SmallMapsFit` | `hhds/sourcemap_emit.hpp:41-52` | With all fields below 2^31 no difference does |
| `SourceMap.ResolvedOriginates` | `hhds/sourcemap_emit.hpp:107-125` | The resolved segments are those whose id has a place, in order, each with the path, line and column of that place |
| `SourceMap.FirstUsesNamed` | `hhds/sourcemap_emit.hpp:104-118` | Every source is listed once, at the place of its first use, and every path used is listed |
| `SourceMap.ResolveSegments` | `hhds/sourcemap_emit.hpp:94-125` | Unresolvable segments are dropped, the others take the path, line and column of the place of their id, and the sources are listed once each in order of first use |
| `SourceMap.BeforeIs` | `hhds/sourcemap_emit.hpp:90-92` | Segments are sorted by line, on one line by column, and those at one place in either order |
| `SourceMap.CanBeOrdered` | `hhds/sourcemap_emit.hpp:90-92` | Any segments can be put in such an order |
| `SourceMap.Render` | `hhds/sourcemap_emit.hpp:88-150` | For any order that the sort may leave, a consumer reads back exactly the resolved segments with their source names, if and only if the differences fit |
| `OccurrenceLibrary.HandlesAreUnique` | `hhds/graph.cpp:161-177` | Two handles of one table name the same path only if they are equal |
| `OccurrenceLibrary.PathTable.AppendPath` | `hhds/graph.cpp:161-177` | The handle returned names the path with one more step, and known handles keep their paths |
| `OccurrenceLibrary.SamePath` | `hhds/graph.cpp:520-542` | Walking up two tables in step decides whether two paths are equal |
| `OccurrenceTraversal.RecursiveVisit.VisitBody` | `hhds/graph.cpp:336-371` | The recursive visit appends the occurrences below the body and restores the set of active graphs |
| `OccurrenceTraversal.OccurrenceCursor.constructor` | `hhds/graph.cpp:416-423` | A new cursor stands on the first occurrence, with the rest to come |
| `OccurrenceTraversal.OccurrenceCursor.PushBody` | `hhds/graph.cpp:425-432` | Entering a body puts its occurrences in front of what was to come, unless the graph is active |
| `OccurrenceTraversal.OccurrenceCursor.Advance` | `hhds/graph.cpp:434-493` | A step moves to the next occurrence of the recursive visit, or to the end |
| `OccurrenceTraversal.Traverse` | `hhds/graph.cpp:398-502` | The cursor yields exactly the sequence of the recursive visit, and both end on cyclic libraries |
| `OccurrenceTraversal.VisitIsExact` | `hhds/graph.cpp:336-371` | An occurrence is listed exactly when a chain of descended calls, no graph within itself, leads to it |
| `OccurrenceTraversal.VisitIsDistinct` | `hhds/graph.cpp:336-371` | No occurrence is listed twice |
| `OccurrenceTraversal.VisitIsInOrder` | `hhds/graph.cpp:336-371` | Of two occurrences, the one whose chain of nodes and ordinals comes first in storage order is listed first, and a call before what is below it |
| `OccurrenceTraversal.TrailAsymmetric` | `hhds/graph.cpp:336-371` | That order is strict, so the visit has no other |
| `OccurrenceTraversal.NodeCount.CountBody` | `hhds/graph.cpp:287-334` | The 64-bit count is the exact number of occurrences, or nothing exactly when the body or a call below it exceeds 64 bits |
| `OccurrenceTraversal.GivesUpOnlyWhenTooBig` | `hhds/graph.cpp:312-329` | Without empty loops, the count gives up exactly when the number itself exceeds 64 bits |
| `OccurrenceTraversal.GivesUpExactly` | `hhds/graph.cpp:287-334` | For every library: the count gives up exactly when the number exceeds 64 bits, or when somewhere below, behind descended calls, a loop without ordinals has a callee that with its call does |
| `OccurrenceTraversal.CountIsLength` | `hhds/graph.cpp:287-334` | The grouped count is the length of the grouped listing for every policy, and the physical count that of the unrolled listing when verdicts do not depend on the path |
| `OccurrenceTraversal.EmptyLoopGivesUp` | `hhds/graph.cpp:312-319` | With loop domains that are accepted, an empty loop over a loop of 2^63 ordinals makes the count give up although nothing is below it |
| `OccurrenceTraversal.Compare` | `hhds/graph.cpp:208-218` | The listing, the cursor and the count of one view agree |
| `OccurrenceEdges.Resolve` | `hhds/graph.cpp:630-861` | The recursive resolvers, with their limit of 256 boundaries, return the list of all answers in edge order; where that list goes is in DriverChains and SinkChains, how far in OccurrenceConverse.InsReach |
| `OccurrenceEdges.InPins` | `hhds/graph.cpp:863-936` | The method returns the list Ins; that it holds exactly the chains and recurrences into a pin is OccurrenceConverse.InsAreExact |
| `OccurrenceEdges.OutPins` | `hhds/graph.cpp:938-993` | The method returns the list Outs; that it holds exactly the chains and recurrences out of a pin is OccurrenceConverse.OutsAreExact |
| `OccurrenceEdges.PickInOrder` | `hhds/graph.cpp:630-861` | Edges are followed in the order in which they are stored |
| `OccurrenceEdges.AnswersInOrder` | `hhds/graph.cpp:630-861` | What an earlier edge leads to is listed before what a later one leads to |
| `OccurrenceChains.DriverStep` | `hhds/graph.cpp:636-770` | For every view and every answer: one step from a driver leads exactly to the edges that feed it across one boundary, to the ordinal before, or past an empty loop, and stops exactly at the visible pin or at a pin of the call around it: the same input of the ordinal before, or a driver that the call feeds itself with |
| `OccurrenceChains.InputStep` | `hhds/graph.cpp:640-725` | An input of a body at any path leads exactly to the index at the boundary, to what drives the carry or the activation inside the ordinal before and past it, or to the edges outside and those from the call to itself |
| `OccurrenceChains.SinkStep` | `hhds/graph.cpp:778-860` | For every view and every answer: one step from a sink leads exactly to the edges that it feeds across one boundary, or to the visible pins |
| `OccurrenceChains.DriverChains` | `hhds/graph.cpp:630-771` | Resolving a driver finds exactly the pins at the far ends of chains of stored edges, of up to 257 edges less the boundaries already crossed, pins of calls that are entered included |
| `OccurrenceChains.SinkChains` | `hhds/graph.cpp:773-861` | Resolving a sink finds exactly the visible pins at the far ends of chains of stored edges, of up to 257 edges less the boundaries already crossed |
| `OccurrenceConverse.InsAreExact` | `hhds/graph.cpp:863-936` | For every view, every listed sink, of calls that are entered as well, and every pin: the pin is among the in-edges exactly when it ends a chain of stored edges towards the drivers, recurs into the sink from the ordinal before, or supplies an index |
| `OccurrenceConverse.OutsAreExact` | `hhds/graph.cpp:938-993` | For every view, every listed pin, of calls that are entered as well, and every other: it is among the out-edges exactly when it ends a chain of stored edges towards the sinks, or the pin recurs into it |
| `OccurrenceConverse.InsReach` | `hhds/graph.cpp:630-634` | In-edges find the end of every chain of at most 257 stored edges, of 256 when the sink is an input that is looked up through a body |
| `OccurrenceConverse.OutsReach` | `hhds/graph.cpp:773-777` | Out-edges find the end of every chain of at most 257 stored edges |
| `OccurrenceConverse.InsReachNoFurther` | `hhds/graph.cpp:630-634` | Every in-edge that neither recurs nor supplies an index is at the end of a chain of at most that length |
| `OccurrenceConverse.SiteAgreesIff` | `hhds/graph.cpp:630-861` | For every call site: both directions take the same steps at it, between edges on both sides of its boundary, between its pins and the edges inside, and between its pins, if and only if a condition on its loop, its verdict and the stored edges at its ports and inside holds, case by case for empty, opaque, grouped and unrolled loops |
| `OccurrenceConverse.Converse` | `hhds/graph.cpp:630-993` | Where every site meets that condition: a visible sink lists a visible driver exactly when the driver lists the sink, and lists any other pin exactly when that is one of an entered call which leads to the sink by an edge to itself; an input that is looked up through a body reaches one boundary less |
| `OccurrenceConverse.ReturnsFound` | `hhds/graph.cpp:711-720` | A pin of an entered call that leads to a sink by an edge to the call itself lists that sink, one boundary further |
| `OccurrenceConverse.OutsAreVisible` | `hhds/graph.cpp:938-993` | What a visible driver lists are visible sinks, so that the converse leaves none out |
| `OccurrenceConverse.LoopBodyBreaksConverse` | `hhds/graph.cpp:779-805` | In an unrolled loop with a body, the first ordinal is found to drive a reader that only lists the last |
| `OccurrenceConverse.GroupedBodyBreaksConverse` | `hhds/graph.cpp:829-840` | In a grouped loop with a body, an input lists a driver outside that only lists the call |
| `OccurrenceConverse.EmptyLoopBreaksConverse` | `hhds/graph.cpp:736-753` | A loop of no ordinals is bypassed in one direction only |
| `OccurrenceConverse.InactiveLoopBreaksConverse` | `hhds/graph.cpp:675-678` | In the second ordinal of an unrolled loop that can be inactive, an input lists the same input of the first ordinal, which lists only that of the second |
| `OccurrenceCycles.CycleOfEdges` | `hhds/graph.cpp:863-993` | A cycle of occurrences, of all that are listed or of those at which resolutions end, runs through a cycle of stored edges of the unrolled view |
| `OccurrenceCycles.CycleInBody` | `hhds/graph.cpp:630-861` | Every such cycle contains one in some body that uses no carry, with every call, or only every unrolled loop, as one node; all its edges are edges of the first |
| `OccurrenceCycles.UnrollingAddsNoCycle` | `hhds/graph.cpp:898-919` | Every cycle of occurrences comes from one of stored edges in one body without carries: for all occurrences that are listed with every call as one node, and for those at which resolutions end with only loops as nodes and other calls looked through |
| `OccurrenceCycles.AcyclicStays` | `hhds/graph.cpp:717-722` | A library whose bodies are acyclic in that sense without carries has no cycle of occurrences when unrolled |
| `OccurrenceCycles.FlatStaysAcyclic` | `hhds/graph.cpp:717-722` | When no body has a cycle of stored edges, the carries of unrolled loops left out, no cycle runs through the occurrences that are listed |
| `OccurrenceCycles.LookingThroughFails` | `hhds/graph.cpp:666-694` | A loop has to be one node for that: a view whose stored edges form no cycle without carries when the body of the loop is looked through, but whose occurrences do |
| `OccurrenceCycles.CallsLookedThroughFail` | `hhds/graph.cpp:336-371` | For the calls that are listed, every call has to be one node: a view that is acyclic when they are looked through, in which a call with two unconnected ports lies on a cycle of occurrences |
| `Peeling.OrderedIsAcyclic` | `hhds/graph.cpp:3832-3847` | A node that a dependency order places is on no cycle and downstream of none |
| `Peeling.StuckIsCyclic` | `hhds/graph.cpp:3848-3855` | Nodes that all have a predecessor among themselves are on a cycle or downstream of one |
| `Peeling.LeftIsCyclic` | `hhds/graph.cpp:3848-3855` | When nothing is free any more, exactly the cyclic nodes are left |
| `OccurrenceOrder.Dependencies` | `hhds/graph.cpp:3777-3813` | The successor lists hold exactly the kept dependencies, dropping the in-edges of cut nodes forward and their out-edges in reverse, and the counts agree |
| `OccurrenceOrder.Relax` | `hhds/graph.cpp:3842-3846` | Taking a node leaves right counts for the others and makes ready exactly those left free |
| `OccurrenceOrder.MainPhase` | `hhds/graph.cpp:3815-3847` | The main phase takes the least free node each time and leaves exactly the cyclic nodes |
| `OccurrenceOrder.OrderNodes` | `hhds/graph.cpp:3769-3864` | Every ordinary node is shown once and a cut node 1, 1, 2 or 0 times by placement; main phase, tail in storage order, then the cuts |
| `OccurrenceOrder.DependencyFirst` | `hhds/graph.cpp:3793-3803` | In the main phase a dependency is shown before what waits for it |
| `OccurrenceOrder.LeastIsFirst` | `hhds/graph.cpp:3817-3847` | The main phase is the lexicographically least order that respects the dependencies |
| `HierarchyOrder.VisitedIsListed` | `hhds/graph.cpp:336-371` | The pins of every occurrence that the visit yields are pins that the results about edges cover |
| `HierarchyOrder.NoneCyclic` | `hhds/graph.cpp:3777-3813` | Where no body has a cycle of stored edges without carries, no occurrence waits for itself or for one that does, forward or in reverse |
| `HierarchyOrder.OrderHierarchy` | `hhds/graph.cpp:4003-4011` | Ordering what the visit yields then leaves nothing for the tail, and respects every edge between two occurrences that no cut drops |
| `BodyTraversal.CountAll` | `hhds/graph.cpp:2176-2187` | The initial counts are the edges each node waits for |
| `BodyTraversal.EarlyIsUnique` | `hhds/graph.cpp:2214-2222` | The nodes of the first pass are determined by the body |
| `BodyTraversal.Propagate` | `hhds/graph.cpp:2196-2212` | Emitting a node leaves right counts and queues exactly the nodes behind the scan that became free |
| `BodyTraversal.DryRun` | `hhds/graph.cpp:2189-2235` | The cached list completes the first pass to an order of exactly the acyclic nodes |
| `BodyTraversal.TraversalCache.Ensure` | `hhds/graph.cpp:2113-2372` | Caches are built when missing and kept when present |
| `BodyTraversal.BodyIterator.constructor` | `hhds/graph.cpp:4130-4148` | A new iterator stands on the first node of the walk, with the rest to come |
| `BodyTraversal.BodyIterator.Advance` | `hhds/graph.cpp:4283-4363` | A step moves to the next node of the walk, through its four phases |
| `BodyTraversal.Walk` | `hhds/graph.cpp:4130-4363` | The iterator replays the order of the dry run: first pass, cached list, tail, and the cuts when they come last |
| `BodyTraversal.WalkShowsOnce` | `hhds/graph.cpp:4283-4363` | Every live node is shown once, and a cut node as its placement says |
| `BodyTraversal.TailIsCyclic` | `hhds/graph.cpp:4327-4344` | The tail holds exactly the nodes on or downstream of a cycle of uncut nodes |
| `BodyTraversal.WalkRespectsEdges` | `hhds/graph.cpp:2189-2235` | The ends of an edge between uncut nodes stand in the order of the edge unless its end is in the tail |
| `BodyTraversal.Nodes` | `hhds/graph.cpp:4424-4554` | For the forward walk and its mirror: every live node once, a cut node by placement, and the ends of an edge between uncut nodes in order unless the later one is on a cycle of such edges or behind one; the walk is the first pass, with the cuts that come first at their places in the scan, the nodes that became free later, the tail, and the cuts that come last, each but the second in scan order |
| `PackedEdges.DecodeEncode` | `hhds/graph.cpp:1382-1434` | A packed edge is read back as it was, and only an edge to the sink of the node with the entry's own number is packed into the empty slot |
| `PackedEdges.EncodeDecode` | `hhds/graph.cpp:1501-1515` | A slot is the packed form of what it is read as, unless it spells the difference zero as negative |
| `PackedEdges.IdParts` | `hhds/graph.cpp:1342-1375` | An id is a number with a mark for drivers and one for pins |
| `PackedEdges.PlaceInline` | `hhds/graph.cpp:1614-1681` | An edge, present or not, goes to a free slot or long word exactly when there is one for it, and the entry then holds it once more and all else as before; or the entry is full and unchanged |
| `PackedEdges.Flush` | `hhds/graph.cpp:1587-1600` | The set made of an entry holds exactly its inline edges, each once |
| `PackedEdges.RemoveInline` | `hhds/graph.cpp:1690-1736` | The given edge is held once less and all else as before, and the result tells whether it was there |
| `PackedEdges.EdgeStore.Alloc` | `hhds/graph.hpp:162-176` | The set handed out is empty and belongs to no entry, and every other set of the pool is free or in use |
| `PackedEdges.EdgeStore.Create` | `hhds/graph.cpp:2436-2444` | A new entry holds no edge and instantiates no graph, and every other entry stays as it is |
| `PackedEdges.EdgeStore.Promote` | `hhds/graph.cpp:1552-1612` | Moving to an overflow set keeps each edge of the entry once, every other entry as it is, and the graph of every instance |
| `PackedEdges.EdgeStore.Add` | `hhds/graph.cpp:1614-1683` | Also for an edge that is present: inline it is then held once more, in a set once; all other entries are unchanged, and no instance changes its graph |
| `PackedEdges.EdgeStore.Remove` | `hhds/graph.cpp:1685-1737` | In any regime the edge is held once less if it was held, and all else is unchanged, the graphs of instances too |
| `PackedEdges.EdgeStore.SetSubnode` | `hhds/graph.cpp:1758-1780` | Making a node an instance names the graph and keeps each of its edges; no other entry changes its edges or its graph |
| `PackedEdges.EdgeStore.Edges` | `hhds/graph.cpp:1784-1829` | The range lists the edges of the entry, each as often as it is held; inline ones in the order of the slots and then the words |
| `PackedEdges.EdgeStore.Discard` | `hhds/graph.cpp:2809-2830` | Giving up an entry hands its set back to the pool, so that none is lost, and touches no other entry |
| `PackedEdges.AddEdge` | `hhds/graph.cpp:3551-3561` | Present or not, the edge is known at both ends afterwards, no other edge and no graph of an instance changes; where no edge was held twice, none is after a new one |
| `PackedEdges.DelEdge` | `hhds/graph.cpp:3570-3581` | Over all marks of the two ids, and however often the edges are held: exactly this edge goes, at both ends, if and only if the marks fit and neither end holds it twice, or there is no such edge and what is named instead is missing or held more than once; no instance changes its graph |
| `PackedEdges.CleanIs` | `hhds/graph.cpp:3570-3581` | Where no edge is held twice, that is: a marked driver comes with an unmarked sink, the two places are those of one self-edge, or the two have no edge in either direction |
| `PackedEdges.UnmarkedDriverLeavesHalf` | `hhds/graph.cpp:4648-4661` | Two unmarked ids leave the edge known at its sink alone |
| `PackedEdges.MarkedSinkLeavesHalf` | `hhds/graph.cpp:4648-4661` | Two marked ids leave it known at its driver alone |
| `PackedEdges.ExchangedMarksReverse` | `hhds/graph.cpp:4648-4661` | An unmarked driver and a marked sink delete the edge in the other direction |
| `PackedEdges.SecondCopyStays` | `hhds/graph.cpp:1469-1485` | An edge that one end holds twice and the other once is left at one end, with marks that fit |
| `PackedEdges.DeletePin` | `hhds/graph.cpp:2759-2831` | The edges of the pin go at the far ends as often as the pin holds them; nothing mentions it any more, and every edge left is known at both ends, if and only if no far end held one more often; every entry left keeps its graph |
| `PackedEdges.OnceIsSettled` | `hhds/graph.cpp:2759-2831` | Where no edge is held twice that is always so |
| `PackedEdges.DoubledEdgeStays` | `hhds/graph.cpp:2782-2792` | A node that holds an edge twice, in slots, of which the pin holds one, in a set: the deletion leaves it behind |
| `PackedEdges.DeleteNode` | `hhds/graph.cpp:5569-5631` | The same for a node with its pins, whose mutual edges are listed from both ends |
| `ChunkTree.StoredIsUnique` | `hhds/tree.hpp:175-179` | A position packs its chunk and offset without loss |
| `ChunkTree.AppendWithin` | `hhds/tree.hpp:403-419` | A further sibling in the chunk of the last one: the chunks stand for the tree with one more last child |
| `ChunkTree.AppendBeyond` | `hhds/tree.hpp:356-370` | The same when the chunk is full and a new one is linked behind it |
| `ChunkTree.AppendBelow` | `hhds/tree.hpp:2705-2716` | The same for a first child |
| `ChunkTree.Store.AddRoot` | `hhds/tree.hpp:2685-2694` | The store stands for a tree of one node |
| `ChunkTree.Store.AddChild` | `hhds/tree.hpp:2696-2717` | The tree grows by exactly one last child |
| `ChunkTree.Store.AppendSibling` | `hhds/tree.hpp:2659-2665` | The parent of the node gets exactly one last child more |
| `ChunkTree.LinksOf` | `hhds/tree.hpp:2622-2638` | The chunk links of a node are its first child, next sibling and parent in the tree |
| `ChunkTree.PreOrderIterator.Advance` | `hhds/tree.hpp:929-956` | A step moves to the next node, down, across or up |
| `ChunkTree.PreOrder` | `hhds/tree.hpp:889-961` | The iterator lists its start and what then comes |
| `ChunkTree.WalkIsSubtree` | `hhds/tree.hpp:929-956` | That is the subtree in pre-order exactly when the start has children, or neither it nor an ancestor has a next sibling |
| `ChunkTree.PostOrderIterator.Advance` | `hhds/tree.hpp:1140-1159` | A step moves to the first node of the next sibling's subtree, or to the parent |
| `ChunkTree.PostOrder` | `hhds/tree.hpp:1115-1160` | From any node the iterator lists the subtree in post-order |
| `TreeDump.ParsePrefix` | `hhds/tree_serial.cpp:101-138` | The loop reads the drawing of a line |
| `TreeDump.PrefixParses` | `hhds/tree_serial.cpp:101-138` | A drawing is read off in full, with its depth, whatever follows it |
| `TreeDump.PiecesTold` | `hhds/tree_serial.cpp:101-133` | The reader tells the pieces of a drawing apart by their first characters, blanks by all four, and takes one only when there is room for the whole |
| `TreeDump.ParseLine` | `hhds/tree_serial.cpp:148-190` | The loops read type name and quoted text |
| `TreeDump.TextComesBack` | `hhds/tree_serial.cpp:14-42` | Read from the stream, a line gives back its text, and no other node, exactly when the text is the type name, or is not empty and holds neither a quote nor a newline |
| `TreeDump.NewlineSplitsNode` | `hhds/tree_serial.cpp:279-286` | A text with a newline is read as two nodes |
| `TreeDump.SplitUndoesStream` | `hhds/tree_serial.cpp:58-72` | Reading lines undoes writing them exactly when none holds a newline |
| `TreeDump.TypeComesBack` | `hhds/tree_serial.cpp:256-263` | A type comes back exactly when no earlier one has its name |
| `TreeDump.LineParses` | `hhds/tree_serial.cpp:148-190` | A line gives back its depth and its name |
| `TreeDump.WriteNode` | `hhds/tree_serial.cpp:14-68` | The writer appends the lines of the subtree, each ended by a newline, read from the chunk links |
| `TreeDump.WriteDump` | `hhds/tree_serial.cpp:70-84` | The stream is the name of the tree and the lines of its nodes |
| `TreeDump.DrawingConnects` | `hhds/tree_serial.cpp:14-68` | The drawing is connected: a branch or a bar goes on in the line below exactly where the drawing there comes from above, and nothing goes on below the last line |
| `TreeDump.PiecesAreBoxes` | `hhds/tree_serial.cpp:14-68` | The pieces of the drawing are the light box-drawing characters in UTF-8 |
| `TreeDump.DumpIsListing` | `hhds/tree_serial.cpp:14-68` | Read back from the stream, the lines are the labels in pre-order with their depths, if and only if every label survives |
| `TreeDump.GetLine` | `hhds/tree_serial.cpp:267-282` | Takes the next line off the stream |
| `TreeDump.TrimEndIs` | `hhds/tree_serial.cpp:272-275` | The name of the tree loses exactly the blanks and line ends at its end |
| `TreeDump.DumpComesBack` | `hhds/tree_serial.cpp:70-328` | After the line with its name, what is read from the dump of a tree is its listing if and only if every label survives |
| `TreeDump.DumpBegins` | `hhds/tree_serial.cpp:70-84` | The first row that is read from any dump is at the top, whatever the labels hold |
| `TreeDump.ListingDetermines` | `hhds/tree_serial.cpp:282-325` | Labels with depths determine the tree |
| `TreeDump.EdgeGrows` | `hhds/tree_serial.cpp:296-301` | A last child of a node on the stack adds exactly one row at the end |
| `TreeDump.DumpReader.AddRow` | `hhds/tree_serial.cpp:289-317` | A row is added to the tree, and the stack follows, when it nests below the rows before it; after the first row, only then |
| `TreeDump.ReadDump` | `hhds/tree_serial.cpp:249-328` | The first line is the name; the further lines, empty ones skipped, are read to a tree with just their rows if and only if there are none or these nest, given that the first is at the top |
| `TreeDump.ThereAndBack` | `hhds/tree_serial.cpp:70-328` | For every tree whose name holds no newline and whose types have names without blanks and newlines: the reader accepts the dump and has the same shape, types and texts if and only if every label survives, that is its type is the first of its name and its text comes back |

## Left out

- Integer and pointer widths: costs of the edit distance are real numbers, counters of the lock are natural numbers, and table indices, file numbers and positions do not wrap; the 64-bit count, the 64-bit VLQ carrier, the 16-bit edge slots and the cyclic 64-bit ids are modelled as such.
- The hash of the source locator is an arbitrary function, so that collisions are in scope; rapidhash is not part of this model.
- Text of canonicalizer lines: a line is a record of its depth, type name, reference name and text; the helpers that cut these out of the line, and the sorting of commutative operands, are not modelled.
- `StatementExchange.ExchangeIff`: does not model exchanges that bring together an attribute setting and an assignment whose first references both lack a name while one of the two has a named reference further on; taken as one, such a pair writes or reads something else than the two did, so that its dependences are not theirs. The order in which the canonical pass takes two statements depends on all others that are ready meanwhile, so the condition on a pair that is brought together speaks of that order.
- `StatementCanonicalizer.BuildGraph`: does not model groups as line indices; a group holds the contents of its lines.
- `SourceLocatorProgram.MergeKeepsMeaning`: does not model a merge in which a file is superseded; what ids stand for after one is stated exactly by `SourceLocatorProgram.SourceLocator.Merge`, but ids of the old version are gone.
- `MergeResults.MergeResolves`: does not model what happens to the combinations of a table in front of one that supersedes a file; whether one of them loses its parent depends on every id that is dropped and taken again on the way.
- The base of a locator is a snapshot of its chain of tables; persistence, lazy loading, file contents, line offsets, `import_from` and the fast minter are not modelled.
- `WriterPreferringMutex.WriterGetsItsTurn`: does not model a fair scheduler, so it bounds what can overtake a waiting writer and states when it is awake or being woken, not that it is eventually scheduled.
- `SlotProtocol.ReachableSafe`: does not model weak memory orders or the pointer control block; every step is atomic, and `get_graph` handles, which bypass the slot, are outside it.
- The JSON text around the `mappings` string, embedded contents and names.
- `SourceMap.Render`: does not model the library's sort; it holds for every order that a sort by line and column may leave.
- Paths of the hierarchy in visits and resolutions are lists of steps rather than their handles; `OccurrenceLibrary.HandlesAreUnique` says that the two stand for each other.
- The memo of hierarchy verdicts, loop validation errors, names of occurrences, instance groups and the epoch checks against mutation during a walk.
- `OccurrenceConverse.Converse`: does not model graphs whose unrolled loops break the rules that validation checks (one carry for an input, roles that do not overlap, ports that are inputs or outputs and not both).
- `BodyTraversal.TraversalCache.Ensure`: does not model caches patched after an edge was added or removed; a cache is built for the body it is used with.
- `PackedEdges.DeleteNode`: does not model the linked list of the pins of a node; it is given as a sequence. The four slots of a word are a sequence of 16-bit numbers, not shifts in one 64-bit word.
- `ChunkTree.Store.AddChild`: does not model deletion or insertion between siblings, nor the validity bits that only those operations clear, nor subtree references.
- `HierarchyOrder.OrderHierarchy`: does not model the ports of a node; where the in-edges or out-edges of the listed occurrences lead is given as a listing, which is required to agree with the in-edges and out-edges of their pins.
- `TreeDump.ThereAndBack`: does not model attributes, subtree references or several roots side by side; a further row at depth zero is refused by `TreeDump.DumpReader.AddRow`.
- `TreeDump.ParseLine`: does not model what follows the quoted text of a line.
- Attribute stores, printing, excerpts, command lines, files on disk and the vendored containers.
