# baki core, verified

A Dafny model of the algorithms at the centre of baki's `core/` library, which parses, analyses, patches and
caches Power Automate flows, with proofs of what each of them is for. `dafny verify dfyconfig.toml` checks the
whole project. One module models one component:

| module | what it is about | main results |
|---|---|---|
| `CallCycles` | Tarjan's algorithm over the subflow call graph | the report is exactly the subflows with a call path back to themselves, once each, in document order, for every neighbour order |
| `FillProtocol`, `FillOrigins` | fenced cache fills, as interleaved steps | over every run: no stale value stays cached outside an invalidation; no abandoned fill is stored or handed over; what a caller is served was read for its own key; a joiner waits for its own leader; the opposite clean-up order is refuted by a run |
| `FlowParser`, `FlowForest`, `FlowBounds`, `FlowTrees` | the parser's stack machine | pre-order is creation order for every token sequence; stack and tree depth at most 201, which is reached, and by which blocks; counts, parents and the deepest level of the finished document |
| `FlowNesting`, `FlowEnds` | what the parser's stack machine is for | for every token sequence, which block each token makes and under which open block, told without the stack; one END for LOOP, IF, SWITCH and BLOCK, their last child, and exactly when a handler gets more than it should |
| `BlockRemoval`, `BlockPatches` | removing a block's lines | the removed range contains the span of every block of the subtree and meets no other block's; the patch, applied, removes exactly those lines |
| `BlockPaths`, `BlockDiff` | flattened blocks; LCS diff and its coarse fallback | the list holds the block at every path once, in document order; valid edit scripts on both paths, no common subsequence keeps more, unchanged exactly when equal, path by path |
| `FuzzyDistance` | two-row Levenshtein with early exit | least number of edits, stated over chains of single edits; exact threshold |
| `KeyCodec` | length-prefixed cache keys | accepted inputs, which error otherwise, both round trips, injectivity, size |
| `SizedLru` | cost-bounded LRU | map and list agree, exact accounting, the longest fitting prefix survives |
| `ReportCache` | the analyzer's report cache | exact byte accounting, bounds, no clashing entries, keys that never overwrite; least-recent eviction, and exactly when overlapping lookups lose it |
| `FixLoop` | the iterative fix loop | at most min(Limit, 3F) fixes for any parser, rules and fixers; why it stops; that it fixes all there is when every fix does its work; the result is the parse of the patched source |
| `SourcePatch`, `PatchEffects`, `LineEndings` | line patches and CRLF | insertion and removal at original line numbers; what a patch of mixed kinds comes to; exactly when CRLF is preserved and when an insertion appends, from the operations alone |
| `DataFlow` | limited, indexed data-flow edges | every list is the part of the naive scan that the limits leave; the truncation flag is exact |
| `TaintFlow` | the taint worklist | the least closed set, each variable enqueued once |
| `FlowIndex`, `DocumentOrder`, `TopLevelOrder`, `RuleFindings`, `ShardedWalk` | structural indexes, document-order sort, sharded dispatch | the findings are, one to one, what the rules' checks return, with severity, category and stage as configured; exactly when the fast path changes nothing of the stable sort, and that minted ids make it so; one answer for every worker count and every schedule, cancelled walks and visitors included |
| `Suppression`, `SuppressionAudit`, `SuppressionEntries`, `SuppressionMeaning` | `pad-ignore` suppression and its audit | an entry names its comment, target and subflow, and is live exactly when its directive alone silences a finding; the pass is the union of its directives |
| `PropertyScanner`, `PropertyPairs` | the run-skipping `Key: value` scanner | the one list of pairs the text has; linear work |
| `Options`, `Sorting` | a missing value; the stable sort | the contract of the sorting library |

State that the source updates in place is a class or an array here (`Detector`, `ParseState`, both caches,
`Collector`, `Inventory`, `Context`, the LCS matrix, the sorted findings), and its methods are tied to functions of
the old state; loops stay loops. Map iteration, goroutine scheduling and calls into rules, fixers and the parser are
arbitrary choices or uninterpreted functions, so the results hold for all of them. Clocks and contexts are
parameters or steps.

Some properties one might expect are false of the code, and are settled exactly:

- Patching the CRLF form of a source does not always give the CRLF form of the patched source. `CrlfLostOnOneLine` is a
  failing family; `CrlfKeptExactly` is the condition on the source and the operations, both ways.
- core/models/patch.go:18-20 says that an insertion at line 0 or beyond the end appends, while
  core/analyzer/autofix.go:116-119 skips it. `InsertAtZeroIsDropped` is the failing input; `OutsideAppendsExactly` says
  when such an insertion does append. The model follows the code.
- The fast path of the document-order sort can leave findings out of order when an END has another block's id
  (`SharedEndMisleads`); `DocSortIsStableSort` is the condition on the document, both ways, and
  `MintedPlacesFollow` that ids as the parser mints them meet it.
- Lookups of one report that overlap can store their recency stamps in the opposite order, and a more recently used
  report is then evicted first. `Inversion` is a schedule that does so from any state with two reports; `Store` says
  exactly which store loses the order, and everything else holds regardless.
- core/parser/parser.go:309-368 means the first END after ON BLOCK ERROR for the handler section of the BLOCK it
  converted. When that BLOCK has been closed by an indentation or a subflow boundary, the END goes to another open
  handler instead: in `ThreeEnds` a BLOCK gets three. `SectionsEndExactly` is the condition, both ways: every such END
  finds innermost a converted handler without an END child.
- The block list that versions are compared by does not tell nesting: a block moved out of the one before it, with its
  indentation kept, goes unnoticed (`NestingIsNotListed`). For forests of one shape `DiffSubflow` misses nothing.
- Deleting the key before bumping the fence would leave a stale value (`DeleteFirstLeavesStale`), which is why the
  order matters that `NoStaleValueCached` assumes.

## Model

| member | source | states |
|---|---|---|
| `CallCycles.DetectCircularDeps` | core/analyzer/metrics.go:187-240 | the result is `CycleReport`, for every order in which callees are visited |
| `CallCycles.CycleReportMeaning` | core/analyzer/metrics.go:232-239 | the report holds exactly the listed subflows with a non-empty call path to themselves, ordered by first occurrence, hence once each |
| `CallCycles.Detector.VisitAll` | core/analyzer/metrics.go:227-231 | after all roots are visited, a subflow is marked exactly when it is on a cycle |
| `CallCycles.Detector.Connect` | core/analyzer/metrics.go:196-225 | one recursive call keeps the search invariant and leaves a low-link that is a reachable stacked subflow's number and a bound on every call back into the older stack |
| `CallCycles.Detector.Follow` | core/analyzer/metrics.go:201-208 | following one callee, new or seen, keeps the low-link both reachable and low enough |
| `CallCycles.Detector.PopComponent` | core/analyzer/metrics.go:212-224 | pops exactly the stack above the root and marks it when it has several members or calls itself |
| `CallCycles.PushKeepsInv` | core/analyzer/metrics.go:197-200 | entering a subflow keeps the invariant: numbering, reachability down the stack and to an open call, settled subflows closed under calls and answered correctly |
| `CallCycles.ReturnKeepsInv` | core/analyzer/metrics.go:209-211 | returning with a smaller low-link keeps it |
| `CallCycles.PopKeepsInv` | core/analyzer/metrics.go:212-224 | popping a sealed component keeps it |
| `CallCycles.SealedCyclic` | core/analyzer/metrics.go:212-224 | a member of a sealed component is on a cycle exactly when the component has several members or its root calls itself |
| `CallCycles.AllSettled` | core/analyzer/metrics.go:227-231 | with no call open, every visited subflow is marked exactly when it is on a cycle |
| `CallCycles.ReportOnce` | core/analyzer/metrics.go:232-239 | the document-order pass reports each marked subflow at its first occurrence only |
| `FillProtocol.NoStaleValueCached` | core/cache/typed.go:12-20 | in every interleaving, a cached value under a key with no invalidation in progress is the value of the last write |
| `FillProtocol.StepKeepsFresh` | core/cache/typed.go:182-202 | every step keeps: cached values current unless being invalidated, and every captured fence either outdated or backed by a current read |
| `FillProtocol.RunKeepsFresh` | core/cache/typed.go:141-202 | so does every run |
| `FillProtocol.AbandonedFillNeverUsed` | core/cache/typed.go:128-202 | a value read by a fill whose leader's context ended before it returned is never cached, delivered to a joiner or served |
| `FillProtocol.StepKeepsValues` | core/cache/typed.go:141-202 | every step keeps the bookkeeping behind that: attempts, fills and liveness of every caller's value |
| `FillProtocol.FillsAreShared` | core/cache/typed.go:141-181 | no caller fills twice, one key has at most one leader at a time, and a joiner's leader is still leading its key |
| `FillProtocol.StepKeepsFlights` | core/cache/typed.go:141-181 | every step keeps flights and leaders in one-to-one correspondence |
| `FillProtocol.RunKeepsSound` | core/cache/typed.go:141-202 | so does every run, together with the value bookkeeping |
| `FillOrigins.AnswersHaveSources` | core/cache/typed.go:128-181 | in every run, a value cached under, delivered to or served to a caller of a key was read for that key, at a version not after the current one; a fill error was reported by a fill of that key, and a context error goes only to a caller whose context has ended |
| `FillOrigins.RunKeepsSource` | core/cache/typed.go:141-202 | every run keeps that of all values and results on their way |
| `FillOrigins.StepKeepsSource` | core/cache/typed.go:141-202 | so does every step |
| `FillOrigins.ConcludedKey` | core/cache/typed.go:131-151 | the end of a fill touches callers of its own key only |
| `FillOrigins.JoinerWaits` | core/cache/typed.go:150-157 | a joiner leaves its flight only when its own leader ends, with that leader's result, and is told that the leader is gone only when the leader's context has ended |
| `FillOrigins.FlightEnds` | core/cache/typed.go:150-157 | when a leader ends, every joiner of its flight gets its result |
| `FillOrigins.ReceiveMeaning` | core/cache/typed.go:158-181 | in every run, what a result comes to: an answer, the fill's error for a live caller, the context's for one whose context has ended; a live caller of a gone leader tries again, alone after the third time |
| `FillOrigins.StoredUnlessBumped` | core/cache/typed.go:183-201 | a fill's value is stored exactly when its fence has not been bumped since it was read |
| `FillProtocol.DeleteFirstLeavesStale` | core/cache/typed.go:12-20 | with the delete before the bump there is a run that ends with a stale value cached and no invalidation in progress |
| `FlowParser.ParseTokens` | core/parser/parser.go:40-72 | the mutable parser computes `Parse` for every token sequence; `FlowNesting.Nesting` and `FlowEnds` say what that is |
| `FlowParser.ParseState.ProcessToken` | core/parser/parser.go:40-72 | one token changes the parser's variables as `Step` says |
| `FlowParser.ParseState.PopDeeper` | core/parser/parser.go:882-887 | pops exactly the entries on top that are indented at least as far |
| `FlowParser.ParseState.HandleBranch` | core/parser/parser.go:215-256 | CASE, DEFAULT and ELSE return to their construct or do nothing |
| `FlowParser.ParseState.HandleErrorHandlerStart` | core/parser/parser.go:169-195 | converts an open BLOCK or inserts a guarded handler |
| `FlowParser.ParseState.HandleEnd` | core/parser/parser.go:309-368 | one END does to the state what `CloseBlock` says; `FlowNesting.EndStep` says which block that ends |
| `FlowParser.ParseState.InsertGuarded` | core/parser/parser.go:889-898 | a construct is refused when the stack is full, else attached to the right parent and pushed |
| `FlowNesting.Nesting` | core/parser/parser.go:40-449 | after any tokens, the next one makes a block of its own type: an ordinary one under the last open block of smaller indentation, CASE and DEFAULT under the innermost open SWITCH, ELSE under the innermost open IF, an END under the innermost open closable block, or handler while a section is pending; each exactly when there is room or such a block |
| `FlowNesting.ParseNests` | core/parser/parser.go:40-449 | the stack holds exactly the blocks that are open, which is told from the tokens and the blocks made, with the indentations they were opened at |
| `FlowNesting.OldBlocks` | core/parser/parser.go:169-449 | earlier blocks keep parent, lines and type, but for a converted BLOCK, and only the new block's parent gains a child, its last |
| `FlowNesting.IndentStep` | core/parser/parser.go:882-898 | an ordinary block hangs under the last open block of smaller indentation, and is made exactly when fewer than 200 blocks are open |
| `FlowNesting.BranchStep` | core/parser/parser.go:215-256 | a branch hangs under the innermost open block of its construct, and is made exactly when there is one |
| `FlowNesting.EndStep` | core/parser/parser.go:309-368 | an END hangs under the innermost open block that can be closed, or while a handler section is pending under the innermost open handler, and is made exactly when there is one; what stays open is as `Closes` says |
| `FlowNesting.HandlerStep` | core/parser/parser.go:169-195 | ON BLOCK ERROR makes a handler of the BLOCK that is the innermost open block and hangs its own line under it; elsewhere it opens a handler by indentation |
| `FlowEnds.EndsOfBlock` | core/parser/parser.go:309-368 | a block's END children are those of handler sections, which only a handler has and which leave it open, and its own, which closes it and is its last child |
| `FlowEnds.OneEnd` | core/parser/parser.go:330-366 | LOOP, IF, SWITCH and BLOCK have at most one END child, their last, which closes them |
| `FlowEnds.SectionsEndExactly` | core/parser/parser.go:313-329 | no block gets more ENDs than its own and, if it was converted, one for its section, exactly when every END of a pending section finds innermost a converted handler without an END child |
| `FlowEnds.ThreeEnds` | core/parser/parser.go:313-329 | a token sequence where a converted BLOCK gets three ENDs |
| `FlowForest.ParseChained` | core/parser/parser.go:40-449 | after any token sequence the stack is a root-to-node chain of last children, and the document's pre-order is the creation order, every block once |
| `FlowForest.StepKeepsChained` | core/parser/parser.go:40-449 | every token keeps that |
| `FlowForest.GrowAtSpine` | core/parser/parser.go:889-898 | a block added under the top of the stack comes last in pre-order |
| `FlowForest.AddBlockKeepsChained` | core/parser/parser.go:889-898 | adding a block under the top of the stack, or as a root, keeps the chain |
| `FlowBounds.ParseShallow` | core/parser/parser.go:100-112 | after any token sequence the stack and every block are at level 201 at most; the 201st open block is a branch, and a block at level 201 is a branch, an END, or the ON BLOCK ERROR line of a converted BLOCK |
| `FlowBounds.StepKeepsShallow` | core/parser/parser.go:215-256 | every token keeps that, the unguarded branches included |
| `FlowBounds.LastLevelReached` | core/parser/parser.go:309-368 | 200 nested loops and an END put the END at level 201 |
| `FlowTrees.FinalizeSubflows` | core/parser/parser.go:900-926 | the finished subflows are the value trees, the total is the number of blocks created, and the depth is that of the deepest block, 0 without blocks, at most 201 |
| `FlowTrees.TreesInPreOrder` | core/parser/parser.go:928-936 | a value tree lists the blocks in the forest's pre-order |
| `FlowTrees.TreesParents` | core/parser/parser.go:928-936 | every block of a value tree names the block it hangs under as its parent |
| `FlowTrees.CountMatches` | core/parser/parser.go:938-944 | `CountDescendants` counts each block of the tree once |
| `FlowTrees.TreesDepth` | core/parser/parser.go:946-955 | `computeMaxDepth` is the largest depth of any block of the trees |
| `BlockRemoval.RemovalIsExact` | core/analyzer/autofix.go:492-498 | for tokens with increasing spans, the removed lines contain the span of every block of the subtree and are disjoint from every other block's |
| `BlockRemoval.LastLineOfTrees` | core/analyzer/autofix.go:257-274 | `blockEndLine` is the largest span end in the subtree |
| `BlockRemoval.ParseLines` | core/parser/parser.go:169-449 | blocks get spans of distinct tokens, in increasing order |
| `BlockRemoval.SubtreeIsRun` | core/parser/parser.go:889-936 | a subtree is a consecutive run in creation order |
| `BlockPatches.RemoveBlockExact` | core/analyzer/autofix.go:492-498 | applying the removal patch of a block found by id in the finished document keeps exactly the lines outside its range, in order; a line recorded for a block goes exactly when that block is in the subtree |
| `BlockPatches.EveryBlockFound` | core/parser/parser.go:900-936 | every block created is found by its id in the finished trees, with its own subtree |
| `BlockDiff.DiffSubflow` | core/parser/diff.go:80-121 | the result is an edit script between the flattened lists on both paths, keeps as many pairs as any common subsequence on the LCS path, and is ChangeNone exactly when the lists are elementwise equal; for two forests of one shape, exactly when the blocks at every path agree in raw type, name, indent and properties |
| `BlockPaths.FlattenMeaning` | core/parser/diff.go:111-120 | the list holds the block at every index path of the forest once, a block before those below it, and these before its next sibling |
| `BlockPaths.AgreeEverywhere` | core/parser/diff.go:111-120 | for two forests of one shape the lists are equal block by block exactly when the blocks at every path are |
| `BlockPaths.NestingIsNotListed` | core/parser/diff.go:111-120 | two forests of different shape with equal lists |
| `BlockDiff.Lcs` | core/parser/diff.go:123-141 | every matrix cell is the recurrence's value |
| `BlockDiff.CellIsUpperBound` | core/parser/diff.go:123-141 | no common subsequence of two prefixes is longer than their cell |
| `BlockDiff.Backtrack` | core/parser/diff.go:143-166 | the script is valid for the prefixes and keeps exactly as many pairs as the cell says |
| `BlockDiff.CoarseBlockDiff` | core/parser/diff.go:172-197 | the script is valid, and keeps everything when the lists are equal |
| `BlockDiff.KeptPairsCommon` | core/parser/diff.go:143-197 | the kept pairs of any edit script form a common subsequence |
| `BlockDiff.AllKeptMeansEqual` | core/parser/diff.go:84-109 | a script of kept pairs only means elementwise equal lists |
| `BlockDiff.EqualListsCell` | core/parser/diff.go:123-141 | for equal lists the cell is the full length |
| `BlockDiff.FullCountMeansAllKept` | core/parser/diff.go:84-109 | a script that keeps as many pairs as the lists are long has no other entry |
| `FuzzyDistance.Levenshtein` | core/search/fuzzy.go:5-56 | the two-row loop computes `Bounded` |
| `FuzzyDistance.BoundedMeaning` | core/search/fuzzy.go:5-56 | the least number of edits when a side is empty or the lengths differ by at most 2; else 3, with every chain of edits at least 3 long |
| `FuzzyDistance.ThresholdIsExact` | core/search/fuzzy.go:5-56 | for d up to 2, the result is d exactly when d is the edit distance |
| `FuzzyDistance.BoundedSymmetric` | core/search/fuzzy.go:5-56 | the function is symmetric |
| `FuzzyDistance.DistanceIsLeast` | core/search/fuzzy.go:22-55 | the recurrence is the length of a shortest chain of single insertions, deletions and substitutions |
| `FuzzyDistance.ChainsAreNotShorter` | core/search/fuzzy.go:22-55 | no chain is shorter |
| `FuzzyDistance.ShortestChain` | core/search/fuzzy.go:22-55 | some chain is that short |
| `FuzzyDistance.Triangle` | core/search/fuzzy.go:22-55 | the recurrence obeys the triangle inequality |
| `KeyCodec.BuildKey` | core/cache/spec.go:249-295 | accepts exactly the lists with no zero part whose kinds are a permutation of the declared ones, encodes them in declared order, and grows by exactly the encoded length; otherwise zero, the first declared kind the parts do not cover, or the kind of the first part too many, in that order, each exactly when it applies |
| `KeyCodec.MatchParts` | core/cache/spec.go:258-280 | finds an arrangement exactly when there is one, with the size of its encoding |
| `KeyCodec.WriteParts` | core/cache/spec.go:281-294 | the builder writes the encoding |
| `KeyCodec.DecimalLen` | core/cache/spec.go:298-305 | the number of decimal digits |
| `KeyCodec.DecodeKey` | core/cache/spec.go:323-341 | the loop computes `Decode` |
| `KeyCodec.DecodeInvertsEncode` | core/cache/spec.go:323-341 | decoding an encoding gives the parts back |
| `KeyCodec.EncodeInvertsDecode` | core/cache/spec.go:323-341 | every accepted string re-encodes to itself and holds no zero part |
| `KeyCodec.EncodingInjective` | core/cache/spec.go:245-295 | equal encodings mean equal tuples |
| `KeyCodec.KeyDecodes` | core/cache/spec.go:316-341 | a built key decodes to its parts in declared order |
| `KeyCodec.ArrangementUnique` | core/cache/spec.go:245-275 | the arrangement, in declared order and in argument order within a kind, is the only one |
| `KeyCodec.CutInverts` | core/cache/spec.go:344-357 | cutting undoes length-prefixing, whatever follows |
| `KeyCodec.CutIsCanonical` | core/cache/spec.go:347-357 | only canonical prefixes are cut |
| `KeyCodec.OrgUserInjective` | core/cache/part.go:76-83 | an organisation-user tenant determines both ids |
| `KeyCodec.TenantsApart` | core/cache/part.go:71-94 | tenants of different owners or shapes differ |
| `SizedLru.Cache.constructor` | core/cache/sized.go:85-102 | an empty cache within its bounds |
| `SizedLru.Cache.StoreIf` | core/cache/sized.go:143-176 | stores exactly when allowed and not oversize; the list becomes the longest prefix of the new entry before the rest that fits; an oversize store drops only the old value; a refused one changes nothing |
| `SizedLru.Cache.EvictToFit` | core/cache/sized.go:170-174 | the eviction loop keeps exactly the longest prefix that fits |
| `SizedLru.Cache.Get` | core/cache/sized.go:104-118 | a hit moves to the front, an expired entry goes, a miss changes nothing |
| `SizedLru.Cache.Delete` | core/cache/sized.go:178-184 | removes exactly the key's entry |
| `SizedLru.Cache.Clear` | core/cache/sized.go:187-193 | empties map, list and total |
| `SizedLru.Cache.RemoveElement` | core/cache/sized.go:237-246 | map, list and total change together |
| `SizedLru.Cache.Live` | core/cache/sized.go:211-225 | lists the unexpired entries, most recent first |
| `SizedLru.OverflowStays` | core/cache/sized.go:170-174 | a prefix that does not fit stays unfit when it grows, so eviction from the back finds the longest |
| `SizedLru.HoldsWithout` | core/cache/sized.go:237-246 | removing a key from both sides keeps map and list the same entries |
| `SizedLru.HoldsFront` | core/cache/sized.go:167-169 | adding an entry in front of both does too |
| `ReportCache.Cache.constructor` | core/analyzer/cache.go:311-323 | an empty cache, with defaults for bounds that are not positive |
| `ReportCache.Cache.Put` | core/analyzer/cache.go:342-373 | drops the clashing entries, evicts by smallest stamp and only until the report fits, then files it under a fresh key; bytes stay exact, both bounds hold and no two entries of a tenant clash; while stamps tell the order of last uses, what is evicted was used before all that stays |
| `ReportCache.Cache.MakeRoom` | core/analyzer/cache.go:354-367 | what is left is the most recent part, with room for the report, and the last eviction was needed |
| `ReportCache.Cache.EvictOldest` | core/analyzer/cache.go:356-366 | evicts one entry whose stamp is smaller than all that stay |
| `ReportCache.Cache.Get` | core/analyzer/cache.go:325-340 | a lookup by itself only renews the entry's stamp, and keeps stamps in the order of last uses |
| `ReportCache.Cache.Draw` | core/analyzer/cache.go:325-340 | the first half of a lookup draws a fresh stamp; other lookups may be under way |
| `ReportCache.Cache.Store` | core/analyzer/cache.go:333-339 | the second half stores it; accounting, bounds, keys and clashes are kept in every interleaving, and the last use is lost exactly when its own stamp had been stored before |
| `ReportCache.Inversion` | core/analyzer/cache.go:333-339 | from any state with two reports, a schedule of lookups that makes the more recently used one look older |
| `ReportCache.Cache.Drop` | core/analyzer/cache.go:385-393 | removes exactly the entries picked |
| `ReportCache.Cache.Remove` | core/analyzer/cache.go:376-382 | bytes stay the sum of the held costs |
| `ReportCache.KeyNamesOne` | core/cache/spec.go:245-295 | a report key determines its tenant and flow, by injectivity of the codec |
| `ReportCache.MakeReportKey` | core/analyzer/cache.go:229-249 | a key is made exactly for a tenant part and non-empty flow, version, profile and content, and it names that tenant and flow |
| `ReportCache.KeyIsFree` | core/analyzer/cache.go:342-373 | once clashing entries are gone nothing is filed under the new key, so no charged entry is overwritten |
| `ReportCache.Arrival` | core/analyzer/cache.go:368-371 | filing the new entry keeps keys, stamps and the no-clash rule |
| `ReportCache.BytesRemove` | core/analyzer/cache.go:376-382 | removing an entry lowers the sum of the costs by its own |
| `FixLoop.ApplyFixes` | core/analyzer/apply_fixes.go:79-230 | at most min(Limit, 3F) fixes; the source is the original with exactly Fixed offered patches applied in order; success and Partial carry its parse and error count. Before its limit it ends only when every eligible finding with a block is given up on, the first acceptable one has the fingerprint of the last fix, or three rounds in a row brought no new minimum; so not before the first fix when there is one, and with min(Limit, F) fixes when every source met parses, every eligible finding has its own fingerprint and a fix that removes just it, and no context ends |
| `FixLoop.PickFix` | core/analyzer/apply_fixes.go:164-193 | takes the first eligible finding with a block whose fixer offers a patch, and gives up on exactly the ones declined before it |
| `FixLoop.TidyEnds` | core/analyzer/apply_fixes.go:109-212 | where every fix does its work, the loop does not end before the pool is empty |
| `FixLoop.TidyRounds` | core/analyzer/apply_fixes.go:109-212 | there, each round takes one fingerprint out of the pool and nothing is given up on |
| `FixLoop.FirstFixComes` | core/analyzer/apply_fixes.go:154-206 | with a fix to offer, no reason to end holds on the original source |
| `FixLoop.StallsMeaning` | core/analyzer/apply_fixes.go:154-162 | the counter reaches the limit exactly when the last three pools are no new minimum |
| `FixLoop.CountFixable` | core/analyzer/apply_fixes.go:142-153 | counts the eligible findings not given up on |
| `FixLoop.PatchedStep` | core/analyzer/apply_fixes.go:208-210 | one more offered patch extends the sequence |
| `SourcePatch.PatchSource` | core/analyzer/autofix.go:61-132 | the method computes `ApplyPatch` |
| `SourcePatch.ApplyPass` | core/analyzer/autofix.go:87-106 | one pass applies its kind of operation in the given order |
| `SourcePatch.InsertsOnly` | core/analyzer/autofix.go:108-126 | insertions at distinct targets equal simultaneous insertion at the original line numbers; targets out of range add nothing |
| `SourcePatch.InsertBottomUp` | core/analyzer/autofix.go:114-126 | bottom-up application does that for any descending order |
| `SourcePatch.RemovesOnly` | core/analyzer/autofix.go:76-85 | removals of disjoint ranges keep exactly the uncovered lines, in order |
| `SourcePatch.RemoveBottomUp` | core/analyzer/autofix.go:172-183 | bottom-up removal does that for any descending order |
| `PatchEffects.MixedPatch` | core/analyzer/autofix.go:74-126 | a patch of mixed kinds: removals go by the source's line numbers, wraps by those of what is left, replacements and then appends change each line on its own by the numbers after the wraps, and insertions come last, all at once, by the same |
| `PatchEffects.WrapMeaning` | core/analyzer/autofix.go:136-168 | a wrap keeps the lines around it, indents its own, and puts header and footer around them; out of range it does nothing |
| `PatchEffects.ReplacesInPlace` | core/analyzer/autofix.go:188-210 | each line gets exactly the replacements that name it, in order |
| `PatchEffects.AppendsInPlace` | core/analyzer/autofix.go:241-252 | each line gets at its end the first lines of the texts that name it, in order |
| `PatchEffects.ReplaceAllMeaning` | core/analyzer/autofix.go:208 | every occurrence is replaced, leftmost first and without overlap |
| `PatchEffects.InPropertyMeaning` | core/analyzer/autofix.go:212-239 | in a property, only text after the first `property:` that starts a word is replaced |
| `PatchEffects.ReplaceFirstMeaning` | core/analyzer/autofix.go:231-238 | exactly the first occurrence is replaced |
| `SourcePatch.CrlfCommutes` | core/analyzer/autofix.go:61-132 | patching the CRLF form gives the CRLF form of the patch exactly when the patch is empty, the source has several lines or the result has one; the step to `CrlfKeptExactly` |
| `SourcePatch.CrlfLostOnOneLine` | core/analyzer/autofix.go:61-132 | inserting a line into a one-line source always breaks it |
| `LineEndings.CrlfKeptExactly` | core/analyzer/autofix.go:61-132 | for patches whose texts hold no line feed: exactly when the patch is empty, the source has several lines, or the operations leave at most one line of one |
| `LineEndings.EditCounts` | core/analyzer/autofix.go:72-126 | the number of lines a patch leaves is a function of the number before and of the operations |
| `LineEndings.EditKeepsLines` | core/analyzer/autofix.go:72-126 | a patch whose texts hold no line feed puts none into a line |
| `LineEndings.OutsideAppendsExactly` | core/analyzer/autofix.go:108-126 | an insertion outside the text appends exactly when it is just past the last line or has nothing to insert |
| `LineEndings.InsertAtZeroIsDropped` | core/analyzer/autofix.go:116-119 | an insertion at line 0, documented as appending, is dropped |
| `SourcePatch.JoinSplit` | core/analyzer/autofix.go:72-127 | joining the split lines gives the source |
| `SourcePatch.NormalizeCrlf` | core/analyzer/autofix.go:65-71 | normalising undoes the CRLF form |
| `DataFlow.AnalyzeEdges` | core/analyzer/dataflow.go:209-279 | each list is the part of the naive scan that the limits leave with what the blocks before used up; each direction within MaxEdges; truncated exactly when some list differs from the naive scan; with no limits nothing is |
| `DataFlow.UpstreamEdges` | core/analyzer/dataflow.go:211-238 | the same for writers |
| `DataFlow.DownstreamEdges` | core/analyzer/dataflow.go:240-279 | the same for readers, through the by-line index |
| `DataFlow.LimitedUpIsPart` | core/analyzer/dataflow.go:218-237 | a limited list of writers is a part of the naive one, in order |
| `DataFlow.LimitedDownIsPart` | core/analyzer/dataflow.go:250-278 | so is one of readers |
| `DataFlow.UpstreamOf` | core/analyzer/dataflow.go:218-237 | one block's list is the naive one or a reported cut of it |
| `DataFlow.DownstreamOf` | core/analyzer/dataflow.go:250-278 | the same for readers, and the index memo stays right |
| `DataFlow.TakeWriters` | core/analyzer/dataflow.go:219-237 | the longest prefix of the naive scan the limits allow |
| `DataFlow.TakeReaders` | core/analyzer/dataflow.go:261-277 | the naive scan when it fits; otherwise the earliest readers by line, in reader order |
| `DataFlow.SearchAfter` | core/analyzer/dataflow.go:263-264 | binary search finds exactly the readers after the line |
| `DataFlow.AfterOfSorted` | core/analyzer/dataflow.go:263-276 | cutting the by-line index and sorting back gives the filter of the original list |
| `DataFlow.ScanIsAfter` | core/analyzer/dataflow.go:343-362 | the naive scan is the filter by line |
| `DataFlow.InOrderUnique` | core/analyzer/dataflow.go:272-276 | the order determines the sorted list |
| `DataFlow.SortSorts` | core/analyzer/dataflow.go:312-322 | the sort is an ordered permutation |
| `TaintFlow.BuildTaintedVars` | core/analyzer/rule_sql_injection.go:122-172 | the least set with every variable written by a source and closed under writers reading tainted variables; each enqueued once |
| `TaintFlow.Seed` | core/analyzer/rule_sql_injection.go:127-161 | the seeds are the variables written by sources and the dependents map covers every writer |
| `TaintFlow.ScanWriters` | core/analyzer/rule_sql_injection.go:139-160 | one variable's writers, in any map order |
| `TaintFlow.Propagate` | core/analyzer/rule_sql_injection.go:162-171 | the worklist ends in the least closed set |
| `TaintFlow.FixpointClosed` | core/analyzer/rule_sql_injection.go:162-171 | an exhausted worklist is closed |
| `TaintFlow.LeastIsUnique` | core/analyzer/rule_sql_injection.go:122-172 | the answer does not depend on the order |
| `FlowIndex.Context.constructor` | core/analyzer/facts.go:190-217 | the indexes after all subflows |
| `FlowIndex.Context.CollectBlocks` | core/analyzer/facts.go:240-301 | one sibling group and everything below it, as `Collect` says |
| `FlowIndex.FlowAdds` | core/analyzer/facts.go:240-301 | the block index and its count hold exactly the blocks that are no END |
| `FlowIndex.FlowGroups` | core/analyzer/facts.go:249-301 | a filed sibling group is the last subflow's of that id, or all its blocks have a parent |
| `FlowIndex.CountTestsIds` | core/analyzer/engine.go:634-636 | the index has as many entries as blocks were counted exactly when no two blocks other than ENDs share an id |
| `DocumentOrder.DocPosition` | core/analyzer/facts.go:171-186 | each id's first pre-order position, END blocks counted |
| `TopLevelOrder.TopOrder` | core/analyzer/engine.go:628-668 | top-level blocks are in document order by subflow and place |
| `TopLevelOrder.TopPlaceIsTop` | core/analyzer/engine.go:646-658 | with ids that are not empty, a place read off the indexes is the block's own top-level place, whatever other ids collide |
| `DocumentOrder.AscendingSorted` | core/analyzer/engine.go:633-668 | where places follow the document, findings that pass the scan are sorted by document position |
| `DocumentOrder.InTopLevelOrder` | core/analyzer/engine.go:633-668 | true exactly when no block is counted twice and the scan passes; the findings are then in order if places follow the document |
| `DocumentOrder.DocSortIsStableSort` | core/analyzer/engine.go:604-668 | the fast path changes nothing of the stable sort, for all findings, exactly when ids are duplicated, so that it is never taken, or blocks with a top-level place come in the order of their places |
| `TopLevelOrder.MintedPlacesFollow` | core/analyzer/engine.go:628-668 | with ids that are not empty and not shared, they do |
| `TopLevelOrder.SharedEndMisleads` | core/analyzer/engine.go:628-668 | with an END that has another block's id they need not, and the fast path gives another order than the sort |
| `TopLevelOrder.FastPathExact` | core/analyzer/engine.go:628-668 | for findings on top-level blocks the scan passes exactly when they are in order |
| `DocumentOrder.SortByPosition` | core/analyzer/engine.go:615-626 | the slow path gives the stable sort |
| `DocumentOrder.SortByDocPosition` | core/analyzer/engine.go:604-626 | in place, for every document: the findings as they are on the fast path and otherwise their stable sort; always the stable sort if places follow the document |
| `DocumentOrder.StableSortMeaning` | core/analyzer/engine.go:600-626 | the stable sort is ordered, a permutation, and keeps findings at one position in the order they came |
| `DocumentOrder.SortedStays` | core/analyzer/engine.go:623-625 | the sort changes nothing exactly for what is in order |
| `ShardedWalk.CollectFindings` | core/analyzer/engine.go:384-573 | for every processor count and schedule: a complete walk has the sequential walk's findings, counts, checked blocks and skips; only an ended context makes it incomplete, and it is then the sequential walk over the blocks seen. The findings are, one to one and in order, what the checks return: block, subflow and text unchanged, the severity the override if there is one, the category the rule's if empty, the stage stable for a rule that shadows a built-in |
| `RuleFindings.SequentialStamped` | core/analyzer/engine.go:350-371 | the sequential walk reports what the checks return, each finding as its rule is configured |
| `RuleFindings.ReturnedMeaning` | core/analyzer/engine.go:444-538 | which findings those are: exactly the ones some rule's check returns for a block, or for the flow |
| `RuleFindings.SortFinished` | core/analyzer/engine.go:350-371 | what is added to findings does not change how they are sorted |
| `ShardedWalk.RunAll` | core/analyzer/engine.go:493-538 | every interleaving of shards and flow rules ends with the buckets of what was done, and with everything done unless somebody was stopped |
| `ShardedWalk.RunBlock` | core/analyzer/engine.go:444-491 | a shard's buckets, counts and skips after one more block |
| `ShardedWalk.RunFlowRule` | core/analyzer/engine.go:511-537 | a flow rule's findings, finished and sorted |
| `ShardedWalk.Split` | core/analyzer/engine.go:493-510 | the shards, in order, are the document |
| `ShardedWalk.Aggregate` | core/analyzer/engine.go:540-568 | concatenating buckets rule by rule gives the sequential walk over what was done |
| `ShardedWalk.Workers` | core/analyzer/engine.go:391-406 | between 1 and 8 workers, and no more than blocks |
| `ShardedWalk.OneAnswer` | core/analyzer/engine.go:382-384 | two walks of one document give equal results |
| `ShardedWalk.FlowFindingsInOrder` | core/analyzer/engine.go:511-537 | with minted ids a flow rule's findings come in the full stable sort's order |
| `ShardedWalk.VisitFindings` | core/analyzer/engine.go:372-380 | a visitor gets every finding of the walk exactly once, in whatever order |
| `ShardedWalk.SequentialCounts` | core/analyzer/engine.go:540-562 | the sequential walk's findings, counted rule by rule or block by block |
| `Suppression.CollectInlineSuppressions` | core/analyzer/suppress.go:138-197 | the scopes are `Collect`'s |
| `Suppression.Collector.WalkGroup` | core/analyzer/suppress.go:144-179 | one sibling group and everything nested, with its header |
| `Suppression.ApplyInlineSuppressions` | core/analyzer/suppress.go:202-216 | what is kept is what stands at the places of the findings not suppressed, in order; the rest is counted |
| `SuppressionMeaning.SoloMeaning` | core/analyzer/suppress.go:83-197 | one directive alone, for one rule, silences exactly the findings of that rule it reaches: next block, header comments, block-less of the subflow, or of the file |
| `SuppressionMeaning.PassIsUnion` | core/analyzer/suppress.go:83-197 | the whole pass silences a finding exactly when some directive alone, for one rule it names, does |
| `SuppressionAudit.Inventory.AuditGroup` | core/analyzer/suppress_inventory.go:90-157 | appends the entries of one group and everything nested |
| `SuppressionAudit.Inventory.AuditDirective` | core/analyzer/suppress_inventory.go:97-148 | one entry for each rule a directive names, stale when neither its target nor its header fires, with its target's label and type and the reason |
| `SuppressionEntries.EntryPlaces` | core/analyzer/suppress_inventory.go:90-167 | every entry is for a comment with a directive naming its rule, and shows that comment's id and line, its subflow, and the title or raw type and the type of the first block after it in its group that is no comment, or a placeholder |
| `SuppressionMeaning.ReasonMeaning` | core/analyzer/suppress_inventory.go:110-146 | an entry has no reason exactly when it is live; otherwise the reason tells whether there is a target and whether any finding is on it |
| `SuppressionAudit.Inventory.CheckHeader` | core/analyzer/suppress_inventory.go:68-88 | whether a rule fires in the header's scopes |
| `SuppressionAudit.Inventory.RecordAll` | core/analyzer/suppress_inventory.go:36-53 | the rules that fire, by block and by subflow |
| `SuppressionAudit.NextConcreteSibling` | core/analyzer/suppress_inventory.go:206-215 | the first block after the directive that is no comment |
| `SuppressionMeaning.LiveMeansSilencing` | core/analyzer/suppress_inventory.go:24-175 | an entry is live exactly when its directive alone, restricted to its rule, silences some unsuppressed finding under the separate pass |
| `SuppressionMeaning.AuditFlowNames` | core/analyzer/suppress_inventory.go:90-167 | entries cover exactly the rules the directives name |
| `SuppressionMeaning.AllStaleMeansIdle` | core/analyzer/suppress_inventory.go:24-175 | every entry is stale exactly when the pass silences nothing |
| `SuppressionMeaning.SuppressionInventory` | core/analyzer/suppress_inventory.go:29-175 | the audit's entries by line and rule, each for a comment of the flow and live exactly when its directive alone silences a finding |
| `SuppressionMeaning.ByLineOrders` | core/analyzer/suppress_inventory.go:168-173 | line and then rule, byte by byte, is a total order of the entries |
| `SuppressionMeaning.HasPadIgnoreDirective` | core/analyzer/suppress_inventory.go:177-204 | true exactly when the walk would meet a directive |
| `SuppressionMeaning.NoDirectiveNoEntry` | core/analyzer/suppress_inventory.go:30-35 | without one there are no entries, so the pre-check loses nothing |
| `PropertyScanner.FindNextKey` | core/parser/extractors.go:66-94 | the position the one-byte scanner finds, in linear work |
| `PropertyScanner.FindValueEnd` | core/parser/extractors.go:97-153 | the same for the end of a value |
| `PropertyScanner.FindTripleQuoteEnd` | core/parser/extractors.go:155-162 | just past the next triple quote, or -1 |
| `PropertyScanner.ExtractKeyValuePairs` | core/parser/extractors.go:35-64 | the pairs the one-byte scanners give, inspecting at most 60 bytes for each byte of text |
| `PropertyPairs.TextMeaning` | core/parser/extractors.go:35-64 | the properties are those of the one list of pairs the text has: each key the first run of letters, digits, underscores and full stops before a colon that a blank or the end follows, each value going on to the next such key outside triple quotes |
| `PropertyPairs.PairsMeaning` | core/parser/extractors.go:35-64 | the one-byte scanners find such a list |
| `PropertyPairs.OneList` | core/parser/extractors.go:35-64 | there is only one |
| `PropertyPairs.ScanMeaning` | core/parser/extractors.go:97-153 | a value ends at the first key outside triple quotes, or with the text |
| `PropertyPairs.NextKeyMeaning` | core/parser/extractors.go:66-94 | the next key is the first one |
| `PropertyScanner.SkipRunForKey` | core/parser/extractors.go:66-94 | no key starts inside a run that is no key |
| `PropertyScanner.SkipRunForValue` | core/parser/extractors.go:97-153 | no value ends inside such a run |

## Left out

- The tokenizer and the grammar's regular expressions: the parser takes tokens, with strictly increasing spans where lines matter.
- Parse-error records, block properties, variables and highlighting tokens: they do not affect the forest. An inline ON ERROR comment is its own token kind.
- `parsePadIgnore`'s text matching: a comment carries its parsed directive.
- FlowParser: block identifiers are creation numbers, standing for the fresh ones the parser mints; minting and hashing are not modelled.
- DiffFlows' matching of subflows by name: only the diff of one subflow is modelled.
- SizedLru: int64 wrap-around is not modelled; the running total never exceeds twice the budget, so nothing changes for budgets up to 2^62. Metrics and the lock are left out, each method being one locked step.
- ReportCache: weak references and the document hash memo are left out; a key's parts are texts, whatever digests they are.
- FillProtocol: a fill without a guard, direct `Set` and unusable keys bypass the protocol and are not modelled; singleflight is its documented contract.
- KeyCodec: the registry of declarations and the rejection counter are not modelled.
- RuleFindings: what else a finding says (rule, title, message, metadata) is one text, which the engine leaves alone; deduplication and stamping of the report are not modelled.
- FixLoop: progress callbacks are not modelled; whether the context has ended is the environment's choice each time the loop asks.
- DataFlow: the taint-path and dead-data lists and cancellation are not modelled; machine integers enter only as the meaning of "no limit".
- TaintFlow: which raw types are sources and which names a value references are functions of the block.
- FlowIndex: block depths, sibling keys, terminators, handlers, descendant counts and variable indexes are not needed by the order and are left out.
- CrlfKeptExactly: texts that hold line feeds themselves are covered by `CrlfCommutes` only, since whether a replacement puts one in depends on the text it meets.
- BlockPatches: lines count from 1, as the tokenizer numbers them.
- ShardedWalk: profiling and progress are not modelled; a visitor is called once for each block or rule, which does not show in what it gets.
- Suppression: block ids are assumed non-empty and directives' ids distinct, as minted; the union result also assumes distinct subflow ids, since a later header under the same id replaces the earlier one.
- The second Tarjan in core/analyzer/incremental.go, individual rules, exporters, servers and user interfaces: they would add only easy or repeated members.
