# AutoMate core in Dafny

AutoMate is a desktop editor for building-automation (BAS) projects. A project holds a tree of
objects — Buildings, Controllers under them, Equipment under controllers, Points
under equipment — together with equipment templates, an overlay canvas of placed tokens and
routed lines with undo/redo, and an hours estimator. This project models the inherent methods of
the application object `AutoMateApp` in `src/main.rs` that edit and check that state, and proves
the invariants those methods keep.

Layout, one module per file:

| module | file | what it holds |
|---|---|---|
| `Domain` | domain.dfy | the records: `BasObject`, templates, tokens, lines, settings |
| `Text` | text.dfy | `trim`, `to_ascii_lowercase`, `contains`, decimal rendering |
| `Graph` | graph.dfy | lookup by id, the `Coherent` tree invariant, `add_object`, `duplicate_object` |
| `Subtree` | subtree.dfy | `remove_object_subtree`: the work-stack traversal and the deletion |
| `Ancestry` | ancestry.dfy | parent walks, `can_reparent_object`, `reparent_object` |
| `Search` | search.dfy | `object_matches_query`, `filtered_root_ids` |
| `Templates` | templates.dfy | point decoding, the built-in catalog, catalog loading and de-duplication |
| `Sync` | sync.dfy | `sync_equipment_from_template` |
| `Repair` | repair.dfy | `normalize_loaded_project` |
| `Overlay` | overlay.dfy | token placement, the route tool, the history stacks |
| `Estimate` | estimate.dfy | `estimate_hours` |
| `Settings` | settings.dfy | `apply_recommended_settings`, the autosave interval |
| `Qol` | qol.dfy | the label loops of `run_qol_pass` |
| `Codec` | codec.dfy | `obfuscate`, `sanitize_asset_name` |
| `App` | app.dfy | `class AutoMateApp`, whose methods change its fields |

Each state-changing method of `App.AutoMateApp` is specified by the pure function of its
component module applied to the old state. It also states that the tree invariant `Coherent`
(unique ids, fresh `next_id`, existing parents, parent kinds per the table, valid selection) and
the history bound are kept. The component modules prove the source's promises about those
functions. Loops are methods whose results are proved equal to those functions: the subtree
traversal, the search's marking loops, the sync loop, the catalog de-duplication, the counting
loops of the estimate, the byte transform and the label loops.

Object ids are `nat`. `f32` values are `real`. Strings are `seq<char>`.

## Model

| member | source | states |
|---|---|---|
| Text.TrimStart | src/main.rs:2108-2112 | the result is a suffix of the input, and it is empty or starts with a non-white-space character |
| Text.TrimEnd | src/main.rs:2108-2112 | the result is a prefix of the input, and it is empty or ends with a non-white-space character |
| Text.BlankIffAllWhitespace | src/main.rs:2108 | `trim().is_empty()` holds exactly when every character is white space |
| Text.NotBlankWhenSolid | src/main.rs:2116 | a string with one non-white-space character is not blank |
| Text.ToAsciiLowercase | src/main.rs:2215-2218 | same length; only `A`..`Z` change, each to its lower-case letter |
| Text.LowerIdempotent | src/main.rs:2215-2218 | lower-casing twice is lower-casing once |
| Text.ContainsLower | src/main.rs:2215-2218 | a substring stays a substring once both strings are lower-cased |
| Text.NatToString | src/main.rs:2114 | the decimal rendering is non-empty and made of digits only |
| Graph.IndexOf | src/main.rs:1509-1521 | the index found holds the id and no earlier position does; `None` exactly when the id is absent |
| Graph.Lookup | src/main.rs:1251-1256 | `find` returns a listed object with the id, and `None` exactly when no object has it |
| Graph.UniqueLookup | src/main.rs:1251-1256 | with unique ids, the object listed under an id is the one `find` returns |
| Graph.AddObjectAcceptsExactlyTable | src/main.rs:1443-1456 | with a parent, `add_object` changes the tree exactly when the parent exists and the kinds are (Controller, Building), (Equipment, Controller) or (Point, Equipment); a missing parent or any other pair leaves objects, `next_id` and selection as they were |
| Graph.AddObjectAllocates | src/main.rs:1458-1484 | on success one object is appended, with the old `next_id` as its unused id and the requested parent and kind; `next_id` goes up by one and the new id is selected |
| Graph.AddObjectPreservesCoherent | src/main.rs:1442-1485 | `add_object` keeps the tree coherent |
| Graph.DuplicateIsShallow | src/main.rs:1954-1964 | the copy is appended with the fresh id and `" Copy"` added to its name, and in a coherent tree no object has the copy as parent |
| Graph.DuplicatePreservesCoherent | src/main.rs:1954-1964 | `duplicate_object` keeps the tree coherent |
| Graph.IndexOfAppend | src/main.rs:1458 | appending an object does not change the index an existing id finds |
| Graph.SkeletonKeepsCoherent | src/main.rs:1271-1281 | an edit that keeps every id, parent and kind keeps the tree coherent |
| Subtree.Closure | src/main.rs:1488-1503 | the result contains the start set and is closed under children |
| Subtree.ClosureLeast | src/main.rs:1488-1503 | the closure lies inside every child-closed set containing the start set |
| Subtree.ChildIds | src/main.rs:1495-1501 | its members are exactly the ids of the children of `current` |
| Subtree.PushChildren | src/main.rs:1495-1501 | the inner loop pushes exactly the child ids onto the stack, in order |
| Subtree.FrontierStep | src/main.rs:1490-1502 | popping an id, collecting it and pushing its children keeps every child of a collected id collected or on the stack |
| Subtree.SkipStep | src/main.rs:1491-1493 | popping an already collected id keeps the traversal invariant |
| Subtree.CollectStep | src/main.rs:1494-1502 | collecting a new id keeps the traversal invariant and collects one more id |
| Subtree.CollectSubtree | src/main.rs:1488-1503 | the work-stack traversal returns exactly `id` and all its descendants |
| Subtree.Without | src/main.rs:1509-1510 | `retain` keeps exactly the objects whose id is not removed, and keeps the list whole when none is |
| Subtree.WithoutAppend | src/main.rs:1509-1510 | `retain` keeps the survivors in their original order: filtering a concatenation is filtering each part |
| Subtree.WithoutSingle | src/main.rs:1509-1510 | a single object survives exactly when its id is not removed |
| Subtree.WithoutKeepsUniqueIds | src/main.rs:1509-1510 | dropping objects keeps the ids unique |
| Subtree.FirstId | src/main.rs:1516-1521 | the first object's id, `None` only for an empty list |
| Subtree.RemoveSubtreeExact | src/main.rs:1487-1514 | the removed ids contain `id` and lie in every child-closed set containing it; exactly the objects outside them remain |
| Subtree.RemoveSubtreeLeavesNoOrphans | src/main.rs:1487-1514 | no remaining object has a removed object as parent |
| Subtree.RemoveSubtreePreservesCoherent | src/main.rs:1487-1524 | `remove_object_subtree` keeps the tree coherent, including the selection fallback |
| Subtree.GuardedDeleteKeepsBuildings | src/main.rs:2611-2617 | a delete the UI allows never removes a Building; the graph operation itself would remove one |
| Ancestry.WalkAppend | src/main.rs:1543-1554 | walking `a + b` steps up is walking `a` steps and then `b` more |
| Ancestry.WalkRepeats | src/main.rs:1543-1554 | a walk that revisits an id only ever returns to ids of the stretch between the two visits |
| Ancestry.WalkStaysInParents | src/main.rs:1543-1554 | every id the walk reaches is its start or a listed `parent_id` |
| Ancestry.WalkAvoids | src/main.rs:1543-1554 | a walk that has not met `child` and then ends or revisits an id never meets it |
| Ancestry.WalkAvoidsChild | src/main.rs:1543-1556 | the guard (with a visited set) answers true exactly when `child` is not `start` or one of its ancestors |
| Ancestry.WalkUntilStop | src/main.rs:1543-1554 | the walk loop stops when the chain ends, `child` is met or an id repeats; `child` was not met before that |
| Ancestry.CanReparentObject | src/main.rs:1526-1557 | true exactly when both objects exist, the edge is Controller→Building or Equipment→Controller, they differ, and the child is not an ancestor of the new parent |
| Ancestry.WalkStep | src/main.rs:1548-1553 | one step of the loop keeps its invariant and brings the visited set nearer its bound |
| Ancestry.RevisitAvoids | src/main.rs:1543-1554 | once the walk returns to a visited id without having met `child`, it never meets `child` |
| Ancestry.CanReparentAsWrittenHangs | src/main.rs:1543-1554 | in the finding's example the loop as written does not finish within any number of iterations, while the move is allowed |
| Ancestry.CanReparentAsWrittenHangsOnDuplicate | src/main.rs:1543-1554 | in the finding's duplicate-id example, reachable from the tree view, the loop as written does not finish within any number of iterations either |
| Ancestry.CycleWalkRunsForever | src/main.rs:1543-1554 | on the two-Building cycle the loop as written never stops, whatever fuel it has |
| Ancestry.AsWrittenAgreesWhenItEnds | src/main.rs:1526-1557 | whenever the loop as written finishes, it gives the same answer as the guard with a visited set |
| Ancestry.SetParent | src/main.rs:1563-1566 | same length, and every position keeps its id and kind |
| Ancestry.SetParentLookup | src/main.rs:1563-1566 | afterwards the child's entry names the new parent, and every other id finds the object it found before |
| Ancestry.OtherParentSame | src/main.rs:1563-1566 | the move changes the parent of no other id |
| Ancestry.WalkAgrees | src/main.rs:1543-1554 | two lists that agree on every parent except the child's walk alike until the walk meets the child |
| Ancestry.ReparentNeverCreatesCycle | src/main.rs:1559-1568 | after an allowed move the new parent's chain never reaches the child, and the child is not its own proper ancestor |
| Ancestry.SetParentMembers | src/main.rs:1563-1566 | with unique ids the result holds the moved child and every other object unchanged |
| Ancestry.ReparentPreservesCoherent | src/main.rs:1559-1568 | `reparent_object` keeps the tree coherent |
| Search.ExactFieldMatches | src/main.rs:2204-2220 | a field that holds the query verbatim makes the object match |
| Search.MatchIgnoresQueryCase | src/main.rs:2215-2218 | the match ignores ASCII case in the query |
| Search.EmptyFieldsNeverMatch | src/main.rs:2210-2219 | a non-empty query never matches an object whose four fields are all empty |
| Search.LastMap | src/main.rs:2233-2234 | the map's keys are the listed ids, and every entry is a listed object with that id |
| Search.LastMapLastWins | src/main.rs:2233-2234 | for a duplicated id the map keeps the object at the last position |
| Search.RootIds | src/main.rs:2223-2231 | its members are exactly the ids of the roots |
| Search.EmptyQueryShowsAllRoots | src/main.rs:2223-2231 | with the empty query the filter returns every root, like the fast path |
| Search.MarkAncestors | src/main.rs:2239-2246 | the inner loop adds `start` and ids on its ancestor chain, and keeps the set closed upwards |
| Search.CollectObjectMap | src/main.rs:2233-2234 | the collection loop builds the last-wins map |
| Search.CollectVisible | src/main.rs:2237-2247 | after the outer loop the set holds exactly the ids on the ancestor chain of a matching object |
| Search.KeepVisibleRoots | src/main.rs:2249-2254 | the final filter returns the marked roots in list order |
| Search.FilteredRootIds | src/main.rs:2222-2255 | `filtered_root_ids` returns, in order, the roots on the ancestor chain of a matching object |
| Search.VisibleExactly | src/main.rs:2237-2247 | the marked set is exactly the set of visible ids |
| Search.MatchingRootShown | src/main.rs:2222-2255 | a matching root is always returned |
| Search.VisibleRootsMembers | src/main.rs:2249-2254 | the returned ids are exactly the roots that are visible |
| Search.LastMapIsLookup | src/main.rs:2233-2234 | with unique ids the map holds the object `find` returns |
| Search.SearchWalkIsWalk | src/main.rs:2240-2245 | with unique ids the search walks the same ancestor chains as the reparent guard |
| Search.ShownIffAncestorOfMatch | src/main.rs:2222-2255 | with unique ids a root is returned exactly when it is a match or an ancestor of one |
| Templates.DeserializeTemplatePoints | src/main.rs:379-394 | decoding keeps the order and every name; a bare name becomes an `AI` point, a full point decodes as itself |
| Templates.RichRoundTrip | src/main.rs:374-394 | points written in the current format decode back to themselves |
| Templates.LegacyDecodesToAi | src/main.rs:379-394 | a legacy name list decodes to the same names, in order, all `AI` |
| Templates.SeedDataUnique | src/main.rs:1121-1199 | the built-in catalog has five templates with distinct names |
| Templates.SeedDataShape | src/main.rs:1121-1199 | every built-in template is static and declares at least one point, all `AI` |
| Templates.ProjectDefaultIsSeedPrefix | src/main.rs:480-538 | the templates of a new project are the first four of the built-in catalog |
| Templates.FindTemplate | src/main.rs:1264-1270 | the template `find` returns carries the name and comes from the list; `None` exactly when no template has the name |
| Templates.LoadUserTemplates | src/main.rs:1213-1223 | the stored list when it was read and is non-empty, the built-in catalog otherwise; never empty |
| Templates.DedupFrom | src/main.rs:1245-1246 | every kept template comes from the input and has a name not seen before it |
| Templates.DedupNames | src/main.rs:1245-1246 | the kept names are the input's names not seen before |
| Templates.DedupUnique | src/main.rs:1245-1246 | no two kept templates share a name |
| Templates.DedupKeepsFirst | src/main.rs:1245-1246 | the de-duplicated list finds the same template by name as the input |
| Templates.DedupOfUnique | src/main.rs:1245-1246 | a list whose names are distinct and unseen is kept whole |
| Templates.DedupIdempotent | src/main.rs:1245-1246 | de-duplicating twice is de-duplicating once |
| Templates.SeededCatalogFacts | src/main.rs:1240-1248 | the seeded catalog is non-empty with unique names; it is the built-in catalog when the list was empty, and otherwise keeps every name and finds by name what the list found |
| Sync.SyncFields | src/main.rs:1271-1281 | the type is copied unless overridden, a blank tag becomes `"{type}-{id}"`, the mode is copied unless the hours are overridden, and nothing else changes |
| Sync.GeneratedTagNotBlank | src/main.rs:1275-1277 | a generated `"{prefix}-{id}"` tag is never blank |
| Sync.SyncFieldsIdempotent | src/main.rs:1271-1281 | copying the fields a second time changes nothing |
| Sync.PointObjects | src/main.rs:1291-1301 | one object per missing point |
| Sync.PointObjectsAt | src/main.rs:1291-1301 | the `k`-th appended object is the one made for the `k`-th missing point, with id `start + k` |
| Sync.MissingMembers | src/main.rs:1283-1294 | the created points are exactly the template points whose name is not in the snapshot |
| Sync.AddTemplatePointShape | src/main.rs:1295-1300 | adding a point under an equipment always succeeds, and the renamed last object is the new point |
| Sync.AddMissingShape | src/main.rs:1291-1301 | the loop appends, in order, one Point child per missing template point, and `next_id` moves past them |
| Sync.AddMissingComplete | src/main.rs:1283-1301 | afterwards every template point name is the name of a Point child of the equipment |
| Sync.AddMissingNothing | src/main.rs:1291-1294 | when every name is in the snapshot the loop changes nothing |
| Sync.SyncNoOp | src/main.rs:1251-1270 | nothing changes for a missing id, a non-equipment, an empty template name or an unknown template |
| Sync.SyncedSkeleton | src/main.rs:1271-1281 | the field copy keeps every id, parent and kind |
| Sync.SyncEffect | src/main.rs:1250-1303 | the equipment gets the copied fields, the missing points are appended after the list, and `next_id` advances by their number |
| Sync.SyncComplete | src/main.rs:1250-1303 | after a sync every template point name is the name of a Point child of the equipment |
| Sync.SyncIdempotent | src/main.rs:1250-1303 | syncing twice is syncing once |
| Sync.SyncPreservesCoherent | src/main.rs:1250-1303 | a sync keeps the tree coherent |
| Sync.AddMissingKeepsCoherent | src/main.rs:1291-1301 | the point loop keeps the tree coherent |
| Sync.AddTemplatePointKeepsCoherent | src/main.rs:1295-1300 | one created point keeps the tree coherent, and the equipment is still found |
| Repair.PruneOrphans | src/main.rs:1598-1603 | keeps exactly the roots and the objects whose parent is in the given set |
| Repair.PruneOrphansAppend | src/main.rs:1598-1603 | the pruning keeps the survivors in their original order, which decides the first object after a load: pruning a concatenation is pruning each part |
| Repair.PruneOrphansSingle | src/main.rs:1598-1603 | a single object survives exactly when it is a root or its parent is in the set |
| Repair.ClearEquipmentGroups | src/main.rs:1617-1621 | clears the property groups of every equipment and changes nothing else |
| Repair.MaxId | src/main.rs:1626-1627 | the largest id: no id is above it, and it is a listed id when the list is non-empty |
| Repair.SyncAllGrowsIds | src/main.rs:1622-1624 | the sync loop keeps every id and never lowers `next_id` |
| Repair.SyncAllWithoutTemplates | src/main.rs:1622-1624 | with no templates the sync loop changes nothing |
| Repair.NormalizeAdvancesNextId | src/main.rs:1593-1635 | afterwards `next_id` is above every id and not below its old value |
| Repair.NormalizeTokensResolve | src/main.rs:1605-1635 | afterwards every token refers to a listed object |
| Repair.NormalizeOnLoad | src/main.rs:1593-1635 | with no templates, the result is the pruned list with equipment groups cleared; every parent was listed before the pass, and no equipment has property groups |
| Repair.LoadRepairGuarantees | src/main.rs:1593-1635 | on load, `next_id` is fresh and not lowered, every token resolves, and every parent was listed in the file |
| Repair.NormalizeLeavesDanglingGrandchild | src/main.rs:1598-1603 | pruning is one level only: the child of a dropped orphan survives with a parent that is no longer listed |
| Repair.NormalizeRepairsSelection | src/main.rs:1629-1634 | afterwards the selection, if any, names a listed object |
| Overlay.PushHistory | src/main.rs:1760-1769 | pushes the current snapshot, drops the oldest above 50, clears redo, and leaves the canvas as it was |
| Overlay.HistoryStaysBounded | src/main.rs:1760-1795 | push, undo and redo keep the two stacks at 50 snapshots together |
| Overlay.EmptyStacksNoOp | src/main.rs:1771-1795 | undo on an empty undo stack and redo on an empty redo stack change nothing |
| Overlay.UndoRedoRoundTrip | src/main.rs:1771-1795 | undo then redo, or redo then undo, restores tokens, lines and both stacks; only the pending route start is cleared |
| Overlay.UndoRevertsEdit | src/main.rs:1760-1782 | one undo reverts an edit that pushed history first, and the edit goes onto the redo stack |
| Overlay.RouteClick | src/main.rs:3221-3230 | the first click records the start; the second clears it, pushes history and appends the line |
| Overlay.TwoClicksDrawOneLine | src/main.rs:3221-3230 | two clicks draw one line, and one undo takes it away |
| Overlay.PlaceNodeExactly | src/main.rs:1570-1591 | placement changes nothing unless the object exists and is a Controller or Equipment; then it appends one token with the id `next_id`, bumps `next_id`, and one undo takes it away |
| Overlay.PlaceNodeKeepsTokensSound | src/main.rs:1570-1591 | placement keeps every token resolving and every token id below `next_id` |
| Overlay.TokensWithout | src/main.rs:1511-1514 | keeps exactly the tokens whose object is not removed, and no more tokens than before |
| Overlay.TokensWithoutAppend | src/main.rs:1511-1514 | the surviving tokens keep their original order: filtering a concatenation is filtering each part |
| Overlay.TokensWithoutSingle | src/main.rs:1511-1514 | a single token stays exactly when its object is not removed |
| Overlay.TokensWithoutIdempotent | src/main.rs:1511-1514 | dropping the tokens a second time changes nothing |
| Overlay.RemovalKeepsTokensResolving | src/main.rs:1509-1514 | removing objects together with their tokens keeps every token resolving |
| Overlay.TokensOnto | src/main.rs:1605-1608 | keeps exactly the tokens onto ids in the valid set, and no more tokens than before |
| Overlay.TokensOntoAppend | src/main.rs:1605-1608 | the kept tokens keep their original order: filtering a concatenation is filtering each part |
| Overlay.TokensOntoSingle | src/main.rs:1605-1608 | a single token stays exactly when its object id is valid |
| Overlay.TokensOntoResolve | src/main.rs:1605-1608 | after the filter every token resolves |
| Overlay.UndoCanRestoreDanglingToken | src/main.rs:1771-1782 | an undo can bring back a token whose object no longer exists |
| Estimate.Max0 | src/main.rs:725-730 | `max(x, 0)`: non-negative, at least `x`, and either `x` or zero |
| Estimate.CountKind | src/main.rs:633-650 | the count is at most the list length |
| Estimate.PointChildCount | src/main.rs:668-673 | the count of direct Point children is at most the list length |
| Estimate.LineHours | src/main.rs:725-730 | a custom line contributes a non-negative amount, zero when its quantity or rate is non-positive |
| Estimate.CustomTotal | src/main.rs:725-730 | the custom total is never negative |
| Estimate.OverheadPercent | src/main.rs:732-736 | QA, management and risk add up, clamped at zero |
| Estimate.CountObjects | src/main.rs:633-650 | the counting loop returns the number of objects of the kind |
| Estimate.CountPointChildren | src/main.rs:668-673 | the counting loop returns the number of direct Point children |
| Estimate.EquipmentAdds | src/main.rs:656-723 | the loop body computes what one equipment adds |
| Estimate.AddTemplateHours | src/main.rs:656-723 | the per-equipment loop adds the hours of every equipment to the baseline |
| Estimate.SumCustomLines | src/main.rs:725-730 | the loop sums the custom lines |
| Estimate.EstimateHours | src/main.rs:632-745 | `estimate_hours` returns the breakdown the formula defines |
| Estimate.FinishFormula | src/main.rs:732-744 | the grand total is (engineering + graphics + commissioning + custom) × the three factors × (1 + overhead / 100), and the overhead is the grand total minus the factored base |
| Estimate.EquipmentHoursNonNegative | src/main.rs:656-723 | with non-negative coefficients one equipment never subtracts hours |
| Estimate.TemplateHoursNonNegative | src/main.rs:656-723 | the per-equipment sum is non-negative |
| Estimate.FinishNonNegative | src/main.rs:732-744 | non-negative hours and factors give a non-negative overhead that only adds |
| Estimate.EstimateNonNegative | src/main.rs:632-745 | with non-negative coefficients and factors every figure is non-negative, and the grand total is at least the factored base |
| Estimate.OverrideUsesOwnHours | src/main.rs:674-720 | an overriding equipment whose template resolves costs what its own mode and coefficients say |
| Estimate.OverrideIgnoresTemplate | src/main.rs:674-720 | for an overriding equipment only whether the template resolves matters, not which template it is |
| Estimate.UnresolvedAddsNothing | src/main.rs:656-667 | equipment whose template does not resolve adds nothing beyond the baseline |
| Estimate.ModeDecidesPointDependence | src/main.rs:681-720 | static equipment costs the same whatever its points; points-based equipment without points adds nothing |
| Estimate.NonPositiveLinesAddNothing | src/main.rs:725-730 | custom lines with a non-positive quantity or rate add nothing |
| Estimate.DefaultEstimatorAddsQuarter | src/main.rs:260-280 | with the default estimator the grand total is 1.25 times the base |
| Estimate.NegativeOverheadClamped | src/main.rs:732-736 | a negative overhead sum adds no overhead |
| Settings.Clamp | src/main.rs:752-765 | the result lies in the band, and equals `x` when `x` is in it |
| Settings.MinNat | src/main.rs:748 | the smaller of the two |
| Settings.DefaultNameNotBlank | src/main.rs:750-752 | the fallback company name is not blank |
| Settings.RecommendedInRange | src/main.rs:747-767 | after the pass every setting is in its band, and the grid switch is untouched |
| Settings.SettingsFixedExactlyInRange | src/main.rs:747-753 | the settings pass changes nothing exactly when the settings are already in band |
| Settings.EstimatorFixedExactlyInRange | src/main.rs:754-766 | the estimator pass changes nothing exactly when every figure is already in band |
| Settings.RecommendedIdempotent | src/main.rs:747-767 | running the pass twice is running it once |
| Settings.RecommendedMarkupBounds | src/main.rs:754-766 | with recommended settings the factor product is in [0.72, 2.457] and the overhead percentage in [16, 40] |
| Settings.RecommendedGrandTotalBounds | src/main.rs:732-744 | with recommended settings and a non-negative base, the grand total is between 0.8352 and 3.4398 times the base |
| Settings.AutosaveIntervalSeconds | src/main.rs:1693 | the interval is a whole number of minutes, at least one, and the configured minutes times 60 when that is positive |
| Settings.RecommendedAutosaveInterval | src/main.rs:748 | after the pass the autosave interval is between 60 and 900 seconds |
| Qol.Labelled | src/main.rs:2101-2124 | only a blank name or tag changes; afterwards an equipment has a name and a tag, a point has a name, and other kinds are untouched |
| Qol.FillEquipmentLabels | src/main.rs:2101-2119 | the first loop fills blank equipment tags and names and leaves other objects alone |
| Qol.FillPointLabels | src/main.rs:2121-2125 | the second loop fills blank point names |
| Qol.FillMissingLabels | src/main.rs:2101-2125 | both loops together apply the pass to every object |
| Qol.LabelAllIdempotent | src/main.rs:2101-2125 | a second pass changes nothing |
| Qol.LabelAllFillsBlanks | src/main.rs:2101-2125 | afterwards no equipment or point is without a name and no equipment without a tag; names that were filled in stay |
| Qol.LabelAllPreservesCoherent | src/main.rs:2101-2125 | the pass keeps the tree coherent |
| Codec.XorAll | src/main.rs:1035-1039 | same length; every byte is XORed with 0xA5 |
| Codec.Obfuscate | src/main.rs:1035-1039 | the in-place loop leaves the buffer transformed |
| Codec.XorAllInvolution | src/main.rs:1035-1039 | applying the transform twice gives back the input |
| Codec.XorAllChangesEveryByte | src/main.rs:1035-1039 | the transform changes every byte |
| Codec.CleanChars | src/main.rs:1046-1052 | same length; allowed characters are kept and every other becomes `_` |
| Codec.SanitizeAssetName | src/main.rs:1041-1054 | the result is non-empty and over `[A-Za-z0-9._-]`; it is the cleaned file name, or `asset.bin` when there is none |
| Codec.SanitizeKeepsCleanNames | src/main.rs:1041-1054 | a name that is already clean is kept |
| Codec.SanitizeIdempotent | src/main.rs:1041-1054 | sanitizing twice is sanitizing once |
| Codec.AssetEntryHasOneSeparator | src/main.rs:1041-1054 | an asset's archive entry `assets/{name}` lies directly in `assets/` |
| App.ClearGroupsLoop | src/main.rs:1617-1621 | the clearing loop yields the list with every equipment's groups cleared |
| App.KindCountsTotal | src/main.rs:3369-3375 | the four per-kind counts add up to the number of objects |
| App.AutoMateApp.constructor | src/main.rs:593-630 | a new application has the default project (building 1, `next_id` 2, building selected), an empty canvas, the default catalog and settings, and is valid |
| App.AutoMateApp.AddObject | src/main.rs:1442-1485 | the tree becomes `add_object`'s result, nothing else changes, and validity is kept |
| App.AutoMateApp.RemoveObjectSubtree | src/main.rs:1487-1524 | the subtree and exactly its tokens are removed, the selection is repaired, validity and token soundness are kept |
| App.AutoMateApp.DropObjects | src/main.rs:1509-1521 | the two `retain` calls and the selection fallback |
| App.AutoMateApp.ReparentObject | src/main.rs:1559-1568 | the child moves only when the guard allows it; validity is kept |
| App.AutoMateApp.DuplicateObject | src/main.rs:1954-1964 | the tree becomes `duplicate_object`'s result; validity is kept |
| App.AutoMateApp.SyncEquipmentFromTemplate | src/main.rs:1250-1303 | the tree becomes the sync's result, canvas and configuration are unchanged, validity is kept |
| App.AutoMateApp.AddTemplatePoint | src/main.rs:1295-1300 | one step of the sync loop: add a point, then rename the last object |
| App.AutoMateApp.EnsureTemplateSeeded | src/main.rs:1240-1248 | the catalog becomes the seeded, de-duplicated catalog, and the project's templates a copy of it |
| App.AutoMateApp.PushOverlayHistory | src/main.rs:1760-1769 | the canvas becomes `push_overlay_history`'s result; the history bound is kept |
| App.AutoMateApp.OverlayUndo | src/main.rs:1771-1782 | the canvas becomes the undo's result; the history bound is kept |
| App.AutoMateApp.OverlayRedo | src/main.rs:1784-1795 | the canvas becomes the redo's result; the history bound is kept |
| App.AutoMateApp.PlaceOverlayNode | src/main.rs:1570-1591 | canvas and `next_id` follow placement; objects and selection are unchanged; validity and token soundness are kept |
| App.AutoMateApp.RouteToolClick | src/main.rs:3221-3230 | the canvas follows the two-click rule; validity is kept |
| App.AutoMateApp.SyncAllEquipment | src/main.rs:1622-1624 | the loop syncs every collected equipment id in order |
| App.AutoMateApp.FinishRepair | src/main.rs:1626-1634 | `next_id` is raised past the largest id and a stale selection moves to the first object |
| App.AutoMateApp.NormalizeLoadedProject | src/main.rs:1593-1635 | tree and tokens become the repair's result; lines, stacks and configuration are unchanged |
| App.AutoMateApp.LoadProject | src/main.rs:1812-1840 | after a load, `next_id` is fresh, every token resolves, every parent was listed in the file, the first object is selected, both stacks are empty, and the pending route start is kept |
| App.AutoMateApp.InstallProject | src/main.rs:1812 | the file's objects, counter, canvas, custom lines and settings are installed, with no project templates |
| App.AutoMateApp.ApplyRecommendedSettings | src/main.rs:747-767 | both settings blocks are replaced by their recommended form, and nothing else changes |
| App.AutoMateApp.RunQolPass | src/main.rs:2099-2129 | the settings are recommended, the labels are filled in, and validity is kept |
| App.AutoMateApp.ObjectCounts | src/main.rs:3369-3375 | a kind is a key exactly when it occurs, and its value is its number of objects |

## Left out

- Rendering, widgets, dialogs, login, splash and title bar (egui): presentation with no state the core reads. The bind-token dialog (src/main.rs:3250-3290) is UI only.
- Saving, loading the archive, the template store file and file dialogs. These are file system, `serde_json` and `zip` work. The model keeps the whole-buffer byte transform, the `assets/{name}` entry naming, and the project as parsed (`App.ProjectFile`). Reading or writing the user's template file is a parameter of the constructor.
- PDF rendering and textures (pdfium, image): foreign libraries.
- Autosave timing and `Uuid::new_v4`, including the fresh `project_uuid` that `normalize_loaded_project` assigns: clocks and randomness. Only the autosave interval is modelled.
- Markdown export, feature metrics and UX health reports: display text only.
- Status strings written by the operations: UI text.
- Asset and texture loading inside `load_project_from_path`: file system and images.
- `f32` rounding: amounts are `real`.
- `u64` overflow of `next_id`: ids are `nat`.
- The `to_remove.is_empty()` early return of `remove_object_subtree` is not modelled, because the traversal always collects `id` itself, so that branch is never taken.
- The accent colour of `AppSettings` is not modelled: no operation of the core reads it.
- Ancestry.WalkAvoidsChild: adds a visited set that the source's loop lacks. On a parent cycle that does not contain the child, the source hangs (see Findings). On every other input the answers agree, as Ancestry.AsWrittenAgreesWhenItEnds shows.

## Findings

| source | as written | input that shows it | evidently intended | confidence | as-written member | corrected member |
|---|---|---|---|---|---|---|
| src/main.rs:1543-1554 | the ancestor walk of `can_reparent_object` follows `parent_id` links until they end or reach the child, with no record of visited ids | the call `can_reparent_object(3, 1)` on a loaded file with Buildings 1 and 2 naming each other as parent (the load repair keeps both, since both parents exist) and a root Controller 3. The tree view renders only roots and their descendants, so it offers this drop only when an id is also duplicated, which the load repair keeps too: with [Building 1 (parent 2), Building 2 (parent 2), Building 1 (root), Controller 3 (root)], dropping Controller 3 on the row of id 1 walks 1, 2, 2, … | the walk stops when it revisits an id, and the move is allowed | not executed | Ancestry.CanReparentAsWrittenHangs, Ancestry.CanReparentAsWrittenHangsOnDuplicate | Ancestry.CanReparentObject |

## Where the code and its description differ

The model follows the code in each case.

- Orphan pruning on load is one pass: an object whose parent existed before the pass is kept even if that parent is pruned (Repair.NormalizeLeavesDanglingGrandchild).
- The sync takes the snapshot of existing point names once, before its loop. A template that lists one name twice therefore creates two children with that name.
- Undo and redo clear the pending route start only when their stack is non-empty (Overlay.EmptyStacksNoOp).
- `filtered_root_ids` reads parents through a map in which a later object wins over an earlier one with the same id. The other lookups take the first object with the id (Search.LastMapLastWins). With unique ids the two agree (Search.SearchWalkIsWalk).
- The project's template list is not stored in the file, so the re-sync inside `normalize_loaded_project` finds no template on load and changes nothing (Repair.SyncAllWithoutTemplates, Repair.NormalizeOnLoad).
- An undo can restore a token whose object was deleted after the snapshot (Overlay.UndoCanRestoreDanglingToken).
- `load_project_from_path` leaves a pending route start as it was (App.AutoMateApp.LoadProject).
- `sync_equipment_from_template` moves the selection to each point it creates, because it calls `add_object`.
