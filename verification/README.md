# Recipe dependency graph, modelled in Dafny

This project models `main` of `recipe_engine/depgraph.py` (lines 24-118) in the
recipe engine. `main` draws the dependency graph of the recipe modules, and
optionally of the recipes, as a Graphviz `strict digraph`. It works in three
steps:

1. **Collection** (lines 25-48). Every recipe module of a package that the
   test of line 31 does not skip becomes a module node with its dependency
   names, and its name is mapped to its package's name. With a non-empty recipe
   filter, every recipe of the own package whose name contains the filter
   becomes a recipe node, owned by the own package.
2. **Pruning** (lines 51-76). If some recipe matched, a work-list walk from the
   recipe nodes keeps what they reach. The node map and both ownership maps are
   then restricted to the kept nodes.
3. **Rendering** (lines 79-118). The output is the header, then one edge line per
   dependency whose ends pass the ignore tests, then one cluster per package
   outside the ignore list, then an optional recipe cluster, then the footer.

Modules of the model:

- `Dicts` (`dicts.dfy`): an insertion-ordered dictionary standing in for Python's
  `dict`, with `Put` (`d[k] = v`) and `Restrict` (a filtering comprehension).
- `Text` (`text.dfy`): the substring test `filter in name`.
- `Graph` (`graph.dfy`): node identities `Module(name)` / `Recipe(name)`, which
  replace the source's `(is_recipe, name)` tuples. It also holds the inputs,
  the three collected maps, the lookup faults, and the two readings of the
  object tests described below. Each fault is a Python `KeyError` that aborts
  the run.
- `Collection`, `Closure`, `Pruning`, `Rendering` (`collect.dfy`, `closure.dfy`,
  `prune.dfy`, `render.dfy`): the three steps. Rendering yields a sequence of
  line records.
- `Printing` (`format.dfy`): the text each record prints as.
- `DepGraph` (`depgraph.dfy`): the whole pipeline `Generate` and its end-to-end
  properties.
- `Scenarios` (`scenarios.dfy`): small registries with their exact outputs.

The registry (`universe`) is an input. It is given as a sequence of module
declarations `(package, name, deps)` and a sequence of the own package's
recipes `(name, deps)`. A later entry with the same name overwrites an earlier
one, as the dictionary assignments of lines 35-36 and 47-48 do.

The ignore list holds package names. The tests of lines 89, 96 and 105 compare
names with it: the owner maps hold `package.name` (line 36) and the names
grouped at line 103. The tests of lines 31 and 92 compare a package object with
it instead: the enumerated `package`, and the `own_package` stored at line 48.
Under Python's default equality an object never equals a name string, so as
written these two tests never succeed. `Graph.ObjectTest` makes the reading a
parameter of the model. `AsWritten` is the code as written: the two object
tests skip nothing. `ByName` compares the package's name, which is what the two
tests evidently intend. `Graph.ObjectIgnored` gives the packages the object
tests skip under each reading: none as written, the ignore list by name.
`DepGraph.Generate` and every end-to-end lemma take the reading as an argument.
Where a lemma holds under one reading only, its name or contract says which.

## Model

| member | source | states |
|---|---|---|
| Text.ContainsIsOccurrence | recipe_engine/depgraph.py:42 | The filter test succeeds exactly when the filter occurs in the recipe name at some offset. |
| Collection.CollectModules | recipe_engine/depgraph.py:29-36 | Every collected node is a module node with an owner entry. Every owner entry has its node and a package the test of line 31 does not skip. |
| Collection.CollectModulesKeys | recipe_engine/depgraph.py:29-36 | Collection creates only module nodes, one exactly for each name enumerated in a package the test of line 31 does not skip. The module owner map has exactly the same names. |
| Collection.CollectModulesValues | recipe_engine/depgraph.py:30-36 | For the last collected entry with a given name, the node's dependency list is that entry's list and the owner is that entry's package. |
| Collection.CollectModulesOwner | recipe_engine/depgraph.py:30-36 | Each owner entry, and the dependency list of its node, come from one collected entry with that name and package. |
| Collection.CollectRecipesKeys | recipe_engine/depgraph.py:41-48 | The recipe step adds a recipe node exactly for each recipe whose name contains the filter. The recipe owner map has exactly those names. |
| Collection.CollectRecipesValues | recipe_engine/depgraph.py:41-47 | The last matching entry of a recipe name supplies that recipe node's dependency list. |
| Collection.CollectRecipesFrom | recipe_engine/depgraph.py:41-47 | Each recipe node the step adds carries the dependency list of some recipe entry with its name. |
| Collection.CollectRecipes | recipe_engine/depgraph.py:38-48 | The recipe step leaves module nodes and their dependency lists untouched. It gives every recipe the own package as its owner. |
| Collection.Collect | recipe_engine/depgraph.py:25-48 | Module nodes exist exactly for names declared in a package the test of line 31 does not skip. Recipe nodes exist exactly when the filter is non-empty and the name matches it, each owned by the own package. The owner maps match the nodes one to one. |
| Collection.CollectValues | recipe_engine/depgraph.py:29-48 | The collected dependency lists and owners are those of the last entry with each name, for modules and, under a filter, for recipes. |
| Collection.CollectFrom | recipe_engine/depgraph.py:29-48 | Collection invents no dependency list: every node carries the list of an enumerated module or visible recipe with its name. |
| Closure.Walk | recipe_engine/depgraph.py:57-62 | The walk from a work list terminates. A successful walk keeps every work item and stays within the known nodes. A failed walk names a popped node the map does not know. |
| Closure.Reach | recipe_engine/depgraph.py:53-62 | A successful walk from the recipe nodes keeps every seed and stays within the known nodes. A failed one is a missing-node fault on a node the map does not know. |
| Closure.WalkClosed | recipe_engine/depgraph.py:57-62 | A walk started where every kept node's dependencies are kept or still queued ends with a dependency-closed set. |
| Closure.WalkWithin | recipe_engine/depgraph.py:57-62 | Whatever the walk keeps, or fails on, lies inside every dependency-closed set that contains its start. |
| Closure.ReachIsLeastClosure | recipe_engine/depgraph.py:53-62 | From the seeds, the walk yields the least dependency-closed set containing them. Otherwise it fails on a node every such set contains and the map does not know. |
| Closure.ReachSucceedsIffKnown | recipe_engine/depgraph.py:61 | The walk succeeds exactly when every node reachable from the seeds is known to the node map. |
| Closure.LeastClosureUnique | recipe_engine/depgraph.py:53-64 | The least closure is unique, so the kept set does not depend on the walk's order. |
| Closure.SourceWalk | recipe_engine/depgraph.py:57-62 | This is the loop as written, with no check for already kept items. Whenever it halts it keeps every queued item, stays within the known nodes, or fails on an unknown node. |
| Closure.SelfLoopRuns | recipe_engine/depgraph.py:58-62 | Once only a module that depends on itself is queued, the loop as written never halts, whatever the bound on its steps. |
| Closure.SourceWalkCycles | recipe_engine/depgraph.py:53-62 | From a matched recipe whose dependency is a module that depends on itself, the loop as written never halts, whatever the bound on its steps. |
| Closure.SourceWalkClosed | recipe_engine/depgraph.py:57-62 | When the loop as written halts from a frontier-respecting state, its result is dependency-closed. |
| Closure.SourceWalkWithin | recipe_engine/depgraph.py:57-62 | When the loop as written halts, its result or fault node lies inside every closed set containing its start. |
| Closure.SourceWalkAgrees | recipe_engine/depgraph.py:53-62 | Whenever the loop as written halts, it keeps exactly the set the modelled walk keeps, or both fail, each on a node reachable from the seeds that the map does not know. |
| Pruning.RecipeNodes | recipe_engine/depgraph.py:53-55 | The initial work list holds exactly the recipe nodes of the node map. |
| Pruning.Prune | recipe_engine/depgraph.py:51-76 | Pruning keeps the three maps well formed. |
| Pruning.ModuleNames | recipe_engine/depgraph.py:66-67 | `mod_names` holds exactly the names of the kept module nodes. |
| Pruning.RecipeNames | recipe_engine/depgraph.py:72-73 | `recipe_names` holds exactly the names of the kept recipe nodes. |
| Pruning.Keep | recipe_engine/depgraph.py:64-76 | The kept node map is the collected one cut down to the kept set, with unchanged dependency lists. Each owner map keeps exactly its names whose node was kept, with unchanged packages. |
| Pruning.KeepRecipes | recipe_engine/depgraph.py:72-76 | When every recipe node is kept, the recipe owner map is unchanged. |
| Pruning.SeedsAreRecipeNodes | recipe_engine/depgraph.py:53-55 | The walk starts from exactly the recipe nodes of the collected map. |
| Pruning.PruneWithoutRecipes | recipe_engine/depgraph.py:51 | When no recipe matched, pruning returns its input unchanged. |
| Pruning.PruneKeepsClosure | recipe_engine/depgraph.py:53-64 | When a recipe matched, the kept nodes are the least dependency-closed set containing the recipe nodes. Entries are only removed, and kept dependency lists are unchanged. |
| Pruning.PruneFault | recipe_engine/depgraph.py:58-62 | A failed pruning means a recipe matched, and the fault is a node that the recipes reach but that was never collected. |
| Pruning.PruneModuleOwner | recipe_engine/depgraph.py:66-70 | After pruning, the module owner map has exactly the names of the kept module nodes, with unchanged packages. |
| Pruning.PruneRecipeOwner | recipe_engine/depgraph.py:72-76 | After pruning, the recipe owner map has exactly the names of the kept recipe nodes. It equals the collected map, because every matched recipe is kept. |
| Pruning.PruneDepsOwned | recipe_engine/depgraph.py:57-76 | After a successful pruning, every dependency of a kept node is a kept module with an owner entry. |
| Dicts.Put | recipe_engine/depgraph.py:35-36 | A dictionary assignment stores the value under the key. A new key goes to the end of the order and an existing key keeps its place. |
| Dicts.NoKeys | recipe_engine/depgraph.py:51 | A dictionary is empty exactly when its key order is, so the truth test of `recipe_to_package` can read either. |
| Dicts.RestrictAll | recipe_engine/depgraph.py:74-76 | Restricting a dictionary to a superset of its keys changes nothing. |
| Dicts.Restrict | recipe_engine/depgraph.py:64 | The filtering comprehension keeps exactly the keys in the kept set, with unchanged values. |
| Rendering.Pairs | recipe_engine/depgraph.py:82-83 | The pairs of one node list its dependencies in order, each paired with the node. |
| Rendering.PairsCount | recipe_engine/depgraph.py:82-83 | The pairs of one node hold each dependency as often as its dependency list does. |
| Rendering.EdgeList | recipe_engine/depgraph.py:80-83 | A `(node, dep)` pair is in the edge list exactly when `dep` is a dependency of a listed node. |
| Rendering.EdgeListCount | recipe_engine/depgraph.py:80-83 | Over distinct keys, the edge list holds each `(node, dep)` pair exactly as often as `dep` occurs in the node's dependency list, and no other pair. |
| Rendering.EdgeStep | recipe_engine/depgraph.py:85-99 | One edge is drawn, labelled `recipe <name>` for a recipe source, exactly when its source passes its test (line 89 or 92) and its target's owner is outside the ignore list. It fails exactly when a needed owner lookup misses. Otherwise it is skipped. |
| Rendering.EmitEdges | recipe_engine/depgraph.py:85-99 | Edge emission fails exactly when some edge's lookups fail. Otherwise it yields only edge lines, and exactly the lines of the edges that are drawn. |
| Rendering.Group | recipe_engine/depgraph.py:101-103 | Every package that gets a group has at least one module in it. |
| Rendering.GroupKeys | recipe_engine/depgraph.py:101-103 | A package gets a group exactly when it owns some module of the owner map. |
| Rendering.GroupContents | recipe_engine/depgraph.py:101-103 | A package's group lists exactly the modules it owns, each once. |
| Rendering.ClusterLines | recipe_engine/depgraph.py:104-110 | One cluster line is emitted per grouped package outside the ignore list, holding that package's group. No package gets two. |
| Rendering.RecipeLabels | recipe_engine/depgraph.py:113-114 | Each recipe label is `recipe ` followed by a surviving recipe's name. |
| Rendering.RecipeSection | recipe_engine/depgraph.py:112-116 | There is at most one recipe cluster. There is one exactly when the filter is non-empty and some recipe survived, and it lists exactly the surviving recipes with the `recipe ` prefix. |
| Rendering.Render | recipe_engine/depgraph.py:79-118 | A rendered graph starts with the header and ends with the footer. |
| Rendering.RenderFaults | recipe_engine/depgraph.py:88-96 | Rendering fails exactly when the owner of some node with a dependency, or a drawn source's dependency owner, is missing. |
| Rendering.RenderSucceeds | recipe_engine/depgraph.py:88-96 | When every node and every dependency has an owner entry, rendering cannot fail. |
| Rendering.RenderDrawsShownEdges | recipe_engine/depgraph.py:85-99 | Every dependency whose source and target pass the ignore tests is drawn with the source's label. |
| Rendering.RenderEdgesAreShown | recipe_engine/depgraph.py:85-99 | Every drawn edge comes from such a dependency, so no drawn edge fails an ignore test. |
| Rendering.RenderClusterLines | recipe_engine/depgraph.py:101-110 | The cluster lines of the output are exactly those built from the package groups, and no two name the same package. |
| Rendering.RenderClusters | recipe_engine/depgraph.py:101-110 | Every owned module of a package outside the ignore list appears in exactly one cluster: the cluster of its owner. Each cluster is non-empty and lists exactly its package's modules, each once, including ones with no dependencies. Ignored packages get none. |
| Rendering.RenderRecipeCluster | recipe_engine/depgraph.py:112-118 | A recipe cluster appears exactly when the filter is non-empty and some recipe survived. It lists every surviving recipe with the `recipe ` prefix and sits just before the footer. |
| Printing.QuoteAll | recipe_engine/depgraph.py:113-114 | Every recipe label is printed in double quotes. |
| Printing.ClusterText | recipe_engine/depgraph.py:107-110 | A cluster's text opens a subgraph whose quoted name starts with `cluster_`, the prefix Graphviz boxes, and ends with `; }`. |
| Printing.Format | recipe_engine/depgraph.py:99 | Every record other than the header and footer prints as exactly two spaces of indentation followed by its entry. |
| Printing.JoinMentions | recipe_engine/depgraph.py:110 | Every item of a `'; '.join` list occurs in the joined text. |
| Printing.EdgeTextMentions | recipe_engine/depgraph.py:99 | An edge's text contains both of its ends, each in quotes. |
| Printing.EdgeMentions | recipe_engine/depgraph.py:99 | An edge line prints both of its ends in quotes. |
| Printing.ClusterTextMentions | recipe_engine/depgraph.py:109-110 | A cluster's text contains its quoted `cluster_` name and everything its item list contains. |
| Printing.ClusterMentions | recipe_engine/depgraph.py:109-110 | A cluster line prints `cluster_<package>` in quotes and every module of the package. |
| Printing.RecipeClusterMentions | recipe_engine/depgraph.py:113-116 | The recipe cluster prints every recipe label in quotes. |
| Printing.EmitSnoc | recipe_engine/depgraph.py:79-118 | One more `print` call appends its argument and a newline to everything printed so far. |
| Printing.EmitFramed | recipe_engine/depgraph.py:79-118 | A sequence of `print` calls writes the first argument, then the middle ones, then the last, each followed by a newline. |
| Printing.FormatAll | recipe_engine/depgraph.py:79-118 | Each record is printed through exactly one `print` call, and in order. |
| Printing.PrintFramed | recipe_engine/depgraph.py:14-21 | The printed text starts with the header constant and ends with the footer constant, each followed by the newline `print` adds. |
| DepGraph.Stage | recipe_engine/depgraph.py:25-76 | The maps that reach rendering are well formed. |
| DepGraph.Generate | recipe_engine/depgraph.py:24-118 | A generated graph starts with the header and ends with the footer. |
| DepGraph.StageWithinCollected | recipe_engine/depgraph.py:51-76 | What reaches rendering is part of what was collected. Entries are only removed, never added or changed. |
| DepGraph.OwnedIsDeclared | recipe_engine/depgraph.py:29-36 | A collected module whose owner is outside the ignore list was enumerated in a package that neither the test of line 31 nor the list of names excludes. |
| DepGraph.UnfilteredStage | recipe_engine/depgraph.py:38 | Without a filter, the collected maps reach rendering unchanged and no recipe node exists. |
| DepGraph.UnfilteredHasNoRecipes | recipe_engine/depgraph.py:38-116 | Without a filter, there is no recipe cluster, and every edge starts at a module enumerated in a package that no ignore test excludes. |
| DepGraph.CollectRecipesNoMatch | recipe_engine/depgraph.py:41-48 | When no recipe name contains the filter, the recipe step adds nothing. |
| DepGraph.NoMatchIsNoFilter | recipe_engine/depgraph.py:38-51 | A filter that matches no recipe produces exactly the output of no filter. |
| DepGraph.FilteredKeepsClosure | recipe_engine/depgraph.py:38-76 | Under a filter that matches, the seeds are exactly the matched recipes. The kept nodes are their least dependency-closed set and rendering succeeds. Otherwise the run fails on a reachable node that was never collected. |
| DepGraph.EdgesAvoidIgnored | recipe_engine/depgraph.py:85-99 | Every drawn edge's target is a module enumerated in a package that no ignore test excludes. Its source is one too or, under a filter with an own package the test of line 92 does not find, a prefixed matched recipe. |
| DepGraph.AsWrittenDepsOwned | recipe_engine/depgraph.py:29-48 | As written, when every dependency names an enumerated module, every dependency of every collected node has an owner entry and a node. |
| DepGraph.AsWrittenNeverFaults | recipe_engine/depgraph.py:24-118 | As written, when every dependency names an enumerated module, no run fails, whatever the ignore list and the filter. |
| DepGraph.ByNameSkipsIgnored | recipe_engine/depgraph.py:29-36 | Read by name, the module nodes are exactly those enumerated in packages outside the ignore list, and no owner entry names an ignored package. |
| DepGraph.ByNameHidesIgnoredOwn | recipe_engine/depgraph.py:88-94 | Read by name, when the own package is ignored every drawn edge starts at a module of a package outside the ignore list, so no recipe edge is drawn. |
| Scenarios.WholeGraph | recipe_engine/depgraph.py:24-118 | For packages P1{A→[B], B→[]} and P2{C→[A]}, with no filter and nothing ignored, the output has both edges and both clusters, under either reading. |
| Scenarios.IgnoringPackage | recipe_engine/depgraph.py:29-110 | Ignoring P2 removes C's edge and C's cluster under either reading. |
| Scenarios.IgnoredPackageStillCollected | recipe_engine/depgraph.py:31 | As written, ignoring P2 still collects C, exactly as if nothing were ignored. |
| Scenarios.IgnoredPackageSkippedByName | recipe_engine/depgraph.py:31 | Read by name, ignoring P2 leaves C out of the collected maps. |
| Scenarios.FilteringOnRecipe | recipe_engine/depgraph.py:38-116 | Filtering on recipe R1→[A] keeps R1, A and B, prunes C, and adds the recipe edge and the recipe cluster, under either reading. |
| Scenarios.IgnoredOwnRecipeStillDrawn | recipe_engine/depgraph.py:92 | As written, ignoring the own package P3 under the filter R1 still draws the edge from `recipe R1`. |
| Scenarios.IgnoredOwnRecipeHidden | recipe_engine/depgraph.py:92-94 | Read by name, the same run draws no recipe edge but keeps the recipe cluster. |
| Scenarios.DependencyOnIgnoredPackageFaults | recipe_engine/depgraph.py:31-96 | Read by name, a dependency on a module of an ignored package aborts rendering at the target-owner lookup. |
| Scenarios.DependencyOnIgnoredPackageSkipped | recipe_engine/depgraph.py:31-96 | As written, the same run draws no edge and only the cluster of P1. |
| Scenarios.FilteredDependencyOnIgnoredPackageFaults | recipe_engine/depgraph.py:31-61 | Read by name, under a filter the same dependency aborts the pruning walk's lookup. |
| Scenarios.FilteredDependencyOnIgnoredPackageSucceeds | recipe_engine/depgraph.py:31-61 | As written, the same filtered run completes. |

## Left out

- The registry and loader (`loop_over_recipe_modules`, `load`, `UniverseView`, `loop_over_recipes`, `load_recipe`, `LOADED_DEPS`) are not part of this model. Their results are the input sequences.
- The writes to `stdout` are left out. `Printing.Print` gives the text that would be written.
- A run that raises after printing part of the graph is modelled as a fault only. The partial output is not modelled.
- Python `dict` iteration order is fixed as insertion order. No property depends on it: the lemmas speak of membership, except the worked examples.
- The package class is not part of this model. The enumerated `package` of line 31 and the own package stored at line 48 are represented by their names. What the membership tests of lines 31 and 92 find is given by `Graph.ObjectTest` instead of by the class's equality.
- Graph.ObjectIgnored: this is a modelling choice, not a proved property. It assumes the package class keeps Python's default equality, so the object tests of lines 31 and 92 never find a package among name strings (`AsWritten`). The by-name reading (`ByName`) is kept for the corrected half. Scenarios.IgnoredPackageStillCollected, DepGraph.AsWrittenNeverFaults, DepGraph.ByNameSkipsIgnored and DepGraph.ByNameHidesIgnoredOwn state what each reading implies.
- Scenarios.DependencyOnIgnoredPackageFaults: holds only under the by-name reading of line 31. As written, the same run completes (Scenarios.DependencyOnIgnoredPackageSkipped).
- Scenarios.FilteredDependencyOnIgnoredPackageFaults: holds only under the by-name reading of line 31. As written, the same run completes (Scenarios.FilteredDependencyOnIgnoredPackageSucceeds).
- Closure.SourceWalkAgrees: when both walks fail, it states that each fault node is reachable from the seeds and unknown to the map. It does not prove that they fail on the same node. Both pop from the end of the work list. Showing that the loop as written meets the same unknown node first would need an invariant over the kept items whose subtrees are still on its stack, and the model does not carry one.
- The command line of `recipes.py` is left out. It only supplies the defaults: an empty ignore list and an empty filter.
- The coverage helpers of `recipe_engine/third_party/expect_tests/cover.py` are left out. They are concurrency, an external library and floating-point reporting.
- Closure.SourceWalk: the loop as written is bounded by a step count (`fuel`). Its non-termination is stated as "not halted for any bound", not as an infinite run.

## Findings

| source | as written | input that shows it | evidently intended | confidence | as-written member | corrected member |
|---|---|---|---|---|---|---|
| recipe_engine/depgraph.py:58-62 | Every popped item's dependencies are pushed again, even when the item is already kept, so the loop never empties its queue on a dependency cycle. | A matched recipe `R` with dependencies `[A]`, where module `A` has dependencies `[A]`. | A walk that skips nodes it has already kept, always terminates, and keeps the same set. | medium; not executed; the loader may already reject cyclic dependencies | Closure.SourceWalkCycles | Closure.Walk |
| recipe_engine/depgraph.py:31 | The enumerated package object is looked up in a list of package names, so the test never succeeds and ignored packages are still collected. | `--ignore-package P2` on a registry where P2 declares module `C`: `C` is still collected. | Skip the modules of every package whose name is in the ignore list. | low; not executed; the package class is not part of this model, and skipping by name alone makes line 96 raise on a dependency into an ignored package (Scenarios.DependencyOnIgnoredPackageFaults) | Scenarios.IgnoredPackageStillCollected | DepGraph.ByNameSkipsIgnored |
| recipe_engine/depgraph.py:92 | The stored own package object is looked up in the list of names, so recipe edges are drawn even when the own package is ignored. | Own package P3 in the ignore list with the filter `R1`: the edge from `recipe R1` is still drawn. | Hide the recipe edges when the own package's name is ignored. | low; not executed; the package class is not part of this model | Scenarios.IgnoredOwnRecipeStillDrawn | DepGraph.ByNameHidesIgnoredOwn |
