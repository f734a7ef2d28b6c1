/**
 The whole generator (recipe_engine/depgraph.py, `main`, lines 24-118):
 collect, prune when a filter is given, render. `test` says how the tests of
 lines 31 and 92 compare a package object with the ignore list
 (`Graph.ObjectTest`); every property below is stated for both readings.
 */
module DepGraph {
  import opened Dicts
  import opened Graph
  import opened Text
  import opened Collection
  import opened Closure
  import opened Pruning
  import opened Rendering

  /** The maps that reach rendering (line 79): the collected ones, pruned when a
      filter is given (the pruning itself does nothing unless a recipe matched). */
  function Stage(mods: seq<ModuleDecl>, recs: seq<RecipeDecl>, own: PackageId,
                 ignore: seq<PackageId>, filter: string, test: ObjectTest): (r: Result<Collected>)
    ensures r.Ok? ==> r.value.Valid()
  {
    var c := Collect(mods, recs, own, ObjectIgnored(ignore, test), filter);
    if filter == "" then Ok(c) else Prune(c)
  }

  /** Lines 24-118: the emitted lines, or the lookup fault that aborts the run. */
  function Generate(mods: seq<ModuleDecl>, recs: seq<RecipeDecl>, own: PackageId,
                    ignore: seq<PackageId>, filter: string, test: ObjectTest): (r: Result<seq<Line>>)
    ensures r.Ok? ==> |r.value| >= 2 && r.value[0] == Header && r.value[|r.value| - 1] == Footer
  {
    var p :- Stage(mods, recs, own, ignore, filter, test);
    Render(p, ignore, ObjectIgnored(ignore, test), filter)
  }

  /** What reaches rendering is a part of what was collected: node entries and
      owner entries are only ever removed, never added or changed. */
  lemma StageWithinCollected(mods: seq<ModuleDecl>, recs: seq<RecipeDecl>, own: PackageId,
                             ignore: seq<PackageId>, filter: string, test: ObjectTest)
    requires Stage(mods, recs, own, ignore, filter, test).Ok?
    ensures var c := Collect(mods, recs, own, ObjectIgnored(ignore, test), filter);
            var p := Stage(mods, recs, own, ignore, filter, test).value;
            && (forall k :: k in p.nodes.m ==> k in c.nodes.m && p.nodes.m[k] == c.nodes.m[k])
            && (forall n :: n in p.moduleOwner.m ==> n in c.moduleOwner.m && p.moduleOwner.m[n] == c.moduleOwner.m[n])
            && p.recipeOwner.m == c.recipeOwner.m
  {
    var c := Collect(mods, recs, own, ObjectIgnored(ignore, test), filter);
    if filter != "" {
      PruneModuleOwner(c);
      PruneRecipeOwner(c);
      if c.recipeOwner.m != map[] {
        PruneKeepsClosure(c);
      } else {
        PruneWithoutRecipes(c);
      }
    }
  }

  /** A collected module owned outside the ignore list is the name of an
      enumerated module of a package that neither test of the ignore list
      excludes. */
  lemma OwnedIsDeclared(mods: seq<ModuleDecl>, recs: seq<RecipeDecl>, own: PackageId,
                        ignore: seq<PackageId>, filter: string, test: ObjectTest)
    ensures var skip := ObjectIgnored(ignore, test);
            var c := Collect(mods, recs, own, skip, filter);
            forall n :: n in c.moduleOwner.m && c.moduleOwner.m[n] !in ignore ==> Declared(mods, skip + ignore, n)
  {
    var skip := ObjectIgnored(ignore, test);
    var owner := CollectModules(mods, skip).1;
    assert Collect(mods, recs, own, skip, filter).moduleOwner == owner;
    forall n | n in owner.m && owner.m[n] !in ignore
      ensures Declared(mods, skip + ignore, n)
    {
      CollectModulesOwner(mods, skip, n);
      var i :| 0 <= i < |mods| && mods[i].name == n && mods[i].package !in skip && mods[i].package == owner.m[n];
      assert mods[i].package !in skip + ignore;
    }
  }

  /** Without a filter nothing is pruned and no recipe node is collected. */
  lemma UnfilteredStage(mods: seq<ModuleDecl>, recs: seq<RecipeDecl>, own: PackageId,
                        ignore: seq<PackageId>, test: ObjectTest)
    ensures var c := Collect(mods, recs, own, ObjectIgnored(ignore, test), "");
            && Stage(mods, recs, own, ignore, "", test) == Ok(c)
            && (forall k :: k in c.nodes.m ==> k.Module?)
            && c.recipeOwner.m == map[]
  {
    var c := Collect(mods, recs, own, ObjectIgnored(ignore, test), "");
    assert forall n :: Recipe(n) !in c.nodes.m;
  }

  /** Without a filter no recipe appears in the output: every drawn edge starts
      at an enumerated module of a package that is not ignored, and there is no
      recipe cluster. */
  lemma UnfilteredHasNoRecipes(mods: seq<ModuleDecl>, recs: seq<RecipeDecl>, own: PackageId,
                               ignore: seq<PackageId>, test: ObjectTest)
    requires Generate(mods, recs, own, ignore, "", test).Ok?
    ensures forall l :: l in Generate(mods, recs, own, ignore, "", test).value ==> !l.RecipeClusterLine?
    ensures forall a, b :: EdgeLine(a, b) in Generate(mods, recs, own, ignore, "", test).value ==>
              Declared(mods, ObjectIgnored(ignore, test) + ignore, a)
  {
    var skip := ObjectIgnored(ignore, test);
    var c := Collect(mods, recs, own, skip, "");
    UnfilteredStage(mods, recs, own, ignore, test);
    OwnedIsDeclared(mods, recs, own, ignore, "", test);
    var out := Generate(mods, recs, own, ignore, "", test).value;
    assert out == Render(c, ignore, skip, "").value;
    RenderRecipeCluster(c, ignore, skip, "");
    RenderEdgesAreShown(c, ignore, skip, "");
    forall a, b | EdgeLine(a, b) in out ensures Declared(mods, skip + ignore, a) {
      var k :| k in c.nodes.m && b in c.nodes.m[k] && a == Label(k)
                && SourceShown(k, c.moduleOwner.m, c.recipeOwner.m, ignore, skip)
                && b in c.moduleOwner.m && c.moduleOwner.m[b] !in ignore;
      assert k.Module?;
    }
  }

  /** With no recipe matching, the recipe step adds nothing. */
  lemma {:induction false} CollectRecipesNoMatch(nodes: Dict<NodeId, seq<string>>, recs: seq<RecipeDecl>,
                                                 own: PackageId, filter: string)
    requires nodes.Valid()
    requires forall i :: 0 <= i < |recs| ==> !Contains(recs[i].name, filter)
    ensures CollectRecipes(nodes, recs, own, filter) == (nodes, Empty())
  {
    if recs != [] {
      CollectRecipesNoMatch(nodes, recs[..|recs| - 1], own, filter);
    }
  }

  /** A filter that matches no recipe produces exactly the output of no filter. */
  lemma NoMatchIsNoFilter(mods: seq<ModuleDecl>, recs: seq<RecipeDecl>, own: PackageId,
                          ignore: seq<PackageId>, filter: string, test: ObjectTest)
    requires forall i :: 0 <= i < |recs| ==> !Contains(recs[i].name, filter)
    ensures Generate(mods, recs, own, ignore, filter, test) == Generate(mods, recs, own, ignore, "", test)
  {
    if filter != "" {
      var skip := ObjectIgnored(ignore, test);
      var (nodes, _) := CollectModules(mods, skip);
      CollectRecipesNoMatch(nodes, recs, own, filter);
      var c := Collect(mods, recs, own, skip, filter);
      assert c == Collect(mods, recs, own, skip, "");
      PruneWithoutRecipes(c);
      assert Render(c, ignore, skip, filter) == Render(c, ignore, skip, "");
    }
  }

  /** With a filter that matches some recipe, the nodes that reach rendering are
      exactly the least dependency-closed set containing the matched recipes,
      their dependency lists are the collected ones, and rendering cannot fail
      on a lookup; otherwise the pipeline fails on a node that the matched
      recipes reach but that was never collected. */
  lemma FilteredKeepsClosure(mods: seq<ModuleDecl>, recs: seq<RecipeDecl>, own: PackageId,
                             ignore: seq<PackageId>, filter: string, test: ObjectTest)
    requires filter != ""
    requires exists i :: 0 <= i < |recs| && Contains(recs[i].name, filter)
    ensures var c := Collect(mods, recs, own, ObjectIgnored(ignore, test), filter);
            forall n :: Recipe(n) in Seeds(c) <==> Matched(recs, filter, n)
    ensures var c := Collect(mods, recs, own, ObjectIgnored(ignore, test), filter);
            var st := Stage(mods, recs, own, ignore, filter, test);
            st.Ok? ==>
              && LeastClosure(c.nodes.m, Seeds(c), st.value.nodes.m.Keys)
              && Generate(mods, recs, own, ignore, filter, test).Ok?
    ensures var c := Collect(mods, recs, own, ObjectIgnored(ignore, test), filter);
            var st := Stage(mods, recs, own, ignore, filter, test);
            st.Err? ==>
              && st.fault.MissingNode?
              && Reaches(c.nodes.m, Seeds(c), st.fault.node)
              && st.fault.node !in c.nodes.m
  {
    var skip := ObjectIgnored(ignore, test);
    var c := Collect(mods, recs, own, skip, filter);
    var i :| 0 <= i < |recs| && Contains(recs[i].name, filter);
    assert Matched(recs, filter, recs[i].name);
    assert recs[i].name in c.recipeOwner.m;
    forall n ensures Recipe(n) in Seeds(c) <==> Matched(recs, filter, n) {
      if Matched(recs, filter, n) { assert Recipe(n) in c.nodes.m; }
    }
    if Prune(c).Ok? {
      PruneKeepsClosure(c);
      PruneDepsOwned(c);
      RenderSucceeds(Prune(c).value, ignore, skip, filter);
    } else {
      PruneFault(c);
    }
  }

  /** No drawn edge touches an ignored package: its target is a module
      enumerated for a package that is not ignored, and so is its source or,
      under a filter, its source is a matched recipe whose own package the test
      of line 92 does not find in the ignore list. */
  lemma EdgesAvoidIgnored(mods: seq<ModuleDecl>, recs: seq<RecipeDecl>, own: PackageId,
                          ignore: seq<PackageId>, filter: string, test: ObjectTest)
    requires Generate(mods, recs, own, ignore, filter, test).Ok?
    ensures var skip := ObjectIgnored(ignore, test);
            forall a, b :: EdgeLine(a, b) in Generate(mods, recs, own, ignore, filter, test).value ==>
              && Declared(mods, skip + ignore, b)
              && (|| Declared(mods, skip + ignore, a)
                  || (filter != "" && own !in skip &&
                      exists n :: Matched(recs, filter, n) && a == RecipePrefix + n))
  {
    var skip := ObjectIgnored(ignore, test);
    var c := Collect(mods, recs, own, skip, filter);
    var p := Stage(mods, recs, own, ignore, filter, test).value;
    StageWithinCollected(mods, recs, own, ignore, filter, test);
    OwnedIsDeclared(mods, recs, own, ignore, filter, test);
    RenderEdgesAreShown(p, ignore, skip, filter);
    forall a, b | EdgeLine(a, b) in Generate(mods, recs, own, ignore, filter, test).value
      ensures Declared(mods, skip + ignore, b)
      ensures || Declared(mods, skip + ignore, a)
              || (filter != "" && own !in skip &&
                  exists n :: Matched(recs, filter, n) && a == RecipePrefix + n)
    {
      var k :| k in p.nodes.m && b in p.nodes.m[k] && a == Label(k)
                && SourceShown(k, p.moduleOwner.m, p.recipeOwner.m, ignore, skip)
                && b in p.moduleOwner.m && p.moduleOwner.m[b] !in ignore;
      assert b in c.moduleOwner.m;
      match k
      case Module(n) =>
        assert n in c.moduleOwner.m;
      case Recipe(n) =>
        assert Recipe(n) in c.nodes.m;
        assert Matched(recs, filter, n);
    }
  }

  /** Every dependency named in the registry is the name of some enumerated
      module. */
  ghost predicate DepsResolve(mods: seq<ModuleDecl>, recs: seq<RecipeDecl>) {
    && (forall i, d :: 0 <= i < |mods| && d in mods[i].deps ==> exists j :: 0 <= j < |mods| && mods[j].name == d)
    && (forall i, d :: 0 <= i < |recs| && d in recs[i].deps ==> exists j :: 0 <= j < |mods| && mods[j].name == d)
  }

  /** With the object tests as written, every enumerated module is collected,
      so the collected maps give every dependency an owner. */
  lemma AsWrittenDepsOwned(mods: seq<ModuleDecl>, recs: seq<RecipeDecl>, own: PackageId,
                           ignore: seq<PackageId>, filter: string)
    requires DepsResolve(mods, recs)
    ensures var c := Collect(mods, recs, own, ObjectIgnored(ignore, AsWritten), filter);
            c.DepsOwned() && Closed(c.nodes.m, c.nodes.m.Keys)
  {
    var skip := ObjectIgnored(ignore, AsWritten);
    assert skip == [];
    var c := Collect(mods, recs, own, skip, filter);
    CollectFrom(mods, recs, own, skip, filter);
    forall k, d | k in c.nodes.m && d in c.nodes.m[k]
      ensures d in c.moduleOwner.m && Module(d) in c.nodes.m
    {
      assert EntryDeps(mods, recs, k, c.nodes.m[k]);
      match k
      case Module(n) =>
        var i :| 0 <= i < |mods| && mods[i].name == n && mods[i].deps == c.nodes.m[k];
        var j :| 0 <= j < |mods| && mods[j].name == d;
        assert mods[j].package !in skip;
      case Recipe(n) =>
        var i :| 0 <= i < |recs| && recs[i].name == n && recs[i].deps == c.nodes.m[k];
        var j :| 0 <= j < |mods| && mods[j].name == d;
        assert mods[j].package !in skip;
    }
  }

  /** With the object tests as written, a registry whose dependencies all name
      enumerated modules never makes a run fail, whatever the ignore list and
      the filter: a dependency on a module of an ignored package is skipped at
      line 96, not looked up in vain. */
  lemma AsWrittenNeverFaults(mods: seq<ModuleDecl>, recs: seq<RecipeDecl>, own: PackageId,
                             ignore: seq<PackageId>, filter: string)
    requires DepsResolve(mods, recs)
    ensures Generate(mods, recs, own, ignore, filter, AsWritten).Ok?
  {
    var skip := ObjectIgnored(ignore, AsWritten);
    var c := Collect(mods, recs, own, skip, filter);
    AsWrittenDepsOwned(mods, recs, own, ignore, filter);
    if filter == "" || c.recipeOwner.m == map[] {
      if filter != "" {
        PruneWithoutRecipes(c);
      }
      RenderSucceeds(c, ignore, skip, filter);
    } else {
      if Prune(c).Err? {
        PruneFault(c);
        assert false;
      }
      PruneDepsOwned(c);
      RenderSucceeds(Prune(c).value, ignore, skip, filter);
    }
  }

  /** Reading the test of line 31 by name, no module of an ignored package is
      collected: the node map and the module owner map have exactly the names
      enumerated for packages outside the ignore list. */
  lemma ByNameSkipsIgnored(mods: seq<ModuleDecl>, recs: seq<RecipeDecl>, own: PackageId,
                           ignore: seq<PackageId>, filter: string)
    ensures var c := Collect(mods, recs, own, ObjectIgnored(ignore, ByName), filter);
            && (forall n :: Module(n) in c.nodes.m <==>
                  exists i :: 0 <= i < |mods| && mods[i].package !in ignore && mods[i].name == n)
            && (forall n :: n in c.moduleOwner.m ==> c.moduleOwner.m[n] !in ignore)
  {
    var skip := ObjectIgnored(ignore, ByName);
    var c := Collect(mods, recs, own, skip, filter);
    forall n ensures Declared(mods, skip, n) <==> Declared(mods, ignore, n) {
      if Declared(mods, ignore, n) {
        var i :| 0 <= i < |mods| && mods[i].package !in ignore && mods[i].name == n;
        assert mods[i].package !in skip;
      }
    }
    assert c.moduleOwner == CollectModules(mods, skip).1;
  }

  /** Reading the test of line 92 by name, when the own package is ignored no
      recipe edge is drawn: every edge starts at an enumerated module of a
      package that is not ignored. */
  lemma ByNameHidesIgnoredOwn(mods: seq<ModuleDecl>, recs: seq<RecipeDecl>, own: PackageId,
                              ignore: seq<PackageId>, filter: string)
    requires own in ignore
    requires Generate(mods, recs, own, ignore, filter, ByName).Ok?
    ensures forall a, b :: EdgeLine(a, b) in Generate(mods, recs, own, ignore, filter, ByName).value ==>
              exists i :: 0 <= i < |mods| && mods[i].package !in ignore && mods[i].name == a
  {
    var skip := ObjectIgnored(ignore, ByName);
    EdgesAvoidIgnored(mods, recs, own, ignore, filter, ByName);
    assert own in skip;
    forall a, b | EdgeLine(a, b) in Generate(mods, recs, own, ignore, filter, ByName).value
      ensures exists i :: 0 <= i < |mods| && mods[i].package !in ignore && mods[i].name == a
    {
      var i :| 0 <= i < |mods| && mods[i].package !in skip + ignore && mods[i].name == a;
    }
  }
}
