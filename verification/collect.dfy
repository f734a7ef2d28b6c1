/**
 Collection: walking the registry's module and recipe enumerations into the
 node map and the two ownership maps (recipe_engine/depgraph.py, lines 25-48).
 The registry's enumerations arrive as sequences; a later entry with the same
 name overwrites an earlier one, as a dictionary assignment does. `skip` holds
 the packages that the test of line 31 finds in the ignore list (see
 `Graph.ObjectIgnored`).
 */
module Collection {
  import opened Dicts
  import opened Graph
  import opened Text

  /** Some enumerated module of a package outside `skip` is called `n`. */
  ghost predicate Declared(mods: seq<ModuleDecl>, skip: seq<PackageId>, n: string) {
    exists i :: 0 <= i < |mods| && mods[i].package !in skip && mods[i].name == n
  }

  /** Entry `i` is the last collected module entry with its name, so its values win. */
  ghost predicate LastModule(mods: seq<ModuleDecl>, skip: seq<PackageId>, i: int) {
    && 0 <= i < |mods|
    && mods[i].package !in skip
    && forall j :: i < j < |mods| && mods[j].package !in skip ==> mods[j].name != mods[i].name
  }

  /** Some recipe visible to the own package is called `n` and contains the filter. */
  ghost predicate Matched(recs: seq<RecipeDecl>, filter: string, n: string) {
    exists i :: 0 <= i < |recs| && recs[i].name == n && Contains(n, filter)
  }

  /** Entry `i` is the last matching recipe entry with its name, so its values win. */
  ghost predicate LastRecipe(recs: seq<RecipeDecl>, filter: string, i: int) {
    && 0 <= i < |recs|
    && Contains(recs[i].name, filter)
    && forall j :: i < j < |recs| && Contains(recs[j].name, filter) ==> recs[j].name != recs[i].name
  }

  /** Lines 29-36: every module of a package outside `skip` becomes a module
      node with its dependencies, owned by its package's name. */
  function CollectModules(mods: seq<ModuleDecl>, skip: seq<PackageId>)
    : (r: (Dict<NodeId, seq<string>>, Dict<string, PackageId>))
    ensures r.0.Valid() && r.1.Valid()
    ensures forall k :: k in r.0.m ==> k.Module? && k.name in r.1.m
    ensures forall n :: n in r.1.m ==> Module(n) in r.0.m && r.1.m[n] !in skip
  {
    if mods == [] then (Empty(), Empty())
    else
      var (nodes, owner) := CollectModules(mods[..|mods| - 1], skip);
      var md := mods[|mods| - 1];
      if md.package in skip then (nodes, owner)
      else (Put(nodes, Module(md.name), md.deps), Put(owner, md.name, md.package))
  }

  /** The node map holds module nodes only, exactly for the declared names, and
      the owner map has exactly the same names. */
  lemma {:induction false} CollectModulesKeys(mods: seq<ModuleDecl>, skip: seq<PackageId>)
    ensures forall k :: k in CollectModules(mods, skip).0.m ==> k.Module?
    ensures forall n :: Module(n) in CollectModules(mods, skip).0.m <==> Declared(mods, skip, n)
    ensures forall n :: n in CollectModules(mods, skip).1.m <==> Declared(mods, skip, n)
  {
    if mods != [] {
      var p := mods[..|mods| - 1];
      CollectModulesKeys(p, skip);
      forall n ensures Declared(mods, skip, n) <==> Declared(p, skip, n) || (mods[|mods| - 1].package !in skip && mods[|mods| - 1].name == n) {
        if Declared(p, skip, n) {
          var i :| 0 <= i < |p| && p[i].package !in skip && p[i].name == n;
          assert mods[i] == p[i];
        }
        if Declared(mods, skip, n) {
          var i :| 0 <= i < |mods| && mods[i].package !in skip && mods[i].name == n;
          if i < |p| { assert mods[i] == p[i]; }
        }
      }
    }
  }

  /** The last collected entry of each name supplies its dependencies and owner. */
  lemma {:induction false} CollectModulesValues(mods: seq<ModuleDecl>, skip: seq<PackageId>, i: int)
    requires LastModule(mods, skip, i)
    ensures Module(mods[i].name) in CollectModules(mods, skip).0.m
    ensures CollectModules(mods, skip).0.m[Module(mods[i].name)] == mods[i].deps
    ensures mods[i].name in CollectModules(mods, skip).1.m
    ensures CollectModules(mods, skip).1.m[mods[i].name] == mods[i].package
  {
    var p := mods[..|mods| - 1];
    if i < |mods| - 1 {
      assert LastModule(p, skip, i);
      CollectModulesValues(p, skip, i);
    }
  }

  /** One collection step: the last module entry is skipped or recorded. */
  lemma CollectModulesStep(mods: seq<ModuleDecl>, skip: seq<PackageId>,
                           nodes: Dict<NodeId, seq<string>>, owner: Dict<string, PackageId>)
    requires mods != [] && CollectModules(mods[..|mods| - 1], skip) == (nodes, owner)
    ensures var md := mods[|mods| - 1];
            CollectModules(mods, skip) ==
              if md.package in skip then (nodes, owner)
              else (Put(nodes, Module(md.name), md.deps), Put(owner, md.name, md.package))
  {
  }

  /** An owner entry, and the dependency list of its node, come from one
      collected entry with that name. */
  lemma {:induction false} CollectModulesOwner(mods: seq<ModuleDecl>, skip: seq<PackageId>, n: string)
    requires n in CollectModules(mods, skip).1.m
    ensures exists i :: 0 <= i < |mods| && mods[i].name == n && mods[i].package !in skip
              && mods[i].package == CollectModules(mods, skip).1.m[n]
              && CollectModules(mods, skip).0.m[Module(n)] == mods[i].deps
  {
    assert mods != [];
    var p := mods[..|mods| - 1];
    var last := mods[|mods| - 1];
    var r0 := CollectModules(p, skip);
    CollectModulesStep(mods, skip, r0.0, r0.1);
    if last.package !in skip && last.name == n {
      var i := |mods| - 1;
      assert mods[i].package == CollectModules(mods, skip).1.m[n]
             && CollectModules(mods, skip).0.m[Module(n)] == mods[i].deps;
    } else {
      CollectModulesOwner(p, skip, n);
      var i :| 0 <= i < |p| && p[i].name == n && p[i].package !in skip
               && p[i].package == r0.1.m[n] && r0.0.m[Module(n)] == p[i].deps;
      assert mods[i] == p[i];
      assert mods[i].package == CollectModules(mods, skip).1.m[n]
             && CollectModules(mods, skip).0.m[Module(n)] == mods[i].deps;
    }
  }

  /** Lines 41-48: every visible recipe whose name contains the filter becomes a
      recipe node with its dependencies, owned by the own package. */
  function CollectRecipes(nodes: Dict<NodeId, seq<string>>, recs: seq<RecipeDecl>,
                          own: PackageId, filter: string)
    : (r: (Dict<NodeId, seq<string>>, Dict<string, PackageId>))
    requires nodes.Valid()
    ensures r.0.Valid() && r.1.Valid()
    ensures forall n :: Module(n) in r.0.m <==> Module(n) in nodes.m
    ensures forall n :: Module(n) in nodes.m ==> r.0.m[Module(n)] == nodes.m[Module(n)]
    ensures forall n :: n in r.1.m ==> r.1.m[n] == own
  {
    if recs == [] then (nodes, Empty())
    else
      var (nodes', owner) := CollectRecipes(nodes, recs[..|recs| - 1], own, filter);
      var rd := recs[|recs| - 1];
      if !Contains(rd.name, filter) then (nodes', owner)
      else (Put(nodes', Recipe(rd.name), rd.deps), Put(owner, rd.name, own))
  }

  /** Recipe nodes are added exactly for the matching recipes, and the recipe
      owner map has exactly their names. */
  lemma {:induction false} CollectRecipesKeys(nodes: Dict<NodeId, seq<string>>, recs: seq<RecipeDecl>,
                                              own: PackageId, filter: string)
    requires nodes.Valid()
    ensures forall n :: Recipe(n) in CollectRecipes(nodes, recs, own, filter).0.m <==>
                          Recipe(n) in nodes.m || Matched(recs, filter, n)
    ensures forall n :: n in CollectRecipes(nodes, recs, own, filter).1.m <==> Matched(recs, filter, n)
  {
    if recs != [] {
      var p := recs[..|recs| - 1];
      CollectRecipesKeys(nodes, p, own, filter);
      forall n ensures Matched(recs, filter, n) <==> Matched(p, filter, n) || (recs[|recs| - 1].name == n && Contains(n, filter)) {
        if Matched(p, filter, n) {
          var i :| 0 <= i < |p| && p[i].name == n && Contains(n, filter);
          assert recs[i] == p[i];
        }
        if Matched(recs, filter, n) {
          var i :| 0 <= i < |recs| && recs[i].name == n && Contains(n, filter);
          if i < |p| { assert recs[i] == p[i]; }
        }
      }
    }
  }

  /** Every recipe node the step adds has the dependency list of some recipe
      entry with that name. */
  lemma {:induction false} CollectRecipesFrom(nodes: Dict<NodeId, seq<string>>, recs: seq<RecipeDecl>,
                                              own: PackageId, filter: string)
    requires nodes.Valid()
    ensures forall n :: Recipe(n) in CollectRecipes(nodes, recs, own, filter).0.m && Recipe(n) !in nodes.m ==>
              exists i :: 0 <= i < |recs| && recs[i].name == n
                && CollectRecipes(nodes, recs, own, filter).0.m[Recipe(n)] == recs[i].deps
  {
    if recs != [] {
      var p := recs[..|recs| - 1];
      var last := recs[|recs| - 1];
      var r := CollectRecipes(nodes, recs, own, filter).0;
      var r0 := CollectRecipes(nodes, p, own, filter).0;
      CollectRecipesFrom(nodes, p, own, filter);
      assert r == if !Contains(last.name, filter) then r0 else Put(r0, Recipe(last.name), last.deps);
      forall n | Recipe(n) in r.m && Recipe(n) !in nodes.m
        ensures exists i :: 0 <= i < |recs| && recs[i].name == n && r.m[Recipe(n)] == recs[i].deps
      {
        if Contains(last.name, filter) && last.name == n {
          assert recs[|recs| - 1] == last;
        } else {
          var i :| 0 <= i < |p| && p[i].name == n && r0.m[Recipe(n)] == p[i].deps;
          assert recs[i] == p[i];
        }
      }
    }
  }

  /** The last matching entry of each recipe name supplies its dependencies. */
  lemma {:induction false} CollectRecipesValues(nodes: Dict<NodeId, seq<string>>, recs: seq<RecipeDecl>,
                                                own: PackageId, filter: string, i: int)
    requires nodes.Valid()
    requires LastRecipe(recs, filter, i)
    ensures Recipe(recs[i].name) in CollectRecipes(nodes, recs, own, filter).0.m
    ensures CollectRecipes(nodes, recs, own, filter).0.m[Recipe(recs[i].name)] == recs[i].deps
  {
    var p := recs[..|recs| - 1];
    if i < |recs| - 1 {
      assert LastRecipe(p, filter, i);
      CollectRecipesValues(nodes, p, own, filter, i);
    }
  }

  /** Lines 25-48. With an empty filter no recipe is looked at and the recipe
      ownership map stays empty. */
  function Collect(mods: seq<ModuleDecl>, recs: seq<RecipeDecl>, own: PackageId,
                   skip: seq<PackageId>, filter: string): (c: Collected)
    ensures c.Valid() && c.OwnersMatch()
    ensures forall n :: Module(n) in c.nodes.m <==> Declared(mods, skip, n)
    ensures forall n :: Recipe(n) in c.nodes.m <==> filter != "" && Matched(recs, filter, n)
    ensures forall n :: n in c.recipeOwner.m ==> c.recipeOwner.m[n] == own
  {
    CollectModulesKeys(mods, skip);
    var (nodes, moduleOwner) := CollectModules(mods, skip);
    if filter == "" then Collected(nodes, moduleOwner, Empty())
    else
      CollectRecipesKeys(nodes, recs, own, filter);
      var (nodes', recipeOwner) := CollectRecipes(nodes, recs, own, filter);
      Collected(nodes', moduleOwner, recipeOwner)
  }

  /** The dependency list `deps` of node `k` is that of some registry entry
      with the node's name. */
  ghost predicate EntryDeps(mods: seq<ModuleDecl>, recs: seq<RecipeDecl>, k: NodeId, deps: seq<string>) {
    match k
    case Module(n) => exists i :: 0 <= i < |mods| && mods[i].name == n && mods[i].deps == deps
    case Recipe(n) => exists i :: 0 <= i < |recs| && recs[i].name == n && recs[i].deps == deps
  }

  /** Collecting invents no dependency lists: every node carries the list of
      some enumerated module or visible recipe with its name. */
  lemma CollectFrom(mods: seq<ModuleDecl>, recs: seq<RecipeDecl>, own: PackageId,
                    skip: seq<PackageId>, filter: string)
    ensures var c := Collect(mods, recs, own, skip, filter);
            forall k :: k in c.nodes.m ==> EntryDeps(mods, recs, k, c.nodes.m[k])
  {
    var c := Collect(mods, recs, own, skip, filter);
    var (nodes, owner) := CollectModules(mods, skip);
    if filter != "" {
      CollectRecipesFrom(nodes, recs, own, filter);
    }
    forall k | k in c.nodes.m
      ensures EntryDeps(mods, recs, k, c.nodes.m[k])
    {
      match k
      case Module(n) =>
        assert n in owner.m;
        CollectModulesOwner(mods, skip, n);
        assert c.nodes.m[k] == nodes.m[k];
      case Recipe(n) =>
        assert k !in nodes.m;
    }
  }

  /** The last collected entry of each module name supplies the node's
      dependencies and its owner, and with a filter the last matching entry of
      each recipe name supplies the recipe node's dependencies. */
  lemma CollectValues(mods: seq<ModuleDecl>, recs: seq<RecipeDecl>, own: PackageId,
                      skip: seq<PackageId>, filter: string)
    ensures forall i :: LastModule(mods, skip, i) ==>
              var c := Collect(mods, recs, own, skip, filter);
              && Module(mods[i].name) in c.nodes.m && c.nodes.m[Module(mods[i].name)] == mods[i].deps
              && mods[i].name in c.moduleOwner.m && c.moduleOwner.m[mods[i].name] == mods[i].package
    ensures filter != "" ==>
              forall i :: LastRecipe(recs, filter, i) ==>
                var c := Collect(mods, recs, own, skip, filter);
                Recipe(recs[i].name) in c.nodes.m && c.nodes.m[Recipe(recs[i].name)] == recs[i].deps
  {
    var (nodes, _) := CollectModules(mods, skip);
    forall i | LastModule(mods, skip, i) {
      CollectModulesValues(mods, skip, i);
    }
    if filter != "" {
      forall i | LastRecipe(recs, filter, i) {
        CollectRecipesValues(nodes, recs, own, filter, i);
      }
    }
  }
}
