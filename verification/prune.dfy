/**
 Pruning (recipe_engine/depgraph.py, lines 51-76): when at least one recipe
 matched, keep only the nodes reachable from the recipe nodes and restrict
 both ownership maps to the kept names.
 */
module Pruning {
  import opened Dicts
  import opened Graph
  import opened Closure

  /** The recipe nodes among `keys`, in order (lines 53-55). */
  function RecipeNodes(keys: seq<NodeId>): (r: seq<NodeId>)
    ensures forall k :: k in r <==> k in keys && k.Recipe?
  {
    if keys == [] then []
    else if keys[0].Recipe? then [keys[0]] + RecipeNodes(keys[1..])
    else RecipeNodes(keys[1..])
  }

  /** The names of the module nodes of a node map (`mod_names`, lines 66-67). */
  function ModuleNames(nodes: map<NodeId, seq<string>>): (r: set<string>)
    ensures forall n :: n in r <==> Module(n) in nodes
  {
    var r := set k | k in nodes && k.Module? :: k.name;
    assert forall n :: Module(n) in nodes ==> Module(n).name in r;
    r
  }

  /** The names of the recipe nodes of a node map (`recipe_names`, lines 72-73). */
  function RecipeNames(nodes: map<NodeId, seq<string>>): (r: set<string>)
    ensures forall n :: n in r <==> Recipe(n) in nodes
  {
    var r := set k | k in nodes && k.Recipe? :: k.name;
    assert forall n :: Recipe(n) in nodes ==> Recipe(n).name in r;
    r
  }

  /** The recipe nodes of the collected node map: the walk's starting points. */
  ghost function Seeds(c: Collected): set<NodeId> {
    set k | k in c.nodes.m && k.Recipe?
  }

  /** Lines 51-76. Without a matched recipe (`if recipe_to_package`, line 51)
      everything passes through untouched. */
  function Prune(c: Collected): (r: Result<Collected>)
    requires c.Valid()
    ensures r.Ok? ==> r.value.Valid()
  {
    if c.recipeOwner.keys == [] then Ok(c)
    else
      var kept :- Reach(c.nodes.m, RecipeNodes(c.nodes.keys));
      Ok(Keep(c, kept))
  }

  /** Lines 64-76: restrict the node map to the kept nodes, then each ownership
      map to the names of the kept nodes of its kind. */
  function Keep(c: Collected, kept: set<NodeId>): (r: Collected)
    requires c.Valid()
    ensures r.Valid()
    ensures r.nodes.m.Keys == c.nodes.m.Keys * kept
    ensures forall k :: k in r.nodes.m ==> r.nodes.m[k] == c.nodes.m[k]
    ensures forall n :: n in r.moduleOwner.m <==> n in c.moduleOwner.m && Module(n) in r.nodes.m
    ensures forall n :: n in r.moduleOwner.m ==> r.moduleOwner.m[n] == c.moduleOwner.m[n]
    ensures forall n :: n in r.recipeOwner.m <==> n in c.recipeOwner.m && Recipe(n) in r.nodes.m
    ensures forall n :: n in r.recipeOwner.m ==> r.recipeOwner.m[n] == c.recipeOwner.m[n]
  {
    var nodes := Restrict(c.nodes, kept);
    Collected(nodes, Restrict(c.moduleOwner, ModuleNames(nodes.m)), Restrict(c.recipeOwner, RecipeNames(nodes.m)))
  }

  /** The work list of lines 53-55 holds exactly the recipe nodes. */
  lemma SeedsAreRecipeNodes(c: Collected)
    requires c.Valid()
    ensures ToSet(RecipeNodes(c.nodes.keys)) == Seeds(c)
  {
  }

  /** With no matched recipe, pruning changes nothing. */
  lemma PruneWithoutRecipes(c: Collected)
    requires c.Valid()
    requires c.recipeOwner.m == map[]
    ensures Prune(c) == Ok(c)
  {
    NoKeys(c.recipeOwner);
  }

  /** With a matched recipe, the kept node set is the least dependency-closed
      set containing the recipe nodes, and the pruned node map is the
      collected one restricted to it: entries are only removed and the
      dependency lists of the kept ones are unchanged. */
  lemma PruneKeepsClosure(c: Collected)
    requires c.Valid()
    requires c.recipeOwner.m != map[]
    requires Prune(c).Ok?
    ensures LeastClosure(c.nodes.m, Seeds(c), Prune(c).value.nodes.m.Keys)
    ensures forall k :: k in Prune(c).value.nodes.m ==>
              k in c.nodes.m && Prune(c).value.nodes.m[k] == c.nodes.m[k]
  {
    NoKeys(c.recipeOwner);
    var seeds := RecipeNodes(c.nodes.keys);
    SeedsAreRecipeNodes(c);
    ReachIsLeastClosure(c.nodes.m, seeds);
    var kept := Reach(c.nodes.m, seeds).value;
    assert Prune(c).value.nodes.m.Keys == c.nodes.m.Keys * kept == kept;
  }

  /** A failed pruning is the lookup of a node that the recipes reach but that
      was never collected (line 61). */
  lemma PruneFault(c: Collected)
    requires c.Valid()
    requires Prune(c).Err?
    ensures c.recipeOwner.m != map[]
    ensures Prune(c).fault.MissingNode?
    ensures Reaches(c.nodes.m, Seeds(c), Prune(c).fault.node)
    ensures Prune(c).fault.node !in c.nodes.m
  {
    NoKeys(c.recipeOwner);
    var seeds := RecipeNodes(c.nodes.keys);
    SeedsAreRecipeNodes(c);
    ReachIsLeastClosure(c.nodes.m, seeds);
  }

  /** After pruning, the module ownership map is the collected one restricted
      to the names of kept module nodes, with its values unchanged. */
  lemma PruneModuleOwner(c: Collected)
    requires c.Valid() && c.OwnersMatch()
    requires Prune(c).Ok?
    ensures forall n :: n in Prune(c).value.moduleOwner.m <==> Module(n) in Prune(c).value.nodes.m
    ensures forall n :: n in Prune(c).value.moduleOwner.m ==>
              Prune(c).value.moduleOwner.m[n] == c.moduleOwner.m[n]
  {
    NoKeys(c.recipeOwner);
    if c.recipeOwner.keys != [] {
      PruneKeepsClosure(c);
    }
  }

  /** Keeping every recipe node keeps the whole recipe ownership map. */
  lemma KeepRecipes(c: Collected, kept: set<NodeId>)
    requires c.Valid() && c.OwnersMatch()
    requires Seeds(c) <= kept
    ensures Keep(c, kept).recipeOwner.m == c.recipeOwner.m
  {
    var names := RecipeNames(Restrict(c.nodes, kept).m);
    assert c.recipeOwner.m.Keys <= names by {
      forall n | n in c.recipeOwner.m ensures n in names {
        assert Recipe(n) in Seeds(c);
      }
    }
    RestrictAll(c.recipeOwner, names);
  }

  /** After pruning, the recipe ownership map still has exactly the names of the
      recipe nodes, and is in fact unchanged: every matched recipe is kept. */
  lemma PruneRecipeOwner(c: Collected)
    requires c.Valid() && c.OwnersMatch()
    requires Prune(c).Ok?
    ensures forall n :: n in Prune(c).value.recipeOwner.m <==> Recipe(n) in Prune(c).value.nodes.m
    ensures Prune(c).value.recipeOwner.m == c.recipeOwner.m
  {
    NoKeys(c.recipeOwner);
    if c.recipeOwner.keys != [] {
      PruneKeepsClosure(c);
      var kept := Reach(c.nodes.m, RecipeNodes(c.nodes.keys)).value;
      assert Prune(c).value == Keep(c, kept);
      KeepRecipes(c, kept);
    }
  }

  /** After a successful pruning every dependency of a kept node is a kept
      module with an owner entry, so rendering cannot fail on a lookup. */
  lemma PruneDepsOwned(c: Collected)
    requires c.Valid() && c.OwnersMatch()
    requires c.recipeOwner.m != map[]
    requires Prune(c).Ok?
    ensures Prune(c).value.OwnersMatch()
    ensures Prune(c).value.DepsOwned()
    ensures forall k, d :: k in Prune(c).value.nodes.m && d in Prune(c).value.nodes.m[k] ==>
              Module(d) in Prune(c).value.nodes.m
  {
    var p := Prune(c).value;
    PruneKeepsClosure(c);
    PruneModuleOwner(c);
    PruneRecipeOwner(c);
    assert Closed(c.nodes.m, p.nodes.m.Keys);
  }
}
