/**
 Worked examples of the generator on small registries.
 */
module Scenarios {
  import opened Dicts
  import opened Graph
  import opened Text
  import opened Collection
  import opened Closure
  import opened Pruning
  import opened Rendering
  import opened DepGraph

  /** Package P1 holds A -> [B] and B -> []; package P2 holds C -> [A]. */
  function Modules(): seq<ModuleDecl> {
    [ModuleDecl("P1", "A", ["B"]), ModuleDecl("P1", "B", []), ModuleDecl("P2", "C", ["A"])]
  }

  /** The own package P3 has one recipe, R1 -> [A]. */
  function Recipes(): seq<RecipeDecl> {
    [RecipeDecl("R1", ["A"])]
  }

  /** Module A of P1, collected with P1 not skipped. */
  lemma CollectA(skip: seq<PackageId>)
    requires "P1" !in skip
    ensures CollectModules([ModuleDecl("P1", "A", ["B"])], skip) ==
              (Dict([Module("A")], map[Module("A") := ["B"]]), Dict(["A"], map["A" := "P1"]))
  {
    var mods := [ModuleDecl("P1", "A", ["B"])];
    assert mods[..0] == [];
    CollectModulesStep(mods, skip, Empty(), Empty());
    assert Put(Empty(), Module("A"), ["B"]) == Dict([Module("A")], map[Module("A") := ["B"]]);
    assert Put(Empty(), "A", "P1") == Dict(["A"], map["A" := "P1"]);
  }

  /** Modules A and B of P1, collected with P1 not skipped. */
  lemma CollectAB(skip: seq<PackageId>)
    requires "P1" !in skip
    ensures CollectModules([ModuleDecl("P1", "A", ["B"]), ModuleDecl("P1", "B", [])], skip) ==
              (Dict([Module("A"), Module("B")], map[Module("A") := ["B"], Module("B") := []]),
               Dict(["A", "B"], map["A" := "P1", "B" := "P1"]))
  {
    var mods := [ModuleDecl("P1", "A", ["B"]), ModuleDecl("P1", "B", [])];
    var n1 := Dict([Module("A")], map[Module("A") := ["B"]]);
    var o1 := Dict(["A"], map["A" := "P1"]);
    assert Put(n1, Module("B"), []) == Dict([Module("A"), Module("B")], map[Module("A") := ["B"], Module("B") := []]);
    assert Put(o1, "B", "P1") == Dict(["A", "B"], map["A" := "P1", "B" := "P1"]);
    assert mods[..1] == [ModuleDecl("P1", "A", ["B"])];
    CollectA(skip);
    CollectModulesStep(mods, skip, n1, o1);
  }

  /** The node map and module owner map collected from `Modules()` when neither
      package is skipped. */
  lemma CollectAll(skip: seq<PackageId>)
    requires "P1" !in skip && "P2" !in skip
    ensures CollectModules(Modules(), skip) ==
              (Dict([Module("A"), Module("B"), Module("C")],
                    map[Module("A") := ["B"], Module("B") := [], Module("C") := ["A"]]),
               Dict(["A", "B", "C"], map["A" := "P1", "B" := "P1", "C" := "P2"]))
  {
    var mods := Modules();
    var n2 := Dict([Module("A"), Module("B")], map[Module("A") := ["B"], Module("B") := []]);
    var o2 := Dict(["A", "B"], map["A" := "P1", "B" := "P1"]);
    assert Put(n2, Module("C"), ["A"]) == Dict([Module("A"), Module("B"), Module("C")],
                                              map[Module("A") := ["B"], Module("B") := [], Module("C") := ["A"]]);
    assert Put(o2, "C", "P2") == Dict(["A", "B", "C"], map["A" := "P1", "B" := "P1", "C" := "P2"]);
    assert mods[..2] == [ModuleDecl("P1", "A", ["B"]), ModuleDecl("P1", "B", [])];
    CollectAB(skip);
    CollectModulesStep(mods, skip, n2, o2);
  }

  /** One grouping step: the last module joins its package's group. */
  lemma GroupStep(keys: seq<string>, owner: map<string, PackageId>, g: Dict<PackageId, seq<string>>)
    requires keys != [] && forall k :: k in keys ==> k in owner
    requires Group(keys[..|keys| - 1], owner) == g
    ensures Group(keys, owner) ==
              Put(g, owner[keys[|keys| - 1]],
                  (if owner[keys[|keys| - 1]] in g.m then g.m[owner[keys[|keys| - 1]]] else []) + [keys[|keys| - 1]])
  {
  }

  /** The package groups of the module owner map collected from `Modules()`. */
  lemma GroupAll()
    ensures Group(["A", "B", "C"], map["A" := "P1", "B" := "P1", "C" := "P2"]) ==
              Dict(["P1", "P2"], map["P1" := ["A", "B"], "P2" := ["C"]])
  {
    var owner := map["A" := "P1", "B" := "P1", "C" := "P2"];
    var g2 := Dict(["P1"], map["P1" := ["A", "B"]]);
    GroupP1(owner);
    assert ["A", "B", "C"][..2] == ["A", "B"];
    GroupStep(["A", "B", "C"], owner, g2);
    assert Put(g2, "P2", [] + ["C"]) == Dict(["P1", "P2"], map["P1" := ["A", "B"], "P2" := ["C"]]) by {
      assert [] + ["C"] == ["C"];
    }
  }

  /** The edge list of the graph collected from `Modules()`. */
  lemma EdgeListAll()
    ensures EdgeList([Module("A"), Module("B"), Module("C")],
                     map[Module("A") := ["B"], Module("B") := [], Module("C") := ["A"]]) ==
              [(Module("A"), "B"), (Module("C"), "A")]
  {
    var keys := [Module("A"), Module("B"), Module("C")];
    var nodes := map[Module("A") := ["B"], Module("B") := [], Module("C") := ["A"]];
    assert keys[1..] == [Module("B"), Module("C")] && keys[1..][1..] == [Module("C")] && keys[1..][1..][1..] == [];
    assert Pairs(Module("A"), ["B"]) == [(Module("A"), "B")] by { assert ["B"][1..] == []; }
    assert Pairs(Module("C"), ["A"]) == [(Module("C"), "A")] by { assert ["A"][1..] == []; }
    assert EdgeList([Module("C")], nodes) == [(Module("C"), "A")];
    assert EdgeList([Module("B"), Module("C")], nodes) == [(Module("C"), "A")];
  }

  /** Emitting a one-edge list. */
  lemma EmitOne(e: (NodeId, string), moduleOwner: map<string, PackageId>, recipeOwner: map<string, PackageId>,
                ignore: seq<PackageId>, skip: seq<PackageId>, l: seq<Line>)
    requires EdgeStep(e, moduleOwner, recipeOwner, ignore, skip) == Ok(l)
    ensures EmitEdges([e], moduleOwner, recipeOwner, ignore, skip) == Ok(l)
  {
    assert [e][1..] == [];
    assert l + [] == l;
  }

  /** Emitting a two-edge list. */
  lemma EmitTwo(e1: (NodeId, string), e2: (NodeId, string), moduleOwner: map<string, PackageId>,
                recipeOwner: map<string, PackageId>, ignore: seq<PackageId>, skip: seq<PackageId>,
                l1: seq<Line>, l2: seq<Line>)
    requires EdgeStep(e1, moduleOwner, recipeOwner, ignore, skip) == Ok(l1)
    requires EdgeStep(e2, moduleOwner, recipeOwner, ignore, skip) == Ok(l2)
    ensures EmitEdges([e1, e2], moduleOwner, recipeOwner, ignore, skip) == Ok(l1 + l2)
  {
    assert [e1, e2][1..] == [e2];
    EmitOne(e2, moduleOwner, recipeOwner, ignore, skip, l2);
  }

  /** The collected registry with no package skipped and no filter. */
  function Whole(): Collected {
    Collected(Dict([Module("A"), Module("B"), Module("C")],
                   map[Module("A") := ["B"], Module("B") := [], Module("C") := ["A"]]),
              Dict(["A", "B", "C"], map["A" := "P1", "B" := "P1", "C" := "P2"]),
              Empty())
  }

  /** Collecting with an ignore list whose object tests skip neither P1 nor P2. */
  lemma WholeCollect(skip: seq<PackageId>)
    requires "P1" !in skip && "P2" !in skip
    ensures Collect(Modules(), Recipes(), "P3", skip, "") == Whole()
  {
    CollectAll(skip);
  }

  lemma WholeEdges()
    ensures EmitEdges(EdgeList(Whole().nodes.keys, Whole().nodes.m), Whole().moduleOwner.m, map[], [], []) ==
              Ok([EdgeLine("A", "B"), EdgeLine("C", "A")])
  {
    assert [EdgeLine("A", "B")] + [EdgeLine("C", "A")] == [EdgeLine("A", "B"), EdgeLine("C", "A")];
    var owner := Whole().moduleOwner.m;
    EmitTwo((Module("A"), "B"), (Module("C"), "A"), owner, map[], [], [],
            [EdgeLine("A", "B")], [EdgeLine("C", "A")]);
    EdgeListAll();
  }

  lemma WholeClusters()
    ensures var g := Group(Whole().moduleOwner.keys, Whole().moduleOwner.m);
            ClusterLines(g.keys, g.m, []) == [ClusterLine("P1", ["A", "B"]), ClusterLine("P2", ["C"])]
  {
    GroupAll();
    var g := Dict(["P1", "P2"], map["P1" := ["A", "B"], "P2" := ["C"]]);
    assert g.keys[1..] == ["P2"] && g.keys[1..][1..] == [];
    assert ClusterLines(g.keys[1..], g.m, []) == [ClusterLine("P2", ["C"])];
  }

  /** The parts of the unfiltered rendering, joined. */
  lemma WholeLayout()
    ensures [Header] + [EdgeLine("A", "B"), EdgeLine("C", "A")]
              + [ClusterLine("P1", ["A", "B"]), ClusterLine("P2", ["C"])] + [] + [Footer] ==
            [Header, EdgeLine("A", "B"), EdgeLine("C", "A"),
             ClusterLine("P1", ["A", "B"]), ClusterLine("P2", ["C"]), Footer]
  {
  }

  lemma WholeRender()
    ensures Render(Whole(), [], [], "") ==
              Ok([Header, EdgeLine("A", "B"), EdgeLine("C", "A"),
                  ClusterLine("P1", ["A", "B"]), ClusterLine("P2", ["C"]), Footer])
  {
    WholeEdges();
    WholeClusters();
    WholeLayout();
    assert RecipeSection("", Whole().recipeOwner) == [];
  }

  /** No filter, nothing ignored: both edges and both package clusters, under
      either reading of the object tests. */
  lemma WholeGraph(test: ObjectTest)
    ensures Generate(Modules(), Recipes(), "P3", [], "", test) ==
              Ok([Header, EdgeLine("A", "B"), EdgeLine("C", "A"),
                  ClusterLine("P1", ["A", "B"]), ClusterLine("P2", ["C"]), Footer])
  {
    assert ObjectIgnored([], test) == [];
    WholeCollect([]);
    WholeRender();
  }

  /** The collected registry with package P2 skipped: C is never collected. */
  function WithoutP2(): Collected {
    Collected(Dict([Module("A"), Module("B")], map[Module("A") := ["B"], Module("B") := []]),
              Dict(["A", "B"], map["A" := "P1", "B" := "P1"]),
              Empty())
  }

  lemma WithoutP2Collect()
    ensures Collect(Modules(), Recipes(), "P3", ["P2"], "") == WithoutP2()
  {
    var mods := Modules();
    assert mods[..2] == [ModuleDecl("P1", "A", ["B"]), ModuleDecl("P1", "B", [])];
    CollectAB(["P2"]);
    CollectModulesStep(mods, ["P2"], WithoutP2().nodes, WithoutP2().moduleOwner);
    assert mods[|mods| - 1].package in ["P2"];
  }

  lemma WithoutP2Edges()
    ensures EmitEdges(EdgeList(WithoutP2().nodes.keys, WithoutP2().nodes.m), WithoutP2().moduleOwner.m,
                      map[], ["P2"], ["P2"]) ==
              Ok([EdgeLine("A", "B")])
  {
    var c := WithoutP2();
    var keys := c.nodes.keys;
    assert keys[1..] == [Module("B")] && keys[1..][1..] == [];
    assert Pairs(Module("A"), ["B"]) == [(Module("A"), "B")] by { assert ["B"][1..] == []; }
    assert EdgeList(keys[1..], c.nodes.m) == [];
    assert EdgeList(keys, c.nodes.m) == [(Module("A"), "B")];
    EmitOne((Module("A"), "B"), c.moduleOwner.m, map[], ["P2"], ["P2"], [EdgeLine("A", "B")]);
  }

  /** Grouping A and B, both of P1. */
  lemma GroupP1(owner: map<string, PackageId>)
    requires "A" in owner && "B" in owner && owner["A"] == "P1" && owner["B"] == "P1"
    ensures Group(["A", "B"], owner) == Dict(["P1"], map["P1" := ["A", "B"]])
  {
    var g1 := Dict(["P1"], map["P1" := ["A"]]);
    var g := Dict(["P1"], map["P1" := ["A", "B"]]);
    assert ["A"][..0] == [];
    GroupStep(["A"], owner, Empty());
    assert Put(Empty(), "P1", [] + ["A"]) == g1 by { assert [] + ["A"] == ["A"]; }
    assert ["A", "B"][..1] == ["A"];
    GroupStep(["A", "B"], owner, g1);
    assert Put(g1, "P1", ["A"] + ["B"]) == g by { assert ["A"] + ["B"] == ["A", "B"]; }
  }

  lemma WithoutP2Clusters()
    ensures var g := Group(WithoutP2().moduleOwner.keys, WithoutP2().moduleOwner.m);
            ClusterLines(g.keys, g.m, ["P2"]) == [ClusterLine("P1", ["A", "B"])]
  {
    GroupP1(map["A" := "P1", "B" := "P1"]);
    assert ["P1"][1..] == [];
  }

  lemma WithoutP2Render()
    ensures Render(WithoutP2(), ["P2"], ["P2"], "") ==
              Ok([Header, EdgeLine("A", "B"), ClusterLine("P1", ["A", "B"]), Footer])
  {
    assert [Header] + [EdgeLine("A", "B")] + [ClusterLine("P1", ["A", "B"])] + [] + [Footer] ==
           [Header, EdgeLine("A", "B"), ClusterLine("P1", ["A", "B"]), Footer];
    WithoutP2Edges();
    WithoutP2Clusters();
    assert RecipeSection("", WithoutP2().recipeOwner) == [];
  }

  /** The edges of the whole registry with P2's name ignored: C -> A is dropped
      by the name test of line 89. */
  lemma WholeEdgesIgnoringP2()
    ensures EmitEdges(EdgeList(Whole().nodes.keys, Whole().nodes.m), Whole().moduleOwner.m, map[], ["P2"], []) ==
              Ok([EdgeLine("A", "B")])
  {
    assert [EdgeLine("A", "B")] + [] == [EdgeLine("A", "B")];
    var owner := Whole().moduleOwner.m;
    EmitTwo((Module("A"), "B"), (Module("C"), "A"), owner, map[], ["P2"], [], [EdgeLine("A", "B")], []);
    EdgeListAll();
  }

  lemma WholeClustersIgnoringP2()
    ensures var g := Group(Whole().moduleOwner.keys, Whole().moduleOwner.m);
            ClusterLines(g.keys, g.m, ["P2"]) == [ClusterLine("P1", ["A", "B"])]
  {
    GroupAll();
    var g := Dict(["P1", "P2"], map["P1" := ["A", "B"], "P2" := ["C"]]);
    assert g.keys[1..] == ["P2"] && g.keys[1..][1..] == [];
    assert ClusterLines(g.keys[1..], g.m, ["P2"]) == [];
  }

  /** The whole registry rendered with P2's name ignored. */
  lemma WholeRenderIgnoringP2()
    ensures Render(Whole(), ["P2"], [], "") ==
              Ok([Header, EdgeLine("A", "B"), ClusterLine("P1", ["A", "B"]), Footer])
  {
    assert [Header] + [EdgeLine("A", "B")] + [ClusterLine("P1", ["A", "B"])] + [] + [Footer] ==
           [Header, EdgeLine("A", "B"), ClusterLine("P1", ["A", "B"]), Footer];
    WholeEdgesIgnoringP2();
    WholeClustersIgnoringP2();
    assert RecipeSection("", Whole().recipeOwner) == [];
  }

  /** Ignoring P2 drops C's edge and its cluster under either reading: by name,
      C is never collected; as written, C is collected and the name tests of
      lines 89 and 105 drop what it would draw. */
  lemma IgnoringPackage(test: ObjectTest)
    ensures Generate(Modules(), Recipes(), "P3", ["P2"], "", test) ==
              Ok([Header, EdgeLine("A", "B"), ClusterLine("P1", ["A", "B"]), Footer])
  {
    if test.AsWritten? {
      assert ObjectIgnored(["P2"], test) == [];
      WholeCollect([]);
      WholeRenderIgnoringP2();
    } else {
      assert ObjectIgnored(["P2"], test) == ["P2"];
      WithoutP2Collect();
      WithoutP2Render();
    }
  }

  /** As written, the test of line 31 does not skip the ignored package P2: its
      module C is still collected, exactly as if nothing were ignored. */
  lemma IgnoredPackageStillCollected()
    ensures Collect(Modules(), Recipes(), "P3", ObjectIgnored(["P2"], AsWritten), "") == Whole()
  {
    assert ObjectIgnored(["P2"], AsWritten) == [];
    WholeCollect([]);
  }

  /** Compared by name, P2 is skipped and C is not collected. */
  lemma IgnoredPackageSkippedByName()
    ensures Collect(Modules(), Recipes(), "P3", ObjectIgnored(["P2"], ByName), "") == WithoutP2()
  {
    assert ObjectIgnored(["P2"], ByName) == ["P2"];
    WithoutP2Collect();
  }

  /** The registry collected under the filter "R1": recipe R1 joins the node map. */
  function Filtered(): Collected {
    Collected(Dict([Module("A"), Module("B"), Module("C"), Recipe("R1")],
                   map[Module("A") := ["B"], Module("B") := [], Module("C") := ["A"], Recipe("R1") := ["A"]]),
              Dict(["A", "B", "C"], map["A" := "P1", "B" := "P1", "C" := "P2"]),
              Dict(["R1"], map["R1" := "P3"]))
  }

  lemma FilteredRecipes()
    ensures CollectRecipes(Whole().nodes, Recipes(), "P3", "R1") == (Filtered().nodes, Filtered().recipeOwner)
  {
    var nodes := Whole().nodes;
    var recs := Recipes();
    assert "R1" <= "R1";
    assert Contains("R1", "R1");
    assert recs[..0] == [];
    assert CollectRecipes(nodes, recs[..0], "P3", "R1") == (nodes, Empty());
    assert Put(nodes, Recipe("R1"), ["A"]) == Filtered().nodes;
    assert Put(Empty(), "R1", "P3") == Filtered().recipeOwner;
  }

  /** Collecting under "R1" with an ignore list whose object tests skip neither
      P1 nor P2. */
  lemma FilteredCollect(skip: seq<PackageId>)
    requires "P1" !in skip && "P2" !in skip
    ensures Collect(Modules(), Recipes(), "P3", skip, "R1") == Filtered()
  {
    CollectAll(skip);
    FilteredRecipes();
  }

  /** The walk from R1 keeps R1, A and B; C is not reached. */
  lemma FilteredWalk()
    ensures Reach(Filtered().nodes.m, RecipeNodes(Filtered().nodes.keys)) ==
              Ok({Recipe("R1"), Module("A"), Module("B")})
  {
    var g := Filtered().nodes.m;
    var keys := Filtered().nodes.keys;
    assert keys[1..][1..][1..] == [Recipe("R1")] && keys[1..][1..][1..][1..] == [];
    assert RecipeNodes(keys) == [Recipe("R1")];
    var all := {Recipe("R1"), Module("A"), Module("B")};
    assert DepNodes([]) == [];
    assert [Module("B")][..0] + [] == [];
    assert {Recipe("R1"), Module("A")} + {Module("B")} == all;
    assert Walk(g, [Module("B")], {Recipe("R1"), Module("A")}) == Ok(all);
    assert DepNodes(["B"]) == [Module("B")];
    assert [Module("A")][..0] + [Module("B")] == [Module("B")];
    assert {Recipe("R1")} + {Module("A")} == {Recipe("R1"), Module("A")};
    assert Walk(g, [Module("A")], {Recipe("R1")}) == Ok(all);
    assert DepNodes(["A"]) == [Module("A")];
    assert [Recipe("R1")][..0] + [Module("A")] == [Module("A")];
    assert {} + {Recipe("R1")} == {Recipe("R1")};
    assert Walk(g, [Recipe("R1")], {}) == Ok(all);
  }

  /** The pruned registry: C and its owner entry are gone. */
  function Pruned(): Collected {
    Collected(Dict([Module("A"), Module("B"), Recipe("R1")],
                   map[Module("A") := ["B"], Module("B") := [], Recipe("R1") := ["A"]]),
              Dict(["A", "B"], map["A" := "P1", "B" := "P1"]),
              Dict(["R1"], map["R1" := "P3"]))
  }

  lemma FilteredNodes()
    ensures Restrict(Filtered().nodes, {Recipe("R1"), Module("A"), Module("B")}) == Pruned().nodes
  {
    var keep := {Recipe("R1"), Module("A"), Module("B")};
    var m := Filtered().nodes.m;
    assert (map k | k in m && k in keep :: m[k]) == Pruned().nodes.m;
    var keys := Filtered().nodes.keys;
    assert keys[1..] == [Module("B"), Module("C"), Recipe("R1")];
    assert keys[1..][1..] == [Module("C"), Recipe("R1")];
    assert keys[1..][1..][1..] == [Recipe("R1")];
    assert keys[1..][1..][1..][1..] == [];
    assert Filter(keys[1..][1..][1..], keep) == [Recipe("R1")];
    assert Filter(keys[1..][1..], keep) == [Recipe("R1")];
    assert Filter(keys, keep) == Pruned().nodes.keys;
  }

  lemma FilteredOwners()
    ensures Restrict(Filtered().moduleOwner, {"A", "B"}) == Pruned().moduleOwner
    ensures Restrict(Filtered().recipeOwner, {"R1"}) == Pruned().recipeOwner
  {
    var keys := Filtered().moduleOwner.keys;
    assert keys[1..] == ["B", "C"] && keys[1..][1..] == ["C"] && keys[1..][1..][1..] == [];
    assert Filter(keys[1..][1..], {"A", "B"}) == [];
    assert Filter(keys, {"A", "B"}) == ["A", "B"];
    assert ["R1"][1..] == [];
    assert Filter(["R1"], {"R1"}) == ["R1"];
  }

  lemma PrunedNames()
    ensures ModuleNames(Pruned().nodes.m) == {"A", "B"}
    ensures RecipeNames(Pruned().nodes.m) == {"R1"}
  {
    assert Module("A") in Pruned().nodes.m && Module("B") in Pruned().nodes.m;
    assert Recipe("R1") in Pruned().nodes.m;
  }

  lemma FilteredPrune()
    ensures Prune(Filtered()) == Ok(Pruned())
  {
    FilteredWalk();
    FilteredNodes();
    FilteredOwners();
    PrunedNames();
  }

  lemma PrunedEdgeList()
    ensures EdgeList(Pruned().nodes.keys, Pruned().nodes.m) == [(Module("A"), "B"), (Recipe("R1"), "A")]
  {
    var c := Pruned();
    var keys := c.nodes.keys;
    assert keys[1..] == [Module("B"), Recipe("R1")] && keys[1..][1..] == [Recipe("R1")] && keys[1..][1..][1..] == [];
    assert Pairs(Module("A"), ["B"]) == [(Module("A"), "B")] by { assert ["B"][1..] == []; }
    assert Pairs(Recipe("R1"), ["A"]) == [(Recipe("R1"), "A")] by { assert ["A"][1..] == []; }
    assert EdgeList(keys[1..][1..], c.nodes.m) == [(Recipe("R1"), "A")];
    assert EdgeList(keys[1..], c.nodes.m) == [(Recipe("R1"), "A")];
  }

  /** The recipe edge R1 -> A is drawn unless the object test of line 92 finds
      the own package P3. */
  lemma PrunedEdges(ignore: seq<PackageId>, skip: seq<PackageId>)
    requires "P1" !in ignore
    ensures EmitEdges(EdgeList(Pruned().nodes.keys, Pruned().nodes.m), Pruned().moduleOwner.m,
                      Pruned().recipeOwner.m, ignore, skip) ==
              Ok([EdgeLine("A", "B")] + (if "P3" in skip then [] else [EdgeLine("recipe R1", "A")]))
  {
    var c := Pruned();
    var second := if "P3" in skip then [] else [EdgeLine("recipe R1", "A")];
    assert RecipePrefix + "R1" == "recipe R1";
    assert EdgeStep((Recipe("R1"), "A"), c.moduleOwner.m, c.recipeOwner.m, ignore, skip) == Ok(second);
    EmitTwo((Module("A"), "B"), (Recipe("R1"), "A"), c.moduleOwner.m, c.recipeOwner.m, ignore, skip,
            [EdgeLine("A", "B")], second);
    PrunedEdgeList();
  }

  lemma PrunedSections(ignore: seq<PackageId>)
    requires "P1" !in ignore
    ensures var g := Group(Pruned().moduleOwner.keys, Pruned().moduleOwner.m);
            ClusterLines(g.keys, g.m, ignore) == [ClusterLine("P1", ["A", "B"])]
    ensures RecipeSection("R1", Pruned().recipeOwner) == [RecipeClusterLine(["recipe R1"])]
  {
    GroupP1(map["A" := "P1", "B" := "P1"]);
    assert ["P1"][1..] == [];
    assert ["R1"][1..] == [];
    assert RecipePrefix + "R1" == "recipe R1";
    assert RecipeLabels(["R1"]) == ["recipe R1"];
  }

  /** The filtered rendering: the recipe edge is drawn unless P3 is skipped,
      and the recipe cluster is drawn regardless. */
  lemma PrunedRender(ignore: seq<PackageId>, skip: seq<PackageId>)
    requires "P1" !in ignore
    ensures Render(Pruned(), ignore, skip, "R1") ==
              Ok(if "P3" in skip then
                   [Header, EdgeLine("A", "B"), ClusterLine("P1", ["A", "B"]), RecipeClusterLine(["recipe R1"]), Footer]
                 else
                   [Header, EdgeLine("A", "B"), EdgeLine("recipe R1", "A"),
                    ClusterLine("P1", ["A", "B"]), RecipeClusterLine(["recipe R1"]), Footer])
  {
    assert [Header] + ([EdgeLine("A", "B")] + []) + [ClusterLine("P1", ["A", "B"])]
             + [RecipeClusterLine(["recipe R1"])] + [Footer] ==
           [Header, EdgeLine("A", "B"), ClusterLine("P1", ["A", "B"]), RecipeClusterLine(["recipe R1"]), Footer];
    assert [Header] + ([EdgeLine("A", "B")] + [EdgeLine("recipe R1", "A")]) + [ClusterLine("P1", ["A", "B"])]
             + [RecipeClusterLine(["recipe R1"])] + [Footer] ==
           [Header, EdgeLine("A", "B"), EdgeLine("recipe R1", "A"),
            ClusterLine("P1", ["A", "B"]), RecipeClusterLine(["recipe R1"]), Footer];
    PrunedEdges(ignore, skip);
    PrunedSections(ignore);
  }

  /** Filtering on R1 keeps R1 and what it reaches, A and B; C is pruned, and
      the recipe gets its own cluster. */
  lemma FilteringOnRecipe(test: ObjectTest)
    ensures Generate(Modules(), Recipes(), "P3", [], "R1", test) ==
              Ok([Header, EdgeLine("A", "B"), EdgeLine("recipe R1", "A"),
                  ClusterLine("P1", ["A", "B"]), RecipeClusterLine(["recipe R1"]), Footer])
  {
    assert ObjectIgnored([], test) == [];
    FilteredCollect([]);
    FilteredPrune();
    PrunedRender([], []);
  }

  /** As written, ignoring the own package P3 does not hide its recipe's edge:
      the test of line 92 compares the stored package object with names. */
  lemma IgnoredOwnRecipeStillDrawn()
    ensures Generate(Modules(), Recipes(), "P3", ["P3"], "R1", AsWritten) ==
              Ok([Header, EdgeLine("A", "B"), EdgeLine("recipe R1", "A"),
                  ClusterLine("P1", ["A", "B"]), RecipeClusterLine(["recipe R1"]), Footer])
  {
    assert ObjectIgnored(["P3"], AsWritten) == [];
    FilteredCollect([]);
    FilteredPrune();
    PrunedRender(["P3"], []);
  }

  /** Comparing by name, ignoring the own package P3 hides the recipe's edge;
      the recipe cluster of lines 112-116 is still drawn. */
  lemma IgnoredOwnRecipeHidden()
    ensures Generate(Modules(), Recipes(), "P3", ["P3"], "R1", ByName) ==
              Ok([Header, EdgeLine("A", "B"), ClusterLine("P1", ["A", "B"]), RecipeClusterLine(["recipe R1"]), Footer])
  {
    assert ObjectIgnored(["P3"], ByName) == ["P3"];
    FilteredCollect(["P3"]);
    FilteredPrune();
    PrunedRender(["P3"], ["P3"]);
  }

  /** A module of P1 that depends on a module of P2. */
  function CrossModules(): seq<ModuleDecl> {
    [ModuleDecl("P1", "A", ["C"]), ModuleDecl("P2", "C", [])]
  }

  /** With P2 skipped, only A is collected, still depending on C. */
  lemma CrossCollect()
    ensures CollectModules(CrossModules(), ["P2"]) ==
              (Dict([Module("A")], map[Module("A") := ["C"]]), Dict(["A"], map["A" := "P1"]))
  {
    var mods := CrossModules();
    var nodes := Dict([Module("A")], map[Module("A") := ["C"]]);
    var owner := Dict(["A"], map["A" := "P1"]);
    assert mods[..1][..0] == [];
    assert CollectModules(mods[..1][..0], ["P2"]) == (Empty(), Empty());
    assert Put(Empty(), Module("A"), ["C"]) == nodes;
    assert Put(Empty(), "A", "P1") == owner;
    assert "P1" !in ["P2"];
    assert CollectModules(mods[..1], ["P2"]) == (nodes, owner);
    assert mods[..1] == mods[..|mods| - 1];
    assert mods[|mods| - 1].package in ["P2"];
  }

  /** Comparing by name, an ignored package is skipped while collecting
      (line 31), so a dependency on one of its modules has no owner entry, and
      the target-owner lookup of line 96 aborts the run instead of skipping the
      edge. */
  lemma DependencyOnIgnoredPackageFaults()
    ensures Generate(CrossModules(), [], "P1", ["P2"], "", ByName) == Err(MissingOwner("C"))
  {
    var nodes := Dict([Module("A")], map[Module("A") := ["C"]]);
    var owner := Dict(["A"], map["A" := "P1"]);
    assert EdgeList(nodes.keys, nodes.m) == [(Module("A"), "C")];
    assert EdgeStep((Module("A"), "C"), owner.m, map[], ["P2"], ["P2"]) == Err(MissingOwner("C"));
    assert ObjectIgnored(["P2"], ByName) == ["P2"];
    CrossCollect();
    assert Collect(CrossModules(), [], "P1", ["P2"], "") == Collected(nodes, owner, Empty());
  }

  /** The registry of `CrossModules()` with neither package skipped. */
  function CrossWhole(): Collected {
    Collected(Dict([Module("A"), Module("C")], map[Module("A") := ["C"], Module("C") := []]),
              Dict(["A", "C"], map["A" := "P1", "C" := "P2"]),
              Empty())
  }

  lemma CrossCollectAll(skip: seq<PackageId>)
    requires "P1" !in skip && "P2" !in skip
    ensures Collect(CrossModules(), [], "P1", skip, "") == CrossWhole()
  {
    var mods := CrossModules();
    var n1 := Dict([Module("A")], map[Module("A") := ["C"]]);
    var o1 := Dict(["A"], map["A" := "P1"]);
    assert Put(n1, Module("C"), []) == CrossWhole().nodes;
    assert Put(o1, "C", "P2") == CrossWhole().moduleOwner;
    assert mods[..1] == [ModuleDecl("P1", "A", ["C"])];
    CollectAC(skip);
    CollectModulesStep(mods, skip, n1, o1);
  }

  /** Module A of P1, depending on C, collected with P1 not skipped. */
  lemma CollectAC(skip: seq<PackageId>)
    requires "P1" !in skip
    ensures CollectModules([ModuleDecl("P1", "A", ["C"])], skip) ==
              (Dict([Module("A")], map[Module("A") := ["C"]]), Dict(["A"], map["A" := "P1"]))
  {
    var mods := [ModuleDecl("P1", "A", ["C"])];
    assert mods[..0] == [];
    CollectModulesStep(mods, skip, Empty(), Empty());
    assert Put(Empty(), Module("A"), ["C"]) == Dict([Module("A")], map[Module("A") := ["C"]]);
    assert Put(Empty(), "A", "P1") == Dict(["A"], map["A" := "P1"]);
  }

  /** With P2's name ignored, the edge A -> C is dropped by the test of line 96. */
  lemma CrossEdgesIgnoringP2()
    ensures EmitEdges(EdgeList(CrossWhole().nodes.keys, CrossWhole().nodes.m), CrossWhole().moduleOwner.m,
                      map[], ["P2"], []) == Ok([])
  {
    var c := CrossWhole();
    var keys := c.nodes.keys;
    assert keys[1..] == [Module("C")] && keys[1..][1..] == [];
    assert Pairs(Module("A"), ["C"]) == [(Module("A"), "C")] by { assert ["C"][1..] == []; }
    assert EdgeList(keys[1..], c.nodes.m) == [];
    assert EdgeList(keys, c.nodes.m) == [(Module("A"), "C")];
    EmitOne((Module("A"), "C"), c.moduleOwner.m, map[], ["P2"], [], []);
  }

  lemma CrossClustersIgnoringP2()
    ensures var g := Group(CrossWhole().moduleOwner.keys, CrossWhole().moduleOwner.m);
            ClusterLines(g.keys, g.m, ["P2"]) == [ClusterLine("P1", ["A"])]
  {
    var owner := CrossWhole().moduleOwner.m;
    assert ["A", "C"][..1] == ["A"] && ["A"][..0] == [];
    GroupStep(["A"], owner, Empty());
    var g1 := Dict(["P1"], map["P1" := ["A"]]);
    assert Put(Empty(), "P1", [] + ["A"]) == g1 by { assert [] + ["A"] == ["A"]; }
    GroupStep(["A", "C"], owner, g1);
    var g := Dict(["P1", "P2"], map["P1" := ["A"], "P2" := ["C"]]);
    assert Put(g1, "P2", [] + ["C"]) == g by { assert [] + ["C"] == ["C"]; }
    assert g.keys[1..] == ["P2"] && g.keys[1..][1..] == [];
    assert ClusterLines(g.keys[1..], g.m, ["P2"]) == [];
  }

  /** As written, the same run collects C too; the edge A -> C is dropped by the
      name test of line 96 and only P1's cluster is drawn. */
  lemma DependencyOnIgnoredPackageSkipped()
    ensures Generate(CrossModules(), [], "P1", ["P2"], "", AsWritten) == Ok([Header, ClusterLine("P1", ["A"]), Footer])
  {
    assert [Header] + [] + [ClusterLine("P1", ["A"])] + [] + [Footer] == [Header, ClusterLine("P1", ["A"]), Footer];
    assert ObjectIgnored(["P2"], AsWritten) == [];
    CrossCollectAll([]);
    CrossEdgesIgnoringP2();
    CrossClustersIgnoringP2();
    assert RecipeSection("", CrossWhole().recipeOwner) == [];
  }

  /** The registry of `CrossModules()` with recipe R1 -> [A] of own package P1
      collected under the filter "R" with P2 skipped. */
  function CrossFiltered(): Collected {
    Collected(Dict([Module("A"), Recipe("R1")], map[Module("A") := ["C"], Recipe("R1") := ["A"]]),
              Dict(["A"], map["A" := "P1"]),
              Dict(["R1"], map["R1" := "P1"]))
  }

  lemma CrossFilteredCollect()
    ensures Collect(CrossModules(), [RecipeDecl("R1", ["A"])], "P1", ["P2"], "R") == CrossFiltered()
  {
    CrossCollect();
    var nodes := Dict([Module("A")], map[Module("A") := ["C"]]);
    var recs := [RecipeDecl("R1", ["A"])];
    assert "R" <= "R1";
    assert Contains("R1", "R");
    assert recs[..0] == [];
    assert CollectRecipes(nodes, recs[..0], "P1", "R") == (nodes, Empty());
    assert Put(nodes, Recipe("R1"), ["A"]) == CrossFiltered().nodes;
    assert Put(Empty(), "R1", "P1") == CrossFiltered().recipeOwner;
  }

  /** The walk from R1 keeps R1 and A, then pops C, which was never collected. */
  lemma CrossWalk()
    ensures Reach(CrossFiltered().nodes.m, RecipeNodes(CrossFiltered().nodes.keys)) == Err(MissingNode(Module("C")))
  {
    var g := CrossFiltered().nodes.m;
    var keys := CrossFiltered().nodes.keys;
    assert keys[1..] == [Recipe("R1")] && keys[1..][1..] == [];
    assert RecipeNodes(keys) == [Recipe("R1")];
    assert Walk(g, [Module("C")], {Recipe("R1"), Module("A")}) == Err(MissingNode(Module("C")));
    assert {Recipe("R1")} + {Module("A")} == {Recipe("R1"), Module("A")};
    assert DepNodes(["C"]) == [Module("C")];
    assert [Module("A")][..0] + [Module("C")] == [Module("C")];
    assert Walk(g, [Module("A")], {Recipe("R1")}) == Err(MissingNode(Module("C")));
    assert DepNodes(["A"]) == [Module("A")];
    assert [Recipe("R1")][..0] + [Module("A")] == [Module("A")];
    assert {} + {Recipe("R1")} == {Recipe("R1")};
    assert Walk(g, [Recipe("R1")], {}) == Err(MissingNode(Module("C")));
  }

  /** Comparing by name, with a filter the same dependency aborts already in
      the pruning walk (line 61). */
  lemma FilteredDependencyOnIgnoredPackageFaults()
    ensures Generate(CrossModules(), [RecipeDecl("R1", ["A"])], "P1", ["P2"], "R", ByName) ==
              Err(MissingNode(Module("C")))
  {
    assert ObjectIgnored(["P2"], ByName) == ["P2"];
    CrossFilteredCollect();
    CrossWalk();
    assert CrossFiltered().recipeOwner.keys != [];
    assert Prune(CrossFiltered()) == Err(MissingNode(Module("C")));
  }

  /** As written, the filtered run completes: every dependency in the registry
      names an enumerated module, and nothing is skipped while collecting. */
  lemma FilteredDependencyOnIgnoredPackageSucceeds()
    ensures Generate(CrossModules(), [RecipeDecl("R1", ["A"])], "P1", ["P2"], "R", AsWritten).Ok?
  {
    var mods := CrossModules();
    var recs := [RecipeDecl("R1", ["A"])];
    assert mods[1].name == "C" && mods[0].name == "A";
    assert DepsResolve(mods, recs);
    AsWrittenNeverFaults(mods, recs, "P1", ["P2"], "R");
  }
}
