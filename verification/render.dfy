/**
 Rendering (recipe_engine/depgraph.py, lines 14-21 and 79-118): the graph is
 emitted as a sequence of line records, a header first and a footer last;
 `Printing.Format` turns a record into the text the source prints. `ignore`
 is the list of package names that lines 89, 96 and 105 test against; `skip`
 holds the packages whose object the test of line 92 finds in that list (see
 `Graph.ObjectIgnored`).
 */
module Rendering {
  import opened Dicts
  import opened Graph

  datatype Line =
    | Header                                              // `_GRAPH_HEADER`
    | EdgeLine(from: string, to: string)                  // line 99
    | ClusterLine(package: PackageId, modules: seq<string>) // lines 109-110
    | RecipeClusterLine(recipes: seq<string>)             // lines 115-116
    | Footer                                              // `_GRAPH_FOOTER`

  /** Recipe labels carry this prefix so that they cannot be confused with a
      module of the same name in the output's flat label namespace. */
  const RecipePrefix := "recipe "

  function Label(n: NodeId): string {
    match n
    case Module(name) => name
    case Recipe(name) => RecipePrefix + name
  }

  // ---------------------------------------------------------------- edges

  /** One `(src, dep)` pair per dependency of `src`. */
  function Pairs(src: NodeId, deps: seq<string>): (r: seq<(NodeId, string)>)
    ensures forall e :: e in r <==> e.0 == src && e.1 in deps
    ensures |r| == |deps| && forall i :: 0 <= i < |deps| ==> r[i] == (src, deps[i])
  {
    if deps == [] then [] else [(src, deps[0])] + Pairs(src, deps[1..])
  }

  /** Lines 80-83: the flat list of edges, one per dependency of every node. */
  function EdgeList(keys: seq<NodeId>, nodes: map<NodeId, seq<string>>): (r: seq<(NodeId, string)>)
    requires forall k :: k in keys ==> k in nodes
    ensures forall e :: e in r <==> e.0 in keys && e.1 in nodes[e.0]
  {
    if keys == [] then [] else Pairs(keys[0], nodes[keys[0]]) + EdgeList(keys[1..], nodes)
  }

  /** `Pairs` holds each dependency as often as the list does. */
  lemma {:induction false} PairsCount(src: NodeId, deps: seq<string>)
    ensures forall e :: multiset(Pairs(src, deps))[e] == if e.0 == src then multiset(deps)[e.1] else 0
  {
    if deps != [] {
      PairsCount(src, deps[1..]);
      assert deps == [deps[0]] + deps[1..];
      assert multiset(deps) == multiset{deps[0]} + multiset(deps[1..]);
      assert multiset(Pairs(src, deps)) == multiset{(src, deps[0])} + multiset(Pairs(src, deps[1..]));
    }
  }

  /** Over the keys of a dictionary, the edge list holds each `(node, dep)` pair
      exactly as often as `dep` occurs in the node's dependency list: a repeated
      dependency gives a repeated edge. */
  lemma {:induction false} EdgeListCount(keys: seq<NodeId>, nodes: map<NodeId, seq<string>>)
    requires forall k :: k in keys ==> k in nodes
    requires Distinct(keys)
    ensures forall e :: multiset(EdgeList(keys, nodes))[e] ==
              if e.0 in keys then multiset(nodes[e.0])[e.1] else 0
  {
    if keys != [] {
      var k := keys[0];
      assert Distinct(keys[1..]);
      assert k !in keys[1..];
      EdgeListCount(keys[1..], nodes);
      PairsCount(k, nodes[k]);
      assert multiset(EdgeList(keys, nodes)) == multiset(Pairs(k, nodes[k])) + multiset(EdgeList(keys[1..], nodes));
      assert forall x :: x in keys <==> x == k || x in keys[1..];
    }
  }

  /** The owner of the source of an edge is known and not ignored: a module's
      owner name is not in `ignore` (line 89), a recipe's owner object is not
      found by the test of line 92. */
  ghost predicate SourceShown(src: NodeId, moduleOwner: map<string, PackageId>,
                              recipeOwner: map<string, PackageId>, ignore: seq<PackageId>, skip: seq<PackageId>) {
    match src
    case Module(n) => n in moduleOwner && moduleOwner[n] !in ignore
    case Recipe(n) => n in recipeOwner && recipeOwner[n] !in skip
  }

  /** The owner of the source of an edge is missing from its ownership map. */
  ghost predicate SourceUnknown(src: NodeId, moduleOwner: map<string, PackageId>,
                                recipeOwner: map<string, PackageId>) {
    match src
    case Module(n) => n !in moduleOwner
    case Recipe(n) => n !in recipeOwner
  }

  /** Lines 86-99 for one edge: a line when neither end is ignored, nothing
      when one is, a fault when an owner lookup fails. The target's owner is
      looked up only when the source was not skipped. */
  function EdgeStep(e: (NodeId, string), moduleOwner: map<string, PackageId>,
                    recipeOwner: map<string, PackageId>, ignore: seq<PackageId>, skip: seq<PackageId>): (r: Result<seq<Line>>)
    ensures r == Ok([EdgeLine(Label(e.0), e.1)]) <==>
              SourceShown(e.0, moduleOwner, recipeOwner, ignore, skip) && e.1 in moduleOwner && moduleOwner[e.1] !in ignore
    ensures r.Err? <==> LookupFails(e.0, e.1, moduleOwner, recipeOwner, ignore, skip)
    ensures r.Ok? ==> r.value == [] || r.value == [EdgeLine(Label(e.0), e.1)]
  {
    var (src, dep) := e;
    var skipSource :-
      match src
      case Module(n) =>
        if n !in moduleOwner then Err(MissingOwner(n)) else Ok(moduleOwner[n] in ignore)
      case Recipe(n) =>
        if n !in recipeOwner then Err(MissingRecipeOwner(n)) else Ok(recipeOwner[n] in skip);
    if skipSource then Ok([])
    else if dep !in moduleOwner then Err(MissingOwner(dep))
    else if moduleOwner[dep] in ignore then Ok([])
    else Ok([EdgeLine(Label(src), dep)])
  }

  /** Lines 85-99 over the whole edge list; the first failing lookup aborts. */
  function EmitEdges(edges: seq<(NodeId, string)>, moduleOwner: map<string, PackageId>,
                     recipeOwner: map<string, PackageId>, ignore: seq<PackageId>, skip: seq<PackageId>): (r: Result<seq<Line>>)
    ensures r.Err? <==> exists e :: e in edges && EdgeStep(e, moduleOwner, recipeOwner, ignore, skip).Err?
    ensures r.Ok? ==> forall l :: l in r.value ==> l.EdgeLine?
    ensures r.Ok? ==> forall l :: l in r.value <==>
              exists e :: e in edges && EdgeStep(e, moduleOwner, recipeOwner, ignore, skip) == Ok([l])
  {
    if edges == [] then Ok([])
    else
      var first :- EdgeStep(edges[0], moduleOwner, recipeOwner, ignore, skip);
      var rest :- EmitEdges(edges[1..], moduleOwner, recipeOwner, ignore, skip);
      Ok(first + rest)
  }

  // ---------------------------------------------------------------- clusters

  /** Lines 101-103: group module names by owning package, packages in order of
      first appearance, modules in the order they are listed. */
  function Group(keys: seq<string>, owner: map<string, PackageId>): (r: Dict<PackageId, seq<string>>)
    requires forall k :: k in keys ==> k in owner
    ensures r.Valid()
    ensures forall p :: p in r.m ==> |r.m[p]| > 0
  {
    if keys == [] then Empty()
    else
      var g := Group(keys[..|keys| - 1], owner);
      var k := keys[|keys| - 1];
      var p := owner[k];
      Put(g, p, (if p in g.m then g.m[p] else []) + [k])
  }

  /** A package has a group exactly when it owns some listed module. */
  lemma {:induction false} GroupKeys(keys: seq<string>, owner: map<string, PackageId>)
    requires forall k :: k in keys ==> k in owner
    ensures forall p :: p in Group(keys, owner).m <==> exists k :: k in keys && owner[k] == p
  {
    if keys != [] {
      var init := keys[..|keys| - 1];
      var k := keys[|keys| - 1];
      assert forall x :: x in keys <==> x in init || x == k;
      GroupKeys(init, owner);
    }
  }

  /** A package's group lists exactly the listed modules it owns, each once. */
  lemma {:induction false} GroupContents(keys: seq<string>, owner: map<string, PackageId>, p: PackageId)
    requires forall k :: k in keys ==> k in owner
    requires Distinct(keys)
    requires p in Group(keys, owner).m
    ensures forall x :: x in Group(keys, owner).m[p] <==> x in keys && owner[x] == p
    ensures Distinct(Group(keys, owner).m[p])
  {
    var init := keys[..|keys| - 1];
    var k := keys[|keys| - 1];
    var g := Group(init, owner);
    assert forall x :: x in keys <==> x in init || x == k;
    assert k !in init;
    GroupKeys(init, owner);
    if p in g.m {
      GroupContents(init, owner, p);
    }
    if owner[k] == p {
      var old_ := if p in g.m then g.m[p] else [];
      assert Group(keys, owner).m[p] == old_ + [k];
      assert k !in old_;
    }
  }

  /** No two cluster lines name the same package. */
  ghost predicate DistinctClusters(ls: seq<Line>) {
    forall i, j :: 0 <= i < j < |ls| && ls[i].ClusterLine? && ls[j].ClusterLine? ==> ls[i].package != ls[j].package
  }

  /** Lines 104-110: one cluster per package outside the ignore list. */
  function ClusterLines(pkgs: seq<PackageId>, groups: map<PackageId, seq<string>>,
                        ignore: seq<PackageId>): (r: seq<Line>)
    requires forall p :: p in pkgs ==> p in groups
    ensures forall l :: l in r <==>
              exists p :: p in pkgs && p !in ignore && l == ClusterLine(p, groups[p])
    ensures Distinct(pkgs) ==> DistinctClusters(r)
  {
    if pkgs == [] then []
    else
      assert Distinct(pkgs) ==> Distinct(pkgs[1..]) && pkgs[0] !in pkgs[1..];
      var rest := ClusterLines(pkgs[1..], groups, ignore);
      if pkgs[0] in ignore then rest
      else
        assert forall l :: l in rest ==> l.package in pkgs[1..];
        [ClusterLine(pkgs[0], groups[pkgs[0]])] + rest
  }

  // ---------------------------------------------------------------- recipes

  function RecipeLabels(names: seq<string>): (r: seq<string>)
    ensures forall x :: x in r <==> exists n :: n in names && x == RecipePrefix + n
  {
    if names == [] then [] else [RecipePrefix + names[0]] + RecipeLabels(names[1..])
  }

  /** Lines 112-116: the recipe cluster, only with a filter and a surviving recipe. */
  function RecipeSection(filter: string, recipeOwner: Dict<string, PackageId>): (r: seq<Line>)
    ensures |r| <= 1
    ensures r != [] ==> filter != "" && recipeOwner.keys != []
    ensures recipeOwner.Valid() && filter != "" && recipeOwner.m != map[] ==> r != []
    ensures forall l :: l in r ==>
              && l.RecipeClusterLine?
              && (forall x :: x in l.recipes <==> exists n :: n in recipeOwner.keys && x == RecipePrefix + n)
  {
    if filter != "" && recipeOwner.keys != [] then [RecipeClusterLine(RecipeLabels(recipeOwner.keys))] else []
  }

  // ---------------------------------------------------------------- the graph

  /** Lines 79-118: header, edges, package clusters, the recipe cluster, footer. */
  function Render(c: Collected, ignore: seq<PackageId>, skip: seq<PackageId>, filter: string): (r: Result<seq<Line>>)
    requires c.Valid()
    ensures r.Ok? ==> |r.value| >= 2 && r.value[0] == Header && r.value[|r.value| - 1] == Footer
  {
    var edges :- EmitEdges(EdgeList(c.nodes.keys, c.nodes.m), c.moduleOwner.m, c.recipeOwner.m, ignore, skip);
    var groups := Group(c.moduleOwner.keys, c.moduleOwner.m);
    Ok([Header] + edges + ClusterLines(groups.keys, groups.m, ignore) + RecipeSection(filter, c.recipeOwner) + [Footer])
  }

  /** The owner lookups for edge `(k, d)` fail: its source has no owner entry,
      or its source is drawn and its target has none. */
  ghost predicate LookupFails(k: NodeId, d: string, moduleOwner: map<string, PackageId>,
                              recipeOwner: map<string, PackageId>, ignore: seq<PackageId>, skip: seq<PackageId>) {
    || SourceUnknown(k, moduleOwner, recipeOwner)
    || (SourceShown(k, moduleOwner, recipeOwner, ignore, skip) && d !in moduleOwner)
  }

  /** Rendering fails exactly when the owner lookups of some edge fail. */
  lemma RenderFaults(c: Collected, ignore: seq<PackageId>, skip: seq<PackageId>, filter: string)
    requires c.Valid()
    ensures Render(c, ignore, skip, filter).Err? <==>
              exists k, d :: k in c.nodes.m && d in c.nodes.m[k] &&
                LookupFails(k, d, c.moduleOwner.m, c.recipeOwner.m, ignore, skip)
  {
    var edges := EdgeList(c.nodes.keys, c.nodes.m);
    if Render(c, ignore, skip, filter).Err? {
      assert EmitEdges(edges, c.moduleOwner.m, c.recipeOwner.m, ignore, skip).Err?;
      var e :| e in edges && EdgeStep(e, c.moduleOwner.m, c.recipeOwner.m, ignore, skip).Err?;
      assert e.0 in c.nodes.m && e.1 in c.nodes.m[e.0];
      assert LookupFails(e.0, e.1, c.moduleOwner.m, c.recipeOwner.m, ignore, skip);
    } else {
      forall k, d | k in c.nodes.m && d in c.nodes.m[k]
        ensures !LookupFails(k, d, c.moduleOwner.m, c.recipeOwner.m, ignore, skip)
      {
        assert (k, d) in edges;
        assert !EdgeStep((k, d), c.moduleOwner.m, c.recipeOwner.m, ignore, skip).Err?;
      }
    }
  }

  /** When every node has an owner entry and so does every dependency, rendering
      cannot fail. */
  lemma RenderSucceeds(c: Collected, ignore: seq<PackageId>, skip: seq<PackageId>, filter: string)
    requires c.Valid() && c.OwnersMatch() && c.DepsOwned()
    ensures Render(c, ignore, skip, filter).Ok?
  {
    RenderFaults(c, ignore, skip, filter);
    forall k, d | k in c.nodes.m && d in c.nodes.m[k]
      ensures !LookupFails(k, d, c.moduleOwner.m, c.recipeOwner.m, ignore, skip)
    {
      match k
      case Module(n) => assert Module(n) in c.nodes.m;
      case Recipe(n) => assert Recipe(n) in c.nodes.m;
    }
  }

  /** Every edge whose source and target are owned by packages outside the
      ignore list is drawn, a recipe source under its prefixed label. */
  lemma RenderDrawsShownEdges(c: Collected, ignore: seq<PackageId>, skip: seq<PackageId>, filter: string)
    requires c.Valid()
    requires Render(c, ignore, skip, filter).Ok?
    ensures forall k, d ::
              && k in c.nodes.m && d in c.nodes.m[k]
              && SourceShown(k, c.moduleOwner.m, c.recipeOwner.m, ignore, skip)
              && d in c.moduleOwner.m && c.moduleOwner.m[d] !in ignore
              ==> EdgeLine(Label(k), d) in Render(c, ignore, skip, filter).value
  {
    var edges := EdgeList(c.nodes.keys, c.nodes.m);
    var drawn := EmitEdges(edges, c.moduleOwner.m, c.recipeOwner.m, ignore, skip).value;
    assert forall l :: l in drawn ==> l in Render(c, ignore, skip, filter).value;
    forall k, d |
      && k in c.nodes.m && d in c.nodes.m[k]
      && SourceShown(k, c.moduleOwner.m, c.recipeOwner.m, ignore, skip)
      && d in c.moduleOwner.m && c.moduleOwner.m[d] !in ignore
      ensures EdgeLine(Label(k), d) in drawn
    {
      assert (k, d) in edges;
    }
  }

  /** Every drawn edge is such an edge: no drawn edge touches an ignored package. */
  lemma RenderEdgesAreShown(c: Collected, ignore: seq<PackageId>, skip: seq<PackageId>, filter: string)
    requires c.Valid()
    requires Render(c, ignore, skip, filter).Ok?
    ensures forall a, b :: EdgeLine(a, b) in Render(c, ignore, skip, filter).value ==>
              exists k :: k in c.nodes.m && b in c.nodes.m[k] && a == Label(k)
                && SourceShown(k, c.moduleOwner.m, c.recipeOwner.m, ignore, skip)
                && b in c.moduleOwner.m && c.moduleOwner.m[b] !in ignore
  {
    var edges := EdgeList(c.nodes.keys, c.nodes.m);
    var drawn := EmitEdges(edges, c.moduleOwner.m, c.recipeOwner.m, ignore, skip).value;
    var groups := Group(c.moduleOwner.keys, c.moduleOwner.m);
    var clusters := ClusterLines(groups.keys, groups.m, ignore);
    var recipes := RecipeSection(filter, c.recipeOwner);
    assert Render(c, ignore, skip, filter).value == [Header] + drawn + clusters + recipes + [Footer];
    forall a, b | EdgeLine(a, b) in Render(c, ignore, skip, filter).value
      ensures exists k :: k in c.nodes.m && b in c.nodes.m[k] && a == Label(k)
                && SourceShown(k, c.moduleOwner.m, c.recipeOwner.m, ignore, skip)
                && b in c.moduleOwner.m && c.moduleOwner.m[b] !in ignore
    {
      assert EdgeLine(a, b) !in clusters;
      assert EdgeLine(a, b) in drawn;
      var e :| e in edges && EdgeStep(e, c.moduleOwner.m, c.recipeOwner.m, ignore, skip) == Ok([EdgeLine(a, b)]);
      assert e.0 in c.nodes.m && e.1 in c.nodes.m[e.0];
    }
  }

  /** When only the middle part of a sequence of lines has cluster lines, the
      cluster lines of the whole are those of the middle part. */
  lemma ClustersMiddle(a: seq<Line>, b: seq<Line>, c: seq<Line>)
    requires forall l :: l in a ==> !l.ClusterLine?
    requires forall l :: l in c ==> !l.ClusterLine?
    ensures forall l :: l in a + b + c && l.ClusterLine? <==> l in b && l.ClusterLine?
    ensures DistinctClusters(b) ==> DistinctClusters(a + b + c)
  {
    var s := a + b + c;
    if DistinctClusters(b) {
      forall i, j | 0 <= i < j < |s| && s[i].ClusterLine? && s[j].ClusterLine?
        ensures s[i].package != s[j].package
      {
        assert s[i] in s && s[j] in s;
        assert s[i] == b[i - |a|] && s[j] == b[j - |a|];
      }
    }
  }

  /** The cluster lines of a rendered graph are exactly those `ClusterLines`
      produces from the package groups, and no two name the same package. */
  lemma RenderClusterLines(c: Collected, ignore: seq<PackageId>, skip: seq<PackageId>, filter: string)
    requires c.Valid()
    requires Render(c, ignore, skip, filter).Ok?
    ensures var groups := Group(c.moduleOwner.keys, c.moduleOwner.m);
            forall l :: l in Render(c, ignore, skip, filter).value && l.ClusterLine? <==>
              l in ClusterLines(groups.keys, groups.m, ignore)
    ensures DistinctClusters(Render(c, ignore, skip, filter).value)
  {
    var out := Render(c, ignore, skip, filter).value;
    var drawn := EmitEdges(EdgeList(c.nodes.keys, c.nodes.m), c.moduleOwner.m, c.recipeOwner.m, ignore, skip).value;
    var groups := Group(c.moduleOwner.keys, c.moduleOwner.m);
    var clusters := ClusterLines(groups.keys, groups.m, ignore);
    var recipes := RecipeSection(filter, c.recipeOwner);
    assert out == ([Header] + drawn) + clusters + (recipes + [Footer]);
    ClustersMiddle([Header] + drawn, clusters, recipes + [Footer]);
  }

  /** Lines 101-110: each package outside the ignore list that owns a module
      gets exactly one cluster, which lists exactly the modules it owns, each
      once, whether or not they have dependencies; ignored packages and
      packages without modules get none. */
  lemma RenderClusters(c: Collected, ignore: seq<PackageId>, skip: seq<PackageId>, filter: string)
    requires c.Valid()
    requires Render(c, ignore, skip, filter).Ok?
    ensures forall l :: l in Render(c, ignore, skip, filter).value && l.ClusterLine? ==>
              && l.package !in ignore
              && |l.modules| > 0
              && (forall x :: x in l.modules <==> x in c.moduleOwner.m && c.moduleOwner.m[x] == l.package)
              && Distinct(l.modules)
    ensures forall n :: n in c.moduleOwner.m && c.moduleOwner.m[n] !in ignore ==>
              exists l :: l in Render(c, ignore, skip, filter).value && l.ClusterLine?
                && l.package == c.moduleOwner.m[n] && n in l.modules
    ensures DistinctClusters(Render(c, ignore, skip, filter).value)
  {
    var out := Render(c, ignore, skip, filter).value;
    var owner := c.moduleOwner;
    var groups := Group(owner.keys, owner.m);
    var clusters := ClusterLines(groups.keys, groups.m, ignore);
    RenderClusterLines(c, ignore, skip, filter);
    GroupKeys(owner.keys, owner.m);
    forall l | l in out && l.ClusterLine?
      ensures && l.package !in ignore && |l.modules| > 0
              && (forall x :: x in l.modules <==> x in owner.m && owner.m[x] == l.package)
              && Distinct(l.modules)
    {
      assert l in clusters;
      GroupContents(owner.keys, owner.m, l.package);
    }
    forall n | n in owner.m && owner.m[n] !in ignore
      ensures ClusterLine(owner.m[n], groups.m[owner.m[n]]) in out
    {
      assert owner.m[n] in groups.m;
      GroupContents(owner.keys, owner.m, owner.m[n]);
      assert ClusterLine(owner.m[n], groups.m[owner.m[n]]) in clusters;
    }
  }

  /** Lines 112-116: the recipe cluster is the line just before the footer when
      a filter is given and some recipe survived, and appears nowhere else;
      it lists every surviving recipe under its prefixed label. */
  lemma RenderRecipeCluster(c: Collected, ignore: seq<PackageId>, skip: seq<PackageId>, filter: string)
    requires c.Valid()
    requires Render(c, ignore, skip, filter).Ok?
    ensures (exists l :: l in Render(c, ignore, skip, filter).value && l.RecipeClusterLine?) <==>
              filter != "" && c.recipeOwner.m != map[]
    ensures forall l :: l in Render(c, ignore, skip, filter).value && l.RecipeClusterLine? ==>
              forall x :: x in l.recipes <==> exists n :: n in c.recipeOwner.m && x == RecipePrefix + n
    ensures filter != "" && c.recipeOwner.m != map[] ==>
              var out := Render(c, ignore, skip, filter).value;
              && |out| >= 3
              && out[|out| - 2].RecipeClusterLine?
              && (forall l :: l in out[..|out| - 2] ==> !l.RecipeClusterLine?)
  {
    var out := Render(c, ignore, skip, filter).value;
    var drawn := EmitEdges(EdgeList(c.nodes.keys, c.nodes.m), c.moduleOwner.m, c.recipeOwner.m, ignore, skip).value;
    var groups := Group(c.moduleOwner.keys, c.moduleOwner.m);
    var clusters := ClusterLines(groups.keys, groups.m, ignore);
    var recipes := RecipeSection(filter, c.recipeOwner);
    var body := [Header] + drawn + clusters;
    assert out == body + recipes + [Footer];
    assert forall l :: l in body ==> !l.RecipeClusterLine?;
    if c.recipeOwner.keys != [] {
      assert c.recipeOwner.keys[0] in c.recipeOwner.m;
    }
    if filter != "" && c.recipeOwner.m != map[] {
      assert out[..|out| - 2] == body;
      assert out[|out| - 2] in out;
    }
  }
}
