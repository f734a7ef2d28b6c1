/**
 The reachability walk of the pruning step (recipe_engine/depgraph.py, lines
 53-62): starting from the recipe nodes, follow dependency names as module
 nodes. The walk pops from the end of its work list, as `list.pop()` does,
 and skips an item it has already kept, so it terminates on cyclic
 dependencies too.
 */
module Closure {
  import opened Graph

  /** `s` is closed under dependencies: a dependency of a node of `s` that the
      map knows is again in `s`, as a module node. */
  ghost predicate Closed(g: map<NodeId, seq<string>>, s: set<NodeId>) {
    forall n, d :: n in s && n in g && d in g[n] ==> Module(d) in s
  }

  /** `x` lies in every dependency-closed set that contains the seeds. */
  ghost predicate Reaches(g: map<NodeId, seq<string>>, seeds: set<NodeId>, x: NodeId) {
    forall t :: seeds <= t && Closed(g, t) ==> x in t
  }

  /** `s` is the least dependency-closed set containing the seeds. */
  ghost predicate LeastClosure(g: map<NodeId, seq<string>>, seeds: set<NodeId>, s: set<NodeId>) {
    && seeds <= s
    && Closed(g, s)
    && forall x :: x in s ==> Reaches(g, seeds, x)
  }

  /** Every kept node that the map knows has each dependency either kept or
      still waiting in the work list. */
  ghost predicate Frontier(g: map<NodeId, seq<string>>, work: seq<NodeId>, kept: set<NodeId>) {
    forall n, d :: n in kept && n in g && d in g[n] ==> Module(d) in kept || Module(d) in work
  }

  /** The walk. An item popped from the work list that the map does not know is
      the `KeyError` of line 61. */
  function Walk(g: map<NodeId, seq<string>>, work: seq<NodeId>, kept: set<NodeId>): (r: Result<set<NodeId>>)
    requires kept <= g.Keys
    ensures r.Ok? ==> kept <= r.value <= g.Keys
    ensures r.Ok? ==> forall w :: w in work ==> w in r.value
    ensures r.Err? ==> r.fault.MissingNode? && r.fault.node !in g
    decreases |g.Keys - kept|, |work|
  {
    if work == [] then Ok(kept)
    else
      var itm := work[|work| - 1];
      var rest := work[..|work| - 1];
      if itm in kept then Walk(g, rest, kept)
      else if itm !in g then Err(MissingNode(itm))
      else
        assert g.Keys - (kept + {itm}) < g.Keys - kept;
        Walk(g, rest + DepNodes(g[itm]), kept + {itm})
  }

  /** A successful walk started from a frontier-respecting state ends closed. */
  lemma {:induction false} WalkClosed(g: map<NodeId, seq<string>>, work: seq<NodeId>, kept: set<NodeId>)
    requires kept <= g.Keys
    requires Frontier(g, work, kept)
    ensures Walk(g, work, kept).Ok? ==> Closed(g, Walk(g, work, kept).value)
    decreases |g.Keys - kept|, |work|
  {
    if work != [] {
      var itm := work[|work| - 1];
      var rest := work[..|work| - 1];
      assert work == rest + [itm];
      if itm in kept {
        assert Frontier(g, rest, kept);
        WalkClosed(g, rest, kept);
      } else if itm in g {
        var next := rest + DepNodes(g[itm]);
        assert g.Keys - (kept + {itm}) < g.Keys - kept;
        forall n, d | n in kept + {itm} && n in g && d in g[n]
          ensures Module(d) in kept + {itm} || Module(d) in next
        {
          if n == itm {
            var i :| 0 <= i < |g[itm]| && g[itm][i] == d;
            assert DepNodes(g[itm])[i] == Module(d);
          }
        }
        WalkClosed(g, next, kept + {itm});
      }
    }
  }

  /** Whatever the walk keeps, or fails on, lies inside every closed set that
      contains its starting state. */
  lemma {:induction false} WalkWithin(g: map<NodeId, seq<string>>, work: seq<NodeId>, kept: set<NodeId>,
                                      t: set<NodeId>)
    requires kept <= g.Keys
    requires Closed(g, t) && kept <= t
    requires forall w :: w in work ==> w in t
    ensures Walk(g, work, kept).Ok? ==> Walk(g, work, kept).value <= t
    ensures Walk(g, work, kept).Err? ==> Walk(g, work, kept).fault.node in t
    decreases |g.Keys - kept|, |work|
  {
    if work != [] {
      var itm := work[|work| - 1];
      var rest := work[..|work| - 1];
      assert itm in t;
      if itm in kept {
        WalkWithin(g, rest, kept, t);
      } else if itm in g {
        var next := rest + DepNodes(g[itm]);
        assert g.Keys - (kept + {itm}) < g.Keys - kept;
        forall w | w in next ensures w in t {
          if w !in rest {
            var i :| 0 <= i < |g[itm]| && DepNodes(g[itm])[i] == w;
            assert g[itm][i] in g[itm];
          }
        }
        WalkWithin(g, next, kept + {itm}, t);
      }
    }
  }

  /** The elements of a work list. */
  function ToSet(s: seq<NodeId>): set<NodeId> {
    set w | w in s
  }

  /** Lines 53-62 from the seeds with nothing kept yet. */
  function Reach(g: map<NodeId, seq<string>>, seeds: seq<NodeId>): (r: Result<set<NodeId>>)
    ensures r.Ok? ==> ToSet(seeds) <= r.value <= g.Keys
    ensures r.Err? ==> r.fault.MissingNode? && r.fault.node !in g
  {
    Walk(g, seeds, {})
  }

  /** The walk computes the least dependency-closed set containing the seeds;
      it fails exactly on a reachable node the map does not know. */
  lemma ReachIsLeastClosure(g: map<NodeId, seq<string>>, seeds: seq<NodeId>)
    ensures Reach(g, seeds).Ok? ==>
              && LeastClosure(g, ToSet(seeds), Reach(g, seeds).value)
              && Reach(g, seeds).value <= g.Keys
    ensures Reach(g, seeds).Err? ==>
              && Reach(g, seeds).fault.MissingNode?
              && Reaches(g, ToSet(seeds), Reach(g, seeds).fault.node)
              && Reach(g, seeds).fault.node !in g
  {
    var s0 := ToSet(seeds);
    WalkClosed(g, seeds, {});
    forall t | s0 <= t && Closed(g, t)
      ensures Reach(g, seeds).Ok? ==> Reach(g, seeds).value <= t
      ensures Reach(g, seeds).Err? ==> Reach(g, seeds).fault.node in t
    {
      WalkWithin(g, seeds, {}, t);
    }
  }

  /** The walk succeeds exactly when every reachable node is known to the map. */
  lemma ReachSucceedsIffKnown(g: map<NodeId, seq<string>>, seeds: seq<NodeId>)
    ensures Reach(g, seeds).Ok? <==>
              forall x :: Reaches(g, ToSet(seeds), x) ==> x in g
  {
    ReachIsLeastClosure(g, seeds);
    var s0 := ToSet(seeds);
    if Reach(g, seeds).Ok? {
      var s := Reach(g, seeds).value;
      forall x | Reaches(g, s0, x) ensures x in g {
        assert s0 <= s && Closed(g, s);
      }
    }
  }

  /** The least closure is unique: any two least closures agree. */
  lemma LeastClosureUnique(g: map<NodeId, seq<string>>, seeds: set<NodeId>, s1: set<NodeId>, s2: set<NodeId>)
    requires LeastClosure(g, seeds, s1) && LeastClosure(g, seeds, s2)
    ensures s1 == s2
  {
    forall x | x in s1 ensures x in s2 {
      assert Reaches(g, seeds, x);
    }
    forall x | x in s2 ensures x in s1 {
      assert Reaches(g, seeds, x);
    }
  }

  // ------------------------------------------------ the loop of lines 57-62 as written

  /** How a fuel-bounded run of the source loop ends: it halts with a result,
      or it is still going when the fuel runs out. */
  datatype Run = OutOfFuel | Halted(result: Result<set<NodeId>>)

  /** Lines 57-62 exactly as written: every popped item is added to `to_keep`,
      looked up, and all its dependencies are pushed again, with no check for
      items already kept. `fuel` bounds the number of pops. */
  function SourceWalk(g: map<NodeId, seq<string>>, work: seq<NodeId>, kept: set<NodeId>, fuel: nat): (r: Run)
    requires kept <= g.Keys
    ensures r.Halted? && r.result.Ok? ==> kept <= r.result.value <= g.Keys
    ensures r.Halted? && r.result.Ok? ==> forall w :: w in work ==> w in r.result.value
    ensures r.Halted? && r.result.Err? ==> r.result.fault.MissingNode? && r.result.fault.node !in g
    decreases fuel
  {
    if work == [] then Halted(Ok(kept))
    else if fuel == 0 then OutOfFuel
    else
      var itm := work[|work| - 1];
      var rest := work[..|work| - 1];
      if itm !in g then Halted(Err(MissingNode(itm)))
      else SourceWalk(g, rest + DepNodes(g[itm]), kept + {itm}, fuel - 1)
  }

  /** One pop of the source loop on a known item: the item is kept and its
      dependencies are pushed, whether or not it was kept before. */
  lemma SourceWalkStep(g: map<NodeId, seq<string>>, work: seq<NodeId>, kept: set<NodeId>, fuel: nat)
    requires kept <= g.Keys
    requires work != [] && fuel > 0 && work[|work| - 1] in g
    ensures SourceWalk(g, work, kept, fuel) ==
              SourceWalk(g, work[..|work| - 1] + DepNodes(g[work[|work| - 1]]), kept + {work[|work| - 1]}, fuel - 1)
  {
  }

  /** The registry of the cycle: recipe `R` depends on module `A`, which
      depends on itself. */
  function CycleGraph(): map<NodeId, seq<string>> {
    map[Recipe("R") := ["A"], Module("A") := ["A"]]
  }

  /** Once `A` is the only queued item, every pop of the source loop queues it
      again, so the run never halts. */
  lemma {:induction false} SelfLoopRuns(kept: set<NodeId>, fuel: nat)
    requires kept <= CycleGraph().Keys
    ensures SourceWalk(CycleGraph(), [Module("A")], kept, fuel) == OutOfFuel
    decreases fuel
  {
    if fuel > 0 {
      var g := CycleGraph();
      assert Module("A") in g && g[Module("A")] == ["A"];
      var work := [Module("A")];
      SourceWalkStep(g, work, kept, fuel);
      assert work[..0] + DepNodes(g[Module("A")]) == work by {
        assert DepNodes(["A"]) == [Module("A")];
      }
      SelfLoopRuns(kept + {Module("A")}, fuel - 1);
    }
  }

  /** A matched recipe that reaches a module depending on itself keeps the
      source loop going for ever: whatever the fuel, the run has not halted. */
  lemma SourceWalkCycles(fuel: nat)
    ensures SourceWalk(CycleGraph(), [Recipe("R")], {}, fuel) == OutOfFuel
  {
    if fuel > 0 {
      var g := CycleGraph();
      assert Recipe("R") in g && g[Recipe("R")] == ["A"];
      var next: seq<NodeId> := [Module("A")];
      assert [Recipe("R")][..0] + DepNodes(["A"]) == next by {
        assert DepNodes(["A"]) == next;
      }
      SourceWalkStep(g, [Recipe("R")], {}, fuel);
      SelfLoopRuns({} + {Recipe("R")}, fuel - 1);
    }
  }

  /** A halted run of the source loop started from a frontier-respecting state
      ends closed. */
  lemma {:induction false} SourceWalkClosed(g: map<NodeId, seq<string>>, work: seq<NodeId>, kept: set<NodeId>,
                                            fuel: nat)
    requires kept <= g.Keys
    requires Frontier(g, work, kept)
    ensures SourceWalk(g, work, kept, fuel).Halted? && SourceWalk(g, work, kept, fuel).result.Ok? ==>
              Closed(g, SourceWalk(g, work, kept, fuel).result.value)
    decreases fuel
  {
    if work != [] && fuel > 0 {
      var itm := work[|work| - 1];
      var rest := work[..|work| - 1];
      assert work == rest + [itm];
      if itm in g {
        var next := rest + DepNodes(g[itm]);
        forall n, d | n in kept + {itm} && n in g && d in g[n]
          ensures Module(d) in kept + {itm} || Module(d) in next
        {
          if n == itm {
            var i :| 0 <= i < |g[itm]| && g[itm][i] == d;
            assert DepNodes(g[itm])[i] == Module(d);
          }
        }
        SourceWalkClosed(g, next, kept + {itm}, fuel - 1);
      }
    }
  }

  /** Whatever a halted run of the source loop keeps, or fails on, lies inside
      every closed set that contains its starting state. */
  lemma {:induction false} SourceWalkWithin(g: map<NodeId, seq<string>>, work: seq<NodeId>, kept: set<NodeId>,
                                            fuel: nat, t: set<NodeId>)
    requires kept <= g.Keys
    requires Closed(g, t) && kept <= t
    requires forall w :: w in work ==> w in t
    ensures SourceWalk(g, work, kept, fuel).Halted? && SourceWalk(g, work, kept, fuel).result.Ok? ==>
              SourceWalk(g, work, kept, fuel).result.value <= t
    ensures SourceWalk(g, work, kept, fuel).Halted? && SourceWalk(g, work, kept, fuel).result.Err? ==>
              SourceWalk(g, work, kept, fuel).result.fault.node in t
    decreases fuel
  {
    if work != [] && fuel > 0 {
      var itm := work[|work| - 1];
      var rest := work[..|work| - 1];
      assert itm in t;
      if itm in g {
        var next := rest + DepNodes(g[itm]);
        forall w | w in next ensures w in t {
          if w !in rest {
            var i :| 0 <= i < |g[itm]| && DepNodes(g[itm])[i] == w;
            assert g[itm][i] in g[itm];
          }
        }
        SourceWalkWithin(g, next, kept + {itm}, fuel - 1, t);
      }
    }
  }

  /** Whenever the source loop halts, it agrees with `Reach`: it keeps the same
      set, or both fail, each on a reachable node the map does not know. */
  lemma SourceWalkAgrees(g: map<NodeId, seq<string>>, seeds: seq<NodeId>, fuel: nat)
    requires SourceWalk(g, seeds, {}, fuel).Halted?
    ensures SourceWalk(g, seeds, {}, fuel).result.Ok? ==> Reach(g, seeds) == SourceWalk(g, seeds, {}, fuel).result
    ensures SourceWalk(g, seeds, {}, fuel).result.Err? ==> Reach(g, seeds).Err?
    ensures SourceWalk(g, seeds, {}, fuel).result.Err? ==>
              Reaches(g, ToSet(seeds), SourceWalk(g, seeds, {}, fuel).result.fault.node)
  {
    var src := SourceWalk(g, seeds, {}, fuel).result;
    var s0 := ToSet(seeds);
    ReachIsLeastClosure(g, seeds);
    SourceWalkClosed(g, seeds, {}, fuel);
    forall t | s0 <= t && Closed(g, t)
      ensures src.Ok? ==> src.value <= t
      ensures src.Err? ==> src.fault.node in t
    {
      SourceWalkWithin(g, seeds, {}, fuel, t);
    }
    if src.Ok? && Reach(g, seeds).Ok? {
      assert LeastClosure(g, s0, src.value);
      LeastClosureUnique(g, s0, src.value, Reach(g, seeds).value);
    }
  }
}
