/** The alias, depth and size check on parsed YAML.

    A parsed document is an object graph that may share nodes and, through anchors,
    reach itself.  `Inspect` is the recursive check with its `seen` set; the theorem
    restates acceptance with paths only: no object lies on two paths, no path is too
    deep and not too many objects are reached. */
module YamlInspect {
  import opened Options

  type Id = nat

  datatype Value = Scalar | Ref(id: Id)

  /** The members of each object or array, in order; other ids have none. */
  type Heap = map<Id, seq<Value>>

  datatype Limits = Limits(maxDepth: nat, maxNodes: nat)

  datatype Error = DepthLimit | AliasForbidden | NodeLimit

  datatype Result = Passed(seen: set<Id>, nodes: nat) | Thrown(error: Error)

  function Members(h: Heap, id: Id): seq<Value> { if id in h then h[id] else [] }

  /** `inspectYamlValue`. */
  function Inspect(h: Heap, lim: Limits, v: Value, seen: set<Id>, nodes: nat, depth: nat): (r: Result)
    ensures r.Passed? ==> seen <= r.seen
    decreases h.Keys - seen, 0
  {
    if depth > lim.maxDepth then Thrown(DepthLimit)
    else if v.Scalar? then Passed(seen, nodes)
    else if v.id in seen then Thrown(AliasForbidden)
    else if nodes + 1 > lim.maxNodes then Thrown(NodeLimit)
    else if v.id !in h then Passed(seen + {v.id}, nodes + 1)
    else
      assert h.Keys - (seen + {v.id}) < h.Keys - seen;
      InspectAll(h, lim, h[v.id], seen + {v.id}, nodes + 1, depth + 1)
  }

  function InspectAll(h: Heap, lim: Limits, vs: seq<Value>, seen: set<Id>, nodes: nat, depth: nat): (r: Result)
    ensures r.Passed? ==> seen <= r.seen
    decreases h.Keys - seen, |vs| + 1
  {
    if vs == [] then Passed(seen, nodes)
    else
      match Inspect(h, lim, vs[0], seen, nodes, depth)
      case Thrown(e) => Thrown(e)
      case Passed(s, n) =>
        assert h.Keys - s <= h.Keys - seen;
        InspectAll(h, lim, vs[1..], s, n, depth)
  }

  // ---------------------------------------------------------------- paths

  /** The value at the end of a path: the first index picks a root, each further one a
      member of the object reached so far. */
  function At(h: Heap, roots: seq<Value>, path: seq<nat>): Option<Value>
    decreases |path|
  {
    if path == [] || path[0] >= |roots| then None
    else if |path| == 1 then Some(roots[path[0]])
    else if roots[path[0]].Scalar? then None
    else At(h, Members(h, roots[path[0]].id), path[1..])
  }

  ghost predicate Leads(h: Heap, roots: seq<Value>, path: seq<nat>, id: Id) { At(h, roots, path) == Some(Ref(id)) }

  ghost predicate Reaches(h: Heap, roots: seq<Value>, id: Id) { exists path :: Leads(h, roots, path, id) }

  /** Every object is reached by one path only. */
  ghost predicate OnePathEach(h: Heap, roots: seq<Value>) {
    forall p, q, id :: Leads(h, roots, p, id) && Leads(h, roots, q, id) ==> p == q
  }

  /** No path goes deeper than the limit, for roots that are at `depth` themselves. */
  ghost predicate Shallow(h: Heap, roots: seq<Value>, depth: nat, max: nat) {
    forall p :: At(h, roots, p).Some? ==> depth + |p| - 1 <= max
  }

  // ---------------------------------------------------------------- paths of a list

  lemma AtFirst(h: Heap, v: Value, rest: seq<Value>, q: seq<nat>)
    ensures At(h, [v] + rest, [0] + q) ==
      if q == [] then Some(v) else if v.Scalar? then None else At(h, Members(h, v.id), q)
  {
    assert ([0] + q)[1..] == q;
  }

  lemma AtLater(h: Heap, v: Value, rest: seq<Value>, i: nat, q: seq<nat>)
    ensures At(h, [v] + rest, [i + 1] + q) == At(h, rest, [i] + q)
  {
    var p, p' := [i + 1] + q, [i] + q;
    assert p[1..] == q && p'[1..] == q;
  }

  /** A path into `[v] + rest` is a path to `v`, below `v`, or into `rest`. */
  function Shift(p: seq<nat>): seq<nat>
    requires p != [] && p[0] > 0
  {
    [p[0] - 1] + p[1..]
  }

  lemma PathCases(h: Heap, v: Value, rest: seq<Value>, p: seq<nat>)
    ensures At(h, [v] + rest, p) ==
      if p == [] then None
      else if p[0] > 0 then At(h, rest, Shift(p))
      else if p == [0] then Some(v)
      else if v.Scalar? then None
      else At(h, Members(h, v.id), p[1..])
  {
    if p != [] {
      if p[0] > 0 {
        assert p == [p[0] - 1 + 1] + p[1..];
        AtLater(h, v, rest, p[0] - 1, p[1..]);
      } else {
        assert p == [0] + p[1..];
        AtFirst(h, v, rest, p[1..]);
      }
    }
  }

  function Below(h: Heap, v: Value): seq<Value> { if v.Scalar? then [] else Members(h, v.id) }

  lemma PathShape(h: Heap, roots: seq<Value>, p: seq<nat>)
    ensures roots == [] || p == [] ==> At(h, roots, p) == None
  {
  }

  /** Paths of the parts are paths of the whole. */
  lemma Lift(h: Heap, v: Value, rest: seq<Value>, q: seq<nat>, id: Id)
    ensures Leads(h, Below(h, v), q, id) ==> q != [] && Leads(h, [v] + rest, [0] + q, id)
    ensures Leads(h, rest, q, id) ==> q != [] && Leads(h, [v] + rest, [q[0] + 1] + q[1..], id)
    ensures v == Ref(id) ==> Leads(h, [v] + rest, [0], id)
  {
    AtFirst(h, v, rest, q);
    AtFirst(h, v, rest, []);
    assert [0] + [] == [0];
    if q != [] {
      AtLater(h, v, rest, q[0], q[1..]);
      assert [q[0]] + q[1..] == q;
    }
  }

  /** Which part of `[v] + rest` a path ends in. */
  lemma Where(h: Heap, v: Value, rest: seq<Value>, p: seq<nat>, id: Id)
    requires Leads(h, [v] + rest, p, id)
    ensures p != []
    ensures p[0] > 0 ==> Leads(h, rest, Shift(p), id) && Reaches(h, rest, id)
    ensures p[0] == 0 && p != [0] ==> Leads(h, Below(h, v), p[1..], id) && Reaches(h, Below(h, v), id)
    ensures p == [0] ==> v == Ref(id)
  {
    PathCases(h, v, rest, p);
    if p[0] > 0 { assert Leads(h, rest, Shift(p), id); }
    else if p != [0] { assert Leads(h, Below(h, v), p[1..], id); }
  }

  /** What is reached from `[v] + rest`. */
  lemma ReachesCases(h: Heap, v: Value, rest: seq<Value>, id: Id)
    ensures Reaches(h, [v] + rest, id) <==> v == Ref(id) || Reaches(h, Below(h, v), id) || Reaches(h, rest, id)
  {
    hide At;
    if Reaches(h, [v] + rest, id) {
      var p :| Leads(h, [v] + rest, p, id);
      Where(h, v, rest, p, id);
    }
    if v == Ref(id) {
      Lift(h, v, rest, [], id);
    }
    if Reaches(h, Below(h, v), id) {
      var q :| Leads(h, Below(h, v), q, id);
      Lift(h, v, rest, q, id);
    }
    if Reaches(h, rest, id) {
      var q :| Leads(h, rest, q, id);
      Lift(h, v, rest, q, id);
    }
  }

  // ---------------------------------------------------------------- one path each

  /** `v`, what is below it and what the rest reaches have no object in common. */
  ghost predicate Apart(h: Heap, v: Value, rest: seq<Value>) {
    && (forall id | Reaches(h, Below(h, v), id) :: v != Ref(id) && !Reaches(h, rest, id))
    && (v.Ref? ==> !Reaches(h, rest, v.id))
  }

  lemma LiftsDiffer(p: seq<nat>, q: seq<nat>)
    ensures q != [] ==> [0] + p != [q[0] + 1] + q[1..] && [0] != [q[0] + 1] + q[1..]
    ensures p != [] ==> [0] + p != [0]
  {
    if q != [] {
      assert ([0] + p)[0] != ([q[0] + 1] + q[1..])[0];
      assert [0][0] != ([q[0] + 1] + q[1..])[0];
    }
    assert |[0] + p| == 1 + |p|;
  }

  lemma LiftsInjective(p: seq<nat>, q: seq<nat>)
    ensures [0] + p == [0] + q ==> p == q
    ensures p != [] && q != [] && [p[0] + 1] + p[1..] == [q[0] + 1] + q[1..] ==> p == q
  {
    assert p == ([0] + p)[1..] && q == ([0] + q)[1..];
    if p != [] && q != [] {
      assert p[1..] == ([p[0] + 1] + p[1..])[1..] && q[1..] == ([q[0] + 1] + q[1..])[1..];
      assert p[0] + 1 == ([p[0] + 1] + p[1..])[0] && q[0] + 1 == ([q[0] + 1] + q[1..])[0];
      assert p == [p[0]] + p[1..] && q == [q[0]] + q[1..];
    }
  }

  lemma OnePathSplit(h: Heap, v: Value, rest: seq<Value>)
    requires OnePathEach(h, [v] + rest)
    ensures OnePathEach(h, Below(h, v)) && OnePathEach(h, rest) && Apart(h, v, rest)
  {
    hide At, Leads, Below;
    forall p, q, id | Leads(h, Below(h, v), p, id) && Leads(h, Below(h, v), q, id) ensures p == q {
      Lift(h, v, rest, p, id);
      Lift(h, v, rest, q, id);
      LiftsInjective(p, q);
    }
    forall p, q, id | Leads(h, rest, p, id) && Leads(h, rest, q, id) ensures p == q {
      Lift(h, v, rest, p, id);
      Lift(h, v, rest, q, id);
      LiftsInjective(p, q);
    }
    forall id | Reaches(h, Below(h, v), id) ensures v != Ref(id) && !Reaches(h, rest, id) {
      var p :| Leads(h, Below(h, v), p, id);
      Lift(h, v, rest, p, id);
      LiftsDiffer(p, []);
      forall q ensures !Leads(h, rest, q, id) {
        Lift(h, v, rest, q, id);
        LiftsDiffer(p, q);
      }
    }
    if v.Ref? {
      forall q ensures !Leads(h, rest, q, v.id) {
        Lift(h, v, rest, q, v.id);
        LiftsDiffer([], q);
      }
    }
  }

  lemma OnePathJoin(h: Heap, v: Value, rest: seq<Value>)
    requires OnePathEach(h, Below(h, v)) && OnePathEach(h, rest) && Apart(h, v, rest)
    ensures OnePathEach(h, [v] + rest)
  {
    hide At, Leads, Below, Reaches;
    forall p, q, id | Leads(h, [v] + rest, p, id) && Leads(h, [v] + rest, q, id) ensures p == q {
      Where(h, v, rest, p, id);
      Where(h, v, rest, q, id);
      assert p == [p[0]] + p[1..] && q == [q[0]] + q[1..];
      if p[0] > 0 {
        assert Shift(p) == Shift(q);
        assert Shift(p)[0] == p[0] - 1 && Shift(q)[0] == q[0] - 1;
        assert Shift(p)[1..] == p[1..] && Shift(q)[1..] == q[1..];
      }
    }
  }

  lemma ShallowCases(h: Heap, v: Value, rest: seq<Value>, depth: nat, max: nat)
    ensures Shallow(h, [v] + rest, depth, max) <==>
      depth <= max && Shallow(h, Below(h, v), depth + 1, max) && Shallow(h, rest, depth, max)
  {
    hide At;
    if Shallow(h, [v] + rest, depth, max) {
      PathCases(h, v, rest, [0]);
      assert At(h, [v] + rest, [0]).Some?;
      forall q | At(h, Below(h, v), q).Some? ensures depth + 1 + |q| - 1 <= max {
        PathCases(h, v, rest, [0] + q);
        PathShape(h, Below(h, v), q);
        assert ([0] + q)[1..] == q;
        assert At(h, [v] + rest, [0] + q).Some?;
      }
      forall q | At(h, rest, q).Some? ensures depth + |q| - 1 <= max {
        PathShape(h, rest, q);
        AtLater(h, v, rest, q[0], q[1..]);
        assert [q[0]] + q[1..] == q;
        assert At(h, [v] + rest, [q[0] + 1] + q[1..]).Some?;
      }
    }
    if depth <= max && Shallow(h, Below(h, v), depth + 1, max) && Shallow(h, rest, depth, max) {
      forall p | At(h, [v] + rest, p).Some? ensures depth + |p| - 1 <= max {
        PathCases(h, v, rest, p);
        if p[0] > 0 { assert At(h, rest, Shift(p)).Some?; }
        else if p != [0] { assert At(h, Below(h, v), p[1..]).Some?; }
      }
    }
  }

  // ---------------------------------------------------------------- the reachable set

  function Ids(vs: seq<Value>): set<Id> { set i | 0 <= i < |vs| && vs[i].Ref? :: vs[i].id }

  function Mentioned(h: Heap): set<Id> { set k, i | k in h && 0 <= i < |h[k]| && h[k][i].Ref? :: h[k][i].id }

  lemma {:induction false} LeadsToMentioned(h: Heap, roots: seq<Value>, path: seq<nat>, id: Id)
    requires Leads(h, roots, path, id)
    ensures id in Ids(roots) + Mentioned(h)
    decreases |path|
  {
    if |path| == 1 {
      assert roots[path[0]] == Ref(id);
    } else {
      var k := roots[path[0]].id;
      LeadsToMentioned(h, Members(h, k), path[1..], id);
      if id in Ids(Members(h, k)) {
        var i :| 0 <= i < |Members(h, k)| && Members(h, k)[i] == Ref(id);
        assert k in h && h[k][i] == Ref(id);
      }
    }
  }

  /** The objects reachable from the roots: finitely many. */
  ghost function Reachable(h: Heap, roots: seq<Value>): (r: set<Id>)
    ensures forall id :: id in r <==> Reaches(h, roots, id)
  {
    assert forall id | Reaches(h, roots, id) :: id in Ids(roots) + Mentioned(h) by {
      forall id | Reaches(h, roots, id) ensures id in Ids(roots) + Mentioned(h) {
        var p :| Leads(h, roots, p, id);
        LeadsToMentioned(h, roots, p, id);
      }
    }
    set id | id in Ids(roots) + Mentioned(h) && Reaches(h, roots, id)
  }

  function Own(v: Value): set<Id> { if v.Ref? then {v.id} else {} }

  lemma ReachableCases(h: Heap, v: Value, rest: seq<Value>)
    ensures Reachable(h, [v] + rest) == Own(v) + Reachable(h, Below(h, v)) + Reachable(h, rest)
  {
    hide Reaches, Below;
    forall id ensures id in Reachable(h, [v] + rest) <==> id in Own(v) + Reachable(h, Below(h, v)) + Reachable(h, rest) {
      ReachesCases(h, v, rest, id);
    }
  }

  lemma ReachableNone(h: Heap)
    ensures Reachable(h, []) == {}
  {
    forall id ensures !Reaches(h, [], id) {
      forall p ensures !Leads(h, [], p, id) { PathShape(h, [], p); }
    }
  }

  // ---------------------------------------------------------------- what acceptance means

  ghost predicate Within(reached: set<Id>, nodes: nat, max: nat) { reached == {} || nodes + |reached| <= max }

  /** The traversal may go on from a state that has met `seen` and counted `nodes`, with
      roots at `depth`. */
  ghost predicate Fine(h: Heap, lim: Limits, roots: seq<Value>, seen: set<Id>, nodes: nat, depth: nat) {
    && OnePathEach(h, roots)
    && Shallow(h, roots, depth, lim.maxDepth)
    && Reachable(h, roots) !! seen
    && Within(Reachable(h, roots), nodes, lim.maxNodes)
  }

  lemma SizeOfParts(a: set<Id>, b: set<Id>, c: set<Id>)
    requires a !! b && a !! c && b !! c
    ensures |a + b + c| == |a| + |b| + |c|
  {
  }

  lemma ApartSets(h: Heap, v: Value, rest: seq<Value>)
    ensures Apart(h, v, rest) <==>
      Own(v) !! Reachable(h, Below(h, v)) && Own(v) !! Reachable(h, rest) && Reachable(h, Below(h, v)) !! Reachable(h, rest)
  {
    hide Reaches, Below;
    if v.Ref? { assert v.id in Own(v) && v == Ref(v.id); }
    if Own(v) !! Reachable(h, Below(h, v)) && Own(v) !! Reachable(h, rest) && Reachable(h, Below(h, v)) !! Reachable(h, rest) {
      forall id | Reaches(h, Below(h, v), id) ensures v != Ref(id) && !Reaches(h, rest, id) {
        assert id in Reachable(h, Below(h, v));
      }
    }
  }

  lemma OnePathCases(h: Heap, v: Value, rest: seq<Value>)
    ensures OnePathEach(h, [v] + rest) <==> OnePathEach(h, Below(h, v)) && OnePathEach(h, rest) && Apart(h, v, rest)
  {
    hide *;
    if OnePathEach(h, [v] + rest) { OnePathSplit(h, v, rest); }
    if OnePathEach(h, Below(h, v)) && OnePathEach(h, rest) && Apart(h, v, rest) { OnePathJoin(h, v, rest); }
  }

  lemma DisjointCases(a: set<Id>, b: set<Id>, c: set<Id>, seen: set<Id>)
    ensures a !! b && a !! c && b !! c && (a + b + c) !! seen
      <==> a !! seen && a !! b && b !! (seen + a) && c !! (seen + a + b)
  {
  }

  lemma WithinCases(a: set<Id>, b: set<Id>, c: set<Id>, nodes: nat, max: nat)
    requires a !! b && a !! c && b !! c
    ensures Within(a + b + c, nodes, max)
      <==> Within(a, nodes, max) && Within(b, nodes + |a|, max) && Within(c, nodes + |a| + |b|, max)
  {
    SizeOfParts(a, b, c);
    assert a + b + c == {} <==> a == {} && b == {} && c == {};
  }

  lemma FineIs(h: Heap, lim: Limits, roots: seq<Value>, seen: set<Id>, nodes: nat, depth: nat)
    ensures Fine(h, lim, roots, seen, nodes, depth) <==>
      && OnePathEach(h, roots) && Shallow(h, roots, depth, lim.maxDepth)
      && Reachable(h, roots) !! seen && Within(Reachable(h, roots), nodes, lim.maxNodes)
  {
  }

  /** Acceptance of `[v] + rest`, part by part in the order of the traversal. */
  lemma FineCases(h: Heap, lim: Limits, v: Value, rest: seq<Value>, seen: set<Id>, nodes: nat, depth: nat)
    ensures var own := Own(v); var below := Reachable(h, Below(h, v));
      Fine(h, lim, [v] + rest, seen, nodes, depth) <==>
        && depth <= lim.maxDepth && own !! seen && Within(own, nodes, lim.maxNodes)
        && Fine(h, lim, Below(h, v), seen + own, nodes + |own|, depth + 1) && own !! below
        && Fine(h, lim, rest, seen + own + below, nodes + |own| + |below|, depth)
  {
    hide *;
    FineIs(h, lim, [v] + rest, seen, nodes, depth);
    FineIs(h, lim, Below(h, v), seen + Own(v), nodes + |Own(v)|, depth + 1);
    FineIs(h, lim, rest, seen + Own(v) + Reachable(h, Below(h, v)), nodes + |Own(v)| + |Reachable(h, Below(h, v))|, depth);
    var own, below, after := Own(v), Reachable(h, Below(h, v)), Reachable(h, rest);
    ReachableCases(h, v, rest);
    ShallowCases(h, v, rest, depth, lim.maxDepth);
    ApartSets(h, v, rest);
    OnePathCases(h, v, rest);
    DisjointCases(own, below, after, seen);
    if own !! below && own !! after && below !! after { WithinCases(own, below, after, nodes, lim.maxNodes); }
  }

  lemma FineNone(h: Heap, lim: Limits, seen: set<Id>, nodes: nat, depth: nat)
    ensures Fine(h, lim, [], seen, nodes, depth)
  {
    ReachableNone(h);
    forall p ensures At(h, [], p) == None { PathShape(h, [], p); }
  }

  // ---------------------------------------------------------------- the check is exact

  /** What a traversal that passes has met and counted. */
  ghost function After(h: Heap, roots: seq<Value>, seen: set<Id>, nodes: nat): Result {
    Passed(seen + Reachable(h, roots), nodes + |Reachable(h, roots)|)
  }

  lemma AfterIs(h: Heap, roots: seq<Value>, seen: set<Id>, nodes: nat)
    ensures After(h, roots, seen, nodes) == Passed(seen + Reachable(h, roots), nodes + |Reachable(h, roots)|)
  {
  }

  lemma AfterCases(h: Heap, v: Value, rest: seq<Value>, seen: set<Id>, nodes: nat)
    requires var b := Reachable(h, Below(h, v)); var c := Reachable(h, rest); Own(v) !! b && Own(v) !! c && b !! c
    ensures After(h, [v] + rest, seen, nodes) ==
      After(h, rest, seen + Own(v) + Reachable(h, Below(h, v)), nodes + |Own(v)| + |Reachable(h, Below(h, v))|)
  {
    hide *;
    AfterIs(h, [v] + rest, seen, nodes);
    AfterIs(h, rest, seen + Own(v) + Reachable(h, Below(h, v)), nodes + |Own(v)| + |Reachable(h, Below(h, v))|);
    var own, below, after := Own(v), Reachable(h, Below(h, v)), Reachable(h, rest);
    ReachableCases(h, v, rest);
    SizeOfParts(own, below, after);
    assert seen + (own + below + after) == seen + own + below + after;
  }

  /** One value: what is its own, then what is below it. */
  lemma InspectStep(h: Heap, lim: Limits, v: Value, seen: set<Id>, nodes: nat, depth: nat)
    ensures var r := Inspect(h, lim, v, seen, nodes, depth);
      if depth <= lim.maxDepth && Own(v) !! seen && Within(Own(v), nodes, lim.maxNodes)
      then r == InspectAll(h, lim, Below(h, v), seen + Own(v), nodes + |Own(v)|, depth + 1)
      else r.Thrown?
  {
    assert seen + {} == seen;
  }

  lemma InspectStops(h: Heap, lim: Limits, v: Value, seen: set<Id>, nodes: nat, depth: nat)
    requires !(depth <= lim.maxDepth && Own(v) !! seen && Within(Own(v), nodes, lim.maxNodes))
    ensures Inspect(h, lim, v, seen, nodes, depth) ==
      Thrown(if depth > lim.maxDepth then DepthLimit else if !(Own(v) !! seen) then AliasForbidden else NodeLimit)
  {
  }

  lemma AllStep(h: Heap, lim: Limits, vs: seq<Value>, seen: set<Id>, nodes: nat, depth: nat)
    ensures vs == [] ==> InspectAll(h, lim, vs, seen, nodes, depth) == Passed(seen, nodes)
    ensures vs != [] ==>
      var first := Inspect(h, lim, vs[0], seen, nodes, depth);
      InspectAll(h, lim, vs, seen, nodes, depth) ==
        if first.Thrown? then first else InspectAll(h, lim, vs[1..], first.seen, first.nodes, depth)
  {
  }

  lemma {:induction false} InspectAllExact(h: Heap, lim: Limits, vs: seq<Value>, seen: set<Id>, nodes: nat, depth: nat)
    ensures InspectAll(h, lim, vs, seen, nodes, depth).Passed? <==> Fine(h, lim, vs, seen, nodes, depth)
    ensures Fine(h, lim, vs, seen, nodes, depth) ==> InspectAll(h, lim, vs, seen, nodes, depth) == After(h, vs, seen, nodes)
    decreases h.Keys - seen, |vs|
  {
    hide *;
    if vs == [] {
      AllStep(h, lim, vs, seen, nodes, depth);
      FineNone(h, lim, seen, nodes, depth);
      ReachableNone(h);
      AfterIs(h, vs, seen, nodes);
      assert seen + {} == seen;
    } else {
      var v, rest := vs[0], vs[1..];
      assert vs == [v] + rest;
      var own, below := Own(v), Reachable(h, Below(h, v));
      FineCases(h, lim, v, rest, seen, nodes, depth);
      InspectStep(h, lim, v, seen, nodes, depth);
      AllStep(h, lim, vs, seen, nodes, depth);
      if depth <= lim.maxDepth && own !! seen && Within(own, nodes, lim.maxNodes) {
        BelowExact(h, lim, v, seen, nodes, depth);
        if Fine(h, lim, Below(h, v), seen + own, nodes + |own|, depth + 1) {
          assert h.Keys - (seen + own + below) <= h.Keys - seen;
          AfterIs(h, Below(h, v), seen + own, nodes + |own|);
          FineIs(h, lim, Below(h, v), seen + own, nodes + |own|, depth + 1);
          InspectAllExact(h, lim, rest, seen + own + below, nodes + |own| + |below|, depth);
          if Fine(h, lim, rest, seen + own + below, nodes + |own| + |below|, depth) {
            FineIs(h, lim, rest, seen + own + below, nodes + |own| + |below|, depth);
            AfterCases(h, v, rest, seen, nodes);
          }
        }
      }
    }
  }

  lemma {:induction false} BelowExact(h: Heap, lim: Limits, v: Value, seen: set<Id>, nodes: nat, depth: nat)
    requires Own(v) !! seen
    ensures var r := InspectAll(h, lim, Below(h, v), seen + Own(v), nodes + |Own(v)|, depth + 1);
      var fine := Fine(h, lim, Below(h, v), seen + Own(v), nodes + |Own(v)|, depth + 1);
      && (r.Passed? <==> fine)
      && (fine ==> r == After(h, Below(h, v), seen + Own(v), nodes + |Own(v)|))
    decreases h.Keys - seen, 0
  {
    hide Fine, Inspect, After, Reachable, Within;
    if v.Ref? && v.id in h {
      assert v.id in h.Keys - seen && v.id !in h.Keys - (seen + Own(v));
      assert h.Keys - (seen + Own(v)) < h.Keys - seen;
      InspectAllExact(h, lim, Below(h, v), seen + Own(v), nodes + |Own(v)|, depth + 1);
    } else {
      FineNone(h, lim, seen + Own(v), nodes + |Own(v)|, depth + 1);
      ReachableNone(h);
      AfterIs(h, Below(h, v), seen + Own(v), nodes + |Own(v)|);
      assert seen + Own(v) + {} == seen + Own(v);
    }
  }

  /** The check on a parsed document: it accepts exactly the graphs in which every object
      reached from the value is reached by one path only, no path has more than
      `maxDepth` steps and at most `maxNodes` objects are reached.  It then has met exactly
      the reachable objects and counted each once. */
  lemma InspectExact(h: Heap, lim: Limits, v: Value)
    ensures Inspect(h, lim, v, {}, 0, 0).Passed? <==>
      OnePathEach(h, [v]) && Shallow(h, [v], 0, lim.maxDepth) && |Reachable(h, [v])| <= lim.maxNodes
    ensures Inspect(h, lim, v, {}, 0, 0).Passed? ==>
      Inspect(h, lim, v, {}, 0, 0) == Passed(Reachable(h, [v]), |Reachable(h, [v])|)
  {
    hide Inspect, Reachable, OnePathEach, Shallow;
    InspectAllExact(h, lim, [v], {}, 0, 0);
    assert [v][1..] == [];
    assert {} + Reachable(h, [v]) == Reachable(h, [v]);
  }

  // ---------------------------------------------------------------- what each error means

  /** Why a traversal stopped: an object met before or on two paths, a path too deep, or
      too many objects not met before. */
  ghost predicate Explains(e: Error, h: Heap, lim: Limits, roots: seq<Value>, seen: set<Id>, nodes: nat, depth: nat) {
    match e
    case AliasForbidden => !OnePathEach(h, roots) || Reachable(h, roots) * seen != {}
    case DepthLimit => !Shallow(h, roots, depth, lim.maxDepth)
    case NodeLimit => nodes + |Reachable(h, roots) - seen| > lim.maxNodes
  }

  lemma MoreObjects(own: set<Id>, below: set<Id>, after: set<Id>, seen: set<Id>)
    ensures |own + below + after - seen| >= |own - seen|
    ensures own !! seen ==> |own + below + after - seen| >= |own| + |below - (seen + own)|
    ensures own !! seen && below !! (seen + own) ==>
      |own + below + after - seen| >= |own| + |below| + |after - (seen + own + below)|
  {
    Fewer(own - seen, own + below + after - seen);
    if own !! seen {
      MoreBelow(own, below, after, seen);
      if below !! (seen + own) { MoreAfter(own, below, after, seen); }
    }
  }

  lemma MoreBelow(own: set<Id>, below: set<Id>, after: set<Id>, seen: set<Id>)
    requires own !! seen
    ensures |own + below + after - seen| >= |own| + |below - (seen + own)|
  {
    var b := below - (seen + own);
    assert own !! b;
    assert |own + b| == |own| + |b|;
    Fewer(own + b, own + below + after - seen);
  }

  lemma MoreAfter(own: set<Id>, below: set<Id>, after: set<Id>, seen: set<Id>)
    requires own !! seen && below !! (seen + own)
    ensures |own + below + after - seen| >= |own| + |below| + |after - (seen + own + below)|
  {
    var c := after - (seen + own + below);
    assert own !! c && below !! c && own !! below;
    SizeOfParts(own, below, c);
    Fewer(own + below + c, own + below + after - seen);
  }

  lemma Fewer(a: set<Id>, b: set<Id>)
    requires a <= b
    ensures |a| <= |b|
  {
    assert b == a + (b - a);
  }

  lemma ExplainsIs(e: Error, h: Heap, lim: Limits, roots: seq<Value>, seen: set<Id>, nodes: nat, depth: nat)
    ensures Explains(e, h, lim, roots, seen, nodes, depth) <==>
      && (e == AliasForbidden ==> !OnePathEach(h, roots) || Reachable(h, roots) * seen != {})
      && (e == DepthLimit ==> !Shallow(h, roots, depth, lim.maxDepth))
      && (e == NodeLimit ==> nodes + |Reachable(h, roots) - seen| > lim.maxNodes)
  {
  }

  lemma NotWithin(reached: set<Id>, nodes: nat, max: nat)
    ensures !Within(reached, nodes, max) ==> nodes + |reached| > max
  {
  }

  /** An error of one part is an error of the whole. */
  lemma ExplainsWhole(e: Error, h: Heap, lim: Limits, v: Value, rest: seq<Value>, seen: set<Id>, nodes: nat, depth: nat)
    requires depth <= lim.maxDepth && Own(v) !! seen
    ensures Explains(e, h, lim, Below(h, v), seen + Own(v), nodes + |Own(v)|, depth + 1) ==>
      Explains(e, h, lim, [v] + rest, seen, nodes, depth)
    ensures var below := Reachable(h, Below(h, v));
      below !! (seen + Own(v)) && Explains(e, h, lim, rest, seen + Own(v) + below, nodes + |Own(v)| + |below|, depth) ==>
      Explains(e, h, lim, [v] + rest, seen, nodes, depth)
  {
    hide *;
    ExplainsIs(e, h, lim, [v] + rest, seen, nodes, depth);
    ExplainsIs(e, h, lim, Below(h, v), seen + Own(v), nodes + |Own(v)|, depth + 1);
    ExplainsIs(e, h, lim, rest, seen + Own(v) + Reachable(h, Below(h, v)), nodes + |Own(v)| + |Reachable(h, Below(h, v))|, depth);
    var own, below, after := Own(v), Reachable(h, Below(h, v)), Reachable(h, rest);
    ReachableCases(h, v, rest);
    ShallowCases(h, v, rest, depth, lim.maxDepth);
    ApartSets(h, v, rest);
    OnePathCases(h, v, rest);
    MoreObjects(own, below, after, seen);
    var whole := own + below + after;
    if below * (seen + own) != {} {
      var x :| x in below * (seen + own);
      assert x in whole * seen || (x in own && x in below);
    }
    if after * (seen + own + below) != {} {
      var x :| x in after * (seen + own + below);
      assert x in whole * seen || (x in own && x in after) || (x in below && x in after);
    }
  }

  lemma {:induction false} ErrorsExplained(h: Heap, lim: Limits, vs: seq<Value>, seen: set<Id>, nodes: nat, depth: nat)
    ensures var r := InspectAll(h, lim, vs, seen, nodes, depth);
      r.Thrown? ==> Explains(r.error, h, lim, vs, seen, nodes, depth)
    decreases h.Keys - seen, |vs|
  {
    hide *;
    AllStep(h, lim, vs, seen, nodes, depth);
    if vs != [] {
      var v, rest := vs[0], vs[1..];
      assert vs == [v] + rest;
      var own, below := Own(v), Reachable(h, Below(h, v));
      InspectStep(h, lim, v, seen, nodes, depth);
      if depth > lim.maxDepth {
        InspectStops(h, lim, v, seen, nodes, depth);
        ShallowCases(h, v, rest, depth, lim.maxDepth);
        ExplainsIs(DepthLimit, h, lim, vs, seen, nodes, depth);
      } else if !(own !! seen) {
        InspectStops(h, lim, v, seen, nodes, depth);
        ReachableCases(h, v, rest);
        var x :| x in own && x in seen;
        assert x in Reachable(h, vs) * seen;
        ExplainsIs(AliasForbidden, h, lim, vs, seen, nodes, depth);
      } else if !Within(own, nodes, lim.maxNodes) {
        InspectStops(h, lim, v, seen, nodes, depth);
        NotWithin(own, nodes, lim.maxNodes);
        ReachableCases(h, v, rest);
        MoreObjects(own, below, Reachable(h, rest), seen);
        assert own - seen == own;
        ExplainsIs(NodeLimit, h, lim, vs, seen, nodes, depth);
      } else {
        BelowExact(h, lim, v, seen, nodes, depth);
        var first := InspectAll(h, lim, Below(h, v), seen + own, nodes + |own|, depth + 1);
        if first.Thrown? {
          BelowExplained(h, lim, v, seen, nodes, depth);
          ExplainsWhole(first.error, h, lim, v, rest, seen, nodes, depth);
        } else {
          FineIs(h, lim, Below(h, v), seen + own, nodes + |own|, depth + 1);
          AfterIs(h, Below(h, v), seen + own, nodes + |own|);
          assert h.Keys - (seen + own + below) <= h.Keys - seen;
          ErrorsExplained(h, lim, rest, seen + own + below, nodes + |own| + |below|, depth);
          var last := InspectAll(h, lim, rest, seen + own + below, nodes + |own| + |below|, depth);
          if last.Thrown? { ExplainsWhole(last.error, h, lim, v, rest, seen, nodes, depth); }
        }
      }
    }
  }

  lemma {:induction false} BelowExplained(h: Heap, lim: Limits, v: Value, seen: set<Id>, nodes: nat, depth: nat)
    requires Own(v) !! seen
    ensures var r := InspectAll(h, lim, Below(h, v), seen + Own(v), nodes + |Own(v)|, depth + 1);
      r.Thrown? ==> Explains(r.error, h, lim, Below(h, v), seen + Own(v), nodes + |Own(v)|, depth + 1)
    decreases h.Keys - seen, 0
  {
    hide Inspect, Explains;
    if v.Ref? && v.id in h {
      assert v.id in h.Keys - seen && v.id !in h.Keys - (seen + Own(v));
      assert h.Keys - (seen + Own(v)) < h.Keys - seen;
      ErrorsExplained(h, lim, Below(h, v), seen + Own(v), nodes + |Own(v)|, depth + 1);
    }
  }

  /** Each error of the check names a real cause. */
  lemma ErrorIsTrue(h: Heap, lim: Limits, v: Value)
    requires Inspect(h, lim, v, {}, 0, 0).Thrown?
    ensures match Inspect(h, lim, v, {}, 0, 0).error
      case AliasForbidden => !OnePathEach(h, [v])
      case DepthLimit => !Shallow(h, [v], 0, lim.maxDepth)
      case NodeLimit => |Reachable(h, [v])| > lim.maxNodes
  {
    hide Inspect, Reachable, OnePathEach, Shallow;
    ErrorsExplained(h, lim, [v], {}, 0, 0);
    assert [v][1..] == [];
    assert Reachable(h, [v]) - {} == Reachable(h, [v]);
    assert Reachable(h, [v]) * {} == {};
  }

  // ---------------------------------------------------------------- the traversal in place

  /** The state `{ nodes, seen }` that one check of a document updates. */
  class Inspector {
    var seen: set<Id>
    var nodes: nat

    constructor ()
      ensures seen == {} && nodes == 0
    {
      seen := {};
      nodes := 0;
    }

    method Visit(h: Heap, lim: Limits, v: Value, depth: nat) returns (error: Option<Error>)
      modifies this
      ensures var r := Inspect(h, lim, v, old(seen), old(nodes), depth);
        match error
        case None => r == Passed(seen, nodes)
        case Some(e) => r == Thrown(e)
      decreases h.Keys - seen
    {
      if depth > lim.maxDepth { return Some(DepthLimit); }
      if v.Scalar? { return None; }
      if v.id in seen { return Some(AliasForbidden); }
      seen := seen + {v.id};
      nodes := nodes + 1;
      if nodes > lim.maxNodes { return Some(NodeLimit); }
      if v.id !in h { return None; }
      var members := h[v.id];
      ghost var all := InspectAll(h, lim, members, seen, nodes, depth + 1);
      ghost var begun := seen;
      assert v.id in h.Keys - old(seen) && v.id !in h.Keys - begun;
      var i := 0;
      while i < |members|
        invariant 0 <= i <= |members| && begun <= seen
        invariant all == InspectAll(h, lim, members[i..], seen, nodes, depth + 1)
      {
        assert h.Keys - seen <= h.Keys - begun < h.Keys - old(seen);
        assert members[i..][0] == members[i] && members[i..][1..] == members[i + 1..];
        ghost var before := seen;
        error := Visit(h, lim, members[i], depth + 1);
        if error.Some? { return; }
        assert before <= seen;
        i := i + 1;
      }
      return None;
    }
  }

  /** The check that parsing makes on a document's value before it reads any entry. */
  method InspectDocument(h: Heap, lim: Limits, v: Value) returns (error: Option<Error>, nodes: nat)
    ensures error == None <==> OnePathEach(h, [v]) && Shallow(h, [v], 0, lim.maxDepth) && |Reachable(h, [v])| <= lim.maxNodes
    ensures error == None ==> nodes == |Reachable(h, [v])|
    ensures error == Some(AliasForbidden) ==> !OnePathEach(h, [v])
    ensures error == Some(DepthLimit) ==> !Shallow(h, [v], 0, lim.maxDepth)
    ensures error == Some(NodeLimit) ==> |Reachable(h, [v])| > lim.maxNodes
  {
    hide Inspect, Reachable, OnePathEach, Shallow;
    var state := new Inspector();
    error := state.Visit(h, lim, v, 0);
    nodes := state.nodes;
    InspectExact(h, lim, v);
    if error.Some? { ErrorIsTrue(h, lim, v); }
  }
}
