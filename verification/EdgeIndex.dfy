/** The adjacency indexes and workspace counters of the graph.

    Both are kept beside the plain list of edges, step by step when an edge is appended and
    by rebuilding when edges go away.  Buckets are keyed by a string that two workspaces can
    share, so what a bucket holds and what a read answers are different questions. */
module EdgeIndex {
  import opened Options

  /** An edge; `workspace` is its normalized name. */
  datatype Edge = Edge(workspace: string, source: string, target: string, relation: string, serial: nat)

  datatype Side = Out | In

  function EndOf(e: Edge, side: Side): string { if side == Out then e.source else e.target }

  /** `edgeIndexKey`. */
  function Key(id: string, workspace: string): string { if workspace == "default" then id else workspace + "::" + id }

  function KeyOf(e: Edge, side: Side): string { Key(EndOf(e, side), e.workspace) }

  type Index = map<string, seq<Edge>>

  function Bucket(index: Index, key: string): seq<Edge> { if key in index then index[key] else [] }

  function Count(counts: map<string, nat>, workspace: string): nat { if workspace in counts then counts[workspace] else 0 }

  // ---------------------------------------------------------------- subsequences

  function Filter(edges: seq<Edge>, p: Edge -> bool): (r: seq<Edge>)
    ensures forall e :: e in r <==> e in edges && p(e)
  {
    if edges == [] then [] else (if p(edges[0]) then [edges[0]] else []) + Filter(edges[1..], p)
  }

  lemma {:induction false} FilterConcat(a: seq<Edge>, b: seq<Edge>, p: Edge -> bool)
    ensures Filter(a + b, p) == Filter(a, p) + Filter(b, p)
  {
    if a == [] {
      assert a + b == b;
    } else {
      assert (a + b)[0] == a[0] && (a + b)[1..] == a[1..] + b;
      FilterConcat(a[1..], b, p);
    }
  }

  lemma {:induction false} FilterSame(edges: seq<Edge>, p: Edge -> bool, q: Edge -> bool)
    requires forall e | e in edges :: p(e) == q(e)
    ensures Filter(edges, p) == Filter(edges, q)
  {
    if edges != [] { FilterSame(edges[1..], p, q); }
  }

  function Both(p: Edge -> bool, q: Edge -> bool): Edge -> bool { (e: Edge) => p(e) && q(e) }

  lemma {:induction false} FilterTwice(edges: seq<Edge>, p: Edge -> bool, q: Edge -> bool)
    ensures Filter(Filter(edges, p), q) == Filter(edges, Both(p, q))
  {
    if edges != [] {
      var rest := Filter(edges[1..], p);
      FilterTwice(edges[1..], p, q);
      if p(edges[0]) {
        FilterConcat([edges[0]], rest, q);
        FilterOne(edges[0], q);
        assert Filter(edges, p) == [edges[0]] + rest;
      } else {
        assert Filter(edges, p) == rest;
      }
    }
  }

  function ByKey(side: Side, key: string): Edge -> bool { (e: Edge) => KeyOf(e, side) == key }

  function ByNode(side: Side, id: string, workspace: string): Edge -> bool {
    (e: Edge) => EndOf(e, side) == id && e.workspace == workspace
  }

  function ByWorkspace(workspace: string): Edge -> bool { (e: Edge) => e.workspace == workspace }

  function AtKey(edges: seq<Edge>, side: Side, key: string): seq<Edge> { Filter(edges, ByKey(side, key)) }

  /** The edges of a workspace with an endpoint, in order: what an index entry stands for. */
  function AtNode(edges: seq<Edge>, side: Side, id: string, workspace: string): seq<Edge> {
    Filter(edges, ByNode(side, id, workspace))
  }

  function InWorkspace(edges: seq<Edge>, workspace: string): seq<Edge> { Filter(edges, ByWorkspace(workspace)) }

  // ---------------------------------------------------------------- keys

  /** Within a workspace, keys name endpoints. */
  lemma KeyWithin(a: string, b: string, workspace: string)
    ensures Key(a, workspace) == Key(b, workspace) <==> a == b
  {
    if workspace != "default" && Key(a, workspace) == Key(b, workspace) {
      var p := workspace + "::";
      assert a == (p + a)[|p|..] && b == (p + b)[|p|..];
    }
  }

  /** Across workspaces they may not. */
  lemma KeysCollide()
    ensures Key("a::b", "default") == Key("b", "a")
  {
  }

  // ---------------------------------------------------------------- the invariant

  ghost predicate Exact(edges: seq<Edge>, index: Index, side: Side) {
    forall key :: Bucket(index, key) == AtKey(edges, side, key)
  }

  ghost predicate Counted(edges: seq<Edge>, counts: map<string, nat>) {
    forall w :: Count(counts, w) == |InWorkspace(edges, w)|
  }

  /** One step of `_indexEdge` on one side. */
  function Added(index: Index, e: Edge, side: Side): Index { index[KeyOf(e, side) := Bucket(index, KeyOf(e, side)) + [e]] }

  function Tallied(counts: map<string, nat>, e: Edge): map<string, nat> { counts[e.workspace := Count(counts, e.workspace) + 1] }

  lemma AddedExact(edges: seq<Edge>, index: Index, e: Edge, side: Side)
    requires Exact(edges, index, side)
    ensures Exact(edges + [e], Added(index, e, side), side)
  {
    hide Filter;
    forall key ensures Bucket(Added(index, e, side), key) == AtKey(edges + [e], side, key) {
      FilterConcat(edges, [e], ByKey(side, key));
      FilterOne(e, ByKey(side, key));
      assert Bucket(index, key) == AtKey(edges, side, key);
    }
  }

  lemma FilterOne(e: Edge, p: Edge -> bool)
    ensures Filter([e], p) == if p(e) then [e] else []
  {
    assert [e][1..] == [];
  }

  lemma TalliedCounted(edges: seq<Edge>, counts: map<string, nat>, e: Edge)
    requires Counted(edges, counts)
    ensures Counted(edges + [e], Tallied(counts, e))
  {
    hide Filter;
    forall w ensures Count(Tallied(counts, e), w) == |InWorkspace(edges + [e], w)| {
      FilterConcat(edges, [e], ByWorkspace(w));
      FilterOne(e, ByWorkspace(w));
      assert Count(counts, w) == |InWorkspace(edges, w)|;
    }
  }

  // ---------------------------------------------------------------- what reads answer

  /** `getEdges` and `getInEdges`: the bucket, less the edges of other workspaces. */
  function Read(index: Index, side: Side, id: string, workspace: string): seq<Edge> {
    Filter(Bucket(index, Key(id, workspace)), ByWorkspace(workspace))
  }

  /** A read answers the edges at the node, in order, even where keys collide. */
  lemma ReadExact(edges: seq<Edge>, index: Index, side: Side, id: string, workspace: string)
    requires Exact(edges, index, side)
    ensures Read(index, side, id, workspace) == AtNode(edges, side, id, workspace)
  {
    hide Filter;
    var key := Key(id, workspace);
    var p, q := ByKey(side, key), ByWorkspace(workspace);
    assert Bucket(index, key) == AtKey(edges, side, key);
    FilterTwice(edges, p, q);
    forall e ensures (p(e) && q(e)) == ByNode(side, id, workspace)(e) {
      KeyWithin(EndOf(e, side), id, workspace);
    }
    FilterSame(edges, Both(p, q), ByNode(side, id, workspace));
  }

  /** An edge of another workspace whose key is the same. */
  predicate Intrudes(e: Edge, side: Side, id: string, workspace: string) {
    e.workspace != workspace && KeyOf(e, side) == Key(id, workspace)
  }

  /** A bucket holds exactly the edges at its node if and only if no edge intrudes. */
  lemma BucketExact(edges: seq<Edge>, index: Index, side: Side, id: string, workspace: string)
    requires Exact(edges, index, side)
    ensures Bucket(index, Key(id, workspace)) == AtNode(edges, side, id, workspace)
      <==> forall e | e in edges :: !Intrudes(e, side, id, workspace)
  {
    hide Filter;
    var key := Key(id, workspace);
    assert Bucket(index, key) == AtKey(edges, side, key);
    if forall e | e in edges :: !Intrudes(e, side, id, workspace) {
      forall e | e in edges ensures ByKey(side, key)(e) == ByNode(side, id, workspace)(e) {
        KeyWithin(EndOf(e, side), id, workspace);
      }
      FilterSame(edges, ByKey(side, key), ByNode(side, id, workspace));
    } else {
      var e :| e in edges && Intrudes(e, side, id, workspace);
      assert e in AtKey(edges, side, key) && e !in AtNode(edges, side, id, workspace);
    }
  }

  /** The first edge of a sequence with a target and a relation in a workspace. */
  function Find(edges: seq<Edge>, target: string, relation: string, workspace: string): (r: Option<Edge>)
    ensures r.Some? ==> r.value in edges
  {
    if edges == [] then None
    else if edges[0].target == target && edges[0].relation == relation && edges[0].workspace == workspace then Some(edges[0])
    else Find(edges[1..], target, relation, workspace)
  }

  /** The look-up for an existing edge goes by the index and misses none of the list: so an
      edge that is already there is never appended again. */
  lemma {:induction false} FindExact(edges: seq<Edge>, source: string, target: string, relation: string, workspace: string)
    ensures var bucket := AtKey(edges, Out, Key(source, workspace));
      match Find(bucket, target, relation, workspace)
      case Some(e) => e in edges && e.source == source && e.target == target && e.relation == relation && e.workspace == workspace
      case None => forall e | e in edges :: !(e.source == source && e.target == target && e.relation == relation && e.workspace == workspace)
  {
    var key := Key(source, workspace);
    var bucket := AtKey(edges, Out, key);
    var found := Find(bucket, target, relation, workspace);
    FindMeans(bucket, target, relation, workspace);
    if found.Some? { KeyWithin(found.value.source, source, workspace); }
    forall e | e in edges && e.source == source && e.target == target && e.relation == relation && e.workspace == workspace
      ensures found.Some?
    {
      assert e in bucket;
    }
  }

  lemma {:induction false} FindMeans(edges: seq<Edge>, target: string, relation: string, workspace: string)
    ensures match Find(edges, target, relation, workspace)
      case Some(e) => e.target == target && e.relation == relation && e.workspace == workspace
      case None => forall e | e in edges :: !(e.target == target && e.relation == relation && e.workspace == workspace)
  {
    if edges != [] { FindMeans(edges[1..], target, relation, workspace); }
  }

  // ---------------------------------------------------------------- the indexes, in place

  /** Pushes onto a bucket, which is made on first use. */
  method Push(index: Index, key: string, e: Edge) returns (r: Index)
    ensures r == index[key := Bucket(index, key) + [e]]
  {
    r := index;
    if key !in r { r := r[key := []]; }
    r := r[key := r[key] + [e]];
  }

  lemma EmptyExact()
    ensures Exact([], map[], Out) && Exact([], map[], In) && Counted([], map[])
  {
  }

  class Indexes {
    var edges: seq<Edge>
    var outIndex: Index
    var inIndex: Index
    var counts: map<string, nat>

    ghost predicate Valid()
      reads this
    {
      Exact(edges, outIndex, Out) && Exact(edges, inIndex, In) && Counted(edges, counts)
    }

    constructor ()
      ensures Valid() && edges == []
    {
      edges := [];
      outIndex, inIndex, counts := map[], map[], map[];
    }

    /** `_indexEdge`. */
    method IndexEdge(e: Edge)
      modifies this`outIndex, this`inIndex, this`counts
      ensures outIndex == Added(old(outIndex), e, Out) && inIndex == Added(old(inIndex), e, In)
      ensures counts == Tallied(old(counts), e)
    {
      outIndex := Push(outIndex, Key(e.source, e.workspace), e);
      inIndex := Push(inIndex, Key(e.target, e.workspace), e);
      counts := counts[e.workspace := Count(counts, e.workspace) + 1];
    }

    /** Appending an edge keeps every index and counter exact. */
    method Append(e: Edge)
      requires Valid()
      modifies this
      ensures Valid() && edges == old(edges) + [e]
    {
      hide Exact, Counted, Added, Tallied;
      AddedExact(edges, outIndex, e, Out);
      AddedExact(edges, inIndex, e, In);
      TalliedCounted(edges, counts, e);
      edges := edges + [e];
      IndexEdge(e);
    }

    /** `_rebuildEdgeIndex`: exact for any list of edges, whatever was indexed before. */
    method Rebuild()
      modifies this`outIndex, this`inIndex, this`counts
      ensures Valid()
    {
      hide Exact, Counted, Added, Tallied;
      outIndex, inIndex, counts := map[], map[], map[];
      EmptyExact();
      var i := 0;
      assert edges[..0] == [];
      while i < |edges|
        invariant 0 <= i <= |edges|
        invariant Exact(edges[..i], outIndex, Out) && Exact(edges[..i], inIndex, In) && Counted(edges[..i], counts)
      {
        AddedExact(edges[..i], outIndex, edges[i], Out);
        AddedExact(edges[..i], inIndex, edges[i], In);
        TalliedCounted(edges[..i], counts, edges[i]);
        assert edges[..i] + [edges[i]] == edges[..i + 1];
        IndexEdge(edges[i]);
        i := i + 1;
      }
      assert edges[..i] == edges;
    }

    /** Every removal of edges and every load: a new list, then a rebuild. */
    method Replace(kept: seq<Edge>)
      modifies this
      ensures Valid() && edges == kept
    {
      edges := kept;
      Rebuild();
    }

    method GetEdges(side: Side, id: string, workspace: string) returns (r: seq<Edge>)
      requires Valid()
      ensures r == AtNode(edges, side, id, workspace)
    {
      var index := if side == Out then outIndex else inIndex;
      ReadExact(edges, index, side, id, workspace);
      r := Read(index, side, id, workspace);
    }

    /** The number of edges of a workspace, without a scan. */
    method EdgeCount(workspace: string) returns (n: nat)
      requires Valid()
      ensures n == |InWorkspace(edges, workspace)|
    {
      n := Count(counts, workspace);
    }

    method FindExisting(source: string, target: string, relation: string, workspace: string) returns (r: Option<Edge>)
      requires Valid()
      ensures match r
        case Some(e) => e in edges && e.source == source && e.target == target && e.relation == relation && e.workspace == workspace
        case None => forall e | e in edges :: !(e.source == source && e.target == target && e.relation == relation && e.workspace == workspace)
    {
      FindExact(edges, source, target, relation, workspace);
      r := Find(Bucket(outIndex, Key(source, workspace)), target, relation, workspace);
    }
  }
}
