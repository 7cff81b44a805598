/** Delta saves of the graph.

    Every mutation changes memory, may write its own row at once, and marks what it touched;
    a save writes either everything or the marked records.  The model keeps two tables, each
    with its memory and its stored rows.  A row has columns that every write sets and
    columns, the creation times, that only the insert sets. */
module GraphSave {
  import opened Options

  /** `weight` and `body` are the columns every write sets, `birth` those only an insert sets. */
  datatype Record = Record(weight: int, body: nat, birth: nat)

  /** No creation time. */
  const UNSET: nat := 0

  datatype NodeKey = NodeKey(workspace: string, id: string)

  datatype EdgeKey = EdgeKey(workspace: string, source: string, target: string, relation: string)

  /** A live edge object; a later object for the same key has another `serial`. */
  datatype Edge = Edge(serial: nat, record: Record)

  /** An edge object in the tracker of touched records. */
  datatype Mark = Mark(key: EdgeKey, serial: nat)

  datatype Graph = Graph(
    nodes: map<NodeKey, Record>, edges: map<EdgeKey, Edge>,
    dirtyNodes: set<NodeKey>, dirtyEdges: set<Mark>, nextObject: nat,
    forceFull: bool, persistedRows: nat, checkpointEvery: Option<real>,
    nodeRows: map<NodeKey, Record>, edgeRows: map<EdgeKey, Record>)

  function Initial(checkpointEvery: Option<real>): Graph {
    Graph(map[], map[], {}, {}, 0, false, 0, checkpointEvery, map[], map[])
  }

  // ---------------------------------------------------------------- rows

  /** What an upsert leaves of a row: on a conflict the creation columns stay. */
  function Overwrite(row: Record, record: Record): Record { row.(weight := record.weight, body := record.body) }

  function UpsertAll<K>(rows: map<K, Record>, records: map<K, Record>): map<K, Record> {
    map k | k in rows.Keys + records.Keys ::
      if k in records then (if k in rows then Overwrite(rows[k], records[k]) else records[k]) else rows[k]
  }

  function Upsert<K>(rows: map<K, Record>, k: K, record: Record): map<K, Record> { UpsertAll(rows, map[k := record]) }

  /** An UPDATE: nothing without a row. */
  function Update<K>(rows: map<K, Record>, k: K, record: Record): map<K, Record> {
    if k in rows then rows[k := Overwrite(rows[k], record)] else rows
  }

  /** A write of some columns only.  If the row agreed with memory before, it does after;
      otherwise it comes out as `mixed`. */
  function Partly<K>(rows: map<K, Record>, k: K, before: Option<Record>, record: Record, mixed: nat): map<K, Record> {
    if k !in rows then rows
    else rows[k := rows[k].(weight := record.weight,
                            body := if before.Some? && SameBody(rows[k], before.value) then record.body else mixed)]
  }

  predicate SameBody(a: Record, b: Record) { a.weight == b.weight && a.body == b.body }

  function Records(edges: map<EdgeKey, Edge>): map<EdgeKey, Record> { map k | k in edges :: edges[k].record }

  function MarkOf(g: Graph, k: EdgeKey): Mark
    requires k in g.edges
  {
    Mark(k, g.edges[k].serial)
  }

  // ---------------------------------------------------------------- saving

  datatype Mode = Full | Delta(nodeKeys: set<NodeKey>, marks: set<Mark>)

  function Pending(g: Graph): nat { |g.dirtyNodes| + |g.dirtyEdges| }

  /** `_checkpointEvery`. */
  function CheckpointEvery(g: Graph): int {
    if g.checkpointEvery.Some? && g.checkpointEvery.value > 0.0 then g.checkpointEvery.value.Floor
    else if (g.persistedRows + 1) / 2 > 1024 then (g.persistedRows + 1) / 2 else 1024
  }

  /** `_nextSaveMode`. */
  function NextSaveMode(g: Graph): Mode {
    if g.forceFull then Full
    else if Pending(g) == 0 then Delta({}, {})
    else if Pending(g) >= CheckpointEvery(g) then Full
    else Delta(g.dirtyNodes, g.dirtyEdges)
  }

  /** The records a mode writes: all, or the marked ones that are still live. */
  function NodesToWrite(g: Graph, m: Mode): map<NodeKey, Record> {
    if m.Full? then g.nodes else map k | k in g.nodes && k in m.nodeKeys :: g.nodes[k]
  }

  function EdgesToWrite(g: Graph, m: Mode): map<EdgeKey, Record> {
    if m.Full? then Records(g.edges) else map k | k in g.edges && MarkOf(g, k) in m.marks :: g.edges[k].record
  }

  function Written(g: Graph, m: Mode): Graph {
    g.(nodeRows := UpsertAll(g.nodeRows, NodesToWrite(g, m)), edgeRows := UpsertAll(g.edgeRows, EdgesToWrite(g, m)))
  }

  /** `_afterSave`, which runs after a failure too. */
  function Settled(g: Graph, m: Mode): Graph {
    var g1 := if m.Full? then g.(forceFull := false, persistedRows := |g.nodes| + |g.edges|) else g;
    g1.(dirtyNodes := {}, dirtyEdges := {})
  }

  /** A save either commits its transaction, and may then still fail, or changes no row. */
  function Save(g: Graph, committed: bool): Graph {
    var m := NextSaveMode(g);
    Settled(if committed then Written(g, m) else g, m)
  }

  // ---------------------------------------------------------------- events

  /** The graph's mutations, with what they write; `mixed` is what a partial write makes of a
      row that did not agree.  A load reads the rows, or adopts `mirror` when there are none. */
  datatype Event =
    | PutNode(node: NodeKey, record: Record, mixed: nat)
    | TouchNode(node: NodeKey, body: nat, mixed: nat)
    | TagNode(node: NodeKey, body: nat)
    | RemoveNode(node: NodeKey, incident: bool)
    | PutEdge(edge: EdgeKey, record: Record)
    | DowngradeEdge(edge: EdgeKey, weight: int, body: nat)
    | StampEdge(edge: EdgeKey, body: nat, birth: Option<nat>)
    | Prune(workspace: string, threshold: int)
    | ReplaceEdges(kept: set<EdgeKey>)
    | SaveNow(committed: bool)
    | Load(mirrorNodes: map<NodeKey, Record>, mirrorEdges: map<EdgeKey, Record>, otherRows: bool, committed: bool)

  function After(g: Graph, e: Event): Graph {
    match e
    case PutNode(k, r, mixed) =>
      var before := if k in g.nodes then Some(g.nodes[k]) else None;
      var now := if k in g.nodes then Overwrite(g.nodes[k], r) else r;
      g.(nodes := g.nodes[k := now], dirtyNodes := g.dirtyNodes + {k},
         nodeRows := if k in g.nodeRows then Partly(g.nodeRows, k, before, now, mixed) else Upsert(g.nodeRows, k, now))
    case TouchNode(k, body, mixed) =>
      if k !in g.nodes then g
      else
        var now := g.nodes[k].(body := body);
        g.(nodes := g.nodes[k := now], dirtyNodes := g.dirtyNodes + {k}, nodeRows := Touched(g, k, body, mixed))
    case TagNode(k, body) =>
      if k !in g.nodes then g
      else g.(nodes := g.nodes[k := g.nodes[k].(body := body)], dirtyNodes := g.dirtyNodes + {k})
    case RemoveNode(k, incident) =>
      if k !in g.nodes then g
      else
        var g1 := g.(nodes := g.nodes - {k}, nodeRows := g.nodeRows - {k});
        if incident then g1.(edges := Off(g.edges, k), edgeRows := Off(g.edgeRows, k)) else g1
    case PutEdge(k, r) =>
      if k in g.edges then
        var was := g.edges[k].record;
        var now := Overwrite(was, r).(birth := if was.birth == UNSET then r.birth else was.birth);
        g.(edges := g.edges[k := g.edges[k].(record := now)], dirtyEdges := g.dirtyEdges + {MarkOf(g, k)},
           edgeRows := Update(g.edgeRows, k, now))
      else
        g.(edges := g.edges[k := Edge(g.nextObject, r)], nextObject := g.nextObject + 1,
           dirtyEdges := g.dirtyEdges + {Mark(k, g.nextObject)}, edgeRows := Upsert(g.edgeRows, k, r))
    case DowngradeEdge(k, weight, body) =>
      if k !in g.edges then g
      else
        var now := g.edges[k].record.(weight := weight, body := body);
        g.(edges := g.edges[k := g.edges[k].(record := now)], edgeRows := Update(g.edgeRows, k, now))
    case StampEdge(k, body, birth) =>
      if k !in g.edges then g
      else
        var now := g.edges[k].record.(body := body, birth := if birth.Some? then birth.value else g.edges[k].record.birth);
        g.(edges := g.edges[k := g.edges[k].(record := now)], dirtyEdges := g.dirtyEdges + {MarkOf(g, k)})
    case Prune(ws, threshold) =>
      if WeakEdges(g, ws, threshold) == {} then g
      else g.(edges := g.edges - WeakEdges(g, ws, threshold), edgeRows := StrongRows(g, ws, threshold))
    case ReplaceEdges(kept) => g.(edges := map k | k in g.edges && k in kept :: g.edges[k])
    case SaveNow(committed) => Save(g, committed)
    case Load(ns, es, other, committed) =>
      if g.nodeRows != map[] || g.edgeRows != map[] || other then Reset(g, g.nodeRows, g.edgeRows)
      else if ns != map[] then Save(Reset(g, ns, es), committed)
      else Reset(g, ns, es)
  }

  /** A load's new memory: fresh objects, nothing marked, and the next save full. */
  function Reset(g: Graph, nodes: map<NodeKey, Record>, edges: map<EdgeKey, Record>): Graph {
    g.(nodes := nodes, edges := Objects(edges, g.nextObject), forceFull := true, dirtyNodes := {}, dirtyEdges := {},
       nextObject := g.nextObject + 1)
  }

  function WeakEdges(g: Graph, ws: string, threshold: int): set<EdgeKey> {
    set k | k in g.edges && k.workspace == ws && g.edges[k].record.weight < threshold
  }

  /** The DELETE of a prune goes by the stored weights. */
  function StrongRows(g: Graph, ws: string, threshold: int): map<EdgeKey, Record> {
    map k | k in g.edgeRows && !(k.workspace == ws && g.edgeRows[k].weight < threshold) :: g.edgeRows[k]
  }

  function Touched(g: Graph, k: NodeKey, body: nat, mixed: nat): map<NodeKey, Record>
    requires k in g.nodes
  {
    if k !in g.nodeRows then g.nodeRows
    else g.nodeRows[k := g.nodeRows[k].(body := if g.nodeRows[k].body == g.nodes[k].body then body else mixed)]
  }

  /** Without the edges at a node. */
  function Off<T>(edges: map<EdgeKey, T>, k: NodeKey): map<EdgeKey, T> {
    map e | e in edges && !(e.workspace == k.workspace && (e.source == k.id || e.target == k.id)) :: edges[e]
  }

  function Objects(rows: map<EdgeKey, Record>, serial: nat): map<EdgeKey, Edge> {
    map k | k in rows :: Edge(serial, rows[k])
  }

  function Run(g: Graph, es: seq<Event>): Graph
    decreases |es|
  {
    if es == [] then g else Run(After(g, es[0]), es[1..])
  }

  // ---------------------------------------------------------------- the invariant

  /** A node is written by the next save, or agrees with its row. */
  ghost predicate NodeOk(g: Graph, k: NodeKey)
    requires k in g.nodes
  {
    g.forceFull || k in g.dirtyNodes || (k in g.nodeRows && SameBody(g.nodeRows[k], g.nodes[k]))
  }

  ghost predicate EdgeOk(g: Graph, k: EdgeKey)
    requires k in g.edges
  {
    g.forceFull || MarkOf(g, k) in g.dirtyEdges || (k in g.edgeRows && SameBody(g.edgeRows[k], g.edges[k].record))
  }

  /** Weights are written through: memory and row never differ on one. */
  ghost predicate WeightOk(g: Graph, k: EdgeKey)
    requires k in g.edges
  {
    k in g.edgeRows ==> g.edges[k].record.weight == g.edgeRows[k].weight
  }

  ghost predicate WeightsStored(g: Graph) { forall k | k in g.edges :: WeightOk(g, k) }

  /** The next save is full, or every record that is not marked agrees with its row. */
  ghost predicate Inv(g: Graph) {
    && WeightsStored(g)
    && (forall k | k in g.nodes :: NodeOk(g, k))
    && (forall k | k in g.edges :: EdgeOk(g, k))
  }

  /** No row without a record. */
  ghost predicate NoOrphans(g: Graph) { g.nodeRows.Keys <= g.nodes.Keys && g.edgeRows.Keys <= g.edges.Keys }

  ghost predicate NodeBirth(g: Graph, k: NodeKey)
    requires k in g.nodes
  {
    k in g.nodeRows ==> g.nodes[k].birth == g.nodeRows[k].birth
  }

  ghost predicate EdgeBirth(g: Graph, k: EdgeKey)
    requires k in g.edges
  {
    k in g.edgeRows ==> g.edges[k].record.birth == g.edgeRows[k].birth
  }

  /** Where both exist, row and record have the same creation time. */
  ghost predicate BirthsAgree(g: Graph) {
    && (forall k | k in g.nodes :: NodeBirth(g, k))
    && (forall k | k in g.edges :: EdgeBirth(g, k))
  }

  /** Every record is stored, with all the columns that a write sets. */
  ghost predicate AllStored(g: Graph) {
    && (forall k | k in g.nodes :: k in g.nodeRows && SameBody(g.nodeRows[k], g.nodes[k]))
    && (forall k | k in g.edges :: k in g.edgeRows && SameBody(g.edgeRows[k], g.edges[k].record))
  }

  ghost predicate Mirrored(g: Graph) { g.nodeRows == g.nodes && g.edgeRows == Records(g.edges) }

  // ---------------------------------------------------------------- one save

  lemma UpsertAllRows<K>(rows: map<K, Record>, records: map<K, Record>)
    ensures var w := UpsertAll(rows, records);
      && w.Keys == rows.Keys + records.Keys
      && (forall k | k in records :: SameBody(w[k], records[k]) && w[k].birth == if k in rows then rows[k].birth else records[k].birth)
      && (forall k | k in rows && k !in records :: w[k] == rows[k])
  {
  }

  lemma NothingMarked(g: Graph)
    requires Pending(g) == 0
    ensures g.dirtyNodes == {} && g.dirtyEdges == {}
  {
  }

  /** A record that the chosen mode does not write agrees with its row already. */
  lemma RestStored(g: Graph)
    requires Inv(g)
    ensures forall k | k in g.nodes :: k in NodesToWrite(g, NextSaveMode(g)) || (k in g.nodeRows && SameBody(g.nodeRows[k], g.nodes[k]))
    ensures forall k | k in g.edges :: k in EdgesToWrite(g, NextSaveMode(g)) || (k in g.edgeRows && SameBody(g.edgeRows[k], g.edges[k].record))
  {
    hide SameBody, CheckpointEvery;
    if Pending(g) == 0 { NothingMarked(g); }
    assert forall k | k in g.nodes :: NodeOk(g, k);
    assert forall k | k in g.edges :: EdgeOk(g, k);
  }

  lemma WritesMemory(g: Graph, m: Mode)
    ensures NodesToWrite(g, m).Keys <= g.nodes.Keys && forall k | k in NodesToWrite(g, m) :: NodesToWrite(g, m)[k] == g.nodes[k]
    ensures EdgesToWrite(g, m).Keys <= g.edges.Keys && forall k | k in EdgesToWrite(g, m) :: EdgesToWrite(g, m)[k] == g.edges[k].record
  {
  }

  lemma SaveFields(g: Graph, committed: bool)
    ensures var m := NextSaveMode(g); var s := Save(g, committed);
      && s.nodes == g.nodes && s.edges == g.edges && s.dirtyNodes == {} && s.dirtyEdges == {} && !s.forceFull
      && s.nodeRows == (if committed then UpsertAll(g.nodeRows, NodesToWrite(g, m)) else g.nodeRows)
      && s.edgeRows == (if committed then UpsertAll(g.edgeRows, EdgesToWrite(g, m)) else g.edgeRows)
  {
    hide UpsertAll, NodesToWrite, EdgesToWrite, CheckpointEvery, Pending;
  }

  lemma SavedRows(g: Graph)
    requires Inv(g)
    ensures var s := Save(g, true);
      && s.nodeRows.Keys == g.nodeRows.Keys + g.nodes.Keys && s.edgeRows.Keys == g.edgeRows.Keys + g.edges.Keys
      && (forall k | k in g.nodes :: SameBody(s.nodeRows[k], g.nodes[k])
            && s.nodeRows[k].birth == if k in g.nodeRows then g.nodeRows[k].birth else g.nodes[k].birth)
      && (forall k | k in g.edges :: SameBody(s.edgeRows[k], g.edges[k].record)
            && s.edgeRows[k].birth == if k in g.edgeRows then g.edgeRows[k].birth else g.edges[k].record.birth)
  {
    hide *;
    var m := NextSaveMode(g);
    SaveFields(g, true);
    RestStored(g);
    WritesMemory(g, m);
    UpsertAllRows(g.nodeRows, NodesToWrite(g, m));
    UpsertAllRows(g.edgeRows, EdgesToWrite(g, m));
  }

  /** A committed save stores every record, whichever mode it chose, and leaves nothing marked. */
  lemma SaveStores(g: Graph)
    requires Inv(g)
    ensures AllStored(Save(g, true)) && Inv(Save(g, true))
    ensures Save(g, true).nodes == g.nodes && Save(g, true).edges == g.edges
  {
    hide Save, Settled, Written, NextSaveMode, UpsertAll, NodesToWrite, EdgesToWrite, Records, Pending, CheckpointEvery, After;
    SaveFields(g, true);
    SavedRows(g);
  }

  /** Exactly when a committed save leaves the stored graph equal to memory: there was no row
      without a record, and no creation time had changed since its insert. */
  lemma SaveMirrors(g: Graph)
    requires Inv(g)
    ensures Mirrored(Save(g, true)) <==> NoOrphans(g) && BirthsAgree(g)
  {
    hide Save, Inv;
    SaveStores(g);
    SavedRows(g);
    var s := Save(g, true);
    if NoOrphans(g) && BirthsAgree(g) {
      assert s.nodeRows.Keys == s.nodes.Keys;
      assert s.edgeRows.Keys == Records(s.edges).Keys;
    }
    if Mirrored(s) {
      assert s.edgeRows.Keys == s.edges.Keys;
      forall k | k in g.edges && k in g.edgeRows ensures g.edges[k].record.birth == g.edgeRows[k].birth {
        assert s.edgeRows[k] == Records(s.edges)[k];
      }
    }
  }

  /** When a save is full: if forced, or with marks pending that reach the configured interval or,
      without one, 1024 and half the rows persisted last. */
  lemma FullExactly(g: Graph)
    requires g.checkpointEvery == None
    ensures NextSaveMode(g).Full? <==> g.forceFull || (Pending(g) >= 1024 && 2 * Pending(g) >= g.persistedRows)
  {
    hide Pending;
  }

  /** A save that is not full writes no row but those of marked records. */
  lemma DeltaTouchesMarked(g: Graph, committed: bool)
    requires !NextSaveMode(g).Full?
    ensures var s := Save(g, committed);
      && (forall k | k in s.nodeRows && k !in g.dirtyNodes :: k in g.nodeRows && s.nodeRows[k] == g.nodeRows[k])
      && (forall k | k in s.edgeRows && !(k in g.edges && MarkOf(g, k) in g.dirtyEdges) :: k in g.edgeRows && s.edgeRows[k] == g.edgeRows[k])
      && g.nodeRows.Keys <= s.nodeRows.Keys && g.edgeRows.Keys <= s.edgeRows.Keys
  {
    SaveFields(g, committed);
    var m := NextSaveMode(g);
    assert m.nodeKeys <= g.dirtyNodes && m.marks <= g.dirtyEdges;
    UpsertAllRows(g.nodeRows, NodesToWrite(g, m));
    UpsertAllRows(g.edgeRows, EdgesToWrite(g, m));
    hide Save, UpsertAll, NextSaveMode, Pending, CheckpointEvery;
  }

  // ---------------------------------------------------------------- every event keeps the invariant

  /** A save that does not commit: the tracker is cleared all the same. */
  predicate Fails(g: Graph, e: Event) {
    || (e.SaveNow? && !e.committed)
    || (e.Load? && g.nodeRows == map[] && g.edgeRows == map[] && !e.otherRows && e.mirrorNodes != map[] && !e.committed)
  }

  /** What a node event does to one node and its row. */
  lemma PutNodeInv(g: Graph, k: NodeKey, r: Record, mixed: nat)
    requires Inv(g)
    ensures Inv(After(g, PutNode(k, r, mixed)))
  {
    hide UpsertAll, Records, SameBody;
    var t := After(g, PutNode(k, r, mixed));
    UpsertAllRows(g.nodeRows, map[k := if k in g.nodes then Overwrite(g.nodes[k], r) else r]);
    forall q | q in t.nodes ensures NodeOk(t, q) { if q != k { assert NodeOk(g, q); } }
    EdgesSame(g, t);
  }

  lemma EdgesSame(g: Graph, t: Graph)
    requires Inv(g) && t.edges == g.edges && t.edgeRows == g.edgeRows && t.dirtyEdges == g.dirtyEdges && t.forceFull == g.forceFull
    ensures WeightsStored(t) && forall q | q in t.edges :: EdgeOk(t, q)
  {
    forall q | q in t.edges ensures EdgeOk(t, q) && WeightOk(t, q) { assert EdgeOk(g, q) && WeightOk(g, q); }
  }

  lemma NodesSame(g: Graph, t: Graph)
    requires Inv(g) && t.nodes == g.nodes && t.nodeRows == g.nodeRows && t.dirtyNodes == g.dirtyNodes && t.forceFull == g.forceFull
    ensures forall q | q in t.nodes :: NodeOk(t, q)
  {
    forall q | q in t.nodes ensures NodeOk(t, q) { assert NodeOk(g, q); }
  }

  lemma NodeEventInv(g: Graph, e: Event)
    requires Inv(g) && (e.TouchNode? || e.TagNode?)
    ensures Inv(After(g, e))
  {
    hide SameBody;
    var t := After(g, e);
    forall q | q in t.nodes ensures NodeOk(t, q) { assert NodeOk(g, q); }
    EdgesSame(g, t);
  }

  lemma RemoveNodeInv(g: Graph, k: NodeKey, incident: bool)
    requires Inv(g)
    ensures Inv(After(g, RemoveNode(k, incident)))
  {
    hide SameBody;
    var t := After(g, RemoveNode(k, incident));
    forall q | q in t.nodes ensures NodeOk(t, q) { assert NodeOk(g, q); }
    forall q | q in t.edges ensures EdgeOk(t, q) && WeightOk(t, q) { assert EdgeOk(g, q) && WeightOk(g, q); }
  }

  lemma PutEdgeInv(g: Graph, k: EdgeKey, r: Record)
    requires Inv(g)
    ensures Inv(After(g, PutEdge(k, r)))
  {
    hide UpsertAll, Records;
    UpsertAllRows(g.edgeRows, map[k := r]);
    var t := After(g, PutEdge(k, r));
    forall q | q in t.edges ensures EdgeOk(t, q) && WeightOk(t, q) {
      if q != k { assert EdgeOk(g, q) && WeightOk(g, q); }
    }
    NodesSame(g, t);
  }

  lemma EdgeEventInv(g: Graph, e: Event)
    requires Inv(g) && (e.DowngradeEdge? || e.StampEdge?)
    ensures Inv(After(g, e))
  {
    var t := After(g, e);
    forall q | q in t.edges ensures EdgeOk(t, q) && WeightOk(t, q) { assert EdgeOk(g, q) && WeightOk(g, q); }
    NodesSame(g, t);
  }

  lemma DropEventInv(g: Graph, e: Event)
    requires Inv(g) && (e.Prune? || e.ReplaceEdges?)
    ensures Inv(After(g, e))
  {
    var t := After(g, e);
    forall q | q in t.edges ensures EdgeOk(t, q) && WeightOk(t, q) { assert EdgeOk(g, q) && WeightOk(g, q); }
    NodesSame(g, t);
  }

  /** A load leaves a graph in which everything stored is in memory, whatever came before. */
  lemma LoadGood(g: Graph, e: Event)
    requires e.Load? && !Fails(g, e)
    ensures Good(After(g, e))
  {
    hide Save;
    if g.nodeRows != map[] || g.edgeRows != map[] || e.otherRows {
      var l := Reset(g, g.nodeRows, g.edgeRows);
      assert l.edges.Keys == l.edgeRows.Keys;
    } else {
      var g2 := Reset(g, e.mirrorNodes, e.mirrorEdges);
      assert Good(g2);
      if e.mirrorNodes != map[] { SaveGood(g2); }
    }
  }

  ghost predicate Good(g: Graph) { Inv(g) && NoOrphans(g) && BirthsAgree(g) }

  lemma SaveGood(g: Graph)
    requires Good(g)
    ensures Good(Save(g, true))
  {
    hide Save, NoOrphans, BirthsAgree, NodeOk, EdgeOk, AllStored;
    SaveStores(g);
    SaveClean(g, true);
  }

  /** What failed saves keep, too. */
  ghost predicate Clean(g: Graph) { WeightsStored(g) && NoOrphans(g) && BirthsAgree(g) }

  lemma SaveClean(g: Graph, committed: bool)
    requires Clean(g)
    ensures Clean(Save(g, committed))
  {
    hide Save, WeightOk, NodeBirth, EdgeBirth;
    WeightsSaved(g, committed);
    SaveKeepsRows(g, committed);
    var s := Save(g, committed);
    forall q | q in s.nodes ensures NodeBirth(s, q) { assert NodeBirth(g, q); }
    forall q | q in s.edges ensures EdgeBirth(s, q) { assert EdgeBirth(g, q); }
  }

  /** A save inserts rows of live records only, and changes no creation time. */
  lemma SaveKeepsRows(g: Graph, committed: bool)
    ensures var s := Save(g, committed);
      && s.nodes == g.nodes && s.edges == g.edges
      && s.nodeRows.Keys <= g.nodeRows.Keys + g.nodes.Keys && s.edgeRows.Keys <= g.edgeRows.Keys + g.edges.Keys
      && (forall q | q in g.nodes && NodeBirth(g, q) :: NodeBirth(s, q))
      && (forall q | q in g.edges && EdgeBirth(g, q) :: EdgeBirth(s, q))
  {
    hide Save, NextSaveMode, UpsertAll, NodesToWrite, EdgesToWrite;
    SaveFields(g, committed);
    var m := NextSaveMode(g);
    WritesMemory(g, m);
    UpsertAllRows(g.nodeRows, NodesToWrite(g, m));
    UpsertAllRows(g.edgeRows, EdgesToWrite(g, m));
  }

  /** Every mutation, load and committed save keeps the invariant. */
  lemma EventInv(g: Graph, e: Event)
    requires Inv(g) && !Fails(g, e)
    ensures Inv(After(g, e))
  {
    match e
    case PutNode(k, r, mixed) => PutNodeInv(g, k, r, mixed);
    case TouchNode(_, _, _) => NodeEventInv(g, e);
    case TagNode(_, _) => NodeEventInv(g, e);
    case RemoveNode(k, incident) => RemoveNodeInv(g, k, incident);
    case PutEdge(k, r) => PutEdgeInv(g, k, r);
    case DowngradeEdge(_, _, _) => EdgeEventInv(g, e);
    case StampEdge(_, _, _) => EdgeEventInv(g, e);
    case Prune(_, _) => DropEventInv(g, e);
    case ReplaceEdges(_) => DropEventInv(g, e);
    case SaveNow(_) => SaveStores(g);
    case Load(_, _, _, _) => LoadGood(g, e);
  }

  ghost predicate NoFailure(g: Graph, es: seq<Event>)
    decreases |es|
  {
    es != [] ==> !Fails(g, es[0]) && NoFailure(After(g, es[0]), es[1..])
  }

  /** Over every run without a failed save, each save stores every record. */
  lemma {:induction false} EverySaveStores(g: Graph, es: seq<Event>)
    requires Inv(g) && NoFailure(g, es)
    ensures Inv(Run(g, es)) && AllStored(Save(Run(g, es), true))
    decreases |es|
  {
    hide After, Inv, Save, AllStored;
    if es == [] {
      SaveStores(g);
    } else {
      EventInv(g, es[0]);
      EverySaveStores(After(g, es[0]), es[1..]);
    }
  }

  lemma InitialGood(every: Option<real>)
    ensures Good(Initial(every))
  {
  }

  // ---------------------------------------------------------------- stored equals memory

  /** Neither takes edges out without their rows, nor changes a stored creation time. */
  predicate Tame(g: Graph, e: Event) {
    && (e.ReplaceEdges? ==> g.edges.Keys * g.edgeRows.Keys <= e.kept)
    && (e.StampEdge? && e.edge in g.edges && e.edge in g.edgeRows && e.birth.Some? ==> e.birth.value == g.edgeRows[e.edge].birth)
    && (e.PutEdge? && e.edge in g.edges && e.edge in g.edgeRows && g.edges[e.edge].record.birth == UNSET ==> e.record.birth == UNSET)
  }

  lemma NodeEventClean(g: Graph, e: Event)
    requires NoOrphans(g) && BirthsAgree(g) && (e.PutNode? || e.TouchNode? || e.TagNode?)
    ensures NoOrphans(After(g, e)) && BirthsAgree(After(g, e))
  {
    hide Records, UpsertAll, SameBody;
    if e.PutNode? { UpsertAllRows(g.nodeRows, map[e.node := if e.node in g.nodes then Overwrite(g.nodes[e.node], e.record) else e.record]); }
    var t := After(g, e);
    forall q | q in t.nodes ensures NodeBirth(t, q) { if q in g.nodes { assert NodeBirth(g, q); } }
    forall q | q in t.edges ensures EdgeBirth(t, q) { assert EdgeBirth(g, q); }
  }

  lemma PutEdgeClean(g: Graph, k: EdgeKey, r: Record)
    requires NoOrphans(g) && BirthsAgree(g) && Tame(g, PutEdge(k, r))
    ensures NoOrphans(After(g, PutEdge(k, r))) && BirthsAgree(After(g, PutEdge(k, r)))
  {
    hide UpsertAll, Records, SameBody;
    UpsertAllRows(g.edgeRows, map[k := r]);
    var t := After(g, PutEdge(k, r));
    assert t.nodes == g.nodes && t.nodeRows == g.nodeRows;
    hide After;
    forall q | q in t.nodes ensures NodeBirth(t, q) { assert NodeBirth(g, q); }
    forall q | q in t.edges ensures EdgeBirth(t, q) { PutEdgeBirth(g, k, r, q); }
    assert t.edgeRows.Keys <= g.edgeRows.Keys + {k} && t.edges.Keys == g.edges.Keys + {k} by { PutEdgeKeys(g, k, r); }
  }

  lemma PutEdgeKeys(g: Graph, k: EdgeKey, r: Record)
    ensures var t := After(g, PutEdge(k, r));
      t.edgeRows.Keys <= g.edgeRows.Keys + {k} && t.edges.Keys == g.edges.Keys + {k}
  {
    hide UpsertAll, Records, SameBody;
    UpsertAllRows(g.edgeRows, map[k := r]);
  }

  lemma PutEdgeBirth(g: Graph, k: EdgeKey, r: Record, q: EdgeKey)
    requires NoOrphans(g) && BirthsAgree(g) && Tame(g, PutEdge(k, r)) && q in After(g, PutEdge(k, r)).edges
    ensures EdgeBirth(After(g, PutEdge(k, r)), q)
  {
    hide UpsertAll, Records, SameBody, NodeBirth;
    UpsertAllRows(g.edgeRows, map[k := r]);
    if q in g.edges { assert EdgeBirth(g, q); }
  }

  lemma EdgeEventClean(g: Graph, e: Event)
    requires NoOrphans(g) && BirthsAgree(g) && Tame(g, e) && (e.DowngradeEdge? || e.StampEdge?)
    ensures NoOrphans(After(g, e)) && BirthsAgree(After(g, e))
  {
    var t := After(g, e);
    forall q | q in t.edges ensures EdgeBirth(t, q) { assert EdgeBirth(g, q); }
    forall q | q in t.nodes ensures NodeBirth(t, q) { assert NodeBirth(g, q); }
  }

  lemma PruneClean(g: Graph, ws: string, threshold: int)
    requires Clean(g)
    ensures NoOrphans(After(g, Prune(ws, threshold))) && BirthsAgree(After(g, Prune(ws, threshold)))
  {
    hide NodeOk, EdgeOk;
    var t := After(g, Prune(ws, threshold));
    forall q | q in t.edges ensures EdgeBirth(t, q) { assert EdgeBirth(g, q); }
    forall q | q in t.nodes ensures NodeBirth(t, q) { assert NodeBirth(g, q); }
    forall q | q in t.edgeRows ensures q in t.edges { assert WeightOk(g, q); }
  }

  lemma DropEventClean(g: Graph, e: Event)
    requires NoOrphans(g) && BirthsAgree(g) && Tame(g, e) && (e.ReplaceEdges? || e.RemoveNode?)
    ensures NoOrphans(After(g, e)) && BirthsAgree(After(g, e))
  {
    hide UpsertAll, Upsert, Update, Partly, Touched, Reset, Save, WeakEdges, StrongRows, Records, Objects;
    var t := After(g, e);
    forall q | q in t.edges ensures EdgeBirth(t, q) { assert EdgeBirth(g, q); }
    forall q | q in t.nodes ensures NodeBirth(t, q) { assert NodeBirth(g, q); }
  }

  lemma LoadClean(g: Graph, e: Event)
    requires e.Load?
    ensures Clean(After(g, e))
  {
    hide Save;
    if g.nodeRows != map[] || g.edgeRows != map[] || e.otherRows {
      var l := Reset(g, g.nodeRows, g.edgeRows);
      assert l.edges.Keys == l.edgeRows.Keys;
    } else {
      var g2 := Reset(g, e.mirrorNodes, e.mirrorEdges);
      assert Clean(g2);
      if e.mirrorNodes != map[] { SaveClean(g2, e.committed); }
    }
  }

  lemma EventClean(g: Graph, e: Event)
    requires Clean(g) && Tame(g, e)
    ensures Clean(After(g, e))
  {
    hide Tame, After, NoOrphans, BirthsAgree, WeightsStored;
    WeightsAlways(g, e);
    match e
    case PutNode(_, _, _) => NodeEventClean(g, e);
    case TouchNode(_, _, _) => NodeEventClean(g, e);
    case TagNode(_, _) => NodeEventClean(g, e);
    case RemoveNode(_, _) => DropEventClean(g, e);
    case PutEdge(k, r) => PutEdgeClean(g, k, r);
    case DowngradeEdge(_, _, _) => EdgeEventClean(g, e);
    case StampEdge(_, _, _) => EdgeEventClean(g, e);
    case Prune(ws, threshold) => PruneClean(g, ws, threshold);
    case ReplaceEdges(_) => DropEventClean(g, e);
    case SaveNow(committed) => AfterSave(g, committed); SaveClean(g, committed);
    case Load(_, _, _, _) => LoadClean(g, e);
  }

  lemma AfterSave(g: Graph, committed: bool)
    ensures After(g, SaveNow(committed)) == Save(g, committed)
  {
  }

  ghost predicate TameRun(g: Graph, es: seq<Event>)
    decreases |es|
  {
    es != [] ==> Tame(g, es[0]) && TameRun(After(g, es[0]), es[1..])
  }

  lemma {:induction false} RunClean(g: Graph, es: seq<Event>)
    requires Clean(g) && TameRun(g, es)
    ensures Clean(Run(g, es))
    decreases |es|
  {
    hide After, Clean, Tame;
    if es != [] {
      EventClean(g, es[0]);
      RunClean(After(g, es[0]), es[1..]);
    }
  }

  ghost predicate Calm(g: Graph, es: seq<Event>)
    decreases |es|
  {
    es != [] ==> !Fails(g, es[0]) && Tame(g, es[0]) && Calm(After(g, es[0]), es[1..])
  }

  lemma GoodIsClean(g: Graph)
    ensures Good(g) <==> Inv(g) && Clean(g)
  {
  }

  /** Over every run of tame mutations, loads and committed saves, from an empty store or a
      load, each save leaves the stored nodes and edges equal to memory. */
  lemma {:induction false} EverySaveMirrors(g: Graph, es: seq<Event>)
    requires Good(g) && Calm(g, es)
    ensures Good(Run(g, es)) && Mirrored(Save(Run(g, es), true))
    decreases |es|
  {
    hide After, Inv, Save, Mirrored, NoOrphans, BirthsAgree, Tame;
    if es == [] {
      SaveMirrors(g);
    } else {
      EventInv(g, es[0]);
      GoodIsClean(g);
      EventClean(g, es[0]);
      GoodIsClean(After(g, es[0]));
      EverySaveMirrors(After(g, es[0]), es[1..]);
    }
  }

  // ---------------------------------------------------------------- failures

  lemma WeightsAlways(g: Graph, e: Event)
    requires WeightsStored(g)
    ensures WeightsStored(After(g, e))
  {
    hide CheckpointEvery, Pending;
    if e.SaveNow? {
      WeightsSaved(g, e.committed);
    } else if e.Load? {
      if g.edgeRows == map[] { WeightsSaved(Reset(g, e.mirrorNodes, e.mirrorEdges), e.committed); }
    } else {
      EdgeWeights(g, e);
    }
  }

  lemma WeightsSaved(g: Graph, committed: bool)
    requires WeightsStored(g)
    ensures WeightsStored(Save(g, committed))
  {
    hide Save, Settled, Written, NextSaveMode, UpsertAll, NodesToWrite, EdgesToWrite, Records, Pending, CheckpointEvery, After;
    SaveFields(g, committed);
    WritesMemory(g, NextSaveMode(g));
    UpsertAllRows(g.edgeRows, EdgesToWrite(g, NextSaveMode(g)));
  }

  lemma EdgeWeights(g: Graph, e: Event)
    requires WeightsStored(g) && !e.SaveNow? && !e.Load?
    ensures WeightsStored(After(g, e))
  {
    hide Save, Settled, Written, NextSaveMode, UpsertAll, NodesToWrite, EdgesToWrite, Records, Pending, CheckpointEvery, After;
    if e.PutEdge? { PutEdgeWeights(g, e.edge, e.record); } else { OtherWeights(g, e); }
  }

  lemma PutEdgeWeights(g: Graph, k: EdgeKey, r: Record)
    requires WeightsStored(g)
    ensures WeightsStored(After(g, PutEdge(k, r)))
  {
    hide UpsertAll, Records;
    UpsertAllRows(g.edgeRows, map[k := r]);
    var t := After(g, PutEdge(k, r));
    forall q | q in t.edges ensures WeightOk(t, q) { if q in g.edges { assert WeightOk(g, q); } }
  }

  lemma OtherWeights(g: Graph, e: Event)
    requires WeightsStored(g) && !e.SaveNow? && !e.Load? && !e.PutEdge?
    ensures WeightsStored(After(g, e))
  {
    hide UpsertAll, Records, Partly, Touched, SameBody;
    var t := After(g, e);
    forall q | q in t.edges ensures WeightOk(t, q) { assert WeightOk(g, q); }
  }

  /** Whatever failed before, a committed full save stores every record again. */
  lemma FullSaveRestores(g: Graph)
    requires WeightsStored(g) && NextSaveMode(g).Full?
    ensures Inv(Save(g, true)) && AllStored(Save(g, true))
  {
    hide Save, Settled, Written, NextSaveMode, UpsertAll, Pending, CheckpointEvery, After;
    SaveFields(g, true);
    UpsertAllRows(g.nodeRows, NodesToWrite(g, Full));
    UpsertAllRows(g.edgeRows, EdgesToWrite(g, Full));
  }

  /** Weights are written through in every run, failures included, so a prune takes the same
      edges from memory and from the rows. */
  lemma {:induction false} WeightsRun(g: Graph, es: seq<Event>)
    requires WeightsStored(g)
    ensures var r := Run(g, es);
      && WeightsStored(r)
      && forall ws, threshold, k | k in r.edges && k in r.edgeRows ::
           k in After(r, Prune(ws, threshold)).edges <==> k in After(r, Prune(ws, threshold)).edgeRows
    decreases |es|
  {
    if es == [] {
      forall ws, threshold, k | k in g.edges && k in g.edgeRows
        ensures k in After(g, Prune(ws, threshold)).edges <==> k in After(g, Prune(ws, threshold)).edgeRows
      {
        assert WeightOk(g, k);
      }
    } else {
      hide After, WeightsStored;
      WeightsAlways(g, es[0]);
      WeightsRun(After(g, es[0]), es[1..]);
    }
  }

  /** What ends the effect of failures: a load, or a committed full save. */
  ghost predicate Restores(g: Graph, e: Event) {
    (e.Load? && !Fails(g, e)) || (e.SaveNow? && e.committed && NextSaveMode(g).Full?)
  }

  lemma RestoresInv(every: Option<real>, pre: seq<Event>, e: Event)
    requires Restores(Run(Initial(every), pre), e)
    ensures Inv(After(Run(Initial(every), pre), e))
  {
    var g := Run(Initial(every), pre);
    InitialGood(every);
    assert WeightsStored(Initial(every));
    hide After, Inv, WeightsStored, Save, NextSaveMode, Run;
    WeightsRun(Initial(every), pre);
    if e.Load? {
      LoadGood(g, e);
    } else {
      FullSaveRestores(g);
      AfterSave(g, true);
    }
  }

  /** Whatever failed before: once a load or a full save has come through, each save stores
      every record, until another one fails; and it leaves stored equal to memory exactly when
      there is neither an orphan row nor a changed creation time. */
  lemma StoresAfterFailures(every: Option<real>, pre: seq<Event>, e: Event, es: seq<Event>)
    requires Restores(Run(Initial(every), pre), e)
    requires NoFailure(After(Run(Initial(every), pre), e), es)
    ensures var r := Run(After(Run(Initial(every), pre), e), es);
      AllStored(Save(r, true)) && (Mirrored(Save(r, true)) <==> NoOrphans(r) && BirthsAgree(r))
  {
    hide *;
    RestoresInv(every, pre, e);
    EverySaveStores(After(Run(Initial(every), pre), e), es);
    SaveMirrors(Run(After(Run(Initial(every), pre), e), es));
  }

  /** Likewise each save leaves the stored nodes and edges equal to memory, if the mutations
      are tame, before a full save failing saves included, before a load any. */
  lemma MirrorsAfterFailures(every: Option<real>, pre: seq<Event>, e: Event, es: seq<Event>)
    requires Restores(Run(Initial(every), pre), e) && (e.Load? || TameRun(Initial(every), pre))
    requires Calm(After(Run(Initial(every), pre), e), es)
    ensures Mirrored(Save(Run(After(Run(Initial(every), pre), e), es), true))
  {
    var g := Run(Initial(every), pre);
    InitialGood(every);
    GoodIsClean(Initial(every));
    assert e.SaveNow? ==> After(g, e) == Save(g, true);
    hide After, Inv, Clean, Good, Calm, TameRun, Mirrored, Save, Run, NextSaveMode, NoOrphans, BirthsAgree;
    RestoresInv(every, pre, e);
    if e.Load? {
      LoadGood(g, e);
    } else {
      RunClean(Initial(every), pre);
      SaveClean(g, true);
      GoodIsClean(After(g, e));
    }
    EverySaveMirrors(After(g, e), es);
  }

  /** A save that fails forgets what it had to write: the next one does not store it. */
  lemma FailedSaveForgets(k: NodeKey, r: Record, body: nat)
    requires body != r.body
    ensures var g := Run(Initial(None), [PutNode(k, r, 0), TagNode(k, body), SaveNow(false), SaveNow(true)]);
      k in g.nodes && g.nodes[k].body == body && k in g.nodeRows && g.nodeRows[k].body == r.body
  {
    hide UpsertAll;
    var a := After(Initial(None), PutNode(k, r, 0));
    UpsertAllRows<NodeKey>(map[], map[k := r]);
    var b := After(a, TagNode(k, body));
    var c := After(b, SaveNow(false));
    SaveFields(b, false);
    var d := After(c, SaveNow(true));
    SaveFields(c, true);
    UpsertAllRows(c.nodeRows, NodesToWrite(c, NextSaveMode(c)));
    assert NextSaveMode(c) == Delta({}, {});
    assert k !in NodesToWrite(c, NextSaveMode(c));
    RunFour(Initial(None), PutNode(k, r, 0), TagNode(k, body), SaveNow(false), SaveNow(true));
  }

  lemma RunFour(g: Graph, a: Event, b: Event, c: Event, d: Event)
    ensures Run(g, [a, b, c, d]) == After(After(After(After(g, a), b), c), d)
  {
    hide After;
    var g1 := After(g, a);
    var g2 := After(g1, b);
    var g3 := After(g2, c);
    assert [a, b, c, d][1..] == [b, c, d] && [b, c, d][1..] == [c, d] && [c, d][1..] == [d] && [d][1..] == [];
    assert Run(g1, [b, c, d]) == Run(g2, [c, d]);
    assert Run(g2, [c, d]) == Run(g3, [d]);
    assert Run(g3, [d]) == After(g3, d);
  }

  // ---------------------------------------------------------------- what consolidation and stamping do

  /** Consolidation takes edges out of memory and saves, but a save only upserts: the rows
      stay, stored and memory differ, and the next load brings the edges back. */
  lemma ConsolidatedEdgesReturn(g: Graph, kept: set<EdgeKey>, k: EdgeKey, load: Event)
    requires Inv(g) && k in g.edges && k in g.edgeRows && k !in kept && load.Load?
    ensures var s := Save(After(g, ReplaceEdges(kept)), true);
      k !in s.edges && k in s.edgeRows && !Mirrored(s) && k in After(s, load).edges
  {
    hide Save, Inv;
    var d := After(g, ReplaceEdges(kept));
    EventInv(g, ReplaceEdges(kept));
    SaveStores(d);
    SavedRows(d);
    SaveMirrors(d);
  }

  /** A creation time stamped after the edge's row was inserted never reaches the store. */
  lemma StampedTimeNotStored(g: Graph, k: EdgeKey, body: nat, birth: nat)
    requires Inv(g) && k in g.edges && k in g.edgeRows && g.edgeRows[k].birth != birth
    ensures var s := Save(After(g, StampEdge(k, body, Some(birth))), true);
      k in s.edges && k in s.edgeRows && s.edges[k].record.birth == birth && s.edgeRows[k].birth == g.edgeRows[k].birth
  {
    hide Save, Inv;
    var d := After(g, StampEdge(k, body, Some(birth)));
    EventInv(g, StampEdge(k, body, Some(birth)));
    SaveStores(d);
    SavedRows(d);
  }

  // ---------------------------------------------------------------- what a load brings back

  /** There is something stored to load from; otherwise the mirror is adopted. */
  predicate HasRows(g: Graph, load: Event)
    requires load.Load?
  {
    g.nodeRows != map[] || g.edgeRows != map[] || load.otherRows
  }

  lemma ObjectsRecords(rows: map<EdgeKey, Record>, serial: nat)
    ensures Records(Objects(rows, serial)) == rows
  {
  }

  /** A load's memory is exactly the rows or, without any, exactly the mirror, with nothing
      marked.  Stored and memory agree afterwards if and only if there were rows, or the
      mirror's nodes were saved, or the mirror was empty: edges alone are not saved. */
  lemma LoadExact(g: Graph, load: Event)
    requires load.Load?
    ensures var t := After(g, load);
      && t.nodes == (if HasRows(g, load) then g.nodeRows else load.mirrorNodes)
      && Records(t.edges) == (if HasRows(g, load) then g.edgeRows else load.mirrorEdges)
      && (forall k | k in t.edges :: t.edges[k].serial == g.nextObject) && t.nextObject > g.nextObject
      && t.dirtyNodes == {} && t.dirtyEdges == {}
    ensures Mirrored(After(g, load)) <==>
      HasRows(g, load) || (if load.mirrorNodes != map[] then load.committed else load.mirrorEdges == map[])
  {
    hide Save, UpsertAll, NextSaveMode;
    var t := After(g, load);
    ObjectsRecords(g.edgeRows, g.nextObject);
    ObjectsRecords(load.mirrorEdges, g.nextObject);
    if !HasRows(g, load) && load.mirrorNodes != map[] {
      var a := Reset(g, load.mirrorNodes, load.mirrorEdges);
      assert a.forceFull && t == Save(a, load.committed);
      AdoptionSaved(a, load.committed);
    }
  }

  /** The save of an adoption is full, and its rows are the records, as there were none. */
  lemma AdoptionSaved(a: Graph, committed: bool)
    requires a.forceFull && a.nodeRows == map[] && a.edgeRows == map[] && a.nodes != map[]
    ensures var t := Save(a, committed);
      && t.nodes == a.nodes && t.edges == a.edges && t.dirtyNodes == {} && t.dirtyEdges == {} && t.nextObject == a.nextObject
      && (Mirrored(t) <==> committed)
  {
    hide UpsertAll, Records, CheckpointEvery, Pending;
    UpsertAllRows(a.nodeRows, a.nodes);
    UpsertAllRows(a.edgeRows, Records(a.edges));
    if committed {
      var t := Save(a, true);
      assert t.nodeRows == UpsertAll(map[], a.nodes) && t.edgeRows == UpsertAll(map[], Records(a.edges));
      IntoNothing(a.nodes);
      IntoNothing(Records(a.edges));
    }
  }

  lemma IntoNothing<K>(records: map<K, Record>)
    ensures UpsertAll(map[], records) == records
  {
  }

  /** A committed save and the load after it give back the memory that was saved if and only
      if there was no row without a record and no creation time had changed. */
  lemma SaveThenLoad(g: Graph, load: Event)
    requires Inv(g) && load.Load? && HasRows(Save(g, true), load)
    ensures var t := After(Save(g, true), load);
      t.nodes == g.nodes && Records(t.edges) == Records(g.edges) <==> NoOrphans(g) && BirthsAgree(g)
  {
    hide Save, After, Inv, NoOrphans, BirthsAgree, Records;
    SaveStores(g);
    SaveMirrors(g);
    LoadExact(Save(g, true), load);
  }

  /** Over every calm run: what the last save saw in memory is what a load brings back, and
      saved memory is something to load from unless it is empty. */
  lemma SavedComesBack(g: Graph, es: seq<Event>, load: Event)
    requires Good(g) && Calm(g, es) && load.Load?
    ensures var r := Run(g, es); var s := Save(r, true); var t := After(s, load);
      && (r.nodes != map[] || r.edges != map[] ==> HasRows(s, load))
      && (HasRows(s, load) ==> t.nodes == r.nodes && Records(t.edges) == Records(r.edges) && Mirrored(t))
  {
    hide After, Save, Inv, NoOrphans, BirthsAgree, Calm, Run;
    var r := Run(g, es);
    EverySaveMirrors(g, es);
    SaveStores(r);
    LoadExact(Save(r, true), load);
    SaveFields(r, true);
    if r.edges != map[] {
      var k :| k in r.edges;
      assert k in Save(r, true).edgeRows;
    }
  }

  // ---------------------------------------------------------------- what a mutation leaves in memory

  /** The node mutations: one node gets the new columns and keeps its creation time, or goes
      with its edges; everything else stays. */
  lemma NodesAfter(g: Graph, k: NodeKey, r: Record, body: nat, mixed: nat, incident: bool)
    ensures var t := After(g, PutNode(k, r, mixed));
      t.edges == g.edges && t.nodes == g.nodes[k := Record(r.weight, r.body, if k in g.nodes then g.nodes[k].birth else r.birth)]
    ensures forall e | e in {TouchNode(k, body, mixed), TagNode(k, body)} :: var t := After(g, e);
      t.edges == g.edges && t.nodes == if k in g.nodes then g.nodes[k := g.nodes[k].(body := body)] else g.nodes
    ensures var t := After(g, RemoveNode(k, incident));
      && t.nodes.Keys == g.nodes.Keys - {k} && (forall q | q in t.nodes :: t.nodes[q] == g.nodes[q])
      && (forall e | e in t.edges :: e in g.edges && t.edges[e] == g.edges[e])
      && (forall e | e in g.edges :: e !in t.edges <==>
            incident && k in g.nodes && e.workspace == k.workspace && (e.source == k.id || e.target == k.id))
  {
    hide Upsert, Partly, Touched;
  }

  /** Adding an edge: a known one gets the new weight and body and, unless it has none, keeps
      its creation time; a new one is stored as given.  The others stay. */
  lemma EdgePut(g: Graph, k: EdgeKey, r: Record)
    ensures var t := After(g, PutEdge(k, r));
      && t.nodes == g.nodes && t.edges.Keys == g.edges.Keys + {k} && (forall q | q in g.edges && q != k :: t.edges[q] == g.edges[q])
      && t.edges[k].record.weight == r.weight && t.edges[k].record.body == r.body
      && t.edges[k].record.birth == (if k in g.edges && g.edges[k].record.birth != UNSET then g.edges[k].record.birth else r.birth)
      && t.edges[k].serial == (if k in g.edges then g.edges[k].serial else g.nextObject)
  {
    hide UpsertAll, Upsert, Update, Partly, Touched, Records, Reset, Save, WeakEdges, StrongRows, Off, Objects;
  }

  /** A downgrade sets weight and body of a known edge, a stamp its body and, if one is given,
      its creation time.  Everything else stays. */
  lemma EdgeChanged(g: Graph, k: EdgeKey, weight: int, body: nat, birth: Option<nat>)
    ensures var t := After(g, DowngradeEdge(k, weight, body));
      && t.nodes == g.nodes && t.edges.Keys == g.edges.Keys && (forall q | q in g.edges && q != k :: t.edges[q] == g.edges[q])
      && (k in g.edges ==> t.edges[k] == Edge(g.edges[k].serial, Record(weight, body, g.edges[k].record.birth)))
    ensures var t := After(g, StampEdge(k, body, birth));
      && t.nodes == g.nodes && t.edges.Keys == g.edges.Keys && (forall q | q in g.edges && q != k :: t.edges[q] == g.edges[q])
      && (k in g.edges ==> t.edges[k] == Edge(g.edges[k].serial, Record(
            g.edges[k].record.weight, body, if birth.Some? then birth.value else g.edges[k].record.birth)))
  {
    hide Update;
  }

  /** A prune takes the edges of one workspace that weigh less than the threshold; the
      consolidation takes those it did not choose to keep.  Both leave the others as they were. */
  lemma EdgesDropped(g: Graph, ws: string, threshold: int, kept: set<EdgeKey>)
    ensures var t := After(g, Prune(ws, threshold));
      && t.nodes == g.nodes && (forall k | k in t.edges :: k in g.edges && t.edges[k] == g.edges[k])
      && (forall k | k in g.edges :: k !in t.edges <==> k.workspace == ws && g.edges[k].record.weight < threshold)
    ensures var t := After(g, ReplaceEdges(kept));
      && t.nodes == g.nodes && t.edges.Keys == g.edges.Keys * kept && (forall k | k in t.edges :: t.edges[k] == g.edges[k])
      && t.nodeRows == g.nodeRows && t.edgeRows == g.edgeRows
  {
    var weak := WeakEdges(g, ws, threshold);
    assert forall k | k in g.edges :: k in weak <==> k.workspace == ws && g.edges[k].record.weight < threshold;
    hide WeakEdges, StrongRows;
    assert After(g, Prune(ws, threshold)).edges == g.edges - weak;
  }

  lemma UpsertOne<K>(rows: map<K, Record>, k: K, r: Record)
    ensures Upsert(rows, k, r) == rows[k := if k in rows then Overwrite(rows[k], r) else r]
  {
  }

  /** Adding a node writes its row at once: an insert stores the record, an update leaves the
      creation time and, if the row agreed with memory before, has it agree again. */
  lemma NodePutRow(g: Graph, k: NodeKey, r: Record, mixed: nat)
    ensures var t := After(g, PutNode(k, r, mixed));
      && t.nodeRows.Keys == g.nodeRows.Keys + {k} && (forall q | q in g.nodeRows && q != k :: t.nodeRows[q] == g.nodeRows[q])
      && t.nodeRows[k].weight == r.weight && (k in g.nodeRows ==> t.nodeRows[k].birth == g.nodeRows[k].birth)
      && (k in g.nodeRows && k in g.nodes && SameBody(g.nodeRows[k], g.nodes[k]) ==> t.nodeRows[k].body == r.body)
      && (k !in g.nodeRows ==> t.nodeRows[k] == t.nodes[k])
  {
    UpsertOne(g.nodeRows, k, if k in g.nodes then Overwrite(g.nodes[k], r) else r);
    hide Upsert, UpsertAll;
  }

  /** A touch writes the body, a removal takes the row, a tag is in memory only. */
  lemma NodeChangeRow(g: Graph, k: NodeKey, body: nat, mixed: nat, incident: bool)
    ensures var t := After(g, TouchNode(k, body, mixed));
      && t.nodeRows.Keys == g.nodeRows.Keys && (forall q | q in g.nodeRows && q != k :: t.nodeRows[q] == g.nodeRows[q])
      && (k in g.nodes && k in g.nodeRows && g.nodeRows[k].body == g.nodes[k].body ==>
            t.nodeRows[k] == Record(g.nodeRows[k].weight, body, g.nodeRows[k].birth))
    ensures After(g, TagNode(k, body)).nodeRows == g.nodeRows
    ensures k in g.nodes ==> After(g, RemoveNode(k, incident)).nodeRows == g.nodeRows - {k}
  {
    hide Upsert;
  }

  /** Adding an edge writes weight and body at once, and the creation time with the insert; a
      known edge without a row gets none. */
  lemma EdgePutRow(g: Graph, k: EdgeKey, r: Record)
    ensures var t := After(g, PutEdge(k, r));
      && t.edgeRows.Keys == g.edgeRows.Keys + (if k in g.edges then {} else {k})
      && (forall q | q in g.edgeRows && q != k :: t.edgeRows[q] == g.edgeRows[q])
      && (k in t.edgeRows ==> t.edgeRows[k] == Record(r.weight, r.body, if k in g.edgeRows then g.edgeRows[k].birth else r.birth))
  {
    UpsertOne(g.edgeRows, k, r);
    hide Upsert, UpsertAll;
  }

  /** A downgrade writes weight and body at once, a stamp nothing. */
  lemma EdgeChangeRow(g: Graph, k: EdgeKey, weight: int, body: nat, birth: Option<nat>)
    ensures var t := After(g, DowngradeEdge(k, weight, body));
      && t.edgeRows.Keys == g.edgeRows.Keys && (forall q | q in g.edgeRows && q != k :: t.edgeRows[q] == g.edgeRows[q])
      && (k in g.edges && k in g.edgeRows ==> t.edgeRows[k] == Record(weight, body, g.edgeRows[k].birth))
    ensures After(g, StampEdge(k, body, birth)).edgeRows == g.edgeRows
  {
    hide Upsert;
  }

  // ---------------------------------------------------------------- the graph, in place

  /** Writes the rows of some records, one upsert at a time. */
  method WriteRows<K(!new)>(rows: map<K, Record>, records: map<K, Record>) returns (written: map<K, Record>)
    ensures written == UpsertAll(rows, records)
  {
    written := rows;
    var left := records.Keys;
    while left != {}
      invariant left <= records.Keys
      invariant written == UpsertAll(rows, map k | k in records && k !in left :: records[k])
      decreases left
    {
      var k :| k in left;
      written := if k in written then written[k := Overwrite(written[k], records[k])] else written[k := records[k]];
      left := left - {k};
    }
    assert (map k | k in records && k !in left :: records[k]) == records;
  }

  class GraphStore {
    var nodes: map<NodeKey, Record>
    var edges: map<EdgeKey, Edge>
    var dirtyNodes: set<NodeKey>
    var dirtyEdges: set<Mark>
    var nextObject: nat
    var forceFullSave: bool
    var persistedRowCount: nat
    const checkpointEvery: Option<real>
    var nodeRows: map<NodeKey, Record>
    var edgeRows: map<EdgeKey, Record>

    function State(): Graph
      reads this
    {
      Graph(nodes, edges, dirtyNodes, dirtyEdges, nextObject, forceFullSave, persistedRowCount, checkpointEvery, nodeRows, edgeRows)
    }

    constructor (every: Option<real>)
      ensures State() == Initial(every) && Good(State())
    {
      nodes, edges, dirtyNodes, dirtyEdges, nextObject := map[], map[], {}, {}, 0;
      forceFullSave, persistedRowCount, checkpointEvery := false, 0, every;
      nodeRows, edgeRows := map[], map[];
    }

    method AddNode(k: NodeKey, r: Record, mixed: nat)
      modifies this
      ensures State() == After(old(State()), PutNode(k, r, mixed))
    {
      dirtyNodes := dirtyNodes + {k};
      var before := if k in nodes then Some(nodes[k]) else None;
      var now := if k in nodes then Overwrite(nodes[k], r) else r;
      nodeRows := if k in nodeRows then Partly(nodeRows, k, before, now, mixed) else Upsert(nodeRows, k, now);
      nodes := nodes[k := now];
    }

    method RemoveNode(k: NodeKey)
      modifies this
      ensures State() == After(old(State()), Event.RemoveNode(k, true))
    {
      if k !in nodes { return; }
      nodes := nodes - {k};
      edges := Off(edges, k);
      edgeRows := Off(edgeRows, k);
      nodeRows := nodeRows - {k};
    }

    method AddEdge(k: EdgeKey, r: Record)
      modifies this
      ensures State() == After(old(State()), PutEdge(k, r))
    {
      if k in edges {
        var was := edges[k];
        dirtyEdges := dirtyEdges + {Mark(k, was.serial)};
        var now := Overwrite(was.record, r).(birth := if was.record.birth == UNSET then r.birth else was.record.birth);
        edges := edges[k := was.(record := now)];
        edgeRows := Update(edgeRows, k, now);
      } else {
        edges := edges[k := Edge(nextObject, r)];
        dirtyEdges := dirtyEdges + {Mark(k, nextObject)};
        nextObject := nextObject + 1;
        edgeRows := Upsert(edgeRows, k, r);
      }
    }

    method PruneEdges(ws: string, threshold: int) returns (pruned: nat)
      modifies this
      ensures State() == After(old(State()), Prune(ws, threshold))
      ensures pruned == |WeakEdges(old(State()), ws, threshold)|
    {
      hide WeakEdges, StrongRows;
      var weak := WeakEdges(State(), ws, threshold);
      pruned := |weak|;
      var strong := StrongRows(State(), ws, threshold);
      if pruned > 0 {
        edges := edges - weak;
        edgeRows := strong;
      }
    }

    /** `save`: derives the mode once, writes by it, and settles whether or not the
        transaction commits. */
    method SaveAll(committed: bool)
      modifies this
      ensures State() == Save(old(State()), committed)
      ensures Inv(old(State())) && committed ==> AllStored(State()) && Inv(State())
      ensures Good(old(State())) && committed ==> Mirrored(State())
    {
      hide Inv, AllStored, Mirrored, NoOrphans, BirthsAgree, CheckpointEvery, Pending, UpsertAll, NodesToWrite, EdgesToWrite;
      ghost var g := State();
      var mode := NextSaveMode(State());
      if committed {
        var writtenNodes := WriteRows(nodeRows, NodesToWrite(State(), mode));
        var writtenEdges := WriteRows(edgeRows, EdgesToWrite(State(), mode));
        nodeRows, edgeRows := writtenNodes, writtenEdges;
      }
      if mode.Full? {
        forceFullSave := false;
        persistedRowCount := |nodes| + |edges|;
      }
      dirtyNodes, dirtyEdges := {}, {};
      if committed && Inv(g) { SaveStores(g); }
      if committed && Good(g) {
        SaveMirrors(g);
      }
    }

    /** `consolidateEdges` once it has chosen what to keep. */
    method Consolidate(kept: set<EdgeKey>, committed: bool)
      modifies this
      ensures State() == Save(After(old(State()), ReplaceEdges(kept)), committed)
    {
      hide Save, Mirrored, AllStored, Good;
      edges := map k | k in edges && k in kept :: edges[k];
      SaveAll(committed);
    }

    /** `load` clears the tracker and makes the next save full; the new memory is fresh objects. */
    method ResetMemory(newNodes: map<NodeKey, Record>, newEdges: map<EdgeKey, Record>)
      modifies this
      ensures State() == Reset(old(State()), newNodes, newEdges)
    {
      forceFullSave := true;
      dirtyNodes, dirtyEdges := {}, {};
      nodes, edges := newNodes, Objects(newEdges, nextObject);
      nextObject := nextObject + 1;
    }

    /** `load`: from the rows, else from the mirror, whose nodes are then saved. */
    method LoadAll(mirrorNodes: map<NodeKey, Record>, mirrorEdges: map<EdgeKey, Record>, otherRows: bool, committed: bool)
      modifies this
      ensures State() == After(old(State()), Load(mirrorNodes, mirrorEdges, otherRows, committed))
      ensures var stored := old(nodeRows) != map[] || old(edgeRows) != map[] || otherRows;
        nodes == (if stored then old(nodeRows) else mirrorNodes) && Records(edges) == (if stored then old(edgeRows) else mirrorEdges)
    {
      hide Records, UpsertAll, NextSaveMode, Save, Reset, Mirrored, AllStored, Good, Inv, Objects;
      LoadExact(State(), Load(mirrorNodes, mirrorEdges, otherRows, committed));
      if nodeRows != map[] || edgeRows != map[] || otherRows {
        ResetMemory(nodeRows, edgeRows);
      } else {
        ResetMemory(mirrorNodes, mirrorEdges);
        if mirrorNodes != map[] { SaveAll(committed); }
      }
    }
  }
}
