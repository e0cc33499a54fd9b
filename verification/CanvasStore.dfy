// The canvas store: optimistic locking on a revision, and replacement of the whole graph
// in one transaction.
module CanvasStore {
  import opened Wrappers
  import opened Text
  import opened Decimal
  import opened Domain

  datatype NodePosition = NodePosition(id: string, position: Position)

  datatype SaveRequest = SaveRequest(positions: seq<NodePosition>, edges: seq<CanvasEdge>)

  datatype NodeRow = NodeRow(kind: NodeKind, resource: string, position: Position)

  datatype EdgeRow = EdgeRow(source: string, target: string, kind: EdgeKind)

  datatype SaveError =
    | UnknownNode
    | RevisionConflict(expected: int, actual: int)
    | UnsupportedData
    | NodeConstraint
    | EdgeConstraint
    | DatabaseFailed

  // Where the database fails, if it does: before the revision is read, before or at the
  // commit, or when the canvas is loaded again after it.
  datatype Trouble = NoTrouble | BeforeRead | BeforeCommit | AfterCommit

  // The default canvas, its node rows and its edge rows, by id.
  datatype Canvas = Canvas(revision: nat, nodes: map<string, NodeRow>, edges: map<string, EdgeRow>)

  // ---- the checks before the transaction ----

  predicate KnownNodes(catalog: Catalog, request: SaveRequest) {
    && (forall i :: 0 <= i < |request.positions| ==> request.positions[i].id in catalog)
    && (forall i :: 0 <= i < |request.edges| ==> request.edges[i].source in catalog && request.edges[i].target in catalog)
  }

  // The last position given for a node counts.
  function PositionsOf(positions: seq<NodePosition>): map<string, Position> {
    if positions == [] then map[]
    else PositionsOf(positions[..|positions| - 1])[positions[|positions| - 1].id := positions[|positions| - 1].position]
  }

  function DefaultPosition(kind: NodeKind): Position {
    match kind
    case SourceKind => Position(80, 180)
    case FilterKind => Position(460, 180)
    case TargetKind => Position(840, 180)
    case OtherKind => Position(0, 0)
  }

  function ResourceIdForNode(node: CanvasNode): Option<string> {
    match node.data
    case SourceData(deviceId, _) => Some(deviceId)
    case FilterData(flowId, _, _) => Some(flowId)
    case TargetData(proxyName, _, _) => Some(proxyName)
    case OtherData => None
  }

  // ---- the transaction ----

  // The table keeps kind and resource unique, and knows three kinds.
  predicate NodeFits(rows: map<string, NodeRow>, id: string, row: NodeRow) {
    && !row.kind.OtherKind?
    && forall other :: other in rows && other != id ==> rows[other].kind != row.kind || rows[other].resource != row.resource
  }

  function UpsertNode(rows: map<string, NodeRow>, node: CanvasNode, positions: map<string, Position>): Result<map<string, NodeRow>, SaveError> {
    var position := if node.id in positions then positions[node.id] else DefaultPosition(node.kind);
    match ResourceIdForNode(node)
    case None => Err(UnsupportedData)
    case Some(resource) =>
      var row := NodeRow(node.kind, resource, position);
      if NodeFits(rows, node.id, row) then Ok(rows[node.id := row]) else Err(NodeConstraint)
  }

  function UpsertNodes(rows: map<string, NodeRow>, nodes: seq<CanvasNode>, positions: map<string, Position>): Result<map<string, NodeRow>, SaveError> {
    if nodes == [] then Ok(rows)
    else
      var front := UpsertNodes(rows, nodes[..|nodes| - 1], positions);
      if front.Err? then front else UpsertNode(front.value, nodes[|nodes| - 1], positions)
  }

  // Edge ids are unique, and so are their end points; only the two kinds are stored.
  predicate EdgeFits(rows: map<string, EdgeRow>, e: CanvasEdge) {
    && (e.kind.SourceToFilter? || e.kind.FilterToTarget?)
    && e.id !in rows
    && forall other :: other in rows ==> rows[other].source != e.source || rows[other].target != e.target
  }

  function RowOf(e: CanvasEdge): EdgeRow {
    EdgeRow(e.source, e.target, e.kind)
  }

  function InsertEdges(edges: seq<CanvasEdge>): Option<map<string, EdgeRow>> {
    if edges == [] then Some(map[])
    else
      var front, e := InsertEdges(edges[..|edges| - 1]), edges[|edges| - 1];
      if front.None? || !EdgeFits(front.value, e) then None else Some(front.value[e.id := RowOf(e)])
  }

  // A save, as a function of the stored canvas: everything or nothing is stored. The reply
  // is an error also when everything was stored and could not be loaded.
  function Save(c: Canvas, expected: int, nodes: seq<CanvasNode>, request: SaveRequest, t: Trouble): (Canvas, Result<(), SaveError>) {
    if !KnownNodes(CatalogOf(nodes), request) then (c, Err(UnknownNode))
    else if t.BeforeRead? then (c, Err(DatabaseFailed))
    else if c.revision != expected then (c, Err(RevisionConflict(expected, c.revision)))
    else
      var rows := UpsertNodes(c.nodes, nodes, PositionsOf(request.positions));
      var edges := InsertEdges(request.edges);
      if rows.Err? then (c, Err(rows.error))
      else if edges.None? then (c, Err(EdgeConstraint))
      else if t.BeforeCommit? then (c, Err(DatabaseFailed))
      else (Canvas(c.revision + 1, rows.value, edges.value), if t.AfterCommit? then Err(DatabaseFailed) else Ok(()))
  }

  // What makes a save take effect.
  predicate Commits(c: Canvas, expected: int, nodes: seq<CanvasNode>, request: SaveRequest, t: Trouble) {
    && KnownNodes(CatalogOf(nodes), request)
    && c.revision == expected
    && UpsertNodes(c.nodes, nodes, PositionsOf(request.positions)).Ok?
    && InsertEdges(request.edges).Some?
    && (t.NoTrouble? || t.AfterCommit?)
  }

  // ---- loading ----

  // Rows of one save share their creation time, so they load in order of id.
  ghost function LoadedEdges(c: Canvas): (r: seq<CanvasEdge>)
    ensures |r| == |SortedKeys(c.edges.Keys)|
  {
    var ids := SortedKeys(c.edges.Keys);
    seq(|ids|, i requires 0 <= i < |ids| => EdgeAt(c.edges, ids, i))
  }

  ghost function EdgeAt(edges: map<string, EdgeRow>, ids: seq<string>, i: nat): CanvasEdge
    requires i < |ids| && forall x :: x in ids ==> x in edges
  {
    var row := edges[ids[i]];
    CanvasEdge(ids[i], row.source, row.target, row.kind)
  }

  class Store {
    var revision: nat
    var nodes: map<string, NodeRow>
    var edges: map<string, EdgeRow>

    ghost function Stored(): Canvas
      reads this
    {
      Canvas(revision, nodes, edges)
    }

    constructor ()
      ensures Stored() == Canvas(0, map[], map[])
    {
      revision, nodes, edges := 0, map[], map[];
    }

    method SaveDefaultGraph(expected: int, catalog: seq<CanvasNode>, request: SaveRequest, t: Trouble) returns (r: Result<(), SaveError>)
      modifies this
      ensures (Stored(), r) == Save(old(Stored()), expected, catalog, request, t)
    {
      if !KnownNodes(CatalogOf(catalog), request) {
        return Err(UnknownNode);
      }
      var positions := CollectPositions(request.positions);
      if t.BeforeRead? {
        return Err(DatabaseFailed);
      }
      if revision != expected {
        return Err(RevisionConflict(expected, revision));
      }
      var nodes0, edges0 := nodes, edges;
      var upserted := UpsertAll(catalog, positions);
      if upserted.Err? {
        nodes := nodes0;
        return Err(upserted.error);
      }
      edges := map[];
      var inserted := InsertAll(request.edges);
      if !inserted {
        nodes, edges := nodes0, edges0;
        return Err(EdgeConstraint);
      }
      if t.BeforeCommit? {
        nodes, edges := nodes0, edges0;
        return Err(DatabaseFailed);
      }
      revision := revision + 1;
      r := if t.AfterCommit? then Err(DatabaseFailed) else Ok(());
    }

    // Several saves, one after the other.
    method SaveAll(calls: seq<SaveCall>)
      modifies this
      ensures Stored() == Run(old(Stored()), calls)
    {
      for i := 0 to |calls|
        invariant Stored() == Run(old(Stored()), calls[..i])
      {
        assert calls[..i + 1][..i] == calls[..i];
        var r := SaveDefaultGraph(calls[i].expected, calls[i].nodes, calls[i].request, calls[i].trouble);
      }
      assert calls[..|calls|] == calls;
    }

    method LoadDefaultCanvas() returns (loaded: seq<CanvasEdge>)
      ensures loaded == LoadedEdges(Stored())
    {
      var ids := MapKeysSorted(edges.Keys);
      loaded := [];
      for i := 0 to |ids|
        invariant |loaded| == i && forall k :: 0 <= k < i ==> loaded[k] == EdgeAt(edges, ids, k)
      {
        assert ids[i] in ids;
        var row := edges[ids[i]];
        loaded := loaded + [CanvasEdge(ids[i], row.source, row.target, row.kind)];
      }
    }

    method CollectPositions(given: seq<NodePosition>) returns (positions: map<string, Position>)
      ensures positions == PositionsOf(given)
    {
      positions := map[];
      for i := 0 to |given|
        invariant positions == PositionsOf(given[..i])
      {
        assert given[..i + 1][..i] == given[..i];
        positions := positions[given[i].id := given[i].position];
      }
      assert given[..|given|] == given;
    }

    method UpsertAll(catalog: seq<CanvasNode>, positions: map<string, Position>) returns (r: Result<(), SaveError>)
      modifies this`nodes
      ensures var spec := UpsertNodes(old(nodes), catalog, positions);
        if spec.Ok? then r.Ok? && nodes == spec.value else r == Err(spec.error)
    {
      for i := 0 to |catalog|
        invariant UpsertNodes(old(nodes), catalog[..i], positions) == Ok(nodes)
      {
        assert catalog[..i + 1][..i] == catalog[..i];
        var row := UpsertNode(nodes, catalog[i], positions);
        if row.Err? {
          UpsertErrorPersists(old(nodes), catalog, i + 1, positions);
          return Err(row.error);
        }
        nodes := row.value;
      }
      assert catalog[..|catalog|] == catalog;
      r := Ok(());
    }

    method InsertAll(given: seq<CanvasEdge>) returns (ok: bool)
      requires edges == map[]
      modifies this`edges
      ensures ok == InsertEdges(given).Some? && (ok ==> edges == InsertEdges(given).value)
    {
      for i := 0 to |given|
        invariant InsertEdges(given[..i]) == Some(edges)
      {
        assert given[..i + 1][..i] == given[..i];
        if !EdgeFits(edges, given[i]) {
          InsertErrorPersists(given, i + 1);
          return false;
        }
        edges := edges[given[i].id := RowOf(given[i])];
      }
      assert given[..|given|] == given;
      ok := true;
    }
  }

  lemma {:induction false} UpsertErrorPersists(rows: map<string, NodeRow>, nodes: seq<CanvasNode>, k: nat, positions: map<string, Position>)
    requires k <= |nodes| && UpsertNodes(rows, nodes[..k], positions).Err?
    ensures UpsertNodes(rows, nodes, positions) == UpsertNodes(rows, nodes[..k], positions)
    decreases |nodes|
  {
    if k < |nodes| {
      assert nodes[..|nodes| - 1][..k] == nodes[..k];
      UpsertErrorPersists(rows, nodes[..|nodes| - 1], k, positions);
    } else {
      assert nodes[..k] == nodes;
    }
  }

  lemma {:induction false} InsertErrorPersists(edges: seq<CanvasEdge>, k: nat)
    requires k <= |edges| && InsertEdges(edges[..k]).None?
    ensures InsertEdges(edges).None?
    decreases |edges|
  {
    if k < |edges| {
      assert edges[..|edges| - 1][..k] == edges[..k];
      InsertErrorPersists(edges[..|edges| - 1], k);
    } else {
      assert edges[..k] == edges;
    }
  }

  // ---- what a save leaves ----

  // The table holds exactly the given edges.
  ghost predicate Holds(rows: map<string, EdgeRow>, edges: seq<CanvasEdge>) {
    && (forall i :: 0 <= i < |edges| ==> edges[i].id in rows && rows[edges[i].id] == RowOf(edges[i]))
    && (forall id :: id in rows ==> exists i :: 0 <= i < |edges| && edges[i].id == id)
  }

  // Ids and end points are distinct, and the kinds can be stored.
  ghost predicate Storable(edges: seq<CanvasEdge>) {
    && (forall i :: 0 <= i < |edges| ==> edges[i].kind.SourceToFilter? || edges[i].kind.FilterToTarget?)
    && (forall i, j :: 0 <= i < j < |edges| ==>
          edges[i].id != edges[j].id && (edges[i].source != edges[j].source || edges[i].target != edges[j].target))
  }

  lemma {:induction false} InsertedRows(edges: seq<CanvasEdge>)
    ensures InsertEdges(edges).Some? ==> Holds(InsertEdges(edges).value, edges)
  {
    if edges != [] && InsertEdges(edges).Some? {
      var front, e := edges[..|edges| - 1], edges[|edges| - 1];
      InsertedRows(front);
      HoldsOneMore(InsertEdges(front).value, front, e);
      assert edges == front + [e];
    }
  }

  lemma HoldsOneMore(rows: map<string, EdgeRow>, edges: seq<CanvasEdge>, e: CanvasEdge)
    requires Holds(rows, edges) && e.id !in rows
    ensures Holds(rows[e.id := RowOf(e)], edges + [e])
  {
    var more := edges + [e];
    var grown := rows[e.id := RowOf(e)];
    forall id | id in grown ensures exists i :: 0 <= i < |more| && more[i].id == id {
      if id == e.id {
        assert more[|edges|].id == id;
      } else {
        var i :| 0 <= i < |edges| && edges[i].id == id;
        assert more[i].id == id;
      }
    }
  }

  lemma FitsWhenHeld(rows: map<string, EdgeRow>, edges: seq<CanvasEdge>, e: CanvasEdge)
    requires Holds(rows, edges)
    ensures EdgeFits(rows, e) <==>
      && (e.kind.SourceToFilter? || e.kind.FilterToTarget?)
      && forall i :: 0 <= i < |edges| ==> edges[i].id != e.id && (edges[i].source != e.source || edges[i].target != e.target)
  {
    if e.id in rows {
      var i :| 0 <= i < |edges| && edges[i].id == e.id;
    }
    if other :| other in rows && rows[other].source == e.source && rows[other].target == e.target {
      var i :| 0 <= i < |edges| && edges[i].id == other;
      assert rows[edges[i].id] == RowOf(edges[i]);
    }
  }

  // Inserting succeeds exactly when the edges are storable.
  lemma {:induction false} InsertSucceedsIff(edges: seq<CanvasEdge>)
    ensures InsertEdges(edges).Some? <==> Storable(edges)
  {
    if edges != [] {
      var front, e := edges[..|edges| - 1], edges[|edges| - 1];
      InsertSucceedsIff(front);
      InsertedRows(front);
      assert forall i :: 0 <= i < |front| ==> front[i] == edges[i];
      StorableOneMore(edges);
      if InsertEdges(front).Some? {
        FitsWhenHeld(InsertEdges(front).value, front, e);
      }
    }
  }

  lemma StorableOneMore(edges: seq<CanvasEdge>)
    requires edges != []
    ensures var front, e := edges[..|edges| - 1], edges[|edges| - 1];
      Storable(edges) <==>
        && Storable(front)
        && (e.kind.SourceToFilter? || e.kind.FilterToTarget?)
        && forall i :: 0 <= i < |front| ==> front[i].id != e.id && (front[i].source != e.source || front[i].target != e.target)
  {
    assert forall i :: 0 <= i < |edges| - 1 ==> edges[..|edges| - 1][i] == edges[i];
  }

  lemma HeldEdgesLoad(c: Canvas, edges: seq<CanvasEdge>)
    requires Holds(c.edges, edges)
    ensures forall e :: e in LoadedEdges(c) <==> e in edges
    ensures forall i, j :: 0 <= i < j < |LoadedEdges(c)| ==> Less(LoadedEdges(c)[i].id, LoadedEdges(c)[j].id)
  {
    var loaded, ids := LoadedEdges(c), SortedKeys(c.edges.Keys);
    forall e | e in edges ensures e in loaded {
      var i :| 0 <= i < |edges| && edges[i] == e;
      assert e.id in ids;
      var k :| 0 <= k < |ids| && ids[k] == e.id;
      assert loaded[k] == e;
    }
    forall k | 0 <= k < |loaded| ensures loaded[k] in edges {
      assert ids[k] in ids;
      var i :| 0 <= i < |edges| && edges[i].id == ids[k];
      assert loaded[k] == edges[i];
    }
  }

  // ---- the node rows ----

  // The last of the request's positions for a node.
  ghost predicate LastPosition(positions: seq<NodePosition>, id: string, at: Position) {
    exists i :: 0 <= i < |positions| && positions[i] == NodePosition(id, at) && forall j :: i < j < |positions| ==> positions[j].id != id
  }

  ghost predicate NoPosition(positions: seq<NodePosition>, id: string) {
    forall i :: 0 <= i < |positions| ==> positions[i].id != id
  }

  lemma {:induction false} PositionsSay(positions: seq<NodePosition>, id: string)
    ensures id in PositionsOf(positions) <==> !NoPosition(positions, id)
    ensures id in PositionsOf(positions) ==> LastPosition(positions, id, PositionsOf(positions)[id])
  {
    if positions != [] {
      var n := |positions| - 1;
      var front := positions[..n];
      PositionsSay(front, id);
      if positions[n].id == id {
        assert positions[n] == NodePosition(id, positions[n].position);
      } else if id in PositionsOf(front) {
        var i :| 0 <= i < n && front[i] == NodePosition(id, PositionsOf(front)[id]) && forall j :: i < j < n ==> front[j].id != id;
        assert positions[i] == front[i];
        assert forall j :: i < j < n ==> positions[j] == front[j];
      }
      assert forall i :: 0 <= i < n ==> positions[i] == front[i];
    }
  }

  // What a node's row is to say: its kind, what it stands for, and where it was put.
  ghost predicate RowSays(row: NodeRow, node: CanvasNode, positions: seq<NodePosition>) {
    && row.kind == node.kind
    && (match node.data
        case SourceData(deviceId, _) => row.resource == deviceId
        case FilterData(flowId, _, _) => row.resource == flowId
        case TargetData(proxyName, _, _) => row.resource == proxyName
        case OtherData => false)
    && (LastPosition(positions, node.id, row.position) ||
        (NoPosition(positions, node.id) &&
         match node.kind
         case SourceKind => row.position == Position(80, 180)
         case FilterKind => row.position == Position(460, 180)
         case TargetKind => row.position == Position(840, 180)
         case OtherKind => false))
  }

  lemma UpsertedRowSays(rows: map<string, NodeRow>, node: CanvasNode, positions: seq<NodePosition>)
    requires UpsertNode(rows, node, PositionsOf(positions)).Ok?
    ensures var after := UpsertNode(rows, node, PositionsOf(positions)).value;
      node.id in after && RowSays(after[node.id], node, positions) && after == rows[node.id := after[node.id]]
  {
    PositionsSay(positions, node.id);
  }

  // After the upserts every node of the catalog has such a row; the rows of other nodes are
  // as they were.
  lemma {:induction false} UpsertedRows(rows: map<string, NodeRow>, nodes: seq<CanvasNode>, positions: seq<NodePosition>)
    requires UpsertNodes(rows, nodes, PositionsOf(positions)).Ok?
    ensures var after := UpsertNodes(rows, nodes, PositionsOf(positions)).value;
      && (forall id :: id in CatalogOf(nodes) ==> id in after && RowSays(after[id], CatalogOf(nodes)[id], positions))
      && (forall id :: id !in CatalogOf(nodes) ==> (id in after <==> id in rows) && (id in rows ==> after[id] == rows[id]))
  {
    if nodes != [] {
      var front, node := nodes[..|nodes| - 1], nodes[|nodes| - 1];
      UpsertedRows(rows, front, positions);
      var before := UpsertNodes(rows, front, PositionsOf(positions)).value;
      UpsertedRowSays(before, node, positions);
      CatalogMembers(front);
    }
  }

  // A commit gives every node of the catalog its row, with the last position the request
  // gives it or else its kind's default, and leaves the rows of other nodes alone.
  lemma SavedNodes(c: Canvas, expected: int, nodes: seq<CanvasNode>, request: SaveRequest, t: Trouble)
    requires Commits(c, expected, nodes, request, t)
    ensures var after := Save(c, expected, nodes, request, t).0.nodes;
      && (forall id :: id in CatalogOf(nodes) ==> id in after && RowSays(after[id], CatalogOf(nodes)[id], request.positions))
      && (forall id :: id !in CatalogOf(nodes) ==> (id in after <==> id in c.nodes) && (id in c.nodes ==> after[id] == c.nodes[id]))
  {
    UpsertedRows(c.nodes, nodes, request.positions);
  }

  // Whether the upserts succeed: every node is of a known kind with known data, and when
  // its turn comes no other row has its kind and resource.
  ghost predicate Upsertable(rows: map<string, NodeRow>, nodes: seq<CanvasNode>) {
    forall k :: 0 <= k < |nodes| ==> TurnFits(rows, nodes, k)
  }

  ghost predicate TurnFits(rows: map<string, NodeRow>, nodes: seq<CanvasNode>, k: nat)
    requires k < |nodes|
  {
    && !nodes[k].kind.OtherKind? && !nodes[k].data.OtherData?
    && forall other :: other != nodes[k].id ==> !InForce(rows, nodes, k, other, nodes[k].kind, nodes[k].data)
  }

  // After k upserts a node's row has that kind and resource: from its last upsert, or from
  // the rows there were.
  ghost predicate InForce(rows: map<string, NodeRow>, nodes: seq<CanvasNode>, k: nat, id: string, kind: NodeKind, data: NodeData)
    requires k <= |nodes|
  {
    || (exists j :: 0 <= j < k && nodes[j].id == id && nodes[j].kind == kind && SameResource(nodes[j].data, data)
          && forall l :: j < l < k ==> nodes[l].id != id)
    || ((forall j :: 0 <= j < k ==> nodes[j].id != id) && id in rows && rows[id].kind == kind && Resource(data) == Some(rows[id].resource))
  }

  function Resource(data: NodeData): Option<string> {
    match data
    case SourceData(deviceId, _) => Some(deviceId)
    case FilterData(flowId, _, _) => Some(flowId)
    case TargetData(proxyName, _, _) => Some(proxyName)
    case OtherData => None
  }

  predicate SameResource(a: NodeData, b: NodeData) {
    Resource(a) == Resource(b)
  }

  lemma InForceIff(rows: map<string, NodeRow>, nodes: seq<CanvasNode>, positions: seq<NodePosition>, id: string, kind: NodeKind, data: NodeData)
    requires UpsertNodes(rows, nodes, PositionsOf(positions)).Ok?
    ensures var after := UpsertNodes(rows, nodes, PositionsOf(positions)).value;
      InForce(rows, nodes, |nodes|, id, kind, data) <==>
        id in after && after[id].kind == kind && Resource(data) == Some(after[id].resource)
  {
    UpsertedRows(rows, nodes, positions);
    if id in CatalogOf(nodes) {
      var i := CatalogHoldsLast(nodes, id);
      LastInForce(rows, nodes, i, id, kind, data);
      RowSaysResource(UpsertNodes(rows, nodes, PositionsOf(positions)).value[id], nodes[i], positions);
    } else {
      CatalogMisses(nodes, id);
    }
  }

  lemma LastInForce(rows: map<string, NodeRow>, nodes: seq<CanvasNode>, i: nat, id: string, kind: NodeKind, data: NodeData)
    requires i < |nodes| && nodes[i].id == id && forall j :: i < j < |nodes| ==> nodes[j].id != id
    ensures InForce(rows, nodes, |nodes|, id, kind, data) <==> nodes[i].kind == kind && SameResource(nodes[i].data, data)
  {
  }

  lemma RowSaysResource(row: NodeRow, node: CanvasNode, positions: seq<NodePosition>)
    requires RowSays(row, node, positions)
    ensures row.kind == node.kind && Resource(node.data) == Some(row.resource)
  {
  }

  lemma CatalogMisses(nodes: seq<CanvasNode>, id: string)
    requires id !in CatalogOf(nodes)
    ensures forall j :: 0 <= j < |nodes| ==> nodes[j].id != id
  {
    CatalogMembers(nodes);
    assert forall j :: 0 <= j < |nodes| ==> nodes[j] in nodes;
  }

  lemma PrefixInForce(rows: map<string, NodeRow>, nodes: seq<CanvasNode>, k: nat, id: string, kind: NodeKind, data: NodeData)
    requires k < |nodes|
    ensures InForce(rows, nodes[..|nodes| - 1], k, id, kind, data) <==> InForce(rows, nodes, k, id, kind, data)
  {
    var front := nodes[..|nodes| - 1];
    assert forall j :: 0 <= j < k ==> front[j] == nodes[j];
  }

  lemma OneUpsertIff(rows: map<string, NodeRow>, node: CanvasNode, positions: map<string, Position>)
    ensures UpsertNode(rows, node, positions).Ok? <==>
      && !node.kind.OtherKind? && !node.data.OtherData?
      && forall other :: other in rows && other != node.id ==> rows[other].kind != node.kind || Resource(node.data) != Some(rows[other].resource)
  {
  }

  // The upserts succeed if and only if every kind and resource is known and each pair of
  // them stays unique at every turn.
  lemma {:induction false} UpsertSucceedsIff(rows: map<string, NodeRow>, nodes: seq<CanvasNode>, positions: seq<NodePosition>)
    ensures UpsertNodes(rows, nodes, PositionsOf(positions)).Ok? <==> Upsertable(rows, nodes)
  {
    if nodes != [] {
      var n := |nodes| - 1;
      var front, node := nodes[..n], nodes[n];
      UpsertSucceedsIff(rows, front, positions);
      forall k | 0 <= k < n ensures TurnFits(rows, front, k) <==> TurnFits(rows, nodes, k) {
        TurnFitsPrefix(rows, nodes, k);
      }
      if UpsertNodes(rows, front, PositionsOf(positions)).Ok? {
        LastTurn(rows, nodes, positions);
      }
    }
  }

  lemma TurnFitsPrefix(rows: map<string, NodeRow>, nodes: seq<CanvasNode>, k: nat)
    requires k < |nodes| - 1
    ensures TurnFits(rows, nodes[..|nodes| - 1], k) <==> TurnFits(rows, nodes, k)
  {
    var front := nodes[..|nodes| - 1];
    forall other ensures InForce(rows, front, k, other, nodes[k].kind, nodes[k].data) <==> InForce(rows, nodes, k, other, nodes[k].kind, nodes[k].data) {
      PrefixInForce(rows, nodes, k, other, nodes[k].kind, nodes[k].data);
    }
  }

  lemma LastTurn(rows: map<string, NodeRow>, nodes: seq<CanvasNode>, positions: seq<NodePosition>)
    requires nodes != [] && UpsertNodes(rows, nodes[..|nodes| - 1], PositionsOf(positions)).Ok?
    ensures UpsertNodes(rows, nodes, PositionsOf(positions)).Ok? <==> TurnFits(rows, nodes, |nodes| - 1)
  {
    var n := |nodes| - 1;
    var front, node := nodes[..n], nodes[n];
    var before := UpsertNodes(rows, front, PositionsOf(positions)).value;
    OneUpsertIff(before, node, PositionsOf(positions));
    forall other
      ensures InForce(rows, nodes, n, other, node.kind, node.data) <==>
        other in before && before[other].kind == node.kind && Resource(node.data) == Some(before[other].resource)
    {
      InForceIff(rows, front, positions, other, node.kind, node.data);
      WholeInForce(rows, nodes, other, node.kind, node.data);
    }
  }

  lemma WholeInForce(rows: map<string, NodeRow>, nodes: seq<CanvasNode>, id: string, kind: NodeKind, data: NodeData)
    requires nodes != []
    ensures InForce(rows, nodes[..|nodes| - 1], |nodes| - 1, id, kind, data) <==> InForce(rows, nodes, |nodes| - 1, id, kind, data)
  {
    var front := nodes[..|nodes| - 1];
    assert forall j :: 0 <= j < |nodes| - 1 ==> front[j] == nodes[j];
  }

  // A request is known if every node it names is one of the catalog's.
  lemma KnownSays(nodes: seq<CanvasNode>, request: SaveRequest)
    ensures KnownNodes(CatalogOf(nodes), request) <==>
      && (forall i :: 0 <= i < |request.positions| ==> HasNode(nodes, request.positions[i].id))
      && (forall i :: 0 <= i < |request.edges| ==> HasNode(nodes, request.edges[i].source) && HasNode(nodes, request.edges[i].target))
  {
    CatalogMembers(nodes);
    forall id ensures HasNode(nodes, id) <==> id in CatalogOf(nodes) {
      if HasNode(nodes, id) {
        var i :| 0 <= i < |nodes| && nodes[i].id == id;
        assert nodes[i] in nodes;
      } else if id in CatalogOf(nodes) {
        var i := CatalogHoldsLast(nodes, id);
      }
    }
  }

  ghost predicate HasNode(nodes: seq<CanvasNode>, id: string) {
    exists i :: 0 <= i < |nodes| && nodes[i].id == id
  }

  // When a save commits, and which error is returned otherwise.
  lemma SaveSays(c: Canvas, expected: int, nodes: seq<CanvasNode>, request: SaveRequest, t: Trouble)
    ensures Commits(c, expected, nodes, request, t) <==>
      && KnownNodes(CatalogOf(nodes), request) && c.revision == expected
      && Upsertable(c.nodes, nodes) && Storable(request.edges) && (t.NoTrouble? || t.AfterCommit?)
    ensures var r := Save(c, expected, nodes, request, t).1;
      && (r == Err(UnknownNode) <==> !KnownNodes(CatalogOf(nodes), request))
      && (r == Err(RevisionConflict(expected, c.revision)) <==>
            KnownNodes(CatalogOf(nodes), request) && !t.BeforeRead? && expected != c.revision)
      && (r.Ok? <==> Commits(c, expected, nodes, request, t) && t.NoTrouble?)
  {
    UpsertSucceedsIff(c.nodes, nodes, request.positions);
    InsertSucceedsIff(request.edges);
    UpsertNeverConflicts(c.nodes, nodes, PositionsOf(request.positions));
  }

  // After a commit the loaded edges are exactly the request's, in order of id.
  lemma SavedEdgesLoad(c: Canvas, expected: int, nodes: seq<CanvasNode>, request: SaveRequest, t: Trouble)
    requires Commits(c, expected, nodes, request, t)
    ensures var loaded := LoadedEdges(Save(c, expected, nodes, request, t).0);
      && (forall e :: e in loaded <==> e in request.edges)
      && (forall i, j :: 0 <= i < j < |loaded| ==> Less(loaded[i].id, loaded[j].id))
  {
    InsertedRows(request.edges);
    HeldEdgesLoad(Save(c, expected, nodes, request, t).0, request.edges);
  }

  // The canvas changes if and only if the transaction commits, and then the revision
  // advances by one. A success was committed; an error was too if and only if the load
  // after the commit failed.
  lemma ChangedIffCommitted(c: Canvas, expected: int, nodes: seq<CanvasNode>, request: SaveRequest, t: Trouble)
    ensures var (c', r) := Save(c, expected, nodes, request, t);
      && (c' != c <==> Commits(c, expected, nodes, request, t))
      && (Commits(c, expected, nodes, request, t) ==> c'.revision == c.revision + 1)
      && (r.Ok? <==> Commits(c, expected, nodes, request, t) && !t.AfterCommit?)
      && (r.Err? && c' != c <==> Commits(c, expected, nodes, request, t) && t.AfterCommit?)
  {
  }

  // For any save that would succeed there is that error with the effect in place.
  lemma FailedLoadHidesSave(c: Canvas, expected: int, nodes: seq<CanvasNode>, request: SaveRequest)
    requires Save(c, expected, nodes, request, NoTrouble).1.Ok?
    ensures var (c', r) := Save(c, expected, nodes, request, AfterCommit);
      r.Err? && c' == Save(c, expected, nodes, request, NoTrouble).0 != c
  {
  }

  // A known request for any other revision than the current is a conflict, and only that is.
  lemma ConflictIff(c: Canvas, expected: int, nodes: seq<CanvasNode>, request: SaveRequest, t: Trouble)
    ensures Save(c, expected, nodes, request, t).1 == Err(RevisionConflict(expected, c.revision)) <==>
      KnownNodes(CatalogOf(nodes), request) && !t.BeforeRead? && expected != c.revision
    ensures forall e, n :: Save(c, expected, nodes, request, t).1 == Err(RevisionConflict(e, n)) ==> e == expected && n == c.revision
  {
    UpsertNeverConflicts(c.nodes, nodes, PositionsOf(request.positions));
  }

  lemma {:induction false} UpsertNeverConflicts(rows: map<string, NodeRow>, nodes: seq<CanvasNode>, positions: map<string, Position>)
    ensures var r := UpsertNodes(rows, nodes, positions); r.Err? ==> r.error in {UnsupportedData, NodeConstraint}
  {
    if nodes != [] {
      UpsertNeverConflicts(rows, nodes[..|nodes| - 1], positions);
    }
  }

  // ---- every interleaving of saves ----

  datatype SaveCall = SaveCall(expected: int, nodes: seq<CanvasNode>, request: SaveRequest, trouble: Trouble)

  function Run(c: Canvas, calls: seq<SaveCall>): Canvas {
    if calls == [] then c
    else
      var last := calls[|calls| - 1];
      Save(Run(c, calls[..|calls| - 1]), last.expected, last.nodes, last.request, last.trouble).0
  }

  // Call k of the run commits.
  predicate Wins(c: Canvas, calls: seq<SaveCall>, k: nat)
    requires k < |calls|
  {
    Commits(Run(c, calls[..k]), calls[k].expected, calls[k].nodes, calls[k].request, calls[k].trouble)
  }

  // What call k of the run is told.
  predicate ToldOk(c: Canvas, calls: seq<SaveCall>, k: nat)
    requires k < |calls|
  {
    Save(Run(c, calls[..k]), calls[k].expected, calls[k].nodes, calls[k].request, calls[k].trouble).1.Ok?
  }

  function Winners(c: Canvas, calls: seq<SaveCall>): nat {
    if calls == [] then 0
    else Winners(c, calls[..|calls| - 1]) + if Wins(c, calls, |calls| - 1) then 1 else 0
  }

  lemma LastCall(c: Canvas, calls: seq<SaveCall>)
    requires calls != []
    ensures var before, after := Run(c, calls[..|calls| - 1]), Run(c, calls);
      if Wins(c, calls, |calls| - 1)
      then calls[|calls| - 1].expected == before.revision && after.revision == before.revision + 1
      else after == before
  {
    var last := calls[|calls| - 1];
    ChangedIffCommitted(Run(c, calls[..|calls| - 1]), last.expected, last.nodes, last.request, last.trouble);
  }

  // The revision counts the commits.
  lemma {:induction false} RevisionCountsWinners(c: Canvas, calls: seq<SaveCall>)
    ensures Run(c, calls).revision == c.revision + Winners(c, calls)
  {
    if calls != [] {
      RevisionCountsWinners(c, calls[..|calls| - 1]);
      LastCall(c, calls);
    }
  }

  lemma {:induction false} RevisionGrows(c: Canvas, calls: seq<SaveCall>, k: nat)
    requires k <= |calls|
    ensures Run(c, calls[..k]).revision <= Run(c, calls).revision
    decreases |calls|
  {
    if k == |calls| {
      assert calls[..k] == calls;
    } else {
      RevisionGrows(c, calls[..|calls| - 1], k);
      LastCall(c, calls);
      assert calls[..|calls| - 1][..k] == calls[..k];
    }
  }

  // A call that does not commit changes nothing; one that does was asked for the current
  // revision and advances it by one. Who is told of success committed, and who committed
  // is told of success unless the load failed.
  lemma EachCall(c: Canvas, calls: seq<SaveCall>, k: nat)
    requires k < |calls|
    ensures var before, after := Run(c, calls[..k]), Run(c, calls[..k + 1]);
      if Wins(c, calls, k) then calls[k].expected == before.revision && after.revision == before.revision + 1 else after == before
    ensures ToldOk(c, calls, k) <==> Wins(c, calls, k) && !calls[k].trouble.AfterCommit?
  {
    assert calls[..k + 1][..k] == calls[..k];
    LastCall(c, calls[..k + 1]);
    ChangedIffCommitted(Run(c, calls[..k]), calls[k].expected, calls[k].nodes, calls[k].request, calls[k].trouble);
  }

  // No two commits expected the same revision.
  lemma RevisionWonOnce(c: Canvas, calls: seq<SaveCall>, i: nat, j: nat)
    requires i < j < |calls| && Wins(c, calls, i) && Wins(c, calls, j)
    ensures calls[i].expected < calls[j].expected
  {
    EachCall(c, calls, i);
    EachCall(c, calls, j);
    assert calls[..j][..i + 1] == calls[..i + 1];
    RevisionGrows(c, calls[..j], i + 1);
  }

  // Calls that do not commit leave the canvas as it was.
  lemma {:induction false} LosersChangeNothing(c: Canvas, calls: seq<SaveCall>, k: nat)
    requires k <= |calls| && forall j :: k <= j < |calls| ==> !Wins(c, calls, j)
    ensures Run(c, calls) == Run(c, calls[..k])
    decreases |calls|
  {
    if k == |calls| {
      assert calls[..k] == calls;
    } else {
      var front := calls[..|calls| - 1];
      forall j | k <= j < |front| ensures !Wins(c, front, j) {
        assert front[..j] == calls[..j];
        assert !Wins(c, calls, j);
      }
      LosersChangeNothing(c, front, k);
      assert front[..k] == calls[..k];
      assert !Wins(c, calls, |calls| - 1);
      LastCall(c, calls);
    }
  }

  // After any run the loaded edges are those of the latest commit, in order of id.
  lemma LatestWinnerLoads(c: Canvas, calls: seq<SaveCall>, k: nat)
    requires k < |calls| && Wins(c, calls, k)
    requires forall j :: k < j < |calls| ==> !Wins(c, calls, j)
    ensures var loaded := LoadedEdges(Run(c, calls));
      && (forall e :: e in loaded <==> e in calls[k].request.edges)
      && (forall i, j :: 0 <= i < j < |loaded| ==> Less(loaded[i].id, loaded[j].id))
  {
    LosersChangeNothing(c, calls, k + 1);
    assert calls[..k + 1][..k] == calls[..k];
    SavedEdgesLoad(Run(c, calls[..k]), calls[k].expected, calls[k].nodes, calls[k].request, calls[k].trouble);
  }
}
