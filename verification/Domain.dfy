// The canvas: nodes, edges and the compiled preview.
module Domain {
  datatype NodeKind = SourceKind | FilterKind | TargetKind | OtherKind

  datatype MatchKind = MatchDomain | MatchSuffix | MatchKeyword | OtherMatch

  datatype MatchSpec = MatchSpec(kind: MatchKind, value: string)

  datatype NodeData =
    | SourceData(deviceId: string, ip: string)
    | FilterData(flowId: string, deviceId: string, match_: MatchSpec)
    | TargetData(proxyName: string, alive: bool, inactive: bool)
    | OtherData

  datatype Position = Position(x: int, y: int)

  datatype CanvasNode = CanvasNode(id: string, kind: NodeKind, data: NodeData)

  datatype EdgeKind = SourceToFilter | FilterToTarget | NoEdgeKind | OtherEdgeKind

  datatype CanvasEdge = CanvasEdge(id: string, source: string, target: string, kind: EdgeKind)

  datatype Snapshot = Snapshot(canvasId: string, revision: int, nodes: seq<CanvasNode>, edges: seq<CanvasEdge>)

  datatype Provider = Provider(name: string, targetName: string, payload: seq<string>)

  datatype Preview = Preview(
    canvasId: string,
    revision: int,
    providers: seq<Provider>,
    rules: seq<string>,
    managedYaml: string,
    contentHash: string,
    warnings: seq<string>)

  type Catalog = map<string, CanvasNode>

  // Nodes by id; a later node with the same id replaces an earlier one.
  function CatalogOf(nodes: seq<CanvasNode>): Catalog {
    if nodes == [] then map[]
    else CatalogOf(nodes[..|nodes| - 1])[nodes[|nodes| - 1].id := nodes[|nodes| - 1]]
  }

  lemma {:induction false} CatalogMembers(nodes: seq<CanvasNode>)
    ensures forall id :: id in CatalogOf(nodes) ==> CatalogOf(nodes)[id].id == id && CatalogOf(nodes)[id] in nodes
    ensures forall n :: n in nodes ==> n.id in CatalogOf(nodes)
  {
    if nodes != [] {
      CatalogMembers(nodes[..|nodes| - 1]);
      assert nodes == nodes[..|nodes| - 1] + [nodes[|nodes| - 1]];
    }
  }

  // The last node with an id is the one in the catalog.
  lemma {:induction false} CatalogHoldsLast(nodes: seq<CanvasNode>, id: string) returns (i: nat)
    requires id in CatalogOf(nodes)
    ensures i < |nodes| && nodes[i].id == id && CatalogOf(nodes)[id] == nodes[i]
    ensures forall j :: i < j < |nodes| ==> nodes[j].id != id
  {
    var n := |nodes| - 1;
    if nodes[n].id == id {
      i := n;
    } else {
      i := CatalogHoldsLast(nodes[..n], id);
    }
  }

  ghost predicate DistinctNodeIds(nodes: seq<CanvasNode>) {
    forall i, j :: 0 <= i < j < |nodes| ==> nodes[i].id != nodes[j].id
  }

  // With distinct ids the catalog does not depend on the order of the nodes.
  lemma CatalogIgnoresOrder(nodes: seq<CanvasNode>, other: seq<CanvasNode>)
    requires DistinctNodeIds(nodes)
    requires forall n :: n in nodes <==> n in other
    ensures CatalogOf(nodes) == CatalogOf(other)
  {
    var a, b := CatalogOf(nodes), CatalogOf(other);
    CatalogMembers(nodes);
    CatalogMembers(other);
    forall id | id in a ensures id in b && b[id] == a[id] {
      assert a[id] in nodes && a[id] in other && b[id] in nodes;
    }
    forall id | id in b ensures id in a {
      assert b[id] in other && b[id] in nodes;
    }
  }
}
