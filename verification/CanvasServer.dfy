// The handlers that save and load the canvas: what they check, in which order, and what
// a saved graph is worth to the compiler.
module CanvasServer {
  import opened Wrappers
  import opened Text
  import opened Decimal
  import opened Library
  import opened Domain
  import opened Compiler
  import opened ETags
  import opened GraphValidator
  import opened CanvasStore
  import opened ApplyProtocol
  import opened ApplyService

  // tag is the value of the ETag header.
  datatype SaveReply =
    | InvalidIfMatch
    | InvalidRequest
    | DiscoveryUnavailable
    | GraphRefused(graphError: GraphError)
    | Conflict(actual: int)
    | NodeUnknown
    | SaveFailed
    | Saved(tag: string, revision: nat)

  function ReplyTo(r: Result<(), SaveError>, revision: nat): SaveReply {
    match r
    case Ok(_) => Saved(Quoted(ETag(revision)), revision)
    case Err(RevisionConflict(_, actual)) => Conflict(actual)
    case Err(UnknownNode) => NodeUnknown
    case Err(_) => SaveFailed
  }

  // One save request against the stored canvas: what it stores, and the reply. A body that
  // does not decode and a catalog that cannot be read are None. others are the saves of
  // other sessions between the commit and the load the reply is made from.
  function Handle(c: Canvas, ifMatch: string, body: Option<SaveRequest>, nodes: Option<seq<CanvasNode>>, t: Trouble,
                  others: seq<SaveCall>): (Canvas, SaveReply)
  {
    var expected := ParseExpectedRevision(ifMatch);
    if expected.None? then (c, InvalidIfMatch)
    else if body.None? then (c, InvalidRequest)
    else if nodes.None? then (c, DiscoveryUnavailable)
    else Checked(c, expected.value, body.value, nodes.value, t, others)
  }

  // The graph is checked before the revision is.
  function Checked(c: Canvas, expected: nat, body: SaveRequest, nodes: seq<CanvasNode>, t: Trouble, others: seq<SaveCall>)
    : (Canvas, SaveReply)
  {
    var error := FirstError(CatalogOf(nodes), body.edges);
    if error.Some? then (c, GraphRefused(error.value))
    else
      var (c', r) := Save(c, expected, nodes, Filled(nodes, body), t);
      (c', ReplyTo(r, CanvasStore.Run(c', others).revision))
  }

  // The request with its edge kinds filled in.
  function Filled(nodes: seq<CanvasNode>, body: SaveRequest): SaveRequest {
    body.(edges := CanonicalAll(CatalogOf(nodes), body.edges))
  }

  method HandleSaveGraph(store: Store, ifMatch: string, body: Option<SaveRequest>, nodes: Option<seq<CanvasNode>>, t: Trouble,
                         others: seq<SaveCall>)
    returns (reply: SaveReply)
    modifies store
    ensures var (stored, answer) := Handle(old(store.Stored()), ifMatch, body, nodes, t, others);
      reply == answer && store.Stored() == if reply.Saved? then CanvasStore.Run(stored, others) else stored
  {
    var expected := ParseExpectedRevision(ifMatch);
    if expected.None? {
      return InvalidIfMatch;
    }
    if body.None? {
      return InvalidRequest;
    }
    if nodes.None? {
      return DiscoveryUnavailable;
    }
    var canonical := CanonicalizeEdgeKinds(nodes.value, body.value.edges);
    NoErrorIffAccepts(CatalogOf(nodes.value), body.value.edges);
    if canonical.Err? {
      return GraphRefused(canonical.error);
    }
    var r := store.SaveDefaultGraph(expected.value, nodes.value, body.value.(edges := canonical.value), t);
    RepliesDiffer(r, 0);
    if r.Ok? {
      store.SaveAll(others);
    }
    reply := ReplyTo(r, store.revision);
  }

  lemma RepliesDiffer(r: Result<(), SaveError>, revision: nat)
    ensures ReplyTo(r, revision).Saved? <==> r.Ok?
    ensures ReplyTo(r, revision).Saved? ==> ReplyTo(r, revision) == Saved(Quoted(ETag(revision)), revision)
    ensures forall n :: ReplyTo(r, revision) == Conflict(n) <==> r.Err? && r.error.RevisionConflict? && r.error.actual == n
  {
  }

  // The request as the handler passes it on takes effect.
  predicate RequestCommits(c: Canvas, ifMatch: string, body: Option<SaveRequest>, nodes: Option<seq<CanvasNode>>, t: Trouble) {
    && ParseExpectedRevision(ifMatch).Some? && body.Some? && nodes.Some?
    && FirstError(CatalogOf(nodes.value), body.value.edges).None?
    && Commits(c, ParseExpectedRevision(ifMatch).value, nodes.value, Filled(nodes.value, body.value), t)
  }

  // Exactly a request that commits changes the canvas, to the revision after the one it
  // was made for. It is answered with the tag of the revision then loaded, unless loading
  // failed: then the answer is a failure although the graph is stored.
  lemma OnlyCommitsChange(c: Canvas, ifMatch: string, body: Option<SaveRequest>, nodes: Option<seq<CanvasNode>>, t: Trouble,
                          others: seq<SaveCall>)
    ensures var (c', reply) := Handle(c, ifMatch, body, nodes, t, others);
      && (c' != c <==> RequestCommits(c, ifMatch, body, nodes, t))
      && (RequestCommits(c, ifMatch, body, nodes, t) ==>
            && ParseExpectedRevision(ifMatch) == Some(c.revision) && c'.revision == c.revision + 1
            && reply == if t.AfterCommit? then SaveFailed else SavedAt(CanvasStore.Run(c', others).revision))
      && (reply.Saved? ==> RequestCommits(c, ifMatch, body, nodes, t))
      && (!reply.Saved? && c' != c <==> RequestCommits(c, ifMatch, body, nodes, t) && t.AfterCommit?)
  {
    var expected := ParseExpectedRevision(ifMatch);
    if expected.Some? && body.Some? && nodes.Some? {
      CheckedSaves(c, expected.value, body.value, nodes.value, t, others);
    }
  }

  function SavedAt(revision: nat): SaveReply {
    Saved(Quoted(ETag(revision)), revision)
  }

  lemma CheckedSaves(c: Canvas, expected: nat, body: SaveRequest, nodes: seq<CanvasNode>, t: Trouble, others: seq<SaveCall>)
    ensures var commits := FirstError(CatalogOf(nodes), body.edges).None? && Commits(c, expected, nodes, Filled(nodes, body), t);
      var (c', reply) := Checked(c, expected, body, nodes, t, others);
      && (c' != c <==> commits)
      && (commits ==> expected == c.revision && c'.revision == c.revision + 1 && c' == Save(c, expected, nodes, Filled(nodes, body), t).0)
      && (commits ==> reply == if t.AfterCommit? then SaveFailed else SavedAt(CanvasStore.Run(c', others).revision))
      && (reply.Saved? ==> commits)
  {
    var c' := Save(c, expected, nodes, Filled(nodes, body), t).0;
    ChangedIffCommitted(c, expected, nodes, Filled(nodes, body), t);
    CommittedErrors(c, expected, nodes, Filled(nodes, body), t);
    RepliesDiffer(Save(c, expected, nodes, Filled(nodes, body), t).1, CanvasStore.Run(c', others).revision);
  }

  // ---- what each reply says about the request ----

  // Before the graph is looked at.
  lemma EarlyRepliesSay(c: Canvas, ifMatch: string, body: Option<SaveRequest>, nodes: Option<seq<CanvasNode>>, t: Trouble,
                        others: seq<SaveCall>)
    ensures var reply, named := Handle(c, ifMatch, body, nodes, t, others).1, ParseExpectedRevision(ifMatch).Some?;
      && (reply == InvalidIfMatch <==> !named)
      && (reply == InvalidRequest <==> named && body == None)
      && (reply == DiscoveryUnavailable <==> named && body != None && nodes == None)
      && forall error ::
           reply == GraphRefused(error) <==> named && body.Some? && nodes.Some? && FirstError(CatalogOf(nodes.value), body.value.edges) == Some(error)
  {
  }

  // Every position is given for a node of the catalog.
  ghost predicate PlacesKnown(nodes: seq<CanvasNode>, body: SaveRequest) {
    forall i :: 0 <= i < |body.positions| ==> body.positions[i].id in CatalogOf(nodes)
  }

  ghost predicate DistinctEdgeIds(edges: seq<CanvasEdge>) {
    forall i, j :: 0 <= i < j < |edges| ==> edges[i].id != edges[j].id
  }

  // Once the graph is accepted its edges can only be refused for a repeated id; what else
  // decides are the positions, the revision, the node rows and the database.
  lemma AcceptedRepliesSay(c: Canvas, expected: nat, body: SaveRequest, nodes: seq<CanvasNode>, t: Trouble, others: seq<SaveCall>)
    requires FirstError(CatalogOf(nodes), body.edges) == None
    ensures var reply, known := Checked(c, expected, body, nodes, t, others).1, PlacesKnown(nodes, body);
      && (reply == NodeUnknown <==> !known)
      && (reply == Conflict(c.revision) <==> known && t != BeforeRead && expected != c.revision)
      && (reply.Saved? <==>
            known && expected == c.revision && Upsertable(c.nodes, nodes) && DistinctEdgeIds(body.edges) && t == NoTrouble)
      && (reply == NodeUnknown || reply == Conflict(c.revision) || reply.Saved? || reply == SaveFailed)
  {
    NoErrorIffAccepts(CatalogOf(nodes), body.edges);
    AcceptedEdgesKnown(nodes, body);
    AcceptedEdgesStorable(nodes, body);
    SavedRepliesSay(c, expected, nodes, Filled(nodes, body), t, CanvasStore.Run(Save(c, expected, nodes, Filled(nodes, body), t).0, others).revision);
  }

  lemma SavedRepliesSay(c: Canvas, expected: nat, nodes: seq<CanvasNode>, request: SaveRequest, t: Trouble, revision: nat)
    ensures var reply, known := ReplyTo(Save(c, expected, nodes, request, t).1, revision), KnownNodes(CatalogOf(nodes), request);
      && (reply == NodeUnknown <==> !known)
      && (reply == Conflict(c.revision) <==> known && t != BeforeRead && expected != c.revision)
      && (reply.Saved? <==>
            known && expected == c.revision && Upsertable(c.nodes, nodes) && Storable(request.edges) && t == NoTrouble)
      && (reply == NodeUnknown || reply == Conflict(c.revision) || reply.Saved? || reply == SaveFailed)
  {
    SaveSays(c, expected, nodes, request, t);
    ConflictNamesRevision(c, expected, nodes, request, t);
    OnlyKnownReplies(Save(c, expected, nodes, request, t).1, revision);
  }

  lemma ConflictNamesRevision(c: Canvas, expected: nat, nodes: seq<CanvasNode>, request: SaveRequest, t: Trouble)
    ensures var r := Save(c, expected, nodes, request, t).1;
      r.Err? && r.error.RevisionConflict? ==> r == Err(RevisionConflict(expected, c.revision))
  {
    UpsertNeverConflicts(c.nodes, nodes, PositionsOf(request.positions));
  }

  lemma OnlyKnownReplies(r: Result<(), SaveError>, revision: nat)
    ensures var reply := ReplyTo(r, revision);
      && (reply.Saved? <==> r.Ok?)
      && (reply == NodeUnknown <==> r == Err(UnknownNode))
      && (forall actual :: reply == Conflict(actual) <==> r.Err? && r.error.RevisionConflict? && r.error.actual == actual)
      && (reply == NodeUnknown || reply.Conflict? || reply.Saved? || reply == SaveFailed)
  {
  }

  lemma AcceptedEdgesKnown(nodes: seq<CanvasNode>, body: SaveRequest)
    requires Accepts(CatalogOf(nodes), body.edges)
    ensures KnownNodes(CatalogOf(nodes), Filled(nodes, body)) <==> PlacesKnown(nodes, body)
  {
  }

  lemma AcceptedEdgesStorable(nodes: seq<CanvasNode>, body: SaveRequest)
    requires Accepts(CatalogOf(nodes), body.edges)
    ensures Storable(Filled(nodes, body).edges) <==> DistinctEdgeIds(body.edges)
  {
    forall i, j | 0 <= i < j < |body.edges|
      ensures body.edges[i].source != body.edges[j].source || body.edges[i].target != body.edges[j].target
    {
      assert EdgeKey(body.edges[i]) != EdgeKey(body.edges[j]);
    }
    var filled := Filled(nodes, body).edges;
    assert forall i :: 0 <= i < |filled| ==> filled[i].id == body.edges[i].id;
    assert Storable(filled) ==> forall i, j :: 0 <= i < j < |filled| ==> filled[i].id != filled[j].id;
  }

  // The tag of a reply names the revision the request made if and only if no other save
  // committed before the canvas was loaded; every one that did puts it one further.
  lemma ReplyNamesOwnRevisionIff(c: Canvas, ifMatch: string, body: Option<SaveRequest>, nodes: Option<seq<CanvasNode>>, t: Trouble,
                                 others: seq<SaveCall>)
    requires Handle(c, ifMatch, body, nodes, t, others).1.Saved?
    ensures var (c', reply) := Handle(c, ifMatch, body, nodes, t, others);
      && reply == SavedAt(c'.revision + Winners(c', others))
      && (reply == SavedAt(c'.revision) <==> Winners(c', others) == 0)
  {
    OnlyCommitsChange(c, ifMatch, body, nodes, t, others);
    RevisionCountsWinners(Handle(c, ifMatch, body, nodes, t, others).0, others);
  }

  // Any save for the new revision that commits in between is such a case: the reply then
  // carries the tag of a graph its client never sent.
  lemma ReplyNamesLaterRevision(c: Canvas, ifMatch: string, body: Option<SaveRequest>, nodes: Option<seq<CanvasNode>>, other: SaveCall)
    requires RequestCommits(c, ifMatch, body, nodes, NoTrouble)
    requires var c' := Handle(c, ifMatch, body, nodes, NoTrouble, []).0;
      Commits(c', other.expected, other.nodes, other.request, other.trouble)
    ensures Handle(c, ifMatch, body, nodes, NoTrouble, [other]).1 == SavedAt(c.revision + 2)
  {
    var c' := Handle(c, ifMatch, body, nodes, NoTrouble, []).0;
    OnlyCommitsChange(c, ifMatch, body, nodes, NoTrouble, [other]);
    assert c' == Handle(c, ifMatch, body, nodes, NoTrouble, [other]).0;
    OnlyCommitsChange(c, ifMatch, body, nodes, NoTrouble, []);
    OneCall(c', other);
  }

  lemma OneCall(c: Canvas, other: SaveCall)
    ensures Commits(c, other.expected, other.nodes, other.request, other.trouble) ==> CanvasStore.Run(c, [other]).revision == c.revision + 1
  {
    assert [other][..0] == [] && CanvasStore.Run(c, []) == c;
    EachCall(c, [other], 0);
    assert [other][..1] == [other];
  }

  lemma CommittedErrors(c: Canvas, expected: int, nodes: seq<CanvasNode>, request: SaveRequest, t: Trouble)
    ensures Commits(c, expected, nodes, request, t) ==>
      Save(c, expected, nodes, request, t).1 == if t.AfterCommit? then Err(DatabaseFailed) else Ok(())
  {
  }

  // The tag of a reply is accepted for the next save as long as no other save came in
  // between; any other tag is answered with a conflict that names the current revision, if
  // the database can be read at all.
  lemma TagDecides(c: Canvas, revision: nat, body: SaveRequest, nodes: seq<CanvasNode>, t: Trouble, others: seq<SaveCall>)
    requires revision <= MAX_INT64
    requires KnownNodes(CatalogOf(nodes), body) && Accepts(CatalogOf(nodes), body.edges)
    ensures Handle(c, Quoted(ETag(revision)), Some(body), Some(nodes), t, others).1 == Conflict(c.revision) <==>
      revision != c.revision && !t.BeforeRead?
  {
    QuotedTagRoundTrip(revision);
    NoErrorIffAccepts(CatalogOf(nodes), body.edges);
    CanonicalKnown(nodes, body);
    ConflictIff(c, revision, nodes, Filled(nodes, body), t);
    var saved := Save(c, revision, nodes, Filled(nodes, body), t);
    RepliesDiffer(saved.1, CanvasStore.Run(saved.0, others).revision);
  }

  lemma CanonicalKnown(nodes: seq<CanvasNode>, body: SaveRequest)
    requires KnownNodes(CatalogOf(nodes), body)
    ensures KnownNodes(CatalogOf(nodes), Filled(nodes, body))
  {
  }

  // The canvas the compiler is given: the current nodes and the loaded edges.
  ghost function SnapshotOf(c: Canvas, nodes: seq<CanvasNode>): Snapshot {
    Snapshot("default", c.revision, nodes, LoadedEdges(c))
  }

  // A stored graph, compiled over the nodes it was saved with, never fails for a missing
  // node, a wrong direction or a foreign filter, whatever the save was answered with.
  lemma SavedGraphSaysWhy(lib: Library, c: Canvas, ifMatch: string, body: SaveRequest, nodes: seq<CanvasNode>, t: Trouble,
                          others: seq<SaveCall>, code: Code)
    requires RequestCommits(c, ifMatch, Some(body), Some(nodes), t)
    requires Explains(lib, SnapshotOf(Handle(c, ifMatch, Some(body), Some(nodes), t, others).0, nodes), code)
    ensures code !in {NodeUnavailable, InvalidEdgeDirection, ForeignFilter}
  {
    var expected := ParseExpectedRevision(ifMatch).value;
    CheckedSaves(c, expected, body, nodes, t, others);
    NoErrorIffAccepts(CatalogOf(nodes), body.edges);
    CanonicalIsStable(CatalogOf(nodes), body.edges);
    SavedEdgesLoad(c, expected, nodes, Filled(nodes, body), t);
    AcceptedInAnyOrder(lib, nodes, SnapshotOf(Checked(c, expected, body, nodes, t, others).0, nodes), Filled(nodes, body).edges, code);
  }

  // What explains a failure depends on the set of edges only.
  lemma AcceptedInAnyOrder(lib: Library, nodes: seq<CanvasNode>, snapshot: Snapshot, edges: seq<CanvasEdge>, code: Code)
    requires Accepts(CatalogOf(nodes), edges) && snapshot.nodes == nodes
    requires forall e :: e in snapshot.edges <==> e in edges
    requires Explains(lib, snapshot, code)
    ensures code !in {NodeUnavailable, InvalidEdgeDirection, ForeignFilter}
  {
    var catalog := CatalogOf(nodes);
    AcceptedIsDirected(catalog, edges);
    assert EdgeSet(snapshot.edges) == EdgeSet(edges);
    var f :| FilterLine(lib, catalog, EdgeSet(snapshot.edges), f) == Err(code);
    FilterLineSaysWhy(lib, catalog, edges, f);
  }

  // ---- applying ----

  datatype ApplyReply =
    | ApplyNeedsIfMatch
    | CanvasUnavailable
    | CanvasChanged(actual: nat)
    | Attempted(result: ApplyResult)

  // Nothing is compiled or written unless canvas and catalog can be read and the request
  // names the revision now stored; then it is the stored graph over the current nodes that
  // is applied.
  method HandleApplyCompilation(service: Service, store: Store, ifMatch: string, loads: bool, nodes: Option<seq<CanvasNode>>, f: Faults)
    returns (reply: ApplyReply)
    requires service.Valid() && service.pc == Idle
    modifies service, service.audit
    ensures service.Valid() && service.pc == Idle
    ensures reply.Attempted? <==> ParseExpectedRevision(ifMatch) == Some(store.revision) && loads && nodes.Some?
    ensures reply.CanvasUnavailable? <==> ParseExpectedRevision(ifMatch).Some? && !(loads && nodes.Some?)
    ensures reply.CanvasChanged? ==> reply.actual == store.revision
    ensures !reply.Attempted? ==> service.Now() == old(service.Now())
    ensures reply.Attempted? ==>
      var snapshot, w := SnapshotOf(old(store.Stored()), nodes.value), old(service.Now());
      && (reply.result.ok <==> PreparedBy(service.env, w, snapshot, f) && Committed(f) && f.complete.Fine?)
      && service.config ==
         if PreparedBy(service.env, w, snapshot, f) then FinalConfig(JobFor(service.env, w, snapshot, f), f) else w.config
  {
    var expected := ParseExpectedRevision(ifMatch);
    if expected.None? {
      return ApplyNeedsIfMatch;
    }
    if !loads {
      return CanvasUnavailable;
    }
    var edges := store.LoadDefaultCanvas();
    if nodes.None? {
      return CanvasUnavailable;
    }
    if expected.value != store.revision {
      return CanvasChanged(store.revision);
    }
    var result := service.Apply(Snapshot("default", store.revision, nodes.value, edges), f);
    reply := Attempted(result);
  }
}
