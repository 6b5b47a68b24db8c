/** Polling a remote broker, and the events that tell its changes (src/mesh_ingest.rs). */
module Ingest {
  import opened Models
  import opened Lex

  datatype NodeInfo = NodeInfo(nodeId: string, uptimeSecs: u64, version: string)
  datatype Topology = Topology(peerCount: nat, role: string, hierarchyLevel: u32)
  datatype Check = Check(name: string, ready: bool, message: Option<string>)
  datatype Readiness = Readiness(ready: bool, nodeId: string, checks: seq<Check>)
  datatype Peer = Peer(id: string, connected: bool, state: string, rttMs: Option<u64>)

  type Documents = map<string, seq<Json>>

  datatype Snapshot = Snapshot(
    node: NodeInfo, topology: Topology, readiness: Readiness, peers: seq<Peer>, documents: Documents,
    lastSyncMs: Option<u64>, lastError: Option<string>)

  function Unready(nodeId: string, message: string): Readiness
  {
    Readiness(false, nodeId, [Check("remote-broker", false, Some(message))])
  }

  /** Snapshot::new. */
  function Pending(nodeId: string): Snapshot
  {
    Snapshot(NodeInfo(nodeId, 0, "remote-broker-pending"), Topology(0, "standalone", 0),
             Unready(nodeId, "waiting for first successful poll"), [], map[], None, None)
  }

  datatype MeshEvent =
    | PeerConnected(peer: string)
    | PeerDisconnected(peer: string)
    | TopologyChanged(newRole: string, peerCount: nat)
    | SyncEvent(collection: string, doc: string)

  /** One poll's answers. A failed request is None; `documents` holds the collections that answered. */
  datatype Poll = Poll(
    node: Option<NodeInfo>, topology: Option<Topology>, readiness: Option<Readiness>, readinessError: string,
    peers: Option<seq<Peer>>, documents: Documents, now: u64, error: string)

  /** The organization and application the broker is mapped to, and the 64-bit content hash. */
  datatype Broker = Broker(org: string, app: string, hash: Json -> string, hasEngine: bool)

  ghost predicate InjectiveHash(b: Broker) { forall x, y :: b.hash(x) == b.hash(y) ==> x == y }

  // --- Documents ---

  function Field(doc: Json, name: string): Option<Json>
  {
    if doc.Object? && name in doc.fields then Some(doc.fields[name]) else None
  }

  /** `_id`, or `uid` when there is no `_id`; a present `_id` that is no string hides `uid`. */
  function DocumentId(doc: Json): Option<string>
  {
    var value := if Field(doc, "_id").Some? then Field(doc, "_id") else Field(doc, "uid");
    if value.Some? && value.value.Str? then Some(value.value.s) else None
  }

  /** The last document with that id. */
  function WithId(docs: seq<Json>, id: string): Option<Json>
  {
    if docs == [] then None
    else if DocumentId(docs[|docs| - 1]) == Some(id) then Some(docs[|docs| - 1])
    else WithId(docs[..|docs| - 1], id)
  }

  function DocsOf(documents: Documents, collection: string): seq<Json>
  {
    if collection in documents then documents[collection] else []
  }

  function DocEvent(b: Broker, collection: string, id: string, doc: Json, now: u64): CdcEvent
  {
    CdcEvent(b.org, b.app, collection + "/" + id, b.hash(doc),
             if Field(doc, "_actor").Some? && Field(doc, "_actor").value.Str? then Field(doc, "_actor").value.s
             else "remote-broker",
             now, doc)
  }

  /** The document has an id, and the hash differs from the one known for that id. */
  predicate Changed(b: Broker, known: seq<Json>, doc: Json)
  {
    DocumentId(doc).Some?
    && var prior := WithId(known, DocumentId(doc).value); prior.None? || b.hash(prior.value) != b.hash(doc)
  }

  /** The events for one collection, in document order. */
  function CollectionEvents(b: Broker, known: seq<Json>, collection: string, docs: seq<Json>, now: u64): seq<CdcEvent>
  {
    if docs == [] then [] else
      var n := |docs| - 1;
      CollectionEvents(b, known, collection, docs[..n], now)
      + if Changed(b, known, docs[n]) then [DocEvent(b, collection, DocumentId(docs[n]).value, docs[n], now)] else []
  }

  /** The events of a poll, when the document map yields its collections in this order. */
  function AllEvents(b: Broker, known: Documents, documents: Documents, order: seq<string>, now: u64): seq<CdcEvent>
  {
    if order == [] then [] else
      var n := |order| - 1;
      AllEvents(b, known, documents, order[..n], now)
      + CollectionEvents(b, DocsOf(known, order[n]), order[n], DocsOf(documents, order[n]), now)
  }

  /** The events that the engine accepts; an error is only logged. */
  function Delivered(ok: CdcEvent -> bool, events: seq<CdcEvent>): seq<CdcEvent>
  {
    if events == [] then [] else
      var n := |events| - 1;
      Delivered(ok, events[..n]) + if ok(events[n]) then [events[n]] else []
  }

  /** The elements of a set in some order, each once. */
  ghost predicate Enumerates<T(!new)>(order: seq<T>, s: set<T>)
  {
    (forall x :: x in order <==> x in s) && forall i, j :: 0 <= i < j < |order| ==> order[i] != order[j]
  }

  // --- Mesh events ---

  function PeerIds(peers: seq<Peer>): set<string> { set p | p in peers :: p.id }

  function IdsOf(docs: seq<Json>): set<string>
  {
    set d | d in docs && DocumentId(d).Some? :: DocumentId(d).value
  }

  function Connects(ids: seq<string>): (r: seq<MeshEvent>)
    ensures |r| == |ids| && forall i :: 0 <= i < |r| ==> r[i] == PeerConnected(ids[i])
  {
    seq(|ids|, i requires 0 <= i < |ids| => PeerConnected(ids[i]))
  }

  function Disconnects(ids: seq<string>): (r: seq<MeshEvent>)
    ensures |r| == |ids| && forall i :: 0 <= i < |r| ==> r[i] == PeerDisconnected(ids[i])
  {
    seq(|ids|, i requires 0 <= i < |ids| => PeerDisconnected(ids[i]))
  }

  function TopologyEvents(old_: Topology, new_: Topology): seq<MeshEvent>
  {
    if old_.peerCount != new_.peerCount || old_.role != new_.role
    then [TopologyChanged(new_.role, new_.peerCount)] else []
  }

  /** The unordered choices of one poll: the order in which sets and maps are walked. */
  datatype Order = Order(collections: seq<string>, joined: seq<string>, left: seq<string>, syncs: seq<MeshEvent>)

  ghost predicate ValidOrder(o: Order, before: Snapshot, after: Snapshot)
  {
    && Enumerates(o.collections, after.documents.Keys)
    && Enumerates(o.joined, PeerIds(after.peers) - PeerIds(before.peers))
    && Enumerates(o.left, PeerIds(before.peers) - PeerIds(after.peers))
    && Enumerates(o.syncs, NewDocuments(before.documents, after.documents))
  }

  /** One sync event for each document id that its collection did not have. */
  ghost function NewDocuments(before: Documents, after: Documents): set<MeshEvent>
  {
    set c, id | c in after && id in IdsOf(after[c]) - IdsOf(DocsOf(before, c)) :: SyncEvent(c, id)
  }

  function PollEvents(before: Snapshot, after: Snapshot, o: Order): seq<MeshEvent>
  {
    Connects(o.joined) + Disconnects(o.left) + TopologyEvents(before.topology, after.topology) + o.syncs
  }

  // --- Polls ---

  /** Every request but the readiness probe and the collections must succeed. */
  predicate Succeeds(p: Poll) { p.node.Some? && p.topology.Some? && p.peers.Some? }

  function NewSnapshot(p: Poll): Snapshot
    requires Succeeds(p)
  {
    Snapshot(p.node.value, p.topology.value,
             if p.readiness.Some? then p.readiness.value else Unready(p.node.value.nodeId, "ready probe failed: " + p.readinessError),
             p.peers.value, p.documents, Some(p.now), None)
  }

  function Failed(s: Snapshot, error: string): Snapshot
  {
    s.(lastError := Some(error), readiness := Unready(s.node.nodeId, error))
  }

  /** What subscribers and sinks have seen, and the current snapshot. */
  datatype State = State(snapshot: Snapshot, events: seq<MeshEvent>, published: seq<CdcEvent>)

  function Next(b: Broker, y: State, p: Poll, o: Order, ok: CdcEvent -> bool): State
  {
    if !Succeeds(p) then y.(snapshot := Failed(y.snapshot, p.error))
    else
      var after := NewSnapshot(p);
      State(after,
            y.events + PollEvents(y.snapshot, after, o),
            if b.hasEngine
            then y.published + Delivered(ok, AllEvents(b, y.snapshot.documents, p.documents, o.collections, p.now))
            else y.published)
  }

  // --- The poller as it runs ---

  /** Walk a hash map or hash set, in whatever order it yields. */
  method Walk(s: set<string>) returns (order: seq<string>)
    ensures Enumerates(order, s)
  {
    order := [];
    var todo := s;
    while todo != {}
      invariant todo <= s
      invariant Enumerates(order, s - todo)
      decreases |todo|
    {
      var x :| x in todo;
      EnumeratesPlus(order, s - todo, x);
      assert s - (todo - {x}) == s - todo + {x};
      todo := todo - {x};
      order := order + [x];
    }
  }

  class RemoteBrokerState {
    const broker: Broker
    var snapshot: Snapshot
    var events: seq<MeshEvent>
    var published: seq<CdcEvent>

    ghost function View(): State
      reads this
    {
      State(snapshot, events, published)
    }

    constructor (broker: Broker)
      ensures this.broker == broker && View() == State(Pending(broker.org + ":" + broker.app), [], [])
      ensures var nodeId := broker.org + ":" + broker.app;
              snapshot == Snapshot(NodeInfo(nodeId, 0, "remote-broker-pending"), Topology(0, "standalone", 0),
                                   Readiness(false, nodeId, [Check("remote-broker", false, Some("waiting for first successful poll"))]),
                                   [], map[], None, None)
    {
      this.broker := broker;
      snapshot, events, published := Pending(broker.org + ":" + broker.app), [], [];
    }

    /** `old_by_id`: the hash last recorded for each id. */
    method IndexById(docs: seq<Json>) returns (byId: map<string, string>)
      ensures forall id :: (id in byId <==> WithId(docs, id).Some?)
                           && (id in byId ==> byId[id] == broker.hash(WithId(docs, id).value))
    {
      byId := map[];
      for i := 0 to |docs|
        invariant forall id :: (id in byId <==> WithId(docs[..i], id).Some?)
                               && (id in byId ==> byId[id] == broker.hash(WithId(docs[..i], id).value))
      {
        assert docs[..i + 1][..i] == docs[..i];
        var id := DocumentId(docs[i]);
        if id.Some? {
          byId := byId[id.value := broker.hash(docs[i])];
        }
      }
      assert docs[..|docs|] == docs;
    }

    /** The event for one document, if it is new or changed. */
    method CompareDocument(ghost known: seq<Json>, byId: map<string, string>, collection: string, doc: Json, now: u64)
      returns (event: Option<CdcEvent>)
      requires forall id :: (id in byId <==> WithId(known, id).Some?)
                            && (id in byId ==> byId[id] == broker.hash(WithId(known, id).value))
      ensures event == if Changed(broker, known, doc) then Some(DocEvent(broker, collection, DocumentId(doc).value, doc, now))
                       else None
    {
      var id := DocumentId(doc);
      if id.None? {
        return None;
      }
      if id.value in byId && byId[id.value] == broker.hash(doc) {
        return None;
      }
      return Some(DocEvent(broker, collection, id.value, doc, now));
    }

    method PublishCollection(known: seq<Json>, collection: string, docs: seq<Json>, now: u64, ok: CdcEvent -> bool)
      modifies this`published
      ensures published
              == old(published) + Delivered(ok, CollectionEvents(broker, known, collection, docs, now))
    {
      var byId := IndexById(known);
      ghost var start, due := published, CollectionEvents(broker, known, collection, [], now);
      for i := 0 to |docs|
        invariant due == CollectionEvents(broker, known, collection, docs[..i], now)
        invariant published == start + Delivered(ok, due)
      {
        assert docs[..i + 1][..i] == docs[..i];
        var event := CompareDocument(known, byId, collection, docs[i], now);
        if event.Some? {
          DeliveredPlus(ok, due, event.value);
          due := due + [event.value];
          if ok(event.value) {
            published := published + [event.value];
          }
        }
      }
      assert docs[..|docs|] == docs;
    }

    method PublishCdcDiffs(after: Snapshot, now: u64, ok: CdcEvent -> bool) returns (ghost order: seq<string>)
      modifies this`published
      ensures Enumerates(order, after.documents.Keys)
      ensures published
              == old(published) + Delivered(ok, AllEvents(broker, snapshot.documents, after.documents, order, now))
    {
      var collections := Walk(after.documents.Keys);
      PublishCollections(after, collections, now, ok);
      order := collections;
    }

    method PublishCollections(after: Snapshot, order: seq<string>, now: u64, ok: CdcEvent -> bool)
      modifies this`published
      ensures published
              == old(published) + Delivered(ok, AllEvents(broker, snapshot.documents, after.documents, order, now))
    {
      ghost var start, due := published, [];
      for i := 0 to |order|
        invariant due == AllEvents(broker, snapshot.documents, after.documents, order[..i], now)
        invariant published == start + Delivered(ok, due)
      {
        var c := order[i];
        ghost var added := CollectionEvents(broker, DocsOf(snapshot.documents, c), c, DocsOf(after.documents, c), now);
        PublishCollection(DocsOf(snapshot.documents, c), c, DocsOf(after.documents, c), now, ok);
        DeliveredConcat(ok, due, added);
        assert order[..i + 1] == order[..i] + [c];
        AllEventsPlus(broker, snapshot.documents, after.documents, order[..i], c, now);
        Reassociate(start, Delivered(ok, due), Delivered(ok, added));
        due := due + added;
      }
      assert order[..|order|] == order;
    }

    method EmitPeers(joined: seq<string>, left: seq<string>)
      modifies this`events
      ensures events == old(events) + Connects(joined) + Disconnects(left)
    {
      ghost var start := events;
      for i := 0 to |joined|
        invariant events == start + Connects(joined[..i])
      {
        assert Connects(joined[..i + 1]) == Connects(joined[..i]) + [PeerConnected(joined[i])];
        events := events + [PeerConnected(joined[i])];
      }
      assert joined[..|joined|] == joined;
      start := events;
      for i := 0 to |left|
        invariant events == start + Disconnects(left[..i])
      {
        assert Disconnects(left[..i + 1]) == Disconnects(left[..i]) + [PeerDisconnected(left[i])];
        events := events + [PeerDisconnected(left[i])];
      }
      assert left[..|left|] == left;
    }

    method EmitCollection(after: Snapshot, c: string) returns (ghost syncs: seq<MeshEvent>)
      requires c in after.documents
      modifies this`events
      ensures Enumerates(syncs, NewIn(snapshot.documents, after.documents, {c}))
      ensures events == old(events) + syncs
    {
      var ids := Walk(IdsOf(after.documents[c]) - IdsOf(DocsOf(snapshot.documents, c)));
      ghost var start := events;
      for i := 0 to |ids|
        invariant events == start + Syncs(c, ids[..i])
      {
        assert Syncs(c, ids[..i + 1]) == Syncs(c, ids[..i]) + [SyncEvent(c, ids[i])];
        events := events + [SyncEvent(c, ids[i])];
      }
      assert ids[..|ids|] == ids;
      syncs := Syncs(c, ids);
      SyncsEnumerate(snapshot.documents, after.documents, c, ids);
    }

    method EmitSyncs(after: Snapshot) returns (ghost syncs: seq<MeshEvent>)
      modifies this`events
      ensures Enumerates(syncs, NewDocuments(snapshot.documents, after.documents))
      ensures events == old(events) + syncs
    {
      var order := Walk(after.documents.Keys);
      ghost var done := {};
      syncs := [];
      for i := 0 to |order|
        invariant forall c :: c in done <==> c in order[..i]
        invariant Enumerates(syncs, NewIn(snapshot.documents, after.documents, done))
        invariant events == old(events) + syncs
      {
        var c := order[i];
        assert c !in order[..i];
        ghost var more := EmitCollection(after, c);
        EnumeratesMore(syncs, more, snapshot.documents, after.documents, done, c);
        syncs, done := syncs + more, done + {c};
      }
      assert order[..|order|] == order;
      assert NewIn(snapshot.documents, after.documents, done) == NewDocuments(snapshot.documents, after.documents);
    }

    method EmitDiffs(after: Snapshot) returns (ghost joined: seq<string>, ghost left: seq<string>, ghost syncs: seq<MeshEvent>)
      modifies this`events
      ensures Enumerates(joined, PeerIds(after.peers) - PeerIds(snapshot.peers))
      ensures Enumerates(left, PeerIds(snapshot.peers) - PeerIds(after.peers))
      ensures Enumerates(syncs, NewDocuments(snapshot.documents, after.documents))
      ensures forall c :: events == old(events) + PollEvents(snapshot, after, Order(c, joined, left, syncs))
    {
      var oldPeers, newPeers := PeerIds(snapshot.peers), PeerIds(after.peers);
      var arrivals := Walk(newPeers - oldPeers);
      var departures := Walk(oldPeers - newPeers);
      joined, left := arrivals, departures;
      EmitPeers(arrivals, departures);
      if snapshot.topology.peerCount != after.topology.peerCount || snapshot.topology.role != after.topology.role {
        events := events + [TopologyChanged(after.topology.role, after.topology.peerCount)];
      }
      syncs := EmitSyncs(after);
      ghost var a, b, c := Connects(joined), Disconnects(left), TopologyEvents(snapshot.topology, after.topology);
      Reassociate(old(events), a, b);
      Reassociate(old(events), a + b, c);
      Reassociate(old(events), a + b + c, syncs);
    }

    /** refresh_once: publish, then emit, then swap the snapshot; None is a failed request. */
    method RefreshOnce(p: Poll, ok: CdcEvent -> bool) returns (success: bool, ghost o: Order)
      modifies this
      ensures success <==> Succeeds(p)
      ensures !success ==> View() == old(View())
      ensures success ==> ValidOrder(o, old(snapshot), NewSnapshot(p)) && View() == Next(broker, old(View()), p, o, ok)
    {
      o := Order([], [], [], []);
      if p.node.None? || p.topology.None? || p.peers.None? {
        return false, o;
      }
      var after := NewSnapshot(p);
      ghost var collections := SomeOrder(after.documents.Keys);
      if broker.hasEngine {
        collections := PublishCdcDiffs(after, p.now, ok);
      }
      ghost var joined, left, syncs := EmitDiffs(after);
      snapshot := after;
      return true, Order(collections, joined, left, syncs);
    }

    method RecordError(error: string)
      modifies this`snapshot
      ensures snapshot == Failed(old(snapshot), error)
    {
      snapshot := snapshot.(lastError := Some(error));
      snapshot := snapshot.(readiness := Unready(snapshot.node.nodeId, error));
    }

    /** One turn of the refresh loop. */
    method Tick(p: Poll, ok: CdcEvent -> bool) returns (ghost o: Order)
      modifies this
      ensures Succeeds(p) ==> ValidOrder(o, old(snapshot), NewSnapshot(p))
      ensures View() == Next(broker, old(View()), p, o, ok)
    {
      var success;
      success, o := RefreshOnce(p, ok);
      if !success {
        RecordError(p.error);
      }
    }
  }

  lemma DeliveredPlus(ok: CdcEvent -> bool, events: seq<CdcEvent>, e: CdcEvent)
    ensures Delivered(ok, events + [e]) == Delivered(ok, events) + if ok(e) then [e] else []
  {
    assert (events + [e])[..|events|] == events;
  }

  lemma {:induction false} DeliveredConcat(ok: CdcEvent -> bool, a: seq<CdcEvent>, b: seq<CdcEvent>)
    ensures Delivered(ok, a + b) == Delivered(ok, a) + Delivered(ok, b)
  {
    if b == [] {
      assert a + b == a;
    } else {
      var n := |b| - 1;
      assert (a + b)[..|a| + n] == a + b[..n];
      DeliveredConcat(ok, a, b[..n]);
    }
  }

  lemma AllEventsPlus(b: Broker, known: Documents, documents: Documents, order: seq<string>, c: string, now: u64)
    ensures AllEvents(b, known, documents, order + [c], now)
            == AllEvents(b, known, documents, order, now)
               + CollectionEvents(b, DocsOf(known, c), c, DocsOf(documents, c), now)
  {
    assert (order + [c])[..|order|] == order;
  }

  lemma EnumeratesPlus<T(!new)>(order: seq<T>, s: set<T>, x: T)
    requires Enumerates(order, s) && x !in s
    ensures Enumerates(order + [x], s + {x})
  {
    var all := order + [x];
    forall i, j | 0 <= i < j < |all| ensures all[i] != all[j] { assert i < |order| && order[i] in order; }
  }

  function Syncs(c: string, ids: seq<string>): (r: seq<MeshEvent>)
    ensures |r| == |ids| && forall i :: 0 <= i < |r| ==> r[i] == SyncEvent(c, ids[i])
  {
    seq(|ids|, i requires 0 <= i < |ids| => SyncEvent(c, ids[i]))
  }

  lemma SyncsEnumerate(before: Documents, after: Documents, c: string, ids: seq<string>)
    requires c in after && Enumerates(ids, IdsOf(after[c]) - IdsOf(DocsOf(before, c)))
    ensures Enumerates(Syncs(c, ids), NewIn(before, after, {c}))
  {
    var r := Syncs(c, ids);
    forall e ensures e in r <==> e in NewIn(before, after, {c}) {
      if e in NewIn(before, after, {c}) {
        var i :| 0 <= i < |ids| && ids[i] == e.doc;
        assert r[i] == e;
      }
    }
  }

  ghost function SomeOrder(s: set<string>): (order: seq<string>)
    ensures Enumerates(order, s)
  {
    if s == {} then [] else
      var x :| x in s;
      SomeOrder(s - {x}) + [x]
  }

  ghost function NewIn(before: Documents, after: Documents, collections: set<string>): set<MeshEvent>
  {
    set c, id | c in collections && c in after && id in IdsOf(after[c]) - IdsOf(DocsOf(before, c)) :: SyncEvent(c, id)
  }

  lemma EnumeratesMore(syncs: seq<MeshEvent>, more: seq<MeshEvent>, before: Documents, after: Documents,
                       done: set<string>, c: string)
    requires c !in done && Enumerates(syncs, NewIn(before, after, done)) && Enumerates(more, NewIn(before, after, {c}))
    ensures Enumerates(syncs + more, NewIn(before, after, done + {c}))
  {
    var all := syncs + more;
    forall i, j | 0 <= i < j < |all| ensures all[i] != all[j] {
      if i < |syncs| <= j { assert all[i] in syncs && all[j] in more; }
    }
  }
}
