/** What subscribers of a remote broker's poller can rebuild from its events, over every run of
    successful and failed polls (src/mesh_ingest.rs). */
module IngestRuns {
  import opened Models
  import opened Lex
  import opened Ingest

  /** One poll, with the orders its sets and maps are walked in, and what the engine accepts. */
  datatype Turn = Turn(poll: Poll, order: Order, ok: CdcEvent -> bool)

  function Step(b: Broker, y: State, t: Turn): State { Next(b, y, t.poll, t.order, t.ok) }

  function Run(b: Broker, y: State, turns: seq<Turn>): State
    decreases |turns|
  {
    if turns == [] then y else Run(b, Step(b, y, turns[0]), turns[1..])
  }

  ghost predicate ValidTurn(y: State, t: Turn)
  {
    Succeeds(t.poll) ==> ValidOrder(t.order, y.snapshot, NewSnapshot(t.poll))
  }

  ghost predicate ValidRun(b: Broker, y: State, turns: seq<Turn>)
    decreases |turns|
  {
    turns == [] || (ValidTurn(y, turns[0]) && ValidRun(b, Step(b, y, turns[0]), turns[1..]))
  }

  function Start(b: Broker): State { State(Pending(b.org + ":" + b.app), [], []) }

  /** A poll fails if the node, the topology or the peers cannot be read. It then emits and publishes
      nothing, keeps what was last read, and shows the error. */
  lemma FailedPollsAreSilent(b: Broker, y: State, t: Turn)
    requires t.poll.node.None? || t.poll.topology.None? || t.poll.peers.None?
    ensures var y' := Step(b, y, t);
            y'.events == y.events && y'.published == y.published
            && y' == y.(snapshot := y'.snapshot)
            && y.snapshot == y'.snapshot.(lastError := y.snapshot.lastError, readiness := y.snapshot.readiness)
            && y'.snapshot.lastError == Some(t.poll.error)
            && y'.snapshot.readiness
               == Readiness(false, y.snapshot.node.nodeId, [Check("remote-broker", false, Some(t.poll.error))])
  {
  }

  /** Any other poll replaces the snapshot by what was read; a failing readiness probe reads as unready,
      and a collection that does not answer as absent. */
  lemma OtherPollsAreRead(b: Broker, y: State, t: Turn)
    requires t.poll.node.Some? && t.poll.topology.Some? && t.poll.peers.Some?
    ensures var y' := Step(b, y, t);
            y'.events == y.events + PollEvents(y.snapshot, y'.snapshot, t.order) && (!b.hasEngine ==> y'.published == y.published)
    ensures Step(b, y, t).snapshot
            == Snapshot(t.poll.node.value, t.poll.topology.value,
                        match t.poll.readiness
                        case Some(readiness) => readiness
                        case None => Readiness(false, t.poll.node.value.nodeId,
                                               [Check("remote-broker", false,
                                                      Some("ready probe failed: " + t.poll.readinessError))]),
                        t.poll.peers.value, t.poll.documents, Some(t.poll.now), None)
  {
  }

  // --- The replica ---

  /** The last content published for each document id. */
  function Replica(log: seq<CdcEvent>): map<string, Json>
  {
    if log == [] then map[] else
      var n := |log| - 1;
      Replica(log[..n])[log[n].documentId := log[n].patches]
  }

  ghost predicate UniqueIds(docs: seq<Json>)
  {
    forall i, j :: 0 <= i < j < |docs| && DocumentId(docs[i]).Some? ==> DocumentId(docs[i]) != DocumentId(docs[j])
  }

  /** Collection names have no slash, and ids are unique within a collection. */
  ghost predicate Tidy(documents: Documents)
  {
    forall c :: c in documents ==> '/' !in c && UniqueIds(documents[c])
  }

  /** The document id of a document's events. */
  function DocKey(c: string, d: Json): string
    requires DocumentId(d).Some?
  {
    c + "/" + DocumentId(d).value
  }

  ghost predicate Has(documents: Documents, c: string, d: Json)
  {
    c in documents && d in documents[c] && DocumentId(d).Some?
  }

  ghost predicate Knows(replica: map<string, Json>, k: string, d: Json) { k in replica && replica[k] == d }

  /** The replica has the snapshot's content for this document id. */
  ghost predicate AgreesAt(replica: map<string, Json>, documents: Documents, k: string)
  {
    forall c, d :: Has(documents, c, d) && DocKey(c, d) == k ==> Knows(replica, k, d)
  }

  /** No two documents with this key have different contents. */
  ghost predicate ConsistentAt(documents: Documents, k: string)
  {
    forall c, d, c', d' :: Has(documents, c, d) && Has(documents, c', d') && DocKey(c, d) == k == DocKey(c', d') ==> d == d'
  }

  lemma SlashInjective(c: string, id: string, c': string, id': string)
    requires '/' !in c && '/' !in c' && c + "/" + id == c' + "/" + id'
    ensures c == c' && id == id'
  {
    var k := c + "/" + id;
    assert k[|c|] == '/' && k[|c'|] == '/';
    assert forall i :: 0 <= i < |c| ==> k[i] == c[i] != '/';
    assert forall i :: 0 <= i < |c'| ==> k[i] == c'[i] != '/';
    assert c == k[..|c|] && c' == k[..|c'|];
    assert id == k[|c| + 1..] && id' == k[|c'| + 1..];
  }

  lemma {:induction false} WithIdMeaning(docs: seq<Json>, id: string)
    ensures var r := WithId(docs, id);
            if r.Some? then r.value in docs && DocumentId(r.value) == Some(id)
            else forall d :: d in docs ==> DocumentId(d) != Some(id)
  {
    if docs != [] { WithIdMeaning(docs[..|docs| - 1], id); }
  }

  /** Keys without a slash in the collection determine the collection and the id. */
  lemma TidyIsConsistent(documents: Documents, k: string)
    requires Tidy(documents)
    ensures ConsistentAt(documents, k)
  {
    forall c, d, c', d' | Has(documents, c, d) && Has(documents, c', d') && DocKey(c, d) == k == DocKey(c', d') ensures d == d' {
      SlashInjective(c, DocumentId(d).value, c', DocumentId(d').value);
      var i :| 0 <= i < |documents[c]| && documents[c][i] == d;
      var j :| 0 <= j < |documents[c]| && documents[c][j] == d';
      assert DocumentId(documents[c][i]) == DocumentId(documents[c][j]);
    }
  }

  /** The document's id: the text under `_id`, and under `uid` only if there is no `_id`. */
  predicate HasId(d: Json, id: string)
  {
    d.Object? && if "_id" in d.fields then d.fields["_id"] == Str(id) else "uid" in d.fields && d.fields["uid"] == Str(id)
  }

  lemma IdIff(d: Json, id: string)
    ensures DocumentId(d) == Some(id) <==> HasId(d, id)
  {
  }

  /** The document is the last one with this id. */
  ghost predicate LastOf(docs: seq<Json>, id: string, d: Json)
  {
    exists i :: 0 <= i < |docs| && docs[i] == d && forall j :: i < j < |docs| ==> !HasId(docs[j], id)
  }

  /** The previous list does not have this document as the last one of its id. */
  ghost predicate Unseen(known: seq<Json>, d: Json) { exists id :: HasId(d, id) && !LastOf(known, id, d) }

  lemma LastOfPlus(head: seq<Json>, last: Json, id: string, d: Json)
    requires HasId(d, id)
    ensures LastOf(head + [last], id, d) <==> if HasId(last, id) then last == d else LastOf(head, id, d)
  {
    var docs, n := head + [last], |head|;
    assert docs[n] == last && forall j :: 0 <= j < n ==> docs[j] == head[j];
    if i :| 0 <= i < |docs| && docs[i] == d && forall j :: i < j < |docs| ==> !HasId(docs[j], id) {
      if i < n { assert head[i] == d && forall j :: i < j < n ==> head[j] == docs[j]; }
    }
    if !HasId(last, id) {
      if i :| 0 <= i < n && head[i] == d && forall j :: i < j < n ==> !HasId(head[j], id) { assert docs[i] == d; }
    }
  }

  lemma {:induction false} WithIdIsLast(docs: seq<Json>, id: string, d: Json)
    requires HasId(d, id)
    ensures WithId(docs, id) == Some(d) <==> LastOf(docs, id, d)
  {
    if docs != [] {
      var n := |docs| - 1;
      WithIdIsLast(docs[..n], id, d);
      IdIff(docs[n], id);
      LastOfPlus(docs[..n], docs[n], id, d);
      assert docs == docs[..n] + [docs[n]];
    }
  }

  lemma UnseenMeans(known: seq<Json>, d: Json)
    ensures Unseen(known, d) <==> DocumentId(d).Some? && WithId(known, DocumentId(d).value) != Some(d)
  {
    forall id ensures HasId(d, id) <==> DocumentId(d) == Some(id) { IdIff(d, id); }
    if DocumentId(d).Some? { WithIdIsLast(known, DocumentId(d).value, d); }
  }

  /** In a consistent collection that is to be absent from it. */
  lemma UnseenIff(known: Documents, c: string, d: Json)
    requires DocumentId(d).Some? && ConsistentAt(known, DocKey(c, d))
    ensures Unseen(DocsOf(known, c), d) <==> d !in DocsOf(known, c)
  {
    var docs, id := DocsOf(known, c), DocumentId(d).value;
    UnseenMeans(docs, d);
    WithIdMeaning(docs, id);
    if d in docs {
      var prior := WithId(docs, id).value;
      assert Has(known, c, d) && Has(known, c, prior) && DocKey(c, d) == DocKey(c, prior);
    }
  }

  lemma {:induction false} CollectionEventsMeaning(b: Broker, known: seq<Json>, c: string, docs: seq<Json>, now: u64)
    ensures forall e :: e in CollectionEvents(b, known, c, docs, now) <==>
              exists d :: d in docs && Changed(b, known, d) && e == DocEvent(b, c, DocumentId(d).value, d, now)
  {
    if docs != [] {
      var n := |docs| - 1;
      CollectionEventsMeaning(b, known, c, docs[..n], now);
      assert docs == docs[..n] + [docs[n]];
    }
  }

  /** The event of one document: its id under the collection's name, its content, and its hash. */
  ghost predicate Tells(b: Broker, c: string, d: Json, now: u64, e: CdcEvent)
  {
    && (exists id :: HasId(d, id) && e.documentId == c + "/" + id)
    && e.orgId == b.org && e.appId == b.app && e.patches == d && e.changeHash == b.hash(d) && e.timestampMs == now
    && if "_actor" in d.fields && d.fields["_actor"].Str? then d.fields["_actor"] == Str(e.actorId) else e.actorId == "remote-broker"
  }

  lemma TellsIff(b: Broker, c: string, d: Json, now: u64, e: CdcEvent)
    ensures Tells(b, c, d, now, e) <==> DocumentId(d).Some? && e == DocEvent(b, c, DocumentId(d).value, d, now)
  {
    if DocumentId(d).Some? { IdIff(d, DocumentId(d).value); }
    forall id | HasId(d, id) ensures DocumentId(d) == Some(id) { IdIff(d, id); }
  }

  lemma {:induction false} AllEventsMeaning(b: Broker, known: Documents, documents: Documents, order: seq<string>, now: u64)
    ensures forall e :: e in AllEvents(b, known, documents, order, now) <==>
              exists c, d :: c in order && d in DocsOf(documents, c) && Changed(b, DocsOf(known, c), d) && Tells(b, c, d, now, e)
  {
    if order != [] {
      var n := |order| - 1;
      AllEventsMeaning(b, known, documents, order[..n], now);
      CollectionEventsMeaning(b, DocsOf(known, order[n]), order[n], DocsOf(documents, order[n]), now);
      assert order == order[..n] + [order[n]];
      var head, last := AllEvents(b, known, documents, order[..n], now),
                        CollectionEvents(b, DocsOf(known, order[n]), order[n], DocsOf(documents, order[n]), now);
      forall e | e in last
        ensures exists c, d :: c in order && d in DocsOf(documents, c) && Changed(b, DocsOf(known, c), d) && Tells(b, c, d, now, e)
      {
        var d :| d in DocsOf(documents, order[n]) && Changed(b, DocsOf(known, order[n]), d)
                 && e == DocEvent(b, order[n], DocumentId(d).value, d, now);
        TellsIff(b, order[n], d, now, e);
      }
      forall e, c, d | c in order && d in DocsOf(documents, c) && Changed(b, DocsOf(known, c), d) && Tells(b, c, d, now, e)
        ensures e in head + last
      {
        TellsIff(b, c, d, now, e);
      }
    }
  }

  lemma UnseenIsChanged(b: Broker, known: seq<Json>, d: Json)
    requires InjectiveHash(b)
    ensures Unseen(known, d) <==> Changed(b, known, d)
  {
    UnseenMeans(known, d);
  }

  /** Each poll attempts exactly the documents that are new or changed against the previous snapshot. */
  lemma PollPublishesExactly(b: Broker, known: Documents, documents: Documents, order: seq<string>, now: u64, e: CdcEvent)
    requires InjectiveHash(b) && Enumerates(order, documents.Keys)
    ensures e in AllEvents(b, known, documents, order, now) <==>
            exists c, d :: c in documents && d in documents[c] && Unseen(DocsOf(known, c), d) && Tells(b, c, d, now, e)
  {
    AllEventsMeaning(b, known, documents, order, now);
    forall c, d ensures Unseen(DocsOf(known, c), d) <==> Changed(b, DocsOf(known, c), d) { UnseenIsChanged(b, DocsOf(known, c), d); }
    if c, d :| c in order && d in DocsOf(documents, c) && Changed(b, DocsOf(known, c), d) && Tells(b, c, d, now, e) {
      assert c in documents && d in documents[c] && Unseen(DocsOf(known, c), d);
    }
    if c, d :| c in documents && d in documents[c] && Unseen(DocsOf(known, c), d) && Tells(b, c, d, now, e) {
      assert c in order && d in DocsOf(documents, c) && Changed(b, DocsOf(known, c), d);
    }
  }

  /** An event carries the document that has its key. */
  lemma EventCarries(b: Broker, known: Documents, documents: Documents, order: seq<string>, now: u64, e: CdcEvent,
                     c: string, d: Json)
    requires InjectiveHash(b) && Enumerates(order, documents.Keys) && e in AllEvents(b, known, documents, order, now)
    requires Has(documents, c, d) && e.documentId == DocKey(c, d) && ConsistentAt(documents, DocKey(c, d))
    ensures e.patches == d && Unseen(DocsOf(known, c), d)
  {
    PollPublishesExactly(b, known, documents, order, now, e);
    var c', d' :| c' in documents && d' in documents[c'] && Unseen(DocsOf(known, c'), d') && Tells(b, c', d', now, e);
    TellsIff(b, c', d', now, e);
    assert Has(documents, c', d') && DocKey(c', d') == DocKey(c, d);
    SameKey(c', c, d);
  }

  lemma SameKey(c: string, c': string, d: Json)
    requires DocumentId(d).Some? && DocKey(c, d) == DocKey(c', d)
    ensures c == c'
  {
    assert c == DocKey(c, d)[..|c|] && c' == DocKey(c', d)[..|c'|];
  }

  /** A document that stays as it is causes no event, even if its last one was refused. */
  lemma UnchangedIsNotRetried(b: Broker, known: Documents, documents: Documents, order: seq<string>, now: u64,
                              e: CdcEvent, c: string, d: Json)
    requires InjectiveHash(b) && Enumerates(order, documents.Keys) && e in AllEvents(b, known, documents, order, now)
    requires Has(known, c, d) && Has(documents, c, d)
    requires ConsistentAt(known, DocKey(c, d)) && ConsistentAt(documents, DocKey(c, d))
    ensures e.documentId != DocKey(c, d)
  {
    UnseenIff(known, c, d);
    if e.documentId == DocKey(c, d) { EventCarries(b, known, documents, order, now, e, c, d); }
  }

  ghost predicate DistinctDocuments(log: seq<CdcEvent>)
  {
    forall i, j :: 0 <= i < j < |log| ==> log[i].documentId != log[j].documentId
  }

  lemma DistinctConcat(a: seq<CdcEvent>, b: seq<CdcEvent>)
    requires DistinctDocuments(a) && DistinctDocuments(b)
    requires forall x, y :: x in a && y in b ==> x.documentId != y.documentId
    ensures DistinctDocuments(a + b)
  {
    forall i, j | 0 <= i < j < |a + b| ensures (a + b)[i].documentId != (a + b)[j].documentId {
      if i < |a| <= j { assert a[i] in a && b[j - |a|] in b; }
    }
  }

  lemma {:induction false} CollectionEventsDistinct(b: Broker, known: seq<Json>, c: string, docs: seq<Json>, now: u64)
    requires '/' !in c && UniqueIds(docs)
    ensures DistinctDocuments(CollectionEvents(b, known, c, docs, now))
  {
    if docs != [] {
      var n := |docs| - 1;
      var head := docs[..n];
      assert UniqueIds(head);
      CollectionEventsDistinct(b, known, c, head, now);
      CollectionEventsMeaning(b, known, c, head, now);
      if Changed(b, known, docs[n]) {
        var last := [DocEvent(b, c, DocumentId(docs[n]).value, docs[n], now)];
        forall x | x in CollectionEvents(b, known, c, head, now) ensures x.documentId != last[0].documentId {
          var d :| d in head && Changed(b, known, d) && x == DocEvent(b, c, DocumentId(d).value, d, now);
          var i :| 0 <= i < n && docs[i] == d;
          if x.documentId == last[0].documentId {
            SlashInjective(c, DocumentId(d).value, c, DocumentId(docs[n]).value);
          }
        }
        DistinctConcat(CollectionEvents(b, known, c, head, now), last);
      }
    }
  }

  /** ... each of them once. */
  lemma {:induction false} PollPublishesOnce(b: Broker, known: Documents, documents: Documents, order: seq<string>, now: u64)
    requires Tidy(documents) && (forall c :: c in order ==> c in documents)
    requires forall i, j :: 0 <= i < j < |order| ==> order[i] != order[j]
    ensures DistinctDocuments(AllEvents(b, known, documents, order, now))
  {
    if order != [] {
      var n := |order| - 1;
      var c := order[n];
      PollPublishesOnce(b, known, documents, order[..n], now);
      CollectionEventsDistinct(b, DocsOf(known, c), c, DocsOf(documents, c), now);
      AllEventsMeaning(b, known, documents, order[..n], now);
      CollectionEventsMeaning(b, DocsOf(known, c), c, DocsOf(documents, c), now);
      var head, last := AllEvents(b, known, documents, order[..n], now),
                        CollectionEvents(b, DocsOf(known, c), c, DocsOf(documents, c), now);
      forall x, y | x in head && y in last ensures x.documentId != y.documentId {
        var c', d' :| c' in order[..n] && d' in DocsOf(documents, c') && Changed(b, DocsOf(known, c'), d') && Tells(b, c', d', now, x);
        var d :| d in DocsOf(documents, c) && Changed(b, DocsOf(known, c), d) && y == DocEvent(b, c, DocumentId(d).value, d, now);
        TellsIff(b, c', d', now, x);
        if x.documentId == y.documentId { SlashInjective(c', DocumentId(d').value, c, DocumentId(d).value); }
      }
      DistinctConcat(head, last);
    }
  }

  lemma ReplicaPlus(log: seq<CdcEvent>, e: CdcEvent)
    ensures Replica(log + [e]) == Replica(log)[e.documentId := e.patches]
  {
    assert (log + [e])[..|log|] == log;
  }

  /** What later events do to one entry of the replica. */
  lemma {:induction false} ReplicaAfter(log: seq<CdcEvent>, more: seq<CdcEvent>, k: string)
    ensures (forall e :: e in more ==> e.documentId != k) ==>
              (k in Replica(log + more) <==> k in Replica(log))
              && (k in Replica(log) ==> Replica(log + more)[k] == Replica(log)[k])
    ensures (exists e :: e in more && e.documentId == k) ==>
              k in Replica(log + more) && exists e :: e in more && e.documentId == k && Replica(log + more)[k] == e.patches
  {
    if more == [] {
      assert log + more == log;
    } else {
      var n := |more| - 1;
      ReplicaAfter(log, more[..n], k);
      ReplicaPlus(log + more[..n], more[n]);
      assert more == more[..n] + [more[n]];
      assert log + more == log + more[..n] + [more[n]];
    }
  }

  // --- Attempts, accepted or refused ---

  datatype Attempt = Attempt(event: CdcEvent, accepted: bool)

  function Marked(ok: CdcEvent -> bool, events: seq<CdcEvent>): seq<Attempt>
  {
    if events == [] then [] else
      var n := |events| - 1;
      Marked(ok, events[..n]) + [Attempt(events[n], ok(events[n]))]
  }

  /** The attempts of one turn. */
  function Tried(b: Broker, y: State, t: Turn): seq<Attempt>
  {
    if Succeeds(t.poll)
    then Marked(t.ok, AllEvents(b, y.snapshot.documents, t.poll.documents, t.order.collections, t.poll.now))
    else []
  }

  /** The attempts of a run, after the attempts `tried` before it. */
  function Attempts(b: Broker, y: State, tried: seq<Attempt>, turns: seq<Turn>): seq<Attempt>
    decreases |turns|
  {
    if turns == [] then tried else Attempts(b, Step(b, y, turns[0]), tried + Tried(b, y, turns[0]), turns[1..])
  }

  function Events(tried: seq<Attempt>): seq<CdcEvent>
  {
    if tried == [] then [] else Events(tried[..|tried| - 1]) + [tried[|tried| - 1].event]
  }

  function Accepted(tried: seq<Attempt>): seq<CdcEvent>
  {
    if tried == [] then [] else
      var n := |tried| - 1;
      Accepted(tried[..n]) + if tried[n].accepted then [tried[n].event] else []
  }

  /** The content of the last accepted attempt for a document id. */
  function LastAccepted(tried: seq<Attempt>, k: string): Option<Json>
  {
    if tried == [] then None else
      var n := |tried| - 1;
      if tried[n].event.documentId == k && tried[n].accepted then Some(tried[n].event.patches)
      else LastAccepted(tried[..n], k)
  }

  /** The last attempt for a document id was refused. */
  predicate Refused(tried: seq<Attempt>, k: string)
  {
    tried != [] && var n := |tried| - 1;
    if tried[n].event.documentId == k then !tried[n].accepted else Refused(tried[..n], k)
  }

  lemma AttemptPlus(tried: seq<Attempt>, a: Attempt)
    ensures Events(tried + [a]) == Events(tried) + [a.event]
    ensures Accepted(tried + [a]) == if a.accepted then Accepted(tried) + [a.event] else Accepted(tried)
  {
    assert (tried + [a])[..|tried|] == tried;
  }

  lemma MarkedPlus(ok: CdcEvent -> bool, head: seq<CdcEvent>, e: CdcEvent)
    ensures Marked(ok, head + [e]) == Marked(ok, head) + [Attempt(e, ok(e))]
  {
    assert (head + [e])[..|head|] == head;
  }

  /** One more attempt. */
  lemma MarkedStep(ok: CdcEvent -> bool, tried: seq<Attempt>, head: seq<CdcEvent>, e: CdcEvent)
    requires Events(tried + Marked(ok, head)) == Events(tried) + head
    requires Accepted(tried + Marked(ok, head)) == Accepted(tried) + Delivered(ok, head)
    ensures Events(tried + Marked(ok, head + [e])) == Events(tried) + (head + [e])
    ensures Accepted(tried + Marked(ok, head + [e])) == Accepted(tried) + Delivered(ok, head + [e])
  {
    var a := Attempt(e, ok(e));
    MarkedPlus(ok, head, e);
    DeliveredPlus(ok, head, e);
    Reassociate(tried, Marked(ok, head), [a]);
    AttemptPlus(tried + Marked(ok, head), a);
    Reassociate(Events(tried), head, [e]);
    Reassociate(Accepted(tried), Delivered(ok, head), if ok(e) then [e] else []);
  }

  lemma {:induction false} MarkedConcat(ok: CdcEvent -> bool, tried: seq<Attempt>, more: seq<CdcEvent>)
    ensures Events(tried + Marked(ok, more)) == Events(tried) + more
    ensures Accepted(tried + Marked(ok, more)) == Accepted(tried) + Delivered(ok, more)
  {
    if more == [] {
      Units(tried);
      Units(Events(tried));
      Units(Accepted(tried));
    } else {
      var head, e := more[..|more| - 1], more[|more| - 1];
      MarkedConcat(ok, tried, head);
      MarkedStep(ok, tried, head, e);
      assert more == head + [e];
    }
  }

  lemma {:induction false} DeliveredMembers(ok: CdcEvent -> bool, events: seq<CdcEvent>)
    ensures forall e :: e in Delivered(ok, events) <==> e in events && ok(e)
  {
    if events != [] {
      var head, last := events[..|events| - 1], events[|events| - 1];
      DeliveredMembers(ok, head);
      assert forall e :: e in events <==> e in head || e == last;
    }
  }

  lemma {:induction false} MarkedMembers(ok: CdcEvent -> bool, events: seq<CdcEvent>)
    ensures forall a :: a in Marked(ok, events) <==> a.event in events && a.accepted == ok(a.event)
  {
    if events != [] {
      var head, last := events[..|events| - 1], events[|events| - 1];
      MarkedMembers(ok, head);
      assert forall e :: e in events <==> e in head || e == last;
    }
  }

  lemma LastPlus(head: seq<Attempt>, a: Attempt, k: string)
    ensures LastAccepted(head + [a], k)
            == if a.event.documentId == k && a.accepted then Some(a.event.patches) else LastAccepted(head, k)
  {
    assert (head + [a])[..|head|] == head;
  }

  lemma LastStep(head: seq<Attempt>, a: Attempt, k: string, d: Json)
    requires Knows(Replica(Accepted(head)), k, d) <==> LastAccepted(head, k) == Some(d)
    ensures Knows(Replica(Accepted(head + [a])), k, d) <==> LastAccepted(head + [a], k) == Some(d)
  {
    AttemptPlus(head, a);
    LastPlus(head, a, k);
    ReplicaPlus(Accepted(head), a.event);
  }

  lemma {:induction false} ReplicaIsLastAccepted(tried: seq<Attempt>, k: string, d: Json)
    ensures Knows(Replica(Accepted(tried)), k, d) <==> LastAccepted(tried, k) == Some(d)
  {
    if tried != [] {
      var head, a := tried[..|tried| - 1], tried[|tried| - 1];
      ReplicaIsLastAccepted(head, k, d);
      LastStep(head, a, k, d);
      assert tried == head + [a];
    }
  }

  /** Unless refused, the last attempt is what the replica has. */
  lemma {:induction false} AcceptedIsKnown(tried: seq<Attempt>, k: string, d: Json)
    requires !Refused(tried, k) && Knows(Replica(Events(tried)), k, d)
    ensures LastAccepted(tried, k) == Some(d)
  {
    if tried != [] {
      var n := |tried| - 1;
      ReplicaPlus(Events(tried[..n]), tried[n].event);
      if tried[n].event.documentId != k { AcceptedIsKnown(tried[..n], k, d); }
    }
  }

  // --- When the replica agrees ---

  ghost predicate InStepAt(y: State, k: string) { AgreesAt(Replica(y.published), y.snapshot.documents, k) }

  /** The replica agrees with the snapshot about this document id, now and after each turn. */
  ghost predicate AlwaysInStepAt(b: Broker, y: State, turns: seq<Turn>, k: string)
    decreases |turns|
  {
    InStepAt(y, k) && (turns == [] || AlwaysInStepAt(b, Step(b, y, turns[0]), turns[1..], k))
  }

  ghost predicate ConsistentTurnAt(t: Turn, k: string) { Succeeds(t.poll) ==> ConsistentAt(t.poll.documents, k) }

  ghost predicate ConsistentRunAt(turns: seq<Turn>, k: string)
  {
    forall i :: 0 <= i < |turns| ==> ConsistentTurnAt(turns[i], k)
  }

  ghost predicate AcceptedIn(more: seq<Attempt>, k: string)
  {
    exists a :: a in more && a.accepted && a.event.documentId == k
  }

  /** Refusals among `more` do no harm: an attempt for the document id is accepted too, or they
      carry what was last accepted for it. */
  ghost predicate HarmlessAt(tried: seq<Attempt>, more: seq<Attempt>, k: string)
  {
    forall a :: a in more && a.event.documentId == k ==> AcceptedIn(more, k) || LastAccepted(tried, k) == Some(a.event.patches)
  }

  ghost predicate NoLossAt(b: Broker, y: State, tried: seq<Attempt>, turns: seq<Turn>, k: string)
    decreases |turns|
  {
    turns == [] || (HarmlessAt(tried, Tried(b, y, turns[0]), k)
                    && NoLossAt(b, Step(b, y, turns[0]), tried + Tried(b, y, turns[0]), turns[1..], k))
  }

  /** An unseen document is attempted. */
  lemma UnseenIsTried(b: Broker, known: Documents, documents: Documents, order: seq<string>, now: u64, c: string, d: Json)
    returns (e: CdcEvent)
    requires InjectiveHash(b) && Enumerates(order, documents.Keys) && Has(documents, c, d) && Unseen(DocsOf(known, c), d)
    ensures e in AllEvents(b, known, documents, order, now) && e.documentId == DocKey(c, d) && e.patches == d
  {
    e := DocEvent(b, c, DocumentId(d).value, d, now);
    TellsIff(b, c, d, now, e);
    PollPublishesExactly(b, known, documents, order, now, e);
  }

  /** An attempt is for a document of the snapshot. */
  lemma TriedIsThere(b: Broker, known: Documents, documents: Documents, order: seq<string>, now: u64, e: CdcEvent)
    returns (c: string, d: Json)
    requires InjectiveHash(b) && Enumerates(order, documents.Keys) && e in AllEvents(b, known, documents, order, now)
    ensures Has(documents, c, d) && e.documentId == DocKey(c, d) && e.patches == d
  {
    PollPublishesExactly(b, known, documents, order, now, e);
    c, d :| c in documents && d in documents[c] && Unseen(DocsOf(known, c), d) && Tells(b, c, d, now, e);
    TellsIff(b, c, d, now, e);
  }

  /** Without a word on `k` the replica keeps what it has. */
  lemma Unmentioned(log: seq<CdcEvent>, more: seq<CdcEvent>, k: string, d: Json)
    requires forall e :: e in more ==> e.documentId != k
    ensures Knows(Replica(log + more), k, d) <==> Knows(Replica(log), k, d)
  {
    ReplicaAfter(log, more, k);
  }

  /** All that is said of `k` is `d`. */
  lemma Mentioned(log: seq<CdcEvent>, more: seq<CdcEvent>, k: string, d: Json, e: CdcEvent)
    requires e in more && e.documentId == k && forall x :: x in more && x.documentId == k ==> x.patches == d
    ensures Knows(Replica(log + more), k, d)
  {
    ReplicaAfter(log, more, k);
  }

  lemma SeenIsKnown(replica: map<string, Json>, known: Documents, c: string, d: Json)
    requires DocumentId(d).Some? && AgreesAt(replica, known, DocKey(c, d)) && !Unseen(DocsOf(known, c), d)
    ensures Knows(replica, DocKey(c, d), d)
  {
    UnseenMeans(DocsOf(known, c), d);
    WithIdMeaning(DocsOf(known, c), DocumentId(d).value);
    assert Has(known, c, d);
  }

  /** After some of a consistent poll's events a document is known that was known or is among them. */
  lemma SaidIsKnown(b: Broker, log: seq<CdcEvent>, said: seq<CdcEvent>, known: Documents, documents: Documents,
                    order: seq<string>, now: u64, c: string, d: Json)
    requires InjectiveHash(b) && Enumerates(order, documents.Keys) && Has(documents, c, d)
    requires ConsistentAt(documents, DocKey(c, d)) && forall e :: e in said ==> e in AllEvents(b, known, documents, order, now)
    requires Knows(Replica(log), DocKey(c, d), d) || exists e :: e in said && e.documentId == DocKey(c, d)
    ensures Knows(Replica(log + said), DocKey(c, d), d)
  {
    var k := DocKey(c, d);
    if e :| e in said && e.documentId == k {
      forall x | x in said && x.documentId == k ensures x.patches == d { EventCarries(b, known, documents, order, now, x, c, d); }
      Mentioned(log, said, k, d, e);
    } else {
      Unmentioned(log, said, k, d);
    }
  }

  /** A document of a consistent poll is known after it, if refusals do no harm. */
  lemma DocumentIsKnown(b: Broker, tried: seq<Attempt>, ok: CdcEvent -> bool, known: Documents, documents: Documents,
                        order: seq<string>, now: u64, c: string, d: Json)
    requires InjectiveHash(b) && Enumerates(order, documents.Keys) && Has(documents, c, d)
    requires ConsistentAt(documents, DocKey(c, d)) && AgreesAt(Replica(Accepted(tried)), known, DocKey(c, d))
    requires HarmlessAt(tried, Marked(ok, AllEvents(b, known, documents, order, now)), DocKey(c, d))
    ensures Knows(Replica(Accepted(tried) + Delivered(ok, AllEvents(b, known, documents, order, now))), DocKey(c, d), d)
  {
    var k, all := DocKey(c, d), AllEvents(b, known, documents, order, now);
    DeliveredMembers(ok, all);
    MarkedMembers(ok, all);
    if Unseen(DocsOf(known, c), d) {
      var e := UnseenIsTried(b, known, documents, order, now, c, d);
      assert Attempt(e, ok(e)) in Marked(ok, all);
      if a :| a in Marked(ok, all) && a.accepted && a.event.documentId == k {
        assert a.event in Delivered(ok, all);
      } else {
        assert !AcceptedIn(Marked(ok, all), k);
        ReplicaIsLastAccepted(tried, k, d);
      }
    } else {
      SeenIsKnown(Replica(Accepted(tried)), known, c, d);
    }
    SaidIsKnown(b, Accepted(tried), Delivered(ok, all), known, documents, order, now, c, d);
  }

  /** If the replica agrees after a poll, its refusals did no harm. */
  lemma AgreementIsHarmless(b: Broker, tried: seq<Attempt>, ok: CdcEvent -> bool, known: Documents, documents: Documents,
                            order: seq<string>, now: u64, k: string)
    requires InjectiveHash(b) && Enumerates(order, documents.Keys)
    requires AgreesAt(Replica(Accepted(tried) + Delivered(ok, AllEvents(b, known, documents, order, now))), documents, k)
    ensures HarmlessAt(tried, Marked(ok, AllEvents(b, known, documents, order, now)), k)
  {
    var all := AllEvents(b, known, documents, order, now);
    DeliveredMembers(ok, all);
    MarkedMembers(ok, all);
    forall a | a in Marked(ok, all) && a.event.documentId == k && !AcceptedIn(Marked(ok, all), k)
      ensures LastAccepted(tried, k) == Some(a.event.patches)
    {
      var c, d := TriedIsThere(b, known, documents, order, now, a.event);
      assert forall e :: e in Delivered(ok, all) ==> Attempt(e, true) in Marked(ok, all);
      Unmentioned(Accepted(tried), Delivered(ok, all), k, d);
      ReplicaIsLastAccepted(tried, k, d);
    }
  }

  lemma AgreementIsConsistent(replica: map<string, Json>, documents: Documents, k: string)
    requires AgreesAt(replica, documents, k)
    ensures ConsistentAt(documents, k)
  {
  }

  lemma PollAgreesIff(b: Broker, tried: seq<Attempt>, ok: CdcEvent -> bool, known: Documents, documents: Documents,
                      order: seq<string>, now: u64, k: string)
    requires InjectiveHash(b) && Enumerates(order, documents.Keys) && AgreesAt(Replica(Accepted(tried)), known, k)
    ensures AgreesAt(Replica(Accepted(tried) + Delivered(ok, AllEvents(b, known, documents, order, now))), documents, k)
            <==> ConsistentAt(documents, k) && HarmlessAt(tried, Marked(ok, AllEvents(b, known, documents, order, now)), k)
  {
    var all := AllEvents(b, known, documents, order, now);
    var replica := Replica(Accepted(tried) + Delivered(ok, all));
    if AgreesAt(replica, documents, k) {
      AgreementIsConsistent(replica, documents, k);
      AgreementIsHarmless(b, tried, ok, known, documents, order, now, k);
    }
    if ConsistentAt(documents, k) && HarmlessAt(tried, Marked(ok, all), k) {
      forall c, d | Has(documents, c, d) && DocKey(c, d) == k ensures Knows(replica, k, d) {
        DocumentIsKnown(b, tried, ok, known, documents, order, now, c, d);
      }
    }
  }

  lemma StepInStepIff(b: Broker, y: State, tried: seq<Attempt>, t: Turn, k: string)
    requires InjectiveHash(b) && b.hasEngine && ValidTurn(y, t) && y.published == Accepted(tried) && InStepAt(y, k)
    ensures InStepAt(Step(b, y, t), k) <==> ConsistentTurnAt(t, k) && HarmlessAt(tried, Tried(b, y, t), k)
    ensures Step(b, y, t).published == Accepted(tried + Tried(b, y, t))
  {
    if Succeeds(t.poll) {
      var known, documents, order, now := y.snapshot.documents, t.poll.documents, t.order.collections, t.poll.now;
      PollAgreesIff(b, tried, t.ok, known, documents, order, now, k);
      MarkedConcat(t.ok, tried, AllEvents(b, known, documents, order, now));
    } else {
      Units(tried);
    }
  }

  lemma ConsistentRest(turns: seq<Turn>, k: string)
    requires turns != []
    ensures ConsistentRunAt(turns, k) <==> ConsistentTurnAt(turns[0], k) && ConsistentRunAt(turns[1..], k)
  {
    if ConsistentRunAt(turns[1..], k) {
      forall i | 1 <= i < |turns| ensures ConsistentTurnAt(turns[i], k) { assert turns[1..][i - 1] == turns[i]; }
    }
  }

  lemma {:induction false} RunInStepIff(b: Broker, y: State, tried: seq<Attempt>, turns: seq<Turn>, k: string)
    requires InjectiveHash(b) && b.hasEngine && ValidRun(b, y, turns) && y.published == Accepted(tried) && InStepAt(y, k)
    ensures AlwaysInStepAt(b, y, turns, k) <==> ConsistentRunAt(turns, k) && NoLossAt(b, y, tried, turns, k)
    decreases |turns|
  {
    if turns != [] {
      StepInStepIff(b, y, tried, turns[0], k);
      ConsistentRest(turns, k);
      if InStepAt(Step(b, y, turns[0]), k) {
        RunInStepIff(b, Step(b, y, turns[0]), tried + Tried(b, y, turns[0]), turns[1..], k);
      }
    }
  }

  /** Over every run of successful and failed polls, whatever the engine refuses, and with collections
      that vanish and return: folding the published events gives each document of the snapshot its
      current content after every poll, exactly when no poll has two documents of its key with
      different contents, and each refused event is made up for by an accepted one of the same poll or
      carries what was last accepted. */
  lemma ReplicaAgreesIff(b: Broker, turns: seq<Turn>, k: string)
    requires InjectiveHash(b) && b.hasEngine && ValidRun(b, Start(b), turns)
    ensures AlwaysInStepAt(b, Start(b), turns, k) <==> ConsistentRunAt(turns, k) && NoLossAt(b, Start(b), [], turns, k)
  {
    RunInStepIff(b, Start(b), [], turns, k);
  }

  // --- Its corollaries ---

  ghost predicate AllAccepted(turns: seq<Turn>) { forall i, e :: 0 <= i < |turns| ==> turns[i].ok(e) }

  lemma AcceptedIsHarmless(ok: CdcEvent -> bool, tried: seq<Attempt>, events: seq<CdcEvent>, k: string)
    requires forall e :: ok(e)
    ensures HarmlessAt(tried, Marked(ok, events), k)
  {
    MarkedMembers(ok, events);
  }

  lemma {:induction false} AcceptedLosesNothing(b: Broker, y: State, tried: seq<Attempt>, turns: seq<Turn>, k: string)
    requires AllAccepted(turns)
    ensures NoLossAt(b, y, tried, turns, k)
    decreases |turns|
  {
    if turns != [] {
      var t := turns[0];
      if Succeeds(t.poll) {
        AcceptedIsHarmless(t.ok, tried,
          AllEvents(b, y.snapshot.documents, t.poll.documents, t.order.collections, t.poll.now), k);
      }
      AcceptedLosesNothing(b, Step(b, y, t), tried + Tried(b, y, t), turns[1..], k);
    }
  }

  /** If the engine accepts everything, only ambiguous polls make the replica disagree. */
  lemma AcceptedRunAgreesIff(b: Broker, turns: seq<Turn>, k: string)
    requires InjectiveHash(b) && b.hasEngine && ValidRun(b, Start(b), turns) && AllAccepted(turns)
    ensures AlwaysInStepAt(b, Start(b), turns, k) <==> ConsistentRunAt(turns, k)
  {
    ReplicaAgreesIff(b, turns, k);
    AcceptedLosesNothing(b, Start(b), [], turns, k);
  }

  /** If ids are unique and collection names have no slash, only harmful refusals do. */
  lemma TidyRunAgreesIff(b: Broker, turns: seq<Turn>, k: string)
    requires InjectiveHash(b) && b.hasEngine && ValidRun(b, Start(b), turns)
    requires forall i :: 0 <= i < |turns| && Succeeds(turns[i].poll) ==> Tidy(turns[i].poll.documents)
    ensures AlwaysInStepAt(b, Start(b), turns, k) <==> NoLossAt(b, Start(b), [], turns, k)
  {
    ReplicaAgreesIff(b, turns, k);
    forall i | 0 <= i < |turns| && Succeeds(turns[i].poll) ensures ConsistentAt(turns[i].poll.documents, k) {
      TidyIsConsistent(turns[i].poll.documents, k);
    }
  }

  // --- Whose refusal it was ---

  /** The accepted attempts are published, and all attempts together tell the snapshot. */
  ghost predicate Told(y: State, tried: seq<Attempt>, k: string)
  {
    y.published == Accepted(tried) && AgreesAt(Replica(Events(tried)), y.snapshot.documents, k)
  }

  lemma LogTells(b: Broker, log: seq<CdcEvent>, known: Documents, documents: Documents, order: seq<string>, now: u64,
                 c: string, d: Json)
    requires InjectiveHash(b) && Enumerates(order, documents.Keys) && Has(documents, c, d)
    requires ConsistentAt(documents, DocKey(c, d)) && AgreesAt(Replica(log), known, DocKey(c, d))
    ensures Knows(Replica(log + AllEvents(b, known, documents, order, now)), DocKey(c, d), d)
  {
    if Unseen(DocsOf(known, c), d) {
      var e := UnseenIsTried(b, known, documents, order, now, c, d);
    } else {
      SeenIsKnown(Replica(log), known, c, d);
    }
    SaidIsKnown(b, log, AllEvents(b, known, documents, order, now), known, documents, order, now, c, d);
  }

  lemma StepTold(b: Broker, y: State, tried: seq<Attempt>, t: Turn, k: string)
    requires InjectiveHash(b) && b.hasEngine && Told(y, tried, k) && ValidTurn(y, t) && ConsistentTurnAt(t, k)
    ensures Told(Step(b, y, t), tried + Tried(b, y, t), k)
  {
    if Succeeds(t.poll) {
      var known, documents, order, now := y.snapshot.documents, t.poll.documents, t.order.collections, t.poll.now;
      MarkedConcat(t.ok, tried, AllEvents(b, known, documents, order, now));
      forall c, d | Has(documents, c, d) && DocKey(c, d) == k
        ensures Knows(Replica(Events(tried) + AllEvents(b, known, documents, order, now)), k, d)
      {
        LogTells(b, Events(tried), known, documents, order, now, c, d);
      }
    } else {
      Units(tried);
    }
  }

  lemma {:induction false} RunTold(b: Broker, y: State, tried: seq<Attempt>, turns: seq<Turn>, k: string)
    requires InjectiveHash(b) && b.hasEngine && Told(y, tried, k) && ValidRun(b, y, turns) && ConsistentRunAt(turns, k)
    ensures Told(Run(b, y, turns), Attempts(b, y, tried, turns), k)
    decreases |turns|
  {
    if turns != [] {
      ConsistentRest(turns, k);
      StepTold(b, y, tried, turns[0], k);
      RunTold(b, Step(b, y, turns[0]), tried + Tried(b, y, turns[0]), turns[1..], k);
    }
  }

  /** A document of the snapshot that the replica misses had its last attempt refused, unless some
      poll of the run had two documents of its key with different contents. */
  lemma MissedWasRefused(b: Broker, turns: seq<Turn>, c: string, d: Json)
    requires InjectiveHash(b) && b.hasEngine && ValidRun(b, Start(b), turns)
    requires Has(Run(b, Start(b), turns).snapshot.documents, c, d)
    requires !Knows(Replica(Run(b, Start(b), turns).published), DocKey(c, d), d)
    ensures Refused(Attempts(b, Start(b), [], turns), DocKey(c, d)) || !ConsistentRunAt(turns, DocKey(c, d))
  {
    var (tried, k) := (Attempts(b, Start(b), [], turns), DocKey(c, d));
    if ConsistentRunAt(turns, k) && !Refused(tried, k) {
      RunTold(b, Start(b), [], turns, k);
      AcceptedIsKnown(tried, k, d);
      ReplicaIsLastAccepted(tried, k, d);
    }
  }

  // --- The events of one poll ---

  ghost predicate HasDocument(documents: Documents, c: string, id: string)
  {
    c in documents && exists d :: d in documents[c] && HasId(d, id)
  }

  /** What a poll emits about the difference of two snapshots. */
  ghost predicate TellsDifference(before: Snapshot, after: Snapshot, e: MeshEvent)
  {
    match e
    case PeerConnected(id) => (exists p :: p in after.peers && p.id == id) && forall p :: p in before.peers ==> p.id != id
    case PeerDisconnected(id) => (exists p :: p in before.peers && p.id == id) && forall p :: p in after.peers ==> p.id != id
    case TopologyChanged(role, count) =>
      role == after.topology.role && count == after.topology.peerCount
      && (role != before.topology.role || count != before.topology.peerCount)
    case SyncEvent(c, id) => HasDocument(after.documents, c, id) && !HasDocument(before.documents, c, id)
  }

  lemma IdsOfIff(documents: Documents, c: string, id: string)
    ensures id in IdsOf(DocsOf(documents, c)) <==> HasDocument(documents, c, id)
  {
    forall d ensures DocumentId(d) == Some(id) <==> HasId(d, id) { IdIff(d, id); }
  }

  lemma SyncIff(before: Documents, after: Documents, c: string, id: string)
    ensures SyncEvent(c, id) in NewDocuments(before, after) <==> HasDocument(after, c, id) && !HasDocument(before, c, id)
  {
    IdsOfIff(before, c, id);
    IdsOfIff(after, c, id);
  }

  lemma ConnectsMembers(ids: seq<string>, id: string)
    ensures PeerConnected(id) in Connects(ids) <==> id in ids
  {
    if i :| 0 <= i < |ids| && ids[i] == id { assert Connects(ids)[i] == PeerConnected(id); }
  }

  lemma DisconnectsMembers(ids: seq<string>, id: string)
    ensures PeerDisconnected(id) in Disconnects(ids) <==> id in ids
  {
    if i :| 0 <= i < |ids| && ids[i] == id { assert Disconnects(ids)[i] == PeerDisconnected(id); }
  }

  /** A poll emits exactly the events that tell the difference. */
  lemma PollTells(before: Snapshot, after: Snapshot, o: Order, e: MeshEvent)
    requires ValidOrder(o, before, after)
    ensures e in PollEvents(before, after, o) <==> TellsDifference(before, after, e)
  {
    var joined, left, topology := Connects(o.joined), Disconnects(o.left), TopologyEvents(before.topology, after.topology);
    assert e in PollEvents(before, after, o) <==> e in joined || e in left || e in topology || e in o.syncs;
    match e {
      case PeerConnected(id) => ConnectsMembers(o.joined, id);
      case PeerDisconnected(id) => DisconnectsMembers(o.left, id);
      case TopologyChanged(_, _) =>
      case SyncEvent(c, id) => SyncIff(before.documents, after.documents, c, id);
    }
  }

  /** ... and none of them twice. */
  lemma PollTellsOnce(before: Snapshot, after: Snapshot, o: Order, i: nat, j: nat)
    requires ValidOrder(o, before, after) && i < j < |PollEvents(before, after, o)|
    ensures PollEvents(before, after, o)[i] != PollEvents(before, after, o)[j]
  {
    var a, b := Connects(o.joined), Disconnects(o.left);
    var c := TopologyEvents(before.topology, after.topology);
    var all := PollEvents(before, after, o);
    assert forall k :: |a + b + c| <= k < |all| ==> all[k] == o.syncs[k - |a + b + c|] && all[k] in o.syncs;
  }

  // --- Peers ---

  /** One peer's events, oldest first: true for a connect, false for a disconnect. */
  function History(events: seq<MeshEvent>, peer: string): seq<bool>
  {
    if events == [] then [] else
      var n := |events| - 1;
      History(events[..n], peer)
      + if events[n] == PeerConnected(peer) then [true] else if events[n] == PeerDisconnected(peer) then [false] else []
  }

  /** The peers that a subscriber believes connected. */
  function FoldPeers(events: seq<MeshEvent>): set<string>
  {
    if events == [] then {} else
      var n := |events| - 1;
      match events[n]
      case PeerConnected(p) => FoldPeers(events[..n]) + {p}
      case PeerDisconnected(p) => FoldPeers(events[..n]) - {p}
      case _ => FoldPeers(events[..n])
  }

  lemma {:induction false} HistoryConcat(a: seq<MeshEvent>, b: seq<MeshEvent>, peer: string)
    ensures History(a + b, peer) == History(a, peer) + History(b, peer)
  {
    if b == [] {
      assert a + b == a;
    } else {
      var head, e := b[..|b| - 1], b[|b| - 1];
      HistoryConcat(a, head, peer);
      HistoryStep(a, head, e, peer);
      assert b == head + [e];
    }
  }

  lemma HistoryStep(a: seq<MeshEvent>, head: seq<MeshEvent>, e: MeshEvent, peer: string)
    requires History(a + head, peer) == History(a, peer) + History(head, peer)
    ensures History(a + (head + [e]), peer) == History(a, peer) + History(head + [e], peer)
  {
    Reassociate(a, head, [e]);
    HistoryPlus(a + head, e, peer);
    HistoryPlus(head, e, peer);
    Reassociate(History(a, peer), History(head, peer), History([e], peer));
  }

  lemma HistoryPlus(a: seq<MeshEvent>, e: MeshEvent, peer: string)
    ensures History(a + [e], peer) == History(a, peer) + History([e], peer)
  {
    assert (a + [e])[..|a|] == a && [e][..0] == [];
  }

  lemma {:induction false} NoHistory(events: seq<MeshEvent>, peer: string)
    requires PeerConnected(peer) !in events && PeerDisconnected(peer) !in events
    ensures History(events, peer) == []
  {
    if events != [] { NoHistory(events[..|events| - 1], peer); }
  }

  lemma {:induction false} OnceHistory(events: seq<MeshEvent>, peer: string, i: nat)
    requires i < |events| && (events[i] == PeerConnected(peer) || events[i] == PeerDisconnected(peer))
    requires forall j :: 0 <= j < |events| && j != i ==> events[j] != PeerConnected(peer) && events[j] != PeerDisconnected(peer)
    ensures History(events, peer) == [events[i].PeerConnected?]
  {
    var n := |events| - 1;
    if i == n { NoHistory(events[..n], peer); } else { OnceHistory(events[..n], peer, i); }
  }

  lemma ConnectsHistory(ids: seq<string>, s: set<string>, peer: string)
    requires Enumerates(ids, s)
    ensures History(Connects(ids), peer) == if peer in s then [true] else []
    ensures History(Disconnects(ids), peer) == if peer in s then [false] else []
  {
    if peer in s {
      var i :| 0 <= i < |ids| && ids[i] == peer;
      OnceHistory(Connects(ids), peer, i);
      OnceHistory(Disconnects(ids), peer, i);
    } else {
      NoHistory(Connects(ids), peer);
      NoHistory(Disconnects(ids), peer);
    }
  }

  lemma FourHistories(a: seq<MeshEvent>, b: seq<MeshEvent>, c: seq<MeshEvent>, d: seq<MeshEvent>, peer: string)
    ensures History(a + b + c + d, peer) == History(a, peer) + History(b, peer) + History(c, peer) + History(d, peer)
  {
    HistoryConcat(a, b, peer);
    HistoryConcat(a + b, c, peer);
    HistoryConcat(a + b + c, d, peer);
  }

  lemma SyncsOnly(o: Order, before: Snapshot, after: Snapshot)
    requires ValidOrder(o, before, after)
    ensures forall e :: e in o.syncs ==> e.SyncEvent?
  {
    assert forall e :: e in NewDocuments(before.documents, after.documents) ==> e.SyncEvent?;
  }

  lemma OtherEventsQuiet(o: Order, before: Snapshot, after: Snapshot, peer: string)
    requires ValidOrder(o, before, after)
    ensures History(TopologyEvents(before.topology, after.topology), peer) == [] && History(o.syncs, peer) == []
  {
    SyncsOnly(o, before, after);
    NoHistory(TopologyEvents(before.topology, after.topology), peer);
    NoHistory(o.syncs, peer);
  }

  /** A poll tells one peer's story in at most one event. */
  lemma PollHistory(before: Snapshot, after: Snapshot, o: Order, peer: string)
    requires ValidOrder(o, before, after)
    ensures History(PollEvents(before, after, o), peer)
            == if peer in PeerIds(after.peers) && peer !in PeerIds(before.peers) then [true]
               else if peer in PeerIds(before.peers) && peer !in PeerIds(after.peers) then [false] else []
  {
    ConnectsHistory(o.joined, PeerIds(after.peers) - PeerIds(before.peers), peer);
    ConnectsHistory(o.left, PeerIds(before.peers) - PeerIds(after.peers), peer);
    OtherEventsQuiet(o, before, after, peer);
    FourHistories(Connects(o.joined), Disconnects(o.left), TopologyEvents(before.topology, after.topology), o.syncs, peer);
    Units(History(Connects(o.joined), peer));
    Units(History(Disconnects(o.left), peer));
    Units(History(Connects(o.joined), peer) + History(Disconnects(o.left), peer));
  }

  /** Connect first, then in turns. */
  predicate Alternates(history: seq<bool>)
  {
    forall i :: 0 <= i < |history| ==> history[i] == (i % 2 == 0)
  }

  ghost predicate PeerTold(y: State, peer: string)
  {
    var history := History(y.events, peer);
    Alternates(history) && (|history| % 2 == 1 <==> peer in PeerIds(y.snapshot.peers))
  }

  /** A history told so far, and what one more poll adds when the peer was there or not, and is or is not. */
  lemma AlternatesPlus(history: seq<bool>, was: bool, present: bool)
    requires Alternates(history) && (|history| % 2 == 1 <==> was)
    ensures var more := if present && !was then [true] else if was && !present then [false] else [];
            Alternates(history + more) && (|history + more| % 2 == 1 <==> present)
  {
  }

  lemma StepTellsPeer(b: Broker, y: State, t: Turn, peer: string)
    requires PeerTold(y, peer) && ValidTurn(y, t)
    ensures PeerTold(Step(b, y, t), peer)
  {
    if Succeeds(t.poll) {
      var after := NewSnapshot(t.poll);
      var events := PollEvents(y.snapshot, after, t.order);
      PollHistory(y.snapshot, after, t.order, peer);
      HistoryConcat(y.events, events, peer);
      AlternatesPlus(History(y.events, peer), peer in PeerIds(y.snapshot.peers), peer in PeerIds(after.peers));
      assert Step(b, y, t).events == y.events + events && Step(b, y, t).snapshot == after;
    } else {
      assert PeerIds(Step(b, y, t).snapshot.peers) == PeerIds(y.snapshot.peers);
    }
  }

  lemma {:induction false} RunTellsPeer(b: Broker, y: State, turns: seq<Turn>, peer: string)
    requires PeerTold(y, peer) && ValidRun(b, y, turns)
    ensures PeerTold(Run(b, y, turns), peer)
    decreases |turns|
  {
    if turns != [] {
      StepTellsPeer(b, y, turns[0], peer);
      RunTellsPeer(b, Step(b, y, turns[0]), turns[1..], peer);
    }
  }

  lemma {:induction false} FoldIsLast(events: seq<MeshEvent>, peer: string)
    ensures var history := History(events, peer);
            peer in FoldPeers(events) <==> history != [] && history[|history| - 1]
  {
    if events != [] { FoldIsLast(events[..|events| - 1], peer); }
  }

  /** From the start, folding the events gives the current peers after every poll, and each peer's
      connects and disconnects strictly alternate. */
  lemma PeersAreReconstructed(b: Broker, turns: seq<Turn>, peer: string)
    requires ValidRun(b, Start(b), turns)
    ensures var y := Run(b, Start(b), turns);
            Alternates(History(y.events, peer)) && (peer in FoldPeers(y.events) <==> peer in PeerIds(y.snapshot.peers))
  {
    RunTellsPeer(b, Start(b), turns, peer);
    FoldIsLast(Run(b, Start(b), turns).events, peer);
  }

  // --- Topology ---

  /** The role and peer count last announced, initially those of a pending broker. */
  function LastTopology(events: seq<MeshEvent>): (string, nat)
  {
    if events == [] then ("standalone", 0) else
      var n := |events| - 1;
      match events[n]
      case TopologyChanged(role, count) => (role, count)
      case _ => LastTopology(events[..n])
  }

  lemma {:induction false} QuietTopology(events: seq<MeshEvent>, more: seq<MeshEvent>)
    requires forall e :: e in more ==> !e.TopologyChanged?
    ensures LastTopology(events + more) == LastTopology(events)
  {
    if more == [] {
      assert events + more == events;
    } else {
      var n := |more| - 1;
      assert (events + more)[..|events| + n] == events + more[..n];
      QuietTopology(events, more[..n]);
    }
  }

  lemma TopologyAnnounced(events: seq<MeshEvent>, before: Topology, after: Topology)
    requires LastTopology(events) == (before.role, before.peerCount)
    ensures LastTopology(events + TopologyEvents(before, after)) == (after.role, after.peerCount)
  {
    var c := TopologyEvents(before, after);
    if c == [] {
      assert events + c == events;
    } else {
      assert (events + c)[|events|] == c[0] && |events + c| == |events| + 1;
    }
  }

  lemma PollTopology(events: seq<MeshEvent>, before: Snapshot, after: Snapshot, o: Order)
    requires ValidOrder(o, before, after) && LastTopology(events) == (before.topology.role, before.topology.peerCount)
    ensures LastTopology(events + PollEvents(before, after, o)) == (after.topology.role, after.topology.peerCount)
  {
    var a, b, c := Connects(o.joined), Disconnects(o.left), TopologyEvents(before.topology, after.topology);
    SyncsOnly(o, before, after);
    QuietTopology(events, a);
    QuietTopology(events + a, b);
    TopologyAnnounced(events + a + b, before.topology, after.topology);
    QuietTopology(events + a + b + c, o.syncs);
    Reassociate(events, a, b);
    Reassociate(events, a + b, c);
    Reassociate(events, a + b + c, o.syncs);
  }

  /** After every run the last TopologyChanged names the current role and peer count. */
  lemma {:induction false} TopologyIsTracked(b: Broker, y: State, turns: seq<Turn>)
    requires ValidRun(b, y, turns) && LastTopology(y.events) == (y.snapshot.topology.role, y.snapshot.topology.peerCount)
    ensures var y' := Run(b, y, turns);
            LastTopology(y'.events) == (y'.snapshot.topology.role, y'.snapshot.topology.peerCount)
    decreases |turns|
  {
    if turns != [] {
      if Succeeds(turns[0].poll) { PollTopology(y.events, y.snapshot, NewSnapshot(turns[0].poll), turns[0].order); }
      TopologyIsTracked(b, Step(b, y, turns[0]), turns[1..]);
    }
  }
}
