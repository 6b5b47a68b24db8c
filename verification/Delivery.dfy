/** Publishing one CDC event to an organization's sinks (src/cdc/engine.rs, src/cdc/webhook_sink.rs). */
module Delivery {
  import opened Models
  import opened Lex
  import opened Keys
  import opened Manager
  import opened Refinement
  import opened Ownership
  import Calls
  import Postgres
  import Redb

  // --- Webhook retries ---

  const MAX_RETRIES: nat := 3
  const INITIAL_BACKOFF_MS: nat := 100
  const MAX_BACKOFF_MS: nat := 5000

  /** What one POST brings: a status code, or no response at all. */
  datatype Answer = Status(code: nat) | NoAnswer

  predicate Success(a: Answer) { a.Status? && 200 <= a.code < 300 }

  predicate ClientError(a: Answer) { a.Status? && 400 <= a.code < 500 }

  /** The loop stops at this answer. */
  predicate Final(a: Answer) { Success(a) || ClientError(a) }

  function Pow2(n: nat): nat { if n == 0 then 1 else 2 * Pow2(n - 1) }

  function Min(x: nat, y: nat): nat { if x <= y then x else y }

  /** The wait after POST number `i`, doubled from the first up to a cap. */
  function Backoff(i: nat): nat { Min(INITIAL_BACKOFF_MS * Pow2(i), MAX_BACKOFF_MS) }

  lemma BackoffDoubles(n: nat)
    ensures Min(Backoff(n) * 2, MAX_BACKOFF_MS) == Backoff(n + 1)
  {
  }

  predicate Within(a: Answer, low: nat, high: nat) { a.Status? && low <= a.code <= high }

  /** WebhookSink::publish: `answers` is what the receiver would answer to each POST. It posts until an
      answer is a 2xx, the only success, or a 4xx, or the retries are used up, and waits 100 ms, 200 ms,
      and so on up to 5 s in between. */
  method PublishWebhook(answers: nat -> Answer, maxRetries: nat) returns (ok: bool, posts: nat, waits: seq<nat>)
    ensures 1 <= posts <= maxRetries + 1
    ensures forall i :: 0 <= i < posts - 1 ==> !Within(answers(i), 200, 299) && !Within(answers(i), 400, 499)
    ensures posts <= maxRetries ==> Within(answers(posts - 1), 200, 299) || Within(answers(posts - 1), 400, 499)
    ensures ok <==> Within(answers(posts - 1), 200, 299)
    ensures |waits| == posts - 1
    ensures forall i :: 0 <= i < |waits| ==> waits[i] == if 100 * Pow2(i) < 5000 then 100 * Pow2(i) else 5000
  {
    var backoffMs := INITIAL_BACKOFF_MS;
    waits := [];
    for attempt := 0 to maxRetries + 1
      invariant forall i :: 0 <= i < attempt ==> !Final(answers(i))
      invariant |waits| == Min(attempt, maxRetries)
      invariant attempt <= maxRetries ==> backoffMs == Backoff(attempt)
      invariant forall i :: 0 <= i < |waits| ==> waits[i] == Backoff(i)
    {
      var answer := answers(attempt);
      if Success(answer) {
        return true, attempt + 1, waits;
      }
      if ClientError(answer) {
        return false, attempt + 1, waits;
      }
      if attempt < maxRetries {
        BackoffDoubles(attempt);
        waits := waits + [backoffMs];
        backoffMs := Min(backoffMs * 2, MAX_BACKOFF_MS);
      }
    }
    return false, maxRetries + 1, waits;
  }

  // --- Fan-out ---

  /** A delivery that the engine starts. */
  datatype Attempt = ToNats(sinkId: string, subject: string) | ToWebhook(sinkId: string, url: string)

  /** The delivery for one sink, if any: Kafka is not implemented, and NATS needs a connection. */
  function AttemptFor(row: Row, natsConnected: bool): Option<Attempt>
  {
    if !row.SinkRow? || !row.sink.enabled then None
    else match row.sink.sinkType
      case Nats(subject) => if natsConnected then Some(ToNats(row.sink.sinkId, subject)) else None
      case Kafka(_) => None
      case Webhook(url) => Some(ToWebhook(row.sink.sinkId, url))
  }

  function Attempts(rows: seq<Row>, natsConnected: bool): seq<Attempt>
  {
    if rows == [] then [] else
      var n := |rows| - 1;
      var last := AttemptFor(rows[n], natsConnected);
      Attempts(rows[..n], natsConnected) + if last.Some? then [last.value] else []
  }

  /** CdcEngine::publish: the sinks in listing order; a failed delivery is logged and forgotten.
      `receivers` gives each webhook's answers; `posts` is how often each attempt was sent. */
  method Publish(store: Redb.RedbBackend, org: string, natsConnected: bool, receivers: nat -> nat -> Answer)
    returns (ok: bool, attempts: seq<Attempt>, posts: seq<nat>)
    ensures ok <==> org in store.orgs
    ensures attempts == if ok then Attempts(Redb.Listing(store.rows, Sinks, org), natsConnected) else []
    ensures ok && Owned(store.View()) && NulFree(org) ==> IsFanOut(Redb(store.View()), org, natsConnected, attempts)
    ensures |posts| == |attempts| && forall i :: 0 <= i < |posts| ==> 1 <= posts[i] <= 4
  {
    attempts, posts := [], [];
    var found := store.GetOrg(org);
    if found.None? {
      return false, attempts, posts;
    }
    var sinks := store.List(Sinks, org);
    for i := 0 to |sinks|
      invariant attempts == Attempts(sinks[..i], natsConnected)
      invariant |posts| == |attempts| && forall j :: 0 <= j < |posts| ==> 1 <= posts[j] <= 4
    {
      assert sinks[..i + 1][..i] == sinks[..i];
      if !sinks[i].SinkRow? || !sinks[i].sink.enabled {
        continue;
      }
      match sinks[i].sink.sinkType {
        case Nats(subject) =>
          if natsConnected {
            attempts, posts := attempts + [ToNats(sinks[i].sink.sinkId, subject)], posts + [1];
          }
        case Kafka(_) =>
        case Webhook(url) =>
          var accepted, sent, waits := PublishWebhook(receivers(i), MAX_RETRIES);
          attempts, posts := attempts + [ToWebhook(sinks[i].sink.sinkId, url)], posts + [sent];
      }
    }
    assert sinks[..|sinks|] == sinks;
    if Owned(store.View()) && NulFree(org) { FanOutIsExact(Redb(store.View()), org, natsConnected); }
    return true, attempts, posts;
  }

  // --- What the fan-out reaches ---

  ghost predicate HasSink(b: Backend, org: string, sink: CdcSinkConfig)
  {
    b.Find(Sinks, org, sink.sinkId) == Some(SinkRow(sink))
  }

  /** The organization has this sink and it is enabled. */
  ghost predicate Enabled(b: Backend, org: string, id: string, sinkType: CdcSinkType)
  {
    exists sink :: HasSink(b, org, sink) && sink.sinkId == id && sink.sinkType == sinkType && sink.enabled
  }

  /** An attempt for an enabled webhook, or for an enabled NATS sink while NATS is connected. */
  ghost predicate Due(b: Backend, org: string, natsConnected: bool, a: Attempt)
  {
    match a
    case ToWebhook(id, url) => Enabled(b, org, id, Webhook(url))
    case ToNats(id, subject) => Enabled(b, org, id, Nats(subject)) && natsConnected
  }

  ghost predicate InOrder(attempts: seq<Attempt>)
  {
    forall i, j :: 0 <= i < j < |attempts| ==> Less(attempts[i].sinkId, attempts[j].sinkId)
  }

  /** Exactly the attempts that are due, each once, in the order of the sinks' ids. */
  ghost predicate IsFanOut(b: Backend, org: string, natsConnected: bool, attempts: seq<Attempt>)
  {
    (forall a :: a in attempts <==> Due(b, org, natsConnected, a)) && InOrder(attempts)
  }

  /** Row `i` is the organization's sink with the id `ids[i]`. */
  ghost predicate SinksAt(b: Backend, org: string, ids: seq<string>, rows: seq<Row>)
  {
    |rows| == |ids|
    && forall i :: 0 <= i < |ids| ==> rows[i].SinkRow? && rows[i].sink.sinkId == ids[i] && HasSink(b, org, rows[i].sink)
  }

  lemma SinksAreFiled(b: Backend, org: string, ids: seq<string>, rows: seq<Row>)
    requires Sane(b) && NulFree(org) && Calls.Lists(b, Sinks, org, ids, rows)
    ensures SinksAt(b, org, ids, rows) && forall sink :: HasSink(b, org, sink) ==> SinkRow(sink) in rows
  {
    forall i | 0 <= i < |ids| ensures rows[i].SinkRow? && rows[i].sink.sinkId == ids[i] && HasSink(b, org, rows[i].sink) {
      assert b.Find(Sinks, org, ids[i]) == Some(rows[i]);
      Calls.FiledRow(b, Sinks, org, ids[i]);
    }
    forall sink | HasSink(b, org, sink) ensures SinkRow(sink) in rows {
      var i :| 0 <= i < |ids| && ids[i] == sink.sinkId;
      assert rows[i] == SinkRow(sink);
    }
  }

  lemma {:induction false} AttemptsMembers(rows: seq<Row>, natsConnected: bool)
    ensures forall a :: a in Attempts(rows, natsConnected) <==>
              exists row :: row in rows && AttemptFor(row, natsConnected) == Some(a)
  {
    if rows != [] {
      var n := |rows| - 1;
      AttemptsMembers(rows[..n], natsConnected);
      assert forall row :: row in rows <==> row in rows[..n] || row == rows[n];
    }
  }

  lemma AttemptIsDue(b: Backend, org: string, natsConnected: bool, ids: seq<string>, rows: seq<Row>, a: Attempt)
    requires SinksAt(b, org, ids, rows) && forall sink :: HasSink(b, org, sink) ==> SinkRow(sink) in rows
    ensures (exists row :: row in rows && AttemptFor(row, natsConnected) == Some(a)) <==> Due(b, org, natsConnected, a)
  {
    if row :| row in rows && AttemptFor(row, natsConnected) == Some(a) {
      assert HasSink(b, org, row.sink);
    }
    var sinkType := if a.ToWebhook? then Webhook(a.url) else Nats(a.subject);
    if sink :| HasSink(b, org, sink) && sink.sinkId == a.sinkId && sink.sinkType == sinkType && sink.enabled {
      assert SinkRow(sink) in rows;
      assert Due(b, org, natsConnected, a) ==> AttemptFor(SinkRow(sink), natsConnected) == Some(a);
    }
  }

  lemma {:induction false} AttemptsIds(b: Backend, org: string, rows: seq<Row>, ids: seq<string>, natsConnected: bool)
    requires SinksAt(b, org, ids, rows)
    ensures forall a :: a in Attempts(rows, natsConnected) ==> a.sinkId in ids
  {
    if rows != [] {
      var n := |rows| - 1;
      AttemptsIds(b, org, rows[..n], ids[..n], natsConnected);
      assert ids[n] in ids && forall id :: id in ids[..n] ==> id in ids;
    }
  }

  /** Ids ascend, so no sink is tried twice. */
  lemma {:induction false} AttemptsInOrder(b: Backend, org: string, rows: seq<Row>, ids: seq<string>, natsConnected: bool)
    requires SinksAt(b, org, ids, rows) && Ascending(ids)
    ensures InOrder(Attempts(rows, natsConnected))
  {
    if rows != [] {
      var n := |rows| - 1;
      AttemptsInOrder(b, org, rows[..n], ids[..n], natsConnected);
      AttemptsIds(b, org, rows[..n], ids[..n], natsConnected);
      var head, last := Attempts(rows[..n], natsConnected), AttemptFor(rows[n], natsConnected);
      if last.Some? {
        forall i | 0 <= i < |head| ensures Less(head[i].sinkId, ids[n]) {
          assert head[i] in head;
          var j :| 0 <= j < n && ids[j] == head[i].sinkId;
        }
      }
    }
  }

  /** An event is sent to exactly the organization's enabled webhooks and, while NATS is connected, its
      enabled NATS subjects, each once, in the order of their ids, whatever the receivers do. */
  lemma FanOutIsExact(b: Backend, org: string, natsConnected: bool)
    requires Sane(b) && NulFree(org)
    ensures IsFanOut(b, org, natsConnected, Attempts(b.Listing(Sinks, org), natsConnected))
  {
    var rows := b.Listing(Sinks, org);
    var ids := Calls.ListingMeaning(b, Sinks, org);
    SinksAreFiled(b, org, ids, rows);
    AttemptsMembers(rows, natsConnected);
    AttemptsInOrder(b, org, rows, ids, natsConnected);
    forall a ensures a in Attempts(rows, natsConnected) <==> Due(b, org, natsConnected, a) {
      AttemptIsDue(b, org, natsConnected, ids, rows, a);
    }
  }

  // --- A sink that is switched off ---

  lemma ToggleKeepsSane(s: Session, b: Backend, org: string, id: string, enabled: bool)
    requires Sane(b) && NulFree(org) && b.Find(Sinks, org, id).Some?
    ensures Sane(Step(s, b, Toggle(Sinks, org, id, enabled)).0)
  {
    if b.Redb? {
      StepOwned(s, b.db, Toggle(Sinks, org, id, enabled));
    } else {
      Calls.FiledRow(b, Sinks, org, id);
      var row := SetEnabled(b.Find(Sinks, org, id).value, enabled);
      assert Step(s, b, Toggle(Sinks, org, id, enabled)).0 == Pg(Postgres.Update(b.rel, Sinks, org, id, row));
      assert Filed(Sinks, org, id, row);
    }
  }

  /** After toggle_sink an event is sent to the sink exactly if it was switched on, is not a Kafka sink,
      and, for a NATS sink, NATS is connected. */
  lemma ToggleDecides(s: Session, b: Backend, org: string, id: string, enabled: bool, natsConnected: bool, a: Attempt)
    requires Sane(b) && NulFree(org) && a.sinkId == id
    requires Step(s, b, Toggle(Sinks, org, id, enabled)).1.Ok?
    ensures var b' := Step(s, b, Toggle(Sinks, org, id, enabled)).0;
            b.Find(Sinks, org, id).Some? && b.Find(Sinks, org, id).value.SinkRow?
            && (a in Attempts(b'.Listing(Sinks, org), natsConnected) <==>
                  enabled && match b.Find(Sinks, org, id).value.sink.sinkType
                             case Webhook(url) => a == ToWebhook(id, url)
                             case Nats(subject) => a == ToNats(id, subject) && natsConnected
                             case Kafka(_) => false)
  {
    Calls.ToggleSinkIff(s, b, org, id, enabled);
    var b' := Step(s, b, Toggle(Sinks, org, id, enabled)).0;
    Calls.FiledRow(b, Sinks, org, id);
    ToggleKeepsSane(s, b, org, id, enabled);
    FanOutIsExact(b', org, natsConnected);
    var sink := b'.Find(Sinks, org, id).value.sink;
    assert sink.sinkId == id && HasSink(b', org, sink);
    assert forall other :: HasSink(b', org, other) && other.sinkId == id ==> other == sink;
  }

  /** The sink is gone or disabled. */
  ghost predicate Off(db: Redb.Db, org: string, id: string)
  {
    (Sinks, Key(org, id)) in db.rows ==> db.rows[(Sinks, Key(org, id))].SinkRow? && !db.rows[(Sinks, Key(org, id))].sink.enabled
  }

  /** The call does not switch the sink on and does not create it again. */
  ghost predicate LeavesOff(op: Op, org: string, id: string)
  {
    && (op.Toggle? && op.t == Sinks && op.enabled ==> Key(op.org, op.id) != Key(org, id))
    && (op.CreateSink? ==> op.org != org || op.id != id)
  }

  lemma CreateLeavesOff(db: Redb.Db, op: Op, org: string, id: string)
    requires Owned(db) && NulFree(org) && CreatesRow(op) && LeavesOff(op, org, id) && Off(db, org, id)
    ensures var b := CreateRow(Redb(db), op).0; b.Redb? && Off(b.db, org, id)
  {
    CreateRowOutcome(db, op);
    if op.org in db.orgs && Key(org, id) == Key(op.org, op.id) { KeyInjective(org, id, op.org, op.id); }
    assert NewRow(op).0 == Sinks <==> op.CreateSink?;
  }

  lemma FormationLeavesOff(s: Session, db: Redb.Db, op: Op, org: string, id: string)
    requires (op.CreateFormation? || op.DeleteFormation?) && Off(db, org, id)
    ensures var b := FormationStep(s, Redb(db), op).0; b.Redb? && Off(b.db, org, id)
  {
    FormationOutcome(s, db, op);
  }

  lemma ToggleLeavesOff(db: Redb.Db, op: Op, org: string, id: string)
    requires Owned(db) && op.Toggle? && LeavesOff(op, org, id) && Off(db, org, id)
    ensures var b := Toggled(Redb(db), op).0; b.Redb? && Off(b.db, org, id)
  {
    if op.t in {Sinks, Idps} && (op.t, Key(op.org, op.id)) in db.rows { FoundRow(db, op.t, op.org, op.id); }
  }

  lemma TokenLeavesOff(db: Redb.Db, op: Op, org: string, id: string)
    requires (op.RevokeToken? || op.ConsumeToken?) && Off(db, org, id)
    ensures var b := ChangeToken(Redb(db), op).0; b.Redb? && Off(b.db, org, id)
  {
  }

  lemma StepLeavesOff(s: Session, db: Redb.Db, op: Op, org: string, id: string)
    requires Owned(db) && NulFree(org) && LeavesOff(op, org, id) && Off(db, org, id)
    ensures var b := Step(s, Redb(db), op).0; b.Redb? && Off(b.db, org, id)
  {
    if ReadsOnly(op) {
    } else if CreatesRow(op) {
      CreateLeavesOff(db, op, org, id);
    } else if op.CreateFormation? || op.DeleteFormation? {
      FormationLeavesOff(s, db, op, org, id);
    } else if op.RevokeToken? || op.ConsumeToken? {
      TokenLeavesOff(db, op, org, id);
    } else if op.Toggle? {
      ToggleLeavesOff(db, op, org, id);
    }
  }

  lemma {:induction false} RunLeavesOff(db: Redb.Db, calls: seq<Call>, org: string, id: string)
    requires Owned(db) && NulFree(org) && Off(db, org, id)
    requires forall i :: 0 <= i < |calls| ==> LeavesOff(calls[i].op, org, id)
    ensures var b := Run(Redb(db), calls).0; OwnedBackend(b) && Off(b.db, org, id)
    decreases |calls|
  {
    if calls != [] {
      StepOwned(calls[0].s, db, calls[0].op);
      StepLeavesOff(calls[0].s, db, calls[0].op, org, id);
      RunLeavesOff(Step(calls[0].s, Redb(db), calls[0].op).0.db, calls[1..], org, id);
    }
  }

  /** From a successful toggle_sink(false) on, over every run of calls, no event is sent to the sink until
      a call switches it on or creates it again. */
  lemma SwitchedOffStaysOff(s: Session, db: Redb.Db, org: string, id: string, calls: seq<Call>, natsConnected: bool)
    requires Owned(db) && NulFree(org) && Step(s, Redb(db), Toggle(Sinks, org, id, false)).1.Ok?
    requires forall i :: 0 <= i < |calls| ==> LeavesOff(calls[i].op, org, id)
    ensures var b := Run(Redb(db), [Call(s, Toggle(Sinks, org, id, false))] + calls).0;
            forall a :: a in Attempts(b.Listing(Sinks, org), natsConnected) ==> a.sinkId != id
  {
    var off := Toggle(Sinks, org, id, false);
    var run := [Call(s, off)] + calls;
    assert run[1..] == calls;
    StepOwned(s, db, off);
    Calls.ToggleSinkIff(s, Redb(db), org, id, false);
    RunLeavesOff(Step(s, Redb(db), off).0.db, calls, org, id);
    var b := Run(Redb(db), run).0;
    assert b == Run(Step(s, Redb(db), off).0, calls).0;
    FanOutIsExact(b, org, natsConnected);
  }
}
