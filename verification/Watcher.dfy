/** The CDC watcher: one task per formation reads the cursor, publishes, and writes the cursor
    (src/cdc/watcher.rs). */
module Watcher {
  import opened Models
  import opened Lex
  import opened Keys
  import Redb

  type Fields = map<string, Json>

  // --- hash_fields ---

  datatype Digest = Digest(doc: string, timestampMs: u64, entries: seq<(string, string)>)

  /** `serde_json::to_string` of a value, and the 64-bit hash in hexadecimal. */
  datatype Hasher = Hasher(text: Json -> string, hash: Digest -> string)

  /** Different values have different texts, and no two digests collide. */
  ghost predicate Injective(h: Hasher)
  {
    (forall x, y :: h.text(x) == h.text(y) ==> x == y) && (forall x, y :: h.hash(x) == h.hash(y) ==> x == y)
  }

  function Entries(h: Hasher, fields: Fields, keys: seq<string>): (r: seq<(string, string)>)
    requires forall k :: k in keys ==> k in fields
  {
    if keys == [] then [] else
      var n := |keys| - 1;
      Entries(h, fields, keys[..n]) + [(keys[n], h.text(fields[keys[n]]))]
  }

  function DigestOf(h: Hasher, doc: string, fields: Fields, timestampMs: u64): Digest
  {
    Digest(doc, timestampMs, Entries(h, fields, SortedKeys(fields.Keys)))
  }

  function HashOf(h: Hasher, doc: string, fields: Fields, timestampMs: u64): string
  {
    h.hash(DigestOf(h, doc, fields, timestampMs))
  }

  /** Insert into an ascending sequence. */
  function Placed(sorted: seq<string>, k: string): seq<string>
  {
    if sorted == [] || Less(k, sorted[0]) then [k] + sorted else [sorted[0]] + Placed(sorted[1..], k)
  }

  lemma {:induction false} PlacedAscending(sorted: seq<string>, k: string)
    requires Ascending(sorted) && k !in sorted
    ensures Ascending(Placed(sorted, k))
    ensures forall x :: x in Placed(sorted, k) <==> x in sorted || x == k
  {
    if sorted != [] {
      var first, rest := sorted[0], sorted[1..];
      assert sorted == [first] + rest;
      LessTotal(k, first);
      if Less(k, first) {
        forall i | 0 <= i < |sorted| ensures Less(k, sorted[i]) {
          if i > 0 { LessTransitive(k, first, sorted[i]); }
        }
      } else {
        PlacedAscending(rest, k);
        var placed := Placed(rest, k);
        forall i | 0 <= i < |placed| ensures Less(first, placed[i]) { assert placed[i] in placed; }
      }
    }
  }

  method SortKeys(order: seq<string>) returns (keys: seq<string>)
    requires forall i, j :: 0 <= i < j < |order| ==> order[i] != order[j]
    ensures Ascending(keys) && forall k :: k in keys <==> k in order
  {
    keys := [];
    for i := 0 to |order|
      invariant Ascending(keys)
      invariant forall k :: k in keys <==> k in order[..i]
    {
      PlacedAscending(keys, order[i]);
      keys := Placed(keys, order[i]);
    }
    assert order[..|order|] == order;
  }

  method Digested(h: Hasher, fields: Fields, keys: seq<string>) returns (entries: seq<(string, string)>)
    requires forall k :: k in keys ==> k in fields
    ensures entries == Entries(h, fields, keys)
  {
    entries := [];
    for i := 0 to |keys|
      invariant entries == Entries(h, fields, keys[..i])
    {
      assert keys[..i + 1][..i] == keys[..i];
      entries := entries + [(keys[i], h.text(fields[keys[i]]))];
    }
    assert keys[..|keys|] == keys;
  }

  /** hash_fields: collect the keys in whatever order the map yields them, sort, and digest. The
      result does not depend on `order`. */
  method HashFields(h: Hasher, doc: string, fields: Fields, timestampMs: u64, order: seq<string>) returns (hash: string)
    requires forall k :: k in order <==> k in fields.Keys
    requires forall i, j :: 0 <= i < j < |order| ==> order[i] != order[j]
    ensures hash == HashOf(h, doc, fields, timestampMs)
  {
    var keys := SortKeys(order);
    SortedKeysAscending(fields.Keys);
    AscendingUnique(keys, SortedKeys(fields.Keys));
    var entries := Digested(h, fields, keys);
    return h.hash(Digest(doc, timestampMs, entries));
  }

  lemma {:induction false} EntriesAt(h: Hasher, fields: Fields, keys: seq<string>)
    requires forall k :: k in keys ==> k in fields
    ensures var r := Entries(h, fields, keys);
            |r| == |keys| && forall i :: 0 <= i < |r| ==> r[i] == (keys[i], h.text(fields[keys[i]]))
  {
    if keys != [] { EntriesAt(h, fields, keys[..|keys| - 1]); }
  }

  lemma EntriesDetermineKeys(h: Hasher, fields: Fields, keys: seq<string>, fields': Fields, keys': seq<string>)
    requires (forall k :: k in keys ==> k in fields) && (forall k :: k in keys' ==> k in fields')
    requires Entries(h, fields, keys) == Entries(h, fields', keys')
    ensures keys == keys'
  {
    EntriesAt(h, fields, keys);
    EntriesAt(h, fields', keys');
    forall i | 0 <= i < |keys| ensures keys[i] == keys'[i] {
      assert Entries(h, fields, keys)[i] == Entries(h, fields', keys')[i];
    }
  }

  lemma EntriesDetermineField(h: Hasher, fields: Fields, fields': Fields, keys: seq<string>, k: string)
    requires Injective(h) && (forall k :: k in keys ==> k in fields && k in fields') && k in keys
    requires Entries(h, fields, keys) == Entries(h, fields', keys)
    ensures fields[k] == fields'[k]
  {
    EntriesAt(h, fields, keys);
    EntriesAt(h, fields', keys);
    var i :| 0 <= i < |keys| && keys[i] == k;
    assert Entries(h, fields, keys)[i] == Entries(h, fields', keys)[i];
  }

  lemma EntriesDetermine(h: Hasher, fields: Fields, fields': Fields)
    requires Injective(h) && Entries(h, fields, SortedKeys(fields.Keys)) == Entries(h, fields', SortedKeys(fields'.Keys))
    ensures fields == fields'
  {
    var keys := SortedKeys(fields.Keys);
    EntriesDetermineKeys(h, fields, keys, fields', SortedKeys(fields'.Keys));
    assert fields.Keys == fields'.Keys by {
      assert forall k :: k in fields.Keys <==> k in keys;
    }
    forall k | k in fields ensures fields[k] == fields'[k] { EntriesDetermineField(h, fields, fields', keys, k); }
  }

  /** Equal hashes mean equal documents, fields and timestamps. */
  lemma HashDetermines(h: Hasher, doc: string, fields: Fields, ts: u64, doc': string, fields': Fields, ts': u64)
    requires Injective(h) && HashOf(h, doc, fields, ts) == HashOf(h, doc', fields', ts')
    ensures doc == doc' && ts == ts' && fields == fields'
  {
    var d, d' := DigestOf(h, doc, fields, ts), DigestOf(h, doc', fields', ts');
    assert h.hash(d) == h.hash(d') && d == d';
    EntriesDetermine(h, fields, fields');
  }

  // --- One change ---

  /** ChangeEvent; the removal carries the clock reading of its handling. */
  datatype Change =
    | Updated(id: Option<string>, fields: Fields, updatedAt: u64)
    | Removed(doc: string, now: u64)
    | Initial

  /** What storage and engine do with one change. */
  datatype Luck = Luck(readOk: bool, publishOk: bool, writeOk: bool)

  datatype Item = Item(change: Change, luck: Luck)

  datatype Formation = Formation(org: string, app: string)

  function DocOf(c: Change): string
  {
    match c
    case Updated(id, _, _) => if id.Some? then id.value else "unknown"
    case Removed(doc, _) => doc
    case Initial => ""
  }

  function FieldsOf(c: Change): Fields { if c.Updated? then c.fields else map[] }

  function TimeOf(c: Change): u64
  {
    match c case Updated(_, _, at) => at case Removed(_, now) => now case Initial => 0
  }

  function HashOfChange(h: Hasher, c: Change): string
  {
    HashOf(h, DocOf(c), FieldsOf(c), TimeOf(c))
  }

  function Actor(c: Change): string
  {
    if c.Removed? then "system"
    else if "_actor" in FieldsOf(c) && FieldsOf(c)["_actor"].Str? then FieldsOf(c)["_actor"].s
    else "unknown"
  }

  function EventOf(h: Hasher, f: Formation, c: Change): CdcEvent
  {
    CdcEvent(f.org, f.app, DocOf(c), HashOfChange(h, c), Actor(c), TimeOf(c),
             if c.Removed? then Object(map["_deleted" := Bool(true)]) else Object(FieldsOf(c)))
  }

  /** What the event of a change tells. */
  ghost predicate Reports(h: Hasher, f: Formation, c: Change, e: CdcEvent)
  {
    && e.orgId == f.org && e.appId == f.app
    && match c
       case Updated(id, fields, updatedAt) =>
         && e.documentId == (match id case Some(doc) => doc case None => "unknown")
         && e.timestampMs == updatedAt && e.patches == Object(fields)
         && e.changeHash == HashOf(h, e.documentId, fields, updatedAt)
         && (if "_actor" in fields && fields["_actor"].Str? then fields["_actor"] == Str(e.actorId) else e.actorId == "unknown")
       case Removed(doc, now) =>
         && e.documentId == doc && e.timestampMs == now && e.actorId == "system"
         && e.patches == Object(map["_deleted" := Bool(true)]) && e.changeHash == HashOf(h, doc, map[], now)
       case Initial => false
  }

  type Cursors = map<string, string>

  function CursorOf(cursors: Cursors, f: Formation, doc: string): Option<string>
  {
    var key := CursorKey(f.org, f.app, doc);
    if key in cursors then Some(cursors[key]) else None
  }

  /** Only an update whose cursor was read and matches is skipped. */
  predicate Skips(h: Hasher, cursor: Option<string>, item: Item)
  {
    item.change.Updated? && item.luck.readOk && cursor == Some(HashOfChange(h, item.change))
  }

  /** What handling one change publishes. */
  function Emitted(h: Hasher, f: Formation, cursor: Option<string>, item: Item): seq<CdcEvent>
  {
    if item.change.Initial? || Skips(h, cursor, item) || !item.luck.publishOk then []
    else [EventOf(h, f, item.change)]
  }

  /** The cursors after handling one change. */
  function Stored(h: Hasher, f: Formation, cursors: Cursors, item: Item): Cursors
  {
    if item.change.Initial? || Skips(h, CursorOf(cursors, f, DocOf(item.change)), item)
       || !item.luck.publishOk || !item.luck.writeOk then cursors
    else cursors[CursorKey(f.org, f.app, DocOf(item.change)) := HashOfChange(h, item.change)]
  }

  function EmittedAll(h: Hasher, f: Formation, cursors: Cursors, items: seq<Item>): seq<CdcEvent>
    decreases |items|
  {
    if items == [] then []
    else Emitted(h, f, CursorOf(cursors, f, DocOf(items[0].change)), items[0])
         + EmittedAll(h, f, Stored(h, f, cursors, items[0]), items[1..])
  }

  function StoredAll(h: Hasher, f: Formation, cursors: Cursors, items: seq<Item>): Cursors
    decreases |items|
  {
    if items == [] then cursors else StoredAll(h, f, Stored(h, f, cursors, items[0]), items[1..])
  }

  /** The body of the event loop. */
  method HandleChange(store: Redb.RedbBackend, h: Hasher, f: Formation, item: Item) returns (published: seq<CdcEvent>)
    modifies store`cursors
    ensures published == Emitted(h, f, CursorOf(old(store.cursors), f, DocOf(item.change)), item)
    ensures |published| <= 1 && forall e :: e in published ==> Reports(h, f, item.change, e)
    ensures store.cursors == Stored(h, f, old(store.cursors), item)
  {
    if item.change.Initial? {
      return [];
    }
    var doc, hash := DocOf(item.change), HashOfChange(h, item.change);
    if item.change.Updated? && item.luck.readOk {
      var cursor := store.GetCursor(f.org, f.app, doc);
      if cursor == Some(hash) {
        return [];
      }
    }
    if !item.luck.publishOk {
      return [];
    }
    if item.luck.writeOk {
      store.SetCursor(f.org, f.app, doc, hash);
    }
    return [EventOf(h, f, item.change)];
  }

  /** The event loop of one task. */
  method WatchLoop(store: Redb.RedbBackend, h: Hasher, f: Formation, items: seq<Item>) returns (log: seq<CdcEvent>)
    modifies store`cursors
    ensures log == EmittedAll(h, f, old(store.cursors), items)
    ensures forall e :: e in log ==> exists i :: 0 <= i < |items| && Reports(h, f, items[i].change, e)
    ensures store.cursors == StoredAll(h, f, old(store.cursors), items)
  {
    log := [];
    ghost var published := EmittedAll(h, f, store.cursors, items);
    ghost var final := StoredAll(h, f, store.cursors, items);
    for i := 0 to |items|
      invariant published == log + EmittedAll(h, f, store.cursors, items[i..])
      invariant final == StoredAll(h, f, store.cursors, items[i..])
      invariant forall e :: e in log ==> exists j :: 0 <= j < i && Reports(h, f, items[j].change, e)
    {
      assert items[i..][1..] == items[i + 1..];
      ghost var rest := EmittedAll(h, f, Stored(h, f, store.cursors, items[i]), items[i + 1..]);
      var emitted := HandleChange(store, h, f, items[i]);
      Reassociate(log, emitted, rest);
      log := log + emitted;
    }
  }

  // --- Documents do not influence each other ---

  function OfDoc(items: seq<Item>, doc: string): seq<Item>
  {
    if items == [] then [] else
      (if !items[0].change.Initial? && DocOf(items[0].change) == doc then [items[0]] else []) + OfDoc(items[1..], doc)
  }

  function LogOfDoc(log: seq<CdcEvent>, doc: string): seq<CdcEvent>
  {
    if log == [] then [] else (if log[0].documentId == doc then [log[0]] else []) + LogOfDoc(log[1..], doc)
  }

  lemma {:induction false} LogOfDocConcat(a: seq<CdcEvent>, b: seq<CdcEvent>, doc: string)
    ensures LogOfDoc(a + b, doc) == LogOfDoc(a, doc) + LogOfDoc(b, doc)
  {
    if a == [] {
      assert a + b == b;
    } else {
      assert (a + b)[1..] == a[1..] + b;
      LogOfDocConcat(a[1..], b, doc);
      Reassociate(if a[0].documentId == doc then [a[0]] else [], LogOfDoc(a[1..], doc), LogOfDoc(b, doc));
    }
  }

  lemma OwnCursor(cursors: Cursors, f: Formation, doc: string, hash: string, other: string)
    ensures CursorOf(cursors[CursorKey(f.org, f.app, doc) := hash], f, other)
            == if other == doc then Some(hash) else CursorOf(cursors, f, other)
  {
    var p := f.org + [NUL] + f.app + [NUL];
    assert CursorKey(f.org, f.app, doc)[|p|..] == doc && CursorKey(f.org, f.app, other)[|p|..] == other;
  }

  lemma StoredAt(h: Hasher, f: Formation, cursors: Cursors, item: Item, doc: string)
    ensures CursorOf(Stored(h, f, cursors, item), f, doc)
            == if item.change.Initial? || DocOf(item.change) != doc || Skips(h, CursorOf(cursors, f, doc), item)
                  || !item.luck.publishOk || !item.luck.writeOk
               then CursorOf(cursors, f, doc) else Some(HashOfChange(h, item.change))
  {
    OwnCursor(cursors, f, DocOf(item.change), HashOfChange(h, item.change), doc);
  }

  lemma EmittedForDoc(h: Hasher, f: Formation, cursor: Option<string>, item: Item, doc: string)
    ensures LogOfDoc(Emitted(h, f, cursor, item), doc)
            == if DocOf(item.change) == doc then Emitted(h, f, cursor, item) else []
  {
  }

  /** Within a formation, the published log and the final cursor of a document are those of its own
      changes alone, whatever fails. */
  lemma {:induction false} DocumentsAreIndependent(h: Hasher, f: Formation, cursors: Cursors, cursors': Cursors,
                                                    items: seq<Item>, doc: string)
    requires CursorOf(cursors, f, doc) == CursorOf(cursors', f, doc)
    ensures LogOfDoc(EmittedAll(h, f, cursors, items), doc) == EmittedAll(h, f, cursors', OfDoc(items, doc))
    ensures CursorOf(StoredAll(h, f, cursors, items), f, doc) == CursorOf(StoredAll(h, f, cursors', OfDoc(items, doc)), f, doc)
    decreases |items|
  {
    if items != [] {
      var item, rest := items[0], items[1..];
      var emitted := Emitted(h, f, CursorOf(cursors, f, DocOf(item.change)), item);
      LogOfDocConcat(emitted, EmittedAll(h, f, Stored(h, f, cursors, item), rest), doc);
      EmittedForDoc(h, f, CursorOf(cursors, f, DocOf(item.change)), item, doc);
      StoredAt(h, f, cursors, item, doc);
      if !item.change.Initial? && DocOf(item.change) == doc {
        StoredAt(h, f, cursors', item, doc);
        DocumentsAreIndependent(h, f, Stored(h, f, cursors, item), Stored(h, f, cursors', item), rest, doc);
        assert OfDoc(items, doc) == [item] + OfDoc(rest, doc);
        assert ([item] + OfDoc(rest, doc))[1..] == OfDoc(rest, doc);
      } else {
        DocumentsAreIndependent(h, f, Stored(h, f, cursors, item), cursors', rest, doc);
        assert OfDoc(items, doc) == OfDoc(rest, doc);
        assert LogOfDoc(emitted, doc) == [];
      }
    }
  }

  // --- Deduplication without failures ---

  predicate Lucky(items: seq<Item>)
  {
    forall i :: 0 <= i < |items| ==> items[i].luck == Luck(true, true, true)
  }

  /** All the changes, except updates that hash like the change before them (`last` for the first). */
  function Deduped(h: Hasher, f: Formation, last: Option<string>, items: seq<Item>): seq<CdcEvent>
    decreases |items|
  {
    if items == [] then [] else
      var c := items[0].change;
      (if c.Updated? && last == Some(HashOfChange(h, c)) then [] else [EventOf(h, f, c)])
      + Deduped(h, f, Some(HashOfChange(h, c)), items[1..])
  }

  ghost predicate AllOf(items: seq<Item>, doc: string)
  {
    forall i :: 0 <= i < |items| ==> !items[i].change.Initial? && DocOf(items[i].change) == doc
  }

  lemma {:induction false} OfDocAll(items: seq<Item>, doc: string)
    ensures AllOf(OfDoc(items, doc), doc) && (Lucky(items) ==> Lucky(OfDoc(items, doc)))
  {
    if items != [] { OfDocAll(items[1..], doc); }
  }

  lemma {:induction false} OneDocDedup(h: Hasher, f: Formation, cursors: Cursors, items: seq<Item>, doc: string)
    requires Lucky(items) && AllOf(items, doc)
    ensures EmittedAll(h, f, cursors, items) == Deduped(h, f, CursorOf(cursors, f, doc), items)
    decreases |items|
  {
    if items != [] {
      StoredAt(h, f, cursors, items[0], doc);
      OneDocDedup(h, f, Stored(h, f, cursors, items[0]), items[1..], doc);
    }
  }

  /** Without failures each document's published sequence is its input, deduplicated. */
  lemma PublishesDeduplicated(h: Hasher, f: Formation, cursors: Cursors, items: seq<Item>, doc: string)
    requires Lucky(items)
    ensures LogOfDoc(EmittedAll(h, f, cursors, items), doc) == Deduped(h, f, CursorOf(cursors, f, doc), OfDoc(items, doc))
  {
    DocumentsAreIndependent(h, f, cursors, cursors, items, doc);
    OfDocAll(items, doc);
    OneDocDedup(h, f, cursors, OfDoc(items, doc), doc);
  }

  /** The promise: only an update equal to the update right before it is dropped. */
  function Ideal(h: Hasher, f: Formation, prev: Option<Change>, items: seq<Item>): seq<CdcEvent>
    decreases |items|
  {
    if items == [] then [] else
      (if prev.Some? && Repeats(prev.value, items[0].change) then [] else [EventOf(h, f, items[0].change)])
      + Ideal(h, f, Some(items[0].change), items[1..])
  }

  predicate Repeats(p: Change, c: Change)
  {
    p.Updated? && c.Updated? && p.fields == c.fields && p.updatedAt == c.updatedAt
  }

  /** An update without fields that carries the timestamp of the removal right before it. */
  predicate Swallowed(p: Change, c: Change)
  {
    p.Removed? && c.Updated? && c.fields == map[] && c.updatedAt == p.now
  }

  predicate HasSwallowed(prev: Option<Change>, items: seq<Item>)
    decreases |items|
  {
    items != [] && ((prev.Some? && Swallowed(prev.value, items[0].change)) || HasSwallowed(Some(items[0].change), items[1..]))
  }

  function LastHash(h: Hasher, prev: Option<Change>): Option<string>
  {
    if prev.Some? then Some(HashOfChange(h, prev.value)) else None
  }

  lemma HashMatches(h: Hasher, p: Change, c: Change)
    requires Injective(h) && DocOf(p) == DocOf(c) && !p.Initial? && c.Updated?
    ensures HashOfChange(h, p) == HashOfChange(h, c) <==> Repeats(p, c) || Swallowed(p, c)
  {
    if HashOfChange(h, p) == HashOfChange(h, c) {
      HashDetermines(h, DocOf(p), FieldsOf(p), TimeOf(p), DocOf(c), FieldsOf(c), TimeOf(c));
    }
  }

  lemma {:induction false} DedupedNeverLonger(h: Hasher, f: Formation, prev: Option<Change>, items: seq<Item>, doc: string)
    requires Injective(h) && AllOf(items, doc)
    requires prev.Some? ==> !prev.value.Initial? && DocOf(prev.value) == doc
    ensures |Deduped(h, f, LastHash(h, prev), items)| <= |Ideal(h, f, prev, items)|
    ensures HasSwallowed(prev, items) ==> |Deduped(h, f, LastHash(h, prev), items)| < |Ideal(h, f, prev, items)|
    ensures !HasSwallowed(prev, items) ==> Deduped(h, f, LastHash(h, prev), items) == Ideal(h, f, prev, items)
    decreases |items|
  {
    if items != [] {
      if prev.Some? && items[0].change.Updated? { HashMatches(h, prev.value, items[0].change); }
      DedupedNeverLonger(h, f, Some(items[0].change), items[1..], doc);
    }
  }

  /** A document's published sequence is its input with adjacent equal updates dropped, and nothing
      else, exactly when no update without fields carries the timestamp of a removal right before it. */
  lemma DedupIsIdealIff(h: Hasher, f: Formation, prev: Option<Change>, cursors: Cursors, items: seq<Item>, doc: string)
    requires Injective(h) && Lucky(items) && CursorOf(cursors, f, doc) == LastHash(h, prev)
    requires prev.Some? ==> !prev.value.Initial? && DocOf(prev.value) == doc
    ensures LogOfDoc(EmittedAll(h, f, cursors, items), doc) == Ideal(h, f, prev, OfDoc(items, doc))
            <==> !HasSwallowed(prev, OfDoc(items, doc))
  {
    PublishesDeduplicated(h, f, cursors, items, doc);
    OfDocAll(items, doc);
    DedupedNeverLonger(h, f, prev, OfDoc(items, doc), doc);
  }

  /** The exception occurs: the second of these changes is never published. */
  lemma RemovalSwallowsEmptyUpdate(h: Hasher, f: Formation)
    ensures var lucky := Luck(true, true, true);
            var removed, updated := Removed("d", 7), Updated(Some("d"), map[], 7);
            EmittedAll(h, f, map[], [Item(removed, lucky), Item(updated, lucky)]) == [EventOf(h, f, removed)]
  {
    var lucky := Luck(true, true, true);
    var items := [Item(Removed("d", 7), lucky), Item(Updated(Some("d"), map[], 7), lucky)];
    assert AllOf(items, "d") && Lucky(items);
    OneDocDedup(h, f, map[], items, "d");
    var hash := HashOfChange(h, items[0].change);
    assert HashOfChange(h, items[1].change) == hash;
    assert items[1..][1..] == [] && Deduped(h, f, Some(hash), items[1..]) == [];
    assert CursorOf(map[], f, "d") == None;
  }

  // --- What a consumer of the log misses ---

  function LastEvent(log: seq<CdcEvent>): Option<CdcEvent> { if log == [] then None else Some(log[|log| - 1]) }

  /** The last event of the document in the log is that of its latest change. */
  ghost predicate Shows(h: Hasher, f: Formation, log: seq<CdcEvent>, doc: string, latest: Option<Change>)
  {
    LastEvent(LogOfDoc(log, doc)) == if latest.Some? then Some(EventOf(h, f, latest.value)) else None
  }

  predicate Concerns(item: Item, doc: string) { !item.change.Initial? && DocOf(item.change) == doc }

  function Later(latest: Option<Change>, item: Item, doc: string): Option<Change>
  {
    if Concerns(item, doc) then Some(item.change) else latest
  }

  /** The log shows the latest change of the document now and after each further change. */
  ghost predicate AlwaysShows(h: Hasher, f: Formation, cursors: Cursors, log: seq<CdcEvent>, items: seq<Item>,
                              doc: string, latest: Option<Change>)
    decreases |items|
  {
    Shows(h, f, log, doc, latest)
    && (items == [] || AlwaysShows(h, f, Stored(h, f, cursors, items[0]),
                                   log + Emitted(h, f, CursorOf(cursors, f, DocOf(items[0].change)), items[0]),
                                   items[1..], doc, Later(latest, items[0], doc)))
  }

  /** Changes of one document with the same event. */
  predicate SameEvent(p: Change, c: Change) { Repeats(p, c) || (p.Removed? && c.Removed? && p.now == c.now) }

  /** The change is not published: it looks like the one whose cursor was `written` last, or the
      engine refuses it, which the source does not try again. */
  predicate Dropped(written: Option<Change>, item: Item)
  {
    !item.luck.publishOk
    || (item.change.Updated? && item.luck.readOk && written.Some?
        && (Repeats(written.value, item.change) || Swallowed(written.value, item.change)))
  }

  function WrittenAfter(written: Option<Change>, item: Item): Option<Change>
  {
    if Dropped(written, item) || !item.luck.writeOk then written else Some(item.change)
  }

  /** Whenever a change of the document is dropped, it has the event of the change before it. */
  predicate NothingMissed(items: seq<Item>, doc: string, latest: Option<Change>, written: Option<Change>)
    decreases |items|
  {
    items == [] ||
    if !Concerns(items[0], doc) then NothingMissed(items[1..], doc, latest, written)
    else (Dropped(written, items[0]) ==> latest.Some? && SameEvent(latest.value, items[0].change))
         && NothingMissed(items[1..], doc, Some(items[0].change), WrittenAfter(written, items[0]))
  }

  /** A change of the document, if any. */
  predicate OfDocument(c: Option<Change>, doc: string) { c.Some? ==> !c.value.Initial? && DocOf(c.value) == doc }

  lemma SameEventIff(h: Hasher, f: Formation, p: Change, c: Change)
    requires !p.Initial? && !c.Initial? && DocOf(p) == DocOf(c)
    ensures EventOf(h, f, p) == EventOf(h, f, c) <==> SameEvent(p, c)
  {
    var e := EventOf(h, f, p);
    if e == EventOf(h, f, c) { assert e.patches == EventOf(h, f, c).patches && e.actorId == Actor(c); }
  }

  lemma DroppedIff(h: Hasher, f: Formation, cursor: Option<string>, written: Option<Change>, item: Item, doc: string)
    requires Injective(h) && cursor == LastHash(h, written) && OfDocument(written, doc) && Concerns(item, doc)
    ensures Emitted(h, f, cursor, item) == if Dropped(written, item) then [] else [EventOf(h, f, item.change)]
  {
    if written.Some? && item.change.Updated? { HashMatches(h, written.value, item.change); }
  }

  lemma LogOfDocPlus(log: seq<CdcEvent>, e: CdcEvent, doc: string)
    ensures LogOfDoc(log + [e], doc) == LogOfDoc(log, doc) + if e.documentId == doc then [e] else []
  {
    LogOfDocConcat(log, [e], doc);
    assert [e][1..] == [];
  }

  /** What one change of the document does to the log and the cursor. */
  lemma ShowsAfter(h: Hasher, f: Formation, cursors: Cursors, log: seq<CdcEvent>, item: Item, doc: string,
                   latest: Option<Change>, written: Option<Change>)
    requires Injective(h) && Shows(h, f, log, doc, latest) && CursorOf(cursors, f, doc) == LastHash(h, written)
    requires OfDocument(latest, doc) && OfDocument(written, doc) && Concerns(item, doc)
    ensures Shows(h, f, log + Emitted(h, f, CursorOf(cursors, f, doc), item), doc, Some(item.change))
            <==> (Dropped(written, item) ==> latest.Some? && SameEvent(latest.value, item.change))
    ensures CursorOf(Stored(h, f, cursors, item), f, doc) == LastHash(h, WrittenAfter(written, item))
  {
    DroppedIff(h, f, CursorOf(cursors, f, doc), written, item, doc);
    StoredAt(h, f, cursors, item, doc);
    if Dropped(written, item) {
      Units(log);
      if latest.Some? { SameEventIff(h, f, latest.value, item.change); }
    } else {
      LogOfDocPlus(log, EventOf(h, f, item.change), doc);
    }
  }

  lemma OtherShowsAfter(h: Hasher, f: Formation, cursors: Cursors, log: seq<CdcEvent>, item: Item, doc: string,
                        latest: Option<Change>)
    requires !Concerns(item, doc) && Shows(h, f, log, doc, latest)
    ensures Shows(h, f, log + Emitted(h, f, CursorOf(cursors, f, DocOf(item.change)), item), doc, latest)
    ensures CursorOf(Stored(h, f, cursors, item), f, doc) == CursorOf(cursors, f, doc)
  {
    var emitted := Emitted(h, f, CursorOf(cursors, f, DocOf(item.change)), item);
    StoredAt(h, f, cursors, item, doc);
    LogOfDocConcat(log, emitted, doc);
    EmittedForDoc(h, f, CursorOf(cursors, f, DocOf(item.change)), item, doc);
    Units(LogOfDoc(log, doc));
    assert LogOfDoc(emitted, doc) == [];
  }

  /** Whatever fails, the log shows a document's latest change after every change exactly if each
      change that is dropped has the event of the one before it. */
  lemma {:induction false} LogIsCurrentIff(h: Hasher, f: Formation, cursors: Cursors, log: seq<CdcEvent>, items: seq<Item>,
                                           doc: string, latest: Option<Change>, written: Option<Change>)
    requires Injective(h) && Shows(h, f, log, doc, latest) && CursorOf(cursors, f, doc) == LastHash(h, written)
    requires OfDocument(latest, doc) && OfDocument(written, doc)
    ensures AlwaysShows(h, f, cursors, log, items, doc, latest) <==> NothingMissed(items, doc, latest, written)
    decreases |items|
  {
    if items != [] {
      var item, rest := items[0], items[1..];
      var cursors' := Stored(h, f, cursors, item);
      var log' := log + Emitted(h, f, CursorOf(cursors, f, DocOf(item.change)), item);
      if !Concerns(item, doc) {
        OtherShowsAfter(h, f, cursors, log, item, doc, latest);
        LogIsCurrentIff(h, f, cursors', log', rest, doc, latest, written);
      } else {
        ShowsAfter(h, f, cursors, log, item, doc, latest, written);
        if Shows(h, f, log', doc, Some(item.change)) {
          LogIsCurrentIff(h, f, cursors', log', rest, doc, Some(item.change), WrittenAfter(written, item));
        }
      }
    }
  }

  lemma {:induction false} LuckyMisses(items: seq<Item>, doc: string, latest: Option<Change>, written: Option<Change>)
    requires Lucky(items) && OfDocument(latest, doc) && OfDocument(written, doc)
    requires written == latest || (written.Some? && latest.Some? && Repeats(written.value, latest.value))
    ensures NothingMissed(items, doc, latest, written) <==> !HasSwallowed(latest, OfDoc(items, doc))
    decreases |items|
  {
    if items != [] {
      var item, rest := items[0], items[1..];
      if !Concerns(item, doc) {
        LuckyMisses(rest, doc, latest, written);
        assert OfDoc(items, doc) == OfDoc(rest, doc);
      } else {
        assert OfDoc(items, doc)[1..] == OfDoc(rest, doc);
        if Dropped(written, item) ==> latest.Some? && SameEvent(latest.value, item.change) {
          LuckyMisses(rest, doc, Some(item.change), WrittenAfter(written, item));
        }
      }
    }
  }

  /** Without failures that is to say that no removal swallows an empty update. */
  lemma LuckyLogIsCurrentIff(h: Hasher, f: Formation, items: seq<Item>, doc: string)
    requires Injective(h) && Lucky(items)
    ensures AlwaysShows(h, f, map[], [], items, doc, None) <==> !HasSwallowed(None, OfDoc(items, doc))
  {
    LogIsCurrentIff(h, f, map[], [], items, doc, None, None);
    LuckyMisses(items, doc, None, None);
  }
}
