/** What a consumer of the watcher's events knows about a document: it folds them into a copy of the
    document, and the copy is the document exactly if nothing that matters was dropped
    (src/cdc/watcher.rs). */
module Replica {
  import opened Models
  import opened Lex
  import opened Watcher

  /** A removal: the patches are `{"_deleted": true}` and the actor is "system". */
  predicate Tombstone(e: CdcEvent)
  {
    e.actorId == "system" && e.patches == Object(map["_deleted" := Bool(true)])
  }

  /** The consumer's copy of the document: a tombstone deletes it, any other object is its fields. */
  function CopyOf(log: seq<CdcEvent>, doc: string): Option<Fields>
  {
    if log == [] then None else
      var n := |log| - 1;
      if log[n].documentId != doc || !log[n].patches.Object? then CopyOf(log[..n], doc)
      else if Tombstone(log[n]) then None
      else Some(log[n].patches.fields)
  }

  /** The document after its latest change. */
  function ContentOf(latest: Option<Change>): Option<Fields>
  {
    if latest.Some? && latest.value.Updated? then Some(latest.value.fields) else None
  }

  /** Documents cannot be mistaken for removals: an update whose fields are `{"_deleted": true}` names no
      actor, so its event carries the actor "unknown". */
  lemma TombstoneIff(h: Hasher, f: Formation, c: Change)
    requires !c.Initial?
    ensures Tombstone(EventOf(h, f, c)) <==> c.Removed?
  {
    if c.Updated? && EventOf(h, f, c).patches == Object(map["_deleted" := Bool(true)]) {
      var a, d := "_actor", "_deleted";
      assert |a| != |d|;
      assert a !in c.fields;
      var system, unknown := "system", "unknown";
      assert |system| != |unknown|;
    }
  }

  lemma CopyPlus(h: Hasher, f: Formation, log: seq<CdcEvent>, c: Change, doc: string)
    requires !c.Initial?
    ensures CopyOf(log + [EventOf(h, f, c)], doc) == if DocOf(c) == doc then ContentOf(Some(c)) else CopyOf(log, doc)
  {
    assert (log + [EventOf(h, f, c)])[..|log|] == log;
    TombstoneIff(h, f, c);
  }

  /** The copy is the document now and after each further change. */
  ghost predicate AlwaysCopies(h: Hasher, f: Formation, cursors: Cursors, log: seq<CdcEvent>, items: seq<Item>,
                               doc: string, latest: Option<Change>)
    decreases |items|
  {
    CopyOf(log, doc) == ContentOf(latest)
    && (items == [] || AlwaysCopies(h, f, Stored(h, f, cursors, items[0]),
                                    log + Emitted(h, f, CursorOf(cursors, f, DocOf(items[0].change)), items[0]),
                                    items[1..], doc, Later(latest, items[0], doc)))
  }

  /** Whenever a change of the document is dropped, it leaves the content as it was. */
  predicate NoContentMissed(items: seq<Item>, doc: string, latest: Option<Change>, written: Option<Change>)
    decreases |items|
  {
    items == [] ||
    if !Concerns(items[0], doc) then NoContentMissed(items[1..], doc, latest, written)
    else (Dropped(written, items[0]) ==> ContentOf(Some(items[0].change)) == ContentOf(latest))
         && NoContentMissed(items[1..], doc, Some(items[0].change), WrittenAfter(written, items[0]))
  }

  /** What one change of the document does to the copy and the cursor. */
  lemma CopyAfter(h: Hasher, f: Formation, cursors: Cursors, log: seq<CdcEvent>, item: Item, doc: string,
                  latest: Option<Change>, written: Option<Change>)
    requires Injective(h) && CopyOf(log, doc) == ContentOf(latest) && CursorOf(cursors, f, doc) == LastHash(h, written)
    requires OfDocument(written, doc) && Concerns(item, doc)
    ensures CopyOf(log + Emitted(h, f, CursorOf(cursors, f, doc), item), doc)
            == if Dropped(written, item) then ContentOf(latest) else ContentOf(Some(item.change))
    ensures CursorOf(Stored(h, f, cursors, item), f, doc) == LastHash(h, WrittenAfter(written, item))
  {
    DroppedIff(h, f, CursorOf(cursors, f, doc), written, item, doc);
    StoredAt(h, f, cursors, item, doc);
    Units(log);
    CopyPlus(h, f, log, item.change, doc);
  }

  lemma OtherCopyAfter(h: Hasher, f: Formation, cursors: Cursors, log: seq<CdcEvent>, item: Item, doc: string)
    requires !Concerns(item, doc)
    ensures CopyOf(log + Emitted(h, f, CursorOf(cursors, f, DocOf(item.change)), item), doc) == CopyOf(log, doc)
    ensures CursorOf(Stored(h, f, cursors, item), f, doc) == CursorOf(cursors, f, doc)
  {
    StoredAt(h, f, cursors, item, doc);
    Units(log);
    if !item.change.Initial? { CopyPlus(h, f, log, item.change, doc); }
  }

  /** Whatever fails, the consumer's copy is the document after every change exactly if each change that
      is dropped leaves the content as it was. */
  lemma {:induction false} CopyAgreesIff(h: Hasher, f: Formation, cursors: Cursors, log: seq<CdcEvent>, items: seq<Item>,
                                         doc: string, latest: Option<Change>, written: Option<Change>)
    requires Injective(h) && CopyOf(log, doc) == ContentOf(latest) && CursorOf(cursors, f, doc) == LastHash(h, written)
    requires OfDocument(written, doc)
    ensures AlwaysCopies(h, f, cursors, log, items, doc, latest) <==> NoContentMissed(items, doc, latest, written)
    decreases |items|
  {
    if items != [] {
      var item, rest := items[0], items[1..];
      var cursors' := Stored(h, f, cursors, item);
      var log' := log + Emitted(h, f, CursorOf(cursors, f, DocOf(item.change)), item);
      if !Concerns(item, doc) {
        OtherCopyAfter(h, f, cursors, log, item, doc);
        CopyAgreesIff(h, f, cursors', log', rest, doc, latest, written);
      } else {
        CopyAfter(h, f, cursors, log, item, doc, latest, written);
        if CopyOf(log', doc) == ContentOf(Some(item.change)) {
          CopyAgreesIff(h, f, cursors', log', rest, doc, Some(item.change), WrittenAfter(written, item));
        }
      }
    }
  }

  /** A log that shows every latest change keeps the copy up to date. */
  lemma {:induction false} CurrentLogCopies(items: seq<Item>, doc: string, latest: Option<Change>, written: Option<Change>)
    requires NothingMissed(items, doc, latest, written)
    ensures NoContentMissed(items, doc, latest, written)
    decreases |items|
  {
    if items != [] {
      if !Concerns(items[0], doc) {
        CurrentLogCopies(items[1..], doc, latest, written);
      } else {
        CurrentLogCopies(items[1..], doc, Some(items[0].change), WrittenAfter(written, items[0]));
      }
    }
  }

  lemma {:induction false} LuckyContent(items: seq<Item>, doc: string, latest: Option<Change>, written: Option<Change>)
    requires Lucky(items) && OfDocument(latest, doc) && OfDocument(written, doc)
    requires written == latest || (written.Some? && latest.Some? && Repeats(written.value, latest.value))
    ensures NoContentMissed(items, doc, latest, written) <==> !HasSwallowed(latest, OfDoc(items, doc))
    decreases |items|
  {
    if items != [] {
      var item, rest := items[0], items[1..];
      if !Concerns(item, doc) {
        LuckyContent(rest, doc, latest, written);
        assert OfDoc(items, doc) == OfDoc(rest, doc);
      } else {
        assert OfDoc(items, doc)[1..] == OfDoc(rest, doc);
        if Dropped(written, item) ==> ContentOf(Some(item.change)) == ContentOf(latest) {
          LuckyContent(rest, doc, Some(item.change), WrittenAfter(written, item));
        }
      }
    }
  }

  /** Without failures the copy is the document after every change exactly if no removal swallows an empty
      update that carries its timestamp. */
  lemma LuckyCopyAgreesIff(h: Hasher, f: Formation, items: seq<Item>, doc: string)
    requires Injective(h) && Lucky(items)
    ensures AlwaysCopies(h, f, map[], [], items, doc, None) <==> !HasSwallowed(None, OfDoc(items, doc))
  {
    CopyAgreesIff(h, f, map[], [], items, doc, None, None);
    LuckyContent(items, doc, None, None);
  }
}
