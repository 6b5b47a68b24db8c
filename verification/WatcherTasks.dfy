/** The watcher's tasks interleaved, step by step, with their start, abort and restart
    (src/cdc/watcher.rs, src/storage/redb_backend.rs). */
module WatcherTasks {
  import opened Models
  import opened Keys
  import opened Lex
  import opened Watcher

  /** Where a task is between two awaits. */
  datatype Stage = Idle | Publishing(item: Item) | Writing(item: Item)

  /** The changes still to come, and the one in hand. */
  datatype Task = Task(items: seq<Item>, stage: Stage)

  /** A cursor write handed to the blocking pool, which an abort of its task does not stop. */
  datatype Write = Write(f: Formation, item: Item)

  /** The cursor table, everything published so far, the `handles` map, and the cursor writes that
      have outlived their tasks. A handle stays when its stream has ended. */
  datatype Sys = Sys(cursors: Cursors, log: seq<CdcEvent>, handles: map<Formation, Task>, detached: multiset<Write>)

  const NOTHING := Sys(map[], [], map[], multiset{})

  datatype Action =
    | Watch(f: Formation, stream: Option<seq<Item>>)  // None: the store cannot be observed
    | Unwatch(f: Formation)
    | Shutdown
    | Advance(f: Formation)                           // the task of `f` runs to its next await
    | Land(f: Formation, item: Item)                  // a detached write takes place, or fails

  function Writes(handles: map<Formation, Task>): set<Write>
  {
    set f | f in handles && handles[f].stage.Writing? :: Write(f, handles[f].stage.item)
  }

  /** The writes that the tasks have under way. */
  function UnderWay(handles: map<Formation, Task>): multiset<Write> { multiset(Writes(handles)) }

  function UnderWayOf(handles: map<Formation, Task>, f: Formation): multiset<Write>
  {
    if f in handles && handles[f].stage.Writing? then multiset{Write(f, handles[f].stage.item)} else multiset{}
  }

  /** The cursors after a write, if storage lets it through. */
  function Written(h: Hasher, cursors: Cursors, f: Formation, item: Item): Cursors
  {
    if item.luck.writeOk then cursors[CursorKey(f.org, f.app, DocOf(item.change)) := HashOfChange(h, item.change)]
    else cursors
  }

  function WithTask(y: Sys, f: Formation, t: Task): Sys { y.(handles := y.handles[f := t]) }

  function Take(h: Hasher, y: Sys, f: Formation, items: seq<Item>): Sys
  {
    if items == [] then y
    else
      var item := items[0];
      var skip := item.change.Initial? || Skips(h, CursorOf(y.cursors, f, DocOf(item.change)), item);
      WithTask(y, f, Task(items[1..], if skip then Idle else Publishing(item)))
  }

  function AdvanceTask(h: Hasher, y: Sys, f: Formation, t: Task): Sys
  {
    match t.stage
    case Idle => Take(h, y, f, t.items)
    case Publishing(item) =>
      if item.luck.publishOk
      then WithTask(y, f, t.(stage := Writing(item))).(log := y.log + [EventOf(h, f, item.change)])
      else WithTask(y, f, t.(stage := Idle))
    case Writing(item) => WithTask(y, f, t.(stage := Idle)).(cursors := Written(h, y.cursors, f, item))
  }

  function Next(h: Hasher, y: Sys, a: Action): Sys
  {
    match a
    case Watch(f, stream) =>
      if f in y.handles || stream.None? then y else WithTask(y, f, Task(stream.value, Idle))
    case Unwatch(f) => y.(handles := y.handles - {f}, detached := y.detached + UnderWayOf(y.handles, f))
    case Shutdown => y.(handles := map[], detached := y.detached + UnderWay(y.handles))
    case Advance(f) => if f in y.handles then AdvanceTask(h, y, f, y.handles[f]) else y
    case Land(f, item) =>
      if Write(f, item) !in y.detached then y
      else y.(cursors := Written(h, y.cursors, f, item), detached := y.detached - multiset{Write(f, item)})
  }

  function After(h: Hasher, y: Sys, actions: seq<Action>): Sys
    decreases |actions|
  {
    if actions == [] then y else After(h, Next(h, y, actions[0]), actions[1..])
  }

  /** The formation's task has handed over this cursor write. */
  predicate HasUnderWay(handles: map<Formation, Task>, w: Write)
  {
    w.f in handles && handles[w.f].stage == Writing(w.item)
  }

  lemma WritesMembers(handles: map<Formation, Task>, w: Write)
    ensures w in Writes(handles) <==> w.f in handles && handles[w.f].stage == Writing(w.item)
  {
  }

  lemma LeftBehind(handles: map<Formation, Task>, before: multiset<Write>, after: multiset<Write>)
    requires after == before + UnderWay(handles)
    ensures forall w :: after[w] == before[w] + if HasUnderWay(handles, w) then 1 else 0
  {
    forall w ensures after[w] == before[w] + if HasUnderWay(handles, w) then 1 else 0 { WritesMembers(handles, w); }
  }

  lemma UnderWayWithout(handles: map<Formation, Task>, f: Formation)
    ensures UnderWay(handles) == UnderWay(handles - {f}) + UnderWayOf(handles, f)
  {
    forall w ensures UnderWay(handles)[w] == UnderWay(handles - {f})[w] + UnderWayOf(handles, f)[w] {
      WritesMembers(handles, w);
      WritesMembers(handles - {f}, w);
    }
  }

  /** The watcher's `handles` map, and what the runtime still writes for aborted tasks. */
  class CdcWatcher {
    var handles: map<Formation, Task>
    var detached: multiset<Write>

    constructor ()
      ensures handles == map[] && detached == multiset{}
    {
      handles, detached := map[], multiset{};
    }

    /** Abort a task: only a write under way goes on. */
    method Abort(f: Formation)
      modifies this`detached
      ensures detached == old(detached) + UnderWayOf(handles, f)
    {
      if f in handles && handles[f].stage.Writing? {
        detached := detached + multiset{Write(f, handles[f].stage.item)};
      }
    }

    /** watch_formation: not twice, and not if the store cannot be observed. */
    method WatchFormation(f: Formation, stream: Option<seq<Item>>) returns (ok: bool)
      modifies this`handles
      ensures ok <==> f in old(handles) || stream.Some?
      ensures handles == if f !in old(handles) && stream.Some? then old(handles)[f := Task(stream.value, Idle)] else old(handles)
      ensures forall h: Hasher, y: Sys :: y.handles == old(handles) ==> Next(h, y, Watch(f, stream)) == y.(handles := handles)
    {
      if f in handles {
        return true;
      }
      if stream.None? {
        return false;
      }
      handles := handles[f := Task(stream.value, Idle)];
      return true;
    }

    /** The formation's task is aborted, and no other. */
    method UnwatchFormation(f: Formation)
      modifies this
      ensures handles == old(handles) - {f}
      ensures forall w :: detached[w] == old(detached)[w] + if w.f == f && HasUnderWay(old(handles), w) then 1 else 0
      ensures forall h: Hasher, y: Sys :: y.handles == old(handles) && y.detached == old(detached) ==>
                Next(h, y, Unwatch(f)) == y.(handles := handles, detached := detached)
    {
      if f in handles {
        Abort(f);
        handles := handles - {f};
      }
    }

    /** Abort every task. */
    method StopAll()
      modifies this
      ensures handles == map[]
      ensures forall w :: detached[w] == old(detached)[w] + if HasUnderWay(old(handles), w) then 1 else 0
      ensures forall h: Hasher, y: Sys :: y.handles == old(handles) && y.detached == old(detached) ==>
                Next(h, y, Shutdown) == y.(handles := handles, detached := detached)
    {
      while handles != map[]
        invariant detached + UnderWay(handles) == old(detached) + UnderWay(old(handles))
        decreases |handles|
      {
        var f :| f in handles;
        UnderWayWithout(handles, f);
        Abort(f);
        handles := handles - {f};
      }
      assert UnderWay(handles) == multiset{};
      assert detached == old(detached) + UnderWay(old(handles));
      LeftBehind(old(handles), old(detached), detached);
    }
  }

  // --- Non-interference ---

  predicate About(a: Action, f: Formation) { a.Shutdown? || a.f == f }

  /** The actions that concern the formation. */
  function Only(actions: seq<Action>, f: Formation): seq<Action>
  {
    if actions == [] then [] else (if About(actions[0], f) then [actions[0]] else []) + Only(actions[1..], f)
  }

  function LogOf(log: seq<CdcEvent>, f: Formation): seq<CdcEvent>
  {
    if log == [] then [] else
      var n := |log| - 1;
      LogOf(log[..n], f) + if log[n].orgId == f.org && log[n].appId == f.app then [log[n]] else []
  }

  lemma LogOfPlus(log: seq<CdcEvent>, e: CdcEvent, f: Formation)
    ensures LogOf(log + [e], f) == LogOf(log, f) + if e.orgId == f.org && e.appId == f.app then [e] else []
  {
    assert (log + [e])[..|log|] == log;
  }

  predicate Named(f: Formation) { NulFree(f.org) && NulFree(f.app) }

  predicate NamedAction(a: Action) { a.Shutdown? || Named(a.f) }

  /** The two systems look the same to the formation: its task, its published log, its cursors,
      the writes its aborted tasks left behind. */
  ghost predicate Alike(y: Sys, z: Sys, f: Formation)
  {
    && (f in y.handles <==> f in z.handles)
    && (f in y.handles ==> y.handles[f] == z.handles[f])
    && LogOf(y.log, f) == LogOf(z.log, f)
    && (forall doc :: CursorOf(y.cursors, f, doc) == CursorOf(z.cursors, f, doc))
    && (forall item :: y.detached[Write(f, item)] == z.detached[Write(f, item)])
  }

  lemma ForeignCursor(h: Hasher, cursors: Cursors, g: Formation, item: Item, f: Formation, doc: string)
    requires Named(f) && Named(g) && f != g
    ensures CursorOf(Written(h, cursors, g, item), f, doc) == CursorOf(cursors, f, doc)
  {
    if CursorKey(g.org, g.app, DocOf(item.change)) == CursorKey(f.org, f.app, doc) {
      CursorKeyInjective(g.org, g.app, DocOf(item.change), f.org, f.app, doc);
    }
  }

  lemma ForeignCursors(h: Hasher, cursors: Cursors, g: Formation, item: Item, f: Formation)
    requires Named(f) && Named(g) && f != g
    ensures forall doc :: CursorOf(Written(h, cursors, g, item), f, doc) == CursorOf(cursors, f, doc)
  {
    forall doc ensures CursorOf(Written(h, cursors, g, item), f, doc) == CursorOf(cursors, f, doc) {
      ForeignCursor(h, cursors, g, item, f, doc);
    }
  }

  lemma ForeignPublish(h: Hasher, log: seq<CdcEvent>, g: Formation, c: Change, f: Formation)
    requires f != g
    ensures LogOf(log + [EventOf(h, g, c)], f) == LogOf(log, f)
  {
    LogOfPlus(log, EventOf(h, g, c), f);
  }

  /** A step of another formation's task goes unnoticed. */
  lemma ForeignAdvance(h: Hasher, y: Sys, g: Formation, t: Task, f: Formation)
    requires Named(f) && Named(g) && f != g
    ensures Alike(AdvanceTask(h, y, g, t), y, f)
  {
    match t.stage {
      case Idle =>
      case Publishing(item) => ForeignPublish(h, y.log, g, item.change, f);
      case Writing(item) => ForeignCursors(h, y.cursors, g, item, f);
    }
  }

  lemma ForeignNext(h: Hasher, y: Sys, a: Action, f: Formation)
    requires Named(f) && NamedAction(a) && !About(a, f)
    ensures Alike(Next(h, y, a), y, f)
  {
    if a.Advance? && a.f in y.handles { ForeignAdvance(h, y, a.f, y.handles[a.f], f); }
    if a.Land? { ForeignCursors(h, y.cursors, a.f, a.item, f); }
  }

  lemma OwnWritten(h: Hasher, cursors: Cursors, cursors': Cursors, f: Formation, item: Item)
    requires forall doc :: CursorOf(cursors, f, doc) == CursorOf(cursors', f, doc)
    ensures forall doc :: CursorOf(Written(h, cursors, f, item), f, doc) == CursorOf(Written(h, cursors', f, item), f, doc)
  {
    forall doc ensures CursorOf(Written(h, cursors, f, item), f, doc) == CursorOf(Written(h, cursors', f, item), f, doc) {
      assert CursorOf(cursors, f, doc) == CursorOf(cursors', f, doc);
      OwnCursor(cursors, f, DocOf(item.change), HashOfChange(h, item.change), doc);
      OwnCursor(cursors', f, DocOf(item.change), HashOfChange(h, item.change), doc);
    }
  }

  lemma OwnTake(h: Hasher, y: Sys, z: Sys, f: Formation, t: Task)
    requires Alike(y, z, f) && f in y.handles && y.handles[f] == t && t.stage.Idle?
    ensures Alike(AdvanceTask(h, y, f, t), AdvanceTask(h, z, f, t), f)
  {
    if t.items != [] {
      var doc := DocOf(t.items[0].change);
      assert CursorOf(y.cursors, f, doc) == CursorOf(z.cursors, f, doc);
    }
  }

  lemma OwnPublish(h: Hasher, y: Sys, z: Sys, f: Formation, t: Task)
    requires Alike(y, z, f) && f in y.handles && y.handles[f] == t && t.stage.Publishing?
    ensures Alike(AdvanceTask(h, y, f, t), AdvanceTask(h, z, f, t), f)
  {
    LogOfPlus(y.log, EventOf(h, f, t.stage.item.change), f);
    LogOfPlus(z.log, EventOf(h, f, t.stage.item.change), f);
  }

  lemma OwnStore(h: Hasher, y: Sys, z: Sys, f: Formation, t: Task)
    requires Alike(y, z, f) && f in y.handles && y.handles[f] == t && t.stage.Writing?
    ensures Alike(AdvanceTask(h, y, f, t), AdvanceTask(h, z, f, t), f)
  {
    OwnWritten(h, y.cursors, z.cursors, f, t.stage.item);
  }

  lemma OwnAdvance(h: Hasher, y: Sys, z: Sys, f: Formation, t: Task)
    requires Alike(y, z, f) && f in y.handles && y.handles[f] == t
    ensures Alike(AdvanceTask(h, y, f, t), AdvanceTask(h, z, f, t), f)
  {
    match t.stage {
      case Idle => OwnTake(h, y, z, f, t);
      case Publishing(_) => OwnPublish(h, y, z, f, t);
      case Writing(_) => OwnStore(h, y, z, f, t);
    }
  }

  lemma OwnLand(h: Hasher, y: Sys, z: Sys, f: Formation, item: Item)
    requires Alike(y, z, f)
    ensures Alike(Next(h, y, Land(f, item)), Next(h, z, Land(f, item)), f)
  {
    assert y.detached[Write(f, item)] == z.detached[Write(f, item)];
    OwnWritten(h, y.cursors, z.cursors, f, item);
  }

  lemma OwnAbort(h: Hasher, y: Sys, z: Sys, a: Action, f: Formation)
    requires Alike(y, z, f) && (a.Unwatch? || a.Shutdown?) && About(a, f)
    ensures Alike(Next(h, y, a), Next(h, z, a), f)
  {
    forall item ensures Next(h, y, a).detached[Write(f, item)] == Next(h, z, a).detached[Write(f, item)] {
      assert y.detached[Write(f, item)] == z.detached[Write(f, item)];
      UnderWayAt(y.handles, f, item);
      UnderWayAt(z.handles, f, item);
    }
  }

  lemma UnderWayAt(handles: map<Formation, Task>, f: Formation, item: Item)
    ensures UnderWay(handles)[Write(f, item)] == UnderWayOf(handles, f)[Write(f, item)]
            == if f in handles && handles[f].stage == Writing(item) then 1 else 0
  {
    WritesMembers(handles, Write(f, item));
  }

  lemma OwnNext(h: Hasher, y: Sys, z: Sys, a: Action, f: Formation)
    requires Alike(y, z, f) && About(a, f)
    ensures Alike(Next(h, y, a), Next(h, z, a), f)
  {
    match a {
      case Watch(_, _) =>
      case Unwatch(_) => OwnAbort(h, y, z, a, f);
      case Shutdown => OwnAbort(h, y, z, a, f);
      case Advance(_) => if f in y.handles { OwnAdvance(h, y, z, f, y.handles[f]); }
      case Land(_, item) => OwnLand(h, y, z, f, item);
    }
  }

  lemma AlikeTransitive(x: Sys, y: Sys, z: Sys, f: Formation)
    requires Alike(x, y, f) && Alike(y, z, f)
    ensures Alike(x, z, f)
  {
    forall doc ensures CursorOf(x.cursors, f, doc) == CursorOf(z.cursors, f, doc) {
      assert CursorOf(x.cursors, f, doc) == CursorOf(y.cursors, f, doc);
    }
    forall item ensures x.detached[Write(f, item)] == z.detached[Write(f, item)] {
      assert x.detached[Write(f, item)] == y.detached[Write(f, item)];
    }
  }

  /** Any interleaving of tasks, starts, aborts and writes that outlive them leaves each formation with
      the published log, the cursors and the task it has when only its own actions take place. */
  lemma {:induction false} FormationsDoNotInterfere(h: Hasher, y: Sys, z: Sys, actions: seq<Action>, f: Formation)
    requires Named(f) && (forall i :: 0 <= i < |actions| ==> NamedAction(actions[i]))
    requires Alike(y, z, f)
    ensures Alike(After(h, y, actions), After(h, z, Only(actions, f)), f)
    decreases |actions|
  {
    if actions != [] {
      var a, rest := actions[0], actions[1..];
      if About(a, f) {
        OwnNext(h, y, z, a, f);
        FormationsDoNotInterfere(h, Next(h, y, a), Next(h, z, a), rest, f);
        assert Only(actions, f)[1..] == Only(rest, f);
      } else {
        ForeignNext(h, y, a, f);
        AlikeTransitive(Next(h, y, a), y, z, f);
        FormationsDoNotInterfere(h, Next(h, y, a), z, rest, f);
        assert Only(actions, f) == Only(rest, f);
      }
    }
  }

  // --- An aborted task is silent ---

  predicate Starts(a: Action, f: Formation) { a.Watch? && a.f == f && a.stream.Some? }

  lemma AdvancedElsewhere(h: Hasher, y: Sys, g: Formation, t: Task, f: Formation)
    requires g != f
    ensures var y' := AdvanceTask(h, y, g, t); (f in y'.handles <==> f in y.handles) && LogOf(y'.log, f) == LogOf(y.log, f)
  {
    if t.stage.Publishing? { ForeignPublish(h, y.log, g, t.stage.item.change, f); }
  }

  lemma UnwatchedNext(h: Hasher, y: Sys, a: Action, f: Formation)
    requires f !in y.handles && !Starts(a, f)
    ensures f !in Next(h, y, a).handles && LogOf(Next(h, y, a).log, f) == LogOf(y.log, f)
  {
    if a.Advance? && a.f in y.handles { AdvancedElsewhere(h, y, a.f, y.handles[a.f], f); }
  }

  lemma {:induction false} UnwatchedIsSilent(h: Hasher, y: Sys, actions: seq<Action>, f: Formation)
    requires f !in y.handles && forall i :: 0 <= i < |actions| ==> !Starts(actions[i], f)
    ensures f !in After(h, y, actions).handles && LogOf(After(h, y, actions).log, f) == LogOf(y.log, f)
    decreases |actions|
  {
    if actions != [] {
      UnwatchedNext(h, y, actions[0], f);
      UnwatchedIsSilent(h, Next(h, y, actions[0]), actions[1..], f);
    }
  }

  /** From its abort, by unwatch_formation or at shutdown, until it is watched again, a formation publishes
      nothing, whatever the other tasks and late writes do. */
  lemma AbortedIsSilent(h: Hasher, y: Sys, a: Action, actions: seq<Action>, f: Formation)
    requires a == Unwatch(f) || a == Shutdown
    requires forall i :: 0 <= i < |actions| ==> !Starts(actions[i], f)
    ensures LogOf(After(h, y, [a] + actions).log, f) == LogOf(y.log, f)
  {
    assert ([a] + actions)[1..] == actions;
    UnwatchedIsSilent(h, Next(h, y, a), actions, f);
  }

  /** The write of an aborted task takes place once, if storage lets it through, and then the cursor is the
      hash of the change. */
  lemma LateWriteLands(h: Hasher, y: Sys, f: Formation, item: Item)
    requires Write(f, item) in y.detached
    ensures var y' := Next(h, y, Land(f, item));
            y'.log == y.log && y'.handles == y.handles
            && y'.detached[Write(f, item)] == y.detached[Write(f, item)] - 1
            && forall doc :: CursorOf(y'.cursors, f, doc)
                             == if item.luck.writeOk && doc == DocOf(item.change) then Some(HashOfChange(h, item.change))
                                else CursorOf(y.cursors, f, doc)
  {
    forall doc { OwnCursor(y.cursors, f, DocOf(item.change), HashOfChange(h, item.change), doc); }
  }

  // --- A task left to itself is the event loop ---

  function Advances(h: Hasher, y: Sys, f: Formation, n: nat): Sys
    decreases n
  {
    if n == 0 then y else Advances(h, Next(h, y, Advance(f)), f, n - 1)
  }

  lemma {:induction false} DoneStays(h: Hasher, y: Sys, f: Formation, n: nat)
    requires f in y.handles && y.handles[f] == Task([], Idle)
    ensures Advances(h, y, f, n) == y
  {
    if n != 0 { DoneStays(h, y, f, n - 1); }
  }

  lemma AdvancesOnce(h: Hasher, y: Sys, f: Formation, n: nat)
    requires n > 0
    ensures Advances(h, y, f, n) == Advances(h, Next(h, y, Advance(f)), f, n - 1)
  {
  }

  lemma Taken(h: Hasher, y: Sys, f: Formation, items: seq<Item>)
    requires f in y.handles && y.handles[f] == Task(items, Idle) && items != []
    ensures var skip := items[0].change.Initial? || Skips(h, CursorOf(y.cursors, f, DocOf(items[0].change)), items[0]);
            Next(h, y, Advance(f)) == WithTask(y, f, Task(items[1..], if skip then Idle else Publishing(items[0])))
  {
  }

  lemma Tried(h: Hasher, y: Sys, f: Formation, items: seq<Item>, item: Item)
    ensures Next(h, WithTask(y, f, Task(items, Publishing(item))), Advance(f))
            == if item.luck.publishOk
               then WithTask(y, f, Task(items, Writing(item))).(log := y.log + [EventOf(h, f, item.change)])
               else WithTask(y, f, Task(items, Idle))
  {
    var after := Task(items, if item.luck.publishOk then Writing(item) else Idle);
    assert y.handles[f := Task(items, Publishing(item))][f := after] == y.handles[f := after];
  }

  lemma Wrote(h: Hasher, y: Sys, f: Formation, items: seq<Item>, item: Item, log: seq<CdcEvent>)
    ensures Next(h, WithTask(y, f, Task(items, Writing(item))).(log := log), Advance(f))
            == Sys(Written(h, y.cursors, f, item), log, y.handles[f := Task(items, Idle)], y.detached)
  {
    assert y.handles[f := Task(items, Writing(item))][f := Task(items, Idle)] == y.handles[f := Task(items, Idle)];
  }

  /** The system once the formation's task has handled `item`. */
  function Handled(h: Hasher, y: Sys, f: Formation, item: Item, rest: seq<Item>): Sys
  {
    Sys(Stored(h, f, y.cursors, item), y.log + Emitted(h, f, CursorOf(y.cursors, f, DocOf(item.change)), item),
        y.handles[f := Task(rest, Idle)], y.detached)
  }

  predicate Passes(h: Hasher, y: Sys, f: Formation, item: Item)
  {
    item.change.Initial? || Skips(h, CursorOf(y.cursors, f, DocOf(item.change)), item)
  }

  lemma HandledAs(h: Hasher, y: Sys, f: Formation, item: Item, rest: seq<Item>)
    ensures Handled(h, y, f, item, rest)
            == if Passes(h, y, f, item) || !item.luck.publishOk then WithTask(y, f, Task(rest, Idle))
               else Sys(Written(h, y.cursors, f, item), y.log + [EventOf(h, f, item.change)],
                        y.handles[f := Task(rest, Idle)], y.detached)
  {
    Units(y.log);
  }

  /** One to three steps handle one change; `m` are left. */
  lemma HandlesOne(h: Hasher, y: Sys, f: Formation, items: seq<Item>, n: nat) returns (m: nat)
    requires f in y.handles && y.handles[f] == Task(items, Idle) && items != [] && n >= 3
    ensures n - 3 <= m < n
    ensures Advances(h, y, f, n) == Advances(h, Handled(h, y, f, items[0], items[1..]), f, m)
  {
    var item, rest := items[0], items[1..];
    HandledAs(h, y, f, item, rest);
    Taken(h, y, f, items);
    AdvancesOnce(h, y, f, n);
    if Passes(h, y, f, item) { return n - 1; }
    m := TriesOne(h, y, f, item, rest, n - 1);
  }

  lemma TriesOne(h: Hasher, y: Sys, f: Formation, item: Item, rest: seq<Item>, n: nat) returns (m: nat)
    requires n >= 2
    ensures n - 2 <= m < n
    ensures Advances(h, WithTask(y, f, Task(rest, Publishing(item))), f, n)
            == Advances(h, if item.luck.publishOk then Sys(Written(h, y.cursors, f, item), y.log + [EventOf(h, f, item.change)],
                                                           y.handles[f := Task(rest, Idle)], y.detached)
                           else WithTask(y, f, Task(rest, Idle)), f, m)
  {
    var taken := WithTask(y, f, Task(rest, Publishing(item)));
    Tried(h, y, f, rest, item);
    AdvancesOnce(h, taken, f, n);
    if !item.luck.publishOk { return n - 1; }
    Wrote(h, y, f, rest, item, y.log + [EventOf(h, f, item.change)]);
    AdvancesOnce(h, Next(h, taken, Advance(f)), f, n - 1);
    return n - 2;
  }

  /** Run alone to the end of its stream, a task publishes and stores what `WatchLoop` does. */
  lemma {:induction false} AloneIsTheLoop(h: Hasher, y: Sys, f: Formation, items: seq<Item>, n: nat)
    requires f in y.handles && y.handles[f] == Task(items, Idle) && n >= 3 * |items|
    ensures Advances(h, y, f, n)
            == Sys(StoredAll(h, f, y.cursors, items), y.log + EmittedAll(h, f, y.cursors, items),
                   y.handles[f := Task([], Idle)], y.detached)
    decreases |items|
  {
    if items == [] {
      DoneStays(h, y, f, n);
    } else {
      var m := HandlesOne(h, y, f, items, n);
      var y' := Handled(h, y, f, items[0], items[1..]);
      AloneIsTheLoop(h, y', f, items[1..], m);
      Reassociate(y.log, Emitted(h, f, CursorOf(y.cursors, f, DocOf(items[0].change)), items[0]),
                  EmittedAll(h, f, y'.cursors, items[1..]));
      assert y'.handles[f := Task([], Idle)] == y.handles[f := Task([], Idle)];
    }
  }

  // --- Safety under failures and restarts ---

  /** An event for the document with that hash has been published. */
  ghost predicate Published(h: Hasher, log: seq<CdcEvent>, f: Formation, doc: string, hash: string)
  {
    exists c: Change :: !c.Initial? && DocOf(c) == doc && HashOfChange(h, c) == hash && EventOf(h, f, c) in log
  }

  /** Every stored cursor is the hash of a published event. */
  ghost predicate SoundCursors(h: Hasher, cursors: Cursors, log: seq<CdcEvent>)
  {
    forall f, doc :: Named(f) && CursorOf(cursors, f, doc).Some? ==> Published(h, log, f, doc, CursorOf(cursors, f, doc).value)
  }

  /** A write only records what has been published. */
  ghost predicate SoundWrite(h: Hasher, log: seq<CdcEvent>, w: Write)
  {
    Named(w.f) && !w.item.change.Initial? && EventOf(h, w.f, w.item.change) in log
  }

  ghost predicate SoundTask(h: Hasher, log: seq<CdcEvent>, f: Formation, t: Task)
  {
    Named(f) && match t.stage
    case Idle => true
    case Publishing(item) => !item.change.Initial?
    case Writing(item) => SoundWrite(h, log, Write(f, item))
  }

  ghost predicate Safe(h: Hasher, y: Sys)
  {
    && SoundCursors(h, y.cursors, y.log)
    && SoundTasks(h, y.log, y.handles)
    && SoundWrites(h, y.log, y.detached)
  }

  ghost predicate SoundTasks(h: Hasher, log: seq<CdcEvent>, handles: map<Formation, Task>)
  {
    forall f :: f in handles ==> SoundTask(h, log, f, handles[f])
  }

  ghost predicate SoundWrites(h: Hasher, log: seq<CdcEvent>, writes: multiset<Write>)
  {
    forall w :: w in writes ==> SoundWrite(h, log, w)
  }

  lemma LogGrows(h: Hasher, cursors: Cursors, log: seq<CdcEvent>, e: CdcEvent)
    requires SoundCursors(h, cursors, log)
    ensures SoundCursors(h, cursors, log + [e])
  {
    forall f, doc | Named(f) && CursorOf(cursors, f, doc).Some?
      ensures Published(h, log + [e], f, doc, CursorOf(cursors, f, doc).value)
    {
      var hash := CursorOf(cursors, f, doc).value;
      var c: Change :| !c.Initial? && DocOf(c) == doc && HashOfChange(h, c) == hash && EventOf(h, f, c) in log;
      assert EventOf(h, f, c) in log + [e];
    }
  }

  lemma TasksStaySound(h: Hasher, log: seq<CdcEvent>, e: CdcEvent, handles: map<Formation, Task>, detached: multiset<Write>)
    requires SoundTasks(h, log, handles) && SoundWrites(h, log, detached)
    ensures SoundTasks(h, log + [e], handles) && SoundWrites(h, log + [e], detached)
  {
    forall f | f in handles ensures SoundTask(h, log + [e], f, handles[f]) { assert SoundTask(h, log, f, handles[f]); }
  }

  /** A write for a published event, however late, leaves the cursors sound. */
  lemma WrittenSound(h: Hasher, cursors: Cursors, log: seq<CdcEvent>, f: Formation, item: Item)
    requires SoundCursors(h, cursors, log) && SoundWrite(h, log, Write(f, item))
    ensures SoundCursors(h, Written(h, cursors, f, item), log)
  {
    var doc, hash := DocOf(item.change), HashOfChange(h, item.change);
    assert Published(h, log, f, doc, hash);
    forall g, other | Named(g) && CursorOf(Written(h, cursors, f, item), g, other).Some?
      ensures Published(h, log, g, other, CursorOf(Written(h, cursors, f, item), g, other).value)
    {
      if g == f {
        OwnCursor(cursors, f, doc, hash, other);
      } else {
        ForeignCursor(h, cursors, f, item, g, other);
      }
    }
  }

  /** A new stage for one task. */
  lemma TaskSound(h: Hasher, log: seq<CdcEvent>, handles: map<Formation, Task>, f: Formation, t: Task)
    requires SoundTasks(h, log, handles) && SoundTask(h, log, f, t)
    ensures SoundTasks(h, log, handles[f := t])
  {
  }

  lemma PublishSafe(h: Hasher, y: Sys, f: Formation, item: Item)
    requires Safe(h, y) && f in y.handles && y.handles[f].stage == Publishing(item)
    ensures Safe(h, AdvanceTask(h, y, f, y.handles[f]))
  {
    var e := EventOf(h, f, item.change);
    assert SoundTask(h, y.log, f, y.handles[f]);
    if item.luck.publishOk {
      LogGrows(h, y.cursors, y.log, e);
      TasksStaySound(h, y.log, e, y.handles, y.detached);
      TaskSound(h, y.log + [e], y.handles, f, y.handles[f].(stage := Writing(item)));
    } else {
      TaskSound(h, y.log, y.handles, f, y.handles[f].(stage := Idle));
    }
  }

  lemma WriteSafe(h: Hasher, y: Sys, f: Formation, item: Item)
    requires Safe(h, y) && f in y.handles && y.handles[f].stage == Writing(item)
    ensures Safe(h, AdvanceTask(h, y, f, y.handles[f]))
  {
    assert SoundTask(h, y.log, f, y.handles[f]);
    WrittenSound(h, y.cursors, y.log, f, item);
    TaskSound(h, y.log, y.handles, f, y.handles[f].(stage := Idle));
  }

  lemma TakeSafe(h: Hasher, y: Sys, f: Formation)
    requires Safe(h, y) && f in y.handles && y.handles[f].stage.Idle?
    ensures Safe(h, AdvanceTask(h, y, f, y.handles[f]))
  {
    var y' := AdvanceTask(h, y, f, y.handles[f]);
    assert SoundTask(h, y.log, f, y.handles[f]);
    TaskSound(h, y.log, y.handles, f, y'.handles[f]);
    assert y'.handles == y.handles[f := y'.handles[f]];
  }

  /** An abort leaves sound writes behind. */
  lemma AbortSafe(h: Hasher, y: Sys, a: Action)
    requires Safe(h, y) && (a.Unwatch? || a.Shutdown?)
    ensures Safe(h, Next(h, y, a))
  {
    forall w | w in Next(h, y, a).detached && w !in y.detached ensures SoundWrite(h, y.log, w) {
      WritesMembers(y.handles, w);
      assert SoundTask(h, y.log, w.f, y.handles[w.f]);
    }
  }

  lemma LandSafe(h: Hasher, y: Sys, f: Formation, item: Item)
    requires Safe(h, y)
    ensures Safe(h, Next(h, y, Land(f, item)))
  {
    if Write(f, item) in y.detached { WrittenSound(h, y.cursors, y.log, f, item); }
  }

  lemma NextSafe(h: Hasher, y: Sys, a: Action)
    requires Safe(h, y) && NamedAction(a)
    ensures Safe(h, Next(h, y, a))
  {
    match a {
      case Watch(f, stream) =>
        if f !in y.handles && stream.Some? { TaskSound(h, y.log, y.handles, f, Task(stream.value, Idle)); }
      case Unwatch(_) => AbortSafe(h, y, a);
      case Shutdown => AbortSafe(h, y, a);
      case Land(f, item) => LandSafe(h, y, f, item);
      case Advance(f) =>
        if f in y.handles {
          match y.handles[f].stage {
            case Idle => TakeSafe(h, y, f);
            case Publishing(item) => PublishSafe(h, y, f, item);
            case Writing(item) => WriteSafe(h, y, f, item);
          }
        }
    }
  }

  lemma {:induction false} RunSafe(h: Hasher, y: Sys, actions: seq<Action>)
    requires Safe(h, y) && forall i :: 0 <= i < |actions| ==> NamedAction(actions[i])
    ensures Safe(h, After(h, y, actions))
    decreases |actions|
  {
    if actions != [] {
      NextSafe(h, y, actions[0]);
      RunSafe(h, Next(h, y, actions[0]), actions[1..]);
    }
  }

  /** Whatever fails, however often tasks are aborted and restarted, and however late the writes of
      aborted tasks land: a stored cursor is the hash of an event already published for that document. */
  lemma CursorsWerePublished(h: Hasher, actions: seq<Action>, f: Formation, doc: string)
    requires Named(f) && forall i :: 0 <= i < |actions| ==> NamedAction(actions[i])
    ensures var y := After(h, NOTHING, actions);
            var cursor := CursorOf(y.cursors, f, doc);
            cursor.Some? ==> Published(h, y.log, f, doc, cursor.value)
  {
    assert Safe(h, NOTHING);
    RunSafe(h, NOTHING, actions);
  }

  lemma CursorPublished(h: Hasher, y: Sys, f: Formation, doc: string) returns (c: Change)
    requires Safe(h, y) && Named(f) && CursorOf(y.cursors, f, doc).Some?
    ensures !c.Initial? && DocOf(c) == doc && EventOf(h, f, c) in y.log
    ensures HashOfChange(h, c) == CursorOf(y.cursors, f, doc).value
  {
    assert Published(h, y.log, f, doc, CursorOf(y.cursors, f, doc).value);
    c :| !c.Initial? && DocOf(c) == doc && HashOfChange(h, c) == CursorOf(y.cursors, f, doc).value
         && EventOf(h, f, c) in y.log;
  }

  lemma RepeatsSameEvent(h: Hasher, f: Formation, p: Change, c: Change)
    requires Repeats(p, c) && DocOf(p) == DocOf(c)
    ensures EventOf(h, f, p) == EventOf(h, f, c)
  {
  }

  /** So a skipped update was published before: the very event, or the removal it repeats. */
  lemma SkippedWasPublished(h: Hasher, y: Sys, f: Formation, item: Item)
    requires Injective(h) && Safe(h, y) && Named(f)
    requires !item.change.Initial? && Skips(h, CursorOf(y.cursors, f, DocOf(item.change)), item)
    ensures EventOf(h, f, item.change) in y.log
            || exists c: Change :: Swallowed(c, item.change) && DocOf(c) == DocOf(item.change) && EventOf(h, f, c) in y.log
  {
    var d := item.change;
    var c := CursorPublished(h, y, f, DocOf(d));
    HashMatches(h, c, d);
    if Repeats(c, d) { RepeatsSameEvent(h, f, c, d); }
  }
}
