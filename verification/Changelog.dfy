/** The changelog kept in the store, in a graph of its own. */
module Changelog {
  import opened Wrappers
  import opened Dataset
  import opened ChangelogModel

  datatype ChangelogError = Disabled | NotFound | NotUndoable

  /** The changelog quad of an entry with the given predicate. */
  function EntryQuad(id: nat, pred: Pred, value: Value): Quad { Quad(EntryNode(id), pred, value, ChangelogGraph) }

  /** The quads that store an entry: one per predicate; a delta list is stored only if it is not empty. */
  predicate Describes(e: Entry, q: Quad) {
    q.subj == EntryNode(e.id) && q.graph.ChangelogGraph? &&
    match q.pred
    case RdfType => q.obj == Node("urn:oxigraph:ChangelogEntry")
    case TxnId => q.obj == Number(e.id)
    case Timestamp => q.obj == Text(e.timestamp)
    case Operation => q.obj == Text(e.operation)
    case Undoable => q.obj == Flag(e.undoable)
    case InsertCount => q.obj == Number(|e.inserted|)
    case RemoveCount => q.obj == Number(|e.removed|)
    case InsertedNQuads => e.inserted != [] && q.obj == QuadList(e.inserted)
    case RemovedNQuads => e.removed != [] && q.obj == QuadList(e.removed)
    case UserPred(_) => false
  }

  /** The changelog quads of a store are the quads of the entries of `log`, and nothing else. */
  ghost predicate Stores(store: Quads, log: Log) {
    && (forall id | id in log :: log[id].id == id)
    && (forall q | q in store && !IsUser(q) :: q.subj.EntryNode? && q.subj.id in log && Describes(log[q.subj.id], q))
    && (forall id, q | id in log && Describes(log[id], q) :: q in store)
  }

  /** `quads_for_pattern` on the changelog graph. */
  function Pattern(store: Quads, subj: Option<Subject>, pred: Option<Pred>): Quads {
    set q | q in store && !IsUser(q) && (subj.None? || q.subj == subj.value) && (pred.None? || q.pred == pred.value)
  }

  /** All of an entry's quads, and no others, have its subject. */
  lemma EntryPattern(store: Quads, log: Log, id: nat)
    requires Stores(store, log)
    ensures forall q :: q in Pattern(store, Some(EntryNode(id)), None) <==> id in log && Describes(log[id], q)
  {
  }

  /** The id quads are one per entry. */
  lemma IdPattern(store: Quads, log: Log)
    requires Stores(store, log)
    ensures forall q | q in Pattern(store, None, Some(TxnId)) ::
              q.subj.EntryNode? && q.subj.id in log && q.obj == Number(q.subj.id)
    ensures forall id | id in log :: EntryQuad(id, TxnId, Number(id)) in Pattern(store, None, Some(TxnId))
  {
    forall id | id in log ensures EntryQuad(id, TxnId, Number(id)) in Pattern(store, None, Some(TxnId)) {
      assert Describes(log[id], EntryQuad(id, TxnId, Number(id)));
    }
  }

  /** What anyone who looks sees of an entry's delta: the counts are those of the lists, and no list is empty. */
  lemma DeltaStored(store: Quads, log: Log, id: nat, v: Value)
    requires Stores(store, log) && id in log
    ensures EntryQuad(id, InsertCount, v) in store <==> v == Number(|log[id].inserted|)
    ensures EntryQuad(id, RemoveCount, v) in store <==> v == Number(|log[id].removed|)
    ensures EntryQuad(id, InsertedNQuads, v) in store <==> v == QuadList(log[id].inserted) && log[id].inserted != []
    ensures EntryQuad(id, RemovedNQuads, v) in store <==> v == QuadList(log[id].removed) && log[id].removed != []
  {
    assert log[id].inserted != [] ==> Describes(log[id], EntryQuad(id, InsertedNQuads, QuadList(log[id].inserted)));
    assert log[id].removed != [] ==> Describes(log[id], EntryQuad(id, RemovedNQuads, QuadList(log[id].removed)));
    assert Describes(log[id], EntryQuad(id, InsertCount, Number(|log[id].inserted|)));
    assert Describes(log[id], EntryQuad(id, RemoveCount, Number(|log[id].removed|)));
  }

  lemma StoresAdd(store: Quads, log: Log, e: Entry, added: Quads)
    requires Stores(store, log) && e.id !in log && forall q :: q in added <==> Describes(e, q)
    ensures Stores(store + added, log[e.id := e]) && UserData(store + added) == UserData(store)
  {
  }

  function Without(log: Log, ids: set<nat>): Log { log - ids }

  /** Removing the quads of some entries removes those entries. */
  lemma StoresRemove(store: Quads, log: Log, ids: set<nat>)
    requires Stores(store, log)
    ensures var gone := set q | q in store && !IsUser(q) && q.subj.EntryNode? && q.subj.id in ids;
            Stores(store - gone, Without(log, ids)) && UserData(store - gone) == UserData(store)
  {
  }

  /** The deltas of all entries are user quads. */
  predicate UserDelta(e: Entry) {
    (forall q | q in e.inserted :: IsUser(q)) && (forall q | q in e.removed :: IsUser(q))
  }

  predicate UserOps(ops: seq<BufferedOp>) {
    forall i | 0 <= i < |ops| && !ops[i].SparqlUpdate? :: forall q | q in ops[i].quads :: IsUser(q)
  }

  lemma {:induction false} UserOpsDelta(ops: seq<BufferedOp>)
    requires UserOps(ops)
    ensures (forall q | q in Inserts(ops) :: IsUser(q)) && (forall q | q in Removes(ops) :: IsUser(q))
    decreases |ops|
  {
    if ops != [] {
      UserOpsDelta(ops[..|ops| - 1]);
    }
  }

  // --- listing --------------------------------------------------------------------------------------------

  /** All the ids, newest first. */
  ghost predicate NewestFirst(s: seq<nat>, ids: set<nat>) {
    (forall i, j | 0 <= i < j < |s| :: s[i] > s[j]) && (forall id :: id in s <==> id in ids)
  }

  lemma {:induction false} NewestFirstUnique(s: seq<nat>, t: seq<nat>, ids: set<nat>)
    requires NewestFirst(s, ids) && NewestFirst(t, ids)
    ensures s == t
    decreases |s|
  {
    if t != [] { assert t[0] in t; }
    if s != [] {
      assert s[0] in t && t != [] && t[0] in s;
      var i :| 0 <= i < |t| && t[i] == s[0];
      var j :| 0 <= j < |s| && s[j] == t[0];
      assert s[0] == t[0];
      var s', t', rest := s[1..], t[1..], ids - {s[0]};
      assert s == [s[0]] + s' && t == [t[0]] + t';
      forall id ensures (id in s' <==> id in rest) && (id in t' <==> id in rest) { }
      NewestFirstUnique(s', t', rest);
    }
  }

  function Page<T>(s: seq<T>, offset: nat, limit: nat): seq<T> {
    var rest := if offset <= |s| then s[offset..] else [];
    if limit <= |rest| then rest[..limit] else rest
  }

  /** A page is as long as asked for or as what is left, and starts at its offset. */
  lemma PageContents<T>(s: seq<T>, offset: nat, limit: nat)
    ensures var page, left := Page(s, offset, limit), if offset <= |s| then |s| - offset else 0;
            && |page| == (if limit <= left then limit else left)
            && forall i | 0 <= i < |page| :: page[i] == s[offset + i]
  {
  }

  /** Adjacent pages join to one page. */
  lemma PagesJoin<T>(s: seq<T>, offset: nat, a: nat, b: nat)
    ensures Page(s, offset, a) + Page(s, offset + a, b) == Page(s, offset, a + b)
    ensures Page(s, 0, |s|) == s
  {
  }

  /** Selection of the greatest, repeatedly. */
  method SortNewestFirst(ids: set<nat>) returns (s: seq<nat>)
    ensures NewestFirst(s, ids)
  {
    s := [];
    var todo := ids;
    while todo != {}
      invariant todo <= ids && NewestFirst(s, ids - todo)
      invariant forall id, d | id in todo && d in s :: id < d
      decreases todo
    {
      var m := Greatest(todo);
      OneOlder(s, ids - todo, m);
      assert ids - todo + {m} == ids - (todo - {m});
      s, todo := s + [m], todo - {m};
    }
    assert ids - {} == ids;
  }

  lemma OneOlder(s: seq<nat>, ids: set<nat>, m: nat)
    requires NewestFirst(s, ids) && forall id | id in s :: m < id
    ensures NewestFirst(s + [m], ids + {m})
  {
    var t := s + [m];
    forall i, j | 0 <= i < j < |t| ensures t[i] > t[j] {
      assert s[i] in s;
    }
  }

  method Greatest(ids: set<nat>) returns (m: nat)
    requires ids != {}
    ensures m in ids && forall id | id in ids :: id <= m
  {
    m :| m in ids;
    var todo := ids - {m};
    while todo != {}
      invariant todo <= ids && m in ids && forall id | id in ids && id !in todo :: id <= m
      decreases todo
    {
      var id :| id in todo;
      todo := todo - {id};
      if id > m { m := id; }
    }
  }

  /** A listed entry: everything but the delta. */
  predicate Summarizes(listed: Entry, e: Entry) {
    && listed.id == e.id && listed.timestamp == e.timestamp && listed.operation == e.operation
    && listed.undoable == e.undoable && listed.inserted == [] && listed.removed == []
  }

  method CollectLists(ops: seq<BufferedOp>) returns (inserted: seq<Quad>, removed: seq<Quad>, hasSparql: bool)
    ensures inserted == Inserts(ops) && removed == Removes(ops) && hasSparql == HasSparql(ops)
  {
    inserted, removed, hasSparql := [], [], false;
    for i := 0 to |ops|
      invariant inserted == Inserts(ops[..i]) && removed == Removes(ops[..i])
      invariant hasSparql <==> exists j :: 0 <= j < i && ops[j].SparqlUpdate?
    {
      assert ops[..i + 1][..i] == ops[..i];
      match ops[i] {
        case InsertQuads(quads) => inserted := inserted + quads;
        case RemoveQuads(quads) => removed := removed + quads;
        case SparqlUpdate(_) => hasSparql := true;
      }
      assert inserted + [] == inserted && removed + [] == removed;
    }
    assert ops[..|ops|] == ops;
  }

  /** The inserts of `write_entry_to_store`. */
  method EntryQuads(e: Entry) returns (txn: Quads)
    ensures forall q :: q in txn <==> Describes(e, q)
  {
    txn := {};
    txn := txn + {EntryQuad(e.id, RdfType, Node("urn:oxigraph:ChangelogEntry"))};
    txn := txn + {EntryQuad(e.id, TxnId, Number(e.id))};
    txn := txn + {EntryQuad(e.id, Timestamp, Text(e.timestamp))};
    txn := txn + {EntryQuad(e.id, Operation, Text(e.operation))};
    txn := txn + {EntryQuad(e.id, Undoable, Flag(e.undoable))};
    txn := txn + {EntryQuad(e.id, InsertCount, Number(|e.inserted|))};
    txn := txn + {EntryQuad(e.id, RemoveCount, Number(|e.removed|))};
    if e.inserted != [] {
      txn := txn + {EntryQuad(e.id, InsertedNQuads, QuadList(e.inserted))};
    }
    if e.removed != [] {
      txn := txn + {EntryQuad(e.id, RemovedNQuads, QuadList(e.removed))};
    }
  }

  class ChangelogService {
    const enabled: bool
    const retain: nat
    var counter: nat
    /** The events handed to the broadcast channel. */
    var sent: seq<ChangeEvent>
    /** The entries that the store holds. */
    ghost var log: Log

    /** `new`, over a store that holds the entries of `stored`; the counter starts at 1 all the same. */
    constructor (e: bool, r: nat, ghost stored: Log)
      ensures enabled == e && retain == r && counter == 1 && sent == [] && log == stored
    {
      enabled, retain, counter, sent, log := e, r, 1, [], stored;
    }

    ghost function At(store: Store): Server
      reads this, store
    {
      Server(UserData(store.quads), log, counter, sent)
    }

    ghost predicate Valid(store: Store)
      reads this, store
    {
      && WellNumbered(At(store)) && Stores(store.quads, log)
      && (forall id | id in log :: UserDelta(log[id]))
    }

    /** The greatest stored id, 0 if there is none. */
    method GreatestId(store: Store) returns (maxId: nat)
      requires Stores(store.quads, log)
      ensures (maxId == 0 || maxId in log) && forall id | id in log :: id <= maxId
    {
      maxId := 0;
      IdPattern(store.quads, log);
      var pattern := Pattern(store.quads, None, Some(TxnId));
      var todo := pattern;
      while todo != {}
        invariant todo <= pattern
        invariant maxId == 0 || maxId in log
        invariant forall q | q in pattern - todo :: q.obj.n <= maxId
        decreases todo
      {
        var q :| q in todo;
        todo := todo - {q};
        if q.obj.n > maxId {
          maxId := q.obj.n;
        }
      }
      forall id | id in log ensures id <= maxId {
        assert EntryQuad(id, TxnId, Number(id)) in pattern - todo;
      }
    }

    /** `init_counter`: one past the greatest stored id. */
    method InitCounter(store: Store)
      requires Stores(store.quads, log) && (forall id | id in log :: id >= 1 && UserDelta(log[id]))
      modifies this`counter
      ensures enabled ==> Valid(store) && counter == NextId(log.Keys)
      ensures !enabled ==> counter == old(counter)
    {
      if !enabled {
        return;
      }
      var maxId := GreatestId(store);
      counter := maxId + 1;
      NextIdUnique(log.Keys, counter);
    }

    /** `write_entry_to_store`. */
    method WriteEntry(store: Store, e: Entry)
      requires Stores(store.quads, log) && e.id !in log
      modifies store, this`log
      ensures Stores(store.quads, log) && log == old(log)[e.id := e]
      ensures UserData(store.quads) == old(UserData(store.quads))
    {
      var added := EntryQuads(e);
      StoresAdd(store.quads, log, e, added);
      store.quads := store.quads + added;
      log := log[e.id := e];
    }

    /** The ids of the stored entries up to `cutoff`. */
    method IdsUpTo(store: Store, cutoff: nat) returns (ids: set<nat>)
      requires Stores(store.quads, log)
      ensures ids == set id | id in log && id <= cutoff
    {
      IdPattern(store.quads, log);
      ids := {};
      var todo := Pattern(store.quads, None, Some(TxnId));
      while todo != {}
        invariant todo <= Pattern(store.quads, None, Some(TxnId))
        invariant forall id | id in ids :: id in log && id <= cutoff
        invariant forall q | q in Pattern(store.quads, None, Some(TxnId)) - todo && q.obj.n <= cutoff :: q.obj.n in ids
        decreases todo
      {
        var q :| q in todo;
        todo := todo - {q};
        if q.obj.n <= cutoff {
          ids := ids + {q.subj.id};
        }
      }
      forall id | id in log && id <= cutoff ensures id in ids {
        assert EntryQuad(id, TxnId, Number(id)).obj.n in ids;
      }
    }

    /** `prune`: drops the entries more than `retain` behind. */
    method Prune(store: Store, currentId: nat)
      requires Stores(store.quads, log) && retain > 0
      modifies store, this`log
      ensures Stores(store.quads, log) && UserData(store.quads) == old(UserData(store.quads))
      ensures log == Retained(old(log), currentId, retain)
    {
      if currentId <= retain {
        return;
      }
      var cutoff := currentId - retain;
      var subjects := IdsUpTo(store, cutoff);
      assert Without(log, subjects) == Retained(log, currentId, retain);
      StoresRemove(store.quads, log, subjects);
      var txn, todo := store.quads, subjects;
      while todo != {}
        invariant todo <= subjects
        invariant txn == store.quads - set q | q in store.quads && !IsUser(q) && q.subj.EntryNode?
        && q.subj.id in subjects - todo
        decreases todo
      {
        var id :| id in todo;
        todo := todo - {id};
        txn := txn - Pattern(store.quads, Some(EntryNode(id)), None);
      }
      store.quads := txn;
      log := Without(log, subjects);
    }

    /** `record`. */
    method Record(store: Store, ops: seq<BufferedOp>, operation: string, timestamp: string)
      returns (r: Result<Entry, ChangelogError>)
      requires Valid(store) && UserOps(ops)
      modifies this, store
      ensures !enabled ==> r == Err(Disabled) && At(store) == old(At(store)) && store.quads == old(store.quads)
      ensures enabled ==> r == Ok(EntryFor(old(counter), ops, operation, timestamp))
      ensures enabled ==> r.value.id == old(counter) && r.value.timestamp == timestamp
      ensures enabled ==> r.value.operation == operation
      ensures enabled ==> sent == old(sent) + [ChangeEvent(r.value.id, timestamp, operation, r.value.inserted,
                                                           r.value.removed)]
      ensures enabled ==>
                (r.value.undoable <==>
                 (forall i | 0 <= i < |ops| :: !ops[i].SparqlUpdate?) && Listed(ops) <= 100_000)
      ensures enabled ==> At(store) == ChangelogModel.Record(retain, old(At(store)), ops, operation, timestamp)
      ensures Valid(store)
    {
      if !enabled {
        return Err(Disabled);
      }
      RecordKeepsNumbering(retain, At(store), ops, operation, timestamp);
      UserOpsDelta(ops);
      UndoableExactly(ops);
      var id := counter;
      counter := counter + 1;
      var inserted, removed, hasSparql := CollectLists(ops);
      var undoable := !hasSparql && |inserted| + |removed| <= MAX_UNDOABLE_QUADS;
      var entry := Entry(id, timestamp, operation, inserted, removed, undoable);
      WriteEntry(store, entry);
      if retain > 0 {
        Prune(store, id);
      }
      sent := sent + [EventFor(entry)];
      r := Ok(entry);
    }

    /** `get`: the entry with its whole delta, put together from its quads. */
    method Get(store: Store, id: nat) returns (r: Result<Option<Entry>, ChangelogError>)
      requires Stores(store.quads, log)
      ensures r == if !enabled then Err(Disabled) else Ok(if id in log then Some(log[id]) else None)
    {
      if !enabled {
        return Err(Disabled);
      }
      EntryPattern(store.quads, log, id);
      var pattern := Pattern(store.quads, Some(EntryNode(id)), None);
      ghost var stored := if id in log then log[id] else Entry(id, "", "", [], [], false);
      var found, entry := GatherFields(id, pattern, stored);
      if !found {
        assert id in log ==> EntryQuad(id, TxnId, Number(id)) in pattern;
        return Ok(None);
      }
      AllGathered(stored, pattern, entry);
      r := Ok(Some(entry));
    }

    /** `undo`: applies the inverse delta and records it. */
    method Undo(store: Store, id: nat, timestamp: string) returns (r: Result<Entry, ChangelogError>)
      requires Valid(store)
      modifies this, store
      ensures Valid(store)
      ensures enabled ==> At(store) == ChangelogModel.Undo(retain, old(At(store)), id, timestamp)
      ensures !enabled ==> At(store) == old(At(store))
      ensures r.Ok? <==> enabled && CanUndo(old(At(store)), id)
      ensures r.Err? ==> r.error == if !enabled then Disabled else if id !in old(log) then NotFound else NotUndoable
    {
      var got := Get(store, id);
      if got.Err? {
        return Err(got.error);
      }
      if got.value.None? {
        return Err(NotFound);
      }
      var entry := got.value.value;
      if !entry.undoable {
        return Err(NotUndoable);
      }
      var txn := InsertEach(store.quads, entry.removed);
      txn := RemoveEach(txn, entry.inserted);
      UserChangeKeepsLog(store.quads, log, entry);
      store.quads := txn;
      r := Record(store, InverseOps(entry), UndoName(id), timestamp);
    }

    /** `purge`: removes every quad of the changelog graph and says how many. */
    method Purge(store: Store) returns (r: Result<nat, ChangelogError>)
      requires Valid(store)
      modifies this`log, store
      ensures Valid(store)
      ensures !enabled ==> r == Err(Disabled) && At(store) == old(At(store))
      ensures enabled ==>
                r == Ok(|ChangelogData(old(store.quads))|) && At(store) == ChangelogModel.Purge(old(At(store)))
    {
      if !enabled {
        return Err(Disabled);
      }
      var quads := Pattern(store.quads, None, None);
      assert quads == ChangelogData(store.quads);
      var todo, txn := quads, store.quads;
      while todo != {}
        invariant todo <= quads && txn == store.quads - (quads - todo)
        decreases todo
      {
        var q :| q in todo;
        todo := todo - {q};
        txn := txn - {q};
      }
      assert UserData(txn) == UserData(store.quads);
      store.quads := txn;
      log := map[];
      r := Ok(|quads|);
    }

    /** `list`: one page of the entries, newest first, without their deltas. */
    method List(store: Store, offset: nat, limit: nat)
      returns (r: Result<seq<Entry>, ChangelogError>, ghost ids: seq<nat>)
      requires Stores(store.quads, log)
      ensures r.Ok? <==> enabled
      ensures r.Ok? ==> NewestFirst(ids, log.Keys) && |r.value| == |Page(ids, offset, limit)|
      ensures r.Ok? ==> forall i | 0 <= i < |r.value| ::
                Page(ids, offset, limit)[i] in log && Summarizes(r.value[i], log[Page(ids, offset, limit)[i]])
    {
      if !enabled {
        return Err(Disabled), [];
      }
      var all := AllIds(store);
      var sorted := SortNewestFirst(all);
      ids := sorted;
      var page := Page(sorted, offset, limit);
      var result: seq<Entry> := [];
      for i := 0 to |page|
        invariant |result| == i
        invariant forall k | 0 <= k < i :: page[k] in log && Summarizes(result[k], log[page[k]])
      {
        assert page[i] in sorted;
        var got := Get(store, page[i]);
        result := result + [got.value.value.(inserted := [], removed := [])];
      }
      r := Ok(result);
    }

    method AllIds(store: Store) returns (ids: set<nat>)
      requires Stores(store.quads, log)
      ensures ids == log.Keys
    {
      IdPattern(store.quads, log);
      ids := {};
      var todo := Pattern(store.quads, None, Some(TxnId));
      while todo != {}
        invariant todo <= Pattern(store.quads, None, Some(TxnId))
        invariant ids <= log.Keys
        invariant forall q | q in Pattern(store.quads, None, Some(TxnId)) - todo :: q.obj.n in ids
        decreases todo
      {
        var q :| q in todo;
        todo := todo - {q};
        ids := ids + {q.obj.n};
      }
      forall id | id in log ensures id in ids {
        assert EntryQuad(id, TxnId, Number(id)).obj.n in ids;
      }
    }
  }

  /** The fields read so far: each is the entry's once its quad has been seen, and blank before. */
  predicate Gathered(e: Entry, seen: Quads, read: Entry) {
    && read.id == e.id
    && read.timestamp == (if EntryQuad(e.id, Timestamp, Text(e.timestamp)) in seen then e.timestamp else "")
    && read.operation == (if EntryQuad(e.id, Operation, Text(e.operation)) in seen then e.operation else "")
    && read.undoable == (EntryQuad(e.id, Undoable, Flag(e.undoable)) in seen && e.undoable)
    && read.inserted == (if EntryQuad(e.id, InsertedNQuads, QuadList(e.inserted)) in seen then e.inserted else [])
    && read.removed == (if EntryQuad(e.id, RemovedNQuads, QuadList(e.removed)) in seen then e.removed else [])
  }

  /** The entry with the field that the quad holds, if any. */
  function WithField(read: Entry, q: Quad): Entry {
    match (q.pred, q.obj)
    case (Timestamp, Text(t)) => read.(timestamp := t)
    case (Operation, Text(t)) => read.(operation := t)
    case (Undoable, Flag(b)) => read.(undoable := b)
    case (InsertedNQuads, QuadList(quads)) => read.(inserted := quads)
    case (RemovedNQuads, QuadList(quads)) => read.(removed := quads)
    case _ => read
  }

  lemma OneMoreGathered(e: Entry, seen: Quads, read: Entry, q: Quad)
    requires Gathered(e, seen, read) && Describes(e, q)
    ensures Gathered(e, seen + {q}, WithField(read, q))
  {
  }

  /** The loop of `get` over the quads of the entry. */
  method GatherFields(id: nat, pattern: Quads, ghost e: Entry) returns (found: bool, read: Entry)
    requires e.id == id && forall q | q in pattern :: Describes(e, q)
    ensures (found <==> pattern != {}) && Gathered(e, pattern, read)
  {
    found, read := false, Entry(id, "", "", [], [], false);
    var todo := pattern;
    while todo != {}
      invariant todo <= pattern && (found <==> todo < pattern) && Gathered(e, pattern - todo, read)
      decreases todo
    {
      var q :| q in todo;
      OneMoreGathered(e, pattern - todo, read, q);
      assert pattern - todo + {q} == pattern - (todo - {q});
      found, read, todo := true, WithField(read, q), todo - {q};
    }
    assert pattern - {} == pattern;
  }

  lemma AllGathered(e: Entry, seen: Quads, read: Entry)
    requires Gathered(e, seen, read) && forall q :: q in seen <==> Describes(e, q)
    ensures read == e
  {
    assert Describes(e, EntryQuad(e.id, Timestamp, Text(e.timestamp)));
    assert Describes(e, EntryQuad(e.id, Operation, Text(e.operation)));
    assert Describes(e, EntryQuad(e.id, Undoable, Flag(e.undoable)));
    assert e.inserted != [] ==> Describes(e, EntryQuad(e.id, InsertedNQuads, QuadList(e.inserted)));
    assert e.removed != [] ==> Describes(e, EntryQuad(e.id, RemovedNQuads, QuadList(e.removed)));
  }

  /** A delta of user quads changes user data and leaves the changelog alone. */
  lemma UserChangeKeepsLog(store: Quads, log: Log, e: Entry)
    requires Stores(store, log) && UserDelta(e)
    ensures var after := store + Elements(e.removed) - Elements(e.inserted);
            Stores(after, log) && UserData(after) == UserData(store) + Elements(e.removed) - Elements(e.inserted)
  {
  }
}
