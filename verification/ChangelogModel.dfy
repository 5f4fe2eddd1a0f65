/**
 The changelog and its effect on user data, as values: recorded deltas, undo as the inverse delta,
 retention, and the change events sent to subscribers.
 */
module ChangelogModel {
  import opened Dataset

  const MAX_UNDOABLE_QUADS := 100_000

  datatype Entry = Entry(id: nat, timestamp: string, operation: string, inserted: seq<Quad>, removed: seq<Quad>,
                         undoable: bool)

  datatype ChangeEvent = ChangeEvent(id: nat, timestamp: string, operation: string, inserted: seq<Quad>,
                                     removed: seq<Quad>)

  type Log = map<nat, Entry>

  /** The server between requests: user data, changelog, next id, and the events broadcast so far. */
  datatype Server = Server(user: Quads, log: Log, counter: nat, events: seq<ChangeEvent>)

  // --- entries ---------------------------------------------------------------------------------------------

  function Inserts(ops: seq<BufferedOp>): seq<Quad> {
    if ops == [] then []
    else Inserts(ops[..|ops| - 1]) + if ops[|ops| - 1].InsertQuads? then ops[|ops| - 1].quads else []
  }

  function Removes(ops: seq<BufferedOp>): seq<Quad> {
    if ops == [] then []
    else Removes(ops[..|ops| - 1]) + if ops[|ops| - 1].RemoveQuads? then ops[|ops| - 1].quads else []
  }

  predicate HasSparql(ops: seq<BufferedOp>) { exists i :: 0 <= i < |ops| && ops[i].SparqlUpdate? }

  predicate IsUndoable(ops: seq<BufferedOp>) {
    !HasSparql(ops) && |Inserts(ops)| + |Removes(ops)| <= MAX_UNDOABLE_QUADS
  }

  /** How many quads the operations list, repetitions included. */
  function Listed(ops: seq<BufferedOp>): nat {
    if ops == [] then 0
    else Listed(ops[..|ops| - 1]) + if ops[|ops| - 1].SparqlUpdate? then 0 else |ops[|ops| - 1].quads|
  }

  lemma {:induction false} ListsCount(ops: seq<BufferedOp>)
    ensures |Inserts(ops)| + |Removes(ops)| == Listed(ops)
    decreases |ops|
  {
    if ops != [] {
      ListsCount(ops[..|ops| - 1]);
    }
  }

  predicate InsertsQuad(op: BufferedOp, q: Quad) { op.InsertQuads? && q in op.quads }

  predicate RemovesQuad(op: BufferedOp, q: Quad) { op.RemoveQuads? && q in op.quads }

  /** The first list holds exactly the quads of the inserts. */
  lemma {:induction false} InsertMembers(ops: seq<BufferedOp>, q: Quad)
    ensures q in Inserts(ops) <==> exists i :: 0 <= i < |ops| && InsertsQuad(ops[i], q)
    decreases |ops|
  {
    if ops != [] {
      var n := |ops| - 1;
      InsertMembers(ops[..n], q);
      if i :| 0 <= i < n && InsertsQuad(ops[..n][i], q) { assert InsertsQuad(ops[i], q); }
      if i :| 0 <= i < n && InsertsQuad(ops[i], q) { assert InsertsQuad(ops[..n][i], q); }
    }
  }

  /** The second list holds exactly the quads of the removes. */
  lemma {:induction false} RemoveMembers(ops: seq<BufferedOp>, q: Quad)
    ensures q in Removes(ops) <==> exists i :: 0 <= i < |ops| && RemovesQuad(ops[i], q)
    decreases |ops|
  {
    if ops != [] {
      var n := |ops| - 1;
      RemoveMembers(ops[..n], q);
      if i :| 0 <= i < n && RemovesQuad(ops[..n][i], q) { assert RemovesQuad(ops[i], q); }
      if i :| 0 <= i < n && RemovesQuad(ops[i], q) { assert RemovesQuad(ops[..n][i], q); }
    }
  }

  /** What can be undone: no SPARQL update, and at most a hundred thousand quads. */
  lemma UndoableExactly(ops: seq<BufferedOp>)
    ensures IsUndoable(ops) <==> (forall i | 0 <= i < |ops| :: !ops[i].SparqlUpdate?) && Listed(ops) <= 100_000
  {
    ListsCount(ops);
  }

  function EntryFor(id: nat, ops: seq<BufferedOp>, operation: string, timestamp: string): Entry {
    Entry(id, timestamp, operation, Inserts(ops), Removes(ops), IsUndoable(ops))
  }

  function EventFor(e: Entry): ChangeEvent { ChangeEvent(e.id, e.timestamp, e.operation, e.inserted, e.removed) }

  /** Retention: after recording `current`, only the last `retain` ids are kept; 0 keeps all. */
  function Retained(log: Log, current: nat, retain: nat): Log {
    if retain == 0 || current <= retain then log
    else map id | id in log && id > current - retain :: log[id]
  }

  // --- requests ----------------------------------------------------------------------------------------------

  function Record(retain: nat, s: Server, ops: seq<BufferedOp>, operation: string, timestamp: string): Server {
    var e := EntryFor(s.counter, ops, operation, timestamp);
    s.(log := Retained(s.log[e.id := e], e.id, retain), counter := s.counter + 1, events := s.events + [EventFor(e)])
  }

  /** "undo:" and the id in decimal. */
  function UndoName(id: nat): string { "undo:" + Decimal(id) }

  function Decimal(n: nat): string {
    if n < 10 then [Digit(n)] else Decimal(n / 10) + [Digit(n % 10)]
  }

  function Digit(n: nat): char
    requires n < 10
  {
    "0123456789"[n]
  }

  /** A decimal numeral as a number. */
  function Parse(s: string): nat {
    if s == "" then 0 else Parse(s[..|s| - 1]) * 10 + DigitValue(s[|s| - 1])
  }

  function DigitValue(c: char): nat { if '0' <= c <= '9' then (c - '0') as nat else 0 }

  lemma {:induction false} DecimalReadBack(n: nat)
    ensures Parse(Decimal(n)) == n
    decreases n
  {
    var s := Decimal(n);
    assert DigitValue(s[|s| - 1]) == n % 10;
    if n < 10 {
      assert s[..0] == "";
    } else {
      assert s[..|s| - 1] == Decimal(n / 10);
      DecimalReadBack(n / 10);
    }
  }

  /** The operation of an undo entry says which entry was undone. */
  lemma {:induction false} UndoNameSaysId(id: nat)
    ensures Parse(UndoName(id)[5..]) == id
  {
    assert UndoName(id)[5..] == Decimal(id);
    DecimalReadBack(id);
  }

  predicate CanUndo(s: Server, id: nat) { id in s.log && s.log[id].undoable }

  function InverseOps(e: Entry): seq<BufferedOp> { [InsertQuads(e.removed), RemoveQuads(e.inserted)] }

  /** The inverse delta, applied in the order insert, then remove, and recorded as an entry of its own. */
  function Undo(retain: nat, s: Server, id: nat, timestamp: string): Server {
    if !CanUndo(s, id) then s
    else
      var e := s.log[id];
      var undone := s.(user := s.user + Elements(e.removed) - Elements(e.inserted));
      Record(retain, undone, InverseOps(e), UndoName(id), timestamp)
  }

  /** The operations of a before/after diff: absent lists are left out. */
  function DiffOps(inserted: seq<Quad>, removed: seq<Quad>): seq<BufferedOp> {
    (if inserted == [] then [] else [InsertQuads(inserted)]) + (if removed == [] then [] else [RemoveQuads(removed)])
  }

  /** An update of user data to `after`; `inserted` and `removed` list the differences. No change, no entry. */
  function Update(retain: nat, s: Server, after: Quads, inserted: seq<Quad>, removed: seq<Quad>,
                  timestamp: string): Server
  {
    var s' := s.(user := after);
    if inserted == [] && removed == [] then s' else Record(retain, s', DiffOps(inserted, removed), "update", timestamp)
  }

  function Purge(s: Server): Server { s.(log := map[]) }

  lemma ListsOfOne(op: BufferedOp)
    requires !op.SparqlUpdate?
    ensures Inserts([op]) == (if op.InsertQuads? then op.quads else [])
    ensures Removes([op]) == (if op.RemoveQuads? then op.quads else [])
    ensures !HasSparql([op])
  {
    assert [op][..0] == [] && [] + op.quads == op.quads;
    assert Inserts([]) == [] && Removes([]) == [];
  }

  lemma ListsOfTwo(inserted: seq<Quad>, removed: seq<Quad>)
    ensures var ops := [InsertQuads(inserted), RemoveQuads(removed)];
            Inserts(ops) == inserted && Removes(ops) == removed && !HasSparql(ops)
  {
    var ops := [InsertQuads(inserted), RemoveQuads(removed)];
    assert ops[..1] == [InsertQuads(inserted)];
    ListsOfOne(InsertQuads(inserted));
    assert inserted + [] == inserted && [] + removed == removed;
  }

  lemma InverseOpsLists(e: Entry)
    ensures Inserts(InverseOps(e)) == e.removed && Removes(InverseOps(e)) == e.inserted
    ensures !HasSparql(InverseOps(e))
  {
    ListsOfTwo(e.removed, e.inserted);
  }

  lemma DiffOpsLists(inserted: seq<Quad>, removed: seq<Quad>)
    ensures Inserts(DiffOps(inserted, removed)) == inserted && Removes(DiffOps(inserted, removed)) == removed
    ensures !HasSparql(DiffOps(inserted, removed))
  {
    if inserted != [] && removed != [] {
      assert DiffOps(inserted, removed) == [InsertQuads(inserted), RemoveQuads(removed)];
      ListsOfTwo(inserted, removed);
    } else if inserted != [] {
      assert DiffOps(inserted, removed) == [InsertQuads(inserted)];
      ListsOfOne(InsertQuads(inserted));
    } else if removed != [] {
      assert DiffOps(inserted, removed) == [RemoveQuads(removed)];
      ListsOfOne(RemoveQuads(removed));
    }
  }

  // --- what every request keeps --------------------------------------------------------------------------------

  /** One past the greatest of the ids. */
  ghost function NextId(ids: set<nat>): (next: nat)
    ensures next >= 1 && (forall id | id in ids :: id < next) && (next == 1 || next - 1 in ids)
  {
    if ids == {} then 1
    else
      var id :| id in ids;
      var next := NextId(ids - {id});
      assert forall other | other in ids :: other == id || other in ids - {id};
      if id < next then next else id + 1
  }

  lemma NextIdUnique(ids: set<nat>, next: nat)
    requires next >= 1 && (forall id | id in ids :: id < next) && (next == 1 || next - 1 in ids)
    ensures next == NextId(ids)
  {
  }

  /** Ids start at 1, stored ids are below the counter, and each entry is filed under its own id. */
  predicate WellNumbered(s: Server) {
    s.counter >= 1 && forall id | id in s.log :: 1 <= id < s.counter && s.log[id].id == id
  }

  predicate WithinRetention(s: Server, retain: nat) {
    retain > 0 ==> forall id | id in s.log :: s.counter <= id + retain
  }

  lemma RecordKeepsNumbering(retain: nat, s: Server, ops: seq<BufferedOp>, operation: string, timestamp: string)
    requires WellNumbered(s)
    ensures WellNumbered(Record(retain, s, ops, operation, timestamp))
    ensures WithinRetention(Record(retain, s, ops, operation, timestamp), retain)
    ensures var s' := Record(retain, s, ops, operation, timestamp);
            s.counter in s'.log && s'.log[s.counter] == EntryFor(s.counter, ops, operation, timestamp)
            && s'.user == s.user
    ensures var s' := Record(retain, s, ops, operation, timestamp);
            && (forall id | id in s.log :: id in s'.log <==> retain == 0 || s.counter <= id + retain - 1)
            && (forall id | id in s'.log && id != s.counter :: id in s.log && s'.log[id] == s.log[id])
  {
  }

  /** With retention, at most `retain` entries are stored. */
  lemma RetentionBound(s: Server, retain: nat)
    requires WellNumbered(s) && WithinRetention(s, retain) && retain > 0
    ensures |s.log| <= retain
  {
    var low := if s.counter < retain then 0 else s.counter - retain;
    NumbersBetween(low, s.counter, s.log.Keys);
  }

  lemma {:induction false} NumbersBetween(low: nat, high: nat, ids: set<nat>)
    requires low <= high && forall i | i in ids :: low <= i < high
    ensures |ids| <= high - low
    decreases high
  {
    if low < high {
      var rest := ids - {high - 1};
      NumbersBetween(low, high - 1, rest);
      assert ids <= rest + {high - 1};
      assert |ids| <= |rest| + 1;
    } else {
      assert ids == {};
    }
  }
}
