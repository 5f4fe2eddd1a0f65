/**
 The quad store as the server sees it, and the operations buffered against it.

 The store keeps user quads and, in a graph of their own, the quads of changelog entries. IRIs that
 the server makes up are constructors here; a literal that holds a printed number, flag or list of
 quads is the value itself, so printing and parsing are taken as an inverse pair.
 */
module Dataset {
  import opened Wrappers

  datatype Subject = UserNode(name: string) | EntryNode(id: nat)

  datatype Pred =
    | UserPred(iri: string)
    | RdfType | TxnId | Timestamp | Operation | Undoable | InsertCount | RemoveCount | InsertedNQuads | RemovedNQuads

  datatype Value = Node(name: string) | Text(text: string) | Number(n: nat) | Flag(b: bool) | QuadList(quads: seq<Quad>)

  datatype Graph = UserGraph(name: string) | ChangelogGraph

  datatype Quad = Quad(subj: Subject, pred: Pred, obj: Value, graph: Graph)

  type Quads = set<Quad>

  predicate IsUser(q: Quad) { q.graph.UserGraph? }

  /** Everything outside the changelog graph. */
  function UserData(store: Quads): Quads { set q | q in store && IsUser(q) }

  function ChangelogData(store: Quads): Quads { set q | q in store && !IsUser(q) }

  datatype BufferedOp = InsertQuads(quads: seq<Quad>) | RemoveQuads(quads: seq<Quad>) | SparqlUpdate(text: string)

  /** What a SPARQL update does to a dataset; `None` is an error. */
  type Updater = (string, Quads) -> Option<Quads>

  function Elements(quads: seq<Quad>): Quads { set q | q in quads }

  function ApplyOp(update: Updater, d: Quads, op: BufferedOp): Option<Quads> {
    match op
    case InsertQuads(quads) => Some(d + Elements(quads))
    case RemoveQuads(quads) => Some(d - Elements(quads))
    case SparqlUpdate(text) => update(text, d)
  }

  /** The operations in order; the first failing update fails the whole. */
  function Replay(update: Updater, d: Quads, ops: seq<BufferedOp>): Option<Quads>
    decreases |ops|
  {
    if ops == [] then Some(d)
    else
      match ApplyOp(update, d, ops[0])
      case Some(d') => Replay(update, d', ops[1..])
      case None => None
  }

  // --- the same, dataset by dataset -------------------------------------------------------------------------

  /** Inserts add, removes take away, and a SPARQL update does what evaluating it on that dataset does. */
  ghost predicate Leads(update: Updater, op: BufferedOp, before: Quads, after: Quads) {
    match op
    case InsertQuads(quads) => forall q :: q in after <==> q in before || q in quads
    case RemoveQuads(quads) => forall q :: q in after <==> q in before && q !in quads
    case SparqlUpdate(text) => update(text, before) == Some(after)
  }

  /** The datasets on the way: each operation leads from one to the next. */
  ghost predicate Stages(update: Updater, ops: seq<BufferedOp>, ds: seq<Quads>) {
    |ds| == |ops| + 1 && forall i | 0 <= i < |ops| :: Leads(update, ops[i], ds[i], ds[i + 1])
  }

  predicate Fails(update: Updater, op: BufferedOp, d: Quads) { op.SparqlUpdate? && update(op.text, d).None? }

  /** Success is a way from `d` through all operations; failure is a way to an update that fails there. */
  ghost predicate Replays(update: Updater, d: Quads, ops: seq<BufferedOp>, r: Option<Quads>) {
    match r
    case Some(after) => exists ds :: Stages(update, ops, ds) && ds[0] == d && ds[|ops|] == after
    case None => exists ds :: FailsAfter(update, ops, ds) && ds[0] == d
  }

  ghost predicate FailsAfter(update: Updater, ops: seq<BufferedOp>, ds: seq<Quads>) {
    0 < |ds| <= |ops| && Stages(update, ops[..|ds| - 1], ds) && Fails(update, ops[|ds| - 1], ds[|ds| - 1])
  }

  lemma StepLeads(update: Updater, op: BufferedOp, d: Quads)
    ensures ApplyOp(update, d, op).None? <==> Fails(update, op, d)
    ensures forall after :: ApplyOp(update, d, op) == Some(after) <==> Leads(update, op, d, after)
  {
    forall after | Leads(update, op, d, after) ensures ApplyOp(update, d, op) == Some(after) {
      match op
      case InsertQuads(quads) => assert after == d + Elements(quads);
      case RemoveQuads(quads) => assert after == d - Elements(quads);
      case SparqlUpdate(_) =>
    }
  }

  lemma OneStageBefore(update: Updater, op: BufferedOp, d: Quads, ops: seq<BufferedOp>, ds: seq<Quads>)
    requires Stages(update, ops, ds) && Leads(update, op, d, ds[0])
    ensures Stages(update, [op] + ops, [d] + ds)
  {
    var all := [d] + ds;
    forall i | 0 <= i < |[op] + ops| ensures Leads(update, ([op] + ops)[i], all[i], all[i + 1]) {
      if i > 0 { assert Leads(update, ops[i - 1], ds[i - 1], ds[i]); }
    }
  }

  lemma {:induction false} ReplayStages(update: Updater, d: Quads, ops: seq<BufferedOp>) returns (ds: seq<Quads>)
    ensures 0 < |ds| && ds[0] == d
    ensures Replay(update, d, ops).None? ==> FailsAfter(update, ops, ds)
    ensures Replay(update, d, ops).Some? ==>
              Stages(update, ops, ds) && ds[|ops|] == Replay(update, d, ops).value
    decreases |ops|
  {
    ds := [d];
    if ops != [] {
      var op, rest, next := ops[0], ops[1..], ApplyOp(update, d, ops[0]);
      StepLeads(update, op, d);
      if next.Some? {
        var later := ReplayStages(update, next.value, rest);
        ds := [d] + later;
        assert ops == [op] + rest;
        if Replay(update, d, ops).Some? {
          OneStageBefore(update, op, d, rest, later);
        } else {
          OneStageBefore(update, op, d, rest[..|later| - 1], later);
          assert ops[..|ds| - 1] == [op] + rest[..|later| - 1];
        }
      }
    }
  }

  /** However far a way goes, replaying goes the same. */
  lemma {:induction false} StagesForced(update: Updater, ops: seq<BufferedOp>, n: nat, ds: seq<Quads>)
    requires n <= |ops| && Stages(update, ops[..n], ds)
    ensures Replay(update, ds[0], ops) == Replay(update, ds[n], ops[n..])
    decreases n
  {
    if n > 0 {
      var m := n - 1;
      assert ops[..m] == ops[..n][..m];
      assert forall i | 0 <= i < m :: Leads(update, ops[..n][i], ds[i], ds[i + 1]);
      StagesForced(update, ops, m, ds[..n]);
      assert Leads(update, ops[..n][m], ds[m], ds[n]);
      StepLeads(update, ops[m], ds[m]);
      assert ops[m..][1..] == ops[n..];
    } else {
      assert ops[0..] == ops;
    }
  }

  /** Replaying gives an outcome if and only if the datasets on the way lead to it. */
  lemma ReplayExactly(update: Updater, d: Quads, ops: seq<BufferedOp>, r: Option<Quads>)
    ensures r == Replay(update, d, ops) <==> Replays(update, d, ops, r)
  {
    if r == Replay(update, d, ops) {
      var ds := ReplayStages(update, d, ops);
    }
    if Replays(update, d, ops, r) {
      WayDecides(update, d, ops, r);
    }
  }

  lemma WayDecides(update: Updater, d: Quads, ops: seq<BufferedOp>, r: Option<Quads>)
    requires Replays(update, d, ops, r)
    ensures Replay(update, d, ops) == r
  {
    match r
    case Some(after) =>
      var ds :| Stages(update, ops, ds) && ds[0] == d && ds[|ops|] == after;
      assert ops[..|ops|] == ops;
      StagesForced(update, ops, |ops|, ds);
    case None =>
      var ds :| FailsAfter(update, ops, ds) && ds[0] == d;
      StagesForced(update, ops, |ds| - 1, ds);
      StepLeads(update, ops[|ds| - 1], ds[|ds| - 1]);
  }

  /** `replay_ops`: quad by quad into the transaction. */
  method ReplayOps(update: Updater, d: Quads, ops: seq<BufferedOp>) returns (r: Option<Quads>)
    ensures r == Replay(update, d, ops) && Replays(update, d, ops, r)
  {
    ReplayExactly(update, d, ops, Replay(update, d, ops));
    var txn := d;
    assert ops[0..] == ops;
    for i := 0 to |ops|
      invariant Replay(update, d, ops) == Replay(update, txn, ops[i..])
    {
      assert ops[i..][0] == ops[i] && ops[i..][1..] == ops[i + 1..];
      match ops[i] {
        case InsertQuads(quads) => txn := InsertEach(txn, quads);
        case RemoveQuads(quads) => txn := RemoveEach(txn, quads);
        case SparqlUpdate(text) =>
          var updated := update(text, txn);
          if updated.None? {
            return None;
          }
          txn := updated.value;
      }
    }
    r := Some(txn);
  }

  method InsertEach(d: Quads, quads: seq<Quad>) returns (r: Quads)
    ensures r == d + Elements(quads)
  {
    r := d;
    for i := 0 to |quads|
      invariant r == d + Elements(quads[..i])
    {
      assert quads[..i + 1] == quads[..i] + [quads[i]];
      r := r + {quads[i]};
    }
    assert quads[..|quads|] == quads;
  }

  method RemoveEach(d: Quads, quads: seq<Quad>) returns (r: Quads)
    ensures r == d - Elements(quads)
  {
    r := d;
    for i := 0 to |quads|
      invariant r == d - Elements(quads[..i])
    {
      assert quads[..i + 1] == quads[..i] + [quads[i]];
      r := r - {quads[i]};
    }
    assert quads[..|quads|] == quads;
  }

  class Store {
    var quads: Quads

    constructor (initial: Quads)
      ensures quads == initial
    {
      quads := initial;
    }
  }
}
