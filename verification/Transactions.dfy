/**
 Buffered HTTP transactions: operations are kept per transaction id and replayed into the store on
 commit. Times are ticks; the outcomes of opening and committing a database transaction, of parsing
 a body and of evaluating SPARQL are inputs.
 */
module Transactions {
  import opened Wrappers
  import opened Sequences
  import opened Dataset

  datatype Active = Active(ops: seq<BufferedOp>, lastActive: nat)

  datatype TransactionError = NotFound | Parse | Storage | Query

  /** One call of the registry. `Add` and `Remove` carry the outcome of parsing their body. */
  datatype Step =
    | Begin(id: string, now: nat)
    | Add(id: string, body: Option<seq<Quad>>, now: nat)
    | Remove(id: string, body: Option<seq<Quad>>, now: nat)
    | Update(id: string, text: string, now: nat)
    | QueryIn(id: string, openOk: bool, text: string)
    | Commit(id: string, openOk: bool, commitOk: bool)
    | Rollback(id: string)
    | CleanupExpired(now: nat)

  datatype State = State(store: Quads, txns: map<string, Active>)

  // --- the registry as a state machine -------------------------------------------------------------------

  function Push(txns: map<string, Active>, id: string, op: BufferedOp, now: nat): map<string, Active> {
    if id in txns then txns[id := Active(txns[id].ops + [op], now)] else txns
  }

  predicate Expired(a: Active, now: nat, timeout: nat) { now > a.lastActive + timeout }

  function Next(update: Updater, timeout: nat, st: State, step: Step): State {
    match step
    case Begin(id, now) => st.(txns := st.txns[id := Active([], now)])
    case Add(id, body, now) => if body.None? then st else st.(txns := Push(st.txns, id, InsertQuads(body.value), now))
    case Remove(id, body, now) =>
      if body.None? then st else st.(txns := Push(st.txns, id, RemoveQuads(body.value), now))
    case Update(id, text, now) => st.(txns := Push(st.txns, id, SparqlUpdate(text), now))
    case QueryIn(_, _, _) => st
    case Commit(id, openOk, commitOk) =>
      if id !in st.txns then st
      else
        var rest := st.txns - {id};
        if !openOk || !commitOk then State(st.store, rest)
        else
          (match Replay(update, st.store, st.txns[id].ops)
           case Some(d) => State(d, rest)
           case None => State(st.store, rest))
    case Rollback(id) => st.(txns := st.txns - {id})
    case CleanupExpired(now) =>
      st.(txns := map id | id in st.txns && !Expired(st.txns[id], now, timeout) :: st.txns[id])
  }

  function Run(update: Updater, timeout: nat, st: State, steps: seq<Step>): State {
    if steps == [] then st
    else Next(update, timeout, Run(update, timeout, st, steps[..|steps| - 1]), steps[|steps| - 1])
  }

  // --- one transaction on its own --------------------------------------------------------------------------

  /** What a step does to the buffer of transaction `id`, without looking at the store or at other buffers. */
  function Own(timeout: nat, a: Option<Active>, id: string, step: Step): Option<Active> {
    match step
    case Begin(i, now) => if i == id then Some(Active([], now)) else a
    case Add(i, Some(quads), now) =>
      if i == id && a.Some? then Some(Active(a.value.ops + [InsertQuads(quads)], now)) else a
    case Remove(i, Some(quads), now) =>
      if i == id && a.Some? then Some(Active(a.value.ops + [RemoveQuads(quads)], now)) else a
    case Update(i, text, now) => if i == id && a.Some? then Some(Active(a.value.ops + [SparqlUpdate(text)], now)) else a
    case Commit(i, _, _) => if i == id then None else a
    case Rollback(i) => if i == id then None else a
    case CleanupExpired(now) => if a.Some? && Expired(a.value, now, timeout) then None else a
    case _ => a
  }

  function Buffer(timeout: nat, steps: seq<Step>, id: string): Option<Active> {
    if steps == [] then None
    else Own(timeout, Buffer(timeout, steps[..|steps| - 1], id), id, steps[|steps| - 1])
  }

  function Get(txns: map<string, Active>, id: string): Option<Active> {
    if id in txns then Some(txns[id]) else None
  }

  /** Isolation: a transaction's buffer is determined by its own steps and the clean-ups alone. */
  lemma {:induction false} BuffersAreIndependent(update: Updater, timeout: nat, initial: Quads, steps: seq<Step>,
                                                 id: string)
    ensures Get(Run(update, timeout, State(initial, map[]), steps).txns, id) == Buffer(timeout, steps, id)
    decreases |steps|
  {
    if steps != [] {
      BuffersAreIndependent(update, timeout, initial, steps[..|steps| - 1], id);
    }
  }

  // --- what a buffer holds ----------------------------------------------------------------------------------

  /** The operation that a call buffers. */
  function OpOf(step: Step): Option<BufferedOp> {
    match step
    case Add(_, Some(quads), _) => Some(InsertQuads(quads))
    case Remove(_, Some(quads), _) => Some(RemoveQuads(quads))
    case Update(_, text, _) => Some(SparqlUpdate(text))
    case _ => None
  }

  predicate Touches(step: Step, id: string) { !step.CleanupExpired? && step.id == id && OpOf(step).Some? }

  /** The operations of the transaction's calls, in call order. */
  function OpsIn(steps: seq<Step>, id: string): seq<BufferedOp> {
    if steps == [] then []
    else
      var last := steps[|steps| - 1];
      OpsIn(steps[..|steps| - 1], id) + if Touches(last, id) then [OpOf(last).value] else []
  }

  /** When the transaction was begun or last given an operation. */
  function LastTouch(steps: seq<Step>, id: string): nat {
    if steps == [] then 0
    else
      var last := steps[|steps| - 1];
      if Touches(last, id) || (last.Begin? && last.id == id) then last.now
      else LastTouch(steps[..|steps| - 1], id)
  }

  /** A step that begins the transaction anew, ends it, or cleans up when it has been idle for too long. */
  predicate CutsOff(timeout: nat, before: seq<Step>, step: Step, id: string) {
    match step
    case Begin(i, _) => i == id
    case Commit(i, _, _) => i == id
    case Rollback(i) => i == id
    case CleanupExpired(now) => now > LastTouch(before, id) + timeout
    case _ => false
  }

  /** The steps begin the transaction, and nothing after that cuts it off. */
  ghost predicate Lives(timeout: nat, steps: seq<Step>, id: string) {
    && steps != [] && steps[0].Begin? && steps[0].id == id
    && forall k | 0 < k < |steps| :: !CutsOff(timeout, steps[..k], steps[k], id)
  }

  lemma LivesOneMore(timeout: nat, steps: seq<Step>, last: Step, id: string)
    requires steps != []
    ensures Lives(timeout, steps + [last], id) <==> Lives(timeout, steps, id) && !CutsOff(timeout, steps, last, id)
  {
    var more := steps + [last];
    assert more[..|steps|] == steps;
    assert forall k | 0 < k < |steps| :: more[..k] == steps[..k] && more[k] == steps[k];
    if Lives(timeout, more, id) {
      assert !CutsOff(timeout, more[..|steps|], more[|steps|], id);
    }
  }

  /** What the calls of the steps leave in the buffer. */
  function Collected(steps: seq<Step>, id: string): Active { Active(OpsIn(steps, id), LastTouch(steps, id)) }

  /** One step of a live transaction, cut off or not. */
  lemma OwnStep(timeout: nat, steps: seq<Step>, last: Step, id: string)
    requires !(last.Begin? && last.id == id)
    ensures Own(timeout, Some(Collected(steps, id)), id, last)
         == if CutsOff(timeout, steps, last, id) then None else Some(Collected(steps + [last], id))
  {
    assert (steps + [last])[..|steps|] == steps;
    assert OpsIn(steps, id) + [] == OpsIn(steps, id);
  }

  lemma BufferOneMore(timeout: nat, steps: seq<Step>, last: Step, id: string)
    ensures Buffer(timeout, steps + [last], id) == Own(timeout, Buffer(timeout, steps, id), id, last)
  {
    assert (steps + [last])[..|steps|] == steps;
  }

  lemma BufferBegun(timeout: nat, steps: seq<Step>, first: Step, id: string)
    requires first.Begin? && first.id == id
    ensures Buffer(timeout, steps + [first], id) == Some(Collected([first], id))
  {
    BufferOneMore(timeout, steps, first, id);
    assert [first][..0] == [] && OpsIn([first], id) == OpsIn([], id) + [];
  }

  lemma {:induction false} LiveBuffer(timeout: nat, steps: seq<Step>, live: seq<Step>, id: string)
    requires Lives(timeout, live, id)
    ensures Buffer(timeout, steps + live, id) == Some(Collected(live, id))
    decreases |live|
  {
    var n := |live| - 1;
    var before, last := live[..n], live[n];
    assert live == before + [last];
    if n == 0 {
      assert live == [last];
      BufferBegun(timeout, steps, last, id);
    } else {
      Associate(steps, before, [last]);
      LivesOneMore(timeout, before, last, id);
      LiveBuffer(timeout, steps, before, id);
      BufferOneMore(timeout, steps + before, last, id);
      OwnStep(timeout, before, last, id);
    }
  }

  lemma {:induction false} BufferLives(timeout: nat, steps: seq<Step>, id: string)
      returns (earlier: seq<Step>, live: seq<Step>)
    requires Buffer(timeout, steps, id).Some?
    ensures steps == earlier + live && Lives(timeout, live, id)
    decreases |steps|
  {
    var n := |steps| - 1;
    var before, last := steps[..n], steps[n];
    assert steps == before + [last];
    if last.Begin? && last.id == id {
      earlier, live := before, [last];
    } else {
      earlier, live := BufferLives(timeout, before, id);
      LiveBuffer(timeout, earlier, live, id);
      OwnStep(timeout, live, last, id);
      LivesOneMore(timeout, live, last, id);
      Associate(earlier, live, [last]);
      live := live + [last];
    }
  }

  /**
   A transaction has a buffer if and only if it was begun and not cut off since: not begun anew, committed
   or rolled back, and at every clean-up begun or given an operation at most `timeout` ticks before. The
   buffer holds the operations of its calls since then, in call order.
   */
  lemma BufferExactly(timeout: nat, steps: seq<Step>, id: string, a: Active)
    ensures Buffer(timeout, steps, id) == Some(a)
       <==> exists earlier, live ::
         steps == earlier + live && Lives(timeout, live, id) && a == Active(OpsIn(live, id), LastTouch(live, id))
  {
    if Buffer(timeout, steps, id) == Some(a) {
      var earlier, live := BufferLives(timeout, steps, id);
      LiveBuffer(timeout, earlier, live, id);
    }
    if earlier, live :|
      steps == earlier + live && Lives(timeout, live, id) && a == Active(OpsIn(live, id), LastTouch(live, id))
    {
      LiveBuffer(timeout, earlier, live, id);
    }
  }

  // --- the store over a run -----------------------------------------------------------------------------------

  /**
   The store according to the commits alone: each commit that finds a live transaction, opens, replays
   and commits adds that transaction's whole buffer; nothing else changes the store.
   */
  function Ledger(update: Updater, timeout: nat, initial: Quads, steps: seq<Step>): Quads {
    if steps == [] then initial
    else
      var before, past := steps[..|steps| - 1], Ledger(update, timeout, initial, steps[..|steps| - 1]);
      match steps[|steps| - 1]
      case Commit(id, true, true) => Settled(update, past, Buffer(timeout, before, id))
      case _ => past
  }

  /** The store after committing a buffer, if there is one and its replay succeeds. */
  function Settled(update: Updater, past: Quads, buffer: Option<Active>): Quads {
    match buffer
    case Some(a) => (match Replay(update, past, a.ops) case Some(d) => d case None => past)
    case None => past
  }

  lemma {:induction false} StoreIsLedger(update: Updater, timeout: nat, initial: Quads, steps: seq<Step>)
    ensures Run(update, timeout, State(initial, map[]), steps).store == Ledger(update, timeout, initial, steps)
    decreases |steps|
  {
    if steps != [] {
      var before, last := steps[..|steps| - 1], steps[|steps| - 1];
      StoreIsLedger(update, timeout, initial, before);
      if last.Commit? {
        BuffersAreIndependent(update, timeout, initial, before, last.id);
      }
    }
  }

  /** The buffer that the last step commits, if it is a commit that succeeds. */
  function CommittedLast(update: Updater, timeout: nat, initial: Quads, steps: seq<Step>): Option<seq<BufferedOp>>
    requires steps != []
  {
    var before, last := steps[..|steps| - 1], steps[|steps| - 1];
    match last
    case Commit(id, true, true) =>
      (match Buffer(timeout, before, id)
       case Some(a) =>
         if Replay(update, Ledger(update, timeout, initial, before), a.ops).Some? then Some(a.ops) else None
       case None => None)
    case _ => None
  }

  /** The operations of all successful commits, whole and in commit order. */
  function CommittedOps(update: Updater, timeout: nat, initial: Quads, steps: seq<Step>): seq<BufferedOp> {
    if steps == [] then []
    else
      CommittedOps(update, timeout, initial, steps[..|steps| - 1])
      + (match CommittedLast(update, timeout, initial, steps) case Some(ops) => ops case None => [])
  }

  lemma {:induction false} ReplayConcat(update: Updater, d: Quads, a: seq<BufferedOp>, b: seq<BufferedOp>)
    ensures Replay(update, d, a + b)
         == (match Replay(update, d, a) case Some(d') => Replay(update, d', b) case None => None)
    decreases |a|
  {
    if a == [] {
      assert a + b == b;
    } else {
      assert (a + b)[1..] == a[1..] + b;
      var first := ApplyOp(update, d, a[0]);
      if first.Some? {
        ReplayConcat(update, first.value, a[1..], b);
      }
    }
  }

  /** The store is the initial one with the operations of the successful commits replayed, and with nothing else. */
  lemma {:induction false} StoreIsReplay(update: Updater, timeout: nat, initial: Quads, steps: seq<Step>)
    ensures Replay(update, initial, CommittedOps(update, timeout, initial, steps))
         == Some(Run(update, timeout, State(initial, map[]), steps).store)
    ensures Replays(update, initial, CommittedOps(update, timeout, initial, steps),
                    Some(Run(update, timeout, State(initial, map[]), steps).store))
    decreases |steps|
  {
    ReplayExactly(update, initial, CommittedOps(update, timeout, initial, steps),
        Some(Run(update, timeout, State(initial, map[]), steps).store));
    StoreIsLedger(update, timeout, initial, steps);
    if steps != [] {
      var before := steps[..|steps| - 1];
      StoreIsReplay(update, timeout, initial, before);
      StoreIsLedger(update, timeout, initial, before);
      var last := CommittedLast(update, timeout, initial, steps);
      ReplayConcat(update, initial, CommittedOps(update, timeout, initial, before),
          if last.Some? then last.value else []);
    }
  }

  // --- transactions that do not commit --------------------------------------------------------------------

  predicate IsOf(step: Step, id: string) { !step.CleanupExpired? && step.id == id }

  /** The steps without those of transaction `id`. */
  function Without(steps: seq<Step>, id: string): seq<Step> {
    if steps == [] then []
    else
      var last := steps[|steps| - 1];
      Without(steps[..|steps| - 1], id) + if IsOf(last, id) then [] else [last]
  }

  lemma LastKept(steps: seq<Step>, id: string)
    requires steps != [] && !IsOf(steps[|steps| - 1], id)
    ensures var rest := Without(steps, id);
            rest != [] && rest[|rest| - 1] == steps[|steps| - 1]
            && rest[..|rest| - 1] == Without(steps[..|steps| - 1], id)
  {
  }

  lemma {:induction false} OtherBuffersKept(timeout: nat, steps: seq<Step>, id: string, other: string)
    requires other != id
    ensures Buffer(timeout, Without(steps, id), other) == Buffer(timeout, steps, other)
    decreases |steps|
  {
    if steps != [] {
      OtherBuffersKept(timeout, steps[..|steps| - 1], id, other);
      if !IsOf(steps[|steps| - 1], id) {
        LastKept(steps, id);
      } else {
        assert Without(steps, id) == Without(steps[..|steps| - 1], id);
      }
    }
  }

  /** No commit of `id` succeeds in the run. */
  predicate NeverCommits(update: Updater, timeout: nat, initial: Quads, steps: seq<Step>, id: string) {
    forall k | 0 < k <= |steps| && steps[k - 1].Commit? && steps[k - 1].id == id ::
      CommittedLast(update, timeout, initial, steps[..k]).None?
  }

  /**
   A transaction that fails, is rolled back, expires or stays open contributes nothing: the run
   without it ends the same.
   */
  lemma {:induction false} UncommittedContributesNothing(update: Updater, timeout: nat, initial: Quads,
                                                         steps: seq<Step>, id: string)
    requires NeverCommits(update, timeout, initial, steps, id)
    ensures Run(update, timeout, State(initial, map[]), Without(steps, id)).store
         == Run(update, timeout, State(initial, map[]), steps).store
  {
    StoreIsLedger(update, timeout, initial, steps);
    StoreIsLedger(update, timeout, initial, Without(steps, id));
    LedgerWithout(update, timeout, initial, steps, id);
  }

  lemma {:induction false} LedgerWithout(update: Updater, timeout: nat, initial: Quads, steps: seq<Step>, id: string)
    requires NeverCommits(update, timeout, initial, steps, id)
    ensures Ledger(update, timeout, initial, Without(steps, id)) == Ledger(update, timeout, initial, steps)
    decreases |steps|
  {
    if steps != [] {
      var before := steps[..|steps| - 1];
      NeverCommittedBefore(update, timeout, initial, steps, id);
      LedgerWithout(update, timeout, initial, before, id);
      if IsOf(steps[|steps| - 1], id) {
        assert Without(steps, id) == Without(before, id);
        OwnStepKeepsLedger(update, timeout, initial, steps, id);
      } else {
        OtherStepInLedger(update, timeout, initial, steps, id);
      }
    }
  }

  lemma NeverCommittedBefore(update: Updater, timeout: nat, initial: Quads, steps: seq<Step>, id: string)
    requires steps != [] && NeverCommits(update, timeout, initial, steps, id)
    ensures NeverCommits(update, timeout, initial, steps[..|steps| - 1], id)
  {
    var before := steps[..|steps| - 1];
    forall k | 0 < k <= |before| ensures before[..k] == steps[..k] && before[k - 1] == steps[k - 1] {
    }
  }

  /** A step of a transaction that never commits leaves the ledger alone. */
  lemma OwnStepKeepsLedger(update: Updater, timeout: nat, initial: Quads, steps: seq<Step>, id: string)
    requires steps != [] && IsOf(steps[|steps| - 1], id) && NeverCommits(update, timeout, initial, steps, id)
    ensures Ledger(update, timeout, initial, steps) == Ledger(update, timeout, initial, steps[..|steps| - 1])
  {
    if steps[|steps| - 1].Commit? {
      assert steps[..|steps|] == steps;
      assert CommittedLast(update, timeout, initial, steps[..|steps|]).None?;
    }
  }

  /** A step of another transaction does the same with and without the steps of `id`. */
  lemma OtherStepInLedger(update: Updater, timeout: nat, initial: Quads, steps: seq<Step>, id: string)
    requires steps != [] && !IsOf(steps[|steps| - 1], id)
    requires Ledger(update, timeout, initial, Without(steps[..|steps| - 1], id))
          == Ledger(update, timeout, initial, steps[..|steps| - 1])
    ensures Ledger(update, timeout, initial, Without(steps, id)) == Ledger(update, timeout, initial, steps)
  {
    var last := steps[|steps| - 1];
    LastKept(steps, id);
    if last.Commit? {
      OtherBuffersKept(timeout, steps[..|steps| - 1], id, last.id);
    }
  }

  /** A transaction is replayed at most once: after a commit or rollback its buffer is gone. */
  lemma {:induction false} EndedTransactionIsGone(timeout: nat, steps: seq<Step>, last: Step, later: seq<Step>)
    requires last.Commit? || last.Rollback?
    requires forall i | 0 <= i < |later| :: later[i].Begin? ==> later[i].id != last.id
    ensures Buffer(timeout, steps + [last] + later, last.id).None?
    decreases |later|
  {
    var all := steps + [last] + later;
    if later == [] {
      assert all[|all| - 1] == last;
    } else {
      assert all[..|all| - 1] == steps + [last] + later[..|later| - 1];
      EndedTransactionIsGone(timeout, steps, last, later[..|later| - 1]);
      assert all[|all| - 1] == later[|later| - 1];
    }
  }

  // --- the registry ---------------------------------------------------------------------------------------------

  /** The answer of a SPARQL query on a dataset. */
  type Evaluator = (string, Quads) -> Result<string, TransactionError>

  class TransactionRegistry {
    var txns: map<string, Active>
    const timeout: nat

    constructor (t: nat)
      ensures txns == map[] && timeout == t
    {
      txns, timeout := map[], t;
    }

    /** The registry and the store it works on, as a value. */
    ghost function At(store: Store): State
      reads this, store
    {
      State(store.quads, txns)
    }

    /** `begin`, with the fresh id it draws. */
    method Begin(id: string, now: nat, ghost store: Store, ghost update: Updater)
      modifies this
      ensures At(store) == Next(update, timeout, old(At(store)), Step.Begin(id, now))
    {
      txns := txns[id := Active([], now)];
    }

    method Buffer(id: string, op: BufferedOp, now: nat) returns (found: bool)
      modifies this
      ensures found <==> id in old(txns)
      ensures txns == Push(old(txns), id, op, now)
    {
      if id !in txns {
        return false;
      }
      txns := txns[id := Active(txns[id].ops + [op], now)];
      found := true;
    }

    /** `add`: a body that does not parse is reported before an unknown transaction. */
    method Add(id: string, body: Option<seq<Quad>>, now: nat, ghost store: Store, ghost update: Updater)
      returns (r: Result<nat, TransactionError>)
      modifies this
      ensures At(store) == Next(update, timeout, old(At(store)), Step.Add(id, body, now))
      ensures r == if body.None? then Err(Parse) else if id !in old(txns) then Err(NotFound) else Ok(|body.value|)
    {
      if body.None? {
        return Err(Parse);
      }
      var found := Buffer(id, InsertQuads(body.value), now);
      r := if found then Ok(|body.value|) else Err(NotFound);
    }

    /** `remove`. */
    method Remove(id: string, body: Option<seq<Quad>>, now: nat, ghost store: Store, ghost update: Updater)
      returns (r: Result<nat, TransactionError>)
      modifies this
      ensures At(store) == Next(update, timeout, old(At(store)), Step.Remove(id, body, now))
      ensures r == if body.None? then Err(Parse) else if id !in old(txns) then Err(NotFound) else Ok(|body.value|)
    {
      if body.None? {
        return Err(Parse);
      }
      var found := Buffer(id, RemoveQuads(body.value), now);
      r := if found then Ok(|body.value|) else Err(NotFound);
    }

    /** `update`. */
    method Update(id: string, text: string, now: nat, ghost store: Store, ghost update: Updater)
      returns (r: Result<(), TransactionError>)
      modifies this
      ensures At(store) == Next(update, timeout, old(At(store)), Step.Update(id, text, now))
      ensures r == if id !in old(txns) then Err(NotFound) else Ok(())
    {
      var found := Buffer(id, SparqlUpdate(text), now);
      r := if found then Ok(()) else Err(NotFound);
    }

    /** `query`: evaluated on the store with the buffer replayed, which is then dropped. */
    method Query(id: string, openOk: bool, text: string, store: Store, update: Updater, evaluate: Evaluator)
      returns (r: Result<string, TransactionError>)
      ensures r == QueryAnswer(update, At(store), id, openOk, text, evaluate)
      ensures id in txns && openOk ==>
                exists seen :: Replays(update, store.quads, txns[id].ops, seen) &&
                  r == match seen case Some(d) => evaluate(text, d) case None => Err(TransactionError.Query)
    {
      if id !in txns {
        return Err(NotFound);
      }
      var ops := txns[id].ops;
      if !openOk {
        return Err(Storage);
      }
      var seen := ReplayOps(update, store.quads, ops);
      if seen.None? {
        return Err(TransactionError.Query);
      }
      r := evaluate(text, seen.value);
    }

    /** `commit`: the transaction leaves the registry whatever happens next. */
    method Commit(id: string, openOk: bool, commitOk: bool, store: Store, update: Updater)
      returns (r: Result<seq<BufferedOp>, TransactionError>)
      modifies this, store
      ensures At(store) == Next(update, timeout, old(At(store)), Step.Commit(id, openOk, commitOk))
      ensures r == CommitAnswer(update, old(At(store)), id, openOk, commitOk)
      ensures id in old(txns) && openOk ==>
                exists seen :: Replays(update, old(store.quads), old(txns)[id].ops, seen) &&
                  if seen.None? then r == Err(TransactionError.Query)
                  else if !commitOk then r == Err(Storage)
                  else r == Ok(old(txns)[id].ops) && store.quads == seen.value
    {
      if id !in txns {
        return Err(NotFound);
      }
      var active := txns[id];
      txns := txns - {id};
      if !openOk {
        return Err(Storage);
      }
      var replayed := ReplayOps(update, store.quads, active.ops);
      if replayed.None? {
        return Err(TransactionError.Query);
      }
      if !commitOk {
        return Err(Storage);
      }
      store.quads := replayed.value;
      r := Ok(active.ops);
    }

    /** `rollback`. */
    method Rollback(id: string, ghost store: Store, ghost update: Updater) returns (r: Result<(), TransactionError>)
      modifies this
      ensures At(store) == Next(update, timeout, old(At(store)), Step.Rollback(id))
      ensures r == if id !in old(txns) then Err(NotFound) else Ok(())
    {
      r := if id !in txns then Err(NotFound) else Ok(());
      txns := txns - {id};
    }

    /** The ids whose transactions have been idle longer than the timeout. */
    method ExpiredIds(now: nat) returns (expired: set<string>)
      ensures expired == set id | id in txns && Expired(txns[id], now, timeout)
    {
      expired := {};
      var todo := txns.Keys;
      while todo != {}
        invariant todo <= txns.Keys
        invariant expired == set id | id in txns.Keys - todo && Expired(txns[id], now, timeout)
        decreases todo
      {
        var id :| id in todo;
        todo := todo - {id};
        if now > txns[id].lastActive + timeout {
          expired := expired + {id};
        }
      }
    }

    static lemma RemovedCount(all: map<string, Active>, ids: set<string>)
      requires ids <= all.Keys
      ensures |ids| == |all| - |all - ids|
    {
      var rest := all - ids;
      assert rest.Keys == all.Keys - ids;
      assert |rest| == |rest.Keys| && |all| == |all.Keys|;
    }

    method RemoveAll(ids: set<string>)
      modifies this
      ensures txns == old(txns) - ids
    {
      var todo := ids;
      while todo != {}
        invariant todo <= ids
        invariant txns == old(txns) - (ids - todo)
        decreases todo
      {
        var id :| id in todo;
        todo := todo - {id};
        txns := txns - {id};
      }
    }

    /** What is left after removing the expired transactions. */
    static lemma LiveOnes(all: map<string, Active>, now: nat, timeout: nat, expired: set<string>)
      requires expired == set id | id in all && Expired(all[id], now, timeout)
      ensures all - expired == map id | id in all && !Expired(all[id], now, timeout) :: all[id]
      ensures |expired| == |all| - |all - expired|
    {
      RemovedCount(all, expired);
    }

    /** `cleanup_expired`: collect the expired ids, then remove them. */
    method CleanupExpired(now: nat, ghost store: Store, ghost update: Updater) returns (count: nat)
      modifies this
      ensures At(store) == Next(update, timeout, old(At(store)), Step.CleanupExpired(now))
      ensures count == |old(txns)| - |txns|
    {
      var expired := ExpiredIds(now);
      LiveOnes(txns, now, timeout, expired);
      RemoveAll(expired);
      count := |expired|;
    }
  }

  /** Every run of the registry against a store: the store ends as its successful commits alone leave it. */
  method Execute(update: Updater, evaluate: Evaluator, timeout: nat, initial: Quads, steps: seq<Step>)
    returns (final: Quads)
    ensures final == Ledger(update, timeout, initial, steps)
    ensures Replay(update, initial, CommittedOps(update, timeout, initial, steps)) == Some(final)
  {
    var store := new Store(initial);
    var registry := new TransactionRegistry(timeout);
    for i := 0 to |steps|
      invariant fresh(store) && fresh(registry) && registry.timeout == timeout
      invariant registry.At(store) == Run(update, timeout, State(initial, map[]), steps[..i])
    {
      assert steps[..i + 1][..i] == steps[..i];
      Call(registry, store, update, evaluate, steps[i]);
    }
    assert steps[..|steps|] == steps;
    StoreIsLedger(update, timeout, initial, steps);
    StoreIsReplay(update, timeout, initial, steps);
    final := store.quads;
  }

  method Call(registry: TransactionRegistry, store: Store, update: Updater, evaluate: Evaluator, step: Step)
    modifies registry, store
    ensures registry.At(store) == Next(update, registry.timeout, old(registry.At(store)), step)
  {
    match step {
      case Begin(id, now) => registry.Begin(id, now, store, update);
      case Add(id, body, now) => var _ := registry.Add(id, body, now, store, update);
      case Remove(id, body, now) => var _ := registry.Remove(id, body, now, store, update);
      case Update(id, text, now) => var _ := registry.Update(id, text, now, store, update);
      case QueryIn(id, openOk, text) => var _ := registry.Query(id, openOk, text, store, update, evaluate);
      case Commit(id, openOk, commitOk) => var _ := registry.Commit(id, openOk, commitOk, store, update);
      case Rollback(id) => var _ := registry.Rollback(id, store, update);
      case CleanupExpired(now) => var _ := registry.CleanupExpired(now, store, update);
    }
  }

  function QueryAnswer(update: Updater, st: State, id: string, openOk: bool, text: string,
                       evaluate: Evaluator): Result<string, TransactionError>
  {
    if id !in st.txns then Err(NotFound)
    else if !openOk then Err(Storage)
    else
      match Replay(update, st.store, st.txns[id].ops)
      case Some(seen) => evaluate(text, seen)
      case None => Err(TransactionError.Query)
  }

  function CommitAnswer(update: Updater, st: State, id: string, openOk: bool,
                        commitOk: bool): Result<seq<BufferedOp>, TransactionError>
  {
    if id !in st.txns then Err(NotFound)
    else if !openOk then Err(Storage)
    else if Replay(update, st.store, st.txns[id].ops).None? then Err(TransactionError.Query)
    else if !commitOk then Err(Storage)
    else Ok(st.txns[id].ops)
  }

  /**
   At any point of any run, a query in a transaction answers from exactly the dataset that committing
   at that moment would install, and fails exactly as that commit would.
   */
  lemma {:induction false} QueryPreviewsCommit(update: Updater, timeout: nat, initial: Quads, steps: seq<Step>,
                                               id: string, text: string, evaluate: Evaluator)
    ensures
      var st, committed := Run(update, timeout, State(initial, map[]), steps),
          Ledger(update, timeout, initial, steps + [Step.Commit(id, true, true)]);
      match CommitAnswer(update, st, id, true, true)
      case Ok(ops) =>
        && Buffer(timeout, steps, id).Some? && ops == Buffer(timeout, steps, id).value.ops
        && QueryAnswer(update, st, id, true, text, evaluate) == evaluate(text, committed)
      case Err(e) => QueryAnswer(update, st, id, true, text, evaluate) == Err(e) && committed == st.store
  {
    var more := steps + [Step.Commit(id, true, true)];
    assert more[..|more| - 1] == steps;
    StoreIsLedger(update, timeout, initial, steps);
    BuffersAreIndependent(update, timeout, initial, steps, id);
  }
}
