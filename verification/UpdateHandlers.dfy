/** The request handlers that change user data and then record what changed. */
module UpdateHandlers {
  import opened Wrappers
  import opened Dataset
  import opened ChangelogModel
  import opened Changelog
  import opened ServerRuns
  import T = Transactions

  const MAX_DIFF_STORE_SIZE := 1_000_000

  /** User operations never write the changelog graph. */
  ghost predicate LeavesChangelogAlone(update: Updater) {
    forall text, d | update(text, d).Some? :: ChangelogData(update(text, d).value) == ChangelogData(d)
  }

  /** The elements of a set, in some order. */
  method InSomeOrder(quads: Quads) returns (s: seq<Quad>)
    ensures Elements(s) == quads && |s| == |quads|
  {
    s := [];
    var todo := quads;
    while todo != {}
      invariant todo <= quads && Elements(s) == quads - todo && |s| + |todo| == |quads|
      decreases todo
    {
      var q :| q in todo;
      assert Elements(s + [q]) == Elements(s) + {q};
      assert quads - (todo - {q}) == (quads - todo) + {q};
      s, todo := s + [q], todo - {q};
    }
    assert quads - {} == quads;
  }

  /** What the operations returned with a successful update say about it. */
  ghost predicate Describe(before: Quads, after: Quads, text: string, enabled: bool, ops: Option<seq<BufferedOp>>) {
    if !enabled then ops.None?
    else if |before| > MAX_DIFF_STORE_SIZE then ops == Some([SparqlUpdate(text)])
    else exists inserted, removed :: ListsDiff(before, after, inserted, removed, ops)
  }

  predicate ListsDiff(before: Quads, after: Quads, inserted: seq<Quad>, removed: seq<Quad>,
                      ops: Option<seq<BufferedOp>>)
  {
    && IsDiff(before, after, inserted, removed)
    && ops == if inserted == [] && removed == [] then None else Some(DiffOps(inserted, removed))
  }

  /** `evaluate_sparql_update_with_diff`. */
  method EvaluateWithDiff(store: Store, text: string, update: Updater, enabled: bool)
    returns (ok: bool, ops: Option<seq<BufferedOp>>)
    modifies store
    ensures ok <==> update(text, old(store.quads)).Some?
    ensures !ok ==> store.quads == old(store.quads) && ops.None?
    ensures ok ==>
              store.quads == update(text, old(store.quads)).value
              && Describe(old(store.quads), store.quads, text, enabled, ops)
  {
    var before := store.quads;
    var result := update(text, store.quads);
    if result.None? {
      return false, None;
    }
    store.quads := result.value;
    ok := true;
    if !enabled {
      return true, None;
    }
    if |before| > MAX_DIFF_STORE_SIZE {
      return true, Some([SparqlUpdate(text)]);
    }
    var after := store.quads;
    var inserted := InSomeOrder(after - before);
    var removed := InSomeOrder(before - after);
    assert IsDiff(before, after, inserted, removed);
    if inserted == [] && removed == [] {
      ops := None;
    } else {
      var list := [];
      if inserted != [] {
        list := list + [InsertQuads(inserted)];
      }
      if removed != [] {
        list := list + [RemoveQuads(removed)];
      }
      assert list == DiffOps(inserted, removed);
      ops := Some(list);
    }
    assert ListsDiff(before, after, inserted, removed, ops);
  }

  lemma UserDiff(before: Quads, after: Quads, inserted: seq<Quad>, removed: seq<Quad>)
    requires IsDiff(before, after, inserted, removed) && ChangelogData(before) == ChangelogData(after)
    ensures IsDiff(UserData(before), UserData(after), inserted, removed)
    ensures UserOps(DiffOps(inserted, removed))
  {
    assert forall q | q in before && !IsUser(q) :: q in ChangelogData(before);
    assert forall q | q in after && !IsUser(q) :: q in ChangelogData(after);
    assert forall q | q in inserted :: q in Elements(inserted);
    assert forall q | q in removed :: q in Elements(removed);
  }

  lemma SameChangelog(before: Quads, after: Quads, log: Log)
    requires Stores(before, log) && ChangelogData(before) == ChangelogData(after)
    ensures Stores(after, log)
  {
    assert forall q :: (q in after && !IsUser(q)) <==> q in ChangelogData(before);
    assert forall q :: (q in before && !IsUser(q)) <==> q in ChangelogData(before);
  }

  /** What an update does to the abstract server, given the outcome of evaluating and of validating it. */
  ghost predicate UpdateRequest(text: string, update: Updater, accepts: Quads -> bool, enabled: bool, before: Quads,
                                timestamp: string, r: Request)
  {
    match update(text, before)
    case None => r == Unrecorded(UserData(before))
    case Some(after) =>
      if !enabled || !accepts(after) then r == Unrecorded(UserData(after))
      else if |before| > MAX_DIFF_STORE_SIZE then r == BlindUpdate(UserData(after), text, timestamp)
      else r.UpdateTo? && r.after == UserData(after) && r.timestamp == timestamp
  }

  /**
   `POST /update`: evaluated, then validated as `accepts` says, then recorded. An update that fails
   validation has been applied by then and is not recorded.
   */
  method HandleUpdate(store: Store, changelog: ChangelogService, text: string, update: Updater, accepts: Quads -> bool,
                      timestamp: string)
    returns (ok: bool, ghost r: Request)
    requires changelog.Valid(store) && LeavesChangelogAlone(update)
    modifies store, changelog
    ensures changelog.Valid(store)
    ensures ok <==> update(text, old(store.quads)).Some? && accepts(update(text, old(store.quads)).value)
    ensures UpdateRequest(text, update, accepts, changelog.enabled, old(store.quads), timestamp, r)
    ensures Acceptable(old(changelog.At(store)), r)
    ensures changelog.At(store) == Handle(changelog.retain, old(changelog.At(store)), r)
  {
    ghost var before := store.quads;
    r := Unrecorded(UserData(before));
    var ops;
    ok, ops := EvaluateWithDiff(store, text, update, changelog.enabled);
    if !ok {
      return;
    }
    SameChangelog(before, store.quads, changelog.log);
    ghost var after := UserData(store.quads);
    r := Unrecorded(after);
    if !accepts(store.quads) {
      return false, r;
    }
    if !changelog.enabled {
      return;
    }
    if |before| > MAX_DIFF_STORE_SIZE {
      r := BlindUpdate(after, text, timestamp);
    } else {
      ghost var inserted, removed :| ListsDiff(before, store.quads, inserted, removed, ops);
      UserDiff(before, store.quads, inserted, removed);
      r := UpdateTo(after, inserted, removed, timestamp);
    }
    if ops.Some? {
      var _ := changelog.Record(store, ops.value, "update", timestamp);
    }
  }

  /** Quad operations act on user data alone. */
  lemma {:induction false} EffectOnUserData(store: Quads, ops: seq<BufferedOp>)
    requires QuadsOnly(ops) && UserOps(ops)
    ensures UserData(Effect(store, ops)) == Effect(UserData(store), ops)
    ensures ChangelogData(Effect(store, ops)) == ChangelogData(store)
    decreases |ops|
  {
    if ops != [] {
      EffectOnUserData(store, ops[..|ops| - 1]);
      assert forall q | q in ops[|ops| - 1].quads :: IsUser(q);
    }
  }

  /** Replaying user operations and well-behaved updates leaves the changelog graph alone. */
  lemma {:induction false} ReplayLeavesChangelogAlone(update: Updater, d: Quads, ops: seq<BufferedOp>)
    requires LeavesChangelogAlone(update) && UserOps(ops) && Replay(update, d, ops).Some?
    ensures ChangelogData(Replay(update, d, ops).value) == ChangelogData(d)
    decreases |ops|
  {
    if ops != [] {
      var d' := ApplyOp(update, d, ops[0]).value;
      assert !ops[0].SparqlUpdate? ==> forall q | q in ops[0].quads :: IsUser(q);
      assert ChangelogData(d') == ChangelogData(d);
      assert forall i | 0 <= i < |ops[1..]| :: ops[1..][i] == ops[i + 1];
      ReplayLeavesChangelogAlone(update, d', ops[1..]);
    }
  }

  /** What committing a transaction does to the abstract server. */
  ghost predicate CommitRequest(buffer: Option<seq<BufferedOp>>, succeeds: bool, update: Updater, enabled: bool,
                                before: Quads, timestamp: string, r: Request)
  {
    if buffer.None? || !succeeds || Replay(update, before, buffer.value).None? then r == Unrecorded(UserData(before))
    else
      var after := UserData(Replay(update, before, buffer.value).value);
      r == if enabled then Commit(after, buffer.value, timestamp) else Unrecorded(after)
  }

  ghost function BufferOf(registry: T.TransactionRegistry, id: string): Option<seq<BufferedOp>>
    reads registry
  {
    if id in registry.txns then Some(registry.txns[id].ops) else None
  }

  /** `PUT /transactions/{id}/commit`: the outcome of the replay is recorded with the transaction's operations. */
  method HandleCommit(registry: T.TransactionRegistry, store: Store, changelog: ChangelogService, id: string,
                      openOk: bool, commitOk: bool, update: Updater, timestamp: string)
    returns (ok: bool, ghost r: Request)
    requires changelog.Valid(store) && LeavesChangelogAlone(update)
    requires id in registry.txns ==> UserOps(registry.txns[id].ops)
    modifies registry, store, changelog
    ensures changelog.Valid(store) && registry.txns == old(registry.txns) - {id}
    ensures CommitRequest(old(BufferOf(registry, id)), openOk && commitOk, update, changelog.enabled, old(store.quads),
                          timestamp, r)
    ensures ok ==> id in old(registry.txns)
    ensures ok ==> exists after :: Replays(update, old(store.quads), old(registry.txns)[id].ops, Some(after)) &&
                     UserData(store.quads) == UserData(after)
    ensures Acceptable(old(changelog.At(store)), r)
    ensures changelog.At(store) == Handle(changelog.retain, old(changelog.At(store)), r)
  {
    ghost var before := store.quads;
    r := Unrecorded(UserData(before));
    CommitKeepsChangelog(update, before, BufferOf(registry, id));
    var result := registry.Commit(id, openOk, commitOk, store, update);
    if result.Err? {
      return false, r;
    }
    SameChangelog(before, store.quads, changelog.log);
    ok, r := true, Unrecorded(UserData(store.quads));
    if changelog.enabled {
      r := Commit(UserData(store.quads), result.value, timestamp);
      var _ := changelog.Record(store, result.value, "transaction", timestamp);
    }
  }

  lemma CommitKeepsChangelog(update: Updater, before: Quads, buffer: Option<seq<BufferedOp>>)
    requires LeavesChangelogAlone(update) && (buffer.Some? ==> UserOps(buffer.value))
    ensures buffer.Some? && Replay(update, before, buffer.value).Some? ==>
              var after := Replay(update, before, buffer.value).value;
              && ChangelogData(after) == ChangelogData(before)
              && (QuadsOnly(buffer.value) ==> UserData(after) == Effect(UserData(before), buffer.value))
  {
    if buffer.Some? && Replay(update, before, buffer.value).Some? {
      ReplayLeavesChangelogAlone(update, before, buffer.value);
      if QuadsOnly(buffer.value) {
        EffectIsReplay(update, before, buffer.value);
        EffectOnUserData(before, buffer.value);
      }
    }
  }
}
