/**
 Whole runs of the server, request by request: replicas that follow the change events, numbering and
 retention, and undoing what was done.
 */
module ServerRuns {
  import opened Wrappers
  import opened Dataset
  import opened ChangelogModel

  /**
   What happens to the server. `UpdateTo` is a SPARQL update with a before/after diff, `BlindUpdate` one
   on a store too large to diff, and `Unrecorded` a change that is not recorded, or no change at all.
   `Commit` carries a transaction's operations and the data they lead to; `Restart` is `init_counter`.
   */
  datatype Request =
    | UpdateTo(after: Quads, inserted: seq<Quad>, removed: seq<Quad>, timestamp: string)
    | BlindUpdate(after: Quads, text: string, timestamp: string)
    | Unrecorded(after: Quads)
    | UndoOf(id: nat, timestamp: string)
    | Commit(after: Quads, ops: seq<BufferedOp>, timestamp: string)
    | PurgeAll
    | Restart

  /** The lists of a diffed update are the two set differences, in any order. */
  predicate IsDiff(before: Quads, after: Quads, inserted: seq<Quad>, removed: seq<Quad>) {
    Elements(inserted) == after - before && Elements(removed) == before - after
  }

  predicate QuadsOnly(ops: seq<BufferedOp>) { forall i | 0 <= i < |ops| :: !ops[i].SparqlUpdate? }

  predicate Acceptable(s: Server, r: Request) {
    match r
    case UpdateTo(after, inserted, removed, _) => IsDiff(s.user, after, inserted, removed)
    case Commit(after, ops, _) => QuadsOnly(ops) ==> after == Effect(s.user, ops)
    case _ => true
  }

  /** The effect of inserts and removes in order. */
  function Effect(d: Quads, ops: seq<BufferedOp>): Quads
    requires QuadsOnly(ops)
  {
    if ops == [] then d
    else
      var before := Effect(d, ops[..|ops| - 1]);
      match ops[|ops| - 1]
      case InsertQuads(quads) => before + Elements(quads)
      case RemoveQuads(quads) => before - Elements(quads)
      case SparqlUpdate(_) => before
  }

  lemma {:induction false} EffectIsReplay(update: Updater, d: Quads, ops: seq<BufferedOp>)
    requires QuadsOnly(ops)
    ensures Replay(update, d, ops) == Some(Effect(d, ops))
    decreases |ops|
  {
    if ops != [] {
      var n := |ops| - 1;
      EffectIsReplay(update, d, ops[..n]);
      ReplayAppend(update, d, ops[..n], ops[n]);
      assert ops == ops[..n] + [ops[n]];
    }
  }

  lemma {:induction false} ReplayAppend(update: Updater, d: Quads, ops: seq<BufferedOp>, op: BufferedOp)
    ensures Replay(update, d, ops + [op])
         == (match Replay(update, d, ops) case Some(d') => ApplyOp(update, d', op) case None => None)
    decreases |ops|
  {
    if ops == [] {
      assert ([] + [op])[1..] == [];
    } else {
      assert (ops + [op])[1..] == ops[1..] + [op];
      var first := ApplyOp(update, d, ops[0]);
      if first.Some? {
        ReplayAppend(update, first.value, ops[1..], op);
      }
    }
  }

  ghost function Handle(retain: nat, s: Server, r: Request): Server
    requires Acceptable(s, r)
  {
    match r
    case UpdateTo(after, inserted, removed, timestamp) => Update(retain, s, after, inserted, removed, timestamp)
    case BlindUpdate(after, text, timestamp) =>
      Record(retain, s.(user := after), [SparqlUpdate(text)], "update", timestamp)
    case Unrecorded(after) => s.(user := after)
    case UndoOf(id, timestamp) => Undo(retain, s, id, timestamp)
    case Commit(after, ops, timestamp) => Record(retain, s.(user := after), ops, "transaction", timestamp)
    case PurgeAll => Purge(s)
    case Restart => s.(counter := NextId(s.log.Keys))
  }

  ghost predicate AcceptableRun(retain: nat, s: Server, rs: seq<Request>)
    decreases |rs|
  {
    rs == [] || (Acceptable(s, rs[0]) && AcceptableRun(retain, Handle(retain, s, rs[0]), rs[1..]))
  }

  ghost function Run(retain: nat, s: Server, rs: seq<Request>): Server
    requires AcceptableRun(retain, s, rs)
    decreases |rs|
  {
    if rs == [] then s else Run(retain, Handle(retain, s, rs[0]), rs[1..])
  }

  lemma {:induction false} RunAppend(retain: nat, s: Server, rs: seq<Request>, r: Request)
    requires AcceptableRun(retain, s, rs) && Acceptable(Run(retain, s, rs), r)
    ensures AcceptableRun(retain, s, rs + [r])
    ensures Run(retain, s, rs + [r]) == Handle(retain, Run(retain, s, rs), r)
    decreases |rs|
  {
    if rs == [] {
      assert ([] + [r])[1..] == [];
    } else {
      assert (rs + [r])[1..] == rs[1..] + [r];
      RunAppend(retain, Handle(retain, s, rs[0]), rs[1..], r);
    }
  }

  // --- numbering -----------------------------------------------------------------------------------------

  /** Stored ids are below the counter and within retention: what holds whatever happens. */
  predicate Numbered(retain: nat, s: Server) { WellNumbered(s) && WithinRetention(s, retain) }

  /** Requests that record an event whatever the changelog holds. */
  predicate Speaks(r: Request) {
    match r
    case UpdateTo(_, inserted, removed, _) => inserted != [] || removed != []
    case BlindUpdate(_, _, _) => true
    case Commit(_, _, _) => true
    case _ => false
  }

  /** Requests that record an event; an undo does if it finds an entry that it can undo. */
  predicate Records(s: Server, r: Request) { Speaks(r) || (r.UndoOf? && CanUndo(s, r.id)) }

  lemma HandleRecords(retain: nat, s: Server, r: Request)
      returns (ops: seq<BufferedOp>, operation: string, timestamp: string)
    requires Acceptable(s, r) && Records(s, r)
    ensures Handle(retain, s, r) == Record(retain, s.(user := Handle(retain, s, r).user), ops, operation, timestamp)
  {
    ops, operation, timestamp := [], "update", r.timestamp;
    match r
    case UpdateTo(_, inserted, removed, _) => ops := DiffOps(inserted, removed);
    case BlindUpdate(_, text, _) => ops := [SparqlUpdate(text)];
    case UndoOf(id, _) => ops, operation := InverseOps(s.log[id]), UndoName(id);
    case Commit(_, buffered, _) => ops, operation := buffered, "transaction";
  }

  lemma HandleSilent(retain: nat, s: Server, r: Request)
    requires Acceptable(s, r) && !Records(s, r)
    ensures var s' := Handle(retain, s, r);
            && s'.events == s.events && s'.log == (if r.PurgeAll? then map[] else s.log)
            && s'.counter == (if r.Restart? then NextId(s.log.Keys) else s.counter)
  {
  }

  /** One event at most, with the counter as its id. */
  lemma HandleEvents(retain: nat, s: Server, r: Request)
    requires Acceptable(s, r)
    ensures var s' := Handle(retain, s, r);
            if Records(s, r)
            then && |s'.events| == |s.events| + 1 && s.events <= s'.events && s'.events[|s.events|].id == s.counter
                 && s'.counter == s.counter + 1
            else s'.events == s.events
  {
    if Records(s, r) {
      var ops, operation, timestamp := HandleRecords(retain, s, r);
    } else {
      HandleSilent(retain, s, r);
    }
  }

  lemma {:induction false} EventsGrow(retain: nat, s: Server, rs: seq<Request>)
    requires AcceptableRun(retain, s, rs)
    ensures s.events <= Run(retain, s, rs).events
    decreases |rs|
  {
    if rs != [] {
      HandleEvents(retain, s, rs[0]);
      EventsGrow(retain, Handle(retain, s, rs[0]), rs[1..]);
    }
  }

  lemma HandleKeepsNumbering(retain: nat, s: Server, r: Request)
    requires WellNumbered(s) && Acceptable(s, r)
    ensures WellNumbered(Handle(retain, s, r))
    ensures WithinRetention(s, retain) ==> WithinRetention(Handle(retain, s, r), retain)
  {
    if Records(s, r) {
      var ops, operation, timestamp := HandleRecords(retain, s, r);
      RecordKeepsNumbering(retain, s.(user := Handle(retain, s, r).user), ops, operation, timestamp);
    } else {
      HandleSilent(retain, s, r);
    }
  }

  /** Over every run, restarts included: ids below the counter, and never more than `retain` entries. */
  lemma {:induction false} RunKeepsNumbering(retain: nat, s: Server, rs: seq<Request>)
    requires Numbered(retain, s) && AcceptableRun(retain, s, rs)
    ensures Numbered(retain, Run(retain, s, rs))
    ensures retain > 0 ==> |Run(retain, s, rs).log| <= retain
    ensures s.events <= Run(retain, s, rs).events
    decreases |rs|
  {
    if rs == [] {
      if retain > 0 { RetentionBound(s, retain); }
    } else {
      HandleEvents(retain, s, rs[0]);
      HandleKeepsNumbering(retain, s, rs[0]);
      RunKeepsNumbering(retain, Handle(retain, s, rs[0]), rs[1..]);
    }
  }

  // --- event ids ------------------------------------------------------------------------------------------

  predicate IdsIncrease(events: seq<ChangeEvent>) {
    forall i, j | 0 <= i < j < |events| :: events[i].id < events[j].id
  }

  /** Event ids start at 1, rise strictly and stay below the counter. */
  predicate EventsNumbered(s: Server) {
    IdsIncrease(s.events) && forall i | 0 <= i < |s.events| :: 1 <= s.events[i].id < s.counter
  }

  /** The entry of the last event sent is still stored. */
  predicate NewestKept(s: Server) { s.events == [] || s.events[|s.events| - 1].id in s.log }

  /** The server remembers the last id it sent: so when it starts, and until a purge. */
  predicate Consistent(s: Server) { WellNumbered(s) && EventsNumbered(s) && NewestKept(s) }

  /** Ids that were sent are no longer stored; the counter still knows them. */
  predicate Purged(s: Server) { WellNumbered(s) && EventsNumbered(s) && s.events != [] && s.log == map[] }

  /** Ids that were sent are forgotten: the counter is back at 1. */
  predicate Rewound(s: Server) {
    s.log == map[] && s.counter == 1 && s.events != [] && s.events[|s.events| - 1].id >= 1
  }

  predicate SomeSpeak(rs: seq<Request>) { exists i :: 0 <= i < |rs| && Speaks(rs[i]) }

  /** The requests that follow a purge restart the server before the next event, and that event comes. */
  predicate ForgetsIds(rs: seq<Request>) {
    rs != [] && !Speaks(rs[0]) && if rs[0].Restart? then SomeSpeak(rs) else ForgetsIds(rs[1..])
  }

  /** No event is recorded after a restart that follows a purge of what was sent, with no event in between. */
  ghost predicate RemembersIds(retain: nat, s: Server, rs: seq<Request>)
    requires AcceptableRun(retain, s, rs)
    decreases |rs|
  {
    rs == [] ||
    (&& !(rs[0].PurgeAll? && s.events != [] && ForgetsIds(rs[1..]))
     && RemembersIds(retain, Handle(retain, s, rs[0]), rs[1..]))
  }

  /** Recording keeps the numbers in order, also right after a purge: the newest entry is never pruned. */
  lemma RecordIsConsistent(retain: nat, s: Server, r: Request)
    requires WellNumbered(s) && EventsNumbered(s) && Acceptable(s, r) && Records(s, r)
    ensures Consistent(Handle(retain, s, r))
  {
    HandleEvents(retain, s, r);
    var ops, operation, timestamp := HandleRecords(retain, s, r);
    RecordKeepsNumbering(retain, s.(user := Handle(retain, s, r).user), ops, operation, timestamp);
  }

  /** Every request but a purge of what was sent leaves the server consistent, a restart too. */
  lemma StaysConsistent(retain: nat, s: Server, r: Request)
    requires Consistent(s) && Acceptable(s, r) && (r.PurgeAll? ==> s.events == [])
    ensures Consistent(Handle(retain, s, r))
  {
    if Records(s, r) {
      RecordIsConsistent(retain, s, r);
    } else {
      HandleSilent(retain, s, r);
      HandleKeepsNumbering(retain, s, r);
      if s.events != [] {
        assert forall i | 0 <= i < |s.events| :: s.events[i].id <= s.events[|s.events| - 1].id;
      }
    }
  }

  /** With nothing stored, requests that do not speak change nothing but the counter, on a restart. */
  lemma EmptyLogSilent(retain: nat, s: Server, r: Request)
    requires s.log == map[] && Acceptable(s, r) && !Speaks(r)
    ensures var s' := Handle(retain, s, r);
            s'.log == map[] && s'.events == s.events && s'.counter == (if r.Restart? then 1 else s.counter)
  {
    HandleSilent(retain, s, r);
    assert s.log.Keys == {};
  }

  lemma {:induction false} SilentRun(retain: nat, s: Server, rs: seq<Request>)
    requires s.log == map[] && AcceptableRun(retain, s, rs) && !SomeSpeak(rs)
    ensures Run(retain, s, rs).events == s.events && RemembersIds(retain, s, rs) && !ForgetsIds(rs)
    decreases |rs|
  {
    if rs != [] {
      EmptyLogSilent(retain, s, rs[0]);
      SilentRun(retain, Handle(retain, s, rs[0]), rs[1..]);
    }
  }

  lemma SpeakLater(rs: seq<Request>)
    requires rs != [] && !Speaks(rs[0])
    ensures SomeSpeak(rs) <==> SomeSpeak(rs[1..])
  {
    if i :| 0 <= i < |rs| && Speaks(rs[i]) { assert rs[1..][i - 1] == rs[i]; }
    if i :| 0 <= i < |rs[1..]| && Speaks(rs[1..][i]) { assert rs[i + 1] == rs[1..][i]; }
  }

  lemma IdFallsBehind(before: seq<ChangeEvent>, next: seq<ChangeEvent>, all: seq<ChangeEvent>)
    requires before != [] && before <= next <= all && |next| == |before| + 1
    requires next[|before|].id <= before[|before| - 1].id
    ensures !IdsIncrease(all)
  {
    assert all[|before| - 1].id >= all[|before|].id;
  }

  lemma SpeaksRewound(retain: nat, s: Server, r: Request, all: seq<ChangeEvent>)
    requires Rewound(s) && Acceptable(s, r) && Speaks(r) && Handle(retain, s, r).events <= all
    ensures !IdsIncrease(all)
  {
    HandleEvents(retain, s, r);
    IdFallsBehind(s.events, Handle(retain, s, r).events, all);
  }

  /** Once the counter is back at 1, the next event repeats an id or falls behind. */
  lemma {:induction false} RewoundFallsBehind(retain: nat, s: Server, rs: seq<Request>)
    requires Rewound(s) && AcceptableRun(retain, s, rs) && SomeSpeak(rs)
    ensures !IdsIncrease(Run(retain, s, rs).events)
    decreases |rs|
  {
    var s' := Handle(retain, s, rs[0]);
    if Speaks(rs[0]) {
      EventsGrow(retain, s', rs[1..]);
      SpeaksRewound(retain, s, rs[0], Run(retain, s', rs[1..]).events);
    } else {
      EmptyLogSilent(retain, s, rs[0]);
      SpeakLater(rs);
      RewoundFallsBehind(retain, s', rs[1..]);
    }
  }

  lemma {:induction false} IdsAfterPurge(retain: nat, s: Server, rs: seq<Request>)
    requires Purged(s) && AcceptableRun(retain, s, rs)
    ensures IdsIncrease(Run(retain, s, rs).events) <==> !ForgetsIds(rs) && RemembersIds(retain, s, rs)
    decreases |rs|
  {
    if rs != [] {
      var s', rest := Handle(retain, s, rs[0]), rs[1..];
      if Speaks(rs[0]) {
        RecordIsConsistent(retain, s, rs[0]);
        EventIdsRise(retain, s', rest);
      } else {
        EmptyLogSilent(retain, s, rs[0]);
        SpeakLater(rs);
        if !rs[0].Restart? {
          IdsAfterPurge(retain, s', rest);
        } else if SomeSpeak(rest) {
          RewoundFallsBehind(retain, s', rest);
        } else {
          SilentRun(retain, s', rest);
        }
      }
    }
  }

  /**
   Over every run: the ids of the events rise strictly if and only if no event is recorded after a
   restart that follows a purge with no event in between.
   */
  lemma {:induction false} EventIdsRise(retain: nat, s: Server, rs: seq<Request>)
    requires Consistent(s) && AcceptableRun(retain, s, rs)
    ensures IdsIncrease(Run(retain, s, rs).events) <==> RemembersIds(retain, s, rs)
    decreases |rs|
  {
    if rs != [] {
      var s', rest := Handle(retain, s, rs[0]), rs[1..];
      if rs[0].PurgeAll? && s.events != [] {
        IdsAfterPurge(retain, s', rest);
      } else {
        StaysConsistent(retain, s, rs[0]);
        EventIdsRise(retain, s', rest);
      }
    }
  }

  /** After a purge a restart counts from 1 again, and the next event repeats an id already sent. */
  lemma IdReused(retain: nat, q: Quad, t: string)
    ensures var s := Server({}, map[], 1, []);
            var rs := [UpdateTo({q}, [q], [], t), PurgeAll, Restart, UpdateTo({}, [], [q], t)];
            && AcceptableRun(retain, s, rs) && |Run(retain, s, rs).events| == 2
            && Run(retain, s, rs).events[0].id == Run(retain, s, rs).events[1].id == 1
  {
    var s := Server({}, map[], 1, []);
    var first, last := UpdateTo({q}, [q], [], t), UpdateTo({}, [], [q], t);
    assert Elements([q]) == {q} && Elements([]) == {};
    var s1 := Handle(retain, s, first);
    HandleEvents(retain, s, first);
    var s2 := Handle(retain, s1, PurgeAll);
    EmptyLogSilent(retain, s2, Restart);
    var s3 := Handle(retain, s2, Restart);
    HandleEvents(retain, s3, last);
    FourSteps(retain, s, first, PurgeAll, Restart, last);
  }

  lemma FourSteps(retain: nat, s: Server, a: Request, b: Request, c: Request, d: Request)
    requires Acceptable(s, a) && Acceptable(Handle(retain, s, a), b)
    requires Acceptable(Handle(retain, Handle(retain, s, a), b), c)
    requires Acceptable(Handle(retain, Handle(retain, Handle(retain, s, a), b), c), d)
    ensures AcceptableRun(retain, s, [a, b, c, d])
    ensures Run(retain, s, [a, b, c, d])
         == Handle(retain, Handle(retain, Handle(retain, Handle(retain, s, a), b), c), d)
  {
    RunAppend(retain, s, [], a);
    RunAppend(retain, s, [] + [a], b);
    RunAppend(retain, s, [] + [a] + [b], c);
    RunAppend(retain, s, [] + [a] + [b] + [c], d);
    assert [] + [a] + [b] + [c] + [d] == [a, b, c, d];
  }

  // --- replicas ---------------------------------------------------------------------------------------------

  /** What a subscriber does with an event: insert the inserted quads, then remove the removed ones. */
  function Follow(data: Quads, e: ChangeEvent): Quads { data + Elements(e.inserted) - Elements(e.removed) }

  function FollowAll(data: Quads, events: seq<ChangeEvent>): Quads {
    if events == [] then data else Follow(FollowAll(data, events[..|events| - 1]), events[|events| - 1])
  }

  /** The last operation of a transaction that mentions a quad: did it insert it? */
  function LastWord(ops: seq<BufferedOp>, q: Quad): Option<bool> {
    if ops == [] then None
    else
      var last := ops[|ops| - 1];
      if !last.SparqlUpdate? && q in last.quads then Some(last.InsertQuads?) else LastWord(ops[..|ops| - 1], q)
  }

  lemma {:induction false} LastWordDecides(d: Quads, ops: seq<BufferedOp>, q: Quad)
    requires QuadsOnly(ops)
    ensures q in Effect(d, ops) <==> (match LastWord(ops, q) case Some(inserted) => inserted case None => q in d)
    ensures LastWord(ops, q).None? <==> q !in Inserts(ops) && q !in Removes(ops)
    ensures LastWord(ops, q) == Some(true) ==> q in Inserts(ops)
    ensures LastWord(ops, q) == Some(false) ==> q in Removes(ops)
    decreases |ops|
  {
    if ops != [] {
      LastWordDecides(d, ops[..|ops| - 1], q);
    }
  }

  /** No quad that the transaction removes somewhere is inserted again at the end. */
  predicate RemovalsAreFinal(ops: seq<BufferedOp>) {
    forall q | q in Removes(ops) :: LastWord(ops, q) == Some(false)
  }

  /** A subscriber follows a commit correctly exactly when the transaction re-inserts nothing it removed. */
  lemma CommitFollowed(d: Quads, ops: seq<BufferedOp>, id: nat, timestamp: string)
    requires QuadsOnly(ops)
    ensures Follow(d, EventFor(EntryFor(id, ops, "transaction", timestamp))) == Effect(d, ops)
       <==> RemovalsAreFinal(ops)
  {
    var followed := Follow(d, EventFor(EntryFor(id, ops, "transaction", timestamp)));
    forall q { LastWordDecides(d, ops, q); }
    if RemovalsAreFinal(ops) {
      assert forall q :: q in followed <==> q in Effect(d, ops);
    } else {
      var q :| q in Removes(ops) && LastWord(ops, q) != Some(false);
      assert q in Effect(d, ops) && q !in followed;
    }
  }

  /** A quad that is there is removed and inserted again: a subscriber that follows the event loses it. */
  lemma ReinsertedQuadLost(d: Quads, q: Quad, id: nat, timestamp: string)
    requires q in d
    ensures var ops := [RemoveQuads([q]), InsertQuads([q])];
            && QuadsOnly(ops) && Effect(d, ops) == d
            && Follow(d, EventFor(EntryFor(id, ops, "transaction", timestamp))) == d - {q}
  {
    var ops := [RemoveQuads([q]), InsertQuads([q])];
    assert ops[..1] == [RemoveQuads([q])] && ops[..1][..0] == [] && Elements([q]) == {q};
    assert Effect(d, ops[..1]) == d - {q};
    assert Inserts(ops[..1][..0]) == [] && Removes(ops[..1][..0]) == [];
    assert Inserts(ops[..1]) == [] + [] && Removes(ops[..1]) == [] + [q];
    assert Inserts(ops) == [] + [q] == [q] && Removes(ops) == [q] + [] == [q];
  }

  /** The requests whose event says all that happened; of SPARQL in a commit, the event says nothing. */
  predicate Followable(s: Server, r: Request) {
    match r
    case Commit(after, ops, _) =>
      if QuadsOnly(ops) then RemovalsAreFinal(ops)
      else after == s.user + Elements(Inserts(ops)) - Elements(Removes(ops))
    case BlindUpdate(after, _, _) => after == s.user
    case Unrecorded(after) => after == s.user
    case _ => true
  }

  /** A replica that follows a request's events, if any, ends with the new user data. */
  predicate Followed(s: Server, s': Server) {
    s.events <= s'.events && FollowAll(s.user, s'.events[|s.events|..]) == s'.user
  }

  lemma FollowedByOne(s: Server, s': Server, e: ChangeEvent)
    requires s'.events == s.events + [e]
    ensures Followed(s, s') <==> Follow(s.user, e) == s'.user
  {
    assert s'.events[|s.events|..] == [e] && [e][..0] == [];
    assert FollowAll(s.user, [e]) == Follow(FollowAll(s.user, []), e);
  }

  /** One request is followed correctly exactly when it is followable. */
  lemma HandleFollowed(retain: nat, s: Server, r: Request)
    requires Acceptable(s, r)
    ensures Followed(s, Handle(retain, s, r)) <==> Followable(s, r)
    ensures s.events <= Handle(retain, s, r).events
  {
    var s' := Handle(retain, s, r);
    assert Elements([]) == {};
    match r
    case UpdateTo(after, inserted, removed, timestamp) =>
      DiffOpsLists(inserted, removed);
      if inserted == [] && removed == [] {
        assert after == s.user && s'.events[|s.events|..] == [];
      } else {
        FollowedByOne(s, s', EventFor(EntryFor(s.counter, DiffOps(inserted, removed), "update", timestamp)));
      }
    case BlindUpdate(after, text, timestamp) =>
      var ops := [SparqlUpdate(text)];
      assert ops[..0] == [] && Inserts(ops) == [] && Removes(ops) == [];
      FollowedByOne(s, s', EventFor(EntryFor(s.counter, ops, "update", timestamp)));
    case UndoOf(id, timestamp) =>
      if CanUndo(s, id) {
        InverseOpsLists(s.log[id]);
        FollowedByOne(s, s', EventFor(EntryFor(s.counter, InverseOps(s.log[id]), UndoName(id), timestamp)));
      } else {
        assert s'.events[|s.events|..] == [];
      }
    case Commit(after, ops, timestamp) =>
      if QuadsOnly(ops) { CommitFollowed(s.user, ops, s.counter, timestamp); }
      FollowedByOne(s, s', EventFor(EntryFor(s.counter, ops, "transaction", timestamp)));
    case _ =>
      assert s'.events[|s.events|..] == [];
  }

  /** A commit of SPARQL updates alone is followed correctly exactly when it changes nothing. */
  lemma SparqlCommitFollowed(retain: nat, s: Server, after: Quads, ops: seq<BufferedOp>, timestamp: string)
    requires forall i | 0 <= i < |ops| :: ops[i].SparqlUpdate?
    requires Acceptable(s, Request.Commit(after, ops, timestamp))
    ensures Followed(s, Handle(retain, s, Request.Commit(after, ops, timestamp))) <==> after == s.user
  {
    SparqlHasNoLists(ops);
    assert Elements([]) == {};
    var s' := Handle(retain, s, Request.Commit(after, ops, timestamp));
    FollowedByOne(s, s', EventFor(EntryFor(s.counter, ops, "transaction", timestamp)));
  }

  lemma {:induction false} SparqlHasNoLists(ops: seq<BufferedOp>)
    requires forall i | 0 <= i < |ops| :: ops[i].SparqlUpdate?
    ensures Inserts(ops) == [] && Removes(ops) == []
    decreases |ops|
  {
    if ops != [] {
      SparqlHasNoLists(ops[..|ops| - 1]);
    }
  }

  lemma {:induction false} FollowConcat(data: Quads, a: seq<ChangeEvent>, b: seq<ChangeEvent>)
    ensures FollowAll(data, a + b) == FollowAll(FollowAll(data, a), b)
    decreases |b|
  {
    if b == [] {
      assert a + b == a;
    } else {
      assert (a + b)[..|a + b| - 1] == a + b[..|b| - 1];
      FollowConcat(data, a, b[..|b| - 1]);
    }
  }

  lemma FollowedTwice(s: Server, s1: Server, s2: Server)
    requires Followed(s, s1) && Followed(s1, s2)
    ensures Followed(s, s2)
  {
    assert s2.events[|s.events|..] == s1.events[|s.events|..] + s2.events[|s1.events|..];
    FollowConcat(s.user, s1.events[|s.events|..], s2.events[|s1.events|..]);
  }

  ghost predicate FollowableRun(retain: nat, s: Server, rs: seq<Request>)
    requires AcceptableRun(retain, s, rs)
    decreases |rs|
  {
    rs == [] || (Followable(s, rs[0]) && FollowableRun(retain, Handle(retain, s, rs[0]), rs[1..]))
  }

  lemma {:induction false} FollowableAppend(retain: nat, s: Server, rs: seq<Request>, r: Request)
    requires AcceptableRun(retain, s, rs) && Acceptable(Run(retain, s, rs), r) && AcceptableRun(retain, s, rs + [r])
    ensures FollowableRun(retain, s, rs + [r]) <==> FollowableRun(retain, s, rs) && Followable(Run(retain, s, rs), r)
    decreases |rs|
  {
    if rs == [] {
      assert ([] + [r])[1..] == [];
    } else {
      assert (rs + [r])[1..] == rs[1..] + [r];
      FollowableAppend(retain, Handle(retain, s, rs[0]), rs[1..], r);
    }
  }

  /** A replica that starts with `data` and follows each request's events agrees with the server all along. */
  ghost predicate InStep(retain: nat, data: Quads, s: Server, rs: seq<Request>)
    requires AcceptableRun(retain, s, rs)
    decreases |rs|
  {
    && data == s.user
    && (rs == [] ||
        (var s' := Handle(retain, s, rs[0]);
         s.events <= s'.events && InStep(retain, FollowAll(data, s'.events[|s.events|..]), s', rs[1..])))
  }

  /** A replica stays in step with a run exactly when every request of the run is followable. */
  lemma {:induction false} InStepExactly(retain: nat, s: Server, rs: seq<Request>)
    requires AcceptableRun(retain, s, rs)
    ensures InStep(retain, s.user, s, rs) <==> FollowableRun(retain, s, rs)
    decreases |rs|
  {
    if rs != [] {
      var s' := Handle(retain, s, rs[0]);
      HandleFollowed(retain, s, rs[0]);
      if Followable(s, rs[0]) {
        InStepExactly(retain, s', rs[1..]);
      }
    }
  }

  /**
   Replica safety: over every run of diffed updates and undos, in any order, and of the other
   followable requests, a subscriber that holds the server's user data and follows every event from
   then on holds the server's user data at the end; and so after each request on the way.
   */
  lemma {:induction false} ReplicaSafe(retain: nat, s: Server, rs: seq<Request>)
    requires AcceptableRun(retain, s, rs) && FollowableRun(retain, s, rs)
    ensures Followed(s, Run(retain, s, rs))
    decreases |rs|
  {
    if rs == [] {
      assert s.events[|s.events|..] == [];
    } else {
      var s' := Handle(retain, s, rs[0]);
      HandleFollowed(retain, s, rs[0]);
      ReplicaSafe(retain, s', rs[1..]);
      FollowedTwice(s, s', Run(retain, s', rs[1..]));
    }
  }

  // --- what may be undone ---------------------------------------------------------------------------------

  /** No SPARQL update in it, and at most a hundred thousand quads listed. */
  predicate MayBeUndone(r: Request) {
    match r
    case UpdateTo(_, inserted, removed, _) => |inserted| + |removed| <= 100_000
    case Commit(_, ops, _) => QuadsOnly(ops) && Listed(ops) <= 100_000
    case _ => false
  }

  lemma RecordedEntry(retain: nat, s: Server, r: Request)
    requires WellNumbered(s) && Acceptable(s, r) && Speaks(r)
    ensures var s' := Handle(retain, s, r);
            && WellNumbered(s') && s'.counter == s.counter + 1 && s.counter in s'.log
            && (s'.log[s.counter].undoable <==> MayBeUndone(r))
  {
    var recorded := s.(user := Handle(retain, s, r).user);
    match r
    case UpdateTo(_, inserted, removed, timestamp) =>
      DiffOpsLists(inserted, removed);
      RecordKeepsNumbering(retain, recorded, DiffOps(inserted, removed), "update", timestamp);
    case BlindUpdate(_, text, timestamp) =>
      var ops := [SparqlUpdate(text)];
      assert ops[0].SparqlUpdate?;
      RecordKeepsNumbering(retain, recorded, ops, "update", timestamp);
    case Commit(_, ops, timestamp) =>
      UndoableExactly(ops);
      RecordKeepsNumbering(retain, recorded, ops, "transaction", timestamp);
  }

  /** Right after a request is recorded, undoing it is accepted and recorded exactly if it may be undone. */
  lemma UndoAccepted(retain: nat, s: Server, r: Request, timestamp: string)
    requires WellNumbered(s) && Acceptable(s, r) && Speaks(r)
    ensures var s1 := Handle(retain, s, r);
            var s2 := Handle(retain, s1, UndoOf(s.counter, timestamp));
            if MayBeUndone(r) then s1.events < s2.events && |s2.events| == |s1.events| + 1 else s2 == s1
  {
    RecordedEntry(retain, s, r);
    HandleEvents(retain, Handle(retain, s, r), UndoOf(s.counter, timestamp));
  }

  /** Id `id` has been given to an entry that may not be undone, and will not be given again. */
  predicate Barred(s: Server, id: nat, newestKept: bool) {
    && WellNumbered(s) && id < s.counter && (id in s.log ==> !s.log[id].undoable)
    && (newestKept ==> s.counter - 1 in s.log)
  }

  lemma StaysBarred(retain: nat, s: Server, r: Request, id: nat, newestKept: bool)
    requires Barred(s, id, newestKept) && Acceptable(s, r)
    requires if newestKept then !r.PurgeAll? else !r.Restart?
    ensures Barred(Handle(retain, s, r), id, newestKept)
  {
    if Records(s, r) {
      var ops, operation, timestamp := HandleRecords(retain, s, r);
      RecordKeepsNumbering(retain, s.(user := Handle(retain, s, r).user), ops, operation, timestamp);
    } else {
      HandleSilent(retain, s, r);
      HandleKeepsNumbering(retain, s, r);
      if r.Restart? { NextIdUnique(s.log.Keys, s.counter); }
    }
  }

  predicate NoPurge(rs: seq<Request>) { forall i | 0 <= i < |rs| :: !rs[i].PurgeAll? }

  predicate NoRestart(rs: seq<Request>) { forall i | 0 <= i < |rs| :: !rs[i].Restart? }

  lemma {:induction false} StaysBarredThroughout(retain: nat, s: Server, rs: seq<Request>, id: nat, newestKept: bool)
    requires Barred(s, id, newestKept) && AcceptableRun(retain, s, rs)
    requires if newestKept then NoPurge(rs) else NoRestart(rs)
    ensures Barred(Run(retain, s, rs), id, newestKept)
    decreases |rs|
  {
    if rs != [] {
      StaysBarred(retain, s, rs[0], id, newestKept);
      StaysBarredThroughout(retain, Handle(retain, s, rs[0]), rs[1..], id, newestKept);
    }
  }

  /**
   What was recorded with SPARQL text or with too many quads is never undone: after any later requests,
   unless both purges and restarts are among them and may give its id to another, undoing it changes
   nothing and sends nothing.
   */
  lemma NeverUndone(retain: nat, s: Server, r: Request, later: seq<Request>, timestamp: string)
    requires WellNumbered(s) && Acceptable(s, r) && Speaks(r) && !MayBeUndone(r)
    requires AcceptableRun(retain, Handle(retain, s, r), later)
    requires NoPurge(later) || NoRestart(later)
    ensures var s' := Run(retain, Handle(retain, s, r), later);
            Handle(retain, s', UndoOf(s.counter, timestamp)) == s'
  {
    RecordedEntry(retain, s, r);
    StaysBarredThroughout(retain, Handle(retain, s, r), later, s.counter, NoPurge(later));
    BarredUndo(retain, Run(retain, Handle(retain, s, r), later), s.counter, NoPurge(later), timestamp);
  }

  lemma BarredUndo(retain: nat, s: Server, id: nat, newestKept: bool, timestamp: string)
    requires Barred(s, id, newestKept)
    ensures Handle(retain, s, UndoOf(id, timestamp)) == s
  {
  }

  // --- undo ----------------------------------------------------------------------------------------------------

  /** A transaction inserts a quad that is there already: undoing it removes the quad. */
  lemma UndoRemovesOldQuad(retain: nat, s: Server, q: Quad, t1: string, t2: string)
    requires WellNumbered(s) && q in s.user
    ensures var ops := [InsertQuads([q])];
            var s1 := Handle(retain, s, Commit(s.user, ops, t1));
            Effect(s.user, ops) == s.user && CanUndo(s1, s.counter)
            && Handle(retain, s1, UndoOf(s.counter, t2)).user == s.user - {q}
  {
    var ops := [InsertQuads([q])];
    assert ops[..0] == [] && Elements([q]) == {q} && Elements([]) == {};
    assert Inserts(ops[..0]) == [] && Removes(ops[..0]) == [];
    assert Inserts(ops) == [] + [q] == [q] && Removes(ops) == [] + [] == [];
    assert Effect(s.user, ops) == s.user;
    RecordKeepsNumbering(retain, s, ops, "transaction", t1);
  }

  /**
   Undoing a transaction right after its commit restores the user data exactly when nothing it
   inserted was there before and everything it only removed was.
   */
  lemma UndoAfterCommit(retain: nat, s: Server, ops: seq<BufferedOp>, t1: string, t2: string)
    requires WellNumbered(s) && QuadsOnly(ops) && IsUndoable(ops)
    ensures var s1 := Handle(retain, s, Commit(Effect(s.user, ops), ops, t1));
            && CanUndo(s1, s.counter)
            && (Handle(retain, s1, UndoOf(s.counter, t2)).user == s.user
                <==> && (forall q | q in Inserts(ops) :: q !in s.user)
                     && (forall q | q in Removes(ops) && q !in Inserts(ops) :: q in s.user))
  {
    var s1 := Handle(retain, s, Commit(Effect(s.user, ops), ops, t1));
    RecordKeepsNumbering(retain, s.(user := Effect(s.user, ops)), ops, "transaction", t1);
    var back := s1.user + Elements(Removes(ops)) - Elements(Inserts(ops));
    assert Handle(retain, s1, UndoOf(s.counter, t2)).user == back;
    forall q { LastWordDecides(s.user, ops, q); }
    if back != s.user {
      var q :| (q in back) != (q in s.user);
      assert q in Inserts(ops) || q in Removes(ops);
    }
  }
}
