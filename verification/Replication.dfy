/** From the server's requests to a subscriber's copy of the data, through events, channel and messages. */
module Replication {
  import opened Sequences
  import opened Dataset
  import opened ChangelogModel
  import opened ServerRuns
  import opened Serving
  import Cdc

  // --- which requests tell subscribers what happened ------------------------------------------------------

  /** An event of the transaction's inserts, then its removes, says what the replay did. */
  predicate CommitTold(update: Updater, before: Quads, ops: seq<BufferedOp>) {
    match Replay(update, before, ops)
    case None => true
    case Some(after) =>
      if QuadsOnly(ops) then RemovalsAreFinal(ops)
      else UserData(after) == UserData(before) + Elements(Inserts(ops)) - Elements(Removes(ops))
  }

  /**
   A request whose effect, if any, is told: an update is accepted and small enough to be diffed, or
   changes nothing; a commit re-inserts nothing it removed.
   */
  predicate Told(g: Setting, earlier: seq<ClientRequest>, request: ClientRequest, store: Quads) {
    match request
    case SparqlText(text, _) =>
      (match g.update(text, store)
       case None => true
       case Some(after) => (g.accepts(after) && |store| <= 1_000_000) || UserData(after) == UserData(store))
    case InTransaction(Commit(id, true, true), _) =>
      (match Buffered(g.timeout, earlier, id)
       case None => true
       case Some(ops) => CommitTold(g.update, store, ops))
    case _ => true
  }

  lemma ToldIsFollowable(g: Setting, earlier: seq<ClientRequest>, request: ClientRequest, store: Quads, s: Server,
                         r: Request)
    requires Matches(g, earlier, request, store, r) && UserData(store) == s.user
    ensures Followable(s, r) <==> Told(g, earlier, request, store)
  {
  }

  /** Request number `k` is told, on the store it finds. */
  predicate ToldAt(g: Setting, requests: seq<ClientRequest>, stores: seq<Quads>, k: int) {
    0 <= k < |requests| && k < |stores| && Told(g, requests[..k], requests[k], stores[k])
  }

  ghost predicate FollowableTo(retain: nat, s: Server, rs: seq<Request>, k: int) {
    0 <= k <= |rs| && AcceptableRun(retain, s, rs[..k]) && FollowableRun(retain, s, rs[..k])
  }

  lemma FollowableNext(g: Setting, s: Server, requests: seq<ClientRequest>, rs: seq<Request>, stores: seq<Quads>,
                       n: nat)
    requires Accounts(g, s, requests, rs, stores) && n < |rs|
    ensures FollowableTo(g.retain, s, rs, n + 1)
       <==> FollowableTo(g.retain, s, rs, n) && ToldAt(g, requests, stores, n)
  {
    assert StoreAfter(g.retain, s, rs[..n], stores[n]) && StoreAfter(g.retain, s, rs[..n + 1], stores[n + 1]);
    assert rs[..n + 1] == rs[..n] + [rs[n]];
    ToldIsFollowable(g, requests[..n], requests[n], stores[n], Run(g.retain, s, rs[..n]), rs[n]);
    AcceptableLast(g.retain, s, rs[..n], rs[n]);
    FollowableAppend(g.retain, s, rs[..n], rs[n]);
  }

  lemma {:induction false} AllSteps(reached: int -> bool, step: int -> bool, n: nat)
    requires reached(0) && forall k | 0 <= k < n :: reached(k + 1) <==> reached(k) && step(k)
    ensures reached(n) <==> forall k | 0 <= k < n :: step(k)
    decreases n
  {
    if n > 0 {
      AllSteps(reached, step, n - 1);
      assert reached(n - 1 + 1) <==> reached(n - 1) && step(n - 1);
    }
  }

  lemma {:induction false} AcceptableLast(retain: nat, s: Server, rs: seq<Request>, r: Request)
    requires AcceptableRun(retain, s, rs + [r]) && AcceptableRun(retain, s, rs)
    ensures Acceptable(Run(retain, s, rs), r)
    decreases |rs|
  {
    if rs != [] {
      assert (rs + [r])[1..] == rs[1..] + [r];
      AcceptableLast(retain, Handle(retain, s, rs[0]), rs[1..], r);
    }
  }

  lemma FollowableThroughout(g: Setting, s: Server, requests: seq<ClientRequest>, rs: seq<Request>,
                             stores: seq<Quads>)
    requires Accounts(g, s, requests, rs, stores)
    ensures FollowableTo(g.retain, s, rs, |rs|) <==> forall k | 0 <= k < |rs| :: ToldAt(g, requests, stores, k)
  {
    var followable, told := k => FollowableTo(g.retain, s, rs, k), k => ToldAt(g, requests, stores, k);
    forall k | 0 <= k < |rs| ensures followable(k + 1) <==> followable(k) && told(k) {
      FollowableNext(g, s, requests, rs, stores, k);
    }
    assert rs[..0] == [];
    AllSteps(followable, told, |rs|);
    assert forall k | 0 <= k < |rs| :: told(k) <==> ToldAt(g, requests, stores, k);
  }

  /**
   A copy of the server's data that follows the events of the server program agrees with the server
   after every request if and only if every request is told.
   */
  lemma ServedInStep(g: Setting, s: Server, requests: seq<ClientRequest>, rs: seq<Request>, stores: seq<Quads>)
    requires Accounts(g, s, requests, rs, stores)
    ensures InStep(g.retain, s.user, s, rs) <==> forall k | 0 <= k < |rs| :: ToldAt(g, requests, stores, k)
  {
    assert rs[..|rs|] == rs;
    FollowableThroughout(g, s, requests, rs, stores);
    InStepExactly(g.retain, s, rs);
  }

  /** The ids that the server program broadcasts rise strictly if and only if its requests remember them. */
  lemma ServedIdsRise(g: Setting, initial: Quads, log: Log, requests: seq<ClientRequest>, rs: seq<Request>,
                      stores: seq<Quads>, user: Quads, events: seq<ChangeEvent>)
    requires LeftBehind(initial, log) && Outcome(g, initial, log, requests, rs, stores, user, events)
    ensures IdsIncrease(events) <==> RemembersIds(g.retain, Start(initial, log), rs)
  {
    EventIdsRise(g.retain, Start(initial, log), rs);
  }

  // --- subscribers ----------------------------------------------------------------------------------------

  /** Between the first and the last number of events sent, every number is reached after some request. */
  lemma {:induction false} EventCountReached(retain: nat, s: Server, rs: seq<Request>, count: nat) returns (n: nat)
    requires AcceptableRun(retain, s, rs) && |s.events| <= count <= |Run(retain, s, rs).events|
    ensures n <= |rs| && AcceptableRun(retain, s, rs[..n]) && |Run(retain, s, rs[..n]).events| == count
    decreases |rs|
  {
    if |s.events| == count {
      n := 0;
    } else {
      var s' := Handle(retain, s, rs[0]);
      HandleEvents(retain, s, rs[0]);
      n := EventCountReached(retain, s', rs[1..], count);
      assert rs[..n + 1][1..] == rs[1..][..n];
      n := n + 1;
    }
  }

  lemma {:induction false} RunSplits(retain: nat, s: Server, rs: seq<Request>, n: nat)
    requires AcceptableRun(retain, s, rs) && n <= |rs|
    ensures AcceptableRun(retain, s, rs[..n]) && Run(retain, s, rs[..n]).events <= Run(retain, s, rs).events
    ensures FollowableRun(retain, s, rs) ==> FollowableRun(retain, s, rs[..n])
    decreases |rs|
  {
    if n == 0 {
      EventsGrow(retain, s, rs);
    } else {
      assert rs[..n][1..] == rs[1..][..n - 1];
      RunSplits(retain, Handle(retain, s, rs[0]), rs[1..], n - 1);
    }
  }

  /** The events a run sends. */
  ghost function SentBy(retain: nat, s: Server, rs: seq<Request>): (sent: seq<ChangeEvent>)
    requires AcceptableRun(retain, s, rs)
    ensures Run(retain, s, rs).events == s.events + sent
  {
    EventsGrow(retain, s, rs);
    Run(retain, s, rs).events[|s.events|..]
  }

  /**
   A subscriber that takes a copy of the user data when it subscribes, and applies every message it is
   sent, holds the server's user data after the request whose event was delivered last: for every
   followable run that remembers its ids, and as long as no event reaches it after a lag.
   */
  lemma SubscriberHoldsServerData(retain: nat, s: Server, rs: seq<Request>, inputs: seq<Cdc.Input>,
                                  messages: seq<Cdc.Message>)
      returns (n: nat)
    requires Consistent(s) && AcceptableRun(retain, s, rs)
    requires FollowableRun(retain, s, rs) && RemembersIds(retain, s, rs)
    requires Cdc.FromChannel(SentBy(retain, s, rs), inputs) && Cdc.NoEventAfterLag(inputs)
    requires Cdc.BatchesBounded(messages) && Cdc.Delivered(messages) <= Cdc.Events(inputs)
    ensures n <= |rs| && AcceptableRun(retain, s, rs[..n])
    ensures |Run(retain, s, rs[..n]).events| == |s.events| + |Cdc.Delivered(messages)|
    ensures Cdc.FollowMessages(s.user, messages) == Run(retain, s, rs[..n]).user
  {
    var sent, count := SentBy(retain, s, rs), |Cdc.Delivered(messages)|;
    SentIdsIncrease(retain, s, rs);
    Cdc.SubscriberInStep(sent, inputs, messages, s.user);
    n := ServerAfter(retain, s, rs, count);
  }

  lemma SentIdsIncrease(retain: nat, s: Server, rs: seq<Request>)
    requires Consistent(s) && AcceptableRun(retain, s, rs) && RemembersIds(retain, s, rs)
    ensures IdsIncrease(SentBy(retain, s, rs))
  {
    EventIdsRise(retain, s, rs);
    LaterIdsIncrease(s.events, SentBy(retain, s, rs));
  }

  lemma LaterIdsIncrease(before: seq<ChangeEvent>, sent: seq<ChangeEvent>)
    requires IdsIncrease(before + sent)
    ensures IdsIncrease(sent)
  {
    assert forall i | 0 <= i < |sent| :: sent[i] == (before + sent)[|before| + i];
  }

  /** The number of requests after which the server has sent `count` events: following those gives its data. */
  lemma ServerAfter(retain: nat, s: Server, rs: seq<Request>, count: nat) returns (n: nat)
    requires AcceptableRun(retain, s, rs) && FollowableRun(retain, s, rs) && count <= |SentBy(retain, s, rs)|
    ensures n <= |rs| && AcceptableRun(retain, s, rs[..n])
    ensures |Run(retain, s, rs[..n]).events| == |s.events| + count
    ensures Run(retain, s, rs[..n]).user == FollowAll(s.user, SentBy(retain, s, rs)[..count])
  {
    n := EventCountReached(retain, s, rs, |s.events| + count);
    RunSplits(retain, s, rs, n);
    ReplicaSafe(retain, s, rs[..n]);
    PrefixAfter(s.events, SentBy(retain, s, rs), Run(retain, s, rs[..n]).events, count);
  }
}
