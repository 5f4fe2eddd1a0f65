/**
 The server as a program: handlers, transactions, changelog and store together, on any sequence of
 requests. Every run of it is a run of the abstract server, so what holds of those holds of it.
 */
module Serving {
  import opened Wrappers
  import opened Dataset
  import opened ChangelogModel
  import opened Changelog
  import opened ServerRuns
  import opened UpdateHandlers

  /** Transactions live in memory: a restart ends them all, as it empties the registry. */
  datatype ClientRequest =
    | SparqlText(text: string, timestamp: string)
    | UndoEntry(id: nat, timestamp: string)
    | DeleteChangelog
    | InTransaction(call: T.Step, timestamp: string)
    | RestartServer

  /** What the server is given: SPARQL evaluation, validation, and its settings. */
  datatype Setting = Setting(update: Updater, accepts: Quads -> bool, evaluate: T.Evaluator, timeout: nat, retain: nat)

  /** The transaction calls since the last restart. */
  function Calls(requests: seq<ClientRequest>): seq<T.Step> {
    if requests == [] then []
    else
      var earlier := Calls(requests[..|requests| - 1]);
      match requests[|requests| - 1]
      case InTransaction(call, _) => earlier + [call]
      case RestartServer => []
      case _ => earlier
  }

  /** The operations buffered for a transaction after the requests. */
  function Buffered(timeout: nat, requests: seq<ClientRequest>, id: string): Option<seq<BufferedOp>> {
    match T.Buffer(timeout, Calls(requests), id)
    case Some(a) => Some(a.ops)
    case None => None
  }

  /** Clients write user quads only. */
  predicate UserCall(call: T.Step) {
    match call
    case Add(_, Some(quads), _) => forall q | q in quads :: IsUser(q)
    case Remove(_, Some(quads), _) => forall q | q in quads :: IsUser(q)
    case _ => true
  }

  predicate UserRequests(requests: seq<ClientRequest>) {
    forall i | 0 <= i < |requests| && requests[i].InTransaction? :: UserCall(requests[i].call)
  }

  /** What a client's request, after earlier ones and on the given store, does to the abstract server. */
  ghost predicate Matches(g: Setting, earlier: seq<ClientRequest>, request: ClientRequest, store: Quads, r: Request) {
    match request
    case SparqlText(text, timestamp) => UpdateRequest(text, g.update, g.accepts, true, store, timestamp, r)
    case UndoEntry(id, timestamp) => r == UndoOf(id, timestamp)
    case DeleteChangelog => r == PurgeAll
    case RestartServer => r == Restart
    case InTransaction(call, timestamp) =>
      if call.Commit?
      then
        var ops, succeeds := Buffered(g.timeout, earlier, call.id), call.openOk && call.commitOk;
        CommitRequest(ops, succeeds, g.update, true, store, timestamp, r)
      else r == Unrecorded(UserData(store))
  }

  /** The server just started on a store that holds the changelog `log`, as `init_counter` leaves it. */
  ghost function Start(initial: Quads, log: Log): Server { Server(UserData(initial), log, NextId(log.Keys), []) }

  /** A store that an earlier server left: its changelog quads are the entries of `log`. */
  ghost predicate LeftBehind(initial: Quads, log: Log) {
    Stores(initial, log) && forall id | id in log :: id >= 1 && UserDelta(log[id])
  }

  /** The store holds the user data and the changelog of the abstract server after the requests `rs`. */
  ghost predicate StoreAfter(retain: nat, s: Server, rs: seq<Request>, store: Quads) {
    && AcceptableRun(retain, s, rs)
    && UserData(store) == Run(retain, s, rs).user && Stores(store, Run(retain, s, rs).log)
  }

  /** From `s` on, the abstract requests `rs` account for the client's, one by one, on the stores in between. */
  ghost predicate Accounts(g: Setting, s: Server, requests: seq<ClientRequest>, rs: seq<Request>, stores: seq<Quads>) {
    && |rs| == |requests| && |stores| == |rs| + 1
    && StoreAfter(g.retain, s, rs, stores[|rs|])
    && (forall k | 0 <= k < |rs| :: Matches(g, requests[..k], requests[k], stores[k], rs[k]))
    && (forall k | 0 <= k <= |rs| :: StoreAfter(g.retain, s, rs[..k], stores[k]))
  }

  lemma OneMoreAccounted(g: Setting, s: Server, requests: seq<ClientRequest>, rs: seq<Request>, stores: seq<Quads>,
                         request: ClientRequest, r: Request, store: Quads)
    requires Accounts(g, s, requests, rs, stores) && Matches(g, requests, request, stores[|rs|], r)
    requires Acceptable(Run(g.retain, s, rs), r)
    requires var s' := Handle(g.retain, Run(g.retain, s, rs), r);
             UserData(store) == s'.user && Stores(store, s'.log)
    ensures Accounts(g, s, requests + [request], rs + [r], stores + [store])
    ensures Run(g.retain, s, rs + [r]) == Handle(g.retain, Run(g.retain, s, rs), r)
  {
    RunAppend(g.retain, s, rs, r);
    var requests', rs', stores' := requests + [request], rs + [r], stores + [store];
    forall k | 0 <= k < |rs'| ensures Matches(g, requests'[..k], requests'[k], stores'[k], rs'[k]) {
      assert requests'[..k] == requests[..k];
      if k == |rs| { assert requests[..k] == requests; }
    }
    forall k | 0 <= k <= |rs'| ensures StoreAfter(g.retain, s, rs'[..k], stores'[k]) {
      if k <= |rs| { assert rs'[..k] == rs[..k]; } else { assert rs'[..k] == rs'; }
    }
  }

  // --- transaction buffers --------------------------------------------------------------------------------

  /** The registry holds exactly the buffers that the calls account for, and they write user quads only. */
  ghost predicate Holds(registry: T.TransactionRegistry, calls: seq<T.Step>)
    reads registry
  {
    && (forall id :: T.Get(registry.txns, id) == T.Buffer(registry.timeout, calls, id))
    && (forall id | id in registry.txns :: UserOps(registry.txns[id].ops))
  }

  lemma OneMoreCall(update: Updater, timeout: nat, st: T.State, calls: seq<T.Step>, call: T.Step)
    requires forall id :: T.Get(st.txns, id) == T.Buffer(timeout, calls, id)
    ensures forall id :: T.Get(T.Next(update, timeout, st, call).txns, id) == T.Buffer(timeout, calls + [call], id)
  {
    var more := calls + [call];
    assert more[..|more| - 1] == calls;
    forall id ensures T.Get(T.Next(update, timeout, st, call).txns, id) == T.Buffer(timeout, more, id) {
      assert T.Get(st.txns, id) == T.Buffer(timeout, calls, id);
    }
  }

  lemma UserBuffers(update: Updater, timeout: nat, st: T.State, call: T.Step)
    requires UserCall(call) && forall id | id in st.txns :: UserOps(st.txns[id].ops)
    ensures forall id | id in T.Next(update, timeout, st, call).txns ::
              UserOps(T.Next(update, timeout, st, call).txns[id].ops)
  {
    var txns := T.Next(update, timeout, st, call).txns;
    forall id | id in txns ensures UserOps(txns[id].ops) {
      if id in st.txns && txns[id].ops != st.txns[id].ops && txns[id].ops != [] {
        assert txns[id].ops[..|txns[id].ops| - 1] == st.txns[id].ops;
      }
    }
  }

  // --- the program ----------------------------------------------------------------------------------------

  /**
   Any sequence of updates, undos, purges, transaction calls and restarts, on a store that holds user
   quads and what an earlier server left of its changelog: the user data and the events broadcast are
   those of the abstract requests that account for them.
   */
  method Serve(g: Setting, initial: Quads, ghost log: Log, requests: seq<ClientRequest>)
    returns (user: Quads, events: seq<ChangeEvent>)
    requires LeavesChangelogAlone(g.update) && LeftBehind(initial, log) && UserRequests(requests)
    ensures exists rs, stores :: Outcome(g, initial, log, requests, rs, stores, user, events)
  {
    var store, changelog, registry := Boot(g, initial, log);
    ghost var rs: seq<Request>, stores := [], [initial];
    for i := 0 to |requests|
      invariant fresh(store) && fresh(changelog) && fresh(registry)
      invariant Reached(g, initial, log, requests[..i], rs, stores, store, changelog, registry)
    {
      registry, rs, stores := ServeNext(g, initial, log, requests, i, rs, stores, store, changelog, registry);
    }
    assert requests[..|requests|] == requests;
    user, events := UserData(store.quads), changelog.sent;
    assert Outcome(g, initial, log, requests, rs, stores, user, events);
  }

  /** Opening the store: new parts, and `init_counter`. */
  method Boot(g: Setting, initial: Quads, ghost log: Log)
    returns (store: Store, changelog: ChangelogService, registry: T.TransactionRegistry)
    requires LeftBehind(initial, log)
    ensures fresh(store) && fresh(changelog) && fresh(registry)
    ensures Reached(g, initial, log, [], [], [initial], store, changelog, registry)
  {
    store := new Store(initial);
    changelog := new ChangelogService(true, g.retain, log);
    changelog.InitCounter(store);
    registry := new T.TransactionRegistry(g.timeout);
    NothingServed(g, initial, log);
  }

  method ServeNext(g: Setting, ghost initial: Quads, ghost log: Log, requests: seq<ClientRequest>, i: nat,
                   ghost rs: seq<Request>, ghost stores: seq<Quads>, store: Store, changelog: ChangelogService,
                   registry: T.TransactionRegistry)
    returns (registry': T.TransactionRegistry, ghost rs': seq<Request>, ghost stores': seq<Quads>)
    requires i < |requests| && LeavesChangelogAlone(g.update) && UserRequests(requests)
    requires Reached(g, initial, log, requests[..i], rs, stores, store, changelog, registry)
    modifies store, changelog, registry
    ensures registry' == registry || fresh(registry')
    ensures Reached(g, initial, log, requests[..i + 1], rs', stores', store, changelog, registry')
  {
    assert requests[..i + 1] == requests[..i] + [requests[i]];
    ghost var r;
    registry', r := ServeOne(g, store, changelog, registry, requests[..i], requests[i]);
    OneMoreAccounted(g, Start(initial, log), requests[..i], rs, stores, requests[i], r, store.quads);
    rs', stores' := rs + [r], stores + [store.quads];
  }

  /** The run ends with the user data and the events of the abstract requests that account for it. */
  ghost predicate Outcome(g: Setting, initial: Quads, log: Log, requests: seq<ClientRequest>, rs: seq<Request>,
                          stores: seq<Quads>, user: Quads, events: seq<ChangeEvent>)
  {
    && Accounts(g, Start(initial, log), requests, rs, stores) && stores[0] == initial
    && user == Run(g.retain, Start(initial, log), rs).user && events == Run(g.retain, Start(initial, log), rs).events
  }

  /** Having served the requests, the parts of the server fit together and are where `rs` leads. */
  ghost predicate Reached(g: Setting, initial: Quads, log: Log, requests: seq<ClientRequest>, rs: seq<Request>,
                          stores: seq<Quads>, store: Store, changelog: ChangelogService,
                          registry: T.TransactionRegistry)
    reads store, changelog, registry
  {
    && Serves(g, store, changelog, registry, Calls(requests))
    && Accounts(g, Start(initial, log), requests, rs, stores) && stores[0] == initial && stores[|rs|] == store.quads
    && changelog.At(store) == Run(g.retain, Start(initial, log), rs)
  }

  lemma NothingServed(g: Setting, initial: Quads, log: Log)
    requires LeftBehind(initial, log)
    ensures Accounts(g, Start(initial, log), [], [], [initial])
  {
    assert StoreAfter(g.retain, Start(initial, log), [], initial);
  }

  /** The parts of the server fit together. */
  ghost predicate Serves(g: Setting, store: Store, changelog: ChangelogService, registry: T.TransactionRegistry,
                         calls: seq<T.Step>)
    reads store, changelog, registry
  {
    && changelog.Valid(store) && changelog.enabled && changelog.retain == g.retain
    && registry.timeout == g.timeout && Holds(registry, calls)
  }

  method ServeOne(g: Setting, store: Store, changelog: ChangelogService, registry: T.TransactionRegistry,
                  ghost earlier: seq<ClientRequest>, request: ClientRequest)
    returns (registry': T.TransactionRegistry, ghost r: Request)
    requires LeavesChangelogAlone(g.update) && Serves(g, store, changelog, registry, Calls(earlier))
    requires request.InTransaction? ==> UserCall(request.call)
    modifies store, changelog, registry
    ensures registry' == registry || fresh(registry')
    ensures Serves(g, store, changelog, registry', Calls(earlier + [request]))
    ensures Matches(g, earlier, request, old(store.quads), r) && Acceptable(old(changelog.At(store)), r)
    ensures changelog.At(store) == Handle(g.retain, old(changelog.At(store)), r)
  {
    assert (earlier + [request])[..|earlier|] == earlier;
    registry' := registry;
    match request {
      case SparqlText(text, timestamp) =>
        var ok;
        ok, r := HandleUpdate(store, changelog, text, g.update, g.accepts, timestamp);
      case UndoEntry(id, timestamp) =>
        var _ := changelog.Undo(store, id, timestamp);
        r := UndoOf(id, timestamp);
      case DeleteChangelog =>
        var _ := changelog.Purge(store);
        r := PurgeAll;
      case RestartServer =>
        registry' := new T.TransactionRegistry(g.timeout);
        changelog.InitCounter(store);
        r := Restart;
      case InTransaction(call, timestamp) =>
        r := ServeCall(g, store, changelog, registry, Calls(earlier), call, timestamp);
    }
  }

  method ServeCall(g: Setting, store: Store, changelog: ChangelogService, registry: T.TransactionRegistry,
                   ghost calls: seq<T.Step>, call: T.Step, timestamp: string)
    returns (ghost r: Request)
    requires LeavesChangelogAlone(g.update) && Serves(g, store, changelog, registry, calls) && UserCall(call)
    modifies store, changelog, registry
    ensures Serves(g, store, changelog, registry, calls + [call])
    ensures if call.Commit?
            then CommitRequest(old(BufferOf(registry, call.id)), call.openOk && call.commitOk, g.update, true,
                               old(store.quads), timestamp, r)
            else r == Unrecorded(UserData(old(store.quads)))
    ensures Acceptable(old(changelog.At(store)), r)
    ensures changelog.At(store) == Handle(g.retain, old(changelog.At(store)), r)
  {
    ghost var st := registry.At(store);
    OneMoreCall(g.update, g.timeout, st, calls, call);
    UserBuffers(g.update, g.timeout, st, call);
    if call.Commit? {
      var ok;
      ok, r := HandleCommit(registry, store, changelog, call.id, call.openOk, call.commitOk, g.update, timestamp);
    } else {
      T.Call(registry, store, g.update, g.evaluate, call);
      r := Unrecorded(UserData(store.quads));
    }
  }
}
