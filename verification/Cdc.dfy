/**
 Change-data-capture over a WebSocket: events from the broadcast channel are batched and sent. What
 the channel, the clock and the socket do is an input.
 */
module Cdc {
  import opened Sequences
  import opened Dataset
  import opened ChangelogModel
  import opened ServerRuns

  const MAX_BATCH := 100

  /** What a wait on the channel ends with. `Timeout` is the keepalive tick or the end of a batch window. */
  datatype Input = Received(event: ChangeEvent) | Lagged(missed: nat) | Closed | Timeout

  datatype Message = Batch(events: seq<ChangeEvent>) | LagNotice(missed: nat) | Ping

  // --- the channel -------------------------------------------------------------------------------------------

  /** How far the inputs move a receiver along the events sent since it subscribed. */
  function Position(inputs: seq<Input>): nat {
    if inputs == [] then 0
    else
      var last := inputs[|inputs| - 1];
      Position(inputs[..|inputs| - 1]) + if last.Received? then 1 else if last.Lagged? then last.missed else 0
  }

  /** A receiver gets the sent events in order; a lag skips some. */
  predicate FromChannel(sent: seq<ChangeEvent>, inputs: seq<Input>) {
    inputs == [] ||
    (var before, last := inputs[..|inputs| - 1], inputs[|inputs| - 1];
     && FromChannel(sent, before)
     && Position(inputs) <= |sent|
     && (last.Received? ==> Position(before) < |sent| && last.event == sent[Position(before)])
     && (last.Lagged? ==> last.missed > 0))
  }

  function Events(inputs: seq<Input>): seq<ChangeEvent> {
    if inputs == [] then []
    else
      var last := inputs[|inputs| - 1];
      Events(inputs[..|inputs| - 1]) + if last.Received? then [last.event] else []
  }

  function Delivered(messages: seq<Message>): seq<ChangeEvent> {
    if messages == [] then []
    else
      var last := messages[|messages| - 1];
      Delivered(messages[..|messages| - 1]) + if last.Batch? then last.events else []
  }

  /** The size of the batch being collected after the inputs, 0 if none is. */
  function Open(inputs: seq<Input>): (n: nat)
    ensures n < MAX_BATCH
  {
    if inputs == [] || !inputs[|inputs| - 1].Received? then 0
    else
      var n := Open(inputs[..|inputs| - 1]) + 1;
      if n == MAX_BATCH then 0 else n
  }

  /** The events missed in lags that find no batch open: those a subscriber is told about. */
  function Announced(inputs: seq<Input>): nat {
    if inputs == [] then 0
    else
      var before, last := inputs[..|inputs| - 1], inputs[|inputs| - 1];
      Announced(before) + if last.Lagged? && Open(before) == 0 then last.missed else 0
  }

  /** The keepalive ticks that find no batch open. */
  function Idle(inputs: seq<Input>): nat {
    if inputs == [] then 0
    else
      var before, last := inputs[..|inputs| - 1], inputs[|inputs| - 1];
      Idle(before) + if last.Timeout? && Open(before) == 0 then 1 else 0
  }

  function Pings(messages: seq<Message>): nat {
    if messages == [] then 0
    else Pings(messages[..|messages| - 1]) + if messages[|messages| - 1].Ping? then 1 else 0
  }

  function Reported(messages: seq<Message>): nat {
    if messages == [] then 0
    else
      var last := messages[|messages| - 1];
      Reported(messages[..|messages| - 1]) + if last.LagNotice? then last.missed else 0
  }

  lemma OneMoreInput(inputs: seq<Input>, i: nat)
    requires i < |inputs|
    ensures Open(inputs[..i + 1])
         == if !inputs[i].Received? || Open(inputs[..i]) + 1 == MAX_BATCH then 0 else Open(inputs[..i]) + 1
    ensures Announced(inputs[..i + 1])
         == Announced(inputs[..i]) + if inputs[i].Lagged? && Open(inputs[..i]) == 0 then inputs[i].missed else 0
    ensures Idle(inputs[..i + 1]) == Idle(inputs[..i]) + if inputs[i].Timeout? && Open(inputs[..i]) == 0 then 1 else 0
    ensures Events(inputs[..i + 1]) == Events(inputs[..i]) + if inputs[i].Received? then [inputs[i].event] else []
  {
    assert inputs[..i + 1][..i] == inputs[..i];
  }

  lemma OneMoreMessage(messages: seq<Message>, m: Message)
    ensures Delivered(messages + [m]) == Delivered(messages) + if m.Batch? then m.events else []
    ensures Reported(messages + [m]) == Reported(messages) + if m.LagNotice? then m.missed else 0
    ensures Pings(messages + [m]) == Pings(messages) + if m.Ping? then 1 else 0
  {
    assert (messages + [m])[..|messages|] == messages;
  }

  predicate BatchesBounded(messages: seq<Message>) {
    forall i | 0 <= i < |messages| && messages[i].Batch? :: 1 <= |messages[i].events| <= 100
  }

  // --- the connection ------------------------------------------------------------------------------------------

  /** The batch window: collects events until it is full, the window ends or the channel errs. */
  method CollectBatch(inputs: seq<Input>, from: nat, first: ChangeEvent)
    returns (batch: seq<ChangeEvent>, next: nat, ended: bool)
    requires 0 < from <= |inputs| && inputs[from - 1] == Received(first) && Open(inputs[..from - 1]) == 0
    ensures from <= next <= |inputs|
    ensures Open(inputs[..next]) == (if ended then 0 else |batch|)
    ensures Announced(inputs[..next]) == Announced(inputs[..from - 1])
    ensures Idle(inputs[..next]) == Idle(inputs[..from - 1])
    ensures Events(inputs[..next]) == Events(inputs[..from - 1]) + batch && 1 <= |batch| <= MAX_BATCH
    ensures !ended ==> next == |inputs|
  {
    batch, next, ended := [first], from, false;
    OneMoreInput(inputs, from - 1);
    while |batch| < MAX_BATCH && next < |inputs|
      invariant from <= next <= |inputs| && 1 <= |batch| <= MAX_BATCH
      invariant Open(inputs[..next]) == (if |batch| == MAX_BATCH then 0 else |batch|)
      invariant Announced(inputs[..next]) == Announced(inputs[..from - 1])
      invariant Idle(inputs[..next]) == Idle(inputs[..from - 1])
      invariant Events(inputs[..next]) == Events(inputs[..from - 1]) + batch
    {
      var input := inputs[next];
      OneMoreInput(inputs, next);
      next := next + 1;
      if !input.Received? {
        assert Events(inputs[..next - 1]) + [] == Events(inputs[..next - 1]);
        return batch, next, true;
      }
      Associate(Events(inputs[..from - 1]), batch, [input.event]);
      batch := batch + [input.event];
    }
    ended := |batch| == MAX_BATCH;
  }

  /**
   `handle_websocket`, run on the inputs until they or the connection end. `sendOk` is the outcome of
   each send. Events consumed are delivered in order and whole, except for at most one batch: the one
   still being collected, or the one whose send failed. Of the lags, exactly those that find no batch
   open are reported, and exactly the ticks that find none open are answered with a ping.
   */
  method HandleWebsocket(inputs: seq<Input>, sendOk: nat -> bool)
    returns (messages: seq<Message>, consumed: nat, undelivered: seq<ChangeEvent>)
    ensures consumed <= |inputs|
    ensures Events(inputs[..consumed]) == Delivered(messages) + undelivered && |undelivered| <= MAX_BATCH
    ensures BatchesBounded(messages)
    ensures (forall k :: sendOk(k)) ==>
              && |undelivered| == Open(inputs[..consumed])
              && Reported(messages) == Announced(inputs[..consumed]) && Pings(messages) == Idle(inputs[..consumed])
    ensures consumed < |inputs| && (forall k :: sendOk(k)) ==> consumed > 0 && inputs[consumed - 1].Closed?
  {
    messages, consumed, undelivered := [], 0, [];
    var sends := 0;
    while consumed < |inputs|
      invariant 0 <= consumed <= |inputs| && undelivered == [] && BatchesBounded(messages)
      invariant Events(inputs[..consumed]) == Delivered(messages)
      invariant Open(inputs[..consumed]) == 0 && Reported(messages) == Announced(inputs[..consumed])
      invariant Pings(messages) == Idle(inputs[..consumed])
    {
      var input := inputs[consumed];
      OneMoreInput(inputs, consumed);
      consumed := consumed + 1;
      var message := Ping;
      match input {
        case Closed =>
          break;
        case Lagged(missed) =>
          message := LagNotice(missed);
        case Timeout =>
        case Received(first) =>
          var batch, next, ended := CollectBatch(inputs, consumed, first);
          consumed, message := next, Batch(batch);
          if !ended {
            undelivered := batch;
            break;
          }
      }
      var ok := sendOk(sends);
      sends := sends + 1;
      if !ok {
        undelivered := if message.Batch? then message.events else [];
        break;
      }
      OneMoreMessage(messages, message);
      messages := messages + [message];
    }
  }

  // --- what a subscriber gets, against what was sent ---------------------------------------------------------------

  /** Where in the sent events each received event was. */
  function Indices(inputs: seq<Input>): seq<nat> {
    if inputs == [] then []
    else
      var before := inputs[..|inputs| - 1];
      Indices(before) + if inputs[|inputs| - 1].Received? then [Position(before)] else []
  }

  /** The received events are an order-preserving, duplicate-free subsequence of the sent ones. */
  lemma {:induction false} ReceivedInOrder(sent: seq<ChangeEvent>, inputs: seq<Input>)
    requires FromChannel(sent, inputs)
    ensures |Indices(inputs)| == |Events(inputs)| <= Position(inputs)
    ensures forall i | 0 <= i < |Indices(inputs)| ::
              i <= Indices(inputs)[i] < Position(inputs) && Indices(inputs)[i] < |sent|
    ensures forall i | 0 <= i < |Indices(inputs)| :: Events(inputs)[i] == sent[Indices(inputs)[i]]
    ensures forall i, j | 0 <= i < j < |Indices(inputs)| :: Indices(inputs)[i] < Indices(inputs)[j]
    decreases |inputs|
  {
    if inputs != [] {
      ReceivedInOrder(sent, inputs[..|inputs| - 1]);
    }
  }

  predicate NoLag(inputs: seq<Input>) { forall i | 0 <= i < |inputs| :: !inputs[i].Lagged? }

  lemma {:induction false} PositionCounts(sent: seq<ChangeEvent>, inputs: seq<Input>)
    requires FromChannel(sent, inputs)
    ensures Position(inputs) >= |Events(inputs)|
    ensures Position(inputs) == |Events(inputs)| <==> NoLag(inputs)
    decreases |inputs|
  {
    if inputs != [] {
      var before := inputs[..|inputs| - 1];
      PositionCounts(sent, before);
      assert NoLag(inputs) <==> NoLag(before) && !inputs[|inputs| - 1].Lagged? by {
        assert forall i | 0 <= i < |before| :: before[i] == inputs[i];
      }
    }
  }

  /** No event arrives after a lag. */
  predicate NoEventAfterLag(inputs: seq<Input>) {
    forall i | 0 <= i < |inputs| && inputs[i].Received? :: NoLag(inputs[..i])
  }

  lemma LastEventAfterLag(inputs: seq<Input>)
    requires inputs != []
    ensures var before, last := inputs[..|inputs| - 1], inputs[|inputs| - 1];
            NoEventAfterLag(inputs) <==> NoEventAfterLag(before) && (last.Received? ==> NoLag(before))
  {
    var n := |inputs| - 1;
    var before := inputs[..n];
    assert forall i | 0 <= i < n :: before[..i] == inputs[..i] && before[i] == inputs[i];
  }

  /** Nothing before the last received event is missing exactly when no event arrives after a lag. */
  lemma {:induction false} CompleteUnlessLagged(sent: seq<ChangeEvent>, inputs: seq<Input>)
    requires FromChannel(sent, inputs) && IdsIncrease(sent)
    ensures Events(inputs) <= sent <==> NoEventAfterLag(inputs)
    decreases |inputs|
  {
    if inputs != [] {
      var n := |inputs| - 1;
      var before, last := inputs[..n], inputs[n];
      CompleteUnlessLagged(sent, before);
      PositionCounts(sent, before);
      ReceivedInOrder(sent, before);
      LastEventAfterLag(inputs);
      if last.Received? {
        var k, p := |Events(before)|, Position(before);
        assert Events(inputs)[k] == sent[p];
        if k != p { assert sent[k].id < sent[p].id; }
        assert Events(inputs)[..k] == Events(before);
      }
    }
  }

  lemma GapInputs(a: ChangeEvent, b: ChangeEvent, c: ChangeEvent)
    requires a.id < b.id < c.id
    ensures var sent, inputs := [a, b, c], [Received(a), Lagged(1), Received(c), Timeout];
            FromChannel(sent, inputs) && Events(inputs) == [a, c] && Open(inputs) == Announced(inputs) == 0
  {
    var sent, inputs := [a, b, c], [Received(a), Lagged(1), Received(c), Timeout];
    var i1, i2, i3 := inputs[..1], inputs[..2], inputs[..3];
    assert inputs[..0] == [] && i1[..0] == [] && i2[..1] == i1 && i3[..2] == i2 && inputs[..4] == inputs;
    OneMoreInput(inputs, 0);
    OneMoreInput(inputs, 1);
    OneMoreInput(inputs, 2);
    OneMoreInput(inputs, 3);
    assert Position(i1) == 1 && FromChannel(sent, i1);
    assert Position(i2) == 2 && FromChannel(sent, i2);
    assert Position(i3) == 3 && FromChannel(sent, i3);
    assert Position(inputs) == 3;
  }

  /**
   A lag inside a batch window is silent: of three events the subscriber is sent the first and the
   last, and no message tells it of the gap, although every send succeeds.
   */
  method LagInWindowIsSilent(a: ChangeEvent, b: ChangeEvent, c: ChangeEvent) returns (messages: seq<Message>)
    requires a.id < b.id < c.id
    ensures FromChannel([a, b, c], [Received(a), Lagged(1), Received(c), Timeout])
    ensures Delivered(messages) == [a, c] && !(Delivered(messages) <= [a, b, c])
    ensures Reported(messages) == 0
  {
    var inputs := [Received(a), Lagged(1), Received(c), Timeout];
    GapInputs(a, b, c);
    var consumed, undelivered;
    messages, consumed, undelivered := HandleWebsocket(inputs, _ => true);
    assert inputs[..|inputs|] == inputs;
    assert undelivered == [] && Delivered(messages) + [] == Delivered(messages);
    assert [a, c][1] != [a, b, c][1];
  }

  // --- messages ---------------------------------------------------------------------------------------------------

  /** The content of a notification for one event. */
  datatype Part = Part(operation: string, inserted: seq<Quad>, removed: seq<Quad>)

  datatype Activity = Create | Delete | UpdateActivity

  datatype Notification = Notification(id: nat, activity: Activity, state: nat, parts: seq<Part>)

  /** `activity_type`. */
  function ActivityType(e: ChangeEvent): Activity {
    if e.removed == [] && e.inserted != [] then Create
    else if e.inserted == [] && e.removed != [] then Delete
    else UpdateActivity
  }

  function PartOf(e: ChangeEvent): Part { Part(e.operation, e.inserted, e.removed) }

  /** `format_batch_notification`: the state is the id of the last event. */
  function FormatBatch(events: seq<ChangeEvent>): Notification
    requires events != []
  {
    if |events| == 1 then Notification(events[0].id, ActivityType(events[0]), events[0].id, [PartOf(events[0])])
    else
      var last := events[|events| - 1];
      Notification(last.id, UpdateActivity, last.id, seq(|events|, i requires 0 <= i < |events| => PartOf(events[i])))
  }

  /**
   The activity tells the truth: `Create` only for a single event that only inserts, `Delete` only for
   one that only removes, so following them can only grow or only shrink the data.
   */
  lemma {:induction false} ActivityTruthful(data: Quads, events: seq<ChangeEvent>)
    requires events != []
    ensures var n := FormatBatch(events);
            && n.id == n.state == events[|events| - 1].id
            && (n.activity == Create <==> |events| == 1 && events[0].removed == [] && events[0].inserted != [])
            && (n.activity == Delete <==> |events| == 1 && events[0].inserted == [] && events[0].removed != [])
            && (n.activity == Create ==> data <= FollowAll(data, events))
            && (n.activity == Delete ==> FollowAll(data, events) <= data)
  {
    if |events| == 1 {
      assert events[..0] == [];
      assert FollowAll(data, events) == Follow(FollowAll(data, []), events[0]);
    }
  }

  function FollowParts(data: Quads, parts: seq<Part>): Quads {
    if parts == [] then data
    else
      var last := parts[|parts| - 1];
      FollowParts(data, parts[..|parts| - 1]) + Elements(last.inserted) - Elements(last.removed)
  }

  /** A notification carries its events' deltas: following it is following the events. */
  lemma {:induction false} NotificationCarriesEvents(data: Quads, events: seq<ChangeEvent>)
    requires events != []
    ensures FollowParts(data, FormatBatch(events).parts) == FollowAll(data, events)
    ensures var parts := FormatBatch(events).parts;
            |parts| == |events| && forall i | 0 <= i < |events| ::
              && parts[i].operation == events[i].operation
              && parts[i].inserted == events[i].inserted && parts[i].removed == events[i].removed
    decreases |events|
  {
    var parts := FormatBatch(events).parts;
    assert |parts| == |events| && forall i | 0 <= i < |events| :: parts[i] == PartOf(events[i]);
    PartsFollow(data, events, parts);
  }

  lemma {:induction false} PartsFollow(data: Quads, events: seq<ChangeEvent>, parts: seq<Part>)
    requires |parts| == |events| && forall i | 0 <= i < |events| :: parts[i] == PartOf(events[i])
    ensures FollowParts(data, parts) == FollowAll(data, events)
    decreases |events|
  {
    if events != [] {
      PartsFollow(data, events[..|events| - 1], parts[..|parts| - 1]);
    }
  }

  function FollowMessages(data: Quads, messages: seq<Message>): Quads
    requires BatchesBounded(messages)
  {
    if messages == [] then data
    else
      var before, last := FollowMessages(data, messages[..|messages| - 1]), messages[|messages| - 1];
      if last.Batch? then FollowParts(before, FormatBatch(last.events).parts) else before
  }

  lemma {:induction false} MessagesCarryEvents(data: Quads, messages: seq<Message>)
    requires BatchesBounded(messages)
    ensures FollowMessages(data, messages) == FollowAll(data, Delivered(messages))
    decreases |messages|
  {
    if messages != [] {
      var before, last := messages[..|messages| - 1], messages[|messages| - 1];
      MessagesCarryEvents(data, before);
      if last.Batch? {
        NotificationCarriesEvents(FollowMessages(data, before), last.events);
        FollowConcat(data, Delivered(before), last.events);
      } else {
        assert Delivered(before) + [] == Delivered(before);
      }
    }
  }

  lemma {:induction false} DeliveredHolds(messages: seq<Message>, i: nat)
    requires i < |messages| && messages[i].Batch? && BatchesBounded(messages)
    ensures |Delivered(messages[..i + 1])| <= |Delivered(messages)|
    ensures var end := |Delivered(messages[..i + 1])|;
            end > |Delivered(messages[..i])|
            && Delivered(messages)[end - 1] == messages[i].events[|messages[i].events| - 1]
    decreases |messages|
  {
    var n := |messages| - 1;
    assert messages[..i + 1][..i] == messages[..i];
    if i < n {
      DeliveredHolds(messages[..n], i);
      assert messages[..n][..i + 1] == messages[..i + 1] && messages[..n][..i] == messages[..i];
    } else {
      assert messages[..i + 1] == messages;
    }
  }

  lemma {:induction false} DeliveredGrows(messages: seq<Message>, i: nat, j: nat)
    requires i <= j <= |messages|
    ensures |Delivered(messages[..i])| <= |Delivered(messages[..j])|
    decreases j
  {
    if i < j {
      DeliveredGrows(messages, i, j - 1);
      assert messages[..j][..j - 1] == messages[..j - 1];
    }
  }

  /** The `state` values of the batches sent rise strictly. */
  lemma {:induction false} StatesIncrease(messages: seq<Message>, i: nat, j: nat)
    requires BatchesBounded(messages) && IdsIncrease(Delivered(messages))
    requires i < j < |messages| && messages[i].Batch? && messages[j].Batch?
    ensures FormatBatch(messages[i].events).state < FormatBatch(messages[j].events).state
  {
    DeliveredHolds(messages, i);
    DeliveredHolds(messages, j);
    DeliveredGrows(messages, i + 1, j);
  }

  /**
   With no event after a lag, the events delivered are the first ones sent, and a subscriber that applies
   the messages holds what following those events leads to.
   */
  lemma SubscriberInStep(sent: seq<ChangeEvent>, inputs: seq<Input>, messages: seq<Message>, data: Quads)
    requires FromChannel(sent, inputs) && IdsIncrease(sent) && NoEventAfterLag(inputs)
    requires BatchesBounded(messages) && Delivered(messages) <= Events(inputs)
    ensures Delivered(messages) <= sent
    ensures FollowMessages(data, messages) == FollowAll(data, sent[..|Delivered(messages)|])
  {
    CompleteUnlessLagged(sent, inputs);
    MessagesCarryEvents(data, messages);
    assert Delivered(messages) == sent[..|Delivered(messages)|];
  }

  lemma {:induction false} ChannelPrefix(sent: seq<ChangeEvent>, inputs: seq<Input>, n: nat)
    requires FromChannel(sent, inputs) && n <= |inputs|
    ensures FromChannel(sent, inputs[..n])
    decreases |inputs|
  {
    if n < |inputs| {
      var before := inputs[..|inputs| - 1];
      ChannelPrefix(sent, before, n);
      assert before[..n] == inputs[..n];
    } else {
      assert inputs[..n] == inputs;
    }
  }

  /** `at` gives the place in `sent` of each of the events, and the places rise. */
  ghost predicate Places(sent: seq<ChangeEvent>, events: seq<ChangeEvent>, at: seq<nat>) {
    && |at| == |events|
    && (forall k | 0 <= k < |at| :: at[k] < |sent| && events[k] == sent[at[k]])
    && (forall k, l | 0 <= k < l < |at| :: at[k] < at[l])
  }

  lemma DeliveredPlaces(sent: seq<ChangeEvent>, inputs: seq<Input>, delivered: seq<ChangeEvent>)
    requires FromChannel(sent, inputs) && IdsIncrease(sent) && delivered <= Events(inputs)
    ensures |delivered| <= |Indices(inputs)| && Places(sent, delivered, Indices(inputs)[..|delivered|])
    ensures IdsIncrease(delivered)
  {
    ReceivedInOrder(sent, inputs);
    var at := Indices(inputs)[..|delivered|];
    forall k | 0 <= k < |at| ensures delivered[k] == sent[at[k]] {
      assert delivered[k] == Events(inputs)[k];
    }
  }

  /** The states of the batches rise. */
  ghost predicate StatesRise(messages: seq<Message>)
    requires BatchesBounded(messages)
  {
    forall i, j | 0 <= i < j < |messages| && messages[i].Batch? && messages[j].Batch? ::
      FormatBatch(messages[i].events).state < FormatBatch(messages[j].events).state
  }

  lemma AllStatesRise(messages: seq<Message>)
    requires BatchesBounded(messages) && IdsIncrease(Delivered(messages))
    ensures StatesRise(messages)
  {
    forall i, j | 0 <= i < j < |messages| && messages[i].Batch? && messages[j].Batch?
      ensures FormatBatch(messages[i].events).state < FormatBatch(messages[j].events).state
    {
      StatesIncrease(messages, i, j);
    }
  }

  lemma CompletePrefix(sent: seq<ChangeEvent>, inputs: seq<Input>, n: nat, delivered: seq<ChangeEvent>)
    requires n <= |inputs| && FromChannel(sent, inputs[..n]) && IdsIncrease(sent) && NoEventAfterLag(inputs)
    requires delivered <= Events(inputs[..n])
    ensures delivered <= sent
  {
    assert forall i | 0 <= i < n :: inputs[..n][..i] == inputs[..i];
    CompleteUnlessLagged(sent, inputs[..n]);
  }

  /**
   A connection on a channel: what is delivered is an order-preserving, duplicate-free part of what
   was sent, in batches of 1 to 100 events with rising states, and the whole of it up to the last
   delivered event if no event was received after a lag.
   */
  method Subscribe(sent: seq<ChangeEvent>, inputs: seq<Input>, sendOk: nat -> bool)
    returns (messages: seq<Message>, ghost at: seq<nat>)
    requires FromChannel(sent, inputs) && IdsIncrease(sent)
    ensures BatchesBounded(messages) && StatesRise(messages)
    ensures Places(sent, Delivered(messages), at)
    ensures NoEventAfterLag(inputs) ==> Delivered(messages) <= sent
  {
    var consumed, undelivered;
    messages, consumed, undelivered := HandleWebsocket(inputs, sendOk);
    ghost var delivered := Delivered(messages);
    ChannelPrefix(sent, inputs, consumed);
    DeliveredPlaces(sent, inputs[..consumed], delivered);
    at := Indices(inputs[..consumed])[..|delivered|];
    AllStatesRise(messages);
    if NoEventAfterLag(inputs) {
      CompletePrefix(sent, inputs, consumed, delivered);
    }
  }
}
