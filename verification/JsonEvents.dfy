/**
 JSON as the serializer sees it (a flat stream of events) and as a reader sees it (a tree),
 and the two-stack machine of the test suite that turns the first into the second.

 `Json` keeps object members in document order, duplicates included; `Node` is the reader's
 in-memory tree, whose objects are unordered maps.
 */
module JsonEvents {
  import opened Sequences

  datatype Event =
    | StartObject
    | EndObject
    | StartArray
    | EndArray
    | ObjectKey(key: string)
    | StringValue(text: string)
    | NumberValue(text: string)
    | BooleanValue(b: bool)
    | NullValue

  datatype Member = Member(key: string, value: Json)

  datatype Json =
    | JString(text: string)
    | JNumber(text: string)
    | JBoolean(b: bool)
    | JNull
    | JArray(items: seq<Json>)
    | JObject(members: seq<Member>)

  /** The event stream of a document. */
  function Events(j: Json): seq<Event>
    decreases j
  {
    match j
    case JString(t) => [StringValue(t)]
    case JNumber(t) => [NumberValue(t)]
    case JBoolean(b) => [BooleanValue(b)]
    case JNull => [NullValue]
    case JArray(items) => [StartArray] + ItemEvents(items) + [EndArray]
    case JObject(members) => [StartObject] + MemberEvents(members) + [EndObject]
  }

  function ItemEvents(items: seq<Json>): seq<Event>
    decreases items
  {
    if items == [] then [] else Events(items[0]) + ItemEvents(items[1..])
  }

  function MemberEvents(members: seq<Member>): seq<Event>
    decreases members
  {
    if members == [] then []
    else [ObjectKey(members[0].key)] + Events(members[0].value) + MemberEvents(members[1..])
  }

  lemma {:induction false} ItemEventsAppend(items: seq<Json>, j: Json)
    ensures ItemEvents(items + [j]) == ItemEvents(items) + Events(j)
    decreases |items|
  {
    if items == [] {
      assert ([] + [j])[1..] == [];
      assert ItemEvents([]) == [];
      assert Events(j) + [] == Events(j);
    } else {
      assert (items + [j])[1..] == items[1..] + [j];
      ItemEventsAppend(items[1..], j);
    }
  }

  lemma {:induction false} MemberEventsAppend(members: seq<Member>, m: Member)
    ensures MemberEvents(members + [m]) == MemberEvents(members) + [ObjectKey(m.key)] + Events(m.value)
    decreases |members|
  {
    if members == [] {
      assert ([] + [m])[1..] == [];
      assert MemberEvents([]) == [];
      assert [ObjectKey(m.key)] + Events(m.value) + [] == [ObjectKey(m.key)] + Events(m.value);
    } else {
      assert (members + [m])[1..] == members[1..] + [m];
      MemberEventsAppend(members[1..], m);
    }
  }

  lemma MemberEventsPrepend(m: Member, members: seq<Member>)
    ensures MemberEvents([m] + members) == [ObjectKey(m.key)] + Events(m.value) + MemberEvents(members)
  {
    assert ([m] + members)[1..] == members;
  }

  /** No object anywhere in the document repeats a name (RFC 8259, section 4). */
  ghost predicate UniqueKeys(j: Json)
    decreases j
  {
    match j
    case JArray(items) => forall i | 0 <= i < |items| :: UniqueKeys(items[i])
    case JObject(members) =>
      && DistinctKeys(members)
      && forall i | 0 <= i < |members| :: UniqueKeys(members[i].value)
    case _ => true
  }

  ghost predicate DistinctKeys(members: seq<Member>) {
    forall i, j | 0 <= i < j < |members| :: members[i].key != members[j].key
  }

  // ---------------------------------------------------------------------------------------
  // An event stream has at most one reading.
  // ---------------------------------------------------------------------------------------

  predicate OpensValue(e: Event) {
    !e.EndArray? && !e.EndObject? && !e.ObjectKey?
  }

  lemma FirstEventOpensValue(j: Json)
    ensures Events(j) != [] && OpensValue(Events(j)[0])
  {
  }

  /** The event encoding is prefix-free: a stream starts with at most one whole document. */
  lemma {:induction false} EventsPrefixFree(a: Json, b: Json, x: seq<Event>, y: seq<Event>)
    requires Events(a) + x == Events(b) + y
    ensures a == b && x == y
    decreases a
  {
    FirstEventOpensValue(a);
    FirstEventOpensValue(b);
    assert Events(a)[0] == (Events(a) + x)[0] == (Events(b) + y)[0] == Events(b)[0];
    match a
    case JArray(items) =>
      assert b.JArray?;
      TailsAgree(Events(a) + x, [StartArray], ItemEvents(items) + ([EndArray] + x),
                 ItemEvents(b.items) + ([EndArray] + y));
      ItemsPrefixFree(items, b.items, x, y);
    case JObject(members) =>
      assert b.JObject?;
      TailsAgree(Events(a) + x, [StartObject], MemberEvents(members) + ([EndObject] + x),
                 MemberEvents(b.members) + ([EndObject] + y));
      MembersPrefixFree(members, b.members, x, y);
    case _ =>
      assert |Events(a)| == |Events(b)| == 1;
      assert x == (Events(a) + x)[1..] == (Events(b) + y)[1..] == y;
  }

  /** What comes first after a list of items: its end, or the first item. */
  lemma FirstItem(a: seq<Json>, x: seq<Event>)
    ensures var whole := ItemEvents(a) + ([EndArray] + x);
            && (a == [] ==> whole[0] == EndArray && whole == [EndArray] + x)
            && (a != [] ==> && OpensValue(whole[0])
                            && whole == Events(a[0]) + (ItemEvents(a[1..]) + ([EndArray] + x)))
  {
    if a != [] {
      FirstEventOpensValue(a[0]);
      Associate(Events(a[0]), ItemEvents(a[1..]), [EndArray] + x);
    }
  }

  lemma {:induction false} ItemsPrefixFree(a: seq<Json>, b: seq<Json>, x: seq<Event>, y: seq<Event>)
    requires ItemEvents(a) + ([EndArray] + x) == ItemEvents(b) + ([EndArray] + y)
    ensures a == b && x == y
    decreases a
  {
    FirstItem(a, x);
    FirstItem(b, y);
    if a == [] {
      TailsAgree(ItemEvents(a) + ([EndArray] + x), [EndArray], x, y);
    } else {
      var ra, rb := ItemEvents(a[1..]) + ([EndArray] + x), ItemEvents(b[1..]) + ([EndArray] + y);
      EventsPrefixFree(a[0], b[0], ra, rb);
      ItemsPrefixFree(a[1..], b[1..], x, y);
      assert a == [a[0]] + a[1..] && b == [b[0]] + b[1..];
    }
  }

  /** What comes first after a list of members: its end, or the first name. */
  lemma FirstMember(a: seq<Member>, x: seq<Event>)
    ensures var whole := MemberEvents(a) + ([EndObject] + x);
            && (a == [] ==> whole[0] == EndObject && whole == [EndObject] + x)
            && (a != [] ==> && whole[0] == ObjectKey(a[0].key)
                            && whole == [ObjectKey(a[0].key)]
                                        + (Events(a[0].value) + (MemberEvents(a[1..]) + ([EndObject] + x))))
  {
    if a != [] {
      Associate4([ObjectKey(a[0].key)], Events(a[0].value), MemberEvents(a[1..]), [EndObject] + x);
    }
  }

  lemma {:induction false} MembersPrefixFree(a: seq<Member>, b: seq<Member>, x: seq<Event>, y: seq<Event>)
    requires MemberEvents(a) + ([EndObject] + x) == MemberEvents(b) + ([EndObject] + y)
    ensures a == b && x == y
    decreases a
  {
    FirstMember(a, x);
    FirstMember(b, y);
    var whole := MemberEvents(a) + ([EndObject] + x);
    if a == [] {
      TailsAgree(whole, [EndObject], x, y);
    } else {
      var ra, rb := MemberEvents(a[1..]) + ([EndObject] + x), MemberEvents(b[1..]) + ([EndObject] + y);
      TailsAgree(whole, [ObjectKey(a[0].key)], Events(a[0].value) + ra, Events(b[0].value) + rb);
      EventsPrefixFree(a[0].value, b[0].value, ra, rb);
      MembersPrefixFree(a[1..], b[1..], x, y);
      assert a == [a[0]] + a[1..] && b == [b[0]] + b[1..];
    }
  }
}
