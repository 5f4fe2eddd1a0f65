/**
 `json_to_node` of the test suite: two explicit stacks, one of unfinished containers and one
 of pending object keys, rebuild a tree from an event stream.
 */
module JsonTree {
  import opened Wrappers
  import opened JsonEvents

  datatype Node =
    | Null
    | Boolean(b: bool)
    | String(text: string)
    | Number(text: string)
    | Object(fields: map<string, Node>)
    | Array(items: seq<Node>)

  /** The in-memory tree of a document: in an object, a later member replaces an earlier one. */
  function ToNode(j: Json): Node
    decreases j
  {
    match j
    case JNull => Null
    case JBoolean(b) => Boolean(b)
    case JString(t) => String(t)
    case JNumber(t) => Number(t)
    case JArray(items) => Array(ToNodes(items))
    case JObject(members) => Object(InsertMembers(map[], members))
  }

  function ToNodes(items: seq<Json>): (nodes: seq<Node>)
    ensures |nodes| == |items|
    decreases items
  {
    if items == [] then [] else [ToNode(items[0])] + ToNodes(items[1..])
  }

  function InsertMembers(fields: map<string, Node>, members: seq<Member>): map<string, Node>
    decreases members
  {
    if members == [] then fields
    else InsertMembers(fields[members[0].key := ToNode(members[0].value)], members[1..])
  }

  /** The machine between two events; `Panicked` is the `unreachable!` arm. */
  datatype Machine =
    | Running(stack: seq<Node>, keys: seq<string>)
    | Finished(node: Node)
    | Panicked

  /** A finished value goes into the innermost open container, or is the result. */
  function Attach(stack: seq<Node>, keys: seq<string>, node: Node): Machine {
    if stack == [] then Finished(node)
    else
      var rest := stack[..|stack| - 1];
      match stack[|stack| - 1]
      case Array(items) => Running(rest + [Array(items + [node])], keys)
      case Object(fields) =>
        if keys == [] then Running(stack, keys)
        else Running(rest + [Object(fields[keys[|keys| - 1] := node])], keys[..|keys| - 1])
      case _ => Panicked
  }

  function Feed(stack: seq<Node>, keys: seq<string>, e: Event): Machine {
    match e
    case StringValue(t) => Attach(stack, keys, String(t))
    case NumberValue(t) => Attach(stack, keys, Number(t))
    case BooleanValue(b) => Attach(stack, keys, Boolean(b))
    case NullValue => Attach(stack, keys, Null)
    case StartArray => Running(stack + [Array([])], keys)
    case StartObject => Running(stack + [Object(map[])], keys)
    case ObjectKey(k) => Running(stack, keys + [k])
    case _ =>
      if stack == [] then Running(stack, keys)
      else Attach(stack[..|stack| - 1], keys, stack[|stack| - 1])
  }

  function Run(m: Machine, events: seq<Event>): Machine
    decreases |events|
  {
    if m.Running? && events != [] then Run(Feed(m.stack, m.keys, events[0]), events[1..]) else m
  }

  lemma {:induction false} RunConcat(m: Machine, a: seq<Event>, b: seq<Event>)
    ensures Run(m, a + b) == Run(Run(m, a), b)
    decreases |a|
  {
    if a == [] {
      assert a + b == b;
    } else if m.Running? {
      assert (a + b)[1..] == a[1..] + b;
      RunConcat(Feed(m.stack, m.keys, a[0]), a[1..], b);
    }
  }

  lemma RunOne(stack: seq<Node>, keys: seq<string>, e: Event)
    ensures Run(Running(stack, keys), [e]) == Feed(stack, keys, e)
  {
    assert [e][1..] == [];
  }

  lemma RunBracketed(m: Machine, first: Event, inner: seq<Event>, last: Event)
    ensures Run(m, [first] + inner + [last]) == Run(Run(Run(m, [first]), inner), [last])
  {
    RunConcat(m, [first] + inner, [last]);
    RunConcat(m, [first], inner);
  }

  lemma RunEnd(stack: seq<Node>, keys: seq<string>, container: Node, e: Event)
    requires e.EndArray? || e.EndObject?
    ensures Run(Running(stack + [container], keys), [e]) == Attach(stack, keys, container)
  {
    RunOne(stack + [container], keys, e);
    assert (stack + [container])[..|stack|] == stack;
  }

  /** A whole value read anywhere has the effect of attaching its tree. */
  lemma {:induction false} RunValue(stack: seq<Node>, keys: seq<string>, j: Json)
    ensures Run(Running(stack, keys), Events(j)) == Attach(stack, keys, ToNode(j))
    decreases j
  {
    match j
    case JArray(items) =>
      RunBracketed(Running(stack, keys), StartArray, ItemEvents(items), EndArray);
      RunOne(stack, keys, StartArray);
      RunItems(stack, keys, [], items);
      assert [] + ToNodes(items) == ToNodes(items);
      RunEnd(stack, keys, Array(ToNodes(items)), EndArray);
    case JObject(members) =>
      RunBracketed(Running(stack, keys), StartObject, MemberEvents(members), EndObject);
      RunOne(stack, keys, StartObject);
      RunMembers(stack, keys, map[], members);
      RunEnd(stack, keys, Object(InsertMembers(map[], members)), EndObject);
    case _ =>
      RunOne(stack, keys, Events(j)[0]);
  }

  lemma {:induction false} RunItems(stack: seq<Node>, keys: seq<string>, done: seq<Node>, items: seq<Json>)
    ensures Run(Running(stack + [Array(done)], keys), ItemEvents(items))
         == Running(stack + [Array(done + ToNodes(items))], keys)
    decreases items
  {
    var open := stack + [Array(done)];
    if items == [] {
      assert done + [] == done;
    } else {
      var node := ToNode(items[0]);
      RunConcat(Running(open, keys), Events(items[0]), ItemEvents(items[1..]));
      RunValue(open, keys, items[0]);
      assert open[..|open| - 1] == stack;
      RunItems(stack, keys, done + [node], items[1..]);
      assert (done + [node]) + ToNodes(items[1..]) == done + ToNodes(items);
    }
  }

  lemma {:induction false} RunMembers(stack: seq<Node>, keys: seq<string>, fields: map<string, Node>,
                                      members: seq<Member>)
    ensures Run(Running(stack + [Object(fields)], keys), MemberEvents(members))
         == Running(stack + [Object(InsertMembers(fields, members))], keys)
    decreases members
  {
    if members != [] {
      var open, m := stack + [Object(fields)], members[0];
      var head, tail := [ObjectKey(m.key)] + Events(m.value), MemberEvents(members[1..]);
      RunConcat(Running(open, keys), head, tail);
      RunConcat(Running(open, keys), [ObjectKey(m.key)], Events(m.value));
      assert Run(Running(open, keys), [ObjectKey(m.key)]) == Running(open, keys + [m.key]);
      RunValue(open, keys + [m.key], m.value);
      assert open[..|open| - 1] == stack && (keys + [m.key])[..|keys|] == keys;
      RunMembers(stack, keys, fields[m.key := ToNode(m.value)], members[1..]);
    }
  }

  /** Events after the first whole document are never looked at. */
  lemma RebuildsDocument(j: Json, rest: seq<Event>)
    ensures Run(Running([], []), Events(j) + rest) == Finished(ToNode(j))
  {
    RunConcat(Running([], []), Events(j), rest);
    RunValue([], [], j);
  }

  /** What the machine does with all events is settled for every document they may begin with. */
  lemma RunDecides(events: seq<Event>, m: Machine)
    requires Run(Running([], []), events) == m
    ensures forall j, rest | events == Events(j) + rest :: m == Finished(ToNode(j))
  {
    forall j, rest | events == Events(j) + rest ensures m == Finished(ToNode(j)) {
      RebuildsDocument(j, rest);
    }
  }

  /** The end of the loop body: a value that is complete goes into the innermost container. */
  method AttachNode(stack: seq<Node>, keys: seq<string>, node: Node) returns (m: Machine)
    ensures m == Attach(stack, keys, node)
  {
    if stack == [] {
      return Finished(node);
    }
    var top, below := stack[|stack| - 1], stack[..|stack| - 1];
    if top.Array? {
      m := Running(below + [Array(top.items + [node])], keys);
    } else if top.Object? {
      m := Running(stack, keys);
      if keys != [] {
        m := Running(below + [Object(top.fields[keys[|keys| - 1] := node])], keys[..|keys| - 1]);
      }
    } else {
      m := Panicked;
    }
  }

  /** The loop body: one event. */
  method Consume(stack: seq<Node>, keys: seq<string>, e: Event) returns (m: Machine)
    ensures m == Feed(stack, keys, e)
  {
    m := Running(stack, keys);
    match e {
      case StringValue(t) => m := AttachNode(stack, keys, String(t));
      case NumberValue(t) => m := AttachNode(stack, keys, Number(t));
      case BooleanValue(b) => m := AttachNode(stack, keys, Boolean(b));
      case NullValue => m := AttachNode(stack, keys, Null);
      case StartArray => m := Running(stack + [Array([])], keys);
      case StartObject => m := Running(stack + [Object(map[])], keys);
      case ObjectKey(k) => m := Running(stack, keys + [k]);
      case _ =>
        if stack != [] {
          m := AttachNode(stack[..|stack| - 1], keys, stack[|stack| - 1]);
        }
    }
  }

  /** `json_to_node`. Running out of events is the endless wait for more input after `Eof`. */
  method JsonToNode(events: seq<Event>) returns (r: Option<Node>)
    ensures forall j, rest | events == Events(j) + rest :: r == Some(ToNode(j))
  {
    var m := Running([], []);
    var i := 0;
    while i < |events| && m.Running?
      invariant 0 <= i <= |events|
      invariant Run(Running([], []), events) == Run(m, events[i..])
    {
      assert events[i..][1..] == events[i + 1..];
      m := Consume(m.stack, m.keys, events[i]);
      i := i + 1;
    }
    RunDecides(events, m);
    r := if m.Finished? then Some(m.node) else None;
  }

  /** With unique names the unordered tree loses nothing: every member is there, and nothing else. */
  lemma {:induction false} FieldsOfUniqueMembers(fields: map<string, Node>, members: seq<Member>)
    requires DistinctKeys(members)
    requires forall i | 0 <= i < |members| :: members[i].key !in fields
    ensures forall k | k in fields ::
              k in InsertMembers(fields, members) && InsertMembers(fields, members)[k] == fields[k]
    ensures forall i | 0 <= i < |members| ::
      && members[i].key in InsertMembers(fields, members)
      && InsertMembers(fields, members)[members[i].key] == ToNode(members[i].value)
    ensures |InsertMembers(fields, members)| == |fields| + |members|
    decreases |members|
  {
    if members != [] {
      var m := members[0];
      var fields', rest := fields[m.key := ToNode(m.value)], members[1..];
      var all := InsertMembers(fields', rest);
      assert fields'.Keys == fields.Keys + {m.key};
      FieldsOfUniqueMembers(fields', rest);
      forall k | k in fields ensures k in all && all[k] == fields[k] {
        assert k in fields' && fields'[k] == fields[k];
      }
      forall i | 0 <= i < |members|
        ensures members[i].key in all && all[members[i].key] == ToNode(members[i].value)
      {
        if i == 0 { assert m.key in fields'; } else { assert members[i] == rest[i - 1]; }
      }
    }
  }
}
