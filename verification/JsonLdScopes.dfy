/**
 What can be told from an unfinished document: the events written so far determine the open scopes
 and the quads accepted.
 */
module JsonLdScopes {
  import opened Wrappers
  import opened Sequences
  import opened JsonEvents
  import opened JsonTree
  import opened JsonLdTerms
  import opened JsonLdDocument
  import opened JsonLdReadBack
  import opened JsonLdStep
  import opened JsonLdReader
  import opened JsonLdRoundTrip

  /** The state variables, as a document's open scopes would set them, explain the output. */
  ghost predicate Explains(o: Options, d: Open, output: seq<Event>) {
    BetweenQuads(d) && UniqueSoFar(d) && d.graph.Some? && output == OpenEvents(o, d)
  }

  /** Different nodes are written under different ids. */
  ghost predicate IdsDistinct(o: Options) {
    forall m, n | WellFormedNode(m) && WellFormedNode(n) && IdValue(o, m) == IdValue(o, n) :: m == n
  }

  lemma IdsDistinctWithoutBase(o: Options)
    requires o.base.None?
    ensures IdsDistinct(o)
  {
    forall m, n | WellFormedNode(m) && WellFormedNode(n) && IdValue(o, m) == IdValue(o, n) ensures m == n {
      if m.Named? { assert m.iri[0] == SplitColon(m.iri).value.0[0]; }
      if n.Named? { assert n.iri[0] == SplitColon(n.iri).value.0[0]; }
      if m.Blank? && n.Blank? {
        assert m.id == IdValue(o, m)[2..] == IdValue(o, n)[2..] == n.id;
      }
    }
  }

  // --- what the tree builder holds after an unfinished document ------------------------------------------

  function TopStack(o: Options, d: Open): seq<Node> {
    (if HasHeader(o) then [Object(map["@context" := ToNode(JObject(ContextMembers(o)))])] else [])
    + [Array(ToNodes(d.top))]
  }

  function TopKeys(o: Options): seq<string> {
    if HasHeader(o) then ["@graph"] else []
  }

  function IdFields(o: Options, n: NamedOrBlank): map<string, Node> { map["@id" := String(IdValue(o, n))] }

  function GraphStack(o: Options, d: Open): seq<Node> {
    if InNamedGraph(d) then [Object(IdFields(o, d.graph.value.name)), Array(ToNodes(d.graphNodes))] else []
  }

  function GraphKeys(d: Open): seq<string> {
    if InNamedGraph(d) then ["@graph"] else []
  }

  function SubjectObject(o: Options, d: Open): Node
    requires d.subject.Some?
  {
    Object(InsertMembers(IdFields(o, d.subject.value), d.members))
  }

  lemma TopMachine(o: Options, d: Open)
    ensures Run(Running([], []), TopEvents(o, d.top)) == Running(TopStack(o, d), TopKeys(o))
  {
    var m := Running([], []);
    var below := if HasHeader(o) then [Object(map["@context" := ToNode(JObject(ContextMembers(o)))])] else [];
    assert Run(m, HeaderEvents(o)) == Running(below, TopKeys(o)) by {
      if HasHeader(o) { HeaderMachine(o); }
    }
    RunConcat(m, HeaderEvents(o) + [StartArray], ItemEvents(d.top));
    RunConcat(m, HeaderEvents(o), [StartArray]);
    assert Run(Running(below, TopKeys(o)), [StartArray]) == Running(below + [Array([])], TopKeys(o));
    RunItems(below, TopKeys(o), [], d.top);
    assert [] + ToNodes(d.top) == ToNodes(d.top);
  }

  lemma HeaderMachine(o: Options)
    requires HasHeader(o)
    ensures Run(Running([], []), HeaderEvents(o))
         == Running([Object(map["@context" := ToNode(JObject(ContextMembers(o)))])], ["@graph"])
  {
    var m, context := Running([], []), JObject(ContextMembers(o));
    var m1 := Running([Object(map[])], ["@context"]);
    RunConcat(m, [StartObject, ObjectKey("@context")] + Events(context), [ObjectKey("@graph")]);
    RunConcat(m, [StartObject, ObjectKey("@context")], Events(context));
    assert Run(m, [StartObject, ObjectKey("@context")]) == m1 by {
      assert [StartObject, ObjectKey("@context")][1..] == [ObjectKey("@context")];
      assert Feed([], [], StartObject) == Running([Object(map[])], []);
      assert Feed([Object(map[])], [], ObjectKey("@context")) == m1;
    }
    RunValue(m1.stack, m1.keys, context);
    assert Attach(m1.stack, m1.keys, ToNode(context)) == Running([Object(map["@context" := ToNode(context)])], []);
  }

  /** An object key followed by the start of its array. */
  lemma OpenArrayMachine(stack: seq<Node>, keys: seq<string>, key: string)
    ensures Run(Running(stack, keys), [ObjectKey(key), StartArray]) == Running(stack + [Array([])], keys + [key])
  {
    var open := [ObjectKey(key), StartArray];
    assert open[1..] == [StartArray];
    assert Run(Running(stack, keys), open) == Run(Running(stack, keys + [key]), [StartArray]);
  }

  lemma IdMachine(o: Options, stack: seq<Node>, keys: seq<string>, n: NamedOrBlank)
    ensures Run(Running(stack, keys), IdEvents(o, n)) == Running(stack + [Object(IdFields(o, n))], keys)
  {
    var e := IdEvents(o, n);
    var open := stack + [Object(map[])];
    assert e[1..] == [ObjectKey("@id"), StringValue(IdValue(o, n))] && e[1..][1..] == [StringValue(IdValue(o, n))];
    assert Feed(stack, keys, StartObject) == Running(open, keys);
    assert Feed(open, keys, ObjectKey("@id")) == Running(open, keys + ["@id"]);
    assert open[..|open| - 1] == stack && (keys + ["@id"])[..|keys|] == keys;
    assert Feed(open, keys + ["@id"], StringValue(IdValue(o, n))) == Running(stack + [Object(IdFields(o, n))], keys);
    assert Run(Running(stack, keys), e)
         == Run(Running(open, keys), e[1..]) == Run(Running(open, keys + ["@id"]), e[1..][1..]);
    assert Run(Running(open, keys + ["@id"]), [StringValue(IdValue(o, n))])
        == Run(Running(stack + [Object(IdFields(o, n))], keys), []);
  }

  lemma GraphMachine(o: Options, g: NamedOrBlank, nodes: seq<Json>, stack: seq<Node>, keys: seq<string>)
    ensures Run(Running(stack, keys), GraphEvents(o, g, nodes))
         == Running(stack + [Object(IdFields(o, g)), Array(ToNodes(nodes))], keys + ["@graph"])
  {
    var m, node := Running(stack, keys), stack + [Object(IdFields(o, g))];
    var open := [ObjectKey("@graph"), StartArray];
    RunConcat(m, IdEvents(o, g) + open, ItemEvents(nodes));
    RunConcat(m, IdEvents(o, g), open);
    IdMachine(o, stack, keys, g);
    OpenArrayMachine(node, keys, "@graph");
    RunItems(node, keys + ["@graph"], [], nodes);
    assert [] + ToNodes(nodes) == ToNodes(nodes);
    assert node + [Array(ToNodes(nodes))] == stack + [Object(IdFields(o, g)), Array(ToNodes(nodes))];
  }

  lemma GraphLevelMachine(o: Options, d: Open)
    ensures Run(Running([], []), GraphLevel(o, d))
         == Running(TopStack(o, d) + GraphStack(o, d), TopKeys(o) + GraphKeys(d))
  {
    TopMachine(o, d);
    if InNamedGraph(d) {
      var g := d.graph.value.name;
      RunConcat(Running([], []), TopEvents(o, d.top), GraphEvents(o, g, d.graphNodes));
      GraphMachine(o, g, d.graphNodes, TopStack(o, d), TopKeys(o));
    } else {
      assert TopStack(o, d) + [] == TopStack(o, d) && TopKeys(o) + [] == TopKeys(o);
    }
  }

  lemma SubjectMachine(o: Options, d: Open, stack: seq<Node>, keys: seq<string>)
    requires d.subject.Some?
    ensures Run(Running(stack, keys), SubjectEvents(o, d.subject.value, d.members))
         == Running(stack + [SubjectObject(o, d)], keys)
  {
    RunConcat(Running(stack, keys), IdEvents(o, d.subject.value), MemberEvents(d.members));
    IdMachine(o, stack, keys, d.subject.value);
    RunMembers(stack, keys, IdFields(o, d.subject.value), d.members);
  }

  lemma PredicateMachine(p: string, objects: seq<Json>, stack: seq<Node>, keys: seq<string>)
    ensures Run(Running(stack, keys), PredicateEvents(p, objects))
         == Running(stack + [Array(ToNodes(objects))], keys + [p])
  {
    RunConcat(Running(stack, keys), [ObjectKey(p), StartArray], ItemEvents(objects));
    OpenArrayMachine(stack, keys, p);
    RunItems(stack, keys + [p], [], objects);
    assert [] + ToNodes(objects) == ToNodes(objects);
  }

  lemma OpenMachine(o: Options, d: Open)
    requires BetweenQuads(d) && d.graph.Some?
    ensures Run(Running([], []), OpenEvents(o, d))
         == Running(TopStack(o, d) + GraphStack(o, d) + [SubjectObject(o, d), Array(ToNodes(d.objects))],
                    TopKeys(o) + GraphKeys(d) + [d.pred.value])
  {
    var m, stack, keys := Running([], []), TopStack(o, d) + GraphStack(o, d), TopKeys(o) + GraphKeys(d);
    RunConcat(m, SubjectLevel(o, d), PredicateEvents(d.pred.value, d.objects));
    RunConcat(m, GraphLevel(o, d), SubjectEvents(o, d.subject.value, d.members));
    GraphLevelMachine(o, d);
    SubjectMachine(o, d, stack, keys);
    PredicateMachine(d.pred.value, d.objects, stack + [SubjectObject(o, d)], keys);
    Associate(stack, [SubjectObject(o, d)], [Array(ToNodes(d.objects))]);
    assert [SubjectObject(o, d)] + [Array(ToNodes(d.objects))] == [SubjectObject(o, d), Array(ToNodes(d.objects))];
  }

  lemma {:induction false} IdFieldKept(fields: map<string, Node>, members: seq<Member>)
    requires "@id" in fields && forall i | 0 <= i < |members| :: members[i].key != "@id"
    ensures "@id" in InsertMembers(fields, members) && InsertMembers(fields, members)["@id"] == fields["@id"]
    decreases |members|
  {
    if members != [] {
      IdFieldKept(fields[members[0].key := ToNode(members[0].value)], members[1..]);
    }
  }

  lemma SubjectIdKept(o: Options, d: Open)
    requires UniqueSoFar(d) && d.subject.Some?
    ensures "@id" in SubjectObject(o, d).fields
    ensures SubjectObject(o, d).fields["@id"] == String(IdValue(o, d.subject.value))
  {
    forall i | 0 <= i < |d.members| ensures d.members[i].key != "@id" {
      RereadPredicate(Context(map[], None, imap[]), d.members[i].key);
    }
    IdFieldKept(IdFields(o, d.subject.value), d.members);
  }

  /** Equal stacks and key stacks come from the same open scopes. */
  lemma StacksDetermineScopes(o: Options, d: Open, e: Open)
    requires IdsDistinct(o) && BetweenQuads(d) && BetweenQuads(e) && d.graph.Some? && e.graph.Some?
    requires GraphStack(o, d) == GraphStack(o, e)
    requires SubjectObject(o, d) == SubjectObject(o, e) && UniqueSoFar(d) && UniqueSoFar(e)
    ensures d.graph == e.graph && d.subject == e.subject
  {
    SubjectIdKept(o, d);
    SubjectIdKept(o, e);
    if InNamedGraph(d) {
      assert GraphStack(o, d)[0] == GraphStack(o, e)[0];
      assert IdFields(o, d.graph.value.name)["@id"] == IdFields(o, e.graph.value.name)["@id"];
    }
  }

  lemma SplitStacks(a: seq<Node>, a': seq<Node>, x: seq<Node>, y: seq<Node>, s: seq<Node>, t: seq<Node>)
    requires a + x + s == a' + y + t && |a| == |a'| && |s| == |t|
    ensures x == y && s == t
  {
    var whole := a + x + s;
    assert x == whole[|a|..|whole| - |s|] == y;
    assert s == whole[|whole| - |s|..] == t;
  }

  /** The output determines which scopes are open: graph, subject and predicate can be read off it. */
  lemma OutputDeterminesScopes(o: Options, d: Open, e: Open, output: seq<Event>)
    requires IdsDistinct(o) && Explains(o, d, output) && Explains(o, e, output)
    ensures d.graph == e.graph && d.subject == e.subject && d.pred == e.pred
  {
    OpenMachine(o, d);
    OpenMachine(o, e);
    var kd, ke := TopKeys(o) + GraphKeys(d) + [d.pred.value], TopKeys(o) + GraphKeys(e) + [e.pred.value];
    assert kd == ke;
    assert kd[|kd| - 1] == d.pred.value && ke[|ke| - 1] == e.pred.value;
    var sd, se := [SubjectObject(o, d), Array(ToNodes(d.objects))], [SubjectObject(o, e), Array(ToNodes(e.objects))];
    SplitStacks(TopStack(o, d), TopStack(o, e), GraphStack(o, d), GraphStack(o, e), sd, se);
    assert sd[0] == se[0];
    StacksDetermineScopes(o, d, e);
  }

  /** Without base and prefixes the output so far determines the open scopes and the quads accepted. */
  lemma OutputDeterminesHistory(o: Options, d: Open, h: seq<Quad>, e: Open, k: seq<Quad>, output: seq<Event>)
    requires o.base.None? && o.prefixes == []
    requires Coherent(o, true, d, h, output) && Coherent(o, true, e, k, output)
    ensures d.graph == e.graph && d.subject == e.subject && d.pred == e.pred && h == k
  {
    IdsDistinctWithoutBase(o);
    OutputDeterminesScopes(o, d, e, output);
    var j := FinishDocument(o, true, d, h, output);
    var j' := FinishDocument(o, true, e, k, output);
    assert Events(j) + [] == Events(j') + [];
    EventsPrefixFree(j, j', [], []);
    PlainRoundTrip(o, h, j);
    PlainRoundTrip(o, k, j');
  }

  /**
   After a refused quad the output is the old one and the state variables name the quad's scopes.
   Some unfinished document agrees with both exactly when the quad's scopes were the open ones.
   */
  lemma RefusedQuadHarmless(o: Options, d: Open, q: Quad, output: seq<Event>)
    requires IdsDistinct(o) && Explains(o, d, output)
    ensures (exists e :: Explains(o, e, output) && SameScopes(e, q)) <==> SameScopes(d, q)
  {
    forall e | Explains(o, e, output) && SameScopes(e, q) ensures SameScopes(d, q) {
      OutputDeterminesScopes(o, d, e, output);
    }
    if SameScopes(d, q) {
      assert Explains(o, d, output) && SameScopes(d, q);
    }
  }
}
