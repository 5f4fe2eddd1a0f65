/**
 Unfinished JSON-LD documents: what has been written when some scopes are still open.

 The serializer keeps four nested scopes: the top-level array, a named graph, a node object for
 the current subject and an array for the current predicate. `Open` holds the closed content of
 each scope; the lemmas say what closing or opening one scope does to the events written so far
 and to the quads a reader gets from them.
 */
module JsonLdDocument {
  import opened Wrappers
  import opened Sequences
  import opened JsonEvents
  import opened JsonLdTerms

  datatype Open = Open(
    top: seq<Json>,
    graph: Option<GraphName>, graphNodes: seq<Json>,
    subject: Option<NamedOrBlank>, members: seq<Member>,
    pred: Option<string>, objects: seq<Json>)

  const NothingWritten := Open([], None, [], None, [], None, [])

  // --- documents -----------------------------------------------------------------------------

  predicate HasHeader(o: Options) { o.base.Some? || o.prefixes != [] }

  function ContextKey(name: string): string { if name == "" then "@vocab" else name }

  function PrefixMembers(prefixes: seq<Prefix>): seq<Member> {
    seq(|prefixes|, i requires 0 <= i < |prefixes| => Member(ContextKey(prefixes[i].name), JString(prefixes[i].iri)))
  }

  function ContextMembers(o: Options): seq<Member> {
    (if o.base.Some? then [Member("@base", JString(o.base.value))] else []) + PrefixMembers(o.prefixes)
  }

  /** The document around a list of top-level nodes. */
  function Document(o: Options, nodes: seq<Json>): Json {
    if HasHeader(o)
    then JObject([Member("@context", JObject(ContextMembers(o))), Member("@graph", JArray(nodes))])
    else JArray(nodes)
  }

  function IdMember(o: Options, n: NamedOrBlank): Member { Member("@id", JString(IdValue(o, n))) }

  function SubjectNode(o: Options, s: NamedOrBlank, members: seq<Member>): Json {
    JObject([IdMember(o, s)] + members)
  }

  function GraphNode(o: Options, g: NamedOrBlank, nodes: seq<Json>): Json {
    JObject([IdMember(o, g), Member("@graph", JArray(nodes))])
  }

  function LiteralMembers(l: Literal): seq<Member> {
    match l
    case Simple(v) => [Member("@value", JString(v))]
    case LanguageTagged(v, lang) => [Member("@language", JString(lang)), Member("@value", JString(v))]
    case Directional(v, lang, d) =>
      [Member("@language", JString(lang)), Member("@direction", JString(if d.Ltr? then "ltr" else "rtl")),
       Member("@value", JString(v))]
    case Typed(v, t) =>
      if t == RDF_XSD_STRING then [Member("@value", JString(v))]
      else [Member("@type", JString(t)), Member("@value", JString(v))]
  }

  function TermJson(o: Options, t: Term): Json {
    match t
    case NodeTerm(n) => JObject([IdMember(o, n)])
    case LiteralTerm(l) => JObject(LiteralMembers(l))
    case TripleTerm => JObject([])
  }

  // --- events of an unfinished document ---------------------------------------------------------

  function HeaderEvents(o: Options): seq<Event> {
    if HasHeader(o)
    then [StartObject, ObjectKey("@context")] + Events(JObject(ContextMembers(o))) + [ObjectKey("@graph")]
    else []
  }

  function FooterEvents(o: Options): seq<Event> {
    if HasHeader(o) then [EndArray, EndObject] else [EndArray]
  }

  function IdEvents(o: Options, n: NamedOrBlank): seq<Event> {
    [StartObject, ObjectKey("@id"), StringValue(IdValue(o, n))]
  }

  function TopEvents(o: Options, top: seq<Json>): seq<Event> {
    HeaderEvents(o) + [StartArray] + ItemEvents(top)
  }

  function GraphEvents(o: Options, g: NamedOrBlank, nodes: seq<Json>): seq<Event> {
    IdEvents(o, g) + [ObjectKey("@graph"), StartArray] + ItemEvents(nodes)
  }

  function SubjectEvents(o: Options, s: NamedOrBlank, members: seq<Member>): seq<Event> {
    IdEvents(o, s) + MemberEvents(members)
  }

  function PredicateEvents(p: string, objects: seq<Json>): seq<Event> {
    [ObjectKey(p), StartArray] + ItemEvents(objects)
  }

  predicate InNamedGraph(d: Open) { d.graph.Some? && d.graph.value.NamedGraph? }

  /** The events down to the graph scope, the subject scope and the predicate scope. */
  function GraphLevel(o: Options, d: Open): seq<Event> {
    if InNamedGraph(d) then TopEvents(o, d.top) + GraphEvents(o, d.graph.value.name, d.graphNodes)
    else TopEvents(o, d.top)
  }

  function SubjectLevel(o: Options, d: Open): seq<Event> {
    if d.subject.Some? then GraphLevel(o, d) + SubjectEvents(o, d.subject.value, d.members) else GraphLevel(o, d)
  }

  function OpenEvents(o: Options, d: Open): seq<Event> {
    if d.pred.Some? then SubjectLevel(o, d) + PredicateEvents(d.pred.value, d.objects) else SubjectLevel(o, d)
  }

  // --- scopes are nested ------------------------------------------------------------------------

  predicate Nested(d: Open) {
    && (d.graph.None? ==> d.subject.None?)
    && (d.subject.None? ==> d.pred.None? && d.members == [])
    && (d.pred.None? ==> d.objects == [])
    && ((d.graph.None? || d.graph.value.DefaultGraph?) ==> d.graphNodes == [])
    && (d.graph.Some? && d.graph.value.NamedGraph? ==> WellFormedNode(d.graph.value.name))
    && (d.subject.Some? ==> WellFormedNode(d.subject.value))
    && (d.pred.Some? ==> IsAbsoluteIri(d.pred.value))
  }

  // --- closing and opening scopes -----------------------------------------------------------------

  function EndPredicate(d: Open): Open
    requires d.pred.Some?
  {
    d.(members := d.members + [Member(d.pred.value, JArray(d.objects))], pred := None, objects := [])
  }

  function EndSubject(o: Options, d: Open): Open
    requires d.graph.Some? && d.subject.Some?
  {
    var node := SubjectNode(o, d.subject.value, d.members);
    if d.graph.value.DefaultGraph?
    then d.(top := d.top + [node], subject := None, members := [])
    else d.(graphNodes := d.graphNodes + [node], subject := None, members := [])
  }

  function EndGraph(o: Options, d: Open): Open
    requires d.graph.Some?
  {
    if d.graph.value.DefaultGraph? then d.(graph := None)
    else d.(top := d.top + [GraphNode(o, d.graph.value.name, d.graphNodes)], graph := None, graphNodes := [])
  }

  lemma TwoMemberEvents(a: Member, b: Member)
    ensures MemberEvents([a, b]) == [ObjectKey(a.key)] + Events(a.value) + [ObjectKey(b.key)] + Events(b.value)
  {
    MemberEventsPrepend(a, [b]);
    MemberEventsPrepend(b, []);
    assert [a, b] == [a] + [b] && [b] == [b] + [];
  }

  /** The array of a predicate, closed, is one more member of the node object. */
  lemma ClosedPredicate(p: string, objects: seq<Json>)
    ensures PredicateEvents(p, objects) + [EndArray] == [ObjectKey(p)] + Events(JArray(objects))
  {
  }

  lemma ClosedSubject(o: Options, s: NamedOrBlank, members: seq<Member>)
    ensures SubjectEvents(o, s, members) + [EndObject] == Events(SubjectNode(o, s, members))
  {
    var id := IdMember(o, s);
    MemberEventsPrepend(id, members);
    assert IdEvents(o, s) == [StartObject] + ([ObjectKey("@id")] + Events(id.value));
    Associate([StartObject], [ObjectKey("@id")] + Events(id.value), MemberEvents(members));
  }

  lemma ClosedGraph(o: Options, g: NamedOrBlank, nodes: seq<Json>)
    ensures GraphEvents(o, g, nodes) + [EndArray, EndObject] == Events(GraphNode(o, g, nodes))
  {
    var id := IdMember(o, g);
    TwoMemberEvents(id, Member("@graph", JArray(nodes)));
    assert IdEvents(o, g) == [StartObject] + ([ObjectKey("@id")] + Events(id.value));
  }

  lemma OneMoreMember(o: Options, s: NamedOrBlank, members: seq<Member>, p: string, objects: seq<Json>)
    ensures SubjectEvents(o, s, members) + (PredicateEvents(p, objects) + [EndArray])
         == SubjectEvents(o, s, members + [Member(p, JArray(objects))])
  {
    var m := Member(p, JArray(objects));
    MemberEventsAppend(members, m);
    ClosedPredicate(p, objects);
    Associate(MemberEvents(members), [ObjectKey(p)], Events(m.value));
    Associate(IdEvents(o, s), MemberEvents(members), [ObjectKey(p)] + Events(m.value));
  }

  lemma OneMoreTopNode(o: Options, top: seq<Json>, node: Json)
    ensures TopEvents(o, top) + Events(node) == TopEvents(o, top + [node])
  {
    ItemEventsAppend(top, node);
    Associate(HeaderEvents(o) + [StartArray], ItemEvents(top), Events(node));
  }

  lemma OneMoreGraphNode(o: Options, g: NamedOrBlank, nodes: seq<Json>, node: Json)
    ensures GraphEvents(o, g, nodes) + Events(node) == GraphEvents(o, g, nodes + [node])
  {
    ItemEventsAppend(nodes, node);
    Associate(IdEvents(o, g) + [ObjectKey("@graph"), StartArray], ItemEvents(nodes), Events(node));
  }

  lemma OneMoreObject(p: string, objects: seq<Json>, j: Json)
    ensures PredicateEvents(p, objects) + Events(j) == PredicateEvents(p, objects + [j])
  {
    ItemEventsAppend(objects, j);
    Associate([ObjectKey(p), StartArray], ItemEvents(objects), Events(j));
  }

  lemma EndPredicateEvents(o: Options, d: Open)
    requires Nested(d) && d.pred.Some?
    ensures Nested(EndPredicate(d)) && OpenEvents(o, d) + [EndArray] == OpenEvents(o, EndPredicate(d))
  {
    var s, p := SubjectEvents(o, d.subject.value, d.members), PredicateEvents(d.pred.value, d.objects);
    OneMoreMember(o, d.subject.value, d.members, d.pred.value, d.objects);
    RegroupTail(GraphLevel(o, d), s, p, [EndArray], s + (p + [EndArray]));
  }

  lemma EndSubjectEvents(o: Options, d: Open)
    requires Nested(d) && d.subject.Some? && d.pred.None?
    ensures Nested(EndSubject(o, d)) && OpenEvents(o, d) + [EndObject] == OpenEvents(o, EndSubject(o, d))
  {
    var node, s := SubjectNode(o, d.subject.value, d.members), SubjectEvents(o, d.subject.value, d.members);
    ClosedSubject(o, d.subject.value, d.members);
    Associate(GraphLevel(o, d), s, [EndObject]);
    if d.graph.value.DefaultGraph? {
      OneMoreTopNode(o, d.top, node);
    } else {
      var g := d.graph.value.name;
      OneMoreGraphNode(o, g, d.graphNodes, node);
      Associate(TopEvents(o, d.top), GraphEvents(o, g, d.graphNodes), Events(node));
    }
  }

  lemma EndGraphEvents(o: Options, d: Open)
    requires Nested(d) && d.graph.Some? && d.subject.None?
    ensures Nested(EndGraph(o, d))
    ensures d.graph.value.DefaultGraph? ==> OpenEvents(o, d) == OpenEvents(o, EndGraph(o, d))
    ensures d.graph.value.NamedGraph? ==> OpenEvents(o, d) + [EndArray, EndObject] == OpenEvents(o, EndGraph(o, d))
  {
    if d.graph.value.NamedGraph? {
      var g := d.graph.value.name;
      ClosedGraph(o, g, d.graphNodes);
      Associate(TopEvents(o, d.top), GraphEvents(o, g, d.graphNodes), [EndArray, EndObject]);
      OneMoreTopNode(o, d.top, GraphNode(o, g, d.graphNodes));
    }
  }

  lemma AddObjectEvents(o: Options, d: Open, j: Json)
    requires Nested(d) && d.pred.Some?
    ensures OpenEvents(o, d) + Events(j) == OpenEvents(o, d.(objects := d.objects + [j]))
  {
    OneMoreObject(d.pred.value, d.objects, j);
    Associate(SubjectLevel(o, d), PredicateEvents(d.pred.value, d.objects), Events(j));
  }

  lemma HeaderAndFooter(context: seq<Event>, nodes: seq<Event>)
    ensures var key, graph := ObjectKey("@context"), ObjectKey("@graph");
            ([StartObject, key] + context + [graph]) + [StartArray] + nodes + [EndArray, EndObject]
              == [StartObject] + ([key] + context + [graph] + ([StartArray] + nodes + [EndArray])) + [EndObject]
  {
  }

  lemma DocumentWithHeader(o: Options, nodes: seq<Json>)
    requires HasHeader(o)
    ensures TopEvents(o, nodes) + FooterEvents(o) == Events(Document(o, nodes))
  {
    var context, graph := Member("@context", JObject(ContextMembers(o))), Member("@graph", JArray(nodes));
    TwoMemberEvents(context, graph);
    assert Events(graph.value) == [StartArray] + ItemEvents(nodes) + [EndArray];
    assert Events(Document(o, nodes)) == [StartObject] + MemberEvents([context, graph]) + [EndObject];
    HeaderAndFooter(Events(context.value), ItemEvents(nodes));
  }

  lemma DocumentEvents(o: Options, d: Open)
    requires Nested(d) && d.graph.None?
    ensures OpenEvents(o, d) + FooterEvents(o) == Events(Document(o, d.top))
  {
    if HasHeader(o) {
      DocumentWithHeader(o, d.top);
    } else {
      assert [] + [StartArray] == [StartArray];
    }
  }
}
