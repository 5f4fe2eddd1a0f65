/**
 What a reader gets from a (possibly unfinished) document of the serializer, and when no object
 in it repeats a name.
 */
module JsonLdReadBack {
  import opened Wrappers
  import opened Sequences
  import opened JsonEvents
  import opened JsonLdTerms
  import opened JsonLdReader
  import opened JsonLdDocument

  // --- one quad ---------------------------------------------------------------------------------

  lemma IdIsReadable(o: Options, c: Context, n: NamedOrBlank)
    requires WellFormedNode(n)
    ensures ExpandIri(c, IdValue(o, n), true, false).Some?
  {
    if n.Named? {
      assert n.iri[0] == SplitColon(n.iri).value.0[0];
    }
  }

  /** How a reader under context `c` understands the id written for a node. */
  function RereadNode(o: Options, c: Context, n: NamedOrBlank): NamedOrBlank
    requires WellFormedNode(n)
  {
    IdIsReadable(o, c, n);
    ToNodeId(ExpandIri(c, IdValue(o, n), true, false).value)
  }

  function RereadIri(c: Context, iri: string): string
    requires IsAbsoluteIri(iri)
  {
    AbsoluteIriReadBack(c, iri, true, true);
    ExpandIri(c, iri, true, true).value
  }

  function RereadGraph(o: Options, c: Context, g: GraphName): GraphName
    requires g.NamedGraph? ==> WellFormedNode(g.name)
  {
    if g.DefaultGraph? then g else NamedGraph(RereadNode(o, c, g.name))
  }

  function RereadTerm(o: Options, c: Context, t: Term): Term
    requires WellFormedTerm(t)
  {
    match t
    case NodeTerm(n) => NodeTerm(RereadNode(o, c, n))
    case LiteralTerm(Typed(v, d)) =>
      var iri := RereadIri(c, d);
      LiteralTerm(if iri == RDF_XSD_STRING then Simple(v) else Typed(v, iri))
    case _ => t
  }

  function RereadQuad(o: Options, c: Context, q: Quad): Quad
    requires WellFormed(q)
  {
    Quad(RereadNode(o, c, q.subj), RereadIri(c, q.pred), RereadTerm(o, c, q.obj), RereadGraph(o, c, q.graph))
  }

  function RereadQuads(o: Options, c: Context, quads: seq<Quad>): seq<Quad>
    requires forall q | q in quads :: WellFormed(q)
  {
    seq(|quads|, i requires 0 <= i < |quads| => RereadQuad(o, c, quads[i]))
  }

  lemma RereadPredicate(c: Context, p: string)
    requires IsAbsoluteIri(p)
    ensures ExpandIri(c, p, false, true) == Some(RereadIri(c, p))
    ensures p != "@graph" && p != "@id" && !HasKeywordForm(p)
  {
    AbsoluteIriReadBack(c, p, false, true);
    assert p[0] == SplitColon(p).value.0[0];
  }

  lemma ObjectReadBack(o: Options, c: Context, t: Term)
    requires WellFormedTerm(t) && !t.TripleTerm?
    ensures ReadObject(c, TermJson(o, t)) == Some(RereadTerm(o, c, t))
  {
    match t
    case NodeTerm(n) => ReadIdFirst(o, c, n, []); assert [IdMember(o, n)] + [] == [IdMember(o, n)];
    case LiteralTerm(l) =>
      if l.Typed? { TypedReadBack(c, l); } else { UntypedReadBack(c, l); }
      FindNone(LiteralMembers(l), "@id");
  }

  lemma UntypedReadBack(c: Context, l: Literal)
    requires !l.Typed?
    ensures ReadLiteral(c, LiteralMembers(l)) == Some(LiteralTerm(l))
  {
    match l
    case Simple(_) => SimpleReadBack(c, l);
    case LanguageTagged(_, _) => TaggedReadBack(c, l);
    case Directional(_, _, _) => DirectionalReadBack(c, l);
  }

  lemma SimpleReadBack(c: Context, l: Literal)
    requires l.Simple?
    ensures ReadLiteral(c, LiteralMembers(l)) == Some(LiteralTerm(l))
  {
    var ms := LiteralMembers(l);
    FindIn(ms, 0);
    FindNone(ms, "@language");
    FindNone(ms, "@type");
  }

  lemma TaggedReadBack(c: Context, l: Literal)
    requires l.LanguageTagged?
    ensures ReadLiteral(c, LiteralMembers(l)) == Some(LiteralTerm(l))
  {
    var ms := LiteralMembers(l);
    FindIn(ms, 0);
    FindIn(ms, 1);
    FindNone(ms, "@direction");
  }

  lemma DirectionalReadBack(c: Context, l: Literal)
    requires l.Directional?
    ensures ReadLiteral(c, LiteralMembers(l)) == Some(LiteralTerm(l))
  {
    var ms := LiteralMembers(l);
    FindIn(ms, 0);
    FindIn(ms, 1);
    FindIn(ms, 2);
  }

  lemma TypedReadBack(c: Context, l: Literal)
    requires l.Typed? && l.datatypeIri != RDF_XSD_STRING && IsAbsoluteIri(l.datatypeIri)
    ensures ReadLiteral(c, LiteralMembers(l))
         == Some(LiteralTerm(var iri := RereadIri(c, l.datatypeIri);
                             if iri == RDF_XSD_STRING then Simple(l.value) else Typed(l.value, iri)))
  {
    var ms := LiteralMembers(l);
    FindIn(ms, 0);
    FindIn(ms, 1);
    FindNone(ms, "@language");
    AbsoluteIriReadBack(c, l.datatypeIri, true, true);
  }

  lemma FindIn(members: seq<Member>, i: nat)
    requires DistinctKeys(members) && i < |members|
    ensures Find(members, members[i].key) == Some(members[i].value)
  {
    if Find(members, members[i].key).Some? {
      var j :| 0 <= j < |members| && members[j].key == members[i].key
               && members[j].value == Find(members, members[i].key).value;
      assert i == j;
    }
  }

  lemma FindNone(members: seq<Member>, key: string)
    requires forall i | 0 <= i < |members| :: members[i].key != key
    ensures Find(members, key) == None
  {
  }

  // --- an unfinished document ----------------------------------------------------------------------

  function OpenGraphName(o: Options, c: Context, d: Open): GraphName
    requires Nested(d)
  {
    if d.graph.None? then DefaultGraph else RereadGraph(o, c, d.graph.value)
  }

  /** The quads of the closed parts of each scope, outermost scope first. */
  function OpenQuads(o: Options, c: Context, d: Open): seq<Quad>
    requires Nested(d)
  {
    if d.subject.None? then GraphQuads(o, c, d)
    else if d.pred.None? then GraphQuads(o, c, d) + SubjectQuads(o, c, d)
    else GraphQuads(o, c, d) + SubjectQuads(o, c, d) + PredicateQuads(o, c, d)
  }

  function GraphQuads(o: Options, c: Context, d: Open): seq<Quad>
    requires Nested(d)
  {
    ReadNodes(c, DefaultGraph, d.top) + ReadNodes(c, OpenGraphName(o, c, d), d.graphNodes)
  }

  function SubjectQuads(o: Options, c: Context, d: Open): seq<Quad>
    requires Nested(d) && d.subject.Some?
  {
    ReadMembers(c, OpenGraphName(o, c, d), RereadNode(o, c, d.subject.value), d.members)
  }

  function PredicateQuads(o: Options, c: Context, d: Open): seq<Quad>
    requires Nested(d) && d.pred.Some?
  {
    ReadObjects(c, OpenGraphName(o, c, d), RereadNode(o, c, d.subject.value), RereadIri(c, d.pred.value), d.objects)
  }

  lemma EndPredicateQuads(o: Options, c: Context, d: Open)
    requires Nested(d) && d.pred.Some?
    ensures Nested(EndPredicate(d)) && OpenQuads(o, c, EndPredicate(d)) == OpenQuads(o, c, d)
  {
    var m := Member(d.pred.value, JArray(d.objects));
    var g, s := OpenGraphName(o, c, d), RereadNode(o, c, d.subject.value);
    RereadPredicate(c, m.key);
    ReadMembersAppend(c, g, s, d.members, m);
    assert ReadMember(c, g, s, m) == PredicateQuads(o, c, d);
    Associate(GraphQuads(o, c, d), SubjectQuads(o, c, d), PredicateQuads(o, c, d));
  }

  lemma ReadIdFirst(o: Options, c: Context, n: NamedOrBlank, members: seq<Member>)
    requires WellFormedNode(n)
    ensures ReadId(c, [IdMember(o, n)] + members) == Some(RereadNode(o, c, n))
  {
    IdIsReadable(o, c, n);
  }

  lemma ReadMembersAfterId(c: Context, g: GraphName, s: NamedOrBlank, id: Member, members: seq<Member>)
    requires id.key == "@id"
    ensures ReadMembers(c, g, s, [id] + members) == ReadMembers(c, g, s, members)
  {
    assert ([id] + members)[1..] == members;
    assert HasKeywordForm("@id");
    assert ReadMember(c, g, s, id) == [];
  }

  lemma SubjectNodeReadBack(o: Options, c: Context, g: GraphName, n: NamedOrBlank, members: seq<Member>)
    requires WellFormedNode(n)
    ensures ReadNode(c, g, SubjectNode(o, n, members)) == ReadMembers(c, g, RereadNode(o, c, n), members)
  {
    ReadIdFirst(o, c, n, members);
    ReadMembersAfterId(c, g, RereadNode(o, c, n), IdMember(o, n), members);
  }

  lemma EndSubjectQuads(o: Options, c: Context, d: Open)
    requires Nested(d) && d.subject.Some? && d.pred.None?
    ensures Nested(EndSubject(o, d)) && OpenQuads(o, c, EndSubject(o, d)) == OpenQuads(o, c, d)
  {
    var g, node := OpenGraphName(o, c, d), SubjectNode(o, d.subject.value, d.members);
    SubjectNodeReadBack(o, c, g, d.subject.value, d.members);
    assert ReadNode(c, g, node) == SubjectQuads(o, c, d);
    if d.graph.value.DefaultGraph? {
      TopNodeQuads(c, d.top, node);
    } else {
      GraphNodeQuads(c, d.top, g, d.graphNodes, node);
    }
  }

  lemma TopNodeQuads(c: Context, top: seq<Json>, node: Json)
    ensures ReadNodes(c, DefaultGraph, top + [node]) + ReadNodes(c, DefaultGraph, [])
         == ReadNodes(c, DefaultGraph, top) + ReadNodes(c, DefaultGraph, []) + ReadNode(c, DefaultGraph, node)
  {
    ReadNodesAppend(c, DefaultGraph, top, node);
    assert ReadNodes(c, DefaultGraph, []) == [];
  }

  lemma GraphNodeQuads(c: Context, top: seq<Json>, g: GraphName, nodes: seq<Json>, node: Json)
    ensures ReadNodes(c, DefaultGraph, top) + ReadNodes(c, g, nodes + [node])
         == ReadNodes(c, DefaultGraph, top) + ReadNodes(c, g, nodes) + ReadNode(c, g, node)
  {
    ReadNodesAppend(c, g, nodes, node);
    Associate(ReadNodes(c, DefaultGraph, top), ReadNodes(c, g, nodes), ReadNode(c, g, node));
  }

  lemma EndGraphQuads(o: Options, c: Context, d: Open)
    requires Nested(d) && d.graph.Some? && d.subject.None?
    ensures Nested(EndGraph(o, d)) && OpenQuads(o, c, EndGraph(o, d)) == OpenQuads(o, c, d)
  {
    if d.graph.value.NamedGraph? {
      var n := d.graph.value.name;
      GraphNodeReadBack(o, c, DefaultGraph, n, d.graphNodes);
      ReadNodesAppend(c, DefaultGraph, d.top, GraphNode(o, n, d.graphNodes));
    }
  }

  /** A graph object is read the same way wherever it stands. */
  lemma GraphNodeReadBack(o: Options, c: Context, g: GraphName, n: NamedOrBlank, nodes: seq<Json>)
    requires WellFormedNode(n)
    ensures ReadNode(c, g, GraphNode(o, n, nodes)) == ReadNodes(c, NamedGraph(RereadNode(o, c, n)), nodes)
  {
    var s, m := RereadNode(o, c, n), Member("@graph", JArray(nodes));
    assert GraphNode(o, n, nodes).members == [IdMember(o, n)] + [m];
    ReadIdFirst(o, c, n, [m]);
    ReadMembersAfterId(c, g, s, IdMember(o, n), [m]);
    assert ReadMembers(c, g, s, [m]) == ReadMember(c, g, s, m);
  }

  lemma OneObjectReadBack(o: Options, c: Context, g: GraphName, s: NamedOrBlank, p: string, t: Term)
    requires WellFormedTerm(t) && !t.TripleTerm?
    ensures ReadObjects(c, g, s, p, [TermJson(o, t)]) == [Quad(s, p, RereadTerm(o, c, t), g)]
  {
    ObjectReadBack(o, c, t);
  }

  lemma AddObjectQuads(o: Options, c: Context, d: Open, q: Quad)
    requires Nested(d) && WellFormed(q) && Supported(q)
    requires d.graph == Some(q.graph) && d.subject == Some(q.subj) && d.pred == Some(q.pred)
    ensures OpenQuads(o, c, d.(objects := d.objects + [TermJson(o, q.obj)]))
         == OpenQuads(o, c, d) + [RereadQuad(o, c, q)]
  {
    var g, s, p := RereadGraph(o, c, q.graph), RereadNode(o, c, q.subj), RereadIri(c, q.pred);
    OneObjectReadBack(o, c, g, s, p, q.obj);
    ReadObjectsAppend(c, g, s, p, d.objects, TermJson(o, q.obj));
    Associate(GraphQuads(o, c, d) + SubjectQuads(o, c, d), PredicateQuads(o, c, d), [RereadQuad(o, c, q)]);
  }

  lemma DocumentQuads(o: Options, c: Context, d: Open)
    requires Nested(d) && d.graph.None?
    ensures ReadDocument(c, Document(o, d.top)) == OpenQuads(o, c, d)
  {
    if HasHeader(o) {
      var ms := Document(o, d.top).members;
      assert Find(ms, "@graph") == Some(ms[1].value) by { FindIn(ms, 1); }
    }
  }

  // --- unique names ----------------------------------------------------------------------------------

  ghost predicate AllUnique(items: seq<Json>) {
    forall i | 0 <= i < |items| :: UniqueKeys(items[i])
  }

  ghost predicate UniqueMembers(members: seq<Member>) {
    && DistinctKeys(members)
    && forall i | 0 <= i < |members| :: IsAbsoluteIri(members[i].key) && UniqueKeys(members[i].value)
  }

  function MemberKeys(members: seq<Member>): set<string> {
    set i | 0 <= i < |members| :: members[i].key
  }

  /** No object of the unfinished document repeats a name, nor will the open ones when closed now. */
  ghost predicate UniqueSoFar(d: Open) {
    && AllUnique(d.top) && AllUnique(d.graphNodes) && AllUnique(d.objects)
    && UniqueMembers(d.members)
    && (d.pred.Some? ==> d.pred.value !in MemberKeys(d.members))
  }

  lemma EndPredicateUnique(d: Open)
    requires Nested(d) && UniqueSoFar(d) && d.pred.Some?
    ensures UniqueSoFar(EndPredicate(d))
    ensures MemberKeys(EndPredicate(d).members) == MemberKeys(d.members) + {d.pred.value}
  {
    var d' := EndPredicate(d);
    var n := |d.members|;
    forall i | 0 <= i < n ensures d'.members[i].key in MemberKeys(d.members) {
      assert d'.members[i] == d.members[i];
    }
    assert UniqueKeys(JArray(d.objects));
    assert d'.members[n].key == d.pred.value;
    forall k | k in MemberKeys(d.members) ensures k in MemberKeys(d'.members) {
      var i :| 0 <= i < n && d.members[i].key == k;
      assert d'.members[i].key == k;
    }
  }

  lemma EndSubjectUnique(o: Options, d: Open)
    requires Nested(d) && UniqueSoFar(d) && d.subject.Some? && d.pred.None?
    ensures UniqueSoFar(EndSubject(o, d))
  {
    var id := IdMember(o, d.subject.value);
    var ms := [id] + d.members;
    forall i | 0 < i < |ms| ensures ms[i] == d.members[i - 1] && ms[i].key != "@id" {
      RereadPredicate(Context(map[], None, imap[]), ms[i].key);
    }
    assert DistinctKeys(ms);
    assert forall i | 0 <= i < |ms| :: UniqueKeys(ms[i].value);
    assert UniqueKeys(JObject(ms));
  }

  lemma EndGraphUnique(o: Options, d: Open)
    requires Nested(d) && UniqueSoFar(d) && d.graph.Some? && d.subject.None?
    ensures UniqueSoFar(EndGraph(o, d))
  {
    assert UniqueKeys(JArray(d.graphNodes));
    if d.graph.value.NamedGraph? {
      var node := GraphNode(o, d.graph.value.name, d.graphNodes);
      assert UniqueKeys(node.members[0].value) && UniqueKeys(node.members[1].value);
      assert UniqueKeys(node);
    }
  }

  lemma TermUnique(o: Options, t: Term)
    ensures UniqueKeys(TermJson(o, t))
  {
    var ms := TermJson(o, t).members;
    assert forall i | 0 <= i < |ms| :: ms[i].value.JString?;
  }

  /**
   The names a `@context` header would repeat: a prefix called `@base` beside the base, or a prefix
   called `@vocab` beside the empty prefix, which is written under that name.
   */
  predicate HeaderRepeatsName(o: Options) {
    || (o.base.Some? && HasPrefix(o, "@base"))
    || (HasPrefix(o, "") && HasPrefix(o, "@vocab"))
  }

  predicate HasPrefix(o: Options, name: string) {
    exists i :: 0 <= i < |o.prefixes| && o.prefixes[i].name == name
  }

  lemma HeaderNames(o: Options)
    requires ValidOptions(o)
    ensures DistinctKeys(ContextMembers(o)) <==> !HeaderRepeatsName(o)
  {
    if HeaderRepeatsName(o) {
      RepeatedHeaderName(o);
    } else {
      DistinctHeaderNames(o);
    }
  }

  lemma RepeatedHeaderName(o: Options)
    requires HeaderRepeatsName(o)
    ensures !DistinctKeys(ContextMembers(o))
  {
    var ms, shift := ContextMembers(o), if o.base.Some? then 1 else 0;
    if o.base.Some? && HasPrefix(o, "@base") {
      var i :| 0 <= i < |o.prefixes| && o.prefixes[i].name == "@base";
      assert ms[0].key == ms[i + 1].key;
    } else {
      var i :| 0 <= i < |o.prefixes| && o.prefixes[i].name == "";
      var j :| 0 <= j < |o.prefixes| && o.prefixes[j].name == "@vocab";
      assert ms[i + shift].key == ms[j + shift].key;
    }
  }

  lemma DistinctHeaderNames(o: Options)
    requires ValidOptions(o) && !HeaderRepeatsName(o)
    ensures DistinctKeys(ContextMembers(o))
  {
    var ms, ps := ContextMembers(o), PrefixMembers(o.prefixes);
    var shift := if o.base.Some? then 1 else 0;
    forall i, j | 0 <= i < j < |ms| ensures ms[i].key != ms[j].key {
      assert ms[j] == ps[j - shift];
      if i >= shift {
        assert ms[i] == ps[i - shift];
        assert o.prefixes[i - shift].name != o.prefixes[j - shift].name;
      }
    }
  }

  /** Nothing checks prefix names: the header of these options has two members called `@vocab`. */
  lemma HeaderCanRepeatName(o: Options)
    requires o.prefixes == [Prefix("", "http://a/"), Prefix("@vocab", "http://b/")]
    ensures ValidOptions(o) && !DistinctKeys(ContextMembers(o))
  {
    assert o.prefixes[0].name == "" && o.prefixes[1].name == "@vocab";
    assert |o.prefixes[0].name| != |o.prefixes[1].name|;
    HeaderNames(o);
  }

  lemma DocumentUnique(o: Options, top: seq<Json>)
    requires ValidOptions(o)
    ensures UniqueKeys(Document(o, top)) <==> !HeaderRepeatsName(o) && AllUnique(top)
  {
    var doc := Document(o, top);
    assert UniqueKeys(JArray(top)) <==> AllUnique(top);
    HeaderNames(o);
    if HasHeader(o) {
      assert doc.members[0].value.members == ContextMembers(o);
      assert forall i | 0 <= i < |ContextMembers(o)| :: ContextMembers(o)[i].value.JString?;
      assert UniqueKeys(doc.members[0].value) <==> DistinctKeys(ContextMembers(o));
      assert UniqueKeys(doc.members[1].value) <==> AllUnique(top);
      assert DistinctKeys(doc.members);
    } else {
      assert !HeaderRepeatsName(o);
    }
  }
}
