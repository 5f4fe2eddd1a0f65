/**
 A reading of JSON-LD documents, independent of how the serializer produces them: it looks members
 up by name, takes node objects, graph objects and value objects wherever they occur, and expands
 every IRI under a context.
 */
module JsonLdReader {
  import opened Wrappers
  import opened Sequences
  import opened JsonEvents
  import opened JsonLdTerms

  /** A term definition of the active context: its IRI, and whether it may be used as a prefix. */
  datatype TermDefinition = TermDefinition(iri: string, prefixFlag: bool)

  /**
   An active context, as left by processing `@context`. `resolved` gives what a reference is
   resolved to against the base; it has no entry where there is no base or resolution fails.
   */
  datatype Context = Context(terms: map<string, TermDefinition>, vocabulary: Option<string>,
                             resolved: imap<string, string>)

  /** IRI expansion (JSON-LD 1.1 API, section 5.2.2), for contexts whose terms stand for IRIs. */
  function ExpandIri(c: Context, value: string, documentRelative: bool, vocab: bool): Option<string> {
    if HasKeywordForm(value) then None
    else if vocab && value in c.terms then Some(c.terms[value].iri)
    else
      var split := SplitColon(value);
      if split.Some? && (split.value.0 == "_" || StartsWith(split.value.1, "//")) then Some(value)
      else if split.Some? && split.value.0 in c.terms && c.terms[split.value.0].prefixFlag then
        Some(c.terms[split.value.0].iri + split.value.1)
      else if IsAbsoluteIri(value) then Some(value)
      else if vocab && c.vocabulary.Some? then Some(c.vocabulary.value + value)
      else if documentRelative && value in c.resolved then Some(c.resolved[value])
      else Some(value)
  }

  function ToNodeId(id: string): NamedOrBlank {
    if StartsWith(id, "_:") then Blank(id[2..]) else Named(id)
  }

  function Find(members: seq<Member>, key: string): (r: Option<Json>)
    ensures r.Some? ==> exists i :: 0 <= i < |members| && members[i].key == key && members[i].value == r.value
    ensures r.None? ==> forall i | 0 <= i < |members| :: members[i].key != key
  {
    if members == [] then None
    else if members[0].key == key then Some(members[0].value)
    else
      var r := Find(members[1..], key);
      assert r.Some? ==> exists i ::
          0 <= i < |members[1..]| && members[1..][i].key == key && members[1..][i].value == r.value;
      r
  }

  function ReadId(c: Context, members: seq<Member>): Option<NamedOrBlank> {
    match Find(members, "@id")
    case Some(JString(id)) =>
      (match ExpandIri(c, id, true, false)
       case Some(iri) => Some(ToNodeId(iri))
       case None => None)
    case _ => None
  }

  function ReadLiteral(c: Context, members: seq<Member>): Option<Term> {
    match Find(members, "@value")
    case Some(JString(value)) =>
      (match Find(members, "@language")
       case Some(JString(language)) =>
         (match Find(members, "@direction")
          case Some(JString(d)) =>
            Some(LiteralTerm(Directional(value, language, if d == "ltr" then Ltr else Rtl)))
          case _ => Some(LiteralTerm(LanguageTagged(value, language))))
       case _ =>
         (match Find(members, "@type")
          case Some(JString(t)) =>
            (match ExpandIri(c, t, true, true)
             case Some(iri) => Some(LiteralTerm(if iri == RDF_XSD_STRING then Simple(value) else Typed(value, iri)))
             case None => None)
          case _ => Some(LiteralTerm(Simple(value)))))
    case _ => None
  }

  function ReadObject(c: Context, j: Json): Option<Term> {
    if !j.JObject? then None
    else
      match Find(j.members, "@id")
      case Some(_) => (match ReadId(c, j.members) case Some(n) => Some(NodeTerm(n)) case None => None)
      case None => ReadLiteral(c, j.members)
  }

  function ReadObjects(c: Context, g: GraphName, s: NamedOrBlank, p: string, items: seq<Json>): seq<Quad> {
    if items == [] then [] else ReadOne(c, g, s, p, items[0]) + ReadObjects(c, g, s, p, items[1..])
  }

  function ReadOne(c: Context, g: GraphName, s: NamedOrBlank, p: string, item: Json): seq<Quad> {
    match ReadObject(c, item)
    case Some(o) => [Quad(s, p, o, g)]
    case None => []
  }

  /** The quads of one member of a node object. */
  function ReadMember(c: Context, g: GraphName, s: NamedOrBlank, m: Member): seq<Quad>
    decreases m
  {
    if m.key == "@graph" then
      if m.value.JArray? then ReadNodes(c, NamedGraph(s), m.value.items) else []
    else
      match ExpandIri(c, m.key, false, true)
      case Some(p) => if m.value.JArray? then ReadObjects(c, g, s, p, m.value.items) else []
      case None => []
  }

  /** Every member is read, also one whose name an earlier member has; some readers keep only the last of those. */
  function ReadMembers(c: Context, g: GraphName, s: NamedOrBlank, members: seq<Member>): seq<Quad>
    decreases members
  {
    if members == [] then []
    else ReadMember(c, g, s, members[0]) + ReadMembers(c, g, s, members[1..])
  }

  function ReadNode(c: Context, g: GraphName, j: Json): seq<Quad>
    decreases j
  {
    if !j.JObject? then []
    else
      match ReadId(c, j.members)
      case Some(s) => ReadMembers(c, g, s, j.members)
      case None => []
  }

  function ReadNodes(c: Context, g: GraphName, items: seq<Json>): seq<Quad>
    decreases items
  {
    if items == [] then [] else ReadNode(c, g, items[0]) + ReadNodes(c, g, items[1..])
  }

  /** A document is an array of node objects, or an object that holds it under `@graph`. */
  function ReadDocument(c: Context, j: Json): seq<Quad> {
    match j
    case JArray(items) => ReadNodes(c, DefaultGraph, items)
    case JObject(members) =>
      (match Find(members, "@graph")
       case Some(JArray(items)) => ReadNodes(c, DefaultGraph, items)
       case _ => [])
    case _ => []
  }

  // --- reading distributes over appending --------------------------------------------------

  lemma {:induction false} ReadNodesAppend(c: Context, g: GraphName, items: seq<Json>, j: Json)
    ensures ReadNodes(c, g, items + [j]) == ReadNodes(c, g, items) + ReadNode(c, g, j)
    decreases |items|
  {
    if items == [] {
      assert ([] + [j])[1..] == [];
      assert ReadNodes(c, g, []) == [];
    } else {
      assert (items + [j])[1..] == items[1..] + [j];
      ReadNodesAppend(c, g, items[1..], j);
      Associate(ReadNode(c, g, items[0]), ReadNodes(c, g, items[1..]), ReadNode(c, g, j));
    }
  }

  lemma {:induction false} ReadMembersAppend(c: Context, g: GraphName, s: NamedOrBlank, members: seq<Member>, m: Member)
    ensures ReadMembers(c, g, s, members + [m]) == ReadMembers(c, g, s, members) + ReadMember(c, g, s, m)
    decreases |members|
  {
    if members == [] {
      assert ([] + [m])[1..] == [];
      assert ReadMembers(c, g, s, []) == [];
    } else {
      assert (members + [m])[1..] == members[1..] + [m];
      ReadMembersAppend(c, g, s, members[1..], m);
      Associate(ReadMember(c, g, s, members[0]), ReadMembers(c, g, s, members[1..]), ReadMember(c, g, s, m));
    }
  }

  lemma {:induction false} ReadObjectsAppend(c: Context, g: GraphName, s: NamedOrBlank, p: string, items: seq<Json>,
                                             j: Json)
    ensures ReadObjects(c, g, s, p, items + [j]) == ReadObjects(c, g, s, p, items) + ReadObjects(c, g, s, p, [j])
    decreases |items|
  {
    if items == [] {
      assert [] + [j] == [j];
    } else {
      assert (items + [j])[1..] == items[1..] + [j];
      ReadObjectsAppend(c, g, s, p, items[1..], j);
      Associate(ReadOne(c, g, s, p, items[0]), ReadObjects(c, g, s, p, items[1..]), ReadObjects(c, g, s, p, [j]));
    }
  }

  // --- what an absolute IRI is read as --------------------------------------------------------

  /** The context takes an IRI for something else: for one of its terms, or for a compact IRI. */
  predicate Captured(c: Context, iri: string, vocab: bool) {
    if vocab && iri in c.terms then c.terms[iri].iri != iri
    else
      var split := SplitColon(iri);
      && split.Some?
      && !StartsWith(split.value.1, "//")
      && split.value.0 in c.terms && c.terms[split.value.0].prefixFlag
      && c.terms[split.value.0].iri + split.value.1 != iri
  }

  /** An absolute IRI written in full is read back as itself exactly when nothing captures it. */
  lemma AbsoluteIriReadBack(c: Context, iri: string, documentRelative: bool, vocab: bool)
    requires IsAbsoluteIri(iri)
    ensures ExpandIri(c, iri, documentRelative, vocab) == Some(iri) <==> !Captured(c, iri, vocab)
    ensures ExpandIri(c, iri, documentRelative, vocab).Some?
  {
    var split := SplitColon(iri);
    assert iri[0] == split.value.0[0];
    assert split.value.0 != "_";
  }
}
