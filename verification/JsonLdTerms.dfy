/**
 RDF terms and quads as the JSON-LD serializer receives them, and the strings it writes for them.
 */
module JsonLdTerms {
  import opened Wrappers

  const RDF_XSD_STRING: string := "http://www.w3.org/2001/XMLSchema#string"

  datatype Direction = Ltr | Rtl

  datatype Literal =
    | Simple(value: string)
    | LanguageTagged(value: string, language: string)
    | Directional(value: string, language: string, direction: Direction)
    | Typed(value: string, datatypeIri: string)

  datatype NamedOrBlank = Named(iri: string) | Blank(id: string)

  /** `TripleTerm` stands for the RDF 1.2 terms the serializer refuses. */
  datatype Term = NodeTerm(node: NamedOrBlank) | LiteralTerm(literal: Literal) | TripleTerm

  datatype GraphName = DefaultGraph | NamedGraph(name: NamedOrBlank)

  datatype Quad = Quad(subj: NamedOrBlank, pred: string, obj: Term, graph: GraphName)

  /**
   Serializer options. `prefixes` lists an ordered map, so its names are distinct; `relativize`
   is the IRI library's attempt to shorten an IRI against the base.
   */
  datatype Options = Options(prefixes: seq<Prefix>, base: Option<string>, relativize: string -> Option<string>)

  datatype Prefix = Prefix(name: string, iri: string)

  ghost predicate ValidOptions(o: Options) {
    forall i, j | 0 <= i < j < |o.prefixes| :: o.prefixes[i].name != o.prefixes[j].name
  }

  // --- strings ---------------------------------------------------------------------------

  predicate IsLetter(c: char) { 'a' <= c <= 'z' || 'A' <= c <= 'Z' }

  predicate IsSchemeChar(c: char) { IsLetter(c) || '0' <= c <= '9' || c in "+-." }

  /** The text before and after the first colon (`str::split_once(':')`). */
  function SplitColon(s: string): (r: Option<(string, string)>)
    ensures r.None? <==> ':' !in s
    ensures r.Some? ==> s == r.value.0 + ":" + r.value.1 && ':' !in r.value.0
  {
    if s == "" then None
    else if s[0] == ':' then Some(("", s[1..]))
    else
      match SplitColon(s[1..])
      case None => None
      case Some((p, q)) => Some(([s[0]] + p, q))
  }

  /** Starts with a URI scheme and a colon. */
  predicate IsAbsoluteIri(s: string) {
    var split := SplitColon(s);
    split.Some? && split.value.0 != "" && IsLetter(split.value.0[0])
    && forall c | c in split.value.0 :: IsSchemeChar(c)
  }

  /** `has_keyword_form`: `@` followed by one or more ASCII letters. */
  predicate HasKeywordForm(s: string) {
    |s| > 1 && s[0] == '@' && forall i | 1 <= i < |s| :: IsLetter(s[i])
  }

  predicate StartsWith(s: string, prefix: string) { prefix <= s }

  /** What the RDF library guarantees of the quads it hands over: IRIs are absolute. */
  predicate WellFormedNode(n: NamedOrBlank) { n.Named? ==> IsAbsoluteIri(n.iri) }

  predicate WellFormedTerm(t: Term) {
    match t
    case NodeTerm(n) => WellFormedNode(n)
    case LiteralTerm(Typed(_, d)) => IsAbsoluteIri(d) && d != RDF_XSD_STRING
    case _ => true
  }

  predicate WellFormed(q: Quad) {
    && WellFormedNode(q.subj)
    && IsAbsoluteIri(q.pred)
    && WellFormedTerm(q.obj)
    && (q.graph.NamedGraph? ==> WellFormedNode(q.graph.name))
  }

  predicate Supported(q: Quad) { !q.obj.TripleTerm? }

  /** `id_value`: the relative form of an IRI is used only if a reader will take it as relative. */
  function IdValue(o: Options, n: NamedOrBlank): string {
    match n
    case Blank(id) => "_:" + id
    case Named(iri) =>
      if o.base.None? then iri
      else
        match o.relativize(iri)
        case None => iri
        case Some(relative) => if TakenAsRelative(relative) then relative else iri
  }

  predicate TakenAsRelative(relative: string) {
    && (var split := SplitColon(relative);
        split.Some? ==> split.value.0 != "_" && !StartsWith(split.value.1, "//"))
    && !HasKeywordForm(relative)
  }
}
