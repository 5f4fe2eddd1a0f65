/**
 The active context that a reader makes of the `@context` it finds in a document, and when the quads
 come back under it: a condition on the serializer's options and the quads alone.
 */
module JsonLdHeader {
  import opened Wrappers
  import opened JsonEvents
  import opened JsonLdTerms
  import opened JsonLdReader
  import opened JsonLdReadBack
  import opened JsonLdContext
  import opened JsonLdStep
  import opened JsonLdRoundTrip

  function Lookup(prefixes: seq<Prefix>, name: string): Option<string> {
    if prefixes == [] then None
    else if prefixes[0].name == name then Some(prefixes[0].iri)
    else Lookup(prefixes[1..], name)
  }

  /** The header that the options ask for: the empty prefix is the vocabulary, and no term. */
  function GivenHeader(o: Options): Header {
    var names := set i | 0 <= i < |o.prefixes| :: o.prefixes[i].name;
    Header(o.base, Lookup(o.prefixes, ""),
           map n | n in names && n != "" && Lookup(o.prefixes, n).Some? :: Lookup(o.prefixes, n).value)
  }

  lemma {:induction false} LookupNames(prefixes: seq<Prefix>, name: string)
    ensures Lookup(prefixes, name).Some? <==> exists i :: 0 <= i < |prefixes| && prefixes[i].name == name
    ensures Lookup(prefixes, name).Some? ==>
              exists i ::
                0 <= i < |prefixes| && prefixes[i].name == name && prefixes[i].iri == Lookup(prefixes, name).value
    decreases |prefixes|
  {
    if prefixes != [] && prefixes[0].name != name {
      var rest := prefixes[1..];
      LookupNames(rest, name);
      if Lookup(rest, name).Some? {
        var i :| 0 <= i < |rest| && rest[i].name == name && rest[i].iri == Lookup(rest, name).value;
        assert prefixes[i + 1] == rest[i];
      }
      if i :| 0 <= i < |prefixes| && prefixes[i].name == name {
        assert rest[i - 1].name == name;
      }
    }
  }

  lemma LookupAt(o: Options, i: nat)
    requires ValidOptions(o) && i < |o.prefixes|
    ensures Lookup(o.prefixes, o.prefixes[i].name) == Some(o.prefixes[i].iri)
  {
    LookupNames(o.prefixes, o.prefixes[i].name);
    var k :| 0 <= k < |o.prefixes| && o.prefixes[k].name == o.prefixes[i].name
             && o.prefixes[k].iri == Lookup(o.prefixes, o.prefixes[i].name).value;
    assert k == i;
  }

  lemma GivenTerm(o: Options, i: nat)
    requires ValidOptions(o) && i < |o.prefixes| && o.prefixes[i].name != ""
    ensures o.prefixes[i].name in GivenHeader(o).terms
    ensures GivenHeader(o).terms[o.prefixes[i].name] == o.prefixes[i].iri
  {
    LookupAt(o, i);
  }

  /** A header that says what the options say is the given one. */
  lemma SaysGiven(o: Options, h: Header)
    requires ValidOptions(o) && Says(h, o)
    ensures h == GivenHeader(o)
  {
    var g := GivenHeader(o);
    LookupNames(o.prefixes, "");
    forall n | n in g.terms ensures n in h.terms && h.terms[n] == g.terms[n] {
      var i :| 0 <= i < |o.prefixes| && o.prefixes[i].name == n;
      LookupAt(o, i);
      assert SaysPrefix(h, o.prefixes[i]);
    }
    forall n | n in h.terms ensures n in g.terms {
      var i :| 0 <= i < |o.prefixes| && o.prefixes[i].name == n;
      GivenTerm(o, i);
    }
    assert h.terms == g.terms;
    if g.vocabulary.Some? {
      var i :| 0 <= i < |o.prefixes| && o.prefixes[i].name == "" && o.prefixes[i].iri == g.vocabulary.value;
      assert SaysPrefix(h, o.prefixes[i]);
    }
  }

  // --- processing a header --------------------------------------------------------------------------------

  /** A term may be used as a prefix if its IRI ends in a delimiter or is a blank node id. */
  predicate PrefixFlag(iri: string) {
    (iri != "" && iri[|iri| - 1] in ":/?#[]@") || StartsWith(iri, "_:")
  }

  /**
   The IRI of a term: the one in the header, unless another term is a prefix of it and allowed to be
   one. `None` is the cyclic mapping error; `todo` are the terms not being defined at the moment.
   */
  function Mapping(h: Header, name: string, todo: set<string>): Option<string>
    requires name in todo
    decreases todo
  {
    if name !in h.terms then None
    else
      var iri := h.terms[name];
      match SplitColon(iri)
      case None => Some(iri)
      case Some((p, s)) =>
        if p == "_" || StartsWith(s, "//") || p !in h.terms then Some(iri)
        else if p !in todo - {name} then None
        else
          match Mapping(h, p, todo - {name})
          case None => None
          case Some(m) => if PrefixFlag(m) then Some(m + s) else Some(iri)
  }

  predicate IsTerm(name: string) { ':' !in name && '/' !in name && !HasKeywordForm(name) }

  /** The header is processed without error: no name is a keyword or an IRI, and no mapping is cyclic. */
  predicate Processable(h: Header) {
    && (forall n | n in h.terms :: IsTerm(n) && IsAbsoluteIri(h.terms[n]) && Mapping(h, n, h.terms.Keys).Some?)
    && (h.vocabulary.Some? ==> IsAbsoluteIri(h.vocabulary.value))
  }

  function TermIri(h: Header, name: string): string
    requires Processable(h) && name in h.terms
  {
    Mapping(h, name, h.terms.Keys).value
  }

  /** What a reference is resolved to against a base, if it can be. */
  type Resolver = (string, string) -> Option<string>

  ghost function ResolvedAgainst(base: Option<string>, resolve: Resolver): imap<string, string> {
    match base
    case None => imap[]
    case Some(b) => imap reference | resolve(b, reference).Some? :: resolve(b, reference).value
  }

  /** The active context that a header makes. */
  ghost function HeaderContext(h: Header, resolve: Resolver): Context
    requires Processable(h)
  {
    Context(map n | n in h.terms :: TermDefinition(TermIri(h, n), PrefixFlag(TermIri(h, n))),
            h.vocabulary, ResolvedAgainst(h.base, resolve))
  }

  /** No prefix IRI can be read with another prefix: the usual case, as for every `http://` IRI. */
  predicate Independent(h: Header, iri: string) {
    IsAbsoluteIri(iri) && var split := SplitColon(iri).value; StartsWith(split.1, "//") || split.0 !in h.terms
  }

  /** Then the header is processed without error and every prefix stands for the IRI written. */
  lemma IndependentPrefixes(o: Options, i: nat)
    requires ValidOptions(o) && i < |o.prefixes| && o.prefixes[i].name != ""
    requires forall k | 0 <= k < |o.prefixes| :: Independent(GivenHeader(o), o.prefixes[k].iri)
    requires forall k | 0 <= k < |o.prefixes| && o.prefixes[k].name != "" :: IsTerm(o.prefixes[k].name)
    ensures var h, n := GivenHeader(o), o.prefixes[i].name;
            Processable(h) && n in h.terms && TermIri(h, n) == o.prefixes[i].iri
  {
    var h := GivenHeader(o);
    forall n | n in h.terms ensures IsTerm(n) && Independent(h, h.terms[n]) {
      var k :| 0 <= k < |o.prefixes| && o.prefixes[k].name == n;
      LookupAt(o, k);
    }
    LookupNames(o.prefixes, "");
    GivenTerm(o, i);
  }

  // --- which IRIs come back -------------------------------------------------------------------------------

  /** A prefix is named like the IRI's scheme, may be used as one, and stands for something else. */
  predicate Claimed(h: Header, iri: string)
    requires Processable(h)
  {
    match SplitColon(iri)
    case None => false
    case Some((p, s)) =>
      !StartsWith(s, "//") && p in h.terms && PrefixFlag(TermIri(h, p)) && TermIri(h, p) + s != iri
  }

  /** The id written for a node, in full or relative to the base, is taken for something else. */
  predicate ClaimedNode(o: Options, h: Header, n: NamedOrBlank)
    requires Processable(h)
  {
    n.Named? &&
    var v := IdValue(o, n);
    if v == n.iri then Claimed(h, v)
    else
      match SplitColon(v)
      case None => false
      case Some((p, s)) =>
        if p in h.terms && PrefixFlag(TermIri(h, p)) then TermIri(h, p) + s != n.iri else IsAbsoluteIri(v)
  }

  predicate ClaimedQuad(o: Options, h: Header, q: Quad)
    requires Processable(h)
  {
    || ClaimedNode(o, h, q.subj)
    || Claimed(h, q.pred)
    || (q.graph.NamedGraph? && ClaimedNode(o, h, q.graph.name))
    || (q.obj.NodeTerm? && ClaimedNode(o, h, q.obj.node))
    || (q.obj.LiteralTerm? && q.obj.literal.Typed? && Claimed(h, q.obj.literal.datatypeIri))
  }

  lemma HeaderCaptures(h: Header, resolve: Resolver, iri: string, vocab: bool)
    requires Processable(h) && IsAbsoluteIri(iri)
    ensures Captured(HeaderContext(h, resolve), iri, vocab) <==> Claimed(h, iri)
  {
    assert ':' in iri;
    assert iri !in h.terms;
  }

  lemma HeaderMisreads(o: Options, h: Header, resolve: Resolver, n: NamedOrBlank)
    requires Processable(h) && WellFormedNode(n)
    ensures Misread(o, HeaderContext(h, resolve), n) <==> ClaimedNode(o, h, n)
  {
    if n.Named? {
      HeaderCaptures(h, resolve, n.iri, false);
    }
  }

  lemma HeaderMisreadsQuad(o: Options, h: Header, resolve: Resolver, q: Quad)
    requires Processable(h) && WellFormed(q)
    ensures MisreadQuad(o, HeaderContext(h, resolve), q) <==> ClaimedQuad(o, h, q)
  {
    HeaderMisreads(o, h, resolve, q.subj);
    HeaderCaptures(h, resolve, q.pred, true);
    if q.graph.NamedGraph? { HeaderMisreads(o, h, resolve, q.graph.name); }
    match q.obj
    case NodeTerm(n) => HeaderMisreads(o, h, resolve, n);
    case LiteralTerm(Typed(_, d)) => HeaderCaptures(h, resolve, d, true);
    case _ =>
  }

  lemma ProcessableMeansNoKeywords(o: Options)
    requires ValidOptions(o) && Processable(GivenHeader(o))
    ensures NoKeywords(o)
  {
    forall i | 0 <= i < |o.prefixes| ensures !HasKeywordForm(o.prefixes[i].name) {
      if o.prefixes[i].name != "" { GivenTerm(o, i); }
    }
  }

  /** The header found in a document is the one that the options ask for. */
  lemma HeaderFound(o: Options, quads: seq<Quad>, document: Json)
    requires ValidOptions(o) && Processable(GivenHeader(o)) && Represents(o, document, quads)
    ensures ReadHeader(document) == GivenHeader(o)
  {
    ProcessableMeansNoKeywords(o);
    SaysGiven(o, ReadHeader(document));
  }

  /**
   The round trip under the serializer's own header, as found in the document: a reader gets back exactly
   the quads serialized if and only if no prefix claims an IRI written.
   */
  lemma HeaderRoundTrip(o: Options, resolve: Resolver, quads: seq<Quad>, document: Json)
    requires ValidOptions(o) && Processable(GivenHeader(o)) && Represents(o, document, quads)
    requires forall q | q in quads :: UnrelativizesQuad(o, HeaderContext(GivenHeader(o), resolve), q)
    ensures Processable(ReadHeader(document))
    ensures ReadDocument(HeaderContext(ReadHeader(document), resolve), document) == quads
       <==> forall q | q in quads :: !ClaimedQuad(o, GivenHeader(o), q)
  {
    var h := GivenHeader(o);
    HeaderFound(o, quads, document);
    RoundTrip(o, HeaderContext(h, resolve), quads, document);
    forall q | q in quads ensures MisreadQuad(o, HeaderContext(h, resolve), q) <==> ClaimedQuad(o, h, q) {
      HeaderMisreadsQuad(o, h, resolve, q);
    }
  }

  /** A prefix named like the scheme of an IRI replaces the scheme, for every such prefix and IRI. */
  lemma PrefixCapturesScheme(o: Options, h: Header, resolve: Resolver, name: string, rest: string)
    requires Processable(h) && o.base.None? && name in h.terms && PrefixFlag(TermIri(h, name))
    requires name != "_" && !StartsWith(rest, "//") && IsAbsoluteIri(name + ":" + rest)
    ensures RereadNode(o, HeaderContext(h, resolve), Named(name + ":" + rest)) == ToNodeId(TermIri(h, name) + rest)
  {
    SplitAtColon(name, rest);
    IdIsReadable(o, HeaderContext(h, resolve), Named(name + ":" + rest));
  }

  // --- an input -------------------------------------------------------------------------------------------

  lemma OnePrefix(o: Options)
    requires o.prefixes == [Prefix("u", "x:")]
    ensures var h := GivenHeader(o);
            ValidOptions(o) && h.terms == map["u" := "x:"] && Processable(h) && TermIri(h, "u") == "x:"
    ensures PrefixFlag("x:")
  {
    var h := GivenHeader(o);
    assert o.prefixes[0].name == "u" && "u" != "";
    GivenTerm(o, 0);
    assert Lookup(o.prefixes[1..], "") == None && Lookup(o.prefixes, "") == None;
    assert h.terms == map["u" := "x:"];
    SplitAtColon("x", "");
    assert "x" + ":" + "" == "x:";
    assert "x" != "u" by { assert "x"[0] != "u"[0]; }
    assert IsAbsoluteIri("x:");
    assert !HasKeywordForm("u");
    assert "x:"[1] == ':' && ':' in ":/?#[]@";
  }

  /** With the prefix `u` for `x:`, a quad about `u:a` is written and read as one about `x:a`. */
  lemma SchemeCaptured(o: Options, resolve: Resolver, document: Json)
    requires o.base.None? && o.prefixes == [Prefix("u", "x:")]
    requires Represents(o, document, [Quad(Named("u:a"), "p:x", NodeTerm(Blank("b")), DefaultGraph)])
    ensures Processable(ReadHeader(document))
    ensures ReadDocument(HeaderContext(ReadHeader(document), resolve), document)
         == [Quad(Named("x:a"), "p:x", NodeTerm(Blank("b")), DefaultGraph)]
  {
    var s, p, t := Named("u:a"), "p:x", Blank("b");
    OnePrefix(o);
    HeaderFound(o, [Quad(s, p, NodeTerm(t), DefaultGraph)], document);
    var c := HeaderContext(GivenHeader(o), resolve);
    CapturedSubject(o, resolve);
    UncapturedPredicate(o, resolve);
    BlankReadBack(o, c, "b");
    OneQuadReadBack(o, c, s, p, t, document);
  }

  lemma OneQuadReadBack(o: Options, c: Context, s: NamedOrBlank, p: string, t: NamedOrBlank, document: Json)
    requires WellFormedNode(s) && IsAbsoluteIri(p) && WellFormedNode(t)
    requires Represents(o, document, [Quad(s, p, NodeTerm(t), DefaultGraph)])
    ensures ReadDocument(c, document)
         == [Quad(RereadNode(o, c, s), RereadIri(c, p), NodeTerm(RereadNode(o, c, t)), DefaultGraph)]
  {
    var q := Quad(s, p, NodeTerm(t), DefaultGraph);
    assert RereadQuads(o, c, [q]) == [RereadQuad(o, c, q)];
  }

  lemma SubjectIri()
    ensures "u" + ":" + "a" == "u:a" && IsAbsoluteIri("u:a")
  {
    SplitAtColon("u", "a");
    assert "u" + ":" + "a" == "u:a";
  }

  lemma SubjectRead()
    ensures ToNodeId("x:" + "a") == Named("x:a")
  {
    var read := "x:" + "a";
    assert read == "x:a" && read[0] == 'x' && "_:"[0] == '_';
    assert !StartsWith(read, "_:");
  }

  lemma CapturedSubject(o: Options, resolve: Resolver)
    requires o.base.None? && o.prefixes == [Prefix("u", "x:")]
    ensures Processable(GivenHeader(o)) && IsAbsoluteIri("u:a")
    ensures RereadNode(o, HeaderContext(GivenHeader(o), resolve), Named("u:a")) == Named("x:a")
  {
    OnePrefix(o);
    SubjectIri();
    assert "u" != "_" && !StartsWith("a", "//");
    PrefixCapturesScheme(o, GivenHeader(o), resolve, "u", "a");
    SubjectRead();
  }

  lemma UncapturedPredicate(o: Options, resolve: Resolver)
    requires o.prefixes == [Prefix("u", "x:")]
    ensures Processable(GivenHeader(o)) && IsAbsoluteIri("p:x")
    ensures RereadIri(HeaderContext(GivenHeader(o), resolve), "p:x") == "p:x"
  {
    OnePrefix(o);
    SplitAtColon("p", "x");
    assert "p" + ":" + "x" == "p:x" && "p"[0] != "u"[0];
    HeaderCaptures(GivenHeader(o), resolve, "p:x", true);
    AbsoluteIriReadBack(HeaderContext(GivenHeader(o), resolve), "p:x", true, true);
  }

  lemma BlankReadBack(o: Options, c: Context, id: string)
    ensures RereadNode(o, c, Blank(id)) == Blank(id)
  {
    NodeReadBack(o, c, Blank(id));
  }
}
