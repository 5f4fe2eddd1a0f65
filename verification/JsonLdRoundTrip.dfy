/**
 Whole runs of the JSON-LD serializer: one JSON document, unique names, and the same quads back.
 */
module JsonLdRoundTrip {
  import opened Wrappers
  import opened JsonEvents
  import opened JsonLdTerms
  import opened JsonLdReader
  import opened JsonLdReadBack
  import opened JsonLdStep
  import opened JsonLdWriter

  /** `serialize_quad` on each quad in turn. */
  method SerializeQuads(o: Options, quads: seq<Quad>) returns (serializer: Serializer)
    requires ValidOptions(o)
    requires forall q | q in quads :: WellFormed(q) && Supported(q)
    ensures fresh(serializer) && serializer.Valid() && serializer.options == o && serializer.history == quads
  {
    serializer := new Serializer(o);
    for i := 0 to |quads|
      invariant fresh(serializer) && serializer.options == o && HasAccepted(serializer, quads[..i])
    {
      Accept(serializer, quads, i);
    }
    assert quads[..|quads|] == quads;
  }

  ghost predicate HasAccepted(serializer: Serializer, quads: seq<Quad>)
    reads serializer
  {
    serializer.Valid() && serializer.history == quads
  }

  method Accept(serializer: Serializer, quads: seq<Quad>, i: nat)
    requires i < |quads| && WellFormed(quads[i]) && Supported(quads[i]) && HasAccepted(serializer, quads[..i])
    modifies serializer
    ensures HasAccepted(serializer, quads[..i + 1])
  {
    assert quads[..i + 1] == quads[..i] + [quads[i]];
    serializer.SerializeSupported(quads[i]);
  }

  /** The events are those of one whole document, which `Represents` the quads. */
  ghost predicate Serializes(o: Options, quads: seq<Quad>, events: seq<Event>) {
    exists document :: events == Events(document) && Represents(o, document, quads)
  }

  /** A whole run: every quad, then `finish`. */
  method Serialize(o: Options, quads: seq<Quad>) returns (events: seq<Event>)
    requires ValidOptions(o)
    requires forall q | q in quads :: WellFormed(q) && Supported(q)
    ensures Serializes(o, quads, events)
  {
    var serializer := SerializeQuads(o, quads);
    ghost var document := serializer.Finish();
    events := serializer.output;
    assert events == Events(document) && Represents(o, document, quads);
  }

  /** The document can be told from the events alone. */
  lemma SerializedDocument(o: Options, quads: seq<Quad>, document: Json)
    requires Serializes(o, quads, Events(document))
    ensures Represents(o, document, quads)
  {
    var d :| Events(document) == Events(d) && Represents(o, d, quads);
    assert Events(document) + [] == Events(d) + [];
    EventsPrefixFree(document, d, [], []);
  }

  // --- when the quads come back unchanged -------------------------------------------------------------

  /** Resolution against the base undoes the relative form the serializer chose. */
  predicate Unrelativizes(o: Options, c: Context, n: NamedOrBlank) {
    var v := IdValue(o, n);
    n.Named? && v != n.iri ==> v in c.resolved && c.resolved[v] == n.iri
  }

  /** The context takes a written id for something else. */
  predicate Misread(o: Options, c: Context, n: NamedOrBlank) {
    n.Named? &&
    var v := IdValue(o, n);
    if v == n.iri then Captured(c, v, false)
    else
      var split := SplitColon(v);
      split.Some? &&
      if split.value.0 in c.terms && c.terms[split.value.0].prefixFlag
      then c.terms[split.value.0].iri + split.value.1 != n.iri
      else IsAbsoluteIri(v)
  }

  lemma NodeReadBack(o: Options, c: Context, n: NamedOrBlank)
    requires WellFormedNode(n) && Unrelativizes(o, c, n)
    ensures RereadNode(o, c, n) == n <==> !Misread(o, c, n)
  {
    IdIsReadable(o, c, n);
    var v := IdValue(o, n);
    if n.Named? {
      assert n.iri[0] == SplitColon(n.iri).value.0[0];
      assert !StartsWith(n.iri, "_:");
      if v == n.iri {
        AbsoluteIriReadBack(c, n.iri, true, false);
      }
    } else {
      assert v[2..] == n.id;
      SplitAtColon("_", n.id);
      assert v == "_" + ":" + n.id;
    }
  }

  lemma {:induction false} SplitAtColon(p: string, s: string)
    requires ':' !in p
    ensures SplitColon(p + ":" + s) == Some((p, s))
    decreases |p|
  {
    var whole := p + ":" + s;
    if p == "" {
      assert whole[1..] == s;
    } else {
      assert whole[1..] == p[1..] + ":" + s;
      SplitAtColon(p[1..], s);
      assert [p[0]] + p[1..] == p;
    }
  }

  /**
   The relative form of an IRI is written exactly when a reader without terms, who resolves it against
   the base, gets the IRI back from it.
   */
  lemma RelativeFormUsed(o: Options, c: Context, iri: string, relative: string)
    requires o.base.Some? && IsAbsoluteIri(iri) && o.relativize(iri) == Some(relative) && !IsAbsoluteIri(relative)
    requires c.terms == map[] && relative in c.resolved && c.resolved[relative] == iri
    ensures IdValue(o, Named(iri)) == relative <==> ExpandIri(c, relative, true, false) == Some(iri)
  {
  }

  predicate MisreadQuad(o: Options, c: Context, q: Quad) {
    || Misread(o, c, q.subj)
    || Captured(c, q.pred, true)
    || (q.graph.NamedGraph? && Misread(o, c, q.graph.name))
    || (q.obj.NodeTerm? && Misread(o, c, q.obj.node))
    || (q.obj.LiteralTerm? && q.obj.literal.Typed? && Captured(c, q.obj.literal.datatypeIri, true))
  }

  predicate UnrelativizesQuad(o: Options, c: Context, q: Quad) {
    && Unrelativizes(o, c, q.subj)
    && (q.graph.NamedGraph? ==> Unrelativizes(o, c, q.graph.name))
    && (q.obj.NodeTerm? ==> Unrelativizes(o, c, q.obj.node))
  }

  lemma QuadReadBack(o: Options, c: Context, q: Quad)
    requires WellFormed(q) && UnrelativizesQuad(o, c, q)
    ensures RereadQuad(o, c, q) == q <==> !MisreadQuad(o, c, q)
  {
    NodeReadBack(o, c, q.subj);
    AbsoluteIriReadBack(c, q.pred, true, true);
    if q.graph.NamedGraph? { NodeReadBack(o, c, q.graph.name); }
    match q.obj
    case NodeTerm(n) => NodeReadBack(o, c, n);
    case LiteralTerm(Typed(v, d)) => AbsoluteIriReadBack(c, d, true, true);
    case _ =>
  }

  /**
   The round trip: for every sequence of quads, in any interleaving, a reader of the document gets
   back that very sequence exactly when its context misreads none of the IRIs written.
   */
  lemma RoundTrip(o: Options, c: Context, quads: seq<Quad>, document: Json)
    requires Represents(o, document, quads) && forall q | q in quads :: UnrelativizesQuad(o, c, q)
    ensures ReadDocument(c, document) == quads <==> forall q | q in quads :: !MisreadQuad(o, c, q)
  {
    var back := RereadQuads(o, c, quads);
    forall i | 0 <= i < |quads| ensures back[i] == quads[i] <==> !MisreadQuad(o, c, quads[i]) {
      QuadReadBack(o, c, quads[i]);
    }
    if forall q | q in quads :: !MisreadQuad(o, c, q) {
      assert back == quads;
    } else {
      var q :| q in quads && MisreadQuad(o, c, q);
      var i :| 0 <= i < |quads| && quads[i] == q;
      assert back[i] != quads[i];
    }
  }

  const EmptyContext := Context(map[], None, imap[])

  lemma EmptyContextMisreadsNothing(o: Options, q: Quad)
    requires o.base.None?
    ensures UnrelativizesQuad(o, EmptyContext, q) && !MisreadQuad(o, EmptyContext, q)
  {
  }

  /** Without base and prefixes, names are unique and a reader gets every quad back, in order. */
  lemma PlainRoundTrip(o: Options, quads: seq<Quad>, document: Json)
    requires o.base.None? && o.prefixes == [] && Represents(o, document, quads)
    ensures UniqueKeys(document) && ReadDocument(EmptyContext, document) == quads
  {
    forall q | q in quads ensures UnrelativizesQuad(o, EmptyContext, q) && !MisreadQuad(o, EmptyContext, q) {
      EmptyContextMisreadsNothing(o, q);
    }
    RoundTrip(o, EmptyContext, quads, document);
  }
}
