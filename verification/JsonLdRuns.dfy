/** Runs of the serializer over any quads, supported or not: what they write, as a value. */
module JsonLdRuns {
  import opened Sequences
  import opened JsonEvents
  import opened JsonLdTerms
  import opened JsonLdDocument
  import opened JsonLdReadBack
  import opened JsonLdStep
  import opened JsonLdWriter

  ghost predicate AllWellFormed(quads: seq<Quad>) { forall i | 0 <= i < |quads| :: WellFormed(quads[i]) }

  /** What `serialize_quad` on each quad, refused ones included, and `finish` still write. */
  ghost function RestOutput(o: Options, started: bool, d: Open, quads: seq<Quad>): seq<Event>
    requires BetweenQuads(d) && UniqueSoFar(d) && AllWellFormed(quads)
    decreases |quads|
  {
    if quads == [] then StartBuffer(o, started) + (FinishBuffer(d) + FooterEvents(o))
    else
      StepUnique(o, d, quads[0]);
      Written(o, started, d, quads[0])
      + RestOutput(o, true, NextState(o, d, quads[0]), quads[1..])
  }

  /** The output of a whole run. */
  ghost function RunOutput(o: Options, quads: seq<Quad>): seq<Event>
    requires AllWellFormed(quads)
  {
    RestOutput(o, false, NothingWritten, quads)
  }

  /** Exactly the supported quads are accepted. */
  predicate Verdicts(quads: seq<Quad>, accepted: seq<bool>) {
    |accepted| == |quads| && forall i | 0 <= i < |quads| :: accepted[i] <==> Supported(quads[i])
  }

  lemma FirstVerdict(quads: seq<Quad>, first: bool, others: seq<bool>)
    requires quads != [] && (first <==> Supported(quads[0])) && Verdicts(quads[1..], others)
    ensures Verdicts(quads, [first] + others)
  {
  }

  /** A whole run over any quads: a refused one writes nothing, and the run goes on. */
  method SerializeAll(o: Options, quads: seq<Quad>) returns (events: seq<Event>, accepted: seq<bool>)
    requires ValidOptions(o) && AllWellFormed(quads)
    ensures events == RunOutput(o, quads)
    ensures Verdicts(quads, accepted)
  {
    var serializer := new Serializer(o);
    accepted := SerializeRest(serializer, quads);
    events := serializer.output;
    assert [] + RunOutput(o, quads) == RunOutput(o, quads);
  }

  /** The quads in turn, then `finish`. */
  method SerializeRest(serializer: Serializer, quads: seq<Quad>) returns (accepted: seq<bool>)
    requires serializer.Usable() && AllWellFormed(quads)
    modifies serializer
    ensures serializer.output == old(serializer.output)
      + RestOutput(serializer.options, old(serializer.started), old(serializer.doc), quads)
    ensures Verdicts(quads, accepted)
    decreases |quads|
  {
    if quads == [] {
      ghost var _ := serializer.Finish();
      return [];
    }
    ghost var output, started, d := serializer.output, serializer.started, serializer.doc;
    var first := serializer.SerializeQuad(quads[0]);
    ghost var rest := RestOutput(serializer.options, true, serializer.doc, quads[1..]);
    var others := SerializeRest(serializer, quads[1..]);
    FirstVerdict(quads, first, others);
    accepted := [first] + others;
    Associate(output, Written(serializer.options, started, d, quads[0]), rest);
  }
}
