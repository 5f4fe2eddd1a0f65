/**
 The serializer after its first quad, seen through its four state variables alone. What a quad makes
 it write depends on them and on nothing else, so this also holds when they no longer describe the
 scopes that are open in the output.
 */
module JsonLdVariables {
  import opened Sequences
  import opened JsonEvents
  import opened JsonLdTerms
  import opened JsonLdDocument
  import opened JsonLdReadBack
  import opened JsonLdStep
  import opened JsonLdRuns

  /** `current_graph_name`, `current_subject`, `current_predicate` and `emitted_predicates`. */
  datatype Vars = Vars(graph: GraphName, subj: NamedOrBlank, pred: string, emitted: set<string>)

  /** What the next quad makes the serializer begin. */
  datatype Move = NewGraph | NewNode | NewPredicate | Continue

  function MoveFor(v: Vars, q: Quad): Move {
    if v.graph != q.graph then NewGraph
    else if v.subj != q.subj || (v.pred != q.pred && q.pred in v.emitted) then NewNode
    else if v.pred != q.pred then NewPredicate
    else Continue
  }

  /** The variables after a quad, accepted or refused. */
  function NextVars(v: Vars, q: Quad): Vars {
    match MoveFor(v, q)
    case Continue => v
    case NewPredicate => v.(pred := q.pred, emitted := v.emitted + {v.pred})
    case _ => Vars(q.graph, q.subj, q.pred, {})
  }

  const NodeEnd: seq<Event> := [EndArray, EndObject]

  function GraphEnd(g: GraphName): seq<Event> { if g.NamedGraph? then NodeEnd else [] }

  function GraphStart(o: Options, g: GraphName): seq<Event> {
    if g.NamedGraph? then IdEvents(o, g.name) + [ObjectKey("@graph"), StartArray] else []
  }

  function NodeStart(o: Options, q: Quad): seq<Event> { IdEvents(o, q.subj) + [ObjectKey(q.pred), StartArray] }

  function MoveBuffer(o: Options, v: Vars, q: Quad): seq<Event> {
    match MoveFor(v, q)
    case NewGraph => NodeEnd + GraphEnd(v.graph) + GraphStart(o, q.graph) + NodeStart(o, q)
    case NewNode => NodeEnd + NodeStart(o, q)
    case NewPredicate => [EndArray, ObjectKey(q.pred), StartArray]
    case Continue => []
  }

  /** What the quads and `finish` write from the given variables on. */
  function VarsOutput(o: Options, v: Vars, quads: seq<Quad>): seq<Event>
    decreases |quads|
  {
    if quads == [] then NodeEnd + GraphEnd(v.graph) + FooterEvents(o)
    else
      (if Supported(quads[0]) then MoveBuffer(o, v, quads[0]) + Events(TermJson(o, quads[0].obj)) else [])
      + VarsOutput(o, NextVars(v, quads[0]), quads[1..])
  }

  ghost predicate Underway(d: Open) { BetweenQuads(d) && UniqueSoFar(d) && d.graph.Some? }

  function VarsOf(d: Open): Vars
    requires BetweenQuads(d) && d.graph.Some?
  {
    Vars(d.graph.value, d.subject.value, d.pred.value, MemberKeys(d.members))
  }

  lemma CloseVars(o: Options, d: Open, q: Quad)
    requires Underway(d) && WellFormed(q)
    ensures BetweenQuads(Moved(o, d, q)) && VarsOf(Moved(o, d, q)) == NextVars(VarsOf(d), q)
  {
    StepUnique(o, d, q);
    EndPredicateUnique(d);
    assert MemberKeys([]) == {};
  }

  lemma StepIsMove(o: Options, d: Open, q: Quad)
    requires Underway(d) && WellFormed(q)
    ensures Underway(NextState(o, d, q)) && VarsOf(NextState(o, d, q)) == NextVars(VarsOf(d), q)
    ensures StepBuffer(o, d, q) == MoveBuffer(o, VarsOf(d), q) + Events(TermJson(o, q.obj))
  {
    StepUnique(o, d, q);
    CloseVars(o, d, q);
    MoveBufferMatches(o, d, q);
  }

  lemma MoveBufferMatches(o: Options, d: Open, q: Quad)
    requires Underway(d)
    ensures CloseBuffer(d, q) + BeginBuffer(o, Close(o, d, q), q) == MoveBuffer(o, VarsOf(d), q)
  {
    var start, node := GraphStart(o, q.graph), NodeStart(o, q);
    match MoveFor(VarsOf(d), q)
    case NewGraph =>
      var end := GraphEnd(d.graph.value);
      assert BeginBuffer(o, Close(o, d, q), q) == start + node by {
        Associate(start, IdEvents(o, q.subj), [ObjectKey(q.pred), StartArray]);
      }
      Associate(NodeEnd + end, start, node);
    case NewNode => assert BeginBuffer(o, Close(o, d, q), q) == [] + node;
    case NewPredicate => assert BeginBuffer(o, Close(o, d, q), q) == [] + [] + [ObjectKey(q.pred), StartArray];
    case Continue => assert BeginBuffer(o, Close(o, d, q), q) == [];
  }

  /** From the first accepted quad on, the variables determine the rest of the output. */
  lemma {:induction false} RestIsVars(o: Options, d: Open, quads: seq<Quad>)
    requires Underway(d) && AllWellFormed(quads)
    ensures RestOutput(o, true, d, quads) == VarsOutput(o, VarsOf(d), quads)
    decreases |quads|
  {
    if quads == [] {
      assert [] + (FinishBuffer(d) + FooterEvents(o)) == FinishBuffer(d) + FooterEvents(o);
    } else {
      StepIsMove(o, d, quads[0]);
      RestIsVars(o, NextState(o, d, quads[0]), quads[1..]);
      assert [] + StepBuffer(o, d, quads[0]) == StepBuffer(o, d, quads[0]);
    }
  }
}
