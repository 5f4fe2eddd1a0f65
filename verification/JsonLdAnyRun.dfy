/** The main results about runs in which some quads are refused, from the first quad to `finish`. */
module JsonLdAnyRun {
  import opened Wrappers
  import opened Sequences
  import opened JsonEvents
  import opened JsonLdTerms
  import opened JsonLdReader
  import opened JsonLdDocument
  import opened JsonLdReadBack
  import opened JsonLdStep
  import opened JsonLdRuns
  import opened JsonLdVariables
  import opened JsonLdShelf
  import opened JsonLdPlaces
  import opened JsonLdRefusal
  import opened JsonLdRoundTrip

  function FirstVars(q: Quad): Vars { Vars(q.graph, q.subj, q.pred, {}) }

  function FirstPlace(q: Quad): Place {
    Place(if q.graph.NamedGraph? then [q.graph.name] else [], q.subj, q.pred, {q.pred})
  }

  function FirstWritten(o: Options, q: Quad): Written { Opened(o, Push(Shelf([], []), q.graph), q) }

  /** The first quad is accepted, and the graphs ended and begun after it match those open in the output. */
  predicate RunBalanced(quads: seq<Quad>) {
    quads == [] || (Supported(quads[0]) && Balanced(Level(quads[0].graph), quads[0].graph, quads[1..]))
  }

  /** The accepted quads, each as it has landed; the first one lands where it should. */
  function RunLanded(quads: seq<Quad>): seq<Quad> {
    if quads == [] then [] else [quads[0]] + LandedQuads(FirstPlace(quads[0]), FirstVars(quads[0]), quads[1..])
  }

  predicate RunNamesDistinct(quads: seq<Quad>) {
    quads == [] || NamesDistinct(FirstPlace(quads[0]), FirstVars(quads[0]), quads[1..])
  }

  function RunDocument(o: Options, quads: seq<Quad>): Json
    requires RunBalanced(quads)
  {
    Document(o, if quads == [] then [] else FinalTop(o, FirstWritten(o, quads[0]), FirstVars(quads[0]), quads[1..]))
  }

  // --- the first quad -------------------------------------------------------------------------------------

  lemma FirstQuad(o: Options, q: Quad)
    requires WellFormed(q)
    ensures Underway(NextState(o, NothingWritten, q)) && VarsOf(NextState(o, NothingWritten, q)) == FirstVars(q)
    ensures PlaceOf(FirstWritten(o, q)) == FirstPlace(q)
  {
    assert MemberKeys([]) == {};
    StepUnique(o, NothingWritten, q);
    PushGraphs(Shelf([], []), q.graph);
    OpenedPlace(o, Push(Shelf([], []), q.graph), q);
  }

  lemma FirstEvents(o: Options, q: Quad)
    ensures StartBuffer(o, false) + StepBuffer(o, NothingWritten, q) == WrittenEvents(o, FirstWritten(o, q))
  {
    var start, value := OpenEvents(o, NothingWritten), Events(TermJson(o, q.obj));
    var graph, node := GraphStart(o, q.graph), NodeStart(o, q);
    var empty := Shelf([], []);
    assert ShelfEvents(o, empty) == start + [] == start;
    PushEvents(o, empty, q.graph);
    OpenedEvents(o, Push(empty, q.graph), q);
    assert StepBuffer(o, NothingWritten, q) == graph + node + value by {
      Associate(graph, IdEvents(o, q.subj), [ObjectKey(q.pred), StartArray]);
      assert [] + (graph + node) == graph + node;
    }
    Associate(start, graph + node, value);
    Associate(start, graph, node);
  }

  lemma FirstSound(o: Options, c: Context, q: Quad)
    requires WellFormed(q) && Supported(q)
    ensures Sound(FirstWritten(o, q)) && WrittenQuads(o, c, FirstWritten(o, q)) == [RereadQuad(o, c, q)]
    ensures WrittenUnique(FirstWritten(o, q)) && |FirstWritten(o, q).shelf.frames| == Level(q.graph)
  {
    var empty := Shelf([], []);
    assert ShelfQuads(o, c, empty) == [];
    PushQuads(o, c, empty, q.graph);
    OpenedQuads(o, c, Push(empty, q.graph), q);
    assert Landed(FirstWritten(o, q), q.obj) == q;
    PushUnique(empty, q.graph);
    assert MemberKeys([]) == {};
  }

  lemma AcceptedFirst(o: Options, quads: seq<Quad>)
    requires quads != [] && AllWellFormed(quads) && Supported(quads[0])
    ensures RunOutput(o, quads)
         == WrittenEvents(o, FirstWritten(o, quads[0])) + VarsOutput(o, FirstVars(quads[0]), quads[1..])
  {
    WellFormedRest(quads);
    FirstQuad(o, quads[0]);
    FirstEvents(o, quads[0]);
    RestIsVars(o, NextState(o, NothingWritten, quads[0]), quads[1..]);
  }

  lemma EmptyRun(o: Options)
    ensures RunOutput(o, []) == Events(Document(o, []))
  {
    DocumentEvents(o, NothingWritten);
    assert [] + FooterEvents(o) == FooterEvents(o);
  }

  // --- refused first --------------------------------------------------------------------------------------

  lemma {:induction false} NoStart(o: Options, v: Vars, quads: seq<Quad>)
    ensures !IsDocument(VarsOutput(o, v, quads))
    decreases |quads|
  {
    var e := VarsOutput(o, v, quads);
    if quads == [] {
      StartsWithEnd(e);
    } else {
      var q, v' := quads[0], NextVars(v, quads[0]);
      var rest := VarsOutput(o, v', quads[1..]);
      if !Supported(q) {
        NoStart(o, v', quads[1..]);
        assert [] + rest == rest;
      } else if MoveFor(v, q).Continue? {
        OutputNonEmpty(o, v', quads[1..]);
        assert [] + Events(TermJson(o, q.obj)) == Events(TermJson(o, q.obj));
        TooLong(TermJson(o, q.obj), rest);
      } else {
        StartsWithEnd(e);
      }
    }
  }

  lemma StartsWithEnd(events: seq<Event>)
    requires events != [] && events[0] == EndArray
    ensures !IsDocument(events)
  {
    forall j | events == Events(j) ensures false {
      FirstEventOpensValue(j);
    }
  }

  /**
   If the first quad is refused, the start of the document is never written: whatever quads follow,
   the output of the run is not a JSON document.
   */
  lemma RefusedFirstQuad(o: Options, quads: seq<Quad>)
    requires quads != [] && AllWellFormed(quads) && !Supported(quads[0])
    ensures !IsDocument(RunOutput(o, quads))
  {
    WellFormedRest(quads);
    FirstQuad(o, quads[0]);
    var rest := RestOutput(o, true, NextState(o, NothingWritten, quads[0]), quads[1..]);
    RestIsVars(o, NextState(o, NothingWritten, quads[0]), quads[1..]);
    assert RunOutput(o, quads) == [] + rest == rest;
    NoStart(o, FirstVars(quads[0]), quads[1..]);
  }

  // --- every run ------------------------------------------------------------------------------------------

  /** The output of a run is a JSON document exactly when the run is balanced. */
  lemma RunIsDocument(o: Options, quads: seq<Quad>)
    requires AllWellFormed(quads)
    ensures IsDocument(RunOutput(o, quads)) <==> RunBalanced(quads)
    ensures RunBalanced(quads) ==> RunOutput(o, quads) == Events(RunDocument(o, quads))
  {
    if quads == [] {
      EmptyRun(o);
    } else if !Supported(quads[0]) {
      RefusedFirstQuad(o, quads);
    } else {
      var q, w := quads[0], FirstWritten(o, quads[0]);
      WellFormedRest(quads);
      AcceptedFirst(o, quads);
      FirstSound(o, EmptyContext, q);
      if RunBalanced(quads) {
        FinalEvents(o, w, FirstVars(q), quads[1..]);
      } else {
        Unbalanced(o, w, FirstVars(q), quads[1..]);
      }
    }
  }

  lemma LandedRunWellFormed(quads: seq<Quad>)
    requires AllWellFormed(quads) && RunBalanced(quads)
    ensures AllWellFormed(RunLanded(quads))
  {
    if quads != [] {
      var o := Options([], None, _ => None);
      WellFormedRest(quads);
      FirstSound(o, EmptyContext, quads[0]);
      FirstQuad(o, quads[0]);
      LandedWellFormed(o, FirstWritten(o, quads[0]), FirstVars(quads[0]), quads[1..]);
      WellFormedFirst(quads[0], LandedQuads(FirstPlace(quads[0]), FirstVars(quads[0]), quads[1..]));
    }
  }

  /**
   Under every context, a reader gets the accepted quads where they have landed, in order. Where an object
   of the document repeats a name, this is a reader that takes all members of that name.
   */
  lemma RunReads(o: Options, c: Context, quads: seq<Quad>)
    requires AllWellFormed(quads) && RunBalanced(quads)
    ensures AllWellFormed(RunLanded(quads))
    ensures ReadDocument(c, RunDocument(o, quads)) == RereadQuads(o, c, RunLanded(quads))
  {
    LandedRunWellFormed(quads);
    var doc := RunDocument(o, quads);
    if quads == [] {
      DocumentQuads(o, c, NothingWritten);
      assert ReadNodes(c, DefaultGraph, []) == [];
    } else {
      var q, w, v := quads[0], FirstWritten(o, quads[0]), FirstVars(quads[0]);
      WellFormedRest(quads);
      FirstSound(o, c, q);
      FirstQuad(o, q);
      FinalQuads(o, c, w, v, quads[1..]);
      DocumentReads(o, c, FinalTop(o, w, v, quads[1..]));
      RereadFirst(o, c, [], q, LandedQuads(FirstPlace(q), v, quads[1..]));
      assert [] + [RereadQuad(o, c, q)] == [RereadQuad(o, c, q)];
      assert [] + RereadQuads(o, c, RunLanded(quads)) == RereadQuads(o, c, RunLanded(quads));
    }
  }

  lemma DocumentReads(o: Options, c: Context, top: seq<Json>)
    ensures ReadDocument(c, Document(o, top)) == ReadNodes(c, DefaultGraph, top)
  {
    var d := NothingWritten.(top := top);
    DocumentQuads(o, c, d);
    var nodes := ReadNodes(c, DefaultGraph, top);
    assert ReadNodes(c, DefaultGraph, []) == [] && nodes + [] == nodes;
  }

  /** No object repeats a name exactly when the header repeats none and no predicate is begun twice. */
  lemma RunNames(o: Options, quads: seq<Quad>)
    requires ValidOptions(o) && AllWellFormed(quads) && RunBalanced(quads)
    ensures UniqueKeys(RunDocument(o, quads)) <==> !HeaderRepeatsName(o) && RunNamesDistinct(quads)
  {
    if quads == [] {
      DocumentUnique(o, []);
    } else {
      var q, w, v := quads[0], FirstWritten(o, quads[0]), FirstVars(quads[0]);
      WellFormedRest(quads);
      FirstSound(o, EmptyContext, q);
      FirstQuad(o, q);
      FinalUnique(o, w, v, quads[1..]);
      DocumentUnique(o, FinalTop(o, w, v, quads[1..]));
    }
  }

  // --- harmless refusals ----------------------------------------------------------------------------------

  /** Every refused quad has the graph, subject and predicate that the variables name already. */
  predicate Harmless(v: Vars, quads: seq<Quad>)
    decreases |quads|
  {
    quads == [] ||
    ((Supported(quads[0]) || MoveFor(v, quads[0]).Continue?) && Harmless(NextVars(v, quads[0]), quads[1..]))
  }

  predicate Agree(p: Place, v: Vars) {
    && p.graphs == (if v.graph.NamedGraph? then [v.graph.name] else [])
    && p.subj == v.subj && p.pred == v.pred && p.names == v.emitted + {v.pred}
  }

  lemma {:induction false} HarmlessFrom(p: Place, v: Vars, quads: seq<Quad>)
    requires Agree(p, v) && Harmless(v, quads)
    ensures Balanced(Level(v.graph), v.graph, quads)
    ensures LandedQuads(p, v, quads) == Accepted(quads) && NamesDistinct(p, v, quads)
    decreases |quads|
  {
    if quads != [] {
      var q, v' := quads[0], NextVars(v, quads[0]);
      if Supported(q) {
        HarmlessFrom(Landing(p, v, q), v', quads[1..]);
        assert LandedQuad(Landing(p, v, q), q.obj) == q;
      } else {
        HarmlessFrom(p, v', quads[1..]);
      }
    }
  }

  /** Such refusals leave no trace: one document, the accepted quads, no repeated name. So without refusals. */
  lemma HarmlessRun(quads: seq<Quad>)
    requires quads != [] ==> Supported(quads[0]) && Harmless(FirstVars(quads[0]), quads[1..])
    ensures RunBalanced(quads) && RunLanded(quads) == Accepted(quads) && RunNamesDistinct(quads)
  {
    if quads != [] {
      HarmlessFrom(FirstPlace(quads[0]), FirstVars(quads[0]), quads[1..]);
    }
  }

  // --- what a plain reader gets ---------------------------------------------------------------------------

  /**
   Without base and prefixes, the output of a run can be read as exactly the accepted quads if and
   only if the run is balanced and every accepted quad has landed in its own place.
   */
  lemma PlainRun(o: Options, quads: seq<Quad>)
    requires o.base.None? && o.prefixes == [] && AllWellFormed(quads)
    ensures (exists j :: RunOutput(o, quads) == Events(j) && ReadDocument(EmptyContext, j) == Accepted(quads))
       <==> RunBalanced(quads) && RunLanded(quads) == Accepted(quads)
  {
    RunIsDocument(o, quads);
    if RunBalanced(quads) {
      PlainReading(o, quads);
      forall j | RunOutput(o, quads) == Events(j) ensures j == RunDocument(o, quads) {
        assert Events(j) + [] == Events(RunDocument(o, quads)) + [];
        EventsPrefixFree(j, RunDocument(o, quads), [], []);
      }
      assert RunOutput(o, quads) == Events(RunDocument(o, quads));
    }
  }

  lemma PlainReading(o: Options, quads: seq<Quad>)
    requires o.base.None? && AllWellFormed(quads) && RunBalanced(quads)
    ensures ReadDocument(EmptyContext, RunDocument(o, quads)) == RunLanded(quads)
  {
    RunReads(o, EmptyContext, quads);
    var landed := RunLanded(quads);
    var back := RereadQuads(o, EmptyContext, landed);
    forall i | 0 <= i < |landed| ensures back[i] == landed[i] {
      EmptyContextMisreadsNothing(o, landed[i]);
      QuadReadBack(o, EmptyContext, landed[i]);
    }
  }

  // --- inputs on which refusals do harm -------------------------------------------------------------------

  /** `refused` and `b` have the same graph, subject and predicate; `a` differs from them in the subject only. */
  predicate OtherSubject(a: Quad, refused: Quad, b: Quad) {
    && Supported(a) && !Supported(refused) && Supported(b)
    && refused == b.(obj := TripleTerm) && b.subj != a.subj && b.graph == a.graph && b.pred == a.pred
  }

  lemma MisplacedFrom(a: Quad, refused: Quad, b: Quad)
    requires OtherSubject(a, refused, b)
    ensures Balanced(Level(a.graph), a.graph, [refused, b])
    ensures LandedQuads(FirstPlace(a), FirstVars(a), [refused, b]) == [b.(subj := a.subj)]
    ensures Accepted([refused, b]) == [b]
  {
    assert [refused, b][1..] == [b] && [b][1..] == [];
    assert NextVars(FirstVars(a), refused) == FirstVars(b);
    assert Balanced(Level(a.graph), a.graph, [b]);
    assert LandedQuads(FirstPlace(a), FirstVars(b), [b]) == [b.(subj := a.subj)];
    assert Accepted([b]) == [b];
  }

  /** A quad is refused and the next one has its scopes: a reader gets the latter under the old subject. */
  lemma QuadMisplaced(o: Options, a: Quad, refused: Quad, b: Quad)
    requires o.base.None? && OtherSubject(a, refused, b) && WellFormed(a) && WellFormed(b)
    ensures AllWellFormed([a, refused, b]) && RunBalanced([a, refused, b]) && Accepted([a, refused, b]) == [a, b]
    ensures ReadDocument(EmptyContext, RunDocument(o, [a, refused, b])) == [a, b.(subj := a.subj)] != [a, b]
  {
    var quads := [a, refused, b];
    assert quads[1..] == [refused, b];
    MisplacedFrom(a, refused, b);
    assert RunLanded(quads) == [a, b.(subj := a.subj)];
    assert [a, b.(subj := a.subj)][1] != [a, b][1];
    PlainReading(o, quads);
  }

  lemma QuadMisplacedWitness(o: Options)
    requires o.base.None? && o.prefixes == []
    ensures var a := Quad(Blank("a"), "p:x", Text("1"), DefaultGraph);
            var b := Quad(Blank("b"), "p:x", Text("2"), DefaultGraph);
            ReadAs(o, [a, b.(obj := TripleTerm), b], [a, Quad(Blank("a"), "p:x", Text("2"), DefaultGraph)])
  {
    var a, b := Quad(Blank("a"), "p:x", Text("1"), DefaultGraph), Quad(Blank("b"), "p:x", Text("2"), DefaultGraph);
    var quads := [a, b.(obj := TripleTerm), b];
    TwoPredicates();
    assert "a" != "b" by { assert "a"[0] != "b"[0]; }
    QuadMisplaced(o, a, b.(obj := TripleTerm), b);
    RunIsDocument(o, quads);
  }

  /** The output of the run is a document that a reader without context reads as the given quads. */
  ghost predicate ReadAs(o: Options, quads: seq<Quad>, read: seq<Quad>) {
    AllWellFormed(quads) && exists j :: RunOutput(o, quads) == Events(j) && ReadDocument(EmptyContext, j) == read
  }

  function Text(s: string): Term { LiteralTerm(Simple(s)) }

  lemma TwoPredicates()
    ensures IsAbsoluteIri("p:x") && IsAbsoluteIri("q:x") && "p:x" != "q:x"
  {
    SplitAtColon("p", "x");
    SplitAtColon("q", "x");
    assert "p" + ":" + "x" == "p:x" && "q" + ":" + "x" == "q:x";
    assert "p:x"[0] != "q:x"[0];
  }

  /** A last quad is refused whose graph is of the other kind: the output is too long or too short. */
  lemma EndMismatched(o: Options, a: Quad, refused: Quad)
    requires WellFormed(a) && WellFormed(refused) && Supported(a) && !Supported(refused)
    requires a.graph.NamedGraph? != refused.graph.NamedGraph?
    ensures AllWellFormed([a, refused]) && !IsDocument(RunOutput(o, [a, refused]))
  {
    var quads := [a, refused];
    assert quads[1..] == [refused] && [refused][1..] == [];
    assert !Balanced(Level(a.graph), refused.graph, []);
    RunIsDocument(o, quads);
  }

  /** A refused repetition of a predicate makes the serializer forget the names it has written. */
  lemma NameRepeated(o: Options, p: Quad, q: Quad, refused: Quad)
    requires ValidOptions(o) && WellFormed(p) && WellFormed(q) && Supported(p) && Supported(q)
    requires p.graph == q.graph && p.subj == q.subj && p.pred != q.pred && refused == p.(obj := TripleTerm)
    ensures AllWellFormed([p, q, refused, q]) && RunBalanced([p, q, refused, q])
    ensures !UniqueKeys(RunDocument(o, [p, q, refused, q]))
  {
    var quads := [p, q, refused, q];
    assert quads[1..] == [q, refused, q];
    RepeatedFrom(p, q, refused);
    RunNames(o, quads);
  }

  lemma RepeatedFrom(p: Quad, q: Quad, refused: Quad)
    requires Supported(p) && Supported(q)
    requires p.graph == q.graph && p.subj == q.subj && p.pred != q.pred && refused == p.(obj := TripleTerm)
    ensures Balanced(Level(p.graph), p.graph, [q, refused, q])
    ensures !NamesDistinct(FirstPlace(p), FirstVars(p), [q, refused, q])
  {
    var n, g := Level(p.graph), p.graph;
    assert [q, refused, q][1..] == [refused, q] && [refused, q][1..] == [q] && [q][1..] == [];
    assert Balanced(n, g, [q]) && Balanced(n, g, [refused, q]);
    var v1, p1 := NextVars(FirstVars(p), q), Landing(FirstPlace(p), FirstVars(p), q);
    assert NextVars(v1, refused) == FirstVars(p) && q.pred in p1.names;
    assert !NamesDistinct(p1, FirstVars(p), [q]) && !NamesDistinct(p1, v1, [refused, q]);
  }
}
