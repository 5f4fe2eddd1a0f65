/**
 One quad's effect on an unfinished document, as values: which scopes close, which open, and the
 events for both. Every step keeps the scopes nested, keeps names unique and adds exactly one quad
 to what a reader gets.
 */
module JsonLdStep {
  import opened Wrappers
  import opened Sequences
  import opened JsonEvents
  import opened JsonLdTerms
  import opened JsonLdReader
  import opened JsonLdDocument
  import opened JsonLdReadBack
  import opened JsonLdContext

  /** Between quads either nothing is open below the top level, or all scopes down to a predicate are. */
  predicate BetweenQuads(d: Open) {
    Nested(d) && (d.graph.None? || d.pred.Some?)
  }

  predicate SameScopes(d: Open, q: Quad) {
    d.graph == Some(q.graph) && d.subject == Some(q.subj) && d.pred == Some(q.pred)
  }

  /** The node object must be closed: another subject, or a name this object already has. */
  predicate LeavesSubject(d: Open, q: Quad)
    requires d.subject.Some? && d.pred.Some?
  {
    d.subject.value != q.subj || (d.pred.value != q.pred && q.pred in MemberKeys(d.members))
  }

  function CloseAll(o: Options, d: Open): Open
    requires BetweenQuads(d) && d.graph.Some?
  {
    EndGraph(o, EndSubject(o, EndPredicate(d)))
  }

  function CloseAllBuffer(d: Open): seq<Event>
    requires d.graph.Some?
  {
    [EndArray, EndObject] + if d.graph.value.NamedGraph? then [EndArray, EndObject] else []
  }

  function Close(o: Options, d: Open, q: Quad): Open
    requires BetweenQuads(d)
  {
    if d.graph.None? then d
    else if d.graph.value != q.graph then CloseAll(o, d)
    else if LeavesSubject(d, q) then EndSubject(o, EndPredicate(d))
    else if d.pred.value != q.pred then EndPredicate(d)
    else d
  }

  function CloseBuffer(d: Open, q: Quad): seq<Event>
    requires BetweenQuads(d)
  {
    if d.graph.None? then []
    else if d.graph.value != q.graph then CloseAllBuffer(d)
    else if LeavesSubject(d, q) then [EndArray, EndObject]
    else if d.pred.value != q.pred then [EndArray]
    else []
  }

  /** Each scope is closed, or is the one the quad needs; a predicate scope can be opened freely. */
  predicate ReadyFor(d: Open, q: Quad) {
    && Nested(d)
    && (d.graph.None? || d.graph == Some(q.graph))
    && (d.subject.None? || d.subject == Some(q.subj))
    && (d.pred.None? || d.pred == Some(q.pred))
    && (d.pred.None? ==> q.pred !in MemberKeys(d.members))
  }

  function Begin(d: Open, q: Quad): Open {
    d.(graph := Some(q.graph), subject := Some(q.subj), pred := Some(q.pred))
  }

  function BeginBuffer(o: Options, d: Open, q: Quad): seq<Event> {
    (if d.graph.None? && q.graph.NamedGraph? then IdEvents(o, q.graph.name) + [ObjectKey("@graph"), StartArray] else [])
    + (if d.subject.None? then IdEvents(o, q.subj) else [])
    + (if d.pred.None? then [ObjectKey(q.pred), StartArray] else [])
  }

  /** The scopes after a quad, without its object: all that a refused quad leaves behind. */
  function Moved(o: Options, d: Open, q: Quad): Open
    requires BetweenQuads(d)
  {
    Begin(Close(o, d, q), q)
  }

  function Step(o: Options, d: Open, q: Quad): Open
    requires BetweenQuads(d)
  {
    var d' := Moved(o, d, q);
    d'.(objects := d'.objects + [TermJson(o, q.obj)])
  }

  /** What the state variables describe after `serialize_quad`, accepted or not. */
  function NextState(o: Options, d: Open, q: Quad): Open
    requires BetweenQuads(d)
  {
    if Supported(q) then Step(o, d, q) else Moved(o, d, q)
  }

  function StepBuffer(o: Options, d: Open, q: Quad): seq<Event>
    requires BetweenQuads(d)
  {
    CloseBuffer(d, q) + BeginBuffer(o, Close(o, d, q), q) + Events(TermJson(o, q.obj))
  }

  /** The closed nodes are as before: the quad goes on with the open node object. */
  predicate SameNode(d: Open, d': Open) { d'.top == d.top && d'.graphNodes == d.graphNodes }

  /**
   Quads are grouped: a quad goes on with the open node object exactly if graph and subject are the same
   and its predicate is the current one or new to the object; and with the open array exactly if its
   predicate is then the current one.
   */
  lemma QuadsAreGrouped(o: Options, d: Open, q: Quad)
    requires BetweenQuads(d) && d.graph.Some?
    ensures SameNode(d, Step(o, d, q))
       <==> && d.graph.value == q.graph && d.subject.value == q.subj
            && (d.pred.value == q.pred || forall i | 0 <= i < |d.members| :: d.members[i].key != q.pred)
    ensures SameNode(d, Step(o, d, q)) && Step(o, d, q).members == d.members <==> SameScopes(d, q)
  {
    assert forall t: seq<Json>, j: Json :: |t + [j]| == |t| + 1;
  }

  // --- closing ------------------------------------------------------------------------------------

  lemma EndNodeEvents(o: Options, d: Open)
    requires BetweenQuads(d) && d.graph.Some?
    ensures var d2 := EndSubject(o, EndPredicate(d));
            Nested(d2) && OpenEvents(o, d) + [EndArray, EndObject] == OpenEvents(o, d2)
  {
    EndPredicateEvents(o, d);
    EndSubjectEvents(o, EndPredicate(d));
    Associate(OpenEvents(o, d), [EndArray], [EndObject]);
    assert [EndArray] + [EndObject] == [EndArray, EndObject];
  }

  lemma CloseAllEvents(o: Options, d: Open)
    requires BetweenQuads(d) && d.graph.Some?
    ensures Nested(CloseAll(o, d)) && OpenEvents(o, d) + CloseAllBuffer(d) == OpenEvents(o, CloseAll(o, d))
  {
    EndNodeEvents(o, d);
    EndGraphEvents(o, EndSubject(o, EndPredicate(d)));
    Associate(OpenEvents(o, d), [EndArray, EndObject], [EndArray, EndObject]);
  }

  lemma CloseEvents(o: Options, d: Open, q: Quad)
    requires BetweenQuads(d)
    ensures Nested(Close(o, d, q))
    ensures OpenEvents(o, d) + CloseBuffer(d, q) == OpenEvents(o, Close(o, d, q))
  {
    if d.graph.Some? {
      if d.graph.value != q.graph {
        CloseAllEvents(o, d);
      } else if LeavesSubject(d, q) {
        EndNodeEvents(o, d);
      } else if d.pred.value != q.pred {
        EndPredicateEvents(o, d);
      }
    }
  }

  lemma EndNodeQuads(o: Options, c: Context, d: Open)
    requires BetweenQuads(d) && d.graph.Some?
    ensures var d2 := EndSubject(o, EndPredicate(d));
            Nested(d2) && OpenQuads(o, c, d2) == OpenQuads(o, c, d)
  {
    EndPredicateQuads(o, c, d);
    EndSubjectQuads(o, c, EndPredicate(d));
  }

  lemma CloseAllQuads(o: Options, c: Context, d: Open)
    requires BetweenQuads(d) && d.graph.Some?
    ensures Nested(CloseAll(o, d)) && OpenQuads(o, c, CloseAll(o, d)) == OpenQuads(o, c, d)
  {
    EndNodeQuads(o, c, d);
    EndGraphQuads(o, c, EndSubject(o, EndPredicate(d)));
  }

  lemma CloseQuads(o: Options, c: Context, d: Open, q: Quad)
    requires BetweenQuads(d)
    ensures Nested(Close(o, d, q))
    ensures OpenQuads(o, c, Close(o, d, q)) == OpenQuads(o, c, d)
  {
    if d.graph.Some? {
      if d.graph.value != q.graph {
        CloseAllQuads(o, c, d);
      } else if LeavesSubject(d, q) {
        EndNodeQuads(o, c, d);
      } else if d.pred.value != q.pred {
        EndPredicateQuads(o, c, d);
      }
    }
  }

  lemma EndNodeUnique(o: Options, d: Open)
    requires BetweenQuads(d) && UniqueSoFar(d) && d.graph.Some?
    ensures UniqueSoFar(EndSubject(o, EndPredicate(d)))
    ensures Nested(EndSubject(o, EndPredicate(d))) && MemberKeys(EndSubject(o, EndPredicate(d)).members) == {}
  {
    EndPredicateUnique(d);
    EndSubjectUnique(o, EndPredicate(d));
    assert MemberKeys([]) == {};
  }

  lemma CloseAllUnique(o: Options, d: Open)
    requires BetweenQuads(d) && UniqueSoFar(d) && d.graph.Some?
    ensures UniqueSoFar(CloseAll(o, d))
    ensures Nested(CloseAll(o, d)) && MemberKeys(CloseAll(o, d).members) == {}
  {
    EndNodeUnique(o, d);
    EndGraphUnique(o, EndSubject(o, EndPredicate(d)));
  }

  lemma CloseUnique(o: Options, d: Open, q: Quad)
    requires BetweenQuads(d) && UniqueSoFar(d)
    ensures UniqueSoFar(Close(o, d, q)) && ReadyFor(Close(o, d, q), q)
  {
    if d.graph.Some? {
      if d.graph.value != q.graph {
        CloseAllUnique(o, d);
      } else if LeavesSubject(d, q) {
        EndNodeUnique(o, d);
      } else if d.pred.value != q.pred {
        EndPredicateUnique(d);
      }
    } else {
      assert MemberKeys(d.members) == {};
    }
  }

  // --- opening ------------------------------------------------------------------------------------

  lemma BeginGraphEvents(o: Options, d: Open, g: GraphName)
    requires Nested(d) && d.graph.None?
    ensures OpenEvents(o, d) + (if g.NamedGraph? then IdEvents(o, g.name) + [ObjectKey("@graph"), StartArray] else [])
         == OpenEvents(o, d.(graph := Some(g)))
  {
    if g.NamedGraph? {
      var open := IdEvents(o, g.name) + [ObjectKey("@graph"), StartArray];
      assert ItemEvents([]) == [] && open + [] == open;
    }
  }

  lemma BeginSubjectEvents(o: Options, d: Open, s: NamedOrBlank)
    requires Nested(d) && d.subject.None?
    ensures OpenEvents(o, d) + IdEvents(o, s) == OpenEvents(o, d.(subject := Some(s)))
  {
    assert MemberEvents([]) == [] && IdEvents(o, s) + [] == IdEvents(o, s);
  }

  lemma BeginPredicateEvents(o: Options, d: Open, p: string)
    requires Nested(d) && d.pred.None?
    ensures OpenEvents(o, d) + [ObjectKey(p), StartArray] == OpenEvents(o, d.(pred := Some(p)))
  {
    assert ItemEvents([]) == [] && [ObjectKey(p), StartArray] + [] == [ObjectKey(p), StartArray];
  }

  lemma BeginEvents(o: Options, d: Open, q: Quad)
    requires ReadyFor(d, q) && WellFormed(q)
    ensures Nested(Begin(d, q))
    ensures OpenEvents(o, d) + BeginBuffer(o, d, q) == OpenEvents(o, Begin(d, q))
  {
    var e, d1 := OpenEvents(o, d), d.(graph := Some(q.graph));
    var d2 := d1.(subject := Some(q.subj));
    var open := d.graph.None? && q.graph.NamedGraph?;
    var b1 := if open then IdEvents(o, q.graph.name) + [ObjectKey("@graph"), StartArray] else [];
    var b2 := if d.subject.None? then IdEvents(o, q.subj) else [];
    var b3 := if d.pred.None? then [ObjectKey(q.pred), StartArray] else [];
    if d.graph.None? { BeginGraphEvents(o, d, q.graph); }
    assert e + b1 == OpenEvents(o, d1);
    if d.subject.None? { BeginSubjectEvents(o, d1, q.subj); }
    assert OpenEvents(o, d1) + b2 == OpenEvents(o, d2);
    if d.pred.None? { BeginPredicateEvents(o, d2, q.pred); }
    assert OpenEvents(o, d2) + b3 == OpenEvents(o, Begin(d, q));
    Associate(e, b1, b2);
    Associate(e, b1 + b2, b3);
  }

  lemma BeginQuads(o: Options, c: Context, d: Open, q: Quad)
    requires ReadyFor(d, q) && WellFormed(q)
    ensures Nested(Begin(d, q))
    ensures OpenQuads(o, c, Begin(d, q)) == OpenQuads(o, c, d)
  {
    var d' := Begin(d, q);
    var g := RereadGraph(o, c, q.graph);
    if d.graph.None? {
      assert ReadNodes(c, g, []) == [] && ReadNodes(c, DefaultGraph, []) == [];
    }
  }

  // --- the step -------------------------------------------------------------------------------------

  /** After a step all scopes are open again, and names are still unique. */
  lemma StepUnique(o: Options, d: Open, q: Quad)
    requires BetweenQuads(d) && UniqueSoFar(d) && WellFormed(q)
    ensures BetweenQuads(Step(o, d, q)) && UniqueSoFar(Step(o, d, q))
    ensures BetweenQuads(Moved(o, d, q)) && UniqueSoFar(Moved(o, d, q))
  {
    CloseUnique(o, d, q);
    TermUnique(o, q.obj);
  }

  /** The events of a step extend an unfinished document to the next one. */
  lemma StepEvents(o: Options, d: Open, q: Quad)
    requires BetweenQuads(d) && UniqueSoFar(d) && WellFormed(q)
    ensures OpenEvents(o, d) + StepBuffer(o, d, q) == OpenEvents(o, Step(o, d, q))
  {
    var d1 := Close(o, d, q);
    var d2 := Begin(d1, q);
    CloseEvents(o, d, q);
    CloseUnique(o, d, q);
    BeginEvents(o, d1, q);
    AddObjectEvents(o, d2, TermJson(o, q.obj));
    Associate(OpenEvents(o, d), CloseBuffer(d, q), BeginBuffer(o, d1, q));
    Associate(OpenEvents(o, d), CloseBuffer(d, q) + BeginBuffer(o, d1, q), Events(TermJson(o, q.obj)));
  }

  /** A step adds exactly its quad to what a reader gets, whatever was open before. */
  lemma StepQuads(o: Options, c: Context, d: Open, q: Quad)
    requires BetweenQuads(d) && UniqueSoFar(d) && WellFormed(q) && Supported(q)
    ensures Nested(Step(o, d, q))
    ensures OpenQuads(o, c, Step(o, d, q)) == OpenQuads(o, c, d) + [RereadQuad(o, c, q)]
  {
    var d1 := Close(o, d, q);
    CloseQuads(o, c, d, q);
    CloseUnique(o, d, q);
    BeginQuads(o, c, d1, q);
    AddObjectQuads(o, c, Begin(d1, q), q);
  }

  // --- runs -------------------------------------------------------------------------------------------

  /** Under every context, a reader gets the quads of `history`, in order, each re-expanded. */
  ghost predicate ReadsBack(o: Options, d: Open, history: seq<Quad>) {
    && Nested(d)
    && (forall q | q in history :: WellFormed(q))
    && (forall c: Context :: OpenQuads(o, c, d) == RereadQuads(o, c, history))
  }

  lemma RereadAppend(o: Options, c: Context, history: seq<Quad>, q: Quad)
    requires (forall q | q in history :: WellFormed(q)) && WellFormed(q)
    ensures RereadQuads(o, c, history + [q]) == RereadQuads(o, c, history) + [RereadQuad(o, c, q)]
  {
  }

  lemma StepReadsBack(o: Options, d: Open, q: Quad, history: seq<Quad>)
    requires BetweenQuads(d) && UniqueSoFar(d) && WellFormed(q) && Supported(q) && ReadsBack(o, d, history)
    ensures ReadsBack(o, Step(o, d, q), history + [q])
  {
    forall c: Context
      ensures Nested(Step(o, d, q)) && OpenQuads(o, c, Step(o, d, q)) == RereadQuads(o, c, history + [q])
    {
      StepQuads(o, c, d, q);
      RereadAppend(o, c, history, q);
    }
    assert Nested(Step(o, d, q)) by { StepQuads(o, Context(map[], None, imap[]), d, q); }
  }

  /**
   What holds between quads: the output is the unfinished document `d`, its names are unique, and
   a reader gets the accepted quads from it.
   */
  ghost predicate Coherent(o: Options, started: bool, d: Open, history: seq<Quad>, output: seq<Event>) {
    && ValidOptions(o)
    && BetweenQuads(d) && UniqueSoFar(d)
    && output == (if started then OpenEvents(o, d) else [])
    && (started ==> d.graph.Some?)
    && (!started ==> d == NothingWritten)
    && ReadsBack(o, d, history)
  }

  function StartBuffer(o: Options, started: bool): seq<Event> {
    if started then [] else OpenEvents(o, NothingWritten)
  }

  /** What `serialize_quad` writes, with the start if nothing has been written; a refused quad writes nothing. */
  function Written(o: Options, started: bool, d: Open, q: Quad): seq<Event>
    requires BetweenQuads(d)
  {
    if Supported(q) then StartBuffer(o, started) + StepBuffer(o, d, q) else []
  }

  lemma OutputStep(o: Options, started: bool, d: Open, output: seq<Event>, q: Quad)
    requires BetweenQuads(d) && UniqueSoFar(d) && WellFormed(q) && Supported(q)
    requires output == (if started then OpenEvents(o, d) else []) && (!started ==> d == NothingWritten)
    ensures output + (StartBuffer(o, started) + StepBuffer(o, d, q)) == OpenEvents(o, Step(o, d, q))
  {
    var start := StartBuffer(o, started);
    assert output + start == OpenEvents(o, d);
    StepEvents(o, d, q);
    Associate(output, start, StepBuffer(o, d, q));
  }

  lemma CoherentStep(o: Options, started: bool, d: Open, history: seq<Quad>, output: seq<Event>, q: Quad)
    requires Coherent(o, started, d, history, output) && WellFormed(q) && Supported(q)
    ensures Coherent(o, true, Step(o, d, q), history + [q], output + (StartBuffer(o, started) + StepBuffer(o, d, q)))
  {
    StepUnique(o, d, q);
    StepReadsBack(o, d, q, history);
    OutputStep(o, started, d, output, q);
  }

  function FinishBuffer(d: Open): seq<Event> {
    if d.graph.Some? then CloseAllBuffer(d) else []
  }

  /** The document that closing every open scope leaves. */
  function FinishedTop(o: Options, d: Open): seq<Json>
    requires BetweenQuads(d)
  {
    if d.graph.Some? then CloseAll(o, d).top else d.top
  }

  lemma FinishEvents(o: Options, d: Open)
    requires BetweenQuads(d)
    ensures OpenEvents(o, d) + (FinishBuffer(d) + FooterEvents(o)) == Events(Document(o, FinishedTop(o, d)))
  {
    Associate(OpenEvents(o, d), FinishBuffer(d), FooterEvents(o));
    if d.graph.Some? {
      CloseAllEvents(o, d);
      DocumentEvents(o, CloseAll(o, d));
    } else {
      DocumentEvents(o, d);
    }
  }

  lemma FinishQuads(o: Options, c: Context, d: Open)
    requires BetweenQuads(d)
    ensures ReadDocument(c, Document(o, FinishedTop(o, d))) == OpenQuads(o, c, d)
  {
    if d.graph.Some? {
      CloseAllQuads(o, c, d);
      DocumentQuads(o, c, CloseAll(o, d));
    } else {
      DocumentQuads(o, c, d);
    }
  }

  lemma FinishUnique(o: Options, d: Open)
    requires ValidOptions(o) && BetweenQuads(d) && UniqueSoFar(d)
    ensures UniqueKeys(Document(o, FinishedTop(o, d))) <==> !HeaderRepeatsName(o)
  {
    if d.graph.Some? {
      CloseAllUnique(o, d);
      DocumentUnique(o, CloseAll(o, d).top);
    } else {
      DocumentUnique(o, d.top);
    }
  }

  /** Closing everything turns an unfinished document into a whole one. */
  lemma FinishDocument(o: Options, started: bool, d: Open, history: seq<Quad>, output: seq<Event>)
    returns (document: Json)
    requires Coherent(o, started, d, history, output)
    ensures output + (StartBuffer(o, started) + (FinishBuffer(d) + FooterEvents(o))) == Events(document)
    ensures Represents(o, document, history)
  {
    document := Document(o, FinishedTop(o, d));
    FinishUnique(o, d);
    FinishEvents(o, d);
    Associate(output, StartBuffer(o, started), FinishBuffer(d) + FooterEvents(o));
    assert output + StartBuffer(o, started) == OpenEvents(o, d);
    DocumentSays(o, FinishedTop(o, d));
    forall c: Context ensures ReadDocument(c, document) == RereadQuads(o, c, history) {
      FinishQuads(o, c, d);
    }
  }

  /**
   What a finished document owes its quads and options: no repeated names unless the header repeats
   one, a header that says what the options say unless a prefix is named like a keyword, and under every
   context a reader gets the quads, in order, each re-expanded.
   */
  ghost predicate Represents(o: Options, document: Json, quads: seq<Quad>) {
    && (UniqueKeys(document) <==> !HeaderRepeatsName(o))
    && (Says(ReadHeader(document), o) <==> NoKeywords(o))
    && (forall q | q in quads :: WellFormed(q))
    && (forall c: Context :: ReadDocument(c, document) == RereadQuads(o, c, quads))
  }
}
