/**
 Runs in which quads are refused. The events of a refused quad are dropped, but the state variables
 have moved to its scopes, and from then on may differ from what is open in the output. Every run is
 covered: when its output is a document at all, what a reader gets from it, and when names repeat.
 */
module JsonLdRefusal {
  import opened Sequences
  import opened JsonEvents
  import opened JsonLdTerms
  import opened JsonLdReader
  import opened JsonLdDocument
  import opened JsonLdReadBack
  import opened JsonLdRuns
  import opened JsonLdVariables
  import opened JsonLdShelf
  import opened JsonLdPlaces

  // --- conditions on the quads alone ----------------------------------------------------------------------

  function Level(g: GraphName): nat { if g.NamedGraph? then 1 else 0 }

  /**
   With `depth` graphs open in the output and `g` in `current_graph_name`: no graph is ended that is
   not open, and none is left open. Only graph names and which quads are refused matter.
   */
  predicate Balanced(depth: nat, g: GraphName, quads: seq<Quad>)
    decreases |quads|
  {
    if quads == [] then depth == Level(g)
    else
      var q := quads[0];
      if q.graph == g then Balanced(depth, g, quads[1..])
      else if !Supported(q) then Balanced(depth, q.graph, quads[1..])
      else Level(g) <= depth && Balanced(depth - Level(g) + Level(q.graph), q.graph, quads[1..])
  }

  /** The open graphs, node object and predicate of the output, and the names the node object has. */
  datatype Place = Place(graphs: seq<NamedOrBlank>, subj: NamedOrBlank, pred: string, names: set<string>)

  /** Where the object of an accepted quad is written, by the variables `v`, when `p` is open. */
  function Landing(p: Place, v: Vars, q: Quad): Place {
    match MoveFor(v, q)
    case NewGraph =>
      Place((if v.graph.NamedGraph? && p.graphs != [] then Front(p.graphs) else p.graphs)
            + (if q.graph.NamedGraph? then [q.graph.name] else []), q.subj, q.pred, {q.pred})
    case NewNode => Place(p.graphs, q.subj, q.pred, {q.pred})
    case NewPredicate => Place(p.graphs, p.subj, q.pred, p.names + {q.pred})
    case Continue => p
  }

  function LandedQuad(p: Place, t: Term): Quad { Quad(p.subj, p.pred, t, GraphOf(p.graphs)) }

  /** The accepted quads, each with the graph, subject and predicate its object is written under. */
  function LandedQuads(p: Place, v: Vars, quads: seq<Quad>): seq<Quad>
    decreases |quads|
  {
    if quads == [] then []
    else if !Supported(quads[0]) then LandedQuads(p, NextVars(v, quads[0]), quads[1..])
    else
      var p' := Landing(p, v, quads[0]);
      [LandedQuad(p', quads[0].obj)] + LandedQuads(p', NextVars(v, quads[0]), quads[1..])
  }

  /** No predicate is begun under a name that the open node object already has. */
  predicate NamesDistinct(p: Place, v: Vars, quads: seq<Quad>)
    decreases |quads|
  {
    if quads == [] then true
    else if !Supported(quads[0]) then NamesDistinct(p, NextVars(v, quads[0]), quads[1..])
    else
      && (MoveFor(v, quads[0]).NewPredicate? ==> quads[0].pred !in p.names)
      && NamesDistinct(Landing(p, v, quads[0]), NextVars(v, quads[0]), quads[1..])
  }

  function Accepted(quads: seq<Quad>): seq<Quad> {
    if quads == [] then [] else (if Supported(quads[0]) then [quads[0]] else []) + Accepted(quads[1..])
  }

  // --- one state of the output to the next ----------------------------------------------------------------

  function Graphs(sh: Shelf): seq<NamedOrBlank> {
    seq(|sh.frames|, i requires 0 <= i < |sh.frames| => sh.frames[i].name)
  }

  function PlaceOf(w: Written): Place { Place(Graphs(w.shelf), w.subj, w.pred, Names(w)) }

  lemma PutGraphs(sh: Shelf, node: Json)
    ensures Graphs(Put(sh, node)) == Graphs(sh) && GraphOf(Graphs(sh)) == Innermost(sh)
  {
  }

  lemma PopGraphs(o: Options, sh: Shelf)
    requires sh.frames != []
    ensures Graphs(Pop(o, sh)) == Front(Graphs(sh))
  {
    var f, rest := Last(sh.frames), sh.(frames := Front(sh.frames));
    PutGraphs(rest, GraphNode(o, f.name, f.nodes));
  }

  lemma EndedGraphs(o: Options, w: Written, g: GraphName)
    requires !Overruns(w, g)
    ensures Graphs(Ended(o, w, g)) == if g.NamedGraph? then Front(Graphs(w.shelf)) else Graphs(w.shelf)
  {
    PutGraphs(w.shelf, NodeOf(o, w));
    if g.NamedGraph? {
      PopGraphs(o, Closed(o, w));
    }
  }

  lemma FollowPlace(o: Options, w: Written, v: Vars, q: Quad)
    requires MoveFor(v, q).NewGraph? ==> !Overruns(w, v.graph)
    ensures PlaceOf(Follow(o, w, v, q)) == Landing(PlaceOf(w), v, q)
    ensures Landed(Follow(o, w, v, q), q.obj) == LandedQuad(Landing(PlaceOf(w), v, q), q.obj)
  {
    PutGraphs(Follow(o, w, v, q).shelf, JNull);
    match MoveFor(v, q)
    case NewGraph =>
      EndedGraphs(o, w, v.graph);
      PushGraphs(Ended(o, w, v.graph), q.graph);
      OpenedPlace(o, Push(Ended(o, w, v.graph), q.graph), q);
    case NewNode =>
      PutGraphs(w.shelf, NodeOf(o, w));
      OpenedPlace(o, Closed(o, w), q);
    case NewPredicate => OneMoreName(w.members, Member(w.pred, JArray(w.objects)));
    case Continue =>
  }

  lemma PushGraphs(sh: Shelf, g: GraphName)
    ensures Graphs(Push(sh, g)) == Graphs(sh) + if g.NamedGraph? then [g.name] else []
  {
  }

  lemma OpenedPlace(o: Options, sh: Shelf, q: Quad)
    ensures PlaceOf(Opened(o, sh, q)) == Place(Graphs(sh), q.subj, q.pred, {q.pred})
  {
    assert MemberKeys([]) == {} && {} + {q.pred} == {q.pred};
  }

  lemma FollowDepth(o: Options, w: Written, v: Vars, q: Quad)
    requires MoveFor(v, q).NewGraph? ==> !Overruns(w, v.graph)
    ensures |Follow(o, w, v, q).shelf.frames|
         == if v.graph == q.graph then |w.shelf.frames| else |w.shelf.frames| - Level(v.graph) + Level(q.graph)
  {
  }

  /** The nodes of the finished document. */
  function FinalTop(o: Options, w: Written, v: Vars, quads: seq<Quad>): seq<Json>
    requires Balanced(|w.shelf.frames|, v.graph, quads)
    decreases |quads|
  {
    if quads == [] then Ended(o, w, v.graph).top
    else if !Supported(quads[0]) then FinalTop(o, w, NextVars(v, quads[0]), quads[1..])
    else
      FollowDepth(o, w, v, quads[0]);
      FinalTop(o, Follow(o, w, v, quads[0]), NextVars(v, quads[0]), quads[1..])
  }

  /** An accepted quad: the rest of the run goes on from the next state of output and variables. */
  lemma AcceptedStep(o: Options, w: Written, v: Vars, quads: seq<Quad>)
    requires quads != [] && Supported(quads[0]) && Balanced(|w.shelf.frames|, v.graph, quads)
    ensures MoveFor(v, quads[0]).NewGraph? ==> !Overruns(w, v.graph)
    ensures var w', v' := Follow(o, w, v, quads[0]), NextVars(v, quads[0]);
            && Balanced(|w'.shelf.frames|, v'.graph, quads[1..])
            && FinalTop(o, w, v, quads) == FinalTop(o, w', v', quads[1..])
            && LandedQuads(PlaceOf(w), v, quads)
                 == [Landed(w', quads[0].obj)] + LandedQuads(PlaceOf(w'), v', quads[1..])
            && (NamesDistinct(PlaceOf(w), v, quads) <==>
                (MoveFor(v, quads[0]).NewPredicate? ==> quads[0].pred !in Names(w))
                && NamesDistinct(PlaceOf(w'), v', quads[1..]))
  {
    FollowDepth(o, w, v, quads[0]);
    FollowPlace(o, w, v, quads[0]);
  }

  /** A refused quad changes the variables alone. */
  lemma RefusedStep(o: Options, w: Written, v: Vars, quads: seq<Quad>)
    requires quads != [] && !Supported(quads[0]) && Balanced(|w.shelf.frames|, v.graph, quads)
    ensures var v' := NextVars(v, quads[0]);
            && Balanced(|w.shelf.frames|, v'.graph, quads[1..])
            && FinalTop(o, w, v, quads) == FinalTop(o, w, v', quads[1..])
            && LandedQuads(PlaceOf(w), v, quads) == LandedQuads(PlaceOf(w), v', quads[1..])
            && (NamesDistinct(PlaceOf(w), v, quads) <==> NamesDistinct(PlaceOf(w), v', quads[1..]))
  {
  }

  lemma ShelfDocument(o: Options, sh: Shelf)
    requires sh.frames == []
    ensures ShelfEvents(o, sh) + FooterEvents(o) == Events(Document(o, sh.top))
  {
    DocumentEvents(o, NothingWritten.(top := sh.top));
    assert TopEvents(o, sh.top) + [] == TopEvents(o, sh.top);
  }

  lemma {:induction false} FinalEvents(o: Options, w: Written, v: Vars, quads: seq<Quad>)
    requires Balanced(|w.shelf.frames|, v.graph, quads)
    ensures WrittenEvents(o, w) + VarsOutput(o, v, quads) == Events(Document(o, FinalTop(o, w, v, quads)))
    decreases |quads|
  {
    if quads == [] {
      EndedEvents(o, w, v.graph);
      Associate(WrittenEvents(o, w), NodeEnd + GraphEnd(v.graph), FooterEvents(o));
      ShelfDocument(o, Ended(o, w, v.graph));
    } else if !Supported(quads[0]) {
      RefusedStep(o, w, v, quads);
      FinalEvents(o, w, NextVars(v, quads[0]), quads[1..]);
      assert VarsOutput(o, v, quads) == VarsOutput(o, NextVars(v, quads[0]), quads[1..]);
    } else {
      var buffer := MoveBuffer(o, v, quads[0]) + Events(TermJson(o, quads[0].obj));
      AcceptedStep(o, w, v, quads);
      FollowEvents(o, w, v, quads[0]);
      FinalEvents(o, Follow(o, w, v, quads[0]), NextVars(v, quads[0]), quads[1..]);
      Associate(WrittenEvents(o, w), buffer, VarsOutput(o, NextVars(v, quads[0]), quads[1..]));
    }
  }

  lemma WellFormedFirst(q: Quad, quads: seq<Quad>)
    requires WellFormed(q) && AllWellFormed(quads)
    ensures AllWellFormed([q] + quads)
  {
  }

  lemma WellFormedRest(quads: seq<Quad>)
    requires AllWellFormed(quads) && quads != []
    ensures WellFormed(quads[0]) && AllWellFormed(quads[1..])
  {
  }

  lemma {:induction false} LandedWellFormed(o: Options, w: Written, v: Vars, quads: seq<Quad>)
    requires Sound(w) && AllWellFormed(quads) && Balanced(|w.shelf.frames|, v.graph, quads)
    ensures AllWellFormed(LandedQuads(PlaceOf(w), v, quads))
    decreases |quads|
  {
    if quads != [] {
      var q, v', rest := quads[0], NextVars(v, quads[0]), quads[1..];
      WellFormedRest(quads);
      if !Supported(q) {
        RefusedStep(o, w, v, quads);
        LandedWellFormed(o, w, v', rest);
      } else {
        AcceptedStep(o, w, v, quads);
        var w' := Follow(o, w, v, q);
        FollowSound(o, w, v, q);
        LandedWellFormed(o, w', v', rest);
        WellFormedFirst(Landed(w', q.obj), LandedQuads(PlaceOf(w'), v', rest));
      }
    }
  }

  lemma RereadFirst(o: Options, c: Context, before: seq<Quad>, q: Quad, quads: seq<Quad>)
    requires WellFormed(q) && AllWellFormed(quads) && AllWellFormed([q] + quads)
    ensures (before + [RereadQuad(o, c, q)]) + RereadQuads(o, c, quads) == before + RereadQuads(o, c, [q] + quads)
  {
    RereadCons(o, c, q, quads);
    Associate(before, [RereadQuad(o, c, q)], RereadQuads(o, c, quads));
  }

  lemma RereadAt(o: Options, c: Context, quads: seq<Quad>, i: nat)
    requires AllWellFormed(quads) && i < |quads|
    ensures WellFormed(quads[i]) && |RereadQuads(o, c, quads)| == |quads|
    ensures RereadQuads(o, c, quads)[i] == RereadQuad(o, c, quads[i])
  {
  }

  lemma RereadCons(o: Options, c: Context, q: Quad, quads: seq<Quad>)
    requires WellFormed(q) && AllWellFormed(quads) && AllWellFormed([q] + quads)
    ensures RereadQuads(o, c, [q] + quads) == [RereadQuad(o, c, q)] + RereadQuads(o, c, quads)
  {
    var all := [q] + quads;
    var whole, others := RereadQuads(o, c, all), RereadQuads(o, c, quads);
    RereadAt(o, c, all, 0);
    forall i | 0 <= i < |quads| ensures whole[i + 1] == others[i] {
      RereadAt(o, c, all, i + 1);
      RereadAt(o, c, quads, i);
      assert all[i + 1] == quads[i];
    }
    HeadAndTail(whole, RereadQuad(o, c, q), others);
  }

  lemma NothingReread(o: Options, c: Context, before: seq<Quad>)
    ensures before + RereadQuads(o, c, []) == before
  {
  }

  /** A reader of the finished document gets the quads written so far and then the landed ones. */
  lemma {:induction false} FinalQuads(o: Options, c: Context, w: Written, v: Vars, quads: seq<Quad>)
    requires Sound(w) && AllWellFormed(quads) && Balanced(|w.shelf.frames|, v.graph, quads)
    ensures AllWellFormed(LandedQuads(PlaceOf(w), v, quads))
    ensures ReadNodes(c, DefaultGraph, FinalTop(o, w, v, quads))
         == WrittenQuads(o, c, w) + RereadQuads(o, c, LandedQuads(PlaceOf(w), v, quads))
    decreases |quads|
  {
    LandedWellFormed(o, w, v, quads);
    if quads == [] {
      EndedTop(o, c, w, v.graph);
      NothingReread(o, c, WrittenQuads(o, c, w));
    } else {
      var q, v', rest := quads[0], NextVars(v, quads[0]), quads[1..];
      WellFormedRest(quads);
      if !Supported(q) {
        RefusedStep(o, w, v, quads);
        FinalQuads(o, c, w, v', rest);
      } else {
        AcceptedStep(o, w, v, quads);
        var w' := Follow(o, w, v, q);
        FollowQuads(o, c, w, v, q);
        FinalQuads(o, c, w', v', rest);
        RereadFirst(o, c, WrittenQuads(o, c, w), Landed(w', q.obj), LandedQuads(PlaceOf(w'), v', rest));
      }
    }
  }

  lemma EndedTop(o: Options, c: Context, w: Written, g: GraphName)
    requires Sound(w) && |w.shelf.frames| == Level(g)
    ensures ReadNodes(c, DefaultGraph, Ended(o, w, g).top) == WrittenQuads(o, c, w)
  {
    EndedQuads(o, c, w, g);
    var top := ReadNodes(c, DefaultGraph, Ended(o, w, g).top);
    assert top + [] == top;
  }

  lemma {:induction false} FinalUnique(o: Options, w: Written, v: Vars, quads: seq<Quad>)
    requires Sound(w) && AllWellFormed(quads) && Balanced(|w.shelf.frames|, v.graph, quads)
    ensures AllUnique(FinalTop(o, w, v, quads)) <==> WrittenUnique(w) && NamesDistinct(PlaceOf(w), v, quads)
    decreases |quads|
  {
    if quads == [] {
      EndedUnique(o, w, v.graph);
    } else {
      var q, v', rest := quads[0], NextVars(v, quads[0]), quads[1..];
      WellFormedRest(quads);
      if !Supported(q) {
        RefusedStep(o, w, v, quads);
        FinalUnique(o, w, v', rest);
      } else {
        AcceptedStep(o, w, v, quads);
        FollowSound(o, w, v, q);
        FollowUnique(o, w, v, q);
        FinalUnique(o, Follow(o, w, v, q), v', rest);
      }
    }
  }

  // --- outputs that are no document -----------------------------------------------------------------------

  ghost predicate IsDocument(events: seq<Event>) { exists j :: events == Events(j) }

  lemma TooLong(j: Json, more: seq<Event>)
    requires more != []
    ensures !IsDocument(Events(j) + more)
  {
    forall j' | Events(j) + more == Events(j') ensures false {
      assert Events(j') + [] == Events(j');
      EventsPrefixFree(j, j', more, []);
    }
  }

  lemma TooShort(j: Json, events: seq<Event>, more: seq<Event>)
    requires more != [] && events + more == Events(j)
    ensures !IsDocument(events)
  {
    forall j' | events == Events(j') ensures false {
      assert Events(j) + [] == Events(j);
      EventsPrefixFree(j', j, more, []);
    }
  }

  /** Ending a graph at the top level ends the document, and what follows is too much. */
  lemma Overrun(o: Options, w: Written, rest: seq<Event>)
    requires w.shelf.frames == [] && rest != []
    ensures !IsDocument(WrittenEvents(o, w) + (NodeEnd + NodeEnd + rest))
  {
    var sh := Closed(o, w);
    var top, doc := TopEvents(o, sh.top), Document(o, sh.top);
    ClosedEvents(o, w);
    ShelfDocument(o, sh);
    assert ShelfEvents(o, sh) == top + [] == top;
    Associate(WrittenEvents(o, w), NodeEnd, NodeEnd + rest);
    assert NodeEnd + NodeEnd + rest == NodeEnd + (NodeEnd + rest);
    if HasHeader(o) {
      Associate(top, NodeEnd, rest);
      TooLong(doc, rest);
    } else {
      assert NodeEnd + rest == [EndArray] + ([EndObject] + rest);
      Associate(top, [EndArray], [EndObject] + rest);
      TooLong(doc, [EndObject] + rest);
    }
  }

  function Closers(n: nat): seq<Event> { if n == 0 then [] else NodeEnd + Closers(n - 1) }

  /** Closing every graph that is open would give a document. */
  lemma {:induction false} ClosersEvents(o: Options, sh: Shelf) returns (j: Json)
    ensures ShelfEvents(o, sh) + (Closers(|sh.frames|) + FooterEvents(o)) == Events(j)
    decreases |sh.frames|
  {
    if sh.frames == [] {
      ShelfDocument(o, sh);
      assert [] + FooterEvents(o) == FooterEvents(o);
      j := Document(o, sh.top);
    } else {
      var n := |sh.frames| - 1;
      PopEvents(o, sh);
      assert |Pop(o, sh).frames| == n;
      j := ClosersEvents(o, Pop(o, sh));
      Associate(NodeEnd, Closers(n), FooterEvents(o));
      Associate(ShelfEvents(o, sh), NodeEnd, Closers(n) + FooterEvents(o));
    }
  }

  lemma Unclosed(o: Options, sh: Shelf)
    requires sh.frames != []
    ensures !IsDocument(ShelfEvents(o, sh) + FooterEvents(o))
  {
    var n, footer := |sh.frames| - 1, FooterEvents(o);
    var j := ClosersEvents(o, sh);
    var more := if HasHeader(o) then Closers(n) + footer else [EndObject] + (Closers(n) + footer);
    assert |footer| > 0;
    assert Closers(n + 1) + footer == footer + more by { Associate(NodeEnd, Closers(n), footer); }
    Associate(ShelfEvents(o, sh), footer, more);
    TooShort(j, ShelfEvents(o, sh) + footer, more);
  }

  lemma OutputNonEmpty(o: Options, v: Vars, quads: seq<Quad>)
    ensures VarsOutput(o, v, quads) != []
    decreases |quads|
  {
    if quads != [] {
      OutputNonEmpty(o, NextVars(v, quads[0]), quads[1..]);
    }
  }

  lemma {:induction false} UnbalancedFinish(o: Options, w: Written, g: GraphName)
    requires |w.shelf.frames| != Level(g)
    ensures !IsDocument(WrittenEvents(o, w) + (NodeEnd + GraphEnd(g) + FooterEvents(o)))
  {
    if Overruns(w, g) {
      Overrun(o, w, FooterEvents(o));
    } else {
      EndedEvents(o, w, g);
      Associate(WrittenEvents(o, w), NodeEnd + GraphEnd(g), FooterEvents(o));
      Unclosed(o, Ended(o, w, g));
    }
  }

  /** The output is then no document, whatever the rest of the run. */
  lemma {:induction false} Unbalanced(o: Options, w: Written, v: Vars, quads: seq<Quad>)
    requires !Balanced(|w.shelf.frames|, v.graph, quads)
    ensures !IsDocument(WrittenEvents(o, w) + VarsOutput(o, v, quads))
    decreases |quads|
  {
    var e := WrittenEvents(o, w);
    if quads == [] {
      UnbalancedFinish(o, w, v.graph);
    } else {
      var q, v' := quads[0], NextVars(v, quads[0]);
      var rest := VarsOutput(o, v', quads[1..]);
      if !Supported(q) {
        Unbalanced(o, w, v', quads[1..]);
        assert [] + rest == rest;
      } else {
        var value := Events(TermJson(o, q.obj));
        if MoveFor(v, q).NewGraph? && Overruns(w, v.graph) {
          OutputNonEmpty(o, v', quads[1..]);
          var start := GraphStart(o, q.graph) + NodeStart(o, q);
          NewGraphOverrun(v.graph, GraphStart(o, q.graph), NodeStart(o, q), value, rest);
          Overrun(o, w, start + value + rest);
        } else {
          FollowDepth(o, w, v, q);
          FollowEvents(o, w, v, q);
          Unbalanced(o, Follow(o, w, v, q), v', quads[1..]);
          Associate(e, MoveBuffer(o, v, q) + value, rest);
        }
      }
    }
  }

  lemma NewGraphOverrun(g: GraphName, start: seq<Event>, node: seq<Event>, value: seq<Event>, rest: seq<Event>)
    requires g.NamedGraph?
    ensures (NodeEnd + GraphEnd(g) + start + node) + value + rest == NodeEnd + NodeEnd + (start + node + value + rest)
  {
    Associate(NodeEnd + NodeEnd, start, node);
    Associate(NodeEnd + NodeEnd, start + node, value);
    Associate(NodeEnd + NodeEnd, start + node + value, rest);
  }
}
