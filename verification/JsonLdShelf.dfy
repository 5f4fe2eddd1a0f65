/**
 What is open in the output, whatever the state variables say: any number of named graphs, one inside
 the other, and in the innermost a node object with an open predicate.
 */
module JsonLdShelf {
  import opened Sequences
  import opened JsonEvents
  import opened JsonLdTerms
  import opened JsonLdDocument
  import opened JsonLdVariables

  datatype Frame = Frame(name: NamedOrBlank, nodes: seq<Json>)

  /** The closed nodes of the top level and of each open graph, outermost first. */
  datatype Shelf = Shelf(top: seq<Json>, frames: seq<Frame>)

  datatype Written = Written(shelf: Shelf, subj: NamedOrBlank, members: seq<Member>, pred: string, objects: seq<Json>)

  function Last<T>(s: seq<T>): T
    requires s != []
  {
    s[|s| - 1]
  }

  function Front<T>(s: seq<T>): seq<T>
    requires s != []
  {
    s[..|s| - 1]
  }

  /** Puts a finished node into the innermost open graph. */
  function Put(sh: Shelf, node: Json): Shelf {
    if sh.frames == [] then sh.(top := sh.top + [node])
    else
      var f := Last(sh.frames);
      sh.(frames := Front(sh.frames) + [f.(nodes := f.nodes + [node])])
  }

  /** Closes the innermost graph. */
  function Pop(o: Options, sh: Shelf): Shelf
    requires sh.frames != []
  {
    var f := Last(sh.frames);
    Put(sh.(frames := Front(sh.frames)), GraphNode(o, f.name, f.nodes))
  }

  function Push(sh: Shelf, g: GraphName): Shelf {
    if g.NamedGraph? then sh.(frames := sh.frames + [Frame(g.name, [])]) else sh
  }

  function NodeOf(o: Options, w: Written): Json {
    SubjectNode(o, w.subj, w.members + [Member(w.pred, JArray(w.objects))])
  }

  /** The shelf once the open node object is closed. */
  function Closed(o: Options, w: Written): Shelf { Put(w.shelf, NodeOf(o, w)) }

  function Opened(o: Options, sh: Shelf, q: Quad): Written { Written(sh, q.subj, [], q.pred, [TermJson(o, q.obj)]) }

  // --- events ---------------------------------------------------------------------------------------------

  function FrameEvents(o: Options, frames: seq<Frame>): seq<Event> {
    if frames == [] then []
    else FrameEvents(o, Front(frames)) + GraphEvents(o, Last(frames).name, Last(frames).nodes)
  }

  function ShelfEvents(o: Options, sh: Shelf): seq<Event> { TopEvents(o, sh.top) + FrameEvents(o, sh.frames) }

  function WrittenEvents(o: Options, w: Written): seq<Event> {
    ShelfEvents(o, w.shelf) + SubjectEvents(o, w.subj, w.members) + PredicateEvents(w.pred, w.objects)
  }

  lemma LastFrame(o: Options, frames: seq<Frame>, f: Frame)
    ensures FrameEvents(o, frames + [f]) == FrameEvents(o, frames) + GraphEvents(o, f.name, f.nodes)
  {
    assert Front(frames + [f]) == frames;
  }

  lemma PutEvents(o: Options, sh: Shelf, node: Json)
    ensures ShelfEvents(o, sh) + Events(node) == ShelfEvents(o, Put(sh, node))
  {
    var top := TopEvents(o, sh.top);
    if sh.frames == [] {
      OneMoreTopNode(o, sh.top, node);
      assert top + [] == top && TopEvents(o, sh.top + [node]) + [] == TopEvents(o, sh.top + [node]);
    } else {
      var front, f := Front(sh.frames), Last(sh.frames);
      var graph := GraphEvents(o, f.name, f.nodes);
      OneMoreGraphNode(o, f.name, f.nodes, node);
      LastFrame(o, front, f.(nodes := f.nodes + [node]));
      Associate(FrameEvents(o, front), graph, Events(node));
      Associate(top, FrameEvents(o, sh.frames), Events(node));
    }
  }

  lemma PopEvents(o: Options, sh: Shelf)
    requires sh.frames != []
    ensures ShelfEvents(o, sh) + NodeEnd == ShelfEvents(o, Pop(o, sh))
  {
    var f, rest := Last(sh.frames), sh.(frames := Front(sh.frames));
    var graph := GraphEvents(o, f.name, f.nodes);
    ClosedGraph(o, f.name, f.nodes);
    PutEvents(o, rest, GraphNode(o, f.name, f.nodes));
    Associate(TopEvents(o, sh.top), FrameEvents(o, rest.frames), graph);
    Associate(ShelfEvents(o, rest), graph, NodeEnd);
  }

  lemma PushEvents(o: Options, sh: Shelf, g: GraphName)
    ensures ShelfEvents(o, sh) + GraphStart(o, g) == ShelfEvents(o, Push(sh, g))
  {
    if g.NamedGraph? {
      LastFrame(o, sh.frames, Frame(g.name, []));
      assert ItemEvents([]) == [] && GraphStart(o, g) + [] == GraphStart(o, g);
      Associate(TopEvents(o, sh.top), FrameEvents(o, sh.frames), GraphStart(o, g));
    }
  }

  lemma ClosedEvents(o: Options, w: Written)
    ensures WrittenEvents(o, w) + NodeEnd == ShelfEvents(o, Closed(o, w))
  {
    var shelf, s, p := ShelfEvents(o, w.shelf), SubjectEvents(o, w.subj, w.members), PredicateEvents(w.pred, w.objects);
    var members := w.members + [Member(w.pred, JArray(w.objects))];
    OneMoreMember(o, w.subj, w.members, w.pred, w.objects);
    RegroupTail(shelf, s, p, [EndArray], SubjectEvents(o, w.subj, members));
    assert NodeEnd == [EndArray] + [EndObject];
    Associate(WrittenEvents(o, w), [EndArray], [EndObject]);
    ClosedSubject(o, w.subj, members);
    Associate(shelf, SubjectEvents(o, w.subj, members), [EndObject]);
    PutEvents(o, w.shelf, NodeOf(o, w));
  }

  lemma OpenedEvents(o: Options, sh: Shelf, q: Quad)
    ensures ShelfEvents(o, sh) + NodeStart(o, q) + Events(TermJson(o, q.obj)) == WrittenEvents(o, Opened(o, sh, q))
  {
    var shelf, id, key := ShelfEvents(o, sh), IdEvents(o, q.subj), [ObjectKey(q.pred), StartArray];
    assert MemberEvents([]) == [] && id + [] == id;
    assert ItemEvents([]) == [] && key + [] == key && [] + [TermJson(o, q.obj)] == [TermJson(o, q.obj)];
    OneMoreObject(q.pred, [], TermJson(o, q.obj));
    Associate4(shelf, id, key, Events(TermJson(o, q.obj)));
    Associate(shelf, id, key);
  }

  lemma NextPredicateEvents(o: Options, w: Written, q: Quad)
    ensures WrittenEvents(o, w) + [EndArray, ObjectKey(q.pred), StartArray] + Events(TermJson(o, q.obj))
         == WrittenEvents(o, NextPredicate(o, w, q))
  {
    var shelf, s, p := ShelfEvents(o, w.shelf), SubjectEvents(o, w.subj, w.members), PredicateEvents(w.pred, w.objects);
    var key, value := [ObjectKey(q.pred), StartArray], Events(TermJson(o, q.obj));
    OneMoreMember(o, w.subj, w.members, w.pred, w.objects);
    RegroupTail(shelf, s, p, [EndArray], s + (p + [EndArray]));
    assert [EndArray, ObjectKey(q.pred), StartArray] == [EndArray] + key;
    Associate(WrittenEvents(o, w), [EndArray], key);
    assert ItemEvents([]) == [] && key + [] == key && [] + [TermJson(o, q.obj)] == [TermJson(o, q.obj)];
    OneMoreObject(q.pred, [], TermJson(o, q.obj));
    Associate(shelf + (s + (p + [EndArray])), key, value);
  }

  function NextPredicate(o: Options, w: Written, q: Quad): Written {
    w.(members := w.members + [Member(w.pred, JArray(w.objects))], pred := q.pred, objects := [TermJson(o, q.obj)])
  }

  lemma NextObjectEvents(o: Options, w: Written, j: Json)
    ensures WrittenEvents(o, w) + Events(j) == WrittenEvents(o, w.(objects := w.objects + [j]))
  {
    OneMoreObject(w.pred, w.objects, j);
    Associate(ShelfEvents(o, w.shelf) + SubjectEvents(o, w.subj, w.members), PredicateEvents(w.pred, w.objects),
        Events(j));
  }

  // --- one accepted quad ----------------------------------------------------------------------------------

  /** A new graph ends the one the variables name; if they name one and none is open, the document ends. */
  predicate Overruns(w: Written, g: GraphName) { g.NamedGraph? && w.shelf.frames == [] }

  /** The shelf after the node and, if the variables name a graph, the innermost graph are closed. */
  function Ended(o: Options, w: Written, g: GraphName): Shelf
    requires !Overruns(w, g)
  {
    if g.NamedGraph? then Pop(o, Closed(o, w)) else Closed(o, w)
  }

  lemma EndedEvents(o: Options, w: Written, g: GraphName)
    requires !Overruns(w, g)
    ensures WrittenEvents(o, w) + (NodeEnd + GraphEnd(g)) == ShelfEvents(o, Ended(o, w, g))
  {
    ClosedEvents(o, w);
    Associate(WrittenEvents(o, w), NodeEnd, GraphEnd(g));
    if g.NamedGraph? {
      PopEvents(o, Closed(o, w));
    }
  }

  function Follow(o: Options, w: Written, v: Vars, q: Quad): Written
    requires MoveFor(v, q).NewGraph? ==> !Overruns(w, v.graph)
  {
    match MoveFor(v, q)
    case NewGraph => Opened(o, Push(Ended(o, w, v.graph), q.graph), q)
    case NewNode => Opened(o, Closed(o, w), q)
    case NewPredicate => NextPredicate(o, w, q)
    case Continue => w.(objects := w.objects + [TermJson(o, q.obj)])
  }

  /** What is written for an accepted quad takes one such state of the output to the next. */
  lemma FollowEvents(o: Options, w: Written, v: Vars, q: Quad)
    requires MoveFor(v, q).NewGraph? ==> !Overruns(w, v.graph)
    ensures WrittenEvents(o, w) + (MoveBuffer(o, v, q) + Events(TermJson(o, q.obj)))
         == WrittenEvents(o, Follow(o, w, v, q))
  {
    var e, value := WrittenEvents(o, w), Events(TermJson(o, q.obj));
    Associate(e, MoveBuffer(o, v, q), value);
    match MoveFor(v, q)
    case NewGraph =>
      var end, start, node := NodeEnd + GraphEnd(v.graph), GraphStart(o, q.graph), NodeStart(o, q);
      Associate4(e, end, start, node);
      EndedEvents(o, w, v.graph);
      PushEvents(o, Ended(o, w, v.graph), q.graph);
      OpenedEvents(o, Push(Ended(o, w, v.graph), q.graph), q);
    case NewNode =>
      Associate(e, NodeEnd, NodeStart(o, q));
      ClosedEvents(o, w);
      OpenedEvents(o, Closed(o, w), q);
    case NewPredicate => NextPredicateEvents(o, w, q);
    case Continue =>
      assert e + [] == e;
      NextObjectEvents(o, w, TermJson(o, q.obj));
  }
}
