/** Where a reader finds the objects of what is open in the output, and when names repeat there. */
module JsonLdPlaces {
  import opened Sequences
  import opened JsonEvents
  import opened JsonLdTerms
  import opened JsonLdReader
  import opened JsonLdDocument
  import opened JsonLdReadBack
  import opened JsonLdVariables
  import opened JsonLdShelf

  ghost predicate SoundShelf(sh: Shelf) { forall i | 0 <= i < |sh.frames| :: WellFormedNode(sh.frames[i].name) }

  /** Node ids and names are well formed, and only the names of the open node object might repeat. */
  ghost predicate Sound(w: Written) {
    && SoundShelf(w.shelf) && WellFormedNode(w.subj) && IsAbsoluteIri(w.pred) && AllUnique(w.objects)
    && forall i | 0 <= i < |w.members| :: IsAbsoluteIri(w.members[i].key) && UniqueKeys(w.members[i].value)
  }

  function GraphOf(graphs: seq<NamedOrBlank>): GraphName {
    if graphs == [] then DefaultGraph else NamedGraph(Last(graphs))
  }

  function Innermost(sh: Shelf): GraphName {
    if sh.frames == [] then DefaultGraph else NamedGraph(Last(sh.frames).name)
  }

  // --- quads ----------------------------------------------------------------------------------------------

  function FrameQuads(o: Options, c: Context, frames: seq<Frame>): seq<Quad>
    requires forall i | 0 <= i < |frames| :: WellFormedNode(frames[i].name)
  {
    if frames == [] then []
    else
      FrameQuads(o, c, Front(frames))
      + ReadNodes(c, NamedGraph(RereadNode(o, c, Last(frames).name)), Last(frames).nodes)
  }

  ghost function ShelfQuads(o: Options, c: Context, sh: Shelf): seq<Quad>
    requires SoundShelf(sh)
  {
    ReadNodes(c, DefaultGraph, sh.top) + FrameQuads(o, c, sh.frames)
  }

  /** The quads a reader gets from what is written, when every open scope is closed as it stands. */
  ghost function WrittenQuads(o: Options, c: Context, w: Written): seq<Quad>
    requires Sound(w)
  {
    var g, s := RereadGraph(o, c, Innermost(w.shelf)), RereadNode(o, c, w.subj);
    ShelfQuads(o, c, w.shelf) + ReadMembers(c, g, s, w.members) + ReadObjects(c, g, s, RereadIri(c, w.pred), w.objects)
  }

  lemma LastFrameQuads(o: Options, c: Context, frames: seq<Frame>, f: Frame)
    requires (forall i | 0 <= i < |frames| :: WellFormedNode(frames[i].name)) && WellFormedNode(f.name)
    ensures forall i | 0 <= i < |frames + [f]| :: WellFormedNode((frames + [f])[i].name)
    ensures FrameQuads(o, c, frames + [f])
         == FrameQuads(o, c, frames) + ReadNodes(c, NamedGraph(RereadNode(o, c, f.name)), f.nodes)
  {
    assert Front(frames + [f]) == frames;
  }

  lemma PutQuads(o: Options, c: Context, sh: Shelf, node: Json)
    requires SoundShelf(sh)
    ensures SoundShelf(Put(sh, node)) && Innermost(Put(sh, node)) == Innermost(sh)
    ensures ShelfQuads(o, c, Put(sh, node))
         == ShelfQuads(o, c, sh) + ReadNode(c, RereadGraph(o, c, Innermost(sh)), node)
  {
    var top := ReadNodes(c, DefaultGraph, sh.top);
    if sh.frames == [] {
      ReadNodesAppend(c, DefaultGraph, sh.top, node);
    } else {
      var front, f := Front(sh.frames), Last(sh.frames);
      var g := NamedGraph(RereadNode(o, c, f.name));
      ReadNodesAppend(c, g, f.nodes, node);
      LastFrameQuads(o, c, front, f.(nodes := f.nodes + [node]));
      Associate(FrameQuads(o, c, front), ReadNodes(c, g, f.nodes), ReadNode(c, g, node));
      Associate(top, FrameQuads(o, c, sh.frames), ReadNode(c, g, node));
    }
  }

  lemma PopQuads(o: Options, c: Context, sh: Shelf)
    requires SoundShelf(sh) && sh.frames != []
    ensures SoundShelf(Pop(o, sh)) && ShelfQuads(o, c, Pop(o, sh)) == ShelfQuads(o, c, sh)
    ensures Innermost(Pop(o, sh)) == Innermost(sh.(frames := Front(sh.frames)))
  {
    var f, rest := Last(sh.frames), sh.(frames := Front(sh.frames));
    PutQuads(o, c, rest, GraphNode(o, f.name, f.nodes));
    GraphNodeReadBack(o, c, RereadGraph(o, c, Innermost(rest)), f.name, f.nodes);
    Associate(ReadNodes(c, DefaultGraph, sh.top), FrameQuads(o, c, rest.frames),
              ReadNodes(c, NamedGraph(RereadNode(o, c, f.name)), f.nodes));
  }

  lemma PushQuads(o: Options, c: Context, sh: Shelf, g: GraphName)
    requires SoundShelf(sh) && (g.NamedGraph? ==> WellFormedNode(g.name))
    ensures SoundShelf(Push(sh, g)) && ShelfQuads(o, c, Push(sh, g)) == ShelfQuads(o, c, sh)
  {
    if g.NamedGraph? {
      LastFrameQuads(o, c, sh.frames, Frame(g.name, []));
      assert ReadNodes(c, NamedGraph(RereadNode(o, c, g.name)), []) == [];
      assert FrameQuads(o, c, sh.frames) + [] == FrameQuads(o, c, sh.frames);
    }
  }

  lemma ClosedQuads(o: Options, c: Context, w: Written)
    requires Sound(w)
    ensures SoundShelf(Closed(o, w)) && ShelfQuads(o, c, Closed(o, w)) == WrittenQuads(o, c, w)
    ensures Innermost(Closed(o, w)) == Innermost(w.shelf)
  {
    var g, s := RereadGraph(o, c, Innermost(w.shelf)), RereadNode(o, c, w.subj);
    var m := Member(w.pred, JArray(w.objects));
    PutQuads(o, c, w.shelf, NodeOf(o, w));
    SubjectNodeReadBack(o, c, g, w.subj, w.members + [m]);
    ReadMembersAppend(c, g, s, w.members, m);
    RereadPredicate(c, m.key);
    assert ReadMember(c, g, s, m) == ReadObjects(c, g, s, RereadIri(c, w.pred), w.objects);
    Associate(ShelfQuads(o, c, w.shelf), ReadMembers(c, g, s, w.members), ReadMember(c, g, s, m));
  }

  /** The quad a reader gets for an object put in the open place. */
  function Landed(w: Written, t: Term): Quad { Quad(w.subj, w.pred, t, Innermost(w.shelf)) }

  lemma OpenedQuads(o: Options, c: Context, sh: Shelf, q: Quad)
    requires SoundShelf(sh) && WellFormed(q) && Supported(q)
    ensures Sound(Opened(o, sh, q)) && WellFormed(Landed(Opened(o, sh, q), q.obj))
    ensures WrittenQuads(o, c, Opened(o, sh, q))
         == ShelfQuads(o, c, sh) + [RereadQuad(o, c, Landed(Opened(o, sh, q), q.obj))]
  {
    var g, s := RereadGraph(o, c, Innermost(sh)), RereadNode(o, c, q.subj);
    TermUnique(o, q.obj);
    OneObjectReadBack(o, c, g, s, RereadIri(c, q.pred), q.obj);
    assert ReadMembers(c, g, s, []) == [];
    assert ShelfQuads(o, c, sh) + [] == ShelfQuads(o, c, sh);
  }

  lemma NextPredicateSound(o: Options, w: Written, q: Quad)
    requires Sound(w) && WellFormed(q) && Supported(q)
    ensures Sound(NextPredicate(o, w, q)) && WellFormed(Landed(NextPredicate(o, w, q), q.obj))
  {
    TermUnique(o, q.obj);
    assert UniqueKeys(JArray(w.objects));
  }

  lemma ClosedMemberQuads(o: Options, c: Context, w: Written, g: GraphName, s: NamedOrBlank)
    requires Sound(w)
    ensures ReadMembers(c, g, s, w.members + [Member(w.pred, JArray(w.objects))])
         == ReadMembers(c, g, s, w.members) + ReadObjects(c, g, s, RereadIri(c, w.pred), w.objects)
  {
    var m := Member(w.pred, JArray(w.objects));
    ReadMembersAppend(c, g, s, w.members, m);
    RereadPredicate(c, m.key);
  }

  lemma NextPredicateQuads(o: Options, c: Context, w: Written, q: Quad)
    requires Sound(w) && WellFormed(q) && Supported(q)
    ensures Sound(NextPredicate(o, w, q)) && WellFormed(Landed(NextPredicate(o, w, q), q.obj))
    ensures WrittenQuads(o, c, NextPredicate(o, w, q))
         == WrittenQuads(o, c, w) + [RereadQuad(o, c, Landed(NextPredicate(o, w, q), q.obj))]
  {
    var g, s := RereadGraph(o, c, Innermost(w.shelf)), RereadNode(o, c, w.subj);
    NextPredicateSound(o, w, q);
    ClosedMemberQuads(o, c, w, g, s);
    Associate(ShelfQuads(o, c, w.shelf), ReadMembers(c, g, s, w.members),
              ReadObjects(c, g, s, RereadIri(c, w.pred), w.objects));
    OneObjectReadBack(o, c, g, s, RereadIri(c, q.pred), q.obj);
  }

  lemma NextObjectSound(o: Options, w: Written, q: Quad)
    requires Sound(w) && WellFormed(q) && Supported(q)
    ensures var w' := w.(objects := w.objects + [TermJson(o, q.obj)]);
            Sound(w') && WellFormed(Landed(w', q.obj))
  {
    TermUnique(o, q.obj);
  }

  lemma NextObjectQuads(o: Options, c: Context, w: Written, q: Quad)
    requires Sound(w) && WellFormed(q) && Supported(q)
    ensures var w' := w.(objects := w.objects + [TermJson(o, q.obj)]);
            && Sound(w') && WellFormed(Landed(w', q.obj))
            && WrittenQuads(o, c, w') == WrittenQuads(o, c, w) + [RereadQuad(o, c, Landed(w', q.obj))]
  {
    var g, s, p := RereadGraph(o, c, Innermost(w.shelf)), RereadNode(o, c, w.subj), RereadIri(c, w.pred);
    NextObjectSound(o, w, q);
    OneObjectReadBack(o, c, g, s, p, q.obj);
    ReadObjectsAppend(c, g, s, p, w.objects, TermJson(o, q.obj));
    Associate(ShelfQuads(o, c, w.shelf) + ReadMembers(c, g, s, w.members), ReadObjects(c, g, s, p, w.objects),
              [RereadQuad(o, c, Landed(w, q.obj))]);
  }

  lemma EndedQuads(o: Options, c: Context, w: Written, g: GraphName)
    requires Sound(w) && !Overruns(w, g)
    ensures SoundShelf(Ended(o, w, g)) && ShelfQuads(o, c, Ended(o, w, g)) == WrittenQuads(o, c, w)
  {
    ClosedQuads(o, c, w);
    if g.NamedGraph? {
      PopQuads(o, c, Closed(o, w));
    }
  }

  /** An accepted quad adds exactly one quad to what a reader gets: its object, where it has landed. */
  lemma FollowQuads(o: Options, c: Context, w: Written, v: Vars, q: Quad)
    requires Sound(w) && WellFormed(q) && Supported(q) && (MoveFor(v, q).NewGraph? ==> !Overruns(w, v.graph))
    ensures var w' := Follow(o, w, v, q);
            && Sound(w') && WellFormed(Landed(w', q.obj))
            && WrittenQuads(o, c, w') == WrittenQuads(o, c, w) + [RereadQuad(o, c, Landed(w', q.obj))]
  {
    match MoveFor(v, q)
    case NewGraph =>
      EndedQuads(o, c, w, v.graph);
      PushQuads(o, c, Ended(o, w, v.graph), q.graph);
      OpenedQuads(o, c, Push(Ended(o, w, v.graph), q.graph), q);
    case NewNode =>
      ClosedQuads(o, c, w);
      OpenedQuads(o, c, Closed(o, w), q);
    case NewPredicate => NextPredicateQuads(o, c, w, q);
    case Continue => NextObjectQuads(o, c, w, q);
  }

  lemma FollowSound(o: Options, w: Written, v: Vars, q: Quad)
    requires Sound(w) && WellFormed(q) && Supported(q) && (MoveFor(v, q).NewGraph? ==> !Overruns(w, v.graph))
    ensures Sound(Follow(o, w, v, q)) && WellFormed(Landed(Follow(o, w, v, q), q.obj))
  {
    FollowQuads(o, Context(map[], Wrappers.None, imap[]), w, v, q);
  }

  // --- names ----------------------------------------------------------------------------------------------

  ghost predicate ShelfUnique(sh: Shelf) {
    AllUnique(sh.top) && forall i | 0 <= i < |sh.frames| :: AllUnique(sh.frames[i].nodes)
  }

  /** The names of the open node object, the one being written included. */
  function Names(w: Written): set<string> { MemberKeys(w.members) + {w.pred} }

  ghost predicate DistinctNames(w: Written) { DistinctKeys(w.members) && w.pred !in MemberKeys(w.members) }

  ghost predicate WrittenUnique(w: Written) { ShelfUnique(w.shelf) && DistinctNames(w) }

  lemma OneMoreUnique(items: seq<Json>, j: Json)
    ensures AllUnique(items + [j]) <==> AllUnique(items) && UniqueKeys(j)
  {
    var more := items + [j];
    assert more[|items|] == j && forall i | 0 <= i < |items| :: more[i] == items[i];
  }

  lemma PutUnique(sh: Shelf, node: Json)
    ensures ShelfUnique(Put(sh, node)) <==> ShelfUnique(sh) && UniqueKeys(node)
  {
    if sh.frames == [] {
      OneMoreUnique(sh.top, node);
    } else {
      var n, put := |sh.frames| - 1, Put(sh, node).frames;
      OneMoreUnique(sh.frames[n].nodes, node);
      assert put[n].nodes == sh.frames[n].nodes + [node];
      assert forall i | 0 <= i < n :: put[i] == sh.frames[i];
    }
  }

  lemma GraphNodeUnique(o: Options, g: NamedOrBlank, nodes: seq<Json>)
    ensures UniqueKeys(GraphNode(o, g, nodes)) <==> AllUnique(nodes)
  {
    var ms := GraphNode(o, g, nodes).members;
    assert UniqueKeys(ms[0].value);
    assert UniqueKeys(ms[1].value) <==> AllUnique(nodes);
    assert DistinctKeys(ms);
  }

  lemma PopUnique(o: Options, sh: Shelf)
    requires sh.frames != []
    ensures ShelfUnique(Pop(o, sh)) <==> ShelfUnique(sh)
  {
    var f, rest := Last(sh.frames), sh.(frames := Front(sh.frames));
    PutUnique(rest, GraphNode(o, f.name, f.nodes));
    GraphNodeUnique(o, f.name, f.nodes);
    assert forall i | 0 <= i < |rest.frames| :: rest.frames[i] == sh.frames[i];
  }

  lemma PushUnique(sh: Shelf, g: GraphName)
    ensures ShelfUnique(Push(sh, g)) <==> ShelfUnique(sh)
  {
    if g.NamedGraph? {
      var pushed := Push(sh, g).frames;
      assert AllUnique([]);
      assert forall i | 0 <= i < |sh.frames| :: pushed[i] == sh.frames[i];
    }
  }

  lemma OneMoreName(members: seq<Member>, m: Member)
    ensures DistinctKeys(members + [m]) <==> DistinctKeys(members) && m.key !in MemberKeys(members)
    ensures MemberKeys(members + [m]) == MemberKeys(members) + {m.key}
  {
    var more, n := members + [m], |members|;
    assert more[n] == m && forall i | 0 <= i < n :: more[i] == members[i];
    forall k | k in MemberKeys(members) ensures k in MemberKeys(more) {
      var i :| 0 <= i < n && members[i].key == k;
      assert more[i].key == k;
    }
    assert more[n].key in MemberKeys(more);
    if m.key in MemberKeys(members) {
      var i :| 0 <= i < n && members[i].key == m.key;
      assert more[i].key == more[n].key;
    }
    if DistinctKeys(more) {
      forall i, j | 0 <= i < j < n ensures members[i].key != members[j].key { assert more[i].key != more[j].key; }
    }
  }

  /** A node object repeats no name exactly when its members do not. */
  lemma NodeUnique(o: Options, s: NamedOrBlank, members: seq<Member>)
    requires forall i | 0 <= i < |members| :: IsAbsoluteIri(members[i].key) && UniqueKeys(members[i].value)
    ensures UniqueKeys(SubjectNode(o, s, members)) <==> DistinctKeys(members)
  {
    var ms := [IdMember(o, s)] + members;
    assert forall i | 0 < i < |ms| :: ms[i] == members[i - 1];
    forall i | 0 < i < |ms| ensures ms[i].key != "@id" {
      RereadPredicate(Context(map[], Wrappers.None, imap[]), members[i - 1].key);
    }
    assert UniqueKeys(ms[0].value);
    if DistinctKeys(ms) {
      forall i, j | 0 <= i < j < |members| ensures members[i].key != members[j].key {
        assert ms[i + 1].key != ms[j + 1].key;
      }
    }
  }

  lemma ClosedUnique(o: Options, w: Written)
    requires Sound(w)
    ensures ShelfUnique(Closed(o, w)) <==> WrittenUnique(w)
  {
    var m := Member(w.pred, JArray(w.objects));
    assert UniqueKeys(m.value);
    PutUnique(w.shelf, NodeOf(o, w));
    NodeUnique(o, w.subj, w.members + [m]);
    OneMoreName(w.members, m);
  }

  lemma EndedUnique(o: Options, w: Written, g: GraphName)
    requires Sound(w) && !Overruns(w, g)
    ensures ShelfUnique(Ended(o, w, g)) <==> WrittenUnique(w)
  {
    ClosedUnique(o, w);
    if g.NamedGraph? {
      PopUnique(o, Closed(o, w));
    }
  }

  /** Only a new predicate can repeat a name: one that the open node object already has. */
  lemma FollowUnique(o: Options, w: Written, v: Vars, q: Quad)
    requires Sound(w) && (MoveFor(v, q).NewGraph? ==> !Overruns(w, v.graph))
    ensures WrittenUnique(Follow(o, w, v, q))
       <==> WrittenUnique(w) && (MoveFor(v, q).NewPredicate? ==> q.pred !in Names(w))
  {
    assert MemberKeys([]) == {};
    match MoveFor(v, q)
    case NewGraph =>
      EndedUnique(o, w, v.graph);
      PushUnique(Ended(o, w, v.graph), q.graph);
    case NewNode => ClosedUnique(o, w);
    case NewPredicate => OneMoreName(w.members, Member(w.pred, JArray(w.objects)));
    case Continue =>
  }
}
