/**
 The streaming JSON-LD serializer: for each quad it decides which JSON scopes to close and reopen.
 */
module JsonLdWriter {
  import opened Wrappers
  import opened Sequences
  import opened JsonEvents
  import opened JsonLdTerms
  import opened JsonLdDocument
  import opened JsonLdReadBack
  import opened JsonLdStep

  class Serializer {
    const options: Options
    var started: bool
    var currentGraph: Option<GraphName>
    var currentSubject: Option<NamedOrBlank>
    var currentPredicate: Option<string>
    var emittedPredicates: set<string>
    /** Everything handed to the JSON writer so far. */
    var output: seq<Event>

    /** Scopes, with their closed content, that the state variables describe. */
    ghost var doc: Open
    /** The quads accepted so far. */
    ghost var history: seq<Quad>

    /** The four state variables describe exactly the scopes open in `d`. */
    ghost predicate Tracks(d: Open)
      reads this
    {
      && d.graph == currentGraph && d.subject == currentSubject && d.pred == currentPredicate
      && emittedPredicates == MemberKeys(d.members)
    }

    /** What every call keeps, whatever was refused before. */
    ghost predicate Usable()
      reads this
    {
      && ValidOptions(options)
      && Tracks(doc) && BetweenQuads(doc) && UniqueSoFar(doc)
      && (started ==> doc.graph.Some?) && (!started ==> doc == NothingWritten)
    }

    /** The scopes described are the ones open in the output. Every accepted quad keeps this. */
    ghost predicate Valid()
      reads this
    {
      Tracks(doc) && Coherent(options, started, doc, history, output)
    }

    constructor (o: Options)
      requires ValidOptions(o)
      ensures Valid() && options == o && history == [] && output == []
    {
      options := o;
      started, currentGraph, currentSubject, currentPredicate, emittedPredicates := false, None, None, None, {};
      output, doc, history := [], NothingWritten, [];
    }

    static lemma OneMoreString(base: seq<Member>, ms: seq<Member>, i: nat)
      requires i < |ms| && ms[i].value.JString?
      ensures MemberEvents(base + ms[..i + 1])
           == MemberEvents(base + ms[..i]) + [ObjectKey(ms[i].key), StringValue(ms[i].value.text)]
    {
      var before := base + ms[..i];
      MemberEventsAppend(before, ms[i]);
      assert base + ms[..i + 1] == before + [ms[i]];
      Associate(MemberEvents(before), [ObjectKey(ms[i].key)], [StringValue(ms[i].value.text)]);
    }

    /** The members of the `@context` header. */
    method ContextEvents() returns (buffer: seq<Event>)
      ensures buffer == MemberEvents(ContextMembers(options))
    {
      buffer := [];
      ghost var base: seq<Member> := [];
      if options.base.Some? {
        buffer := [ObjectKey("@base"), StringValue(options.base.value)];
        base := [Member("@base", JString(options.base.value))];
        StringMembersEvents(base);
      }
      ghost var ps := PrefixMembers(options.prefixes);
      for i := 0 to |options.prefixes|
        invariant buffer == MemberEvents(base + ps[..i])
      {
        var p := options.prefixes[i];
        var key := if p.name == "" then "@vocab" else p.name;
        OneMoreString(base, ps, i);
        buffer := buffer + [ObjectKey(key), StringValue(p.iri)];
      }
      assert base + ps[..|ps|] == ContextMembers(options);
    }

    /** `serialize_start`: the optional `@context` header and the start of the top-level array. */
    method StartEvents() returns (buffer: seq<Event>)
      ensures buffer == StartBuffer(options, false)
    {
      buffer := [];
      if options.base.Some? || options.prefixes != [] {
        var context := ContextEvents();
        buffer := [StartObject, ObjectKey("@context"), StartObject] + context + [EndObject, ObjectKey("@graph")];
        assert buffer == HeaderEvents(options);
      }
      buffer := buffer + [StartArray];
      assert ItemEvents([]) == [] && buffer + [] == buffer;
    }

    /** The scopes and names that closing leaves. */
    static lemma ClosedScopes(o: Options, d: Open, q: Quad)
      requires BetweenQuads(d) && UniqueSoFar(d) && d.graph.Some?
      ensures var d' := Close(o, d, q);
              if d.graph.value != q.graph
              then d'.graph.None? && d'.subject.None? && d'.pred.None? && MemberKeys(d'.members) == {}
              else if LeavesSubject(d, q)
              then d'.graph == d.graph && d'.subject.None? && d'.pred.None? && MemberKeys(d'.members) == {}
              else if d.pred.value != q.pred
              then && d'.graph == d.graph && d'.subject == d.subject && d'.pred.None?
                   && MemberKeys(d'.members) == MemberKeys(d.members) + {d.pred.value}
              else d' == d
    {
      EndPredicateUnique(d);
      assert MemberKeys([]) == {};
    }

    /** Closes the scopes the next quad does not continue. */
    method CloseScopes(q: Quad) returns (buffer: seq<Event>)
      requires Tracks(doc) && BetweenQuads(doc) && UniqueSoFar(doc)
      modifies this`currentGraph, this`currentSubject, this`currentPredicate, this`emittedPredicates
      ensures Tracks(Close(options, doc, q)) && buffer == CloseBuffer(doc, q)
    {
      buffer := [];
      if doc.graph.Some? {
        ClosedScopes(options, doc, q);
      }
      if currentGraph.Some? && currentGraph.value != q.graph {
        buffer := buffer + [EndArray, EndObject];
        if currentGraph.value.NamedGraph? {
          buffer := buffer + [EndArray, EndObject];
        }
        currentGraph, currentSubject, currentPredicate, emittedPredicates := None, None, None, {};
      } else if (currentSubject.Some? && currentSubject.value != q.subj)
                || (currentPredicate.Some? && currentPredicate.value != q.pred && q.pred in emittedPredicates) {
        buffer := buffer + [EndArray, EndObject];
        currentSubject, emittedPredicates, currentPredicate := None, {}, None;
      } else if currentPredicate.Some? && currentPredicate.value != q.pred {
        buffer := buffer + [EndArray];
        emittedPredicates, currentPredicate := emittedPredicates + {currentPredicate.value}, None;
      }
    }

    /** Opens the scopes of the next quad that are not open yet. */
    method OpenScopes(q: Quad, ghost d: Open) returns (buffer: seq<Event>)
      requires Tracks(d) && ReadyFor(d, q)
      modifies this`currentGraph, this`currentSubject, this`currentPredicate
      ensures Tracks(Begin(d, q)) && buffer == BeginBuffer(options, d, q)
    {
      buffer := [];
      if currentGraph.None? {
        if q.graph.NamedGraph? {
          buffer := buffer + [StartObject, ObjectKey("@id"), StringValue(IdValue(options, q.graph.name)),
                              ObjectKey("@graph"), StartArray];
        }
        currentGraph := Some(q.graph);
      }
      if currentSubject.None? {
        buffer := buffer + [StartObject, ObjectKey("@id"), StringValue(IdValue(options, q.subj))];
        currentSubject := Some(q.subj);
      }
      if currentPredicate.None? {
        buffer := buffer + [ObjectKey(q.pred), StartArray];
        currentPredicate := Some(q.pred);
      }
    }

    /** Closes and opens scopes so that the quad's are the open ones. */
    method MoveScopes(q: Quad) returns (buffer: seq<Event>)
      requires Tracks(doc) && BetweenQuads(doc) && UniqueSoFar(doc)
      modifies this`currentGraph, this`currentSubject, this`currentPredicate, this`emittedPredicates
      ensures Tracks(Moved(options, doc, q))
      ensures buffer == CloseBuffer(doc, q) + BeginBuffer(options, Close(options, doc, q), q)
    {
      var closing := CloseScopes(q);
      CloseUnique(options, doc, q);
      var opening := OpenScopes(q, Close(options, doc, q));
      buffer := closing + opening;
    }

    /** `serialize_term`. */
    method TermEvents(t: Term) returns (ok: bool, buffer: seq<Event>)
      ensures ok <==> !t.TripleTerm?
      ensures ok ==> buffer == Events(TermJson(options, t))
    {
      buffer, ok := [StartObject], true;
      match t {
        case NodeTerm(n) =>
          buffer := buffer + [ObjectKey("@id"), StringValue(IdValue(options, n))];
        case LiteralTerm(l) =>
          if l.LanguageTagged? || l.Directional? {
            buffer := buffer + [ObjectKey("@language"), StringValue(l.language)];
            if l.Directional? {
              buffer := buffer + [ObjectKey("@direction"), StringValue(if l.direction.Ltr? then "ltr" else "rtl")];
            }
          } else if l.Typed? && l.datatypeIri != RDF_XSD_STRING {
            buffer := buffer + [ObjectKey("@type"), StringValue(l.datatypeIri)];
          }
          buffer := buffer + [ObjectKey("@value"), StringValue(l.value)];
        case TripleTerm =>
          return false, buffer;
      }
      buffer := buffer + [EndObject];
      ghost var ms := TermJson(options, t).members;
      StringMembersEvents(ms);
    }

    static lemma {:induction false} StringMembersEvents(ms: seq<Member>)
      requires |ms| <= 3 && forall i | 0 <= i < |ms| :: ms[i].value.JString?
      ensures |ms| == 1 ==> MemberEvents(ms) == [ObjectKey(ms[0].key), StringValue(ms[0].value.text)]
      ensures |ms| == 2 ==> MemberEvents(ms) == [ObjectKey(ms[0].key), StringValue(ms[0].value.text),
                                                 ObjectKey(ms[1].key), StringValue(ms[1].value.text)]
      ensures |ms| == 3 ==> MemberEvents(ms) == [ObjectKey(ms[0].key), StringValue(ms[0].value.text),
                                                 ObjectKey(ms[1].key), StringValue(ms[1].value.text),
                                                 ObjectKey(ms[2].key), StringValue(ms[2].value.text)]
    {
      if ms != [] {
        assert ms == [ms[0]] + ms[1..];
        MemberEventsPrepend(ms[0], ms[1..]);
        StringMembersEvents(ms[1..]);
      }
    }

    /** `serialize_quad` of the inner writer: moves the state to the quad's scopes and collects events. */
    method InnerSerializeQuad(q: Quad) returns (ok: bool, buffer: seq<Event>)
      requires Tracks(doc) && BetweenQuads(doc) && UniqueSoFar(doc) && WellFormed(q)
      modifies this`started, this`currentGraph, this`currentSubject, this`currentPredicate, this`emittedPredicates
      ensures ok <==> Supported(q)
      ensures started && Tracks(Moved(options, doc, q))
      ensures ok ==> buffer == StartBuffer(options, old(started)) + StepBuffer(options, doc, q)
    {
      var start := [];
      if !started {
        start := StartEvents();
        started := true;
      }
      var scopes := MoveScopes(q);
      var value;
      ok, value := TermEvents(q.obj);
      buffer := start + (scopes + value);
    }

    /**
     `serialize_quad`: a refused quad writes nothing, its buffer is dropped, but the state variables
     have by then moved to the quad's scopes. Output and state still agree if those scopes were open.
     */
    method SerializeQuad(q: Quad) returns (ok: bool)
      requires Usable() && WellFormed(q)
      modifies this
      ensures Usable() && started && doc == NextState(options, old(doc), q)
      ensures ok <==> Supported(q)
      ensures output == old(output) + Written(options, old(started), old(doc), q)
      ensures history == old(history) + if ok then [q] else []
      ensures old(Valid()) && (ok || SameScopes(old(doc), q)) ==> Valid()
    {
      var buffer;
      ok, buffer := InnerSerializeQuad(q);
      StepUnique(options, doc, q);
      if ok {
        if old(Valid()) {
          CoherentStep(options, old(started), doc, history, output, q);
        }
        output := output + buffer;
        history := history + [q];
      } else {
        assert output + [] == output && history + [] == history;
      }
      doc := NextState(options, doc, q);
    }

    /** `serialize_quad` of a quad it supports, on a serializer whose state and output agree. */
    method SerializeSupported(q: Quad)
      requires Valid() && WellFormed(q) && Supported(q)
      modifies this
      ensures Valid() && history == old(history) + [q]
    {
      var _ := SerializeQuad(q);
    }

    /** The closing events of `finish`. */
    method ClosingEvents() returns (buffer: seq<Event>)
      requires Tracks(doc) && BetweenQuads(doc)
      ensures buffer == FinishBuffer(doc) + FooterEvents(options)
    {
      buffer := [];
      if currentPredicate.Some? {
        buffer := buffer + [EndArray];
      }
      if currentSubject.Some? {
        buffer := buffer + [EndObject];
      }
      if currentGraph.Some? && currentGraph.value.NamedGraph? {
        buffer := buffer + [EndArray, EndObject];
      }
      buffer := buffer + [EndArray];
      if options.base.Some? || options.prefixes != [] {
        buffer := buffer + [EndObject];
      }
    }

    /** `finish`: closes what the state variables say is open. */
    method Finish() returns (ghost document: Json)
      requires Usable()
      modifies this`output
      ensures output == old(output) + (StartBuffer(options, started) + (FinishBuffer(doc) + FooterEvents(options)))
      ensures old(Valid()) ==> output == Events(document) && Represents(options, document, history)
    {
      var start := [];
      if !started {
        start := StartEvents();
      }
      var closing := ClosingEvents();
      document := JNull;
      if Valid() {
        document := FinishDocument(options, started, doc, history, output);
      }
      output := output + (start + closing);
    }
  }
}
