/** What the `@context` of a document says, read from the document; and what the serializer's header says. */
module JsonLdContext {
  import opened Wrappers
  import opened JsonEvents
  import opened JsonLdTerms
  import opened JsonLdReader
  import opened JsonLdDocument
  import opened JsonLdReadBack

  /** The base IRI, the vocabulary mapping and the other entries, name by name. */
  datatype Header = Header(base: Option<string>, vocabulary: Option<string>, terms: map<string, string>)

  // --- reading --------------------------------------------------------------------------------------------

  function ContextObject(j: Json): seq<Member> {
    match j
    case JObject(members) => (match Find(members, "@context") case Some(JObject(entries)) => entries case _ => [])
    case _ => []
  }

  function Entry(entries: seq<Member>, name: string): Option<string> {
    match Find(entries, name)
    case Some(JString(text)) => Some(text)
    case _ => None
  }

  /** Names of the form of a keyword make no terms. */
  predicate IsTermEntry(entries: seq<Member>, name: string) {
    !HasKeywordForm(name) && Entry(entries, name).Some?
  }

  function ReadHeader(j: Json): Header { HeaderOf(ContextObject(j)) }

  function HeaderOf(entries: seq<Member>): Header {
    var names := set i | 0 <= i < |entries| :: entries[i].key;
    Header(Entry(entries, "@base"), Entry(entries, "@vocab"),
           map n | n in names && IsTermEntry(entries, n) :: Entry(entries, n).value)
  }

  // --- what is written ------------------------------------------------------------------------------------

  /** The header gives the base, the IRI of the empty prefix as vocabulary, and every other prefix as a term. */
  ghost predicate Says(h: Header, o: Options) {
    && h.base == o.base
    && (h.vocabulary.Some? ==> HasPrefix(o, ""))
    && (forall n | n in h.terms :: n != "" && HasPrefix(o, n))
    && (forall i | 0 <= i < |o.prefixes| :: SaysPrefix(h, o.prefixes[i]))
  }

  predicate SaysPrefix(h: Header, p: Prefix) {
    if p.name == "" then h.vocabulary == Some(p.iri) else p.name in h.terms && h.terms[p.name] == p.iri
  }

  predicate NoKeywords(o: Options) { forall i | 0 <= i < |o.prefixes| :: !HasKeywordForm(o.prefixes[i].name) }

  lemma Keywords()
    ensures HasKeywordForm("@base") && HasKeywordForm("@vocab")
  {
  }

  lemma ContextMember(o: Options, i: nat)
    requires i < |ContextMembers(o)|
    ensures var shift := if o.base.Some? then 1 else 0;
            if i < shift then ContextMembers(o)[i] == Member("@base", JString(o.base.value))
            else ContextMembers(o)[i]
                 == Member(ContextKey(o.prefixes[i - shift].name), JString(o.prefixes[i - shift].iri))
  {
  }

  lemma EntriesDistinct(o: Options)
    requires ValidOptions(o) && NoKeywords(o)
    ensures DistinctKeys(ContextMembers(o))
  {
    Keywords();
    HeaderNames(o);
  }

  lemma EntryIn(entries: seq<Member>, k: nat, name: string, text: string)
    requires DistinctKeys(entries) && k < |entries| && entries[k] == Member(name, JString(text))
    ensures Entry(entries, name) == Some(text)
  {
    FindIn(entries, k);
  }

  lemma PrefixEntry(o: Options, i: nat)
    requires ValidOptions(o) && NoKeywords(o) && i < |o.prefixes|
    ensures Entry(ContextMembers(o), ContextKey(o.prefixes[i].name)) == Some(o.prefixes[i].iri)
  {
    var k := if o.base.Some? then i + 1 else i;
    EntriesDistinct(o);
    ContextMember(o, k);
    EntryIn(ContextMembers(o), k, ContextKey(o.prefixes[i].name), o.prefixes[i].iri);
  }

  lemma BaseEntry(o: Options)
    requires ValidOptions(o) && NoKeywords(o)
    ensures Entry(ContextMembers(o), "@base") == o.base
  {
    var ms := ContextMembers(o);
    if o.base.Some? {
      EntriesDistinct(o);
      EntryIn(ms, 0, "@base", o.base.value);
    } else {
      Keywords();
      forall k | 0 <= k < |ms| ensures ms[k].key != "@base" { ContextMember(o, k); }
      FindNone(ms, "@base");
    }
  }

  /** Every name in the header is that of the base or of a prefix. */
  lemma EntryName(o: Options, name: string)
    requires NoKeywords(o) && Entry(ContextMembers(o), name).Some?
    ensures name == "@vocab" ==> HasPrefix(o, "")
    ensures !HasKeywordForm(name) ==> name != "" && HasPrefix(o, name)
  {
    Keywords();
    var ms := ContextMembers(o);
    var k :| 0 <= k < |ms| && ms[k].key == name;
    ContextMember(o, k);
    var shift := if o.base.Some? then 1 else 0;
    if k >= shift { assert HasPrefix(o, o.prefixes[k - shift].name); }
  }

  lemma HeaderOfDocument(o: Options, nodes: seq<Json>)
    ensures ContextObject(Document(o, nodes)) == ContextMembers(o)
  {
    if HasHeader(o) {
      assert Document(o, nodes).members[0] == Member("@context", JObject(ContextMembers(o)));
    }
  }

  lemma PrefixSaid(o: Options, h: Header, i: nat)
    requires ValidOptions(o) && NoKeywords(o) && i < |o.prefixes| && h == HeaderOf(ContextMembers(o))
    ensures SaysPrefix(h, o.prefixes[i])
  {
    PrefixEntry(o, i);
  }

  lemma NothingElseSaid(o: Options, h: Header)
    requires NoKeywords(o) && h == HeaderOf(ContextMembers(o))
    ensures h.vocabulary.Some? ==> HasPrefix(o, "")
    ensures forall n | n in h.terms :: n != "" && HasPrefix(o, n)
  {
    if h.vocabulary.Some? { EntryName(o, "@vocab"); }
    forall n | n in h.terms ensures n != "" && HasPrefix(o, n) { EntryName(o, n); }
  }

  /** For every document written, its header says what the options say, unless a prefix is named like a keyword. */
  lemma DocumentSays(o: Options, nodes: seq<Json>)
    requires ValidOptions(o)
    ensures Says(ReadHeader(Document(o, nodes)), o) <==> NoKeywords(o)
  {
    var h := HeaderOf(ContextMembers(o));
    HeaderOfDocument(o, nodes);
    if NoKeywords(o) {
      BaseEntry(o);
      NothingElseSaid(o, h);
      forall i | 0 <= i < |o.prefixes| ensures SaysPrefix(h, o.prefixes[i]) { PrefixSaid(o, h, i); }
    } else {
      var i :| 0 <= i < |o.prefixes| && HasKeywordForm(o.prefixes[i].name);
      assert !SaysPrefix(h, o.prefixes[i]);
    }
  }
}
