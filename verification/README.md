# Verified models of oxigraph-cloud

Dafny models of the four parts of oxigraph-cloud that keep state or navigate bytes, and proofs about every
run of them. `dafny verify dfyconfig.toml` checks the whole project.

**JSON-LD serializer** (`JsonEvents`, `JsonTree`, `JsonLd*`). `JsonLdWriter.Serializer` is the streaming
serializer with its four state variables. Every quad it accepts moves an unfinished document (`Open`, held in
a ghost field) by one `Step`. `Coherent` is the invariant: the output is exactly the events of that unfinished
document, `emittedPredicates` are exactly the names of the open node object, and a reader under *any* JSON-LD
context gets exactly the quads accepted so far. `Serialize` is the whole run. `JsonLdReader` is an independent
reader: it looks members up by name and expands IRIs under a context; `JsonLdContext` reads the header of a
document and `JsonLdHeader` makes the context of it. `JsonTree` is the test suite's two-stack tree builder.

A quad with an RDF 1.2 term is refused after the state variables have moved to it, so from then on they may
differ from what is open in the output. `JsonLdRuns` to `JsonLdAnyRun` cover every run with refusals: a second
description of the output (`Shelf`, named graphs nested to any depth) follows what is really written, and the
results say exactly when the output is a JSON document, what a reader gets from it, and when names repeat.

**TiKV coprocessor** (`Bytes`, `TermCodec`, `KeyTerms`, `StoredTerms`, `KeyFilter`, `Protocol`, `BloomBits`, `Bloom`,
`IndexScan`, `Aggregate`, `Ranges`, `Plugin`). The byte-level loops are methods proved against functions; those
functions are then characterised on decoded terms, on arbitrary bytes, and against evaluation by the client.
Slicing out of bounds is an outcome of its own (`Panics`), so no key is assumed to be well formed.

**Transactions, changelog, undo, change events** (`Dataset`, `Transactions`, `ChangelogModel`, `Changelog`,
`ServerRuns`, `LifoUndo`, `UpdateHandlers`, `Serving`, `Cdc`, `Replication`). `TransactionRegistry` and
`ChangelogService` are classes over a `Store` holding a set of quads; `ChangelogService.log` is a ghost map that
`Stores` ties to the quads of the changelog graph. Both are steps of value-level state machines
(`Transactions.Next`, `ServerRuns.Handle`), over whose runs the main results are stated. `Serving.Serve` is the
server program as a whole, and every run of it is accounted for by a run of the abstract server. "User data"
means the quads outside the changelog graph.

**Calendar and stream adapter** (`Calendar`, `StreamAdapter`).

## Results that a reader of the code might not expect

Each is a property one would hope for that the code does not have as it stands. The model keeps the code's
behaviour; for each there is the exact condition and a lemma or method at an input that fails.

| condition | input |
|---|---|
| header names are distinct: `HeaderNames` | `HeaderCanRepeatName` |
| the quads come back under the serializer's own header: `HeaderRoundTrip` | `SchemeCaptured` |
| the output of a run with refused quads is a document: `RunIsDocument` | `EndMismatched`, `RefusedFirstQuad` |
| such a run is read as the accepted quads: `PlainRun`, `RunReads` | `QuadMisplacedWitness` |
| such a run repeats no name: `RunNames` | `NameRepeated` |
| a request survives the wire: `RequestRoundTrip` | `EmptyFilterLost` |
| a scan reply has the client's rows: `DisjointPushdown` | `RowCountedTwice` |
| a count is the client's: `CountPushdown` | `RowCountedTwice` |
| a request's filter selects rows: never, `BloomIsAllOrNothing` | `FilterEmptiesReply` |
| filter bytes keep the answers: `BytesRoundTrip`, `BuildAndAsk` | `RereadLosesKey` |
| a commit's event tells what it did: `CommitFollowed`, `SparqlCommitFollowed` | `ReinsertedQuadLost` |
| undo after commit restores the data: `UndoAfterCommit` | `UndoRemovesOldQuad` |
| event ids rise: no event after a restart that follows a purge with no event in between, `EventIdsRise` | `IdReused` |
| a subscriber is told of what it missed: `HandleWebsocket` | `LagInWindowIsSilent` |

The module documentation of the coprocessor promises Bloom pruning and filter evaluation. The plugin passes no
term positions (crates/oxigraph-coprocessor/src/lib.rs:193, 210), and `FilterScan` repeats the arm of
`IndexScan`. The request layout (crates/oxigraph-coprocessor/src/protocol.rs:17) allows an empty filter, which
is read back as none.

## Model

| member | source | states |
|---|---|---|
| JsonEvents.EventsPrefixFree | oxigraph/testsuite/src/parser_evaluator.rs:374-415 | an event stream starts with at most one whole document, and that document is determined |
| JsonTree.RunValue | oxigraph/testsuite/src/parser_evaluator.rs:374-415 | at any nesting, reading the events of a value has the effect of attaching its tree to the innermost open container |
| JsonTree.RebuildsDocument | oxigraph/testsuite/src/parser_evaluator.rs:374-415 | from empty stacks the machine finishes with the document's tree and never looks at what follows |
| JsonTree.JsonToNode | oxigraph/testsuite/src/parser_evaluator.rs:374-415 | the two-stack loop returns the tree of the document its events start with, whichever that is |
| JsonTree.FieldsOfUniqueMembers | oxigraph/testsuite/src/parser_evaluator.rs:374-415 | with unique names the unordered tree has every member, with its own value, and nothing else |
| JsonLdReader.AbsoluteIriReadBack | oxigraph/lib/oxjsonld/src/context.rs:1278-1376 | an absolute IRI expands to itself exactly when no term or prefix of the context captures it |
| JsonLdDocument.EndPredicateEvents | oxigraph/lib/oxjsonld/src/from_rdf.rs:382-393 | one end-array event turns the open predicate into a member of the open node object |
| JsonLdDocument.EndSubjectEvents | oxigraph/lib/oxjsonld/src/from_rdf.rs:366-381 | one end-object event turns the open node object into a node of the enclosing graph |
| JsonLdDocument.EndGraphEvents | oxigraph/lib/oxjsonld/src/from_rdf.rs:349-365 | closing a named graph needs an array and an object end, closing the default graph nothing |
| JsonLdDocument.DocumentEvents | oxigraph/lib/oxjsonld/src/from_rdf.rs:552-574 | with no scope open, the footer makes the output the events of one whole document |
| JsonLdReadBack.ObjectReadBack | oxigraph/lib/oxjsonld/src/from_rdf.rs:469-522 | the object written for a term is read back as that term, up to expansion of its IRI |
| JsonLdReadBack.HeaderNames | oxigraph/lib/oxjsonld/src/from_rdf.rs:446-467 | header names are distinct if and only if no prefix is called `@base` beside a base or `@vocab` beside the empty prefix |
| JsonLdReadBack.HeaderCanRepeatName | oxigraph/lib/oxjsonld/src/from_rdf.rs:446-467 | an input on which two header members have the same name |
| JsonLdContext.DocumentSays | oxigraph/lib/oxjsonld/src/from_rdf.rs:446-467 | for every document written, looking up its `@context` entry by entry gives the base, the empty prefix's IRI as vocabulary and every other prefix's IRI, and nothing else, if and only if no prefix is named like a keyword |
| JsonLdStep.StepUnique | oxigraph/lib/oxjsonld/src/from_rdf.rs:349-393 | whatever was open, the step leaves all scopes open and no object, closed or open, with a repeated name |
| JsonLdStep.StepEvents | oxigraph/lib/oxjsonld/src/from_rdf.rs:338-444 | the events of a step extend the events of one unfinished document to those of the next |
| JsonLdStep.StepQuads | oxigraph/lib/oxjsonld/src/from_rdf.rs:338-444 | under every context a step adds exactly its quad, at the end, to what a reader gets |
| JsonLdStep.QuadsAreGrouped | oxigraph/lib/oxjsonld/src/from_rdf.rs:349-393 | a quad goes on with the open node object if and only if graph and subject are the same and its predicate is the current one or new to the object; with the open array if and only if the predicate is then the current one |
| JsonLdStep.CoherentStep | oxigraph/lib/oxjsonld/src/from_rdf.rs:338-444 | every accepted quad keeps the invariant, from the first quad on |
| JsonLdStep.FinishDocument | oxigraph/lib/oxjsonld/src/from_rdf.rs:552-574 | from any state between quads, finishing gives the events of one document that represents the quads |
| JsonLdWriter.Serializer.constructor | oxigraph/lib/oxjsonld/src/from_rdf.rs:193-203 | a new serializer satisfies the invariant with no quads and no output |
| JsonLdWriter.Serializer.ContextEvents | oxigraph/lib/oxjsonld/src/from_rdf.rs:446-467 | the header loop writes the base and then every prefix, the empty one as `@vocab` |
| JsonLdWriter.Serializer.StartEvents | oxigraph/lib/oxjsonld/src/from_rdf.rs:446-467 | the start is the events of an unfinished document with no nodes |
| JsonLdWriter.Serializer.CloseScopes | oxigraph/lib/oxjsonld/src/from_rdf.rs:349-393 | the state variables and the events both follow the closing of the same scopes |
| JsonLdWriter.Serializer.OpenScopes | oxigraph/lib/oxjsonld/src/from_rdf.rs:395-441 | the state variables and the events both follow the opening of the quad's missing scopes |
| JsonLdWriter.Serializer.MoveScopes | oxigraph/lib/oxjsonld/src/from_rdf.rs:349-441 | afterwards the state variables name the quad's scopes, and the buffer holds the closing and then the opening events |
| JsonLdWriter.Serializer.TermEvents | oxigraph/lib/oxjsonld/src/from_rdf.rs:469-522 | refuses exactly the RDF 1.2 terms; otherwise writes one JSON object for the term |
| JsonLdWriter.Serializer.InnerSerializeQuad | oxigraph/lib/oxjsonld/src/from_rdf.rs:338-444 | in any state, after refusals too: accepts exactly the supported quads; the variables move to the quad's scopes either way, and the buffer is the step's |
| JsonLdWriter.Serializer.SerializeQuad | oxigraph/lib/oxjsonld/src/from_rdf.rs:240-247 | in any state: what is written, what the variables then describe, and that output and state still agree after an accepted quad or a refused one whose scopes were open |
| JsonLdWriter.Serializer.ClosingEvents | oxigraph/lib/oxjsonld/src/from_rdf.rs:552-574 | closes exactly what the state variables say is open, then the array and the header object |
| JsonLdWriter.Serializer.Finish | oxigraph/lib/oxjsonld/src/from_rdf.rs:249-254 | in any state: what is written; if output and state agree, the output is the events of one document that represents the accepted quads |
| JsonLdRoundTrip.SerializeQuads | oxigraph/lib/oxjsonld/src/from_rdf.rs:338-444 | any sequence of supported quads is accepted whole, keeping the invariant |
| JsonLdRoundTrip.SerializedDocument | oxigraph/lib/oxjsonld/src/from_rdf.rs:338-574 | the document is determined by the events alone |
| JsonLdRoundTrip.Serialize | oxigraph/lib/oxjsonld/src/from_rdf.rs:338-574 | for every sequence of quads, empty included: one JSON document; names unique if and only if the header repeats none; a header that says what the options say; under every context a reader gets the quads in order, duplicates kept, IRIs re-expanded |
| JsonLdRoundTrip.NodeReadBack | oxigraph/lib/oxjsonld/src/from_rdf.rs:524-543 | a written id, relative or not, is read as its node exactly when the context does not misread it |
| JsonLdRoundTrip.RelativeFormUsed | oxigraph/lib/oxjsonld/src/from_rdf.rs:524-543 | the relative form of an IRI is written if and only if a reader without terms, resolving it against the base, gets the IRI back |
| JsonLdRoundTrip.QuadReadBack | oxigraph/lib/oxjsonld/src/from_rdf.rs:338-543 | a quad comes back as itself exactly when none of its IRIs is misread |
| JsonLdRoundTrip.RoundTrip | oxigraph/lib/oxjsonld/src/from_rdf.rs:338-574 | under any context: a reader gets back exactly the sequence serialized if and only if the context misreads none of the IRIs written |
| JsonLdRoundTrip.PlainRoundTrip | oxigraph/lib/oxjsonld/src/from_rdf.rs:338-574 | without base and prefixes: unique names, and the very quads, in order |
| JsonLdHeader.IndependentPrefixes | oxigraph/lib/oxjsonld/src/context.rs:782-857 | if no prefix IRI can be read with another prefix, the header is processed without error and every prefix stands for the IRI written |
| JsonLdHeader.HeaderCaptures | oxigraph/lib/oxjsonld/src/context.rs:1278-1376 | under the header's context an absolute IRI is captured exactly when a prefix named like its scheme, and allowed to be one, stands for something else |
| JsonLdHeader.HeaderFound | oxigraph/lib/oxjsonld/src/context.rs:312-370 | the header found in any document of the serializer is the one that the options ask for |
| JsonLdHeader.HeaderRoundTrip | oxigraph/lib/oxjsonld/src/from_rdf.rs:446-574 | under the context read from the document itself, with references resolved against the base found there, the quads come back if and only if no prefix claims an IRI of theirs: a condition on options and quads alone |
| JsonLdHeader.PrefixCapturesScheme | oxigraph/lib/oxjsonld/src/context.rs:1323-1352 | a prefix named like the IRI's scheme replaces it, for every such prefix and IRI |
| JsonLdHeader.SchemeCaptured | oxigraph/lib/oxjsonld/src/from_rdf.rs:524-543 | options and a quad for which every document written is read as another quad |
| JsonLdScopes.OutputDeterminesScopes | oxigraph/lib/oxjsonld/src/from_rdf.rs:327-336 | the open graph, subject and predicate can be read off the output alone |
| JsonLdScopes.OutputDeterminesHistory | oxigraph/lib/oxjsonld/src/from_rdf.rs:327-444 | without base and prefixes the output so far determines the quads accepted so far |
| JsonLdScopes.RefusedQuadHarmless | oxigraph/lib/oxjsonld/src/from_rdf.rs:242-246 | after a refused quad some unfinished document agrees with both state and output if and only if the quad's scopes were open |
| JsonLdRuns.SerializeAll | oxigraph/lib/oxjsonld/src/from_rdf.rs:240-254 | a run over any quads, refused ones included, writes what `RunOutput` says; exactly the supported quads are accepted |
| JsonLdVariables.StepIsMove | oxigraph/lib/oxjsonld/src/from_rdf.rs:349-444 | what a quad makes the serializer write depends on the four variables alone, which move as the source updates them |
| JsonLdVariables.RestIsVars | oxigraph/lib/oxjsonld/src/from_rdf.rs:338-574 | from the first accepted quad on, the variables and the quads determine the rest of the output |
| JsonLdShelf.FollowEvents | oxigraph/lib/oxjsonld/src/from_rdf.rs:349-444 | whatever the variables say, the events of an accepted quad take one state of the output, with nested graphs, to the next |
| JsonLdPlaces.FollowQuads | oxigraph/lib/oxjsonld/src/from_rdf.rs:349-444 | an accepted quad adds exactly one quad to what a reader gets: its object, under the scopes open in the output |
| JsonLdPlaces.FollowUnique | oxigraph/lib/oxjsonld/src/from_rdf.rs:349-444 | an accepted quad repeats a name exactly when it begins a predicate that the open node object has |
| JsonLdRefusal.FinalEvents | oxigraph/lib/oxjsonld/src/from_rdf.rs:338-574 | a balanced run ends with the events of one document |
| JsonLdRefusal.FinalQuads | oxigraph/lib/oxjsonld/src/from_rdf.rs:338-574 | a reader of it gets what was written before and then the accepted quads where they have landed |
| JsonLdRefusal.Unbalanced | oxigraph/lib/oxjsonld/src/from_rdf.rs:338-574 | an unbalanced run never ends with a document, whatever follows |
| JsonLdAnyRun.RefusedFirstQuad | oxigraph/lib/oxjsonld/src/from_rdf.rs:343-346 | if the first quad is refused, no run that follows gives a document |
| JsonLdAnyRun.RunIsDocument | oxigraph/lib/oxjsonld/src/from_rdf.rs:338-574 | for every sequence of quads, refused ones included, the output is a JSON document if and only if the graphs begun and ended balance, a condition on graph names and refusals alone |
| JsonLdAnyRun.RunReads | oxigraph/lib/oxjsonld/src/from_rdf.rs:338-574 | under every context a reader of it gets the accepted quads, in order, under the scopes where they have landed |
| JsonLdAnyRun.RunNames | oxigraph/lib/oxjsonld/src/from_rdf.rs:338-574 | no object repeats a name if and only if the header repeats none and no predicate is begun under a name its node object has |
| JsonLdAnyRun.HarmlessRun | oxigraph/lib/oxjsonld/src/from_rdf.rs:338-574 | if every refused quad has the scopes already named, refusals leave no trace in document, quads and names |
| JsonLdAnyRun.PlainRun | oxigraph/lib/oxjsonld/src/from_rdf.rs:338-574 | without base and prefixes a run is read as exactly the accepted quads if and only if it balances and every accepted quad lands in its own place |
| JsonLdAnyRun.QuadMisplaced | oxigraph/lib/oxjsonld/src/from_rdf.rs:349-444 | a quad refused, then one with its scopes accepted: a reader gets the latter under the old subject |
| JsonLdAnyRun.QuadMisplacedWitness | oxigraph/lib/oxjsonld/src/from_rdf.rs:349-444 | three quads on which that happens |
| JsonLdAnyRun.EndMismatched | oxigraph/lib/oxjsonld/src/from_rdf.rs:552-574 | a last quad refused whose graph is of the other kind: the output is no document |
| JsonLdAnyRun.NameRepeated | oxigraph/lib/oxjsonld/src/from_rdf.rs:366-393 | a refused repetition of a predicate after which a name is written twice |
| Bytes.FromToBe | crates/oxigraph-coprocessor/src/protocol.rs:97-112 | a length written in a field of some width is read back modulo that width |
| Bytes.ToFromBe | crates/oxigraph-coprocessor/src/protocol.rs:70-94 | bytes of a length field are the encoding of what they are read as |
| Bytes.MostSignificantFirst | crates/oxigraph-coprocessor/src/protocol.rs:70-94 | of a length field the first byte counts most |
| Bytes.LessExactly | crates/oxigraph-coprocessor/src/aggregate.rs:40-68 | keys are ordered by their first difference, a prefix first |
| TermCodec.EncodedTermLen | crates/oxigraph-coprocessor/src/lib.rs:72-109 | the loop over the children computes the recursive length, with its errors and its out-of-bounds slice |
| TermCodec.LengthOfEncoding | crates/oxigraph-coprocessor/src/lib.rs:72-109 | for every term tree and any bytes after it, the length found is the term's own |
| TermCodec.PrefixFree | crates/oxigraph-coprocessor/src/lib.rs:72-109 | no encoding is a proper prefix of another |
| TermCodec.EncodeInjective | crates/oxigraph-coprocessor/src/lib.rs:72-109 | an encoding determines its term, nested triples included |
| TermCodec.FittingLengthIsTerm | crates/oxigraph-coprocessor/src/lib.rs:72-109 | on arbitrary bytes, a length that fits marks a whole term |
| TermCodec.WholeTermCharacterised | crates/oxigraph-coprocessor/src/lib.rs:72-109 | a fitting length `n` is returned if and only if the data starts with a term of `n` bytes |
| StoredTerms.WrittenLength | oxigraph/lib/oxigraph/src/storage/binary_encoder.rs:628-806 | for every kind of term that the storage layer writes, nested triples included, the length found is that of what was written, whatever follows |
| StoredTerms.WrittenTermFound | oxigraph/lib/oxigraph/src/storage/binary_encoder.rs:599-626 | in a key of written terms each is found at its place, and none past the last |
| KeyTerms.ExtractTermBytes | crates/oxigraph-coprocessor/src/lib.rs:115-128 | the offset loop finds the n-th term, with its errors and its out-of-bounds slice |
| KeyTerms.ExtractConcatTermBytes | crates/oxigraph-coprocessor/src/lib.rs:134-142 | the loop joins the chosen terms, or fails like the first that cannot be taken out |
| KeyTerms.NthTermOfWholeKey | crates/oxigraph-coprocessor/src/lib.rs:115-128 | on a key of whole terms the n-th encoding is returned, and the error exactly past the end |
| KeyTerms.NthTermOfPrefix | crates/oxigraph-coprocessor/src/lib.rs:115-128 | whole terms are found whatever bytes follow them |
| KeyTerms.ConcatTermsOfWholeKey | crates/oxigraph-coprocessor/src/lib.rs:134-142 | the chosen encodings joined, or the error if a position is past the end |
| KeyTerms.NthTermCharacterised | crates/oxigraph-coprocessor/src/lib.rs:115-128 | on arbitrary keys, bytes are returned if and only if the key starts with that many whole terms and they are the last of them |
| KeyFilter.ExtractTermAt | crates/oxigraph-coprocessor/src/filter.rs:27-40 | finds exactly what `extract_term_bytes` finds, errors as absence |
| KeyFilter.EvaluateIsHolds | crates/oxigraph-coprocessor/src/filter.rs:13-25 | for every And/Or tree, short-circuit evaluation on bytes is the predicate's meaning on the decoded terms |
| KeyFilter.FilterPairsIsMatching | crates/oxigraph-coprocessor/src/filter.rs:42-55 | filtering raw pairs is the order-preserving filter of the rows by that meaning |
| KeyFilter.FilterPairsKeeps | crates/oxigraph-coprocessor/src/filter.rs:42-55 | on any pairs, exactly those pass that have a key and whose key, without the table byte, satisfies the predicate |
| Protocol.EncodeRequest | crates/oxigraph-coprocessor/src/protocol.rs:97-112 | appends op, table, truncated prefix length, prefix and filter |
| Protocol.OperationCodes | crates/oxigraph-coprocessor/src/protocol.rs:38-60 | the operation bytes are those of the documented table, and no other byte is one |
| Protocol.RequestRoundTrip | crates/oxigraph-coprocessor/src/protocol.rs:70-112 | decoding an encoded request gives it back if and only if its prefix is under 2^16 bytes and its filter is not an empty one |
| Protocol.EmptyFilterLost | crates/oxigraph-coprocessor/src/protocol.rs:70-112 | every request with an empty filter is read back without one |
| Protocol.AcceptedRequestRewritten | crates/oxigraph-coprocessor/src/protocol.rs:70-112 | every accepted request is the encoding of what it decodes to |
| Protocol.EncodeScanResponse | crates/oxigraph-coprocessor/src/protocol.rs:119-135 | the loop appends the header and every pair with its two lengths |
| Protocol.DecodePair | crates/oxigraph-coprocessor/src/protocol.rs:192-221 | one iteration reads the pair at the offset, or the first truncation error, in order |
| Protocol.DecodePairs | crates/oxigraph-coprocessor/src/protocol.rs:190-222 | the loop parses the declared number of pairs, and starts at most once per six bytes plus once, whatever count is declared |
| Protocol.DecodeScanResponse | crates/oxigraph-coprocessor/src/protocol.rs:181-224 | the parse of the whole response, within the same bound |
| Protocol.ScanResponseRoundTrip | crates/oxigraph-coprocessor/src/protocol.rs:119-224 | decoding an encoded response gives it back if and only if every count and length fits its field |
| Protocol.AcceptedScanResponseRewritten | crates/oxigraph-coprocessor/src/protocol.rs:119-224 | accepted bytes start with the encoding of what they decode to |
| Protocol.EncodeCountResponse | crates/oxigraph-coprocessor/src/protocol.rs:138-143 | writes the two counters |
| Protocol.CountResponseRead | crates/oxigraph-coprocessor/src/protocol.rs:20-36 | a reader following the documented layout gets both counters back |
| Protocol.EncodeMinMaxResponse | crates/oxigraph-coprocessor/src/protocol.rs:146-175 | writes the header and both key fields, an absent key as length 0 |
| Protocol.MinMaxResponseRead | crates/oxigraph-coprocessor/src/protocol.rs:146-175 | a reader following the documented layout gets both keys back, absent ones as absent, and a result count of 1 exactly if there is a key |
| IndexScan.BloomCheck | crates/oxigraph-coprocessor/src/scan.rs:55-71 | true exactly when the filter is empty or the bits of probes 0, 1 and 2 are all set |
| IndexScan.ScanProbePosition | crates/oxigraph-coprocessor/src/scan.rs:60-65 | probe `i` is at the hash plus `i` times its upper half, in 64 bits, modulo the number of bits |
| IndexScan.ExecuteIndexScan | crates/oxigraph-coprocessor/src/scan.rs:18-53 | the loop, with its continues and its early exit, computes the scan |
| IndexScan.PlainScan | crates/oxigraph-coprocessor/src/scan.rs:18-53 | without filter and limit a scan returns, and counts, exactly the pairs whose key has the table byte and then the prefix |
| IndexScan.PositionlessScan | crates/oxigraph-coprocessor/src/scan.rs:32-45 | with no positions the filter keeps all rows with the prefix or none |
| IndexScan.LimitedScan | crates/oxigraph-coprocessor/src/scan.rs:18-53 | a scan succeeds if and only if it reaches its limit before any key that runs off the end, and panics otherwise; with a limit `k` the rows are then the first `k` of the unlimited scan |
| IndexScan.NoFalseNegatives | crates/oxigraph-coprocessor/src/scan.rs:18-71 | an unlimited scan that succeeds returns every row whose three probe bits are set; a limited one returns it or `limit` others |
| Aggregate.ExecuteCount | crates/oxigraph-coprocessor/src/aggregate.rs:16-38 | both counters are the number of pairs whose key has the table byte and then the prefix |
| Aggregate.ExecuteMinMax | crates/oxigraph-coprocessor/src/aggregate.rs:40-68 | the keys are the lexicographic extremes of those pairs, absent exactly if there is none |
| Ranges.CollectAscending | crates/oxigraph-coprocessor/src/lib.rs:179-184 | over an ascending store, ascending ranges collect exactly the covered pairs, in store order |
| Ranges.CollectDisjoint | crates/oxigraph-coprocessor/src/lib.rs:179-184 | ranges that share no stored key collect every covered pair once |
| Ranges.CoveredSize | crates/oxigraph-coprocessor/src/lib.rs:179-184 | as many memberships as covered pairs if and only if no pair lies in two ranges |
| Plugin.CollectRanges | crates/oxigraph-coprocessor/src/lib.rs:179-184 | the pairs range by range; fails exactly if storage refuses a range |
| Plugin.ScanReply | crates/oxigraph-coprocessor/src/lib.rs:187-217 | the reply lists the rows with the prefix, all or none of them under a filter |
| Plugin.OnRawCoprocessorRequest | crates/oxigraph-coprocessor/src/lib.rs:169-239 | answers exactly the decodable requests on served ranges, with what `Answers` asks of each operation |
| Plugin.IndexScanPushdown | crates/oxigraph-coprocessor/src/lib.rs:169-239 | for ascending ranges the decoded reply is the client's own evaluation over the store, in order: the pairs in some range whose key has the table byte and then the prefix |
| Plugin.RemoteIndexScan | crates/oxigraph-coprocessor/src/lib.rs:169-239 | encode, plugin, decode: the result of an `IndexScan` or `FilterScan` is the client's own evaluation |
| Plugin.DisjointPushdown | crates/oxigraph-coprocessor/src/lib.rs:169-239 | for any ranges the decoded reply lists the rows range by range; they are the client's, each as often, if and only if no row with the prefix lies in two ranges |
| Plugin.CountPushdown | crates/oxigraph-coprocessor/src/lib.rs:218-225 | the count is the client's if and only if no row with the prefix lies in two ranges |
| Plugin.RowCountedTwice | crates/oxigraph-coprocessor/src/lib.rs:179-225 | one stored row and two ranges around it: found twice, wanted once |
| Plugin.MinMaxPushdown | crates/oxigraph-coprocessor/src/lib.rs:226-237 | the extremes are the client's for any ranges, absent, with a result count of 0, exactly if nothing matches |
| Plugin.BloomIsAllOrNothing | crates/oxigraph-coprocessor/src/lib.rs:187-216 | a filter cannot select rows, in an `IndexScan` or a `FilterScan`: the reply lists all rows found or none, and which depends on the filter and the empty string only |
| Plugin.FilterEmptiesReply | crates/oxigraph-coprocessor/src/lib.rs:187-200 | a filter of one zero byte: the reply counts a row and lists none |
| BloomBits.WithBitBits | crates/oxigraph-coprocessor/src/bloom.rs:37 | setting a bit changes that bit and no other |
| BloomBits.BitsOfNumber | crates/oxigraph-coprocessor/src/bloom.rs:37 | positions number the bits of a filter as those of one number, its first byte least significant |
| BloomBits.ProbeIsDoubleHash | crates/oxigraph-coprocessor/src/bloom.rs:33-50 | probe `i` is the first hash plus `i` times the second, in 64 bits, modulo the number of bits |
| Bloom.BloomFilter.constructor | crates/oxigraph-coprocessor/src/bloom.rs:14-22 | a filter of the given sizes with all bits off |
| Bloom.BloomFilter.FromBytes | crates/oxigraph-coprocessor/src/bloom.rs:24-31 | a filter with the given bytes and eight bits per byte |
| Bloom.BloomFilter.Insert | crates/oxigraph-coprocessor/src/bloom.rs:33-39 | switches on exactly the key's probe positions |
| Bloom.BloomFilter.MayContain | crates/oxigraph-coprocessor/src/bloom.rs:41-50 | true exactly when all the key's probes are on |
| Bloom.InsertAll | crates/oxigraph-coprocessor/src/bloom.rs:33-39 | after any inserts the bits on are the old ones and the probes of the inserted keys |
| Bloom.BuildAndAsk | crates/oxigraph-coprocessor/src/bloom.rs:24-54 | for every size: the filter, and its copy made from bytes, answer yes exactly when every probe, as each reduces it, is a probe of an inserted key; so no false negatives before the trip, nor after it for multiples of 8 bits |
| Bloom.BytesRoundTrip | crates/oxigraph-coprocessor/src/bloom.rs:24-54 | for all hash functions and inserted keys a filter reread from its bytes answers every key as before, if and only if the size is a multiple of 8 bits |
| Bloom.RereadLosesKey | crates/oxigraph-coprocessor/src/bloom.rs:24-54 | for every other size, a hash function with which an inserted key is found and, after the trip through bytes, is not |
| Dataset.ReplayOps | crates/oxigraph-server/src/transactions.rs:213-236 | quad by quad, the operations in order: the outcome is the one that the datasets on the way lead to |
| Dataset.ReplayExactly | crates/oxigraph-server/src/transactions.rs:213-236 | a replay succeeds with a dataset if and only if a chain of datasets leads there, where inserts add, removes take away and each SPARQL update is evaluated on the dataset it finds; it fails if and only if such a chain leads to an update that fails |
| Transactions.BuffersAreIndependent | crates/oxigraph-server/src/transactions.rs:48-209 | over every run a transaction's buffer is determined by its own calls and the clean-ups |
| Transactions.BufferExactly | crates/oxigraph-server/src/transactions.rs:48-209 | over every run a transaction has a buffer if and only if it was begun and since then not begun anew, committed, rolled back or found by a clean-up more than `timeout` ticks after its last own call; the buffer is the operations of its calls since then, in order |
| Transactions.StoreIsLedger | crates/oxigraph-server/src/transactions.rs:48-209 | over every run the store is the initial one with the buffers of the successful commits replayed whole, in commit order |
| Transactions.StoreIsReplay | crates/oxigraph-server/src/transactions.rs:48-236 | over every run the store is the initial one with the operations of the successful commits replayed, dataset by dataset, and with nothing else |
| Transactions.UncommittedContributesNothing | crates/oxigraph-server/src/transactions.rs:156-209 | if no commit of a transaction succeeds, the run without any of its calls ends with the same store |
| Transactions.EndedTransactionIsGone | crates/oxigraph-server/src/transactions.rs:156-188 | after commit or rollback a transaction has no buffer, whatever follows, so it is replayed at most once |
| Transactions.QueryPreviewsCommit | crates/oxigraph-server/src/transactions.rs:124-177 | at any point of any run a query sees what committing then would install, and fails as that commit would |
| Transactions.TransactionRegistry.Begin | crates/oxigraph-server/src/transactions.rs:48-63 | registers an empty buffer; nothing else changes |
| Transactions.TransactionRegistry.Add | crates/oxigraph-server/src/transactions.rs:66-85 | buffers the inserts and refreshes the time; a parse error is reported before an unknown id |
| Transactions.TransactionRegistry.Remove | crates/oxigraph-server/src/transactions.rs:88-107 | buffers the removes and refreshes the time |
| Transactions.TransactionRegistry.Update | crates/oxigraph-server/src/transactions.rs:110-118 | buffers the update text |
| Transactions.TransactionRegistry.Query | crates/oxigraph-server/src/transactions.rs:124-152 | answers from the store with the buffer replayed, SPARQL updates included, and changes nothing |
| Transactions.TransactionRegistry.Commit | crates/oxigraph-server/src/transactions.rs:156-177 | the transaction leaves the registry whatever happens; the store moves to where the replay leads exactly if everything succeeds; a failing update is reported |
| Transactions.TransactionRegistry.Rollback | crates/oxigraph-server/src/transactions.rs:180-188 | drops the buffer |
| Transactions.TransactionRegistry.CleanupExpired | crates/oxigraph-server/src/transactions.rs:192-209 | drops exactly the transactions idle longer than the timeout and counts them |
| Transactions.Execute | crates/oxigraph-server/src/transactions.rs:48-236 | any sequence of calls leaves the store that the commits alone account for |
| ChangelogModel.RecordKeepsNumbering | crates/oxigraph-server/src/changelog.rs:105-138 | recording keeps ids below the counter, stores the new entry, and keeps an old one exactly as retention says |
| ChangelogModel.UndoableExactly | crates/oxigraph-server/src/changelog.rs:108-123 | an entry can be undone if and only if its operations hold no SPARQL update and list at most 100,000 quads |
| ChangelogModel.InsertMembers | crates/oxigraph-server/src/changelog.rs:108-117 | the inserted list has exactly the quads of the insert operations |
| ChangelogModel.RemoveMembers | crates/oxigraph-server/src/changelog.rs:108-117 | the removed list has exactly the quads of the remove operations |
| ChangelogModel.UndoNameSaysId | crates/oxigraph-server/src/changelog.rs:333 | the operation text of an undo entry determines which entry was undone |
| ChangelogModel.RetentionBound | crates/oxigraph-server/src/changelog.rs:369-430 | with retention at most `retain` entries are stored |
| Changelog.EntryQuads | crates/oxigraph-server/src/changelog.rs:433-507 | the inserts are exactly the quads that describe the entry |
| Changelog.DeltaStored | crates/oxigraph-server/src/changelog.rs:433-507 | the stored counts are those of the lists, and a list is stored if and only if it is not empty |
| Changelog.ChangelogService.GreatestId | crates/oxigraph-server/src/changelog.rs:64-82 | the loop finds the greatest stored id |
| Changelog.ChangelogService.InitCounter | crates/oxigraph-server/src/changelog.rs:59-87 | the counter is one past the greatest stored id, so the invariant holds |
| Changelog.ChangelogService.WriteEntry | crates/oxigraph-server/src/changelog.rs:433-507 | the store holds one more entry and the same user data |
| Changelog.ChangelogService.Prune | crates/oxigraph-server/src/changelog.rs:369-430 | exactly the entries more than `retain` behind go; user data stays |
| Changelog.ChangelogService.Record | crates/oxigraph-server/src/changelog.rs:90-166 | stores the entry with its delta, prunes, and broadcasts it with the same fields; undoable if and only if there is no SPARQL and at most 100,000 quads; user data stays; keeps the invariant |
| Changelog.ChangelogService.Get | crates/oxigraph-server/src/changelog.rs:247-306 | returns the recorded entry, delta included, of every surviving id, and nothing for the others |
| Changelog.ChangelogService.List | crates/oxigraph-server/src/changelog.rs:169-244 | the page of the strictly descending list of stored ids, with each entry's fields but for the delta |
| Changelog.PageContents | crates/oxigraph-server/src/changelog.rs:204 | a page is as long as asked for or as what is left, and starts at its offset |
| Changelog.PagesJoin | crates/oxigraph-server/src/changelog.rs:185-204 | adjacent pages join to one page, and all pages to the whole list |
| Changelog.NewestFirstUnique | crates/oxigraph-server/src/changelog.rs:203 | there is only one descending list of the stored ids |
| Changelog.ChangelogService.Undo | crates/oxigraph-server/src/changelog.rs:309-341 | applies the inverse delta to user data and records it; refused exactly if disabled, unknown or not undoable |
| Changelog.ChangelogService.Purge | crates/oxigraph-server/src/changelog.rs:344-367 | empties the changelog, counts its quads, leaves user data and the counter |
| ServerRuns.RunKeepsNumbering | crates/oxigraph-server/src/changelog.rs:59-430 | over every run, restarts included, stored ids are below the counter and retention bounds the log |
| ServerRuns.EventIdsRise | crates/oxigraph-server/src/changelog.rs:59-430 | over every run the ids of the events rise strictly if and only if no event is recorded after a restart that follows a purge with no event in between (a purge before the first event does no harm) |
| ServerRuns.StaysConsistent | crates/oxigraph-server/src/changelog.rs:59-163 | every request but a purge of what was sent, a restart and pruning included, keeps ids below the counter and the entry of the newest event stored |
| ServerRuns.IdReused | crates/oxigraph-server/src/changelog.rs:59-87 | after a purge and a restart the next event repeats id 1 |
| ServerRuns.IdsAfterPurge | crates/oxigraph-server/src/changelog.rs:59-430 | right after a purge of what was sent: ids go on rising if and only if an event comes before the next restart, or none comes at all, and so after every later purge |
| ServerRuns.EffectIsReplay | crates/oxigraph-server/src/transactions.rs:213-227 | replaying inserts and removes never fails and has the abstract effect |
| ServerRuns.LastWordDecides | crates/oxigraph-server/src/transactions.rs:213-227 | whether a quad is in the result depends on the last operation that mentions it |
| ServerRuns.CommitFollowed | crates/oxigraph-server/src/changelog.rs:108-163 | following a commit's event gives the committed data if and only if nothing removed is re-inserted at the end |
| ServerRuns.ReinsertedQuadLost | crates/oxigraph-server/src/changelog.rs:108-163 | a quad removed and inserted again is lost to whoever follows the event |
| ServerRuns.HandleFollowed | crates/oxigraph-server/src/changelog.rs:100-163 | for every request, following its events gives the new user data if and only if the request is followable; for a commit that mixes quads and SPARQL this compares the committed data with the recorded lists |
| ServerRuns.SparqlCommitFollowed | crates/oxigraph-server/src/changelog.rs:108-163 | a commit of SPARQL updates alone is followed correctly if and only if it changes nothing |
| ServerRuns.InStepExactly | crates/oxigraph-server/src/changelog.rs:100-163 | a replica agrees with the server after every request of a run if and only if every request is followable |
| ServerRuns.ReplicaSafe | crates/oxigraph-server/src/changelog.rs:105-163 | over every run of diffed updates, undos, purges, restarts and followable commits, following all events gives the server's user data |
| ServerRuns.UndoAfterCommit | crates/oxigraph-server/src/changelog.rs:108-123 | undo right after a commit restores the data if and only if no inserted quad was there and every quad only removed was |
| ServerRuns.UndoAccepted | crates/oxigraph-server/src/changelog.rs:108-123 | right after a request is recorded, undoing it is accepted if and only if it holds no SPARQL and lists at most 100,000 quads; otherwise nothing changes and nothing is sent |
| ServerRuns.NeverUndone | crates/oxigraph-server/src/changelog.rs:309-314 | a request recorded with SPARQL text or with more than 100,000 quads is not undone after any later requests, unless both purges and restarts, which may give its id to another, are among them |
| ServerRuns.UndoRemovesOldQuad | crates/oxigraph-server/src/changelog.rs:309-333 | undoing the insert of a quad that was there removes it |
| LifoUndo.UndoAll | crates/oxigraph-server/src/changelog.rs:309-333 | undoing held changes newest first succeeds if and only if the oldest entry outlives the records of the other undos |
| LifoUndo.NewestFirst | crates/oxigraph-server/src/changelog.rs:309-397 | after `n` updates, undoing all newest first finds every entry if and only if `retain` is 0 or at least 2n - 1, and then restores the data |
| UpdateHandlers.EvaluateWithDiff | crates/oxigraph-server/src/main.rs:1438-1479 | the operations returned are the two set differences, or the text on a large store, or nothing |
| UpdateHandlers.HandleUpdate | crates/oxigraph-server/src/main.rs:586-591 | an update is a step of the abstract server: diffed, blind on a large store, unrecorded if disabled or rejected by validation after the write |
| UpdateHandlers.ReplayLeavesChangelogAlone | crates/oxigraph-server/src/transactions.rs:213-236 | replaying user operations leaves the changelog graph as it was |
| UpdateHandlers.HandleCommit | crates/oxigraph-server/src/main.rs:931-938 | a commit, with SPARQL updates or without, is a step of the abstract server; the transaction is gone either way |
| Serving.Serve | crates/oxigraph-server/src/main.rs:586-938 | from a store with any changelog an earlier server left, any sequence of updates, undos, purges, transaction calls and restarts: user data and events are those of a run of the abstract server, request by request on the stores in between |
| Serving.ServeOne | crates/oxigraph-server/src/main.rs:586-938 | each request does to the server what `Matches` says, buffers included |
| Replication.ServedInStep | crates/oxigraph-server/src/main.rs:586-938 | a copy of the server's data that follows the events agrees with the server program after every request if and only if every request is told: updates accepted and diffed, commits re-inserting nothing they removed |
| Replication.ServedIdsRise | crates/oxigraph-server/src/main.rs:586-938 | the ids broadcast by the server program, started on what an earlier server left, rise strictly if and only if no event follows a restart that follows a purge with no event in between |
| Replication.SubscriberHoldsServerData | crates/oxigraph-cdc/src/server.rs:180-229 | a subscriber holds the server's user data after the request whose event was delivered last, for every followable run whose event ids rise and no event after a lag |
| Cdc.CollectBatch | crates/oxigraph-cdc/src/server.rs:206-219 | a batch has 1 to 100 events and is exactly what was received in the window |
| Cdc.HandleWebsocket | crates/oxigraph-cdc/src/server.rs:180-229 | events are delivered whole and in order but for at most one batch; exactly the lags that find no batch open are reported, and exactly the ticks that find none open are answered with a ping |
| Cdc.ReceivedInOrder | crates/oxigraph-cdc/src/channel.rs:23-43 | what is received is an order-preserving duplicate-free part of what was sent |
| Cdc.CompleteUnlessLagged | crates/oxigraph-cdc/src/server.rs:180-229 | nothing before the last received event is missing if and only if no event arrives after a lag |
| Cdc.LagInWindowIsSilent | crates/oxigraph-cdc/src/server.rs:206-219 | a run in which every send succeeds, an event is missing between two delivered ones, and no message says so |
| Cdc.NotificationCarriesEvents | crates/oxigraph-cdc/src/notification.rs:38-77 | a notification has each event's operation and lists, and following it is following its events, one or many |
| Cdc.ActivityTruthful | crates/oxigraph-cdc/src/notification.rs:38-88 | state and id are the last event's; `Create` and `Delete` are said exactly of single events that only insert or only remove, and so only grow or only shrink the data |
| Cdc.StatesIncrease | crates/oxigraph-cdc/src/notification.rs:38-77 | the `state` of a later batch is greater |
| Cdc.SubscriberInStep | crates/oxigraph-cdc/src/server.rs:180-229 | with no event after a lag, applying the messages is applying the events sent, up to the last delivered one |
| Cdc.Subscribe | crates/oxigraph-cdc/src/server.rs:180-229 | a connection delivers a subsequence of the events sent, in batches of 1 to 100 with rising states, gapless if no event follows a lag |
| Calendar.YearOfEraEncloses | crates/oxigraph-server/src/changelog.rs:571-583 | the year-of-era formula finds the year whose days enclose the day, without underflow |
| Calendar.DateOfDay | crates/oxigraph-server/src/changelog.rs:571-583 | every day count gives a valid Gregorian date whose day number it is |
| Calendar.DayOfDate | crates/oxigraph-server/src/changelog.rs:571-583 | every date from 1970 on is the date of its day number |
| Calendar.DayNumberInjective | crates/oxigraph-server/src/changelog.rs:571-583 | different dates have different day numbers |
| Calendar.Epoch | crates/oxigraph-server/src/changelog.rs:571-583 | day 0 is 1970-01-01 |
| Calendar.Successor | crates/oxigraph-server/src/changelog.rs:571-583 | the next day's date is the calendar successor |
| StreamAdapter.ReadForWrite.Refill | crates/oxigraph-server/src/main.rs:1739-1756 | refilling loses no byte and stops only with unread bytes or at the end |
| StreamAdapter.ReadForWrite.Read | crates/oxigraph-server/src/main.rs:1737-1763 | what is returned is what was due next, as much as there is room for unless the buffer is used up; the rest of the caller's array is untouched; nothing is returned only for no room or at the end |
| StreamAdapter.ReadMany | crates/oxigraph-server/src/main.rs:1737-1763 | over any reads, for producers that end and those that do not: the bytes joined are a prefix of the initial bytes, the chunks of all calls in order, the last included, and the message of a failed one; an empty read comes only after all of it; enough reads return all of it |

## Left out

- JsonLdReader.AbsoluteIriReadBack: contexts whose terms are mapped to null or to a keyword, and full IRI syntax, are not modelled; the serializer's header makes no such term, and IRIs of quads are valid.
- JsonLdHeader.HeaderRoundTrip: prefix names that are keywords or contain a colon or slash are outside `Processable`; resolution against the base is taken to undo `relativize`.
- Cdc.SubscriberInStep: is about what was delivered; events of a batch whose send failed are lost with the connection, as in the source.
- ServerRuns.HandleFollowed: of a commit that mixes quads and SPARQL the condition only compares the committed data with the recorded lists, since what SPARQL does is an input; `CommitFollowed` and `SparqlCommitFollowed` have conditions on the operations or the data alone, and `CommitTold` in `ServedInStep` follows the same split.
- ServerRuns.ReplicaSafe: states agreement at the end of a run; agreement after every request, with the converse, is `InStepExactly`.
- StreamAdapter.ReadMany: requires that the producer eventually writes something or ends, since a read of the source waits for ever otherwise.
- JsonLdReader: compaction, lists, `@type` members, nested node objects, remote contexts and error reporting of the JSON-LD processor are not modelled; blank node labels are kept as written.
- JsonTree.JsonToNode: parsing text into events is an input; running out of events stands for waiting after the end of input.
- StoredTerms: how hashes, short strings and numbers become bytes of their width; the fields are given as bytes. The type byte 48 is read but no longer written.
- KeyFilter: the plugin does not apply filter predicates, so they are proved on their own.
- Protocol: the numbers inside error messages are dropped.
- Bloom: SipHash, the floating-point sizes and false-positive rates; hashes are arbitrary functions and the sizes are parameters. The hash of `scan.rs` and those of `bloom.rs` are not related.
- Calendar: 64-bit overflow for day counts near 2^64, and the rest of timestamp formatting.
- Changelog: failing storage calls, the write lock and 64-bit overflow of the counter; printing and parsing of ids, flags and N-Quads are taken as inverse pairs.
- Transactions: ids are given by the caller instead of drawn at random, time is a tick, each call is atomic, and the telemetry gauge is left out.
- UpdateHandlers: what SHACL validation decides is an input; that it runs after the write and before the record is modelled.
- `POST /store`: the body is parsed twice, so recorded blank nodes need not be those loaded.
- SPARQL evaluation, RDF parsing and the storage engines are arbitrary partial functions on sets of quads.
- The server-sent-events handler, subscriptions, and the envelope fields of notifications other than id, type, state and deltas.
- HTTP routing, authentication, content negotiation, command lines, language bindings, benches and build scripts.
- JsonLdRuns.SerializeAll: `output` is what is handed to the JSON writer. The writer is not modelled: at the first event it rejects, which only unbalanced runs give it, or at an I/O error, the source drops the rest of that call's events (oxigraph/lib/oxjsonld/src/from_rdf.rs:256-261), so of such a run less than `output` is written.
- JsonLdAnyRun.RunReads: where an object repeats a name (`NameRepeated`) it is about a reader that takes all members of that name; one that keeps the last, as `JsonTree`, gets fewer quads.
- Serving.Serve: clients that write into the changelog graph themselves, by SPARQL or in transaction bodies, are not modelled.
