# Verified core of link-tiny and its neighbours

link-tiny links paragraphs of documentation to the code symbols they name. It reads two graphs
through a server that may cut any page short, matches identifiers by spelling and rarity, and keeps
the links in an append-only log (`links.jsonl`) beside a normalised SQLite index (`links.db`). A
build is repeated over the life of a project: links whose document or symbol has drifted are marked
stale, unchanged ones are skipped, new ones are appended. This project models that pipeline from the
characters of the log file up to whole sequences of builds, and four smaller algorithms of the same
repository: merging per-collection search results, building an entity graph, fitting a response
envelope under a size cap, and ordering a process tree for termination.

Loops and objects of the source are methods and classes (`Store.LinkStore`, `Pipeline.Project`,
`MatcherLoop.KeyList`), each proved against a function or a property that does not mention how the
loop works; the laws about those functions are lemmas. One module stands for one component:

- `Json`, `LogText`, `LogFile`: JSON printing and reading, and the log file as characters, with torn ends
- `Keys`, `Records`, `Tables`, `Store`, `DualStore`: link identity, the last-writer-wins view, the four tables, the store, and its two read paths
- `Build`, `Pipeline`, `BuildFile`: one build as a step on the log, a project across builds, and builds on the characters of the file
- `PagedReader`, `EntityRead`, `DocSha`: the readers and the hash join
- `Normalizers`, `Scoring`, `Matcher`, `MatcherLaws`, `MatcherLoop`: spelling keys, scores and the matcher (meaning, laws, loops)
- `EndToEnd`: what the matcher delivers is what the build step needs
- `TopK`, `EntityGraph`, `Envelope`, `Processes`: the smaller algorithms
- `Common`, `Sorting`: insertion-ordered dictionaries, stable sorting

Five promises of the source hold only under a condition, which the project states:

- A link whose symbol has an end line but no start line loses its end line on the way into a record.
  Its record is then taken for drifted by the next build, so it is staled and written again for ever
  (`Build.EndOnlySymbolKeepsWriting`); or it shares its key with a symbol that has no lines at all,
  and when only one of the two has a hash they keep replacing each other (`Build.TwinsKeepWriting`).
  Builds settle exactly when neither happens (`Build.SecondRunIsNoOpExactly`). A record appended with
  such a span is shown without it by the tables (`Store.TablesShowLatestExactly`).
- The documentation of `DocShaIndex` says that an ambiguous spelling degrades to null and is never a
  guess. That holds for the flattened spelling. An ambiguous spelling without extension falls
  through to the file stems and can resolve to the hash of an unrelated file
  (`DocSha.AmbiguousBareFallsThrough`, `DocSha.BareAmbiguity`).
- `_depth` climbs for ever on a process that is its own targeted ancestor, as when a worker's child has
  the id of the worker's dead parent (`Processes.WalksStopExactly`, `Processes.ReusedParentNeverStops`).
- A dry run skips staling, so in every mode the active links it projects exceed those of the real run
  by exactly the links the real run stales without writing again (`Pipeline.DryRunOvercounts`); the
  records it announces are those the real run appends.
- Merging per-collection answers gives a true top k when keys differ within each collection
  (`TopK.SearchAll`); otherwise a repeated key may take the place of another one in an answer
  (`TopK.OneCollectionExactly`, `TopK.RepeatedKeyHidesAPoint`).

## Model

| member | source | states |
|---|---|---|
| `Json.LoadsDumps` | link-tiny/link_store.py:160-161 | Reading undoes printing for every well-formed value, through escapes, blanks, arrays and objects. |
| `Json.DumpsInjective` | link-tiny/link_store.py:306-309 | Two values with the same text are the same value, so a printed paragraph id identifies it. |
| `Json.TornObjectIsUndecodable` | link-tiny/link_store.py:957-965 | No proper prefix of a printed object decodes: a torn line is always recognised as torn. |
| `Json.DumpsPrintable` | link-tiny/link_store.py:854-855 | Printed JSON has no control character, so a record is exactly one line. |
| `LogText.AppendRefines` | link-tiny/link_store.py:846-855 | Appending to any file, with or without a torn last line, closes that line first and adds whole lines after it. |
| `LogText.CutRefines` | link-tiny/link_store.py:942-969 | Losing everything from any character on leaves the lines before it and at most one shortened line. |
| `LogFile.LoadLinks` | link-tiny/link_store.py:951-969 | The reading loop returns the decodable objects of the file's lines, in order. |
| `LogFile.LoadReturnsSurvivors` | link-tiny/link_store.py:942-969 | Reading a torn file returns exactly the records written to their last character, in order. |
| `LogFile.EveryRunKeepsWholeRecords` | link-tiny/link_store.py:844-857 | For every sequence of appends and crashes, wherever they cut, reading gives the records whose text is still complete, oldest first. |
| `LogFile.AppendKeepsEarlier` | link-tiny/link_store.py:844-857 | Whatever the file holds, even foreign text, an append adds its records behind what was readable before. |
| `LogFile.TornTailNeverDamagesLaterRecords` | link-tiny/link_store.py:846-857 | A written log cut at any character and then appended to reads as the records complete before the cut followed by all new ones. |
| `Keys.ParaKeyInjective` | link-tiny/link_store.py:306-309 | A paragraph key determines document id and paragraph id, whatever characters the document id holds, NULs included. |
| `Keys.SymKeyExactly` | link-tiny/link_store.py:287-289 | Two symbol keys coincide exactly when lines and kind agree and path and name differ at most in where the NUL between them stands. |
| `Keys.SymKeyInjective` | link-tiny/link_store.py:287-289 | With NUL-free paths a symbol key determines path, name, both line numbers and the kind. |
| `Keys.SymKeyCollidesThroughNul` | link-tiny/link_store.py:289 | A NUL that moves from a path into a name leaves the key unchanged. |
| `Records.LatestRecords` | link-tiny/link_store.py:884-895 | The dictionary-and-order loop computes the latest view. |
| `Records.LatestIsLastWith` | link-tiny/link_store.py:884-895 | The view holds under every key exactly the last record logged with it. |
| `Records.LatestKeepsFirstAppearanceOrder` | link-tiny/link_store.py:892-895 | The view lists exactly the logged keys, ordered by first appearance. |
| `Records.LatestConcat` | link-tiny/link_store.py:884-895 | The view of a longer log is the view of its beginning with the rest written over it. |
| `Tables.Upsert` | link-tiny/link_store.py:312-490 | Gathering a batch, inserting its rows and writing its links has the effect of the row-by-row specification. |
| `Tables.UpsertedValid` | link-tiny/link_store.py:388-490 | Any batch keeps keys unique and foreign keys valid. |
| `Tables.UpsertedRepresents` | link-tiny/link_store.py:441-490 | A batch changes the link rows exactly as it changes the last-writer-wins view, position by position. |
| `Tables.UpsertedNorm` | link-tiny/link_store.py:282-289 | The tables make no difference between absent lines and two missing line numbers. |
| `Tables.UidsIdentify` | link-tiny/link_store.py:432-439 | Two links share both surrogate ids only if they have the same key, so the conflict clause never overwrites another link. |
| `Tables.JoinReadsBack` | link-tiny/link_store.py:525-556 | The row written for a record joins back to that record in every compared field, its span shown only if it has a start. |
| `Tables.JoinIsView` | link-tiny/link_store.py:920-932 | The four-table join in rowid order shows the view the tables stand for, in the view's order. |
| `Store.LinkStore.Append` | link-tiny/link_store.py:833-859 | Log and tables grow together; one bad record rejects the batch and nothing is written. |
| `Store.LinkStore.MarkStale` | link-tiny/link_store.py:972-997 | Appends stale copies of exactly the active latest records that satisfy the predicate, and keeps log and tables in step. |
| `Store.LinkStore.Compact` | link-tiny/link_store.py:862-881 | The log becomes the given records and the rebuilt tables show them. |
| `Store.LinkStore.LatestLinks` | link-tiny/link_store.py:916-932 | For every log with NUL-free paths, serves its last-writer-wins view under the keys the tables tell apart. |
| `Store.LinkStore.StatusCounts` | link-tiny/link_store.py:808-825 | Counting link rows by status counts the served links, and active plus stale is the total. |
| `Store.TablesShowLatestExactly` | link-tiny/link_store.py:525-556 | With NUL-free paths the join is the last-writer-wins view of the log, keys read as path, name, start, end and kind; it equals the latest view if and only if no logged span lacks its start line. |
| `Store.Run` | link-tiny/link_store.py:833-997 | For every sequence of append, mark-stale and compact steps from an empty store, the same two statements hold of what is served. |
| `Store.SpanWithoutStartIsLost` | link-tiny/link_store.py:546 | A record with an end line and no start line is shown differently from how it was logged. |
| `DualStore.RecordReadsBack` | link-tiny/link_store.py:113-124 | Looking up the fields of a printed and decoded record gives the record, if its score survives printing. |
| `DualStore.FourPlacesShow` | link-tiny/link_engine.py:1226 | Every score of four decimal places survives being printed in units of a ten-thousandth and read back. |
| `DualStore.FourPlaceRecordIsRead` | link-tiny/link_store.py:844-857 | Any acceptable record with such a score, written to an empty file, is read back with its time stamp. |
| `DualStore.FileHoldsTheLog` | link-tiny/link_store.py:844-857 | After every sequence of steps on records whose scores survive printing, where staling decides on what it reads back from the text, reading the characters of the file gives the log record by record. |
| `DualStore.ReadBothWays` | link-tiny/link_store.py:898-939 | The two read paths, join of the tables and latest view of the file, return the same links in the same order after every run with NUL-free paths, exactly when no span lacks its start. |
| `Build.BuildLookup` | link-tiny/link_engine.py:1446-1487 | In every mode, a key shows the record written for it, or its stale copy, or what it showed before. |
| `Build.IncrementalLookup` | link-tiny/link_engine.py:1446-1487 | After an incremental build a key shows the last fresh record of it that differed from what was shown before the build, although staling comes first. |
| `Build.IncrementalBuildIsSteady` | link-tiny/link_engine.py:1422-1475 | On a snapshot that settles, every match is afterwards active with the hashes just joined, and no active link is drifted. |
| `Build.NoOpIsSteady` | link-tiny/link_engine.py:1437-1475 | On any snapshot a build leaves the log as it is exactly when every match is current and no active link is drifted. |
| `Build.SteadyExactly` | link-tiny/link_engine.py:1057-1098 | A build reaches that state from any log if and only if every match is recognised when read back and matches stored under one key have one code hash. |
| `Build.SecondRunIsNoOpExactly` | link-tiny/link_engine.py:1437-1475 | A second build on the same graphs and baselines leaves the log identical under the same condition, and only then. |
| `Build.LinesDecideRecognition` | link-tiny/link_engine.py:1094-1098 | A symbol with a start line, or with no line at all, is always recognised. |
| `Build.UnsettledKeepsWriting` | link-tiny/link_engine.py:1437-1475 | If the condition fails, every incremental build writes, whatever the log. |
| `Build.EndOnlySymbolKeepsWriting` | link-tiny/link_engine.py:1094-1098 | Any symbol with an end line and no start line, matched alone, makes every build write. |
| `Build.TwinsKeepWriting` | link-tiny/link_engine.py:1343-1347 | Any such symbol and its lineless twin, one with a hash and one without, are both recognised, share a key and make every build write. |
| `Build.ReconcileShowsExactlyTheMatches` | link-tiny/link_engine.py:1402-1487 | After a reconcile the active links are exactly the last fresh match of every key, scores included, and the appending and the compacting form agree. |
| `Pipeline.DeltaFilter` | link-tiny/link_engine.py:1463-1475 | The filter loop keeps, in order, the fresh records that are not active with the same two hashes. |
| `Pipeline.Project.BuildLinks` | link-tiny/link_engine.py:1329-1542 | A refused or dry build changes nothing; a dry one reports no staled links and the counts of its projection; a real one writes exactly what it reports and saves the counts of the new log. |
| `Pipeline.Project.ServedCounts` | link-tiny/link_store.py:808-825 | The counts served from the tables are those in state.json, for every project with NUL-free paths. |
| `Pipeline.CountsAddUp` | link-tiny/link_store.py:1026-1070 | Active plus stale is the total, which is the number of distinct keys ever logged. |
| `Pipeline.ProjectedCounts` | link-tiny/link_engine.py:1496-1514 | Counts taken from records not yet stamped are those of the stamped log. |
| `Pipeline.BuildKeepsCanonical` | link-tiny/link_engine.py:1094-1098 | No build ever logs a span that lacks its start. |
| `Pipeline.DryRunProjection` | link-tiny/link_engine.py:1402-1501 | In every mode the active links a dry run projects are those of the real run and, disjoint from them, the links the real run stales without rewriting; a compacting run has none of those. |
| `Pipeline.DryRunOvercounts` | link-tiny/link_engine.py:1496-1512 | The active count a dry run reports exceeds that of the real run by the number of those links, so it is right exactly when there are none. |
| `Pipeline.VanishedSymbolIsLost` | link-tiny/link_engine.py:1437-1457 | A link whose symbol is gone, with nothing matched any more, is one of them. |
| `Pipeline.RunBuilds` | link-tiny/link_engine.py:1329-1520 | After any sequence of builds of any mode on any graphs, refused ones included, saved counts, served counts and the counts of the log agree, and with NUL-free paths the served links are the latest view of the log, in order. |
| `BuildFile.FileHoldsBuilds` | link-tiny/link_engine.py:1415-1487 | After any sequence of builds, each working from the records it reads in the file, the characters of the file read back as the log of those builds. |
| `PagedReader.Absorb` | link-tiny/link_engine.py:301-308 | Absorbing a page keeps the rows strictly ordered and adds exactly the unseen ones. |
| `PagedReader.ReadWindow` | link-tiny/link_engine.py:315-346 | The page and group loop terminates and leaves no row of the window unread. |
| `PagedReader.EnoughIsAll` | link-tiny/link_engine.py:312-313 | The early exit on the expected count never loses a row. |
| `PagedReader.PagedRows` | link-tiny/link_engine.py:284-355 | For every table, every batch size and every server that returns arbitrary non-empty prefixes, all rows are returned once each in strict order; the truncation warning appears exactly when the table repeats an id tuple. |
| `PagedReader.StrictIsUnique` | link-tiny/link_engine.py:284-355 | That determines the returned sequence: no server behaviour can change it. |
| `EntityRead.FullScan` | link-tiny/link_engine.py:493-535 | The edge scan collects exactly what the graph says about every paragraph. |
| `EntityRead.TwoStageRead` | link-tiny/link_engine.py:430-491 | The filtered read collects exactly what stamped entities that match a symbol say, in chunks of 500 and any order of answers. |
| `EntityRead.ReadEntityNames` | link-tiny/link_engine.py:406-535 | Two stages are used exactly when the project has stamped entities. |
| `EntityRead.TwoStageMissesUnstampedOnly` | link-tiny/link_engine.py:419-535 | The full scan gives a paragraph the keys of the two-stage read plus those of unstamped entities, and nothing else. |
| `EntityRead.TwoStageReadGivesSameLinks` | link-tiny/link_engine.py:419-535 | With every mentioned entity stamped, both reads lead to the same set of scored links. |
| `DocSha.BuildIndex` | link-tiny/link_engine.py:892-923 | A spelling is in its table exactly when some file has it, with a hash exactly when all files with that spelling agree. |
| `DocSha.ResolveIsVerdict` | link-tiny/link_engine.py:926-960 | The tiered lookup decides as the set of files does, tier by tier. |
| `DocSha.OrderIsIrrelevant` | link-tiny/link_engine.py:892-960 | Two orders of one baseline resolve every document alike. |
| `DocSha.AmbiguousFlatIsNull` | link-tiny/link_engine.py:948-950 | An ambiguous flattened spelling that is not itself a path resolves to nothing. |
| `DocSha.AmbiguousBareFallsThrough` | link-tiny/link_engine.py:951-959 | An ambiguous spelling without extension resolves exactly as the file stems say. |
| `DocSha.BareAmbiguity` | link-tiny/link_engine.py:913-960 | With the actual path spellings, dir/name with two extensions and different hashes makes dir__name ambiguous, yet the lookup returns the hash of an unrelated file with that stem. |
| `Normalizers.SplitCamel` | link-tiny/normalizers.py:85-113 | The buffer loop cuts at exactly the boundaries described: after lowercase or digit, and at the last capital of an acronym. |
| `Normalizers.SplitConserves` | link-tiny/normalizers.py:85-113 | The words of any prefix concatenate to that prefix, and none is empty. |
| `Normalizers.SpellingsShareTheirKey` | link-tiny/normalizers.py:116-134 | Every list of words is recovered from its snake, dotted, kebab, camel and Pascal spellings. |
| `Normalizers.KeyStringsIdentifyKeys` | link-tiny/link_store.py:91-99 | The stored key strings of two names are equal exactly when their word keys are. |
| `Scoring.ScoreRange` | link-tiny/link_engine.py:1218-1226 | A gated score lies in (0, 1] and is 1 exactly for keys in at most two files. |
| `Scoring.ScoreAntitone` | link-tiny/link_engine.py:1220-1226 | For fixed kind and affinity the score never grows with the number of files. |
| `MatcherLaws.FirstThreeParagraphs` | link-tiny/link_engine.py:1240-1247 | The links from a document to a symbol are exactly its first three qualifying paragraphs, in reading order. |
| `MatcherLaws.EmittedExactly` | link-tiny/link_engine.py:1240-1247 | A link is emitted if and only if it is among those. |
| `MatcherLaws.EmittedOnce` | link-tiny/link_engine.py:1240-1247 | No pair of paragraph and symbol identity is emitted twice. |
| `MatcherLaws.TenBestPerKey` | link-tiny/link_engine.py:1229-1233 | A key contributes at most ten candidates and none left out is better than one kept. |
| `MatcherLaws.LinkScore` | link-tiny/link_engine.py:1199-1238 | A link's score lies in (0, 1]; it is 1 exactly when a key in at most two files kept the symbol; a key in more than eight files keeps only symbols of files the paragraph speaks of. |
| `MatcherLaws.OnlyTheKeySetMatters` | link-tiny/link_engine.py:1182-1247 | The set of links depends on the set of keys of each paragraph, not on the order of mentions. |
| `MatcherLoop.SymbolMatchKeys` | link-tiny/normalizers.py:256-269 | The loop yields the keys of the short name and of every dotted suffix, each once. |
| `MatcherLoop.BuildMatchIndex` | link-tiny/normalizers.py:272-285 | The index holds under each key the first symbol of every identity that answers to it, in reading order. |
| `MatcherLoop.MatchIndexLookup` | link-tiny/normalizers.py:296-307 | An indexed lookup returns what scanning all symbols would. |
| `MatcherLoop.KeysThroughMemo` | link-tiny/link_engine.py:1166-1194 | The keys of a paragraph are right whether or not its text was seen before, and no list in the memo is ever changed through its alias. |
| `MatcherLoop.ComputeScoredPairs` | link-tiny/link_engine.py:1115-1249 | Index, memo, gates, caps and counters compute exactly the specification that scans all symbols for every paragraph. |
| `EndToEnd.LinksJoinWhatWasRead` | link-tiny/link_engine.py:1208-1247 | Every link joins a paragraph and a symbol that were read. |
| `EndToEnd.MatcherFeedsBuild` | link-tiny/link_engine.py:1357-1390 | The matcher's output joins what was read and makes records with all required fields. |
| `EndToEnd.StartedSpansSettle` | link-tiny/link_engine.py:1357-1390 | If no symbol has an end line without a start line, every link has its own key and the snapshot settles. |
| `EndToEnd.PipelineSettles` | link-tiny/link_engine.py:1271-1542 | From any log, an incremental build over whatever readers and matcher deliver is steady, and its repetition writes nothing, exactly when the snapshot settles. |
| `TopK.MergeHits` | doc-tiny/mcp_graph_rag.py:880-904 | The loop offers every hit of an answer in order. |
| `TopK.OfferAllKeeps` | doc-tiny/mcp_graph_rag.py:880-904 | Merging keeps one row per key, never lowers a score, shows every hit and adds nothing else. |
| `TopK.SearchAll` | doc-tiny/mcp_graph_rag.py:826-931 | It fails exactly when a lone collection fails. Otherwise, with different keys within each collection, the result is a true top k of all points of the collections, whatever best parts they answer. In general it is one if and only if every point is matched by a merged row of its key or by k merged rows, which holds if no answer lost a key to a repeated one. |
| `TopK.DistinctHidesNothing` | doc-tiny/mcp_graph_rag.py:855-870 | A collection with different keys loses none to a repeated one, whatever best part it answers. |
| `TopK.OneCollectionExactly` | doc-tiny/mcp_graph_rag.py:883-904 | Of one collection the result is a true top k if and only if its answer is full of different keys or holds every key of the collection. |
| `TopK.SortedCutIsTop` | doc-tiny/mcp_graph_rag.py:929-931 | Sorting by score and cutting gives a best part. |
| `TopK.RepeatedKeyHidesAPoint` | doc-tiny/mcp_graph_rag.py:883-904 | When the best two of a collection share a key, a point of it can be left out that beats a returned point of another collection. |
| `EntityGraph.KeyDeterminesName` | doc-tiny/graphrag_ingest_langextract.py:193-212 | Under aggressive normalisation a node key determines the normalised name, whatever the type contains. |
| `EntityGraph.ColonsCollide` | doc-tiny/graphrag_ingest_langextract.py:207-212 | With colons in names, two different names share a key. |
| `EntityGraph.EnsureIsNew` | doc-tiny/graphrag_ingest_langextract.py:329-354 | A node created for a relation never overwrites one that exists. |
| `EntityGraph.MentionsStayWithTheirNode` | doc-tiny/graphrag_ingest_langextract.py:262-306 | Each node holds exactly the mentions of the entities with its key, in order, and exists exactly if there is one. |
| `EntityGraph.MentionsConserved` | doc-tiny/graphrag_ingest_langextract.py:262-306 | The mentions of all nodes together are the mentions of all accepted entities, as a multiset. |
| `EntityGraph.AddRelation` | doc-tiny/graphrag_ingest_langextract.py:319-387 | One relation adds at most its missing endpoints and joins the nodes it names, in its direction. |
| `EntityGraph.BuildGraph` | doc-tiny/graphrag_ingest_langextract.py:253-388 | Every usable relation becomes one edge between nodes of the result, entity nodes are untouched by relations, mentions are conserved and each confidence is the maximum over its mentions. |
| `Envelope.TemplateLength` | cortex_harness/mcp_contract.py:411-414 | The envelope is longer than the empty template by exactly the escaped preview. |
| `Envelope.OneShaveIsEnough` | cortex_harness/mcp_contract.py:415-420 | After one shave the text fits or the preview is empty, because escaping works per character and never shrinks. |
| `Envelope.TruncatedEnvelope` | cortex_harness/mcp_contract.py:391-421 | The text is JSON whose preview is a prefix of the serialised data of a known length; it fits the cap exactly when the empty template does, after at most one shave. |
| `Envelope.PlainPayloadFillsTheCap` | cortex_harness/mcp_contract.py:411-420 | A long payload that needs no escaping fills the cap to the last character. |
| `Envelope.DegradedKeeps` | cortex_harness/mcp_contract.py:373-380 | Dropping error details keeps code, message and retryable and empties details. |
| `Envelope.ResultEnvelope` | cortex_harness/mcp_contract.py:331-388 | The text always reads back as JSON: the complete envelope within the cap, a preview for an oversized success, an error without details for an oversized failure. |
| `Processes.Descendants` | cortex_harness/sync_processes.py:137-148 | On any table the sweep terminates with the least child-closed set containing the roots. |
| `Processes.WalksStopExactly` | cortex_harness/sync_processes.py:151-157 | The depth walk stops for every process, and for every target, if and only if no process is its own targeted ancestor. |
| `Processes.Depth` | cortex_harness/sync_processes.py:151-157 | In that case the loop returns the number of steps to a process whose parent is not targeted. |
| `Processes.ChildIsDeeper` | cortex_harness/sync_processes.py:151-157 | A targeted child is one step deeper than its targeted parent. |
| `Processes.TerminationOrder` | cortex_harness/sync_processes.py:182-187 | Every target comes exactly once and every targeted child before its targeted parent. |
| `Processes.ReusedParentNeverStops` | cortex_harness/sync_processes.py:137-187 | Two unexcluded processes of a closure that name each other as parents, as after the id of a dead parent is reused, keep the walk going for ever. |
| `Processes.TwoProcessesNeverStop` | cortex_harness/sync_processes.py:137-157 | The smallest such table, with its closure. |

## Left out

- A crash between the log write and the table upsert, adopting an old log without `links.db`, and the choice between the two read paths by modification time: log and tables change in one step under the lock.
- Bytes: the log is a sequence of characters, so a tear inside a multi-byte character is not modelled, nor are `fsync` and temporary files.
- `parser_type`, snippets, redaction and the `source_sha` columns of the document and symbol tables, which the join does not read.
- Wall-clock time: timestamps are numbers handed to each step.
- Json.LoadsDumps: numbers are kept as their printed tokens; the number grammar, surrogate pairs, `NaN` and the `default=str` fallback are not modelled.
- DualStore.RecordReadsBack: how floating-point scores are printed is a parameter, and a score must survive it; `schema_version` is not written.
- TopK.SearchAll: which collections a query reaches, hits without payload and the scope report are not modelled.
- Store.TablesShowLatestExactly: paragraph ids are compared as JSON values. The latest view of the source compares them as Python values, where 1, 1.0 and true are equal, while the tables compare their text; ids that differ only in that way are not modelled, and neither is the error that a list or object as id raises there.
- Store.LinkStore.Append: the type checks of `_validate_record` are reduced to the required non-empty fields, and paths are taken as already in POSIX form.
- Pipeline.Project.BuildLinks: assumes that the fresh records have their required fields, which `EndToEnd.MatcherFeedsBuild` proves of the matcher's output; an exception half-way through a build is not modelled.
- Build.IncrementalBuildIsSteady: hashes are None or some text; an empty hash, which the source treats as missing, is not modelled. A skipped link keeps its old score.
- DocSha.BuildIndex: ids have a single Unicode form; the equivalence of composed and decomposed spellings and pathlib's treatment of redundant separators are not modelled. `CodeShaIndex` is a parameter of the build.
- MatcherLoop.ComputeScoredPairs: the tokens of a text and the cleaned stem of a path are parameters, and a symbol's repository and parser are not part of it.
- Normalizers.SplitCamel: letter classes and case mapping are those of ASCII.
- Scoring.ScoreRange: arithmetic is on real numbers, with a logarithm that is monotone, at least 1 at 3 and at most n - 1, and any monotone rounding to four places.
- PagedReader.PagedRows: the graph does not change while it is read, and a row is its pair of ids.
- EntityRead.TwoStageRead: the edge query of a chunk is not capped by the server, and an error in the entity count is not modelled.
- EntityGraph.BuildGraph: `merge_entities=False`, where keys are random, is not modelled; names arrive stripped, and the normaliser is a parameter that leaves no colon.
- Envelope.ResultEnvelope: bounding of error messages and detail items, and the summary message, happen before this model begins.
- Processes.TerminationOrder: terminating, waiting and escalating are calls into the operating system.
- Query waterfalls, impact and coverage reports, command line, servers, installers and database transfer.
