# Ragger, modelled and proved in Dafny

This project models the parts of the Ragger memory daemon, and of its OpenClaw plugin, whose correctness hangs on order,
interleaving or crashes, and proves what they promise. Each module follows one source component:

- `Reembed`, `ReembedRuns`, `ReembedQuery`, `ReembedMemory`: the re-embed protocol, as a transition system whose steps are
  single writes; runs of it and what breaks or survives in them; a query under way in such a run; and the daemon's
  operations over its fields, each shown to take steps of that system.
- `FtsTokenize`, `TermStream`, `TextIndex`, `ScoreShares`: the inverted index against TF-IDF computed directly from the
  latest texts, the terms of a text, and what a score is made of.
- `Stamps`, `ContextWalk`, `ContextLayers`, `ContextDisorder`: the recipe context builder, what each layer puts in, and
  turns that are not newest first.
- `Strippers`: thinking and injected markers. `Summarizer`, `SummarizerService`, `Backoff`: the summarizer as interleaved
  steps and as a service object.
- `Vectors`, `EpisodeBoundaries`, `EpisodeClose`, `EpisodeLate`: where episodes are cut, commits that survive partial
  failure, and turns whose summaries come late.
- `Utf8`, `Codecs`: byte-level formats, against section 4 of RFC 3629 and section 5 of RFC 4648.
- `Chunker`, `ChunkText`, `Pairing`, `ImportSources`: the importers' heading stack and merge loop, the text of the chunks,
  message pairing, and which messages are read as whose.
- `WorkerPool`: embedding threads that share one counter.
- `McpClient`, `Decoding`: the plugin's stdio client, and the bytes it reads.
- `Settings`, `SettingValues`: the live configuration against what a restart would load, and what a value means.
- `Text`, `Wrappers`, `Arithmetic`: shared helpers.

Concurrent and crash-prone parts are transition systems: `Enabled` says which steps the code can take, `Apply` what they
write, `Inv` what every step keeps. The objects beside them carry the source's fields, and their methods are tied to the
steps by `ensures` clauses.

Run `dafny verify dfyconfig.toml` to check everything.

## Assumptions

Re-embed (`Reembed.Assumed`). Six of these are each shown necessary by a run that breaks without it alone
(`ReembedRuns.WriterInWindowBreaks`, `OverlapBreaks`, `OtherWidthBreaks`, `WrappedBreaks`, `UnownedThrowBreaks`,
`TwoUpdatesBreak`):

- between the version bump and the backend swap no other writer stamps a row, and no housekeeping pass or recovery runs;
  before and after, passes, recoveries and captures may interleave with an update in any way;
- the staged width is the configured one, which the new embedder is built with, unless the model has another width (it
  then throws for every text) and there is a text;
- the version byte has not come round to a value some row still carries;
- an exception comes only from building the embedder with no repair owed on entry, or from re-encoding after promotion;
- there is one daemon process with at most one update at a time (the update endpoint checks the flag and only later a
  thread sets it), and a degraded process skips the passes;
- for `CrashSafety`, `search` reads the flag, the mark, the embedder and the index in one step; `ReembedQuery` drops this
  and says exactly when a query under way sees one model, given that at most one update promotes meanwhile;
- the engine is the internal one throughout, and rows without text carry no vector.

Elsewhere: arithmetic on scores and vectors is over the reals; the logarithm is any function that is monotone with
value 0 at 1, the square root any function that squares back; the word normaliser, stemmer, phonetic coder, JSON
parser, string trimming and character decoding of the plugin's host, `strtod`, `std::vformat`, `sscanf` and the
environment are parameters. Summarizer runs keep `max_turn_failures` constant. The MCP client is started once per
object, as its only caller does. Settings calls for one key do not overlap, and no reload falls inside a call; both
are shown necessary.

## Where the code falls short

Each of these has a lemma with the failing case, the exact condition where the text says so, and a reachable run where
one is named:

- A build that fails while an earlier repair is owed clears the mark (`ReembedRuns.FailedBuildExactly`, exact; run
  `UnownedThrowBreaks`).
- A staged width other than the configured one is recorded, but the embedder is built for the configured one
  (`ReembedMemory.UpdateSafeExactly`, exact; run `ReembedRuns.OtherWidthBreaks`).
- A model whose own width is not the configured one can be staged but never used: the update fails at the first text
  and search stays on text, restarts and resumes included, until a model is staged again (`ReembedMemory.WideUpdate`,
  `ReembedRuns.WideStaysTextOnly`).
- A re-embed that changes the vector type leaves the configuration row `embedding_vector_type` behind, so the next start
  sees drift and is text-only (`ReembedMemory.RestartAfterUpdate`, exact; run `ReembedRuns.TypeChangeTextOnly`).
- Resuming with a disabled embedder clears the repair mark with rows still to do; housekeeping avoids it by skipping
  degraded processes (`ReembedMemory.RaggerMemory.ResumeInterruptedReembed`, exact).
- The context walk drops an unsummarized turn that is newer than an emitted summary
  (`ContextWalk.PassedTurnRepresented`, exact), and on the night the clock goes back a turn can come out twice
  (`ContextDisorder.ClockSetBackExactly`, exact; instance `ClockSetBackBreaks`).
- Two segments of one close that start in the same second collide, and the later one's turns stay outside
  (`EpisodeClose.CoversIffDistinctStarts`, exact).
- Text on the line directly under a heading becomes part of the heading and is in no chunk when no text paragraph stands
  under the heading (`Chunker.TextUnderHeadingLost`, exact).
- A query that passed the guards before an update set the mark, and asks the index after the backend swap, meets vectors
  of two models until every row is re-encoded (`ReembedQuery.QueryExactly`, exact; run `LateQueryBreaks`).
- A turn whose summary or embedding arrives only after a close has gone past it stays outside every episode
  (`EpisodeLate.EntersLaterExactly`, exact).
- A multi-byte character cut between two chunks of the client's output is decoded wrongly and changes a line
  (`McpClient.BytesExactly`, exact).
- Overlapping settings calls, a reload inside a call, and a missing database file let the live configuration and the
  next start disagree (`Settings.OverlappingCalls`, `Settings.ReloadDuringCall` and `Settings.MissingDatabase`, all
  exact).
- The schema array is declared longer than its list (`include/lang/en.h:564`), which leaves entries with an empty key and
  no field; writes to them are rejected and rows under them are ignored (`Settings.FieldlessKey`).

## Model

| member | source | states |
|---|---|---|
| `Reembed.CrashSafety` | src/memory.cpp:601-687 | for every run whose steps are single writes, with updates, housekeeping passes, heals, captures, crashes and restarts interleaved, in every state where search would take the vector path all stored vectors were made under the recorded identity and the live embedder, the backend's embedder and its storage type are that identity |
| `Reembed.RunInv` | src/memory.cpp:550-714 | every state of every such run satisfies the inductive invariant the safety rests on |
| `Reembed.StepInv` | src/memory.cpp:514-752 | each write of the update, the resume, the backfill, the self-heal, the constructor, a capture and a recovery keeps the invariant, passes beside a running update included; excluded are only other writers between the version bump and the backend swap and what else stands under Assumptions |
| `Reembed.RepairClearedWhenConverted` | src/memory.cpp:625-687 | whatever step but the failure handler takes the repair mark down does so only when every stored vector is current and of the recorded identity; what is then left to do is exactly the rows captured meanwhile without a vector |
| `Reembed.RestartVectorSearch` | src/memory.cpp:107-142 | for every store with flag and mark down: search goes by vector after a start if and only if the model loads and there is no vector yet or the configuration rows equal the recorded type and width |
| `Reembed.StartRecords` | src/memory.cpp:107-142 | whatever was left behind: a start runs with the configured model, type and width; a store without vectors then records that identity, one with vectors keeps its own, and nothing else of the store changes |
| `Reembed.CaptureStored` | src/sqlite/write.cpp:543-620 | a capture has a vector, of the backend's identity and the current version byte, exactly when it has a text, is not deferred and the embedder works |
| `Reembed.RecoveryExact` | src/memory.cpp:441-512 | a recovery ends the degradation exactly when there is an embedder or one loads, of the live configuration |
| `Reembed.VersionsCycle` | src/memory.cpp:602 | the version byte runs through 1 to 255 |
| `Reembed.FivePasses` | src/memory.cpp:733-752 | a resume whose passes keep finding work gives up after the fifth |
| `Reembed.SurroundingsFree` | src/memory.cpp:514-752 | crashes, starts, captures, passes and their exceptions, updates and their exceptions, heals and recoveries are held back by nothing but the conditions named |
| `Reembed.AllCurrentPure` | src/memory.cpp:721-752 | while a working pass runs, all rows current means all vectors are of the recorded identity |
| `ReembedRuns.ReachesInv` | src/memory.cpp:550-752 | whatever steps reach keeps the invariant, when they drop no assumption |
| `ReembedRuns.ReachesSafe` | src/memory.cpp:550-752 | so does the safety of search: every operation below that reaches its end under no dropped assumption leaves search right, from a store as an installation or a crash leaves it |
| `ReembedRuns.FailedBuildExactly` | src/memory.cpp:692-714 | for every reachable state: after a build that failed search is right if and only if the process is degraded or the live embedder and every stored vector are of the recorded identity; with no repair owed when the update was called it always is, whatever raised the mark since |
| `ReembedRuns.TypeChangeTextOnly` | src/memory.cpp:601-687 | a whole undisturbed update to another vector type and a restart, under no dropped assumption: all vectors are of the recorded identity, no repair is owed, and search is text-only |
| `ReembedRuns.WideRulesOut` | src/embedder.cpp:143-145 | with a model of another width recorded, no row is ever re-encoded, no pass ever completes and no update completes |
| `ReembedRuns.WideStays` | src/embedder.cpp:143-145 | captures, passes, failed updates, crashes and restarts leave it so and search on text; only an update that builds another embedder can end it |
| `ReembedRuns.WideStaysTextOnly` | src/embedder.cpp:92-145 | so over any run without such an update search stays on text |
| `ReembedRuns.UnownedThrowBreaks` | src/memory.cpp:696-701 | a reachable instance: a build fails while an earlier repair is still owed, and search then uses vectors of two models |
| `ReembedRuns.WriterInWindowBreaks` | src/memory.cpp:602-659 | a run in which a capture stamps a row between the version bump and the backend swap ends in such a state |
| `ReembedRuns.WrappedBreaks` | src/memory.cpp:602 | a run in which the version byte comes round to one a row still carries ends in such a state |
| `ReembedRuns.OtherWidthBreaks` | src/memory.cpp:598-659 | a reachable instance of ReembedMemory.UpdateSafeExactly: an update whose staged width the embedder is not built with leaves search with a wrong recorded width |
| `ReembedRuns.OverlapBreaks` | src/memory.cpp:721-752 | a run in which a housekeeping pass is carried across the version bump ends in such a state; the flag and its owner being two writes is what lets the pass start |
| `ReembedRuns.TwoUpdatesBreak` | src/server.cpp:1484-1504 | two updates at once, dropping no other assumption, end in such a state: one takes mark and flag down after the other recorded its model |
| `ReembedQuery.QueryExactly` | src/memory.cpp:344-379 | over every run: a query that read the mark at one moment and asks the index at a later one, with any writes between but a crash and a second update's, sees one model if and only if the index still answers under the identity it was admitted under or no stale vector is left; always when no update has set the mark since |
| `ReembedQuery.LateQueryBreaks` | src/memory.cpp:344-379 | a reachable query that passed both guards and meets the new embedder over the old vectors |
| `ReembedMemory.RoundsConverge` | src/memory.cpp:721-752 | from a freshly bumped version, any number of rounds that each re-encode some of the rows still needing it and die, followed by a finishing backfill, leave exactly the rows of one uninterrupted rebuild |
| `ReembedMemory.RoundsFinish` | src/memory.cpp:721-752 | the same from any state: the finished rows do not depend on how the work was cut |
| `ReembedMemory.ConvertedNeeds` | src/sqlite/maintenance.cpp:137-313 | re-encoding a set of rows takes exactly those off the rows that need it |
| `ReembedMemory.RaggerMemory.constructor` | src/memory.cpp:30-163 | starting over a store is the start step of the protocol; degraded exactly when the model does not load or there are vectors and the configuration rows differ from the recorded type or width |
| `ReembedMemory.RaggerMemory.IsReembedding` | src/memory.cpp:514-548 | true exactly when the flag is up and its owner lives; a stale flag is cleared with its owner and the repair marked, nothing else changes; its writes are heal steps of the protocol |
| `ReembedMemory.RaggerMemory.Search` | src/memory.cpp:344-379 | the vector index is asked exactly when the protocol's vector-path condition held on entry, and then nothing was written; its writes are heal steps of the protocol |
| `ReembedMemory.RaggerMemory.Process` | src/sqlite/maintenance.cpp:137-313 | re-encodes the given rows up to the first that throws, all of them exactly when none does, and counts them; each write a step of the protocol |
| `ReembedMemory.RaggerMemory.Backfill` | src/sqlite/maintenance.cpp:137-333 | the missing and then the stale vectors: together exactly the rows to do, or those before the first that throws; each write a step of the protocol |
| `ReembedMemory.RaggerMemory.Passes` | src/memory.cpp:733-748 | at most one working pass and one that confirms it; the mark goes down exactly when no row throws |
| `ReembedMemory.RaggerMemory.BackfillEmbeddings` | src/sqlite/maintenance.cpp:330-333 | a pass of its own: re-encodes exactly the rows without a vector or with an old version byte, or those before the first that throws; with a disabled embedder nothing; every write a step of the protocol, under no dropped assumption in a process that is not degraded |
| `ReembedMemory.RaggerMemory.ResumeInterruptedReembed` | src/memory.cpp:721-752 | exact effect, by protocol steps as above: no-op without a repair mark or while the owner lives; otherwise converts exactly the rows needing it and clears the mark, unless a row throws, which leaves the mark up; what went through leaves no row to do if and only if the embedder is usable or none was to do before |
| `ReembedMemory.RaggerMemory.Promote` | src/memory.cpp:601-660 | version bump, repair mark, identity, configuration and both embedders with the resulting state; each write a step of the protocol, under no dropped assumption when the width is allowed and the version byte unused |
| `ReembedMemory.RaggerMemory.RebuildEmbeddings` | src/sqlite/maintenance.cpp:318-325 | re-encodes rows with text until one throws; complete exactly when none throws and, with a text there, the embedder's model has its width; each write a step of the protocol |
| `ReembedMemory.RaggerMemory.UpdateEmbeddings` | src/memory.cpp:550-714 | whole effect in the three outcomes (build fails, a row throws, success); when the width is allowed and the version byte unused, or the build fails with no repair owed, its writes are protocol steps under no dropped assumption, so ReembedRuns.ReachesSafe applies to it |
| `ReembedMemory.UpdatedExactly` | src/memory.cpp:601-687 | the same field by field and row by row |
| `ReembedMemory.UpdateSafeExactly` | src/memory.cpp:598-687 | a completed update leaves search right if and only if the process is degraded or the staged width is the configured one the embedder is built for |
| `ReembedMemory.RestartAfterUpdate` | src/memory.cpp:107-142 | after a completed update of a store with a text, a restart searches by vector if and only if the model loads and the configuration rows, which no update writes, already named the new type and width |
| `ReembedMemory.WideUpdate` | src/embedder.cpp:143-145 | an update to a model whose own width is not the configured one fails at the first text and leaves search on text |
| `FtsTokenize.SplitSentences` | src/fts_tokenize.cpp:18-51 | the loop computes the sentences the next row characterises |
| `FtsTokenize.SentencesExact` | src/fts_tokenize.cpp:18-51 | the sentences hold every non-blank character of the text in order; each is trimmed, not empty and has no terminator before its end |
| `FtsTokenize.SentencesEnd` | src/fts_tokenize.cpp:18-51 | every sentence before the last ends at one of the five closing characters, and none has one inside: the text is cut there and nowhere else |
| `FtsTokenize.Unigrams` | src/fts_tokenize.cpp:315-344 | the loop computes the tokens the next row characterises |
| `FtsTokenize.UnigramsExact` | src/fts_tokenize.cpp:315-344 | one token for every word that is no stop word, no number, no hexadecimal token and has a stem: a strictly increasing list of exactly those positions, token k made from the k-th |
| `FtsTokenize.Bigrams` | src/fts_tokenize.cpp:348-390 | the loop computes the tokens the next two rows characterise |
| `FtsTokenize.BigramsExact` | src/fts_tokenize.cpp:348-390 | one token for every pair of words adjacent in the text that passes the filters, by the list of exactly those positions: a word left out is never bridged |
| `FtsTokenize.PairCode` | src/fts_tokenize.cpp:375-388 | a pair has a phonetic code if and only if both its words have one, and the code then holds the joint |
| `TermStream.ItemsExact` | src/text_index.cpp:37-51 | how often each term comes in a text: a literal for each word that passes, its code, and both for each pair of words adjacent in a sentence, counted over its sentences |
| `TermStream.HexExact` | src/fts_tokenize.cpp:285-313 | a hexadecimal token is a 0x or x with more than four hexadecimal digits behind it and nothing else |
| `TermStream.OneWordEach` | src/text_index.cpp:37-51 | a text of one-word sentences has no terms of pairs |
| `TextIndex.TextIndex.IndexRecord` | src/text_index.cpp:32-64 | after re-indexing, the postings and denominators of every record are those of its latest text and nothing else (Valid over the updated map of texts); a record without a row fails exactly when its text has terms |
| `TextIndex.TextIndex.ResolveTerms` | src/text_index.cpp:53-60 | terms get distinct positive ids, known ones keep theirs, and the resolved map holds exactly the counts of the text |
| `TextIndex.TextIndex.CountTerms` | src/text_index.cpp:32-51 | the counted map and both denominators agree with the term stream of the text |
| `TextIndex.TextIndex.UpsertTerm` | src/sqlite/text_index.cpp:236-257 | interning keeps ids distinct and never changes one |
| `TextIndex.TextIndex.PostingsExact` | src/sqlite/text_index.cpp:316-327 | the postings of a term are exactly the records whose latest text holds it, with its count there |
| `TextIndex.TextIndex.ScoreQuery` | src/text_index.cpp:66-105 | the returned map is, for every record, the TF-IDF sum computed directly from the latest texts, and absent exactly where that sum has no term |
| `ScoreShares.ScoreExact` | src/text_index.cpp:71-105 | a score is the unigram weight on what the query's words give plus the bigram weight on what its pairs give, the phonetic weight on phonetic terms of either and literals only when enabled; there is one exactly when a term that counts touches the record |
| `ScoreShares.ContributionExact` | src/text_index.cpp:71-86 | what one term gives: its places in the record over the record's literal places of the sort, times the logarithm of records over holders |
| `ScoreShares.TalliesExact` | src/text_index.cpp:66-105 | the map ScoreQuery returns has those values, for exactly those records |
| `ScoreShares.WeightsApart` | src/text_index.cpp:79-80 | the bigram weight does not touch a query of words, the unigram weight none of pairs, the phonetic weight nothing but phonetic terms |
| `ScoreShares.OneWordQuery` | src/text_index.cpp:79-105 | so another bigram weight leaves a query of one-word sentences as it was |
| `ScoreShares.Proportional` | src/text_index.cpp:81-85 | of two records that hold a term, the contributions stand in the ratio of the occurrences and against that of the denominators |
| `ScoreShares.OccursPlaces` | src/text_index.cpp:32-51 | the count of a term is the number of its places |
| `ScoreShares.LiteralsPlaces` | src/text_index.cpp:32-51 | the denominator is the number of places of literal terms of the sort |
| `TextIndex.TextIndex.AddTerm` | src/text_index.cpp:71-86 | one query term adds to each record exactly its direct contribution |
| `TextIndex.HoldersAreRecords` | src/text_index.cpp:77-78 | document frequency never exceeds corpus size |
| `TextIndex.IdfNonNegative` | src/text_index.cpp:77-78 | the inverse document frequency is never negative |
| `TextIndex.ScoresNonNegative` | src/text_index.cpp:66-105 | with non-negative weights every score is non-negative |
| `TextIndex.UbiquitousTermScoresZero` | src/text_index.cpp:77-84 | a term every record holds contributes nothing |
| `TextIndex.OtherTablesIgnored` | src/text_index.cpp:66-105 | texts of other tables do not change the scores of this one |
| `ContextWalk.BuildContext` | src/memory.cpp:855-1043 | the chunks are the reversal of the longest newest-first prefix of the walk whose token total fits the ceiling; what the walk puts in, layer by layer, is said by ContextLayers.LayersExact |
| `ContextLayers.LayersExact` | src/memory.cpp:909-1022 | for every layer of every recipe what it adds: the next turns up to its limit, the user's text and the assistant's; the next summaries not of a turn passed, up to its limit, passing the turns not older; the backend's episodes and decisions in its order; the picked search results, which read best first in the finished context; nothing for a project summary |
| `ContextLayers.EpisodesExact` | src/memory.cpp:949-970 | the episode chunks of a whole recipe are, layer by layer, the backend's answers for the layer's limit, one when there is none; likewise the decisions, three |
| `ContextLayers.RawLayerBlock` | src/memory.cpp:910-921 | a turn layer takes exactly its limit, or all that are left |
| `ContextLayers.SummaryLayerBlock` | src/memory.cpp:922-948 | a summary layer emits exactly the summaries whose turn was not passed, stops right at its limit, and passes the turns not older than one it emitted |
| `ContextLayers.SurvivorsPicked` | src/memory.cpp:993-1003 | the first results, up to the wanted number, whose text no earlier layer shows |
| `ContextLayers.ReadsBestFirst` | src/memory.cpp:1005-1017 | in the finished context a search layer's block has the picked results best first |
| `ContextLayers.QueryLines` | src/memory.cpp:978-986 | the search asks for the newest user text and up to two summaries, line by line, empty ones left out |
| `ContextLayers.TokensExact` | src/memory.cpp:848-851 | a text counts as many tokens as the characters per token go into it, four when the recipe gives none |
| `ContextLayers.TotalAdds` | src/memory.cpp:1027-1035 | costs add up, and a ceiling is kept exactly when the sum does not exceed it |
| `ContextWalk.Ceiling` | src/memory.cpp:1027-1035 | keeps the longest prefix that fits |
| `ContextWalk.TotalGrows` | src/memory.cpp:1027-1035 | token totals never fall with a longer prefix, so the longest fitting prefix is the first cut |
| `ContextWalk.NeverRawAndSummary` | src/memory.cpp:909-948 | for every list of layers over turns and summaries sorted newest first, no timestamp comes out both as a raw turn and as a turn summary |
| `ContextWalk.EachTurnAtMostOnce` | src/memory.cpp:909-948 | the raw chunks are the turns at strictly increasing positions, and the summary chunks likewise |
| `ContextWalk.LayersInv` | src/memory.cpp:909-1022 | every list of layers keeps the walk's invariant: what is emitted, consumed and still ahead |
| `ContextWalk.PassedTurnRepresented` | src/memory.cpp:927-946 | a turn walked past without being emitted has a chunk if and only if it has a summary |
| `ContextWalk.WalkIsChronological` | src/memory.cpp:909-948 | raw turns and summaries of every recipe come newest first, when every summary is of a stored turn |
| `ContextDisorder.ClockSetBackBreaks` | src/memory.cpp:927-946 | a concrete night: with rows ordered by epoch and compared as local time, a turn of 1:50 before the clock went back comes out both ways beside one of 1:10 after |
| `ContextDisorder.OneWayWithoutInversion` | src/memory.cpp:927-946 | for any source, sorted or not, and any recipe: no time comes out both ways unless some summary's turn stands behind one with an older time |
| `ContextDisorder.ClockSetBackExactly` | src/memory.cpp:927-946 | for every source, in any order and with any number of summaries: some recipe emits a time both ways if and only if some summary is exposed, a condition computed from the source: its first turn is not behind the fewest turns a walk can have passed when it comes to it, and a turn of its time stands behind an older one from there on |
| `ContextDisorder.ExposedBothWays` | src/memory.cpp:909-948 | the recipe that does it, for every exposed summary |
| `ContextDisorder.ReachReady` | src/memory.cpp:909-948 | a recipe that comes to any given summary with the fewest turns behind it |
| `ContextWalk.SurvivorsAreNew` | src/memory.cpp:991-1018 | a search layer repeats no emitted text, gives no more than asked for, and when it gives fewer has left out only repeats |
| `Stamps.LexIsTotalOrder` | src/memory.cpp:939-940 | the comparison of timestamps as text is a total order |
| `Summarizer.StepInv` | src/summarizer_service.cpp:52-206 | every step of live enqueue, catch-up, worker, clock and restart, in any interleaving, keeps the invariant |
| `Summarizer.RunInv` | src/summarizer_service.cpp:52-206 | so every state of every run has it |
| `Summarizer.FinalizeOnlyWithoutRow` | src/summarizer_service.cpp:298-370 | a summary is finalized only for a turn that has no row, and never empty |
| `Summarizer.CountsBelowLimit` | src/summarizer_service.cpp:331-378 | while the worker is idle, a turn with a row has no failure count and every count is positive and below the limit |
| `Summarizer.AbandonedExactly` | src/summarizer_service.cpp:331-353 | a turn is stamped bad only after exactly the configured number of failures since its last success, its last abandonment or the start |
| `Summarizer.NoEndpointNoBlame` | src/summarizer_service.cpp:308-319 | over every run: behind each stamp stand exactly the configured number of inferences that gave nothing, each asked of an endpoint found for that turn, with no success, abandonment or restart since the first |
| `Summarizer.BlameAll` | src/summarizer_service.cpp:308-361 | at every moment a turn's failure count is the number of such inferences since it was last cleared, at strictly increasing moments |
| `Summarizer.SummariesStay` | src/sqlite/write.cpp:1062-1192 | summaries and the markers of turns done without one are never removed or changed by any later step |
| `Summarizer.QueueBounded` | src/summarizer_service.cpp:52-77 | the queue never holds more than the live limit plus what the last scan added |
| `Summarizer.QueueFifo` | src/summarizer_service.cpp:183-206 | first in, first out: jobs leave from the front to the worker, join one by one at the back, and only a restart empties the queue |
| `Summarizer.TrivialExactly` | src/summarizer_service.cpp:258-276 | a turn is too short exactly below 80 characters together or below 20 of answer, an injected user side counting as empty; more text never takes a summary away |
| `Summarizer.DelayIsWait` | include/backoff.h:32-36 | the delay after any history is the capped doubling of the number of resets since the last success |
| `Summarizer.ResetsSpaced` | src/summarizer_service.cpp:128-157 | two effective resets without a success between them are at least that wait apart |
| `Backoff.Backoff.Failed` | include/backoff.h:32-36 | first failure waits the base, later ones double up to the cap |
| `Backoff.Backoff.Succeeded` | include/backoff.h:39-42 | success forgets the schedule |
| `Backoff.WaitDoubles` | include/backoff.h:32-36 | n failures in a row give the base doubled n - 1 times, capped |
| `SummarizerService.SummarizerService.EnqueueTurn` | src/summarizer_service.cpp:52-77 | queues exactly the turns with an answer while running and below 1000 jobs |
| `SummarizerService.SummarizerService.HandleL2` | src/summarizer_service.cpp:245-383 | the row and the failure count after one job in every case, reached by steps of the transition system; and, by the lengths of the texts: nothing for a partial turn, a mark without inference below 80 characters together or 20 of answer, else the text inference gave, else a stamp at the limit; no other turn's row changes |
| `SummarizerService.SummarizerService.RecordFailure` | src/summarizer_service.cpp:331-361 | counts the failure and at the limit stamps the turn and forgets the count |
| `SummarizerService.SummarizerService.StoreSummary` | src/summarizer_service.cpp:363-383 | stores the summary and forgets the count only when the turn still exists; the back-off then starts over |
| `SummarizerService.SummarizerService.EnqueueCatchUp` | src/summarizer_service.cpp:84-181 | a scan over an empty queue queues the found turns with answers and then the idle sessions, and removes the abandoned rows exactly when the back-off is due, with the resulting schedule; over a non-empty queue it changes nothing |
| `SummarizerService.TurnJobsExact` | src/summarizer_service.cpp:115-126 | the jobs queued are those of the turns found that have an answer, in the order found |
| `SummarizerService.EpisodeJobsExact` | src/summarizer_service.cpp:158-166 | and one for each idle session, in order |
| `SummarizerService.SummarizerService.ResetAbandoned` | src/summarizer_service.cpp:128-157 | the reset is gated by the back-off; the schedule is advanced once exactly when rows were removed and is untouched otherwise |
| `SummarizerService.ResetWaits` | src/summarizer_service.cpp:138-157 | five minutes first, doubled each time, six hours at most |
| `Vectors.CosineSimilarity` | src/episode_boundaries.cpp:16-26 | the loop sums give dot over the product of the norms |
| `Vectors.CauchySchwarz` | src/episode_boundaries.cpp:16-26 | the square of the dot product is at most the product of the squared norms, by induction over the sums |
| `Vectors.CosineBounded` | src/episode_boundaries.cpp:16-26 | so the similarity lies in [-1, 1], for any square root |
| `Vectors.CosineOfItself` | src/episode_boundaries.cpp:16-26 | a vector that is not zero has similarity 1 with itself and -1 with its opposite |
| `Vectors.CosineSign` | src/episode_boundaries.cpp:16-26 | the similarity has the sign of the sum of products, and is 0 for vectors that are zero, empty or of different lengths |
| `Vectors.DotFront` | src/episode_boundaries.cpp:16-26 | the products may be summed from the front as well |
| `EpisodeBoundaries.FindEpisodeBoundaries` | src/episode_boundaries.cpp:30-56 | the list holds exactly the positions whose similarity to the one before is at or below the threshold of the pause, in order, and 0 when there is a candidate |
| `EpisodeBoundaries.BoundariesPartition` | src/episode_boundaries.cpp:30-56 | the boundaries cut the candidates into consecutive non-empty segments that cover each exactly once |
| `EpisodeBoundaries.ThresholdMonotone` | src/episode_boundaries.cpp:44-50 | with a non-negative step the threshold never falls with a longer pause |
| `EpisodeBoundaries.ThresholdExact` | src/episode_boundaries.cpp:44-50 | a pause of n whole steps raises the base by n steps, up to the cap |
| `EpisodeBoundaries.ThresholdAtRest` | src/episode_boundaries.cpp:44-50 | the threshold never passes the cap, and a pause below one step, in either direction, or no step length leaves the base |
| `EpisodeBoundaries.CutExact` | src/episode_boundaries.cpp:30-56 | an episode starts at the first candidate and where the mean of the two similarities does not pass the threshold of the pause; a mean above the cap never starts one |
| `EpisodeBoundaries.WideningAddsBoundaries` | src/episode_boundaries.cpp:30-56 | so widening any pauses only adds boundaries |
| `EpisodeClose.CommitInv` | src/summarizer_service.cpp:470-500 | after any number of committed segments every turn is in at most one episode, which lists it and whose span holds it, and spans are disjoint and in order |
| `EpisodeClose.CommittedFiles` | src/summarizer_service.cpp:470-500 | after any number of commits the b-th new episode has the summary, exactly the candidates and the first and last time of segment b |
| `EpisodeClose.OwnSummaries` | src/summarizer_service.cpp:438-500 | so its text is what inference made of its own turns' summaries, in order |
| `EpisodeClose.RetryFindsTheRest` | src/sqlite/write.cpp:1198-1308 | however many segments were committed, the next attempt finds exactly the candidates left |
| `EpisodeClose.CompletedCloseCovers` | src/summarizer_service.cpp:405-508 | a close that commits all segments puts every candidate in an episode and leaves none |
| `EpisodeClose.CoversIffDistinctStarts` | src/sqlite/write.cpp:1315-1385 | when turns may share a second, a completed close covers every candidate if and only if no two segments start in the same second |
| `EpisodeLate.EntersLaterExactly` | src/sqlite/write.cpp:1258-1264 | an unassigned turn can still enter an episode, by some run of captures, late summaries and embeddings, and closes cut short anywhere, if and only if it lies after the end of the last episode |
| `EpisodeLate.PassedStaysOut` | src/sqlite/write.cpp:1258-1264 | in every state of every run an assigned turn keeps its episode, an unassigned one not after the last end stays out, and the last end never falls |
| `EpisodeLate.FilledEnters` | src/summarizer_service.cpp:470-500 | a turn after the last end, once its summary and both embeddings are there, is taken in by every close that completes |
| `EpisodeClose.EpisodeService.Capture` | src/sqlite/write.cpp:1258-1264 | a later turn keeps the session well formed |
| `EpisodeClose.EpisodeService.Fill` | src/sqlite/write.cpp:1158-1192 | a summary or embedding arriving for any turn in any order keeps the session well formed |
| `EpisodeClose.EpisodeService.EpisodeCandidateTurns` | src/sqlite/write.cpp:1266-1308 | the candidates are exactly the pending rows after the last episode, oldest first |
| `EpisodeClose.EpisodeService.CommitSegments` | src/summarizer_service.cpp:470-500 | commits the segments in order up to the first that throws; the episodes added are those segments, each with its own summary, turns and span |
| `EpisodeClose.EpisodeService.HandleEpisodeClose` | src/summarizer_service.cpp:405-508 | nothing is stored unless there is an endpoint and every segment was summarized; then the segments are committed up to the first that throws, and every new episode carries what inference made of the summaries of its own turns; completed exactly when all are |
| `Utf8.SanitizeUtf8` | src/tokenizer_wrapper.cpp:28-85 | the masks, the continuation loop and the range check compute the repair defined from the grammar of section 4 of RFC 3629: characters kept, every other byte replaced |
| `Utf8.AcceptsExact` | src/tokenizer_wrapper.cpp:41-76 | a sequence passes the masks, the continuation bytes and the range check exactly when the grammar has a character of that length there |
| `Utf8.ValidAt` | src/tokenizer_wrapper.cpp:61-72 | the decoding loop decides that condition |
| `Utf8.FrontUnique` | src/tokenizer_wrapper.cpp:41-76 | the grammar has at most one character at a position |
| `Utf8.RepairWellFormed` | src/tokenizer_wrapper.cpp:28-85 | the output is well formed for every input |
| `Utf8.RepairFixes` | src/tokenizer_wrapper.cpp:28-85 | exactly the well-formed inputs come back unchanged |
| `Utf8.RepairIdempotent` | src/tokenizer_wrapper.cpp:28-85 | repairing twice is repairing once |
| `Utf8.RepairKeepsFront` | src/tokenizer_wrapper.cpp:28-85 | a well-formed front is kept and what follows is repaired as if it stood alone |
| `Utf8.RepairLength` | src/tokenizer_wrapper.cpp:28-85 | the output is at least as long as the input and at most three times as long |
| `Utf8.StrayBytesTriple` | src/tokenizer_wrapper.cpp:52-57 | the bound is reached by every text of stray continuation bytes |
| `Strippers.StripThinking` | src/summarizer.cpp:100-137 | the tag loop, the preamble cut and the trim compute the function the next rows speak of |
| `Strippers.StrippedSettles` | src/summarizer.cpp:100-137 | the result has no opening tag, even where an erasure joined two halves, no leading blank, and no thinking preamble with a blank line |
| `Strippers.StrippedFixed` | src/summarizer.cpp:100-137 | exactly the texts with those three properties are left unchanged |
| `Strippers.StripThinkingIdempotent` | src/summarizer.cpp:100-137 | stripping twice is stripping once |
| `Strippers.DropTagsClean` | src/summarizer.cpp:103-113 | the tag loop leaves no opening tag |
| `Strippers.DropsFirstBlock` | src/summarizer.cpp:103-113 | the first block goes from its tag to the first closing tag and no further |
| `Strippers.DropsUnterminated` | src/summarizer.cpp:103-113 | a block without a closing tag takes everything behind it along |
| `Strippers.PreambleGoes` | src/summarizer.cpp:115-130 | a preamble goes up to and with the last blank line |
| `Strippers.LeadingMarker` | src/summarizer.cpp:160-167 | finds a marker the text starts with exactly when there is one, and the compaction marker exactly when it is that one |
| `Strippers.InjectedExactly` | src/summarizer.cpp:80-148 | a turn is injected exactly when, behind blanks, it opens with one of the four annotations |
| `Strippers.FindClose` | src/summarizer.cpp:192-201 | finds the first position at which the brackets balance |
| `Strippers.StripSystemInjectedPrefix` | src/summarizer.cpp:171-211 | the loop computes the function the next row speaks of |
| `Strippers.StripPrefixPromises` | src/summarizer.cpp:139-211 | the result is a suffix of the input, is never classified as injected, and stripping again changes nothing |
| `Strippers.RemovesOnlyBlocks` | src/summarizer.cpp:171-211 | what goes is blanks and blocks, each opening with a marker and ending where its kind ends; the rest stays, or nothing when a block has no end |
| `Strippers.PeelResult` | src/summarizer.cpp:171-211 | the same for the loop alone, from any text |
| `Strippers.BlockIsBalanced` | src/summarizer.cpp:192-201 | a bracket block ends at the first position where its brackets balance |
| `Strippers.CompactionEnds` | src/summarizer.cpp:176-190 | a compaction block ends behind the line of its closing words, with the text when that line is the last, and nowhere without them |
| `Chunker.ScanHeadingLevel` | src/import.cpp:28-33 | the level is n exactly when the line opens with n of one to six number signs and a space |
| `Chunker.Annotate` | src/import.cpp:92-125 | popping and pushing the heading stack gives each paragraph the headings it stands under, as defined from the whole list |
| `Chunker.OpensExact` | src/import.cpp:115-120 | a heading is on the stack exactly when every later heading so far has a greater level |
| `Chunker.AboveRises` | src/import.cpp:115-120 | the levels on the stack strictly increase |
| `Chunker.AboveNext` | src/import.cpp:115-120 | dropping the headings not above a new one and pushing it gives the stack of the next paragraph |
| `Chunker.Merge` | src/import.cpp:126-151 | the merge loop renders the groups the next rows speak of |
| `Chunker.EveryBodyOnce` | src/import.cpp:126-151 | the groups together are the paragraphs in order, so each body lands in exactly one chunk; only blank paragraphs at the end may be dropped |
| `Chunker.ChunkSizes` | src/import.cpp:130-149 | no chunk is empty, every chunk but the last has at least the minimum size, and none takes a paragraph more once it has it |
| `Chunker.BodiesInOrder` | src/import.cpp:130-149 | the bodies of a group stand in its chunk whole, in order and without overlap |
| `Chunker.TextUnderHeadingLost` | src/import.cpp:114-125 | for every paragraph list and every heading paragraph: its text can be replaced by any other of that level without changing any chunk if and only if no paragraph of text stands under it, so text on the lines right below a heading is then in no chunk |
| `Chunker.HeadingInBlock` | src/import.cpp:105-125 | every open heading stands in the heading block and the section of the paragraphs under it |
| `Chunker.BlockInChunk` | src/import.cpp:126-151 | the heading block of each paragraph that opens a section stands whole in a chunk |
| `ChunkText.BodiesAreParas` | src/import.cpp:114-125 | the bodies are the paragraphs that are no headings, whole and in order |
| `ChunkText.HeadingParts` | src/import.cpp:35-45 | a heading paragraph is its number signs, a space and its text |
| `ChunkText.BlockIsParas` | src/import.cpp:105-112 | the heading block of a place is the heading paragraphs it stands under, outermost first, with blank lines between |
| `ChunkText.SectionJoins` | src/import.cpp:96-103 | the section is the headings' texts with the separator between |
| `ChunkText.ChunkEnds` | src/import.cpp:130-149 | a chunk opens with the headings of its first paragraph and is of the section of its last |
| `ChunkText.ChunkGrows` | src/import.cpp:138-144 | a further paragraph stands behind a blank line, or behind its headings when its section differs |
| `Pairing.Pair` | src/import.cpp:812-834 | one round of a pairing loop |
| `Pairing.TurnsExact` | src/import.cpp:811-837 | every block of the user gives one turn, in order; the reply of an answered turn is the block right behind its prompt and comes before the next prompt, so no reply is used twice |
| `Pairing.PromptsConserved` | src/import.cpp:645-675 | the prompts of the turns are the user's texts, each once and in order |
| `Pairing.ParseEvents` | src/import.cpp:645-675 | the loop over the lines of a file pairs the readable user and assistant messages with text |
| `Pairing.ParseClaudeCode` | src/import.cpp:621-678 | file by file, no prompt waiting for a reply in the next file |
| `Pairing.ParseClaudeWeb` | src/import.cpp:700-724 | conversation by conversation, the same |
| `ImportSources.CodeRead` | src/import.cpp:652-660 | a session file gives the readable messages of the two sides with a text; the user's are those of kind user, and one without a session is of the file's |
| `ImportSources.WebRead` | src/import.cpp:704-720 | a conversation gives the readable messages with a text; the user's are those of kind human or user, the other side's of kind assistant or claude |
| `ImportSources.FilePrompts` | src/import.cpp:645-675 | the prompts of a session file are the texts of its user's messages, in order |
| `ImportSources.ConversationPrompts` | src/import.cpp:700-724 | the same for a conversation |
| `ImportSources.ExportPrompts` | src/import.cpp:621-724 | and over all files or conversations, one behind the other |
| `Pairing.MergeBubbles` | src/import.cpp:778-809 | the loop over the messages builds the blocks of the runs the next rows speak of |
| `Pairing.GroupsAreRuns` | src/import.cpp:801-808 | the groups together are the conversation, each of one sender and one session, and no group could join the next |
| `Pairing.GuidInjective` | src/import.cpp:771-776 | two sessions have the same name exactly when they are the same |
| `Pairing.ParseTelegramChat` | src/import.cpp:767-838 | merging and pairing, composed |
| `Pairing.TelegramConserves` | src/import.cpp:767-838 | the user's messages that are no commands, in order and joined by group, are the prompts of the turns, one each, with the first message's time and the session's name |
| `ImportSources.ConversationComplete` | src/import.cpp:778-809 | the conversation is every message of either side with a text that is, of the user's, neither a command nor a bare stop or wait: once, in order, with sender, time, text and session |
| `ImportSources.SessionStarts` | src/import.cpp:788-791 | sessions count from 1, one more behind each /new of the user's, alone or with a topic |
| `ImportSources.GuidShown` | src/import.cpp:771-776 | a session's name is the prefix and its number in at least four digits |
| `Pairing.NoPairAcrossNew` | src/import.cpp:822-828 | a reply is the group right behind its prompt, and no /new comes between any of their messages |
| `Pairing.UnansweredExactly` | src/import.cpp:812-834 | a prompt has no reply exactly when it is last, or followed by the user again, or by a group of another session |
| `Pairing.SessionsRise` | src/import.cpp:788-791 | session numbers never fall, and stay the same between two messages exactly when there is no /new between them |
| `Pairing.TurnSessionsRise` | src/import.cpp:767-838 | the session numbers of the turns never fall |
| `WorkerPool.StepInv` | src/embed_executor.cpp:167-181 | every interleaved step of spawning, fetch-and-add, embedding, writing and joining keeps the invariant |
| `WorkerPool.OneWorkerPerSlot` | src/embed_executor.cpp:174-176 | at no moment are two workers at work on the same slot |
| `WorkerPool.JoinExact` | src/embed_executor.cpp:162-182 | at the return every index was taken once and embedded once, by the same worker, and its slot holds the outcome of that call |
| `WorkerPool.Progress` | src/embed_executor.cpp:171-181 | no run gets stuck before the return |
| `WorkerPool.RunLength` | src/embed_executor.cpp:171-181 | no run takes more than a fixed number of steps, and one has returned exactly when it took them all |
| `WorkerPool.Pool.FetchAdd` | src/embed_executor.cpp:174-175 | one fetch-and-add: keep the index, or leave the loop |
| `WorkerPool.Pool.Write` | src/embed_executor.cpp:176 | the outcome goes to the slot of the index |
| `WorkerPool.Batch` | src/embed_executor.cpp:162-182 | under any scheduler the pool returns, with one call for each text and its outcome in the slot |
| `McpClient.SplitJoins` | openclaw-plugin/index.ts:209-210 | the parts hold no newline and put together give the text |
| `McpClient.SplitUnique` | openclaw-plugin/index.ts:209-210 | no other parts do |
| `McpClient.FeedTwice` | openclaw-plugin/index.ts:164-167 | two chunks have the effect of one on the whole client: buffer, requests and settlements |
| `McpClient.ChunkingIrrelevant` | openclaw-plugin/index.ts:164-230 | however the decoded output is cut into chunks, the state afterwards is that of the output in one piece |
| `McpClient.LinesOfStream` | openclaw-plugin/index.ts:208-230 | in every state of every run the lines handled are the lines of the whole output so far, and the buffer is its unterminated tail |
| `McpClient.BytesExactly` | openclaw-plugin/index.ts:164-230 | chunks of bytes, each decoded by itself, give the lines and the buffer of the whole well-formed output if and only if each chunk is well formed by itself |
| `Decoding.DecodedExactly` | openclaw-plugin/index.ts:164-167 | the same for the text: a cut inside a character gives more characters |
| `McpClient.SettledOnce` | openclaw-plugin/index.ts:208-251 | every request sent is pending and unsettled, or settled exactly once: by the first line bearing its id since it was sent, with that line's result, or by the timer or the end of the process before such a line |
| `McpClient.OnlySentSettled` | openclaw-plugin/index.ts:208-251 | nothing but a request that was sent is ever pending or settled |
| `McpClient.TimersSettle` | openclaw-plugin/index.ts:243-250 | once every timer has fired nothing is pending |
| `McpClient.NothingPendingAfterExit` | openclaw-plugin/index.ts:181-187 | after the process exited nothing is pending, ever again |
| `McpClient.RunningMeansConnected` | openclaw-plugin/index.ts:296-298 | the client reports itself running only after the handshake was answered |
| `McpClient.EventInv` | openclaw-plugin/index.ts:137-299 | every event, in any order, keeps the invariant |
| `McpClient.McpClient.SendRequest` | openclaw-plugin/index.ts:232-251 | rejected at once and without effect exactly when there is no process to write to; otherwise a fresh id is pending with its timer |
| `McpClient.McpClient.Data` | openclaw-plugin/index.ts:164-167 | a chunk of bytes arriving is decoded by itself and is the chunk event of its text |
| `McpClient.McpClient.ProcessBuffer` | openclaw-plugin/index.ts:208-230 | handles the complete lines in order and keeps the tail |
| `McpClient.McpClient.ProcessLine` | openclaw-plugin/index.ts:212-229 | settles the pending request a line bears the id of, and nothing else |
| `McpClient.McpClient.Timeout` | openclaw-plugin/index.ts:243-250 | settles the request if it is still pending |
| `McpClient.McpClient.RejectAll` | openclaw-plugin/index.ts:280-285 | settles every pending request and no other |
| `McpClient.McpClient.OnExit` | openclaw-plugin/index.ts:181-187 | the exit event: all settled, no process |
| `McpClient.McpClient.Stop` | openclaw-plugin/index.ts:287-294 | the process is gone, what is pending stays pending |
| `Settings.LiveEqualsRestart` | src/config_access.cpp:468-504 | after any run of calls, accepted or rejected, that do not overlap on a key, whenever no row is still to be written the live configuration is what a restart would load on every key outside the seeded ones, and a reload changes nothing and counts no change |
| `Settings.StepInv` | src/config_access.cpp:468-504 | each publishing, row write and reload keeps the invariant behind it |
| `Settings.RestartField` | src/config_access.cpp:412-452 | a start loads for a key its row, when there is a valid one, and the default otherwise |
| `Settings.RestartSeeded` | src/config_access.cpp:444-458 | a seeded key starts from the setting it is seeded from when it has no value of its own |
| `Settings.SeededDrifts` | src/config_access.cpp:444-458 | changing that setting moves what a restart gives the seeded key, but not its live value |
| `Settings.OverlappingCalls` | src/config_access.cpp:488-501 | two overlapping calls for one key, the later publisher writing its row first: live and restart then agree if and only if both values mean the same |
| `Settings.ReloadDuringCall` | src/config.cpp:476-610 | a reload between a call's publishing and its row: live and restart then agree if and only if the reload does not copy the key or the new value means what the old one did; a key it copies goes back to the old value while the row holds the new one |
| `Settings.MissingDatabase` | src/config_access.cpp:496-501 | a change while the database file is missing: live and restart still agree if and only if it changed neither the field nor the credentials |
| `Settings.FieldlessKey` | src/config_access.cpp:340-364 | a schema entry without a field accepts no value, and a row under its key changes nothing a start loads |
| `SettingValues.OutcomesExact` | src/config_access.cpp:330-371 | each outcome with its exact condition; an accepted value needs a restart, or a rebuild, exactly when its setting says so |
| `SettingValues.MaskExact` | src/config_access.cpp:468-490 | writing a secret's mask back is accepted without effect; any other value is judged, and published exactly when accepted |
| `SettingValues.AppliedExactly` | src/config_access.cpp:350-364 | an accepted value changes one field, and both credentials are read anew from the variables the settings name |
| `SettingValues.EmptyMeansDefault` | src/config_access.cpp:347-348 | an empty value is valid and means what the default means |
| `SettingValues.SwitchExact` | src/config_access.cpp:128-134 | true, yes, 1 and false, no, 0 in any case are the valid switches, and mean what they say |
| `SettingValues.FractionExact` | src/config_access.cpp:148-164 | a fraction means what strtod reads of it |
| `SettingValues.TextKept` | src/config_access.cpp:302-330 | texts, paths and choices are kept as given; names of variables must be identifiers, the summarizer's prompt a format |
| `SettingValues.ChoiceExact` | src/config_access.cpp:274-298 | a choice is valid exactly when it is one of the listed ones |
| `SettingValues.NumberRead` | src/config_access.cpp:136-147 | a number that fits a long is read as itself, blanks around it or not |
| `SettingValues.NumberOnly` | src/config_access.cpp:136-147 | nothing else is read as a number |
| `SettingValues.NumberExact` | src/config_access.cpp:250-361 | the field holds the number when it fits 32 bits and its low bits otherwise, the log's limit in full; the two percentages lie between 1 and 100 |
| `SettingValues.StartValue` | src/config_access.cpp:412-442 | a start takes a valid row at its meaning and the default otherwise |
| `SettingValues.SeededExactly` | src/config_access.cpp:444-458 | a seeded key takes its source over when its own value is empty or 0 |
| `Text.CaseIgnored` | src/config_access.cpp:128-134 | lowering ignores the case of A to Z and changes nothing else |
| `Settings.ReloadCatchesUp` | src/config.cpp:502-603 | whatever was written outside, a reload brings every field it copies to what a restart would load and no other |
| `Settings.ReloadedIdle` | src/config.cpp:603-609 | a reload that counts no change has none to publish |
| `Settings.Overlay` | src/config_access.cpp:412-459 | the loop over the schema, the seeding and the credentials compute what a start loads |
| `Settings.ConfigStore.constructor` | src/config.cpp:451-474 | a first init_config leaves the live configuration at what a start loads |
| `Settings.ConfigStore.UpdateConfig` | src/config.cpp:439-449 | a rejected value publishes nothing |
| `Settings.ConfigStore.SetConfigPersisted` | src/config_access.cpp:468-504 | unknown, locked and invalid keys are rejected without effect, the secret's mask is accepted without effect, and an accepted value is published and then written as given |
| `Settings.ConfigStore.ReloadConfig` | src/config.cpp:476-610 | the fields it copies, one by one, with the number that changed |
| `Codecs.Base64UrlEncode` | src/auth.cpp:31-57 | the loop and the cut of the padding give the encoding by section 5 of RFC 4648 |
| `Codecs.DecodeEncode` | src/auth.cpp:31-57 | the strict decoder of that section gives the octets back, for every length |
| `Codecs.EncodeDecode` | src/auth.cpp:31-57 | every text the strict decoder takes is the encoding of what it yields |
| `Codecs.EncodeShape` | src/auth.cpp:31-57 | ceil(4n/3) characters, all in the alphabet |
| `Codecs.EncodeCarriesBits` | src/auth.cpp:36-48 | the characters carry the bits of the octets in order, filled up with zeros to whole sextets |
| `Codecs.BytesToHex` | src/auth.cpp:151-158 | two lower-case digits for each octet |
| `Codecs.HexToBytes` | src/auth.cpp:160-168 | pair by pair what the scan reads; an odd last digit is dropped |
| `Codecs.UnhexHex` | src/auth.cpp:151-168 | reading the digits gives the octets back |
| `Codecs.HexUnhex` | src/auth.cpp:151-168 | digits in either case, read and written, come back in lower case without an odd last one |

## Left out

- Reembed: does not model other processes that hold an old embedder, a change of embedding engine, or the SQL behind the row store; rows are a map with a vector and a version byte, and are never deleted.
- Reembed.Apply: the first recording of the identity of a fresh database is the same step as its later re-adoption.
- ReembedQuery.QueryExactly: does not speak of a query over which two updates promote, because vectors of three models may then be stored.
- ReembedMemory: `try_recover_embeddings` appears as a step of the transition system only, with the embedder load as its input.
- TextIndex: float rounding, the ordering of the returned score list, and the SQL statements behind the hooks; the hooks are maps.
- FtsTokenize: stop-word, contraction and symbol tables, the stemmer and Double Metaphone; words come from a parameter.
- ContextWalk: the backend's queries; their answers are inputs, sorted as the storage contract says.
- Summarizer: the prompt, the token budget and the inference call; a call returns a text, empty when it failed. A model literally named "bad" would make real markers resettable.
- EpisodeClose: a segment's summary is a function of its turns' summaries; the inference call is not modelled. The end of the last episode is an epoch here; the source passes it through local time as text. `EpisodeLate` is for turns of distinct seconds.
- Vectors: IEEE rounding in the sums and the root.
- Utf8: the call into the tokenizer that the scrubbed text goes to.
- Chunker: the clean-up by regular expressions and the split into paragraphs; the model starts from split paragraphs.
- Pairing: JSON, dates, text extraction and file walking; the model starts from extracted messages. Files that cannot be opened are left out of the list.
- WorkerPool: the retry loop around the subprocess; a call has any outcome that `EmbedExecutor::one` can have. Threads that fail to start.
- McpClient: `callTool` and stderr logging. Strings are code points; the host's are UTF-16 code units.
- Settings: key groups without a schema entry (inference endpoints, log file), which no settings call changes, and the C++ field-name tables; a field is found by its key. Boolean and float defaults that do not parse would be undefined in the source and are given a value here.
- Settings.ConfigStore: a second init_config in one process, and outside writers between a reload's reading and its publishing.
- Codecs.HexToBytes: `sscanf` on anything but two digits is a parameter, and so is what the variable held when it read nothing; the source leaves that undefined.
- Password hashing, tokens, the HTTP server, the command line, dashboards and the Hermes plugin are not part of this model.
