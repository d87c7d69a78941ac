# Sentinex: verified models of its stateful cores

Sentinex is a Django application that ingests company data (Google Drive, Pipedrive, Slack and
others), indexes it for retrieval and serves language-model agents over it.  Most of it is plumbing;
this project models the parts where an algorithm or a long-lived state must be right, in Dafny 4.11,
and proves what they promise over every input and every run.

Run `dafny verify dfyconfig.toml` in this directory.

## How the models are built

Database tables, caches and buffers are fields of a class or maps in a datatype; a remote service is
a function or the list of its answers; a clock is a `real` or `nat` parameter; a failing request,
insert, tool or row is a choice among the inputs.  Code that updates state is a class whose methods
update the same fields with the same branches and loops, each proved equal to a step function on
values; the theorems are then lemmas about those functions and about runs of them.  Real numbers
stand for floats, and money is an integer number of its quantum, rounded half to even.

| module | what it models |
|---|---|
| `PiiPatterns`, `Guardrails`, `MaskPasses`, `MaskMaps` | the four patterns, masking and unmasking of personal data |
| `Chunker` | packing paragraphs into overlapping chunks, and hard splits |
| `Indexer` | document rows and their chunk rows under upsert, ingest and removal |
| `DriveIngest` | full and incremental ingestion of a Drive from a change log with a saved watermark |
| `TokenBucket`, `McpRateLimit` | the connectors' token bucket and the fixed-window limiter |
| `ConnectorSync`, `Stamps` | the cursor-driven sync of Pipedrive deals |
| `Identity` | exact, fuzzy or new: whose record is this |
| `EmbeddingGateway` | the cached, batched embedding call |
| `ClickHouseSink` | deduplicating, buffering event sink |
| `ToolLoop`, `Pricing` | the tool-use conversation loop and its cost |
| `Anomalies` | z-score anomaly detection |
| `Options`, `Text`, `Rounding` | an option type, Python's `strip` and half-even rounding |

Where a property one would expect does not hold of the code, an input shows it and the exact
condition is proved.

- Masking is undone by unmasking exactly when the text does not itself spell out a token that masking
  issues (`Guardrails.MaskRoundTrip`); a text that spells out no token at all always comes back
  (`Guardrails.TokenlessRoundTrip`).  A map handed in by the caller keeps a binding exactly when the call
  does not issue its token again (`MaskMaps.ExistingKeptIff`).
- The chunker loses text exactly when a paragraph that fits stands directly before an oversize one (the
  hard split discards what is pending), or the overlap keeps the hard split from advancing
  (`Chunker.NothingLost`, `Chunker.StrandedIsLost`).
- The token bucket keeps its rate exactly when it refills within its 3600 s cache timeout
  (`TokenBucket.RateTheorem`); a slower bucket is full again as soon as its state expires.
- A full Drive ingest never removes rows.  Once its changes are drained the table equals Drive exactly when
  every row it started from belongs to a file still live at the start token or touched since
  (`DriveIngest.FullIngestExact`); so any mix of full and incremental runs converges as long as no full ingest
  completes over a stale row (`DriveIngest.RunConverges`).
- A connector sync that is not interrupted loses nothing exactly when no row that fails, and that the mirror
  does not hold as it stands, is older than a row that does not fail (`ConnectorSync.PartialLosesIff`).
- A record with an identifier resolves to the same person for ever exactly when, before the call, none of its
  identifiers was known or its first one was (`Identity.StableIff`).
- The event sink's table and buffer hold every accepted row exactly once, in order, if and only if every flush
  either goes through or fails at its first insert (`ClickHouseSink.ExactlyOnceIff`).

The documentation of `IdentityResolver` speaks of a fuzzy match "at same Organization"; the code
filters by organization only when the caller passes one, and the model follows the code.

## Model

| member | source | states |
|---|---|---|
| PiiPatterns.SpanIsPii | apps/agents/guardrails.py:41-44 | every span in the language of the e-mail, card, birth-number or phone pattern has no bracket and either holds an `@` or has two digits at least eight places apart |
| Guardrails.TokenInjective | apps/agents/guardrails.py:57-60 | tokens of different kinds or indices are different strings |
| Guardrails.TokenSlim | apps/agents/guardrails.py:41-60 | no matched value fits inside a token with an index below 10^8 |
| Guardrails.Masker.Substitute | apps/agents/guardrails.py:52-61 | the callback reuses the token of a known value, otherwise issues the next index of its kind and records it |
| Guardrails.Masker.ReplaceAll | apps/agents/guardrails.py:51-62 | one left-to-right pass, sharing the map with the other passes |
| Guardrails.MaskPii | apps/agents/guardrails.py:47-69 | masking is the four passes in order over one map and fresh counters |
| MaskPasses.MaskIsFourPasses | apps/agents/guardrails.py:64-69 | masking with a fresh map is the e-mail, card, birth-number and phone pass in that order, each replacing exactly the leftmost matches of its pattern by the tokens of their values and numbering new values from zero |
| MaskPasses.NothingMaskedIff | apps/agents/guardrails.py:47-69 | with a fresh map nothing is masked if and only if none of the four patterns is found anywhere, and then the text is unchanged |
| MaskPasses.FirstMatchMasked | apps/agents/guardrails.py:51-69 | for each of the four kinds, when only it is found and first at i..j, the masked text begins with `text[..i]` and the kind's token 0, and the first entry binds that token to `text[i..j]` |
| MaskPasses.TokensAreSpelled | apps/agents/guardrails.py:59-68 | the tokens are the names EMAIL, CARD, RC and PHONE with an index, in brackets |
| MaskPasses.DecimalIs | apps/agents/guardrails.py:59 | the index is written in decimal without leading zeros |
| Guardrails.UnmaskPii | apps/agents/guardrails.py:72-76 | unmasking replaces the tokens one after the other in map order |
| Guardrails.CallbackKeeps | apps/agents/guardrails.py:52-61 | from a fresh start a callback overwrites no token and keeps the map a bijection |
| MaskMaps.CallbackOverwrites | apps/agents/guardrails.py:48-60 | with any map, a callback keeps every binding if and only if its value is mapped already or its next token is not taken |
| Guardrails.Pass | apps/agents/guardrails.py:51-62 | a pass over literals and known tokens never cuts into a token, and leaves literals and known tokens with the same expansion |
| Guardrails.MaskSymbols | apps/agents/guardrails.py:47-69 | the masked text is a sequence of literal characters and known tokens that expands to the original text |
| Guardrails.MaskMapIsBijection | apps/agents/guardrails.py:52-61 | tokens and values of a fresh map correspond one to one |
| Guardrails.UnmaskExpands | apps/agents/guardrails.py:72-76 | sequential replacement gives the expansion whenever no token occurs in it |
| Guardrails.UnmaskRemoves | apps/agents/guardrails.py:72-76 | no token of the map is left after unmasking |
| Guardrails.MaskRoundTrip | apps/agents/guardrails.py:47-76 | unmasking undoes masking with a fresh map if and only if no issued token is spelled out in the text |
| Guardrails.TokenlessRoundTrip | apps/agents/guardrails.py:47-76 | every text that spells out no token of any kind and index round-trips |
| Guardrails.BracketlessRoundTrip | apps/agents/guardrails.py:47-76 | every text without an opening bracket round-trips |
| MaskMaps.ExistingKeptIff | apps/agents/guardrails.py:47-69 | a whole call given a map keeps one of its bindings if and only if the binding's token is not among those issued from zero on |
| MaskMaps.ForeignTokensStay | apps/agents/guardrails.py:47-69 | a given binding whose token is of no kind and index survives every call, whatever the text |
| MaskMaps.BindingIsOverwritten | apps/agents/guardrails.py:47-69 | a concrete call whose given map loses its binding to a new address |
| MaskMaps.SpelledTokenIsLost | apps/agents/guardrails.py:47-76 | a concrete text that spells out its own token does not come back |
| Chunker.Builder.FlushCurrent | apps/data_access/knowledge/chunker.py:56-70 | a flush emits the pending body as the next chunk and starts over with its last 4*overlap characters |
| Chunker.Builder.Add | apps/data_access/knowledge/chunker.py:72-91 | one paragraph is hard-split, or flushed before and packed, as the step function says |
| Chunker.ChunkText | apps/data_access/knowledge/chunker.py:36-93 | the whole of `chunk_text`, for every size and overlap, defaults and blank texts included, is the fold of that step, and raises exactly when overlap equals size and a paragraph is oversize; when no paragraph is dropped every non-blank part of the text is found in the chunks it returns |
| Chunker.DefaultsApply | apps/data_access/knowledge/chunker.py:47-48 | an absent or zero size and an absent overlap come from the settings; an overlap of zero counts |
| Chunker.CountIs | apps/data_access/knowledge/chunker.py:29-32 | the count is a quarter of the characters, rounded down, and at least one |
| Chunker.PartsHaveNoSeparator | apps/data_access/knowledge/chunker.py:50 | no part holds a blank line |
| Text.StripIs | apps/data_access/knowledge/chunker.py:50 | stripping cuts only space, at the ends, and leaves none there |
| Chunker.ParagraphsAre | apps/data_access/knowledge/chunker.py:50 | the paragraphs are exactly the parts that are not blank, stripped, in order |
| Chunker.PartsAreFound | apps/data_access/knowledge/chunker.py:36-93 | for a whole text: when no paragraph is dropped, every part that is not blank is found in the returned chunks |
| Chunker.NonBlankYieldsChunk | apps/data_access/knowledge/chunker.py:45-93 | every text that is not blank yields a chunk when the hard split advances |
| Chunker.BlankHasNoParagraphs | apps/data_access/knowledge/chunker.py:45-50 | a text that is blank as a whole has no non-blank part, so the early return changes nothing |
| Chunker.ChunksArePacks | apps/data_access/knowledge/chunker.py:29-93 | chunks are numbered from zero and render the packs; none is overlap only; at most size+overlap tokens and 9 characters a token |
| Chunker.PackingIsGreedy | apps/data_access/knowledge/chunker.py:88-91 | as many paragraphs go to a chunk as the size allows, and a new chunk starts only with one that would have pushed the other over it |
| Chunker.TokensArePacks | apps/data_access/knowledge/chunker.py:56-91 | the token count of a packed chunk is that of its overlap prefix and its paragraphs; a window counts itself |
| Chunker.BodyIs | apps/data_access/knowledge/chunker.py:60-70 | a chunk that follows a packed one begins with that one's last 4*overlap characters and a blank line; any other is its paragraphs alone |
| Chunker.NothingLost | apps/data_access/knowledge/chunker.py:72-92 | the packs hold every paragraph if and only if no fitting paragraph stands directly before an oversize one, and none is oversize when the overlap is not below the size |
| Chunker.ParagraphsAreFound | apps/data_access/knowledge/chunker.py:72-92 | when none is dropped, in any mix every fitting paragraph occurs in some chunk text and every oversize one glues from a consecutive stretch of chunk texts |
| Chunker.StrandedIsLost | apps/data_access/knowledge/chunker.py:74-87 | a concrete list of two paragraphs whose first one is in no chunk |
| Chunker.FittingTextRejoins | apps/data_access/knowledge/chunker.py:50-93 | when every paragraph fits, chunk texts minus their overlap prefixes rejoin to the paragraphs |
| Chunker.HardSplitGlues | apps/data_access/knowledge/chunker.py:74-84 | the windows of an oversize paragraph glue back to it, and each has between 1 and `chunk_size` tokens |
| Chunker.WindowsAre | apps/data_access/knowledge/chunker.py:76-84 | windows begin at steps of 4*(size-overlap) characters, each 4*size characters long or up to the end |
| Chunker.SplitRejoins | apps/data_access/knowledge/chunker.py:50 | splitting at blank lines rejoins to the text |
| Indexer.Tables.DeleteChunks | apps/data_access/knowledge/indexer.py:35-40 | exactly the rows of one document disappear, order kept |
| Indexer.Tables.InsertChunks | apps/data_access/knowledge/indexer.py:43-63 | all rows are appended in order unless one insert fails |
| Indexer.Tables.UpsertDriveFile | apps/data_access/knowledge/indexer.py:66-83 | title, type, owner, link, modification time and size are replaced with their cut values, the metadata with the parents; a new document gets a new key |
| Indexer.ColumnsAre | apps/data_access/knowledge/indexer.py:66-83 | each column is the named part of the file, cut to its width, the owner the first one; a chunk row repeats title, owner, link and type |
| Indexer.UpsertIs | apps/data_access/knowledge/indexer.py:66-83 | an upsert sets columns and parents, keeps key, status, error and text of a known document, makes a pending one with a new key otherwise, and touches nothing else |
| Indexer.Tables.RemoveDocument | apps/data_access/knowledge/indexer.py:86-90 | the document and its chunk rows go together; a missing one changes nothing |
| Indexer.RemoveIs | apps/data_access/knowledge/indexer.py:86-90 | exactly that document and its rows are gone |
| Indexer.Tables.IngestDocument | apps/data_access/knowledge/indexer.py:93-163 | every branch of extraction, chunking, embedding and the atomic swap, with status, error text, truncation flag and metadata, roll-back included |
| Indexer.IngestEnds | apps/data_access/knowledge/indexer.py:93-163 | every end of an ingest, by type, extraction, text, chunking, embeddings and inserts: the status and error it leaves, and that it raises exactly when chunking, embedding or an insert does |
| Indexer.IndexedIff | apps/data_access/knowledge/indexer.py:93-163 | a document ends Indexed if and only if its type is supported, a non-blank text is extracted, chunking does not raise and yields a chunk, the embeddings arrive and no insert fails |
| Indexer.IndexedWheneverItCan | apps/data_access/knowledge/indexer.py:93-163 | when the hard split advances, every non-blank text of a supported type with embeddings and inserts coming through ends Indexed |
| Indexer.ErrorsAre | apps/data_access/knowledge/indexer.py:96-130 | the error texts, that of a failed extraction cut to 500 characters |
| Indexer.Tables.IngestDriveFile | apps/data_access/knowledge/tasks.py:25-35 | upsert, then skip or ingest |
| Indexer.FileIngestEnds | apps/data_access/knowledge/tasks.py:25-35 | `ingest_drive_file` upserts, then skips an unsupported type or ingests |
| Indexer.FileIndexedIff | apps/data_access/knowledge/tasks.py:25-35 | after `ingest_drive_file` the document is indexed if and only if the type is supported and extraction, chunking, embedding and inserts come through |
| Indexer.IngestedChanges | apps/data_access/knowledge/indexer.py:93-163 | an ingest changes its own document only, keeps its key, and swaps the rows exactly when it ends Indexed |
| Indexer.SwappedRows | apps/data_access/knowledge/indexer.py:156-158 | after the swap this document's rows are the built ones and every other document's are unchanged |
| Indexer.FaithfulRows | apps/data_access/knowledge/indexer.py:132-154 | zipping chunks with faithful embeddings builds exactly the rows the extraction should have |
| Indexer.IngestKeepsAgreement | apps/data_access/knowledge/indexer.py:93-163 | an ingest, failing anywhere, keeps documents and rows in agreement |
| Indexer.IndexAgrees | apps/data_access/knowledge/indexer.py:35-163 | in every reachable state keys are unique, every row has its document, and every document, indexed or not, has exactly the rows of its last indexing |
| Indexer.RowsAreLastIndexed | apps/data_access/knowledge/indexer.py:86-163 | in every reachable state a document has exactly the rows of the last ingest of its file that ended Indexed since its last removal, none when there was none; an indexed one has the text of that ingest |
| Indexer.IndexedRowsAreOfText | apps/data_access/knowledge/indexer.py:116-162 | in every reachable state an indexed document has exactly the rows of chunking its saved text, if that is below the cap or the text it was indexed from was no longer than the cap |
| Indexer.IndexedAtOnce | apps/data_access/knowledge/indexer.py:116-162 | right after indexing, the rows are those of this extraction, and of the saved text up to and including the cap |
| Indexer.OthersUntouched | apps/data_access/knowledge/indexer.py:66-163 | a step on one document leaves every other document and its rows unchanged |
| DriveIngest.IterDriveChanges | apps/data_access/knowledge/discovery.py:55-89 | the drain collects page after page and returns a watermark only from a page without successor |
| DriveIngest.DrainIsLog | apps/data_access/knowledge/discovery.py:55-89 | a complete drain is the stretch of the log from the token to the watermark, which is no earlier than the log's end when the drain began |
| DriveIngest.NotTrashedIs | apps/data_access/knowledge/discovery.py:40-43 | the entries of a page that are not trashed are kept in order |
| DriveIngest.ListingIs | apps/data_access/knowledge/discovery.py:26-46 | a listing yields exactly the entries that are not trashed of the pages up to the first without successor or the first failing request |
| DriveIngest.Workspace.TakeEntry | apps/data_access/knowledge/tasks.py:52-59 | a trashed entry is passed over; any other is ingested or only recorded, by its type |
| DriveIngest.Workspace.TakePage | apps/data_access/knowledge/tasks.py:52-59 | the index after a page is that of ingesting or recording its non-trashed files in order until the worker dies |
| DriveIngest.Workspace.TakeListing | apps/data_access/knowledge/tasks.py:50-59 | the index after a listing is that of taking its files page after page until it ends, a request fails or the worker dies |
| DriveIngest.Workspace.FullIngest | apps/data_access/knowledge/tasks.py:39-65 | a full run leaves the index of taking what it lists; the cursor becomes the start token, and the file total the number listed, only when the listing ends |
| DriveIngest.Workspace.TakeChange | apps/data_access/knowledge/tasks.py:80-90 | a change removes, ingests or is ignored |
| DriveIngest.Workspace.TakeChanges | apps/data_access/knowledge/tasks.py:80-90 | the index after the drained changes is that of applying them in order until done or the worker dies |
| DriveIngest.Workspace.Incremental | apps/data_access/knowledge/tasks.py:69-100 | an incremental run leaves the index of applying the drained changes and moves the cursor only afterwards; without a cursor it is a full run |
| DriveIngest.ListedIndexedIff | apps/data_access/knowledge/tasks.py:52-59 | after a full run, whatever the index before, the last listed file of an id, of a supported type, is indexed if and only if its extraction, chunking, embedding and inserts came through |
| DriveIngest.ChangeIndexedIff | apps/data_access/knowledge/tasks.py:80-90 | the same after an incremental run, of the last change that concerns a file |
| DriveIngest.FullIngestKeepsIndex | apps/data_access/knowledge/tasks.py:39-65 | a full run, wherever it stops, turns a reachable index into a reachable one, in which every document has the rows of its last indexing |
| DriveIngest.ChangesKeepIndex | apps/data_access/knowledge/tasks.py:80-90 | so does an incremental run |
| DriveIngest.TakePagesFront | apps/data_access/knowledge/discovery.py:26-46 | what a full run took is a front part of the listing, and all of it when the run completes |
| DriveIngest.Replay | apps/data_access/knowledge/tasks.py:77-90 | replaying the log repairs every row that lags behind; reaching the lag's end makes the table equal Drive |
| DriveIngest.FullIngestBehind | apps/data_access/knowledge/tasks.py:45-64 | right after a complete full ingest the log will repair every difference if and only if no stale row was there before |
| DriveIngest.FullIngestExact | apps/data_access/knowledge/tasks.py:45-100 | after a complete full ingest and the drain of its changes the documents equal Drive's live files if and only if every row it started from belongs to a file live at the start token or touched since |
| DriveIngest.PartialFullKeepsBehind | apps/data_access/knowledge/tasks.py:45-64 | a full ingest, complete or not, never undoes what a saved cursor relies on |
| DriveIngest.IncrementalStep | apps/data_access/knowledge/tasks.py:69-100 | an incremental run keeps the table recoverable whatever fails, and moves the watermark only to where the table equals Drive |
| DriveIngest.FullStepIff | apps/data_access/knowledge/tasks.py:39-65 | a full ingest, also a repeated one, keeps the table recoverable if and only if it does not complete or meets no stale row |
| DriveIngest.StaysRecoverable | apps/data_access/knowledge/tasks.py:39-100 | over any edits, full and incremental runs the table stays recoverable and the watermark never goes back, as long as no full ingest completes over a stale row |
| DriveIngest.RunConverges | apps/data_access/knowledge/tasks.py:39-100 | from an empty table and any such run, after a complete drain the documents equal Drive's live files at the saved watermark |
| DriveIngest.DriveConverges | apps/data_access/knowledge/tasks.py:39-100 | from an empty table, a full ingest interleaved with edits and any later incremental runs: after a complete drain the documents equal Drive's live files at the saved watermark |
| DriveIngest.ConvergedColumns | apps/data_access/knowledge/indexer.py:66-83 | a converged table has a row for each live file and no other, whose columns are the named parts of that file |
| DriveIngest.RetriedFullKeepsDeletedFile | apps/data_access/knowledge/tasks.py:39-65 | a concrete full ingest that dies and is retried keeps the row of a file deleted in between |
| TokenBucket.Bucket.Available | apps/connectors/_framework/rate_limit.py:43-58 | the level read lies between 0 and the capacity |
| TokenBucket.Bucket.Acquire | apps/connectors/_framework/rate_limit.py:53-65 | `acquire` always ends; it serves at one moment, at once when the level suffices, gives up only after its deadline, succeeds when the deficit is refilled within the timeout, never grants more than the capacity; when no sleep is more than `slack` late it ends less than half a second and `slack` after the deadline, and at most `slack` after the refill covers the request; from a refill of 0.01 up it ends within ceil(2*timeout)+2 iterations |
| TokenBucket.LevelRange | apps/connectors/_framework/rate_limit.py:43-58 | the stored level stays in [0, capacity] |
| TokenBucket.ServeConserves | apps/connectors/_framework/rate_limit.py:56-61 | what is granted is exactly what leaves the level |
| TokenBucket.Potential | apps/connectors/_framework/rate_limit.py:43-61 | grants over a run are at most the level at its start plus the refill |
| TokenBucket.RateTheorem | apps/connectors/_framework/rate_limit.py:43-61 | over every window of every run grants are at most capacity + refill*(t-s), if and only if capacity <= 3600*refill |
| TokenBucket.ExpiryTheorem | apps/connectors/_framework/rate_limit.py:43-51 | losing the state after its timeout is unobservable under the same condition, if and only if |
| McpRateLimit.Gateway.EnforceRateLimit | apps/data_access/mcp/gateway.py:72-77 | a call is counted under its minute's key, or refused |
| McpRateLimit.CounterCounts | apps/data_access/mcp/gateway.py:72-77 | a counter is the number of calls admitted in its minute and cannot expire within it |
| McpRateLimit.AdmittedIff | apps/data_access/mcp/gateway.py:72-77 | a call is admitted if and only if fewer than 60 were admitted in its minute |
| McpRateLimit.WindowBounds | apps/data_access/mcp/gateway.py:72-77 | at most 60 admitted calls in a clock minute and 120 in any 60 seconds |
| Anomalies.GetRecentAnomalies | apps/data_access/insight_functions/strategic.py:54-90 | exactly the flagged observations are reported, in order, with scores rounded to two decimals; the early return for fewer than five changes nothing; at most a quarter are reported |
| Anomalies.Cauchy | apps/data_access/insight_functions/strategic.py:70-72 | the square of a sum is at most the count times the sum of squares |
| Anomalies.Samuelson | apps/data_access/insight_functions/strategic.py:70-76 | a squared z-score is at most n-1 |
| Anomalies.FlaggedIff | apps/data_access/insight_functions/strategic.py:71-77 | an observation is flagged if and only if the variance is positive and its squared deviation reaches four times it; the zero-deviation fallback flags nothing |
| Anomalies.FewFlagged | apps/data_access/insight_functions/strategic.py:62-90 | at most a quarter is ever flagged, and none among fewer than five |
| Anomalies.ReportsAreTrue | apps/data_access/insight_functions/strategic.py:75-89 | every report is an observation whose rounded score still reaches two and has the sign of its direction |
| Anomalies.ReportsAreFlagged | apps/data_access/insight_functions/strategic.py:74-90 | the reports stand for increasing places of the series, exactly those that are flagged |
| Anomalies.ReportsCarry | apps/data_access/insight_functions/strategic.py:71-88 | every report carries the mean of all counts and their deviation, never the stand-in of 1.0, and tells a spike exactly above the mean |
| Anomalies.CountsAre | apps/data_access/insight_functions/strategic.py:66-68 | a missing or unreadable count is zero |
| Anomalies.SpikeIsFlagged | apps/data_access/insight_functions/strategic.py:62-90 | one spike among n observations is flagged if and only if n >= 5, so the early return's bound is the best one |
| Stamps.MaxBounds | apps/connectors/pipedrive/ingest.py:235 | the larger of two stamps in string order is one of them and at least both |
| ConnectorSync.IterDeals | apps/connectors/pipedrive/client.py:97-114 | paging collects exactly the listed deals not older than the cursor, in order, or raises, exactly when a request fails that is the first or starts within the list |
| ConnectorSync.DealSync.Persist | apps/connectors/_framework/base_sync.py:159-172 | one row: the upsert, the counters and the cursor maximum, or one more error |
| ConnectorSync.DealSync.Run | apps/connectors/_framework/base_sync.py:110-156 | the whole run: status, saved row, outcome, cursor |
| ConnectorSync.RunIs | apps/connectors/_framework/base_sync.py:110-182 | every run in plain terms: created counts the ids new to the mirror, errors the rows that raise, updated the others; failed exactly when interrupted, completed exactly when no row raised; the cursor moves to the greatest persisted stamp |
| ConnectorSync.RunMirrorIs | apps/connectors/pipedrive/ingest.py:206-236 | after any run, also an interrupted one, an id holds the last deal persisted for it with its title cut to 512 characters, or what it held before |
| ConnectorSync.CountersAddUp | apps/connectors/_framework/base_sync.py:159-172 | fetched is the sum of the four outcomes |
| ConnectorSync.RunAddsUp | apps/connectors/_framework/base_sync.py:133-182 | the row that `_finalize_run` saves adds up whatever the status; a failed run reports one error more than it saves and keeps the cursor |
| ConnectorSync.CursorAdvances | apps/connectors/pipedrive/ingest.py:235 | the cursor never goes back and never passes the newest edit |
| ConnectorSync.CompletedAgrees | apps/connectors/pipedrive/ingest.py:182-236 | after a completed run the mirror agrees with the source on every listed deal |
| ConnectorSync.FailedKeeps | apps/connectors/_framework/base_sync.py:138-145 | an interrupted run keeps the no-loss invariant |
| ConnectorSync.PartialLosesIff | apps/connectors/_framework/base_sync.py:147-154 | a run that is not interrupted loses nothing if and only if, among what it fetched, no failing row that the mirror does not hold as it stands is older than a row that does not fail |
| ConnectorSync.CompletedIsSafe | apps/connectors/_framework/base_sync.py:147-148 | a completed run meets that condition, whatever it fetched |
| ConnectorSync.RunsKeep | apps/connectors/_framework/base_sync.py:110-192 | the no-loss invariant over every interleaving of edits and of completed, failed or harmlessly partial runs |
| ConnectorSync.MirrorLosesNothing | apps/connectors/_framework/base_sync.py:110-192 | after any such run, a completed sync makes the mirror agree with the source on every deal |
| ConnectorSync.PartialLosesRow | apps/connectors/_framework/base_sync.py:147-154 | a concrete partial run whose failed row is never fetched again |
| Identity.IdentityResolver.FindBest | apps/identity/services.py:140-144 | the first candidate with the highest score at or above 0.85 |
| Identity.FuzzyMatchIff | apps/identity/services.py:133-154 | a fuzzy match has the record's e-mail domain, a role at the given organization and a name at the threshold; unless the query was cut off at 50, a record no identifier finds is matched by name if and only if there is such a person |
| Identity.BestUnique | apps/identity/services.py:140-144 | that description determines the answer |
| Identity.DomainIs | apps/identity/services.py:135 | the domain is what follows the first at sign |
| Identity.IdentifiersAre | apps/identity/services.py:238-250 | the identifiers in order: lower-cased address, Slack id, phone, id in the source system, each if present, then the extra ones |
| Identity.SourceTypesAre | apps/identity/services.py:77-85 | the identifier type of each source system, and of any other |
| Identity.IdentityResolver.UpsertIdentities | apps/identity/services.py:266-278 | every identifier is bound to the person, in order |
| Identity.IdentityResolver.MergeFields | apps/identity/services.py:306-322 | empty fields are filled from the record |
| Identity.IdentityResolver.ResolvePerson | apps/identity/services.py:112-179 | exact hit, fuzzy hit or new person, with its method and confidence, as the step function says |
| Identity.ResolveKeeps | apps/identity/services.py:112-179 | a call moves no identifier, overwrites no filled field and creates at most one person |
| Identity.ResolveBinds | apps/identity/services.py:112-179 | afterwards the record's first known identifier belongs to the returned person, and all of them after creation or a fuzzy match |
| Identity.ResolvedAgain | apps/identity/services.py:112-179 | resolving the same record again at once returns the same person if and only if it has an identifier |
| Identity.ResolveFills | apps/identity/services.py:306-322 | the returned person has every name and address the record offers, nobody else changes, and resolving the record again changes no person or role |
| Identity.ResolvedFields | apps/identity/services.py:156-179 | every field of the returned person: kept when filled, else the record's; of a new one the record's, its name the full one, first and last, or the address; a role only for a new one at a given organization |
| Identity.ResolvedBindings | apps/identity/services.py:117-179 | every identifier afterwards, with person, source and verification, the way of matching and the confidence |
| Identity.RunKeeps | apps/identity/services.py:112-179 | over every run of calls no binding moves and at most one person a call appears |
| Identity.StableIff | apps/identity/services.py:112-179 | a record with an identifier resolves to the same person after every run of later calls if and only if, before the call, none of its identifiers was known or its first one was |
| Identity.ResolutionIsStable | apps/identity/services.py:112-179 | a record resolved by creation or fuzzy match returns that person after any later calls |
| Identity.ExactMatchMoves | apps/identity/services.py:117-131 | concrete calls: a record resolved by exact match later resolves to somebody else |
| EmbeddingGateway.Gateway.LookUp | apps/agents/embedding_gateway.py:120-132 | cached vectors are placed, the rest is listed in order with its place |
| EmbeddingGateway.Gateway.FetchBatch | apps/agents/embedding_gateway.py:139-146 | one batch is sent, placed and cached |
| EmbeddingGateway.Gateway.FetchAll | apps/agents/embedding_gateway.py:138-147 | the batches go upstream in order until done or a call raises |
| EmbeddingGateway.Gateway.Fill | apps/agents/embedding_gateway.py:120-147 | both passes give every text its vector unless a call raises |
| EmbeddingGateway.Gateway.Embed | apps/agents/embedding_gateway.py:101-165 | `vectors[i]` is the embedding of `texts[i]` for all i, counts and cost are those of the misses, the upstream sees exactly the misses in batches, the cache stays consistent, whether or not a call raises |
| EmbeddingGateway.BatchesCover | apps/agents/embedding_gateway.py:138-140 | ceil(n/100) batches of 1 to 100 texts that flatten to the texts |
| EmbeddingGateway.MissesAppend | apps/agents/embedding_gateway.py:120-132 | misses are found text by text, in order |
| EmbeddingGateway.CostIs | apps/agents/embedding_gateway.py:32-154 | a million tokens cost 0.02 USD, any number of them that rate rounded to a micro-dollar |
| EmbeddingGateway.NoneMissing | apps/agents/embedding_gateway.py:124-130 | a second call over cached texts fetches nothing |
| ClickHouseSink.Sink.HandleEvent | apps/analytics/consumers/clickhouse_sink.py:32-54 | deduplicate, build the row, buffer, flush at 100; errors are swallowed |
| ClickHouseSink.Sink.FlushAgent | apps/analytics/consumers/clickhouse_sink.py:83-86 | rows are inserted in order; the buffer is cleared only when all succeed |
| ClickHouseSink.Sink.FlushSystem | apps/analytics/consumers/clickhouse_sink.py:88-91 | the same for the system rows |
| ClickHouseSink.Sink.FlushBoth | apps/analytics/consumers/clickhouse_sink.py:93-96 | both buffers are flushed, the second only when the first succeeded |
| ClickHouseSink.RowsAre | apps/analytics/consumers/clickhouse_sink.py:56-81 | which events become rows, and their tenant, run or id, status and payload |
| ClickHouseSink.HandleIs | apps/analytics/consumers/clickhouse_sink.py:32-54 | an accepted row waits until there are 100; the hundredth has all of them inserted, or keeps all waiting when an insert fails |
| ClickHouseSink.FlushIs | apps/analytics/consumers/clickhouse_sink.py:83-96 | a flush succeeds exactly when no insert fails and then empties both buffers; a failing agent row leaves the system rows alone |
| ClickHouseSink.SeenIsArrived | apps/analytics/consumers/clickhouse_sink.py:33-37 | the seen set is the set of non-empty ids that arrived |
| ClickHouseSink.InsertAllAdds | apps/analytics/consumers/clickhouse_sink.py:83-91 | inserting only adds rows of the buffer, all of them when none fails |
| ClickHouseSink.NothingLost | apps/analytics/consumers/clickhouse_sink.py:32-96 | whichever inserts fail, every accepted row is inserted or still buffered, and no other row is inserted |
| ClickHouseSink.RowsConserved | apps/analytics/consumers/clickhouse_sink.py:32-96 | inserted plus buffered rows exceed the accepted ones by exactly the rows that failing flushes inserted in vain |
| ClickHouseSink.RepeatsIff | apps/analytics/consumers/clickhouse_sink.py:83-91 | a flush inserts nothing in vain if and only if its buffer is empty, its first insert fails or none of its inserts fails |
| ClickHouseSink.ExactlyOnceIff | apps/analytics/consumers/clickhouse_sink.py:32-96 | table and buffer are the first occurrences in arrival order, each once, if and only if every flush of the run is of that kind |
| ClickHouseSink.RetriedFlushRepeats | apps/analytics/consumers/clickhouse_sink.py:88-96 | a concrete retried flush that inserts a row twice |
| ClickHouseSink.ExactlyOnce | apps/analytics/consumers/clickhouse_sink.py:32-96 | when none fails, table and buffer together are the first occurrences in arrival order, buffers below 100, and after a flush the table alone |
| Rounding.HalfEvenIsNearest | apps/agents/pricing.py:50 | the rounding is the nearest integer, ties to even, and nothing else is |
| Rounding.HalfEvenMonotone | apps/agents/pricing.py:50 | rounding is monotone |
| Pricing.AliasesArePriced | apps/agents/pricing.py:22-38 | every alias stands for a model with a price, and resolving twice changes nothing |
| Pricing.PricedModels | apps/agents/pricing.py:22-44 | which models have a price; any other costs nothing |
| Pricing.PricesRelate | apps/agents/pricing.py:22-50 | a million input tokens of haiku cost a dollar, sonnet three and opus fifteen times as much, an output token everywhere as much as five input tokens |
| Pricing.ExactAdds | apps/agents/pricing.py:46-50 | the unrounded cost is additive in the token counts |
| Pricing.CostMonotone | apps/agents/pricing.py:41-50 | the cost of a call is non-negative and monotone in both token counts |
| ToolLoop.Conversation.ReadReply | apps/agents/llm_gateway.py:308-326 | text and tool-use blocks are kept in order, others dropped |
| ToolLoop.ReplyReads | apps/agents/llm_gateway.py:308-326 | a reply is read part by part, in order |
| ToolLoop.BlockReads | apps/agents/llm_gateway.py:311-324 | text is kept and joined, a tool use kept with an empty input made `{}`, any other block dropped |
| ToolLoop.Conversation.RunTools | apps/agents/llm_gateway.py:332-344 | every tool use is invoked in order and answered by its id with what the tool returned |
| ToolLoop.Conversation.TakeReply | apps/agents/llm_gateway.py:301-327 | totals, stop reason and transcript after one reply |
| ToolLoop.Conversation.Iterate | apps/agents/llm_gateway.py:282-344 | one iteration, failing calls and tools included |
| ToolLoop.CompleteWithTools | apps/agents/llm_gateway.py:269-344 | the loop is at most `max_iterations` turns |
| ToolLoop.TranscriptWellFormed | apps/agents/llm_gateway.py:272-344 | roles alternate from the prompt, results answer the tool uses one to one by id, calls and totals are those of the transcript, the last role tells a stop from the cap |
| ToolLoop.CallsAreTrue | apps/agents/llm_gateway.py:332-344 | over every conversation that does not raise, the k-th call has the name and arguments of the k-th answered tool use, its result is what that tool returned for them as the k-th invocation, and that is what went back to the model |
| ToolLoop.TurnRaises | apps/agents/llm_gateway.py:292-335 | an iteration raises exactly when the API does, or a tool of a reply that asks for tools |
| ToolLoop.StopReason | apps/agents/llm_gateway.py:306-330 | the loop stops exactly when the last reply has another stop reason or no tool use; text and stop reason are those of that reply |
| ToolLoop.CostErrorBound | apps/agents/llm_gateway.py:301-305 | after k calls the summed cost is within k*0.00005 CZK of the unrounded cost of the summed tokens |

## Left out

- The HTTP, OAuth, MCP, Kafka, Neo4j, Langfuse and SDK clients, views, admin, migrations and settings: external behaviour or configuration.
- Identity.IdentityResolver.ResolvePerson: the order of the candidate query is open, so which 50 candidates a longer query yields is open too; `resolve_organization` has the same shape and is not repeated; sighting times are left out.
- Guardrails.MaskPii: the round trip is proved for a fresh map. A text longer than 10^8 characters in which some kind occurs more than 10^8 times is not covered, because a phone match would fit into its tokens.
- Chunker.ChunkText: tokens are counted by the character heuristic, not by tiktoken; sizes and overlaps are not negative.
- Indexer.Tables.UpsertDriveFile: a size that is not a number, which makes the code raise.
- Indexer.Tables.IngestDocument: timestamps and the digits of the embedding literal.
- DriveIngest.DriveConverges: queued tasks run in order; under arbitrary reordering of `ingest_drive_file` against removals the table does not converge. A change entry carries the file as of its change. The parents of a file are not among the columns compared, because change entries do not carry them.
- TokenBucket.Bucket.Acquire: negative token counts; workers do not race; times and levels are reals, so below a refill of 0.01 every sleep is taken to last at least one clock tick longer than asked, without which ever shorter sleeps need not end.
- Anomalies.GetRecentAnomalies: floating-point error and the snapshot query behind the series; the deviation is any function that is non-negative and squares to the variance.
- ConnectorSync.DealSync.Persist: foreign keys, status mapping and the other columns of a deal row are not modelled; the row keeps the raw deal and its cut title. A deal is one atomic listing; error samples are left out.
- EmbeddingGateway.Gateway.Embed: cache expiry and eviction during a call, retries of the upstream, and the latency.
- The sink's timed flush interval, which the code never uses.
- ToolLoop.CompleteWithTools: events, latency and logging; the precision of Decimal's 28-digit context.
- McpRateLimit.Gateway.EnforceRateLimit: two workers reading the same counter at once.
- Per-provider snapshot aggregates, feature flags, short-term memory, status mappers and simple pagination: they hold no state or arithmetic worth stating a property of.
