# kbol ingestion and decision core, modelled in Dafny

kbol turns PDF books into a searchable store of embedded text chunks:
- its indexer chunks every page's text into token windows;
- it embeds the chunks batch by batch through an Ollama service;
- it writes one JSON chunk file per book under `data/processed`.

The command line then searches, validates and summarises those files, and two scripts fetch GNU manuals and check the books directory's symlinks.

This project models the deterministic core of that pipeline, one Dafny module per source file:

| module | source |
|---|---|
| `Chunker` | `src/kbol/indexer/core/chunker.py`: the token-window loop with sentence snapping |
| `Embedder` | `src/kbol/indexer/core/embedder.py`: the positional mapping of replies to embeddings |
| `Processor` | `src/kbol/indexer/core/processor.py`: the per-book page, batch and pair loops, statistics, checkpoint and final file, and the per-directory loop |
| `LegacyIndexer` | `src/kbol/indexer.py`: the older indexer, as written |
| `Tracker` | `src/kbol/tracking/document_tracker.py`: the processing ledger as two maps |
| `Search` | `src/kbol/core/search.py`: load, score, filter by threshold, stable sort, truncate |
| `Completion` | `src/kbol/core/llm.py`: the streamed completion line classifier and the concatenation |
| `Cli` | `src/kbol/cli.py`: its own search, `stats`, `list_books`, `validate` and the `query` book filter and sort |
| `StatsCommand` | `src/kbol/cli/commands/stats.py`: the newer `stats` command |
| `VerifyPaths` | `scripts/verify_paths.py`: symlink checks, the status table, broken links and `--fix` |
| `FetchManuals` | `scripts/fetch_manuals.py`: PDF check, download, symlink, per-manual accounting and the exit code |

Three shared modules support them:
- `Common` holds Python's `str.strip`, `str.rindex`, slicing and substring test, and the `Option` and `Result` types.
- `Ordering` holds Python's string order, `sorted` of a set of strings, and a stable insertion sort used for `sorted(key=…)` and `list.sort`.
- `ChunkFile` holds the chunk files as the command line reads them, and the per-file rows and sums shared by both `stats` commands.

The outside world enters as values:
- The tokenizer is a pair of functions `encode` and `decode`.
- The embedding service is a function from text to the response `asyncio.gather` hands back.
- The similarity of a chunk is a function from chunk to score, or to the error scoring raised.
- A PDF is its stem plus its pages' extracted texts, or the error `PdfReader` raised.
- Directories are maps from name to contents.
- The HTTP client of `fetch_manuals.py` is a function from URL to body, or to the error raised.
- Where the code updates an object's fields (`BookIndexer`, `TextChunker`, `Embedder`, `DocumentTracker`, `ManualDownloader`), the model is a class whose methods are proved equal to a specification function of the old state; the properties are lemmas about those functions.

Where the code and the system's design description disagree, the model follows the code:
- **Overlap check.** The chunker never rejects `chunk_overlap >= chunk_size`.
- **Retries.** `max_retries` is stored but never used: there is no retry or backoff.
- **Malformed replies.** An embedding reply whose body is not JSON makes `response.json()` raise out of the whole batch; it does not yield `None`.
- **Ledger.** The pipeline never calls the ledger.
- **Extraction errors.** A page whose text extraction raises fails the whole document; it is not skipped.
- **Zero-norm vectors.** Zero-norm similarity is not guarded.

## Model

| member | source | states |
|---|---|---|
| Common.StripEmptyIffBlank | src/kbol/indexer/core/chunker.py:12-13 | `not s.strip()` holds exactly when every character of s is Python whitespace |
| Common.Strip | src/kbol/indexer/core/chunker.py:44 | the stripped text neither starts nor ends with whitespace and is no longer than the input |
| Common.StripIsPadded | src/kbol/indexer/core/chunker.py:44 | the stripped text is a contiguous piece of the input with only whitespace on either side |
| Common.LastIndexOf | src/kbol/indexer/core/chunker.py:35 | `rindex('.')`: the position of the last '.', with no '.' after it, and -1 exactly when there is none |
| Common.PySlice | src/kbol/indexer/core/chunker.py:29 | Python slicing: clamped bounds, equal to the Dafny slice for in-range bounds, empty when j <= i |
| Common.FilterCons | src/kbol/core/search.py:30-32 | a comprehension over [h] + s yields h, when kept, in front of the comprehension over s, at positions 0 and those of s moved on by one |
| Common.Contains | src/kbol/cli.py:203 | `needle in hay` holds exactly when the needle occurs at some offset of hay |
| Common.Lower | src/kbol/cli.py:203 | `lower()` keeps the length and lowers each character in place |
| Ordering.StrLtTotal | src/kbol/cli.py:263 | Python's `<` on distinct strings orders them one way or the other |
| Ordering.StrLtTransitive | src/kbol/cli.py:263 | Python's `<` on strings is transitive |
| Ordering.SortedElements | src/kbol/cli.py:263 | `sorted(set)`: strictly ascending, the same elements, each once |
| Ordering.SortedUnique | scripts/fetch_manuals.py:96 | a set of strings has exactly one strictly ascending listing |
| Ordering.SortIsPermutation | src/kbol/core/search.py:33 | the sort returns a permutation of its input |
| Ordering.SortIsSorted | src/kbol/core/search.py:33 | under a total preorder the sort's output is ordered |
| Ordering.SortIsStable | src/kbol/core/search.py:33 | equal-key elements keep their input order (Python's sort is stable) |
| Chunker.WindowEnd | src/kbol/indexer/core/chunker.py:23-39 | when overlap < size and 2·overlap <= size, the next window starts strictly after the current one |
| Chunker.WindowEndSnapsToLastDot | src/kbol/indexer/core/chunker.py:26-36 | the last window is never snapped; without a '.' the end is unchanged; a snapped end lies just after the last '.' of the overlap text |
| Chunker.StallWithoutOverlapBelowSize | src/kbol/indexer/core/chunker.py:18-39 | with chunk_overlap >= chunk_size, on a one-token text without any '.', the start after every pass is still <= 0 < len(tokens), so the loop never ends |
| Chunker.StallWhenSnappedEarly | src/kbol/indexer/core/chunker.py:18-39 | with overlap < size < 2·overlap, on a text of size + 1 tokens whose overlap text is always ".", the snap keeps the start after every pass <= 0, so the loop never ends |
| Chunker.SnapCanLengthenWindow | src/kbol/indexer/core/chunker.py:35-36 | the character-index snap can push a 4-token window's end to token 9 |
| Chunker.WindowsChain | src/kbol/indexer/core/chunker.py:21-39 | the windows start at 0, starts increase strictly, each start is below len(tokens), each end is the clamped window end, each next start is end - overlap, and the loop stops once a start reaches len(tokens) |
| Chunker.DecodeWindowsDropsEmpty | src/kbol/indexer/core/chunker.py:42-46 | the chunks are the windows' stripped decodes with the empty ones removed |
| Chunker.DecodeWindowsSelects | src/kbol/indexer/core/chunker.py:42-48 | each chunk is the stripped decode of a window, at strictly increasing window positions, and every window with a non-empty decode contributes |
| Chunker.DecodedChunksNonBlank | src/kbol/indexer/core/chunker.py:44-46 | every chunk is non-empty and starts and ends with a non-space |
| Chunker.TextChunker.constructor | src/kbol/indexer/core/chunker.py:5-8 | the sizes are stored unchecked |
| Chunker.TextChunker.ChunkText | src/kbol/indexer/core/chunker.py:10-48 | the result is the window-and-decode specification; whitespace-only text gives [] and every chunk is non-blank |
| Chunker.TextChunker.WindowBounds | src/kbol/indexer/core/chunker.py:18-39 | the loop's (start, end) list equals the window specification from 0 |
| Chunker.TextChunker.SnappedEnd | src/kbol/indexer/core/chunker.py:23-36 | one pass computes the (possibly snapped) window end |
| Embedder.Gather | src/kbol/indexer/core/embedder.py:13-22 | one response per text, the i-th for the i-th text |
| Embedder.EmbeddingsPositional | src/kbol/indexer/core/embedder.py:23-32 | on success there is one entry per response, and the i-th is None for a raised request, else the reply's "embedding" field or None |
| Embedder.EmbeddingsFailIff | src/kbol/indexer/core/embedder.py:29 | the batch raises exactly when some reply's body is not JSON, and the error is the first such reply's |
| Embedder.Embedder.constructor | src/kbol/indexer/core/embedder.py:6-8 | url and model are stored |
| Embedder.Embedder.GetEmbeddingsBatch | src/kbol/indexer/core/embedder.py:10-32 | equals the positional mapping of the gathered responses, with one entry per text |
| Processor.OutputIsNotTemp | src/kbol/indexer/core/processor.py:52-53 | the checkpoint file is never the output file |
| Processor.PairsExact | src/kbol/indexer/core/processor.py:74-88 | a batch's pairs append a record for each embedded chunk, add 1 chunk and its token count per record and 1 failure per None |
| Processor.BatchesExact | src/kbol/indexer/core/processor.py:70-88 | when no batch raises, a page's batches in order record exactly the kept chunks and count exactly the missed ones |
| Processor.BatchesFailIff | src/kbol/indexer/core/processor.py:70-72 | the batches raise exactly when some slice's batch raises |
| Processor.BatchesFrame | src/kbol/indexer/core/processor.py:70-88 | the batches never touch the files or the book count |
| Processor.PageStepExact | src/kbol/indexer/core/processor.py:62-95 | a page succeeds exactly when its chunks embed without raising; only the checkpoint may change among the files; its records are the page's expected records |
| Processor.PagesExact | src/kbol/indexer/core/processor.py:62-95 | the page loop succeeds exactly when every page does, and then holds the expected records in page order with matching statistics |
| Processor.ProcessPdfExact | src/kbol/indexer/core/processor.py:48-114 | on success: the expected records are returned and written as the final file, the checkpoint is removed, and processed_books goes up by 1; on failure: processed_books is unchanged, no file other than the checkpoint changed, and the checkpoint is gone when the PDF opened (nothing changes when it did not) |
| Processor.BlankPageSkipped | src/kbol/indexer/core/processor.py:64-65 | a blank page changes nothing: no chunk, no statistic, no checkpoint |
| Processor.CheckpointHoldsChunks | src/kbol/indexer/core/processor.py:92-95 | after a non-blank page whose number is a multiple of 10, the checkpoint holds exactly the chunks so far |
| Processor.CheckpointOnlyEveryTenth | src/kbol/indexer/core/processor.py:62-95 | a page that raises, or whose number is not a multiple of 10, leaves every file, the checkpoint included, as it was |
| Processor.ZeroBatchSizeFails | src/kbol/indexer/core/processor.py:70 | with batch_size 0 and a non-blank page, `range` raises and the book fails |
| Processor.ExpectedShape | src/kbol/indexer/core/processor.py:76-83 | every record carries the file stem as book, a page number in ascending order, non-blank content and the encode length as token_count |
| Processor.BooksSummary | src/kbol/indexer/core/processor.py:137-151 | the statistics panel, and its division, appear exactly when total_chunks > 0 |
| Processor.BooksExact | src/kbol/indexer/core/processor.py:123-135 | the result is the successful books' records concatenated in listing order, and processed_books grows by the number of successes |
| Processor.ResultIndependent | src/kbol/indexer/core/processor.py:48-114 | a book's outcome and records do not depend on the statistics or files before it |
| Processor.BookIndexer.constructor | src/kbol/indexer/core/processor.py:16-46 | a chunker and an embedder are built from the arguments, and the statistics start at zero |
| Processor.BookIndexer.ProcessPdf | src/kbol/indexer/core/processor.py:48-114 | result, statistics and files equal the per-book specification |
| Processor.BookIndexer.ProcessPage | src/kbol/indexer/core/processor.py:62-95 | one page's effect equals the page specification |
| Processor.BookIndexer.EmbedPage | src/kbol/indexer/core/processor.py:70-88 | one page's batches equal the batch specification |
| Processor.BookIndexer.RecordPairs | src/kbol/indexer/core/processor.py:74-88 | one batch's pairs equal the pair specification |
| Processor.BookIndexer.ProcessBooks | src/kbol/indexer/core/processor.py:116-153 | no PDF gives [] with nothing changed; otherwise the run equals the per-directory specification and the summary is the guarded panel |
| LegacyIndexer.NonBlankPageRaises | src/kbol/indexer.py:86 | any book with a non-blank page raises AttributeError, with statistics and files unchanged |
| LegacyIndexer.BooksKeepTotals | src/kbol/indexer.py:150-160 | no run ever records a chunk: the result is what came before, and only processed_books can change |
| LegacyIndexer.EveryRunRaises | src/kbol/indexer.py:163-173 | a run over at least one PDF starting from zero totals always ends in ZeroDivisionError |
| LegacyIndexer.BookIndexer.constructor | src/kbol/indexer.py:23-45 | the arguments are stored and the statistics start at zero |
| LegacyIndexer.BookIndexer.GetEmbeddingsBatch | src/kbol/indexer.py:47-69 | the same positional mapping as the package's embedder |
| LegacyIndexer.BookIndexer.ProcessPdf | src/kbol/indexer.py:71-132 | result, statistics and files equal the as-written per-book function |
| LegacyIndexer.BookIndexer.ProcessBooks | src/kbol/indexer.py:134-175 | result, statistics and files equal the as-written run, division included |
| Tracker.Decision | src/kbol/tracking/document_tracker.py:77-120 | force gives (True, None); an error message comes back only with True |
| Tracker.SkipIff | src/kbol/tracking/document_tracker.py:88-120 | a document is skipped exactly when force is off, its row matches all six fields, and its status is not "failed" |
| Tracker.MismatchProcesses | src/kbol/tracking/document_tracker.py:113-114 | no row, or a mismatch in any field, counts as never processed: (True, None) |
| Tracker.FailedRetries | src/kbol/tracking/document_tracker.py:116-118 | a matching failed row is retried with its stored error |
| Tracker.NewEntry | src/kbol/tracking/document_tracker.py:163-193 | the written row matches the hash and configuration, holds the given counts, status and error, and metadata defaults to {} |
| Tracker.RegisterVersion | src/kbol/tracking/document_tracker.py:151-158 | the version becomes present, existing versions keep their first snapshot, and only a new one gets this config |
| Tracker.RegisterVersionIdempotent | src/kbol/tracking/document_tracker.py:151-158 | registering the same version again changes nothing |
| Tracker.RecordThenDecide | src/kbol/tracking/document_tracker.py:122-199 | right after recording, the same file and configuration are skipped unless the status was "failed", which is retried with its error |
| Tracker.RecordKeepsOthers | src/kbol/tracking/document_tracker.py:168 | recording one path changes no decision about another |
| Tracker.ResetProcessesAll | src/kbol/tracking/document_tracker.py:201-212 | after a reset every document is processed again |
| Tracker.DocumentTracker.constructor | src/kbol/tracking/document_tracker.py:44-47 | the tables start as given |
| Tracker.DocumentTracker.ShouldProcess | src/kbol/tracking/document_tracker.py:64-120 | the answer is the decision on the file's hash |
| Tracker.DocumentTracker.RecordProcessing | src/kbol/tracking/document_tracker.py:122-199 | the version is registered and the path's row, and only it, is upserted |
| Tracker.DocumentTracker.ResetTracking | src/kbol/tracking/document_tracker.py:201-212 | documents become empty and versions are kept |
| Tracker.DocumentTracker.ClearAll | src/kbol/tracking/document_tracker.py:214-223 | both tables become empty |
| Search.LoadedIff | src/kbol/core/search.py:17-20 | loading succeeds exactly when every file parses; then it yields all chunks in file order; otherwise the first failing file's error |
| Search.ScoredPositional | src/kbol/core/search.py:26-27 | scoring succeeds exactly when every chunk scores, and then the i-th hit is the i-th chunk with its similarity |
| Search.AboveExact | src/kbol/core/search.py:30-32 | the filter keeps every hit strictly above the threshold, as often as it occurs, and no other |
| Search.AboveIsFilter | src/kbol/core/search.py:30-32 | the comprehension's result is the hits at exactly the positions above the threshold, in increasing position order, so it keeps their order and multiplicity |
| Search.AboveKeepsTies | src/kbol/core/search.py:30-32 | for a similarity above the threshold, the filter keeps all hits of that similarity, in their order |
| Search.DescendingIsPreorder | src/kbol/core/search.py:33 | "similarity >=" is a total preorder, so the stable sort applies |
| Search.Search | src/kbol/core/search.py:22-37 | every error carries the "Error searching chunks: " prefix |
| Search.RankedPrefix | src/kbol/core/search.py:33-35 | the results are a prefix of the whole sorted list, of length min(top_k, n) for top_k >= 0 |
| Search.RankedDescending | src/kbol/core/search.py:33 | the results are in non-increasing similarity |
| Search.RankedLength | src/kbol/core/search.py:33-35 | for top_k >= 0 there are min(top_k, n) results, drawn from the hits |
| Search.RankedKeepsBest | src/kbol/core/search.py:30-35 | no hit left out is more similar than any result |
| Search.RankedStable | src/kbol/core/search.py:33-35 | results of equal similarity are a prefix of the sort input's hits of that similarity, in that order |
| Search.SearchStable | src/kbol/core/search.py:17-35 | in a successful search, the results of any similarity above the threshold are the first loaded and scored chunks of that similarity, in load order |
| Search.SearchResults | src/kbol/core/search.py:22-37 | on success every result is a loaded chunk strictly above the threshold, in non-increasing similarity |
| Search.LoadAll | src/kbol/core/search.py:17-20 | the loading loop equals the loading specification |
| Search.ScoreAll | src/kbol/core/search.py:26-27 | the scoring loop equals the scoring specification |
| Search.SearchChunks | src/kbol/core/search.py:7-37 | the whole search equals its specification |
| Completion.StreamCompletion | src/kbol/core/llm.py:13-46 | every error carries the "Error streaming completion: " prefix, and a non-2xx status yields no fragment |
| Completion.FirstAbort | src/kbol/core/llm.py:33-43 | the position of the first line that aborts: none before it aborts, and the one there does |
| Completion.WalkUntilAbort | src/kbol/core/llm.py:33-43 | the fragments are those of the lines before the first abort, in order, and the error is that line's |
| Completion.SkippedLineIrrelevant | src/kbol/core/llm.py:34-37 | a blank, non-JSON or keyless line may be inserted anywhere without changing the stream |
| Completion.Completion | src/kbol/core/llm.py:49-71 | every error carries both prefixes, "Error getting completion: " then "Error streaming completion: " |
| Completion.CompletionIff | src/kbol/core/llm.py:32-71 | the completion succeeds exactly when the status is 2xx and no line aborts, and then it is the fragments joined in order |
| Completion.ErrorLineFails | src/kbol/core/llm.py:38-39 | an "error" line reached first fails the completion with "Ollama error: " and the message under both prefixes, even when it also has "response" |
| Completion.ConcatAppend | src/kbol/core/llm.py:65-69 | joining fragments distributes over concatenation |
| Completion.GetCompletion | src/kbol/core/llm.py:49-71 | the streaming loop equals the completion specification |
| Cli.CliSearchResults | src/kbol/cli.py:55-71 | for top_k >= 0, min(top_k, n) chunks come back in non-increasing similarity, with no threshold |
| Cli.SearchChunks | src/kbol/cli.py:55-71 | the loop equals the command line's search specification |
| Cli.StatsRow | src/kbol/cli.py:137-149 | a file gets a row exactly when it parses and every chunk has a token count; the row's average is the floor of tokens per chunk, or 0 for an empty file |
| Cli.StatsRowsCount | src/kbol/cli.py:140 | every row's chunk count is non-negative |
| Cli.StatsTotal | src/kbol/cli.py:148-161 | the TOTAL row appears exactly when some row has a chunk, and then it holds the sums over the rows |
| Cli.UnreadableFileIgnored | src/kbol/cli.py:150-151 | a file that fails to read changes neither the rows nor the totals |
| Cli.Stats | src/kbol/cli.py:111-163 | the loop equals the statistics specification |
| Cli.ListBooks | src/kbol/cli.py:247-266 | strictly ascending, and exactly the books found in readable files |
| Cli.ChunkIssuesIff | src/kbol/cli.py:280-294 | a chunk passes exactly when it has all four keys, an embedding of length 384 and non-blank content |
| Cli.MissingFieldsExact | src/kbol/cli.py:282-284 | a missing-field issue is reported exactly for the fields checked and absent |
| Cli.MissingReported | src/kbol/cli.py:280-284 | a missing key is reported exactly for the chunks that lack it, under their 1-based number |
| Cli.MissingInChunk | src/kbol/cli.py:282-284 | in one chunk, each absent key among the four is reported |
| Cli.Messages | src/kbol/cli.py:284-297 | one message per issue, in order |
| Cli.CheckChunks | src/kbol/cli.py:280-294 | the loop over one file's chunks equals the issue specification |
| Cli.Validate | src/kbol/cli.py:269-304 | the report is every file's issues rendered in the order found |
| Cli.ByBookExact | src/kbol/cli.py:202-204 | the filter fails exactly when some hit lacks "book"; otherwise it keeps exactly the hits whose lowered book contains the lowered filter, each as often as it was found |
| Cli.ByBookIsFilter | src/kbol/cli.py:201-209 | when it succeeds, the comprehension's result is the hits at exactly the matching positions, in increasing position order |
| Cli.ByBookKeepsTies | src/kbol/cli.py:201-209 | for a matching hit, the filter keeps every hit of the same (book, page), in search order |
| Cli.ByBookAndPageIsPreorder | src/kbol/cli.py:212 | the (book, page-or-0) key order is a total preorder |
| Cli.SelectResult | src/kbol/cli.py:195-212 | the selected chunks are sorted by (book, page); each searched hit that is wanted appears as often as it was found, and no other does; the selected hits of a wanted (book, page) are all the searched hits of that book and page, in search order |
| StatsCommand.CommandRow | src/kbol/cli/commands/stats.py:48-62 | a file gets a row exactly when it parses, is not an empty array, and every chunk has a token count; the average is the floor of tokens per chunk |
| StatsCommand.RowsOccupied | src/kbol/cli/commands/stats.py:50-51 | every row has at least one chunk |
| StatsCommand.TableIff | src/kbol/cli/commands/stats.py:64-80 | the table is printed exactly when some row exists, and its TOTAL holds the sums |
| StatsCommand.SkippedFileIgnored | src/kbol/cli/commands/stats.py:50-67 | an unreadable or empty file changes nothing |
| StatsCommand.Stats | src/kbol/cli/commands/stats.py:15-80 | the loop equals the command's specification, including the no-file case |
| ChunkFile.BookPrefix | src/kbol/cli.py:257 | the books collected from a file are its chunks' books up to the first chunk without one |
| ChunkFile.BookSet | src/kbol/cli.py:251-259 | a book is collected exactly when a readable file reaches it |
| ChunkFile.TokenTotal | src/kbol/cli.py:141 | the token sum exists exactly when every chunk has a token count |
| ChunkFile.ChunkSumPositive | src/kbol/cli.py:153 | the chunk total is positive exactly when some row has a chunk |
| ChunkFile.RowlessFileIgnored | src/kbol/cli.py:150-151 | a file without a row does not change the rows |
| VerifyPaths.VerifySymlinkIff | scripts/verify_paths.py:14-29 | a link is good exactly when it is a symlink, resolves, exists and is readable |
| VerifyPaths.Lines | scripts/verify_paths.py:82-106 | one row per book, in order |
| VerifyPaths.BrokenExact | scripts/verify_paths.py:91-97 | the broken list is exactly the referenced books without a good link, ascending |
| VerifyPaths.RemovableExact | scripts/verify_paths.py:121-125 | with --fix exactly the broken books that are symlinks are unlinked |
| VerifyPaths.ValidRows | scripts/verify_paths.py:113 | the rows marked valid are exactly the good links |
| VerifyPaths.CollectReferenced | scripts/verify_paths.py:60-68 | the loop collects "<book>.pdf" for every book of a readable file |
| VerifyPaths.Tabulate | scripts/verify_paths.py:82-106 | the loop builds the rows and the broken list of the specification |
| VerifyPaths.RemoveBroken | scripts/verify_paths.py:117-125 | the loop unlinks exactly the removable books |
| VerifyPaths.Verify | scripts/verify_paths.py:47-131 | the report is the one the report predicate describes |
| VerifyPaths.ReportFacts | scripts/verify_paths.py:79-125 | the books are exactly the links and referenced names; the valid count is the number of good links; broken is ascending and exact; removed is exact |
| FetchManuals.ManualItemsSorted | scripts/fetch_manuals.py:14-23 | the written-out pairs are the manual table, once each, in ascending name order |
| FetchManuals.SortedManuals | scripts/fetch_manuals.py:96 | `sorted(MANUALS.items())` visits the manuals in that order |
| FetchManuals.IsValidPdf | scripts/fetch_manuals.py:40-48 | valid exactly when the file can be read and its first four bytes are `%PDF`; a missing or unreadable file is not |
| FetchManuals.Download | scripts/fetch_manuals.py:50-78 | it reports success exactly when a valid PDF is left at the target, which then holds the body; on failure the target is deleted; no other file changes |
| FetchManuals.DownloadIff | scripts/fetch_manuals.py:62-73 | a download succeeds exactly when the request succeeds and the body starts with the PDF magic |
| FetchManuals.Link | scripts/fetch_manuals.py:80-90 | on success the link points to the manual whatever was there before; on failure nothing changes |
| FetchManuals.HandleCounts | scripts/fetch_manuals.py:97-119 | each manual adds exactly one success or one failure, and one skip exactly when a valid PDF was already there |
| FetchManuals.HandleSuccess | scripts/fetch_manuals.py:100-117 | a success leaves a valid PDF and a link to it |
| FetchManuals.HandleLocal | scripts/fetch_manuals.py:97-119 | a manual's turn changes only its own entries |
| FetchManuals.HandleReplacesInvalid | scripts/fetch_manuals.py:109-111 | an invalid existing file is deleted first, so the outcome is as if it were absent |
| FetchManuals.RunCounts | scripts/fetch_manuals.py:92-121 | over the loop, success + failed grows by the number of manuals, and skipped by at most that |
| FetchManuals.RunLocal | scripts/fetch_manuals.py:92-121 | names not in the list are untouched |
| FetchManuals.RunAllLinked | scripts/fetch_manuals.py:92-121 | a loop with no failure leaves every manual a valid PDF with its link |
| FetchManuals.RunSkipsAbsent | scripts/fetch_manuals.py:100-102 | when no manual is present beforehand, nothing is skipped |
| FetchManuals.ManualDownloader.constructor | scripts/fetch_manuals.py:28-38 | directories, timeout and client are stored |
| FetchManuals.ManualDownloader.CheckPdf | scripts/fetch_manuals.py:40-48 | the check equals IsValidPdf on the manuals directory |
| FetchManuals.ManualDownloader.DownloadManual | scripts/fetch_manuals.py:50-78 | the method equals the download specification and leaves the links alone |
| FetchManuals.ManualDownloader.CreateSymlink | scripts/fetch_manuals.py:80-90 | the method equals the link specification and leaves the manuals alone |
| FetchManuals.ManualDownloader.ProcessManuals | scripts/fetch_manuals.py:92-121 | directories and (success, skipped, failed) equal the loop specification over the sorted manuals |
| FetchManuals.ManualDownloader.ProcessItems | scripts/fetch_manuals.py:96-119 | the loop over the pairs equals the loop specification |
| FetchManuals.ManualDownloader.ProcessStep | scripts/fetch_manuals.py:97-119 | one manual's turn equals Handle |
| FetchManuals.Forced | scripts/fetch_manuals.py:140-143 | --force removes exactly the names matching *.pdf and keeps the rest |
| FetchManuals.FetchCommand | scripts/fetch_manuals.py:131-160 | the final directories are those of the specification, and the exit code is 0 when nothing failed and 1 otherwise |
| FetchManuals.FetchCounts | scripts/fetch_manuals.py:92-121 | success + failed is the number of manuals (5), and skipped is at most 5 |
| FetchManuals.ExitCodeIff | scripts/fetch_manuals.py:154-160 | the exit code is 0 exactly when all five manuals succeeded |
| FetchManuals.ExitZeroLinksAll | scripts/fetch_manuals.py:154-157 | after exit code 0 every manual is a valid PDF with its link in the books directory |
| FetchManuals.ForceSkipsNothing | scripts/fetch_manuals.py:140-146 | with --force no manual counts as skipped |

## Left out

- **I/O and display.** Progress bars, console output, panels and tables are left out; only the values they show are modelled.
  - `process_pdf`'s progress task removal (the `finally` clauses) has no state in the model.
- **Foreign code.**
  - The text extraction of `pypdf` is an input.
  - A page whose extraction raises is not modelled separately from a PDF that fails to open.
  - tiktoken is a pair of functions.
  - SHA-256 file hashing is a function `fileHash` of the file's bytes.
  - `inspect.getsource` fingerprinting is the opaque `processorVersion` string.
- **Services.**
  - The Ollama endpoints, the query embedding and `cosine_similarity` are functions supplied as parameters; similarity is an opaque score.
  - A NaN score, and the zero-norm division, are not modelled.
  - Search.Search: the query embedding (search.py:13) is computed before the `try`, and the model folds it into the scoring function. This changes two outcomes:
    - when the query embedding fails, the source raises that error unwrapped, while the model's error carries the "Error searching chunks: " prefix;
    - with an empty store, the source still raises from the embedding call, while the model returns no results.
  - Embedder.Gather: the embedding service is a function of the text alone, so requests with the same text always get the same answer during a run.
    - In the source each text is a separate HTTP request, and two requests with the same text can fail, or succeed, independently; the model does not capture this.
    - Processor.Setup.service and the legacy indexer share this limitation.
- **Database and concurrency.**
  - Postgres is an in-memory pair of maps.
  - `run_in_executor` and `asyncio.gather` are sequential; gather's order-preservation is what is modelled.
- **Time.** The `processed_at` timestamps are left out.
- **Floating point.**
  - The indexer's `:.0f` average is not computed; the model states only when the panel, and so the division, happens.
  - Embedding vectors are sequences of reals that are only passed along.
  - The length check of `validate` is on the sequence length.
- **JSON.**
  - Chunk files are lists of records with optional fields: a file that fails to open or parse is one error.
  - JSON that is not a list of objects, and keys holding values of the wrong type, are not modelled.
  - The one exception is a missing `book`, `page` or `token_count` key.
  - So `validate`'s partial issue list before a `.strip()` on non-string content raises is not modelled.
  - Completion.Classify: a streamed line is either not JSON or an object. Three cases of llm.py are not modelled:
    - a JSON string, where `"error" in data` is a substring test;
    - a JSON number, where that test raises TypeError;
    - a "response" value that is not a string, where the join in `get_completion` raises.
  - Completion.StreamCompletion: a read error in the middle of the body, after some fragments were yielded, is not modelled; only the request failing outright, or a non-2xx status, is.
- **Strings.**
  - `lower()` is on ASCII letters only.
  - Python's whitespace set is written out as the characters `str.isspace` accepts.
- Chunker.TextChunker.ChunkText: requires chunk_overlap < chunk_size and 2·chunk_overlap <= chunk_size, under which the loop always ends.
  - For other sizes the source may loop forever; StallWithoutOverlapBelowSize and StallWhenSnappedEarly show inputs where it does.
  - Inputs outside the bound on which the source happens to stop are not modelled.
- Processor.BookIndexer.ProcessBooks: the directory listing is the given PDF sequence.
  - The order of `glob` is whatever that sequence says.
  - The temp path uses `with_suffix`, so a stem that itself contains a '.' is modelled by its string only.
- FetchManuals.ManualDownloader.CreateSymlink: a failure raised part-way (after the unlink and before `symlink_to`) is modelled as changing nothing.
  - `mkdir` of the books directory is not modelled.
  - The link target is `manuals_dir + "/" + name`, standing for `resolve()` of an absolute directory.
- FetchManuals.ManualDownloader.DownloadManual: `write_bytes` is assumed to succeed.
  - Redirects, the timeout and the user agent are properties of the fetch function.
- FetchManuals.FetchCommand:
  - `mkdir` of both directories is left out.
  - `--force` removal is its net effect on the directory rather than the unlink loop.
  - An unlink that raises is not modelled (for example on a directory whose name ends in `.pdf`).
- VerifyPaths.Verify: `resolve()`, `exists()` and `os.access` are the fields of each entry; the verbose output is not modelled.
- VerifyPaths.RemoveBroken: an `unlink()` under `--fix` that raises (verify_paths.py:121-125) is not modelled; every unlink of a broken symlink is taken to succeed.
- The ledger is not called by either indexer, and `max_retries` is unused, so neither is modelled beyond the stored value.
- `topics.py` (TF-IDF and k-means), `health.py`, `http.py` and the command wiring in `app.py` and `process.py` are not part of this model.

## Findings

| source | as written | input that shows it | evidently intended | confidence | as-written member | corrected member |
|---|---|---|---|---|---|---|
| src/kbol/indexer.py:86 | `process_pdf` calls `self.chunk_text`, which `BookIndexer` never defines | any PDF with one non-blank page: AttributeError, the book fails | chunk the page with a `TextChunker`, as the package's processor does | high (not executed) | LegacyIndexer.NonBlankPageRaises | Processor.ProcessPdfExact |
| src/kbol/indexer.py:163-173 | the statistics panel divides `total_tokens / total_chunks` unguarded | any non-empty PDF list, since no chunk is ever recorded (for example one blank-page PDF): ZeroDivisionError out of `process_books` | show the panel only when `total_chunks > 0`, as processor.py:138 does | high (not executed) | LegacyIndexer.EveryRunRaises | Processor.BooksSummary |
