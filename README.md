# QuickQuips ingestion pipeline, modelled in Dafny

QuickQuips collects news articles per theme from RSS/Atom feeds and
annotates each with a machine-written summary. It appends the results to a
JSON-lines article store. Two maintenance scripts read that store: one
copies it without the records whose summary is an error marker, and one
counts the records per theme.

This project models the record-shaping and list-processing core of that
pipeline:

- `Text` (`text.dfy`): the Python string operations the pipeline relies on.
  These are `strip`, ASCII `lower`, `in`, slicing with negative bounds,
  `split` on one character and `rfind`.
- `Values` (`values.dfy`): Python's dynamically typed values (`None`,
  strings, parsed time tuples, anything else by truthiness and `str()`),
  records as maps, `dict.get`, `or`, and `(v or "").strip()`.
- `Fetch` (`fetch.dfy`): `src/ingest/fetch.py`. It covers:
  - the download acceptance rule;
  - the full-text threshold;
  - the date priority;
  - per-entry gating, text selection and record construction;
  - the two nested collection loops, with per-feed failure isolation.
- `HfAdapter` (`hf_adapter.dfy`): `src/llm/hf_adapter.py`. It covers:
  - the sentence-boundary chunker, both as written and corrected;
  - the retry loop over an abstract endpoint, with its doubling backoff;
  - the bounded map-reduce of `summarize_long_text`.
- `Summarizer` (`summarizer.dfy`): `summarize_item`, with the provider as
  a function that may raise.
- `Runner` (`runner.dfy`): `main.py`. It covers:
  - first-seen-wins de-duplication;
  - the configuration fallback;
  - `run_theme` over an article store object;
  - theme selection from `THEMES`;
  - the pipeline loop that sums the per-theme counts.
- `CleanArticles` (`clean_articles.dfy`) and `CheckCounts`
  (`check_counts.dfy`): the two scripts, over the lines of the store with
  JSON parsing as an oracle.

The code's loops are methods (`Walk`, `SummarizeOnce`, `DedupeItems`,
`CollectEntries`, `CollectFromFeeds`, `SummarizeAll`, `RunTheme`,
`RunPipeline`, `Clean`, `CountThemes`). Each is proved against a
specification function, and the promised properties are proved as lemmas
about those functions. The network, the feed parser, the text extractor,
JSON parsing, ISO date formatting and the remote summariser are
function-typed parameters.

## Model

| member | source | states |
|---|---|---|
| Text.Strip | src/ingest/fetch.py:69-70 | `str.strip()` never lengthens a string |
| Text.StripBlank | clean_articles.py:7 | the strip of a line is empty exactly when every character is whitespace, so `not line.strip()` means "blank" |
| Text.StripEnds | main.py:39-40 | a non-empty strip begins and ends with a non-whitespace character |
| Text.StripStripped | main.py:100 | a string without leading or trailing whitespace is its own strip |
| Text.StripIdempotent | src/ingest/fetch.py:32-33 | stripping twice is stripping once |
| Text.Lower | clean_articles.py:9 | lower-casing keeps the length, maps each character, and leaves no upper-case ASCII letter |
| Text.Contains | clean_articles.py:10 | `sub in s` holds exactly when `sub` occurs at some index of `s` |
| Text.Prefix | src/ingest/fetch.py:68 | `s[:n]` is a prefix of length `min(n, len)` for `n >= 0`, and drops the last `-n` elements for `n < 0` |
| Text.Split | main.py:100 | `split(",")` gives at least one piece, no piece holds a comma, and joining the pieces with commas gives the input back |
| Text.RFind | src/llm/hf_adapter.py:19 | `rfind` gives -1 or an index in `[lo, hi)` holding the character, and no later index in the range holds it |
| Values.Or | src/ingest/fetch.py:80 | `a or b` is `a` when `a` is truthy and `b` otherwise, so the summary is preferred to the description; the result is truthy exactly when `a` or `b` is |
| Values.StrippedOr | src/ingest/fetch.py:69-70 | `(v or "").strip()` succeeds exactly for a falsy value or a string, gives "" for a falsy one and the strip of a string, and otherwise raises the missing-`strip` error |
| Values.Keep | clean_articles.py:10-12 | filtering never lengthens a list |
| Values.KeepFacts | clean_articles.py:10-12 | filtering selects, in order, exactly the elements that are not dropped, each as many times as the input holds it, and no dropped one |
| Values.SubsequenceMembers | main.py:45 | every element of an in-order selection is an element of the whole |
| Values.NonBlankCount | clean_articles.py:7 | there are no more non-blank lines than lines |
| Fetch.Download | src/ingest/fetch.py:17-24 | the body is returned exactly when the GET did not raise, the status is 200 and the body is non-empty; otherwise `None` |
| Fetch.ExtractText | src/ingest/fetch.py:26-34 | the result is "" or longer than 300 characters, and it can raise only from the extractor, on a downloaded page |
| Fetch.KeepLong | src/ingest/fetch.py:32-33 | the kept text is the strip of the extracted text, and it is kept exactly when that strip is longer than 300 characters |
| Fetch.ExtractTextCases | src/ingest/fetch.py:26-34 | no extractor or no page gives "", an extractor exception propagates, no extracted text gives "", and extracted text gives its kept form |
| Fetch.CoerceDate | src/ingest/fetch.py:36-53 | the date is `published_parsed`, then `updated_parsed` (each converted, a failed conversion falling through), then raw `published`, then raw `updated`; it is `None` exactly when all four yield nothing |
| Fetch.ArticleRecordIsArticle | src/ingest/fetch.py:88-94 | a record built from a non-empty title, link and text has exactly the five fields, with the theme, a non-empty title of at most 240 characters, a non-empty url and text |
| Fetch.ArticleRecordFields | src/ingest/fetch.py:88-94 | each field of the record is the corresponding argument, with the title cut to 240 characters |
| Fetch.ArticleRecord | src/ingest/fetch.py:88-94 | the five-field article record (stated by `ArticleRecordIsArticle`, `ArticleRecordFields`) |
| Fetch.ProcessEntry | src/ingest/fetch.py:69-94 | every record an entry yields is a well-formed article of the theme |
| Fetch.EntryGating | src/ingest/fetch.py:69-72 | an emitted entry has a non-empty stripped title and link, and an entry with an empty stripped title or link is skipped |
| Fetch.EntryFields | src/ingest/fetch.py:88-94 | the emitted record has the theme, the stripped link as `url`, the first 240 characters of the stripped title, and the coerced date |
| Fetch.EntryExtractorRaises | src/ingest/fetch.py:77 | an exception in the extractor ends the entry with an exception |
| Fetch.EntryFullText | src/ingest/fetch.py:77-86 | non-empty extracted full text becomes the record's `cleaned_text` |
| Fetch.EntryFallback | src/ingest/fetch.py:78-84 | without full text, the stripped summary-or-description is used when at least 120 characters long, the entry is skipped when shorter, and one that cannot be stripped raises |
| Fetch.Fallback | src/ingest/fetch.py:80 | `(entry.get("summary") or entry.get("description") or "").strip()` (stated by `EntryFallback` and `Values.Or`) |
| Fetch.FeedRun | src/ingest/fetch.py:68-98 | a feed never yields more records than it has entries |
| Fetch.FeedRunArticles | src/ingest/fetch.py:68-94 | every record a feed yields is a well-formed article of the theme |
| Fetch.FeedRunStops | src/ingest/fetch.py:96-98 | once an entry has raised, the later entries of the feed add nothing |
| Fetch.FeedStopsAtRaise | src/ingest/fetch.py:96-98 | a feed whose entry `k` raises keeps exactly what its earlier entries gave |
| Fetch.ParseFeed | src/ingest/fetch.py:61-66 | the parsed feed, re-parsed from a manual download when the first parse is bozo and the download succeeds (stated through `CollectFromFeeds`) |
| Fetch.FeedItems | src/ingest/fetch.py:58-98 | the records one feed contributes: none when parsing raises, else the run over its first 30 entries (stated by `CollectedBound`, `CollectedAreArticles`) |
| Fetch.CollectEntries | src/ingest/fetch.py:68-94 | the entry loop appends the records the feed's entries yield, in order, and stops at the first entry that raises |
| Fetch.CollectFromFeeds | src/ingest/fetch.py:55-99 | the collected records are each feed's records, in feed order, after the bozo retry through a manual download |
| Fetch.Collected | src/ingest/fetch.py:55-99 | `collect_from_feeds` as a function: each feed's records, in feed order (stated by `CollectedAreArticles`, `CollectedBound`, `CollectedAppend`) |
| Fetch.CollectedAreArticles | src/ingest/fetch.py:55-99 | every collected record is a well-formed article of the theme |
| Fetch.CollectedBound | src/ingest/fetch.py:68 | at most 30 records are collected per feed |
| Fetch.CollectedAppend | src/ingest/fetch.py:57-98 | feeds are independent: collecting two lists of feeds one after the other gives the records of collecting them together |
| Fetch.ConcatMapAppend | src/ingest/fetch.py:57 | the concatenated per-feed records of `a + b` are those of `a` followed by those of `b` |
| HfAdapter.CutOf | src/llm/hf_adapter.py:17-20 | the cut lies between the window start and `min(start + max_chars, len)`, and below that end it is at a period |
| HfAdapter.CutOfLastPeriod | src/llm/hf_adapter.py:19-20 | the cut is at the window's last period, or at the window end when the window has no period |
| HfAdapter.Chunks | src/llm/hf_adapter.py:11-23 | `_chunk` as a function: the stripped text alone when it fits, else the stripped windows (stated by `ChunkLengths`, `ChunksFromPieces`, `PiecesRebuild`) |
| HfAdapter.PiecesValid | src/llm/hf_adapter.py:17-21 | every window lies inside the text |
| HfAdapter.PiecesCuts | src/llm/hf_adapter.py:16-22 | every window starts inside the text, no earlier than the walk's start, and is cut where the window rule says |
| HfAdapter.PiecesTile | src/llm/hf_adapter.py:16-22 | the windows start at the walk's start, each next window starts just after the previous cut, and the last cut reaches the end |
| HfAdapter.Chunk | src/llm/hf_adapter.py:11-23 | `_chunk` returns the chunks of the chunking function, and exactly `[text.strip()]` when the stripped text fits in `max_chars` |
| HfAdapter.Walk | src/llm/hf_adapter.py:15-22 | the loop returns the chunks of the window walk from index 0 |
| HfAdapter.WalkFromChunks | src/llm/hf_adapter.py:15-22 | the loop's accumulated state, run to the end, is what it has produced followed by the chunks still to come |
| HfAdapter.ChunksFromPieces | src/llm/hf_adapter.py:19-22 | there is one chunk per window, in positional order, and each chunk is its window's text, stripped |
| HfAdapter.ChunksFromLengths | src/llm/hf_adapter.py:17-21 | no chunk of the walk is longer than `max_chars` |
| HfAdapter.ChunkLengths | src/llm/hf_adapter.py:11-23 | no chunk `_chunk` returns is longer than `max_chars` |
| HfAdapter.SkippedCharacters | src/llm/hf_adapter.py:19-22 | the character at each cut is a period, or, when the window has no period, the character just past a full window |
| HfAdapter.PiecesRebuild | src/llm/hf_adapter.py:16-22 | the windows interleaved with the characters at their cuts give back the text, so those characters are the only ones in no chunk |
| HfAdapter.RebuiltStep | src/llm/hf_adapter.py:21-22 | one window and the character at its cut, followed by the rebuilt rest, give back the text from the window's start |
| HfAdapter.ChunkLosesCharacter | src/llm/hf_adapter.py:20-22 | as written, "aaa" in windows of 2 gives only "aa": the third character is lost |
| HfAdapter.ChunksFixedFromPieces | src/llm/hf_adapter.py:19-22 | the corrected chunks are the corrected windows, stripped, one per window and in order |
| HfAdapter.ChunksFixedFromLengths | src/llm/hf_adapter.py:17-21 | no corrected chunk is longer than `max_chars` |
| HfAdapter.PiecesFixedValid | src/llm/hf_adapter.py:17-21 | every corrected window lies inside the text |
| HfAdapter.PiecesFixedCuts | src/llm/hf_adapter.py:16-22 | every corrected window starts inside the text and is cut where the window rule says |
| HfAdapter.ChunkFixedLengths | src/llm/hf_adapter.py:11-23 | no chunk of the corrected chunker is longer than `max_chars` |
| HfAdapter.PiecesFixedRebuild | src/llm/hf_adapter.py:16-22 | with the corrected step, the windows and the periods they were cut at give back the whole text: only those periods are in no chunk |
| HfAdapter.FixedStepCovers | src/llm/hf_adapter.py:20-22 | a corrected step covers its window, then the period it was cut at, if any, and then the rest |
| HfAdapter.ChunkFixedKeepsCharacter | src/llm/hf_adapter.py:20-22 | the corrected chunker gives "aa" and "a" for "aaa" in windows of 2 |
| HfAdapter.Answer | src/llm/hf_adapter.py:36-45 | a raised request or an error status (400-599) raises; otherwise an undecodable body raises, a list whose first element cannot be searched by "summary_text" raises, a summary list gives its `summary_text` stripped when that is a string and raises otherwise, a JSON string gives itself stripped, and any other shape gives its `str()`; it succeeds only for a reply without an error status |
| HfAdapter.Transient | src/llm/hf_adapter.py:34 | a 503 or 524 status, retried after a wait (stated by `OnceAllBusy`, `SummarizeOnce`) |
| HfAdapter.OnceOutcome | src/llm/hf_adapter.py:25-46 | `_hf_summarize_once` as a function of the endpoint's replies: the answer to the first non-transient reply among the first `retries`, else the busy message (stated by `OnceFirstAnswer` and `OnceAllBusy`) |
| HfAdapter.OnceFirstAnswer | src/llm/hf_adapter.py:31-45 | the outcome is the answer to the first non-transient reply among the first `retries` attempts |
| HfAdapter.OnceAllBusy | src/llm/hf_adapter.py:31-35 | when every attempt gets 503 or 524, the outcome is the busy message |
| HfAdapter.SummarizeOnce | src/llm/hf_adapter.py:25-46 | there are at most `retries` requests; a sleep of 2, 4, 8, ... seconds follows each transient reply; when no request got another reply, all `retries` requests were made and the result is the busy message; otherwise the result is the answer to the first non-transient reply |
| HfAdapter.Partials | src/llm/hf_adapter.py:51 | the partial summaries are made in chunk order with 120 tokens; all but the last succeed, and the list stops early only at one that raised |
| HfAdapter.Outputs | src/llm/hf_adapter.py:52 | there is one output text per partial outcome |
| HfAdapter.SummarizeLongText | src/llm/hf_adapter.py:48-54 | over the chunks of `_chunk` as written: at most 7 calls are made; every call but the last summarises the next of the first 6 chunks with 120 tokens; a partial that raises ends the run with that exception; otherwise every one of those chunks is summarised and a last call summarises the newline-joined partials with 140 tokens, its outcome being the result |
| HfAdapter.SummarizeLongTextPartials | src/llm/hf_adapter.py:50-51 | every partial summary made, including one that raises and ends the run, is a call on the next of the first 6 chunks with 120 tokens |
| Runner.KeySetMembers | main.py:36-44 | a key is in the seen set exactly when some record has it |
| Runner.KeyOf | main.py:39-41 | the de-duplication key: the stripped url and stripped title (stated by `SummarizeKeepsKey` and the de-duplication lemmas) |
| Runner.KeySetSnoc | main.py:44 | adding a record adds its key to the seen set |
| Runner.UniqueSnoc | main.py:42-45 | appending a record keeps the keys distinct exactly when its key was not seen |
| Runner.FirstOccurrences | main.py:36-46 | de-duplication never lengthens the list |
| Runner.FirstOccurrencesSnoc | main.py:38-45 | one more record is kept exactly when its key has not been seen among the kept records |
| Runner.DedupeStep | main.py:38-45 | one iteration of the loop keeps `out` equal to the first occurrences so far and `seen` equal to their keys |
| Runner.Dedupe | main.py:34-46 | `dedupe_items` raises exactly when some url or title is truthy but not a string |
| Runner.DedupeItems | main.py:34-46 | the loop with a `seen` set computes exactly the de-duplication function, raising where it raises |
| Runner.DedupeUniqueKeys | main.py:38-44 | no two kept records share a stripped `(url, title)` key |
| Runner.DedupeKeySet | main.py:36-46 | the kept records have exactly the keys of the input |
| Runner.DedupeSubsequence | main.py:36-46 | the kept records are input records, unmodified and in input order |
| Runner.DedupePrefix | main.py:36-46 | what is kept from a prefix is a prefix of what is kept from the whole |
| Runner.DedupeKeepsFirst | main.py:42-45 | first seen wins: a record whose key does not occur before it is kept |
| Runner.NewKeyNotSeen | main.py:42 | a key that no earlier record has is not in the seen set |
| Runner.KeptWhenNew | main.py:42-45 | a record whose key is not among the earlier keys is kept |
| Runner.DistinctKeysKept | main.py:36-46 | records with distinct keys pass through unchanged |
| Runner.DedupeIdempotent | main.py:34-46 | de-duplicating twice keeps what de-duplicating once kept |
| Runner.FirstOccurrencesMembers | main.py:45 | every kept record is an input record |
| Runner.ReadFeedsConfig | main.py:17-32 | the configuration is the file's table when the file exists and parses, else the legacy loader's table, else empty |
| Runner.LimitFeeds | main.py:59-60 | a positive limit keeps that many feeds from the front, a negative one drops that many from the back, and none or 0 keeps all |
| Runner.ArticleStore.Append | main.py:83 | the batch goes after the stored records, and the store file exists afterwards |
| Runner.Summarized | main.py:73-80 | no more records are summarised than were given |
| Runner.SummarizeKeepsKey | main.py:76 | summarising a record keeps its `(url, title)` key |
| Runner.SummarizedKeys | main.py:73-80 | summarising adds no key, and distinct keys stay distinct |
| Runner.ArticlesAllSummarized | main.py:74-80 | records from the collector always summarise: the skip path is never taken for them |
| Runner.ArticlesKeyed | main.py:67-70 | the collector's records can always be keyed, so `dedupe_items` does not raise on them |
| Runner.DedupeArticles | main.py:70 | the de-duplicated records are still well-formed articles of the theme |
| Runner.SummarizeAll | main.py:73-80 | the loop keeps each record's summary and skips each record whose summarisation raises |
| Runner.ThemeRecordsUnique | main.py:67-85 | the records one theme run appends never repeat a `(url, title)` key |
| Runner.ThemeRecordsCount | main.py:67-85 | a theme run appends exactly as many records as de-duplication kept, at most 30 per feed |
| Runner.ThemeRecords | main.py:67-85 | the records one theme run appends: the collected records, de-duplicated, then summarised (stated by `ThemeRecordsUnique`, `ThemeRecordsCount`, `RunTheme`) |
| Runner.ThemeUrls | main.py:55-60 | the feeds `run_theme` reads: those given, or the configured ones when none are given, cut to the limit (stated by `LimitFeeds`, `RunTheme`) |
| Runner.RunTheme | main.py:48-85 | `run_theme` appends to the store exactly the theme's collected, de-duplicated and summarised records, returns their number, and creates the store only when that number is non-zero |
| Runner.Requested | main.py:100 | the requested themes are no more than the comma-separated pieces; which pieces they are, and in what order, is stated by `RequestedPieces` |
| Runner.RequestedPieces | main.py:100 | the requested themes are the non-blank pieces, stripped and lower-cased, in piece order: there is one per non-blank piece, each comes from such a piece, and every such piece gives one |
| Runner.Themed | main.py:100 | each piece, stripped and lower-cased, in piece order (the reference list that `RequestedPieces` selects from) |
| Runner.RequestedShape | main.py:100 | every requested theme is non-empty, its own strip, and has no upper-case ASCII letter |
| Runner.RequestedLast | main.py:100 | a non-blank piece, stripped and lower-cased, is a usable theme name |
| Runner.LowerStripped | main.py:100 | lower-casing a non-empty stripped string gives a usable theme name |
| Runner.LowerCharKeepsText | main.py:100 | lower-casing never turns a character into whitespace |
| Runner.Known | main.py:102 | the known themes are an in-order selection of the requested ones; a theme is kept exactly when it was requested and the configuration has it, and then as many times as it was requested |
| Runner.SelectThemes | main.py:99-107 | a blank `THEMES` selects every configured theme in file order; otherwise the requested known themes are selected, or every configured theme when none is known |
| Runner.SelectedAreConfigured | main.py:99-107 | with a well-formed configuration, every selected theme is configured |
| Runner.TotalIsAppended | main.py:111-113 | the reported total is the number of records the run appended |
| Runner.PipelineRecords | main.py:111-113 | the records the whole run appends, theme after theme (stated by `PipelineStep`, `RunPipeline`) |
| Runner.TotalCount | main.py:111-113 | the sum of the per-theme counts (stated by `TotalIsAppended`, `PipelineStep`) |
| Runner.PipelineStep | main.py:112-113 | one theme adds its count to the total and its records to the appended ones |
| Runner.RunPipeline | main.py:87-115 | `main` returns with nothing appended when the configuration is empty; otherwise it runs the selected themes in order, appends their records, and returns the sum of their counts |
| Summarizer.ProviderName | src/summarize/summarizer.py:4 | the provider is "openrouter" when unset, and otherwise the setting lower-cased, which has its length and no upper-case ASCII letter |
| Summarizer.Guide | src/summarize/summarizer.py:16 | the health guide is used exactly when the theme is the string "health", and the tech guide otherwise |
| Summarizer.PromptLayout | src/summarize/summarizer.py:17 | the prompt is the guide, "TITLE: ", the title, "\n\nARTICLE:\n", then the first 6000 characters of the text |
| Summarizer.Prompt | src/summarize/summarizer.py:17 | the prompt string (its layout is stated by `PromptLayout`) |
| Summarizer.SummaryOf | src/summarize/summarizer.py:19-26 | a provider other than "openrouter" gives "(no provider configured)"; otherwise the provider's answer, or "(summarizer_error: " + message + ")" when it raises |
| Summarizer.ErrorMarker | src/summarize/summarizer.py:26 | the `(summarizer_error: ...)` marker (stated by `SummaryOf`, `ProviderFailureIsMarked`) |
| Summarizer.SummarizeItem | src/summarize/summarizer.py:9-28 | the item raises only when `cleaned_text` is truthy but not a string; otherwise the result is the item with only `summary` set, "" for blank text, and the provider outcome for the built prompt |
| Summarizer.BlankTextSkipsProvider | src/summarize/summarizer.py:10-14 | blank text gives `summary = ""` whatever the provider does |
| Summarizer.ProviderFailureIsMarked | src/summarize/summarizer.py:25-26 | a failing provider never escapes: the summary is the error marker |
| Summarizer.MissingThemeIsTech | src/summarize/summarizer.py:12-16 | an item without a theme gets the tech guide |
| CleanArticles.MissingSummaryKept | clean_articles.py:9 | a record without `summary` reads as "" and is kept |
| CleanArticles.UpperCaseMarkDropped | clean_articles.py:9-10 | the summary is lower-cased before the search, so "400 Client Error" is dropped |
| CleanArticles.LowerShowsMark | clean_articles.py:9 | "400 Client Error", lower-cased, holds "client error" from index 4 |
| CleanArticles.Dropped | clean_articles.py:9-10 | a record is dropped when its lower-cased `str()` summary holds "summarizer_error" or "client error" (used by `CleanedKeeps`, `MissingSummaryKept`, `UpperCaseMarkDropped`) |
| CleanArticles.Objects | clean_articles.py:6-8 | there are no more parsed objects than non-blank lines |
| CleanArticles.Cleaned | clean_articles.py:6-12 | the script's outcome over the lines: the kept records, or the error of the first non-blank line without an object (stated by `CleanedRaises` and `CleanedKeeps`) |
| CleanArticles.CleanedRaises | clean_articles.py:6-8 | the script stops exactly when some non-blank line is not JSON or holds no object |
| CleanArticles.CleanedKeeps | clean_articles.py:6-12 | the kept records are the parsed objects filtered by the drop rule: unchanged and in order, an object kept exactly when its summary has neither mark, and no more records than non-blank lines |
| CleanArticles.CleanedCounts | clean_articles.py:10-12 | an object that is not dropped is kept as many times as the file holds it, and a dropped one not at all |
| CleanArticles.CleanedIsKeep | clean_articles.py:6-12 | a script that runs to the end keeps exactly the parsed objects filtered by the drop rule |
| CleanArticles.CleanedStaysRaised | clean_articles.py:6-8 | once a prefix of the file stops the script, the whole file does |
| CleanArticles.DataFiles.Clean | clean_articles.py:4-19 | the articles file is only read; on success the separate cleaned file holds exactly the kept records and the reported count is their number; on failure the cleaned file is untouched |
| CheckCounts.ThemeKey | check_counts.py:10 | the key is "unknown" when the theme is absent and the lower-cased `str()` of the theme otherwise, with no upper-case ASCII letter |
| CheckCounts.Bump | check_counts.py:10 | incrementing a counter adds the key, adds one to its count, and changes no other count |
| CheckCounts.TotalRemove | check_counts.py:10-11 | the sum of the counts can be split at any key |
| CheckCounts.TotalBump | check_counts.py:10-11 | incrementing one count adds one to the sum of the counts |
| CheckCounts.Tally | check_counts.py:6-12 | the counter and the row total after the lines, skipping blank and non-object lines (stated by `TallyTotals`, `SkippedLine`, `CountedLine`) |
| CheckCounts.TallyTotals | check_counts.py:6-12 | after the loop `n` is the sum of the per-theme counts and at most the number of non-blank lines, and every key is lower case |
| CheckCounts.SkippedLine | check_counts.py:7-12 | a blank line, or one that holds no object, changes neither `n` nor any count |
| CheckCounts.CountedLine | check_counts.py:9-11 | an object line adds one to `n` and to exactly one theme's count |
| CheckCounts.CountThemes | check_counts.py:4-12 | the counting loop computes exactly the tally of the lines |

## Left out

- HTTP, feed parsing, bozo detection, full-text extraction, JSON parsing
  and serialisation, ISO date formatting and the remote summariser are
  function-typed parameters. The feeds configuration file and the legacy
  source loader are inputs to `Runner.ReadFeedsConfig`. The storage module
  and the `load_sources` module are not part of this model.
- Environment variables (`LLM_PROVIDER`, `THEMES`, `LIMIT_SOURCES`) are
  parameters. The `int()` conversion of `LIMIT_SOURCES`, and its failure on
  a non-number, are not modelled.
- Console output, the 0.6-second pause between feeds and the
  `feedparser.USER_AGENT` global are not modelled. The HTTP timeout and
  headers are not modelled either.
- Splitting a file into lines is not modelled: the scripts are given the
  lines. Their printed summaries (`most_common` order, the ✅ message) are
  not modelled; the kept count is the clean-up method's result.
- Text.Lower: lower-cases only the ASCII letters A-Z, whereas Python's
  `str.lower()` lower-cases every Unicode letter.
- HfAdapter.SummarizeOnce: the waits are returned as the list of their
  lengths instead of being slept. The endpoint's decoded body is one of
  five shapes (`HfData`): a number, or a string holding "summary_text", as
  the first element of a list both make the code raise `TypeError` and
  are one shape.
- HfAdapter.Chunk: requires a width of at least 0. With a negative
  `max_chars` every next start stays below the text's length (a negative
  end counts from the back in `rfind`, as in a slice), so the loop never
  ends on a non-empty text. No caller passes such a width.
- The endpoint (`HfAdapter.Post`) is a function of the input text, the token
  budget and the attempt number, so two requests with the same text get
  the same reply; the real endpoint promises no such thing. No proved
  property relies on it.
- Fetch.CoerceDate: `getattr(entry, key)` and `entry.get(key)` are one
  field lookup, as they are for the feed parser's entry dictionaries.
- Runner.ReadFeedsConfig: a configuration file that parses to something
  other than a theme-to-feeds object is not modelled.
- Runner.RunTheme: `run_theme` reading the configuration itself, when
  called without feeds, is modelled by passing that configuration in.

## Findings

| source | as written | input that shows it | evidently intended | confidence | as-written member | corrected member |
|---|---|---|---|---|---|---|
| src/llm/hf_adapter.py:20-22 | when a window holds no period the cut is the window end, and the next window starts one past it, so the character at the window end is in no chunk | `_chunk("aaa", 2)` gives `["aa"]`; the third "a" is lost | skip the character at the cut only when it is the period found; otherwise go on from the window end, so that only those periods are in no chunk | high (not executed) | HfAdapter.ChunkLosesCharacter | HfAdapter.PiecesFixedRebuild |
