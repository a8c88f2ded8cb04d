# Hacker News digest job: a verified model of its decision logic

The job runs in batches. It reads the ranked list of top Hacker News stories
and skips the ids already listed in a processed-ID file. For each new story it
fetches the metadata and the article page. It extracts the article's long
paragraphs, asks a summarisation service for a Chinese summary, prepends the
results to an RSS feed, and appends each processed id to the file. The file
is pruned at the end of every run, whether or not anything new was found.

This project models that logic with the I/O removed. Files are sequences of
lines. HTTP responses, the HTML parser's findings and the service's replies
are values or total functions passed in. Every rule is stated as a Dafny
function or method with a contract, and the properties the program relies on
are proved.

Modules, one per file:

- `Wrappers` (`wrappers.dfy`): `Option`.
- `Seqs` (`seqs.dfy`): Python's `s[:n]`, `s[n:]` and `s[-n:]`, the list-comprehension filter, and the order-preserving subsequence relation.
- `Text` (`text.dfy`): `str.strip()` over Python's whitespace set, the substring test, and `sep.join`.
- `DedupStore` (`dedup.dfy`): the processed-ID file. It covers `get_processed_ids`, `add_processed_id` and `prune_processed_ids`.
- `StorySource` (`story_source.dfy`): candidate selection (`get_top_story_ids`) and the metadata gate (`get_story_details`).
- `ContentExtractor` (`extractor.dfy`): the content-type gate and the long-paragraph heuristic (`scrape_article_content`).
- `Summarizer` (`summarizer.dfy`): the length guard, the 8000-character excerpt and the failure placeholder (`summarize_with_gemini`).
- `FeedStore` (`feed.dfy`): prepending the batch and trimming the feed (`update_rss_feed`). It has both the trim as written, which the run uses, and the corrected trim; see Findings.
- `Orchestrator` (`orchestrator.dfy`): `main`. A run is a fold over the candidates that yields:
  - the batch;
  - the recorded ids;
  - whether the feed was rewritten;
  - the pruned file;
  - the number of sleeps.

  The three limits are positive parameters, and `Defaults` holds the program's values 30, 50 and 5000.

The external world of a run is a `World` value:

- the ranked id list, or `None` when that request fails;
- the item API, as a function from id to response;
- the page fetch, as a function from url to response;
- the summarisation service, as a function from prompt to reply.

An HTML page with no long paragraphs and an empty or missing body is dropped in two steps. `scrape_article_content` returns an empty string for it, not `None`. `main` then skips the story because an empty string is falsy. The model keeps both steps: `ScrapeArticle` returns `Some("")`, and `ProcessItem` skips it.

## Model

| member | source | states |
|---|---|---|
| Seqs.Take | main.py:74 | `s[:n]` has length `min(n, len(s))` and is a prefix of `s` |
| Seqs.Last | main.py:56 | `s[-n:]` has length `min(n, len(s))` and is a suffix of `s` |
| Seqs.Filter | main.py:72 | a comprehension filter is no longer than its input and keeps the input's order (it is a subsequence) |
| Seqs.FilterSpec | main.py:72 | the filter keeps exactly the elements that pass the test: everything kept passes, everything that passes is kept, and a passing value is kept as many times as it occurs (a failing one never) |
| Seqs.SubsequenceMembers | main.py:72 | everything in an order-preserving subsequence occurs in the original list |
| Text.StripSpec | main.py:38 | `strip()` removes exactly the leading and trailing whitespace: what remains starts and ends with non-whitespace and is a contiguous slice of the input |
| Text.StripUnique | main.py:38 | any slice that has only whitespace around it and none at its ends is the stripped string |
| Text.StripIdempotent | main.py:38 | stripping twice is stripping once |
| Text.StripDropsNewline | main.py:38-43 | the newline written after an id is removed again when the line is read back |
| Text.JoinEmpty | main.py:105-106 | `"\n".join(parts)` is empty exactly when there are no parts or a single empty part |
| DedupStore.LoadMembers | main.py:33-38 | an id is loaded exactly when some line of the file strips to it |
| DedupStore.RecordAll | main.py:40-43 | appending ids writes one line per id, `id + "\n"`, after the unchanged old lines, creating a missing file |
| DedupStore.Prune | main.py:45-58 | a missing file stays missing; a file over the cap becomes its last `cap` lines in order; any other file is unchanged |
| DedupStore.LoadAfterRecord | main.py:35-43 | for a file whose lines all end in a newline (or a missing file, which the append creates), after appending `id` the loaded set is the old set plus `strip(id)` |
| DedupStore.LoadAfterRecordAll | main.py:40-43 | appending stripped ids to a file whose lines all end in a newline adds exactly those ids to the loaded set |
| DedupStore.RecordKeepsTerminated | main.py:40-43 | appending `id + "\n"` keeps every line of the file newline-terminated, and a created file is terminated |
| DedupStore.RecordAllKeepsTerminated | main.py:40-43 | any number of appends keep the file newline-terminated |
| DedupStore.PruneKeepsTerminated | main.py:54-58 | rewriting the file to its last lines keeps it newline-terminated |
| DedupStore.PruneIdempotent | main.py:54-58 | a second prune changes nothing |
| DedupStore.PruneOnlyForgets | main.py:51-58 | every id loaded after a prune was loaded before it |
| DedupStore.RecentSurvivePrune | main.py:54-58 | ids appended to a newline-terminated file just before a prune, no more of them than the cap, all survive the prune |
| StorySource.DecimalString | main.py:71 | `str()` of an id is a non-empty string of decimal digits |
| StorySource.DecimalRoundTrip | main.py:71 | parsing the decimal text of an id gives the id back |
| StorySource.DecimalInjective | main.py:71 | distinct ids have distinct decimal texts |
| StorySource.DecimalIsStripped | main.py:71 | an id's decimal text has no whitespace for `strip()` to remove |
| StorySource.RankedIdsRoundTrip | main.py:71 | `all_ids` loses nothing: each string parses back to its ranked id, and different ids get different strings |
| StorySource.NoneProcessed | main.py:72 | when no ranked id was processed, every ranked id is new |
| StorySource.SelectCandidates | main.py:64-77 | a failed request gives no candidates. Otherwise the candidates have these properties: <ul><li>they are the first `min(cap, n)` unprocessed ranked ids, in rank order;</li><li>none of them was processed;</li><li>there are at most `cap`;</li><li>any unprocessed ranked id left out means the cap was reached</li></ul> |
| StorySource.CandidatesAreStripped | main.py:71-74 | every candidate is already stripped, so it loads back unchanged |
| StorySource.StoryDetails | main.py:79-90 | a record exists exactly when the request succeeded and the payload is a non-empty object with a `url`. The record carries the given id and that url. Its title is the payload's title, or `无标题` when the payload has none |
| ContentExtractor.LongParagraphTexts | main.py:104-105 | the kept texts are the `get_text()` of exactly the paragraphs whose stripped text is longer than 100, in document order. There are none exactly when no paragraph is that long, and each kept text is longer than 100 |
| ContentExtractor.ScrapeArticle | main.py:92-111 | there is content exactly when the page was fetched and its `Content-Type` contains `text/html`. The content is the `"\n"`-join of the long paragraphs, or the body text when that join is empty (`""` without a body) |
| ContentExtractor.BodyFallbackIff | main.py:105-107 | the body text is used exactly when no paragraph is long; otherwise the joined paragraphs are the content |
| ContentExtractor.MissingContentTypeYieldsNothing | main.py:98-101 | a response without a `Content-Type` header yields no content |
| Summarizer.Prompt | main.py:119 | the prompt starts with the fixed template head, ends with the fixed tail, and has the excerpt's length in between |
| Summarizer.PromptRoundTrip | main.py:119 | the excerpt can be read back verbatim from the prompt |
| Summarizer.Summarize | main.py:113-126 | the service is called exactly when the stripped content has 200 or more characters; otherwise the summary is `内容过短，无法生成有意义的摘要。`. The prompt is the fixed template of main.py:119 around exactly `content[:8000]`. A reply's text is the summary, and a raised call gives `调用AI总结服务失败。` |
| Summarizer.EmptyContentIsTooShort | main.py:115-116 | empty content gets the too-short placeholder without a call |
| Summarizer.PlaceholdersNonEmpty | main.py:115-126 | the summary is empty only when the service was called and itself answered with empty text |
| FeedStore.PrependAll | main.py:145-146 | prepending a batch adds exactly one entry per story |
| FeedStore.PrependAllReverses | main.py:145-150 | after prepending `[a, b, c]` the feed is `c, b, a` followed by the old entries |
| FeedStore.MergeOrder | main.py:145-150 | the k-th entry is the k-th story from the end of the batch, and the old entries follow in their old order |
| FeedStore.TrimAsWritten | main.py:153-154 | a list longer than the cap becomes `entries[cap:]`; a shorter one is unchanged |
| FeedStore.AsWrittenBoundIff | main.py:145-154 | with the trim as written, the feed ends within its cap exactly when old plus new entries are at most twice the cap |
| FeedStore.AsWrittenBoundedUnderLimits | main.py:145-154 | a feed within its cap and a batch no larger than the cap stay within the cap, even with the trim as written |
| FeedStore.AsWrittenDropsNewest | main.py:153-154 | with a full feed, the trim as written keeps only the oldest `len(batch)` old entries and drops every new story |
| FeedStore.AsWrittenCounterexample | main.py:153-154 | 50 old entries plus one new story leave the single oldest entry, and the new story is gone |
| FeedStore.Trim | main.py:153-154 | the corrected trim keeps the first, newest, `min(len, cap)` entries |
| FeedStore.UpdateFeedSpec | main.py:128-157 | the corrected update gives a feed of `min(old + new, cap)` entries: the newest story first, the batch in reverse, then the old entries in order |
| Orchestrator.DefaultsKeepFeedBounded | main.py:25-26 | with the configured limits of 30 stories and 50 entries, even the trim as written keeps a feed of 50 or fewer within 50 |
| Orchestrator.ProcessItem | main.py:178-190 | a candidate yields a summarised story exactly when its metadata exists and its page yields non-empty content. The story keeps the candidate's id, carries the metadata's title and url, and its summary is the summariser's text for that page's content |
| Orchestrator.AcceptedIdsSpec | main.py:180-186 | a candidate is recorded exactly when it is processed |
| Orchestrator.BatchMatchesAccepted | main.py:180-186 | the batch and the recorded ids line up: the k-th story is the result of processing the k-th recorded id |
| Orchestrator.ProcessStep | main.py:180-186 | one more candidate extends the batch and the recorded ids by one exactly when it is processed, and leaves both unchanged otherwise |
| Orchestrator.ProcessOne | main.py:178-190 | handling one more candidate leaves the batch and the recorded ids equal to the fold over the longer candidate list |
| Orchestrator.ProcessCandidates | main.py:175-192 | the loop records the processed candidates in candidate order, builds the matching batch, and sleeps between items but not after the last (`n - 1` times) |
| Orchestrator.Run | main.py:160-200 | a run has these properties: <ul><li>candidates are selected against the loaded ids;</li><li>the processed ones form the batch and are appended to the file;</li><li>the feed is rewritten exactly when the batch is non-empty, with the `entries[cap:]` trim as written;</li><li>the file is pruned on both exit paths;</li><li>there are `n - 1` sleeps for `n` candidates</li></ul> |
| Orchestrator.RunGuarantees | main.py:164-199 | across runs: <ul><li>a candidate is recorded exactly when it is processed;</li><li>no id already in the file is processed again;</li><li>the file stays within its cap;</li><li>for a newline-terminated file: the recorded ids load back, the file stays terminated, and when a run's worth of ids fits it keeps this run's ids;</li><li>a feed within its cap stays within it when a run's worth of stories fits in the feed;</li><li>the batch's last story is on top when old plus new entries fit in the feed</li></ul> |
| Orchestrator.RecordedFacts | main.py:164-186 | recorded ids were not already loaded. For a newline-terminated file they load back after recording, the pruned file stays terminated, and they survive the prune when a run's worth fits in the file |
| Orchestrator.PublishedFacts | main.py:145-154 | with the trim as written, a feed within its cap stays within it when the batch is no larger than the cap. An untrimmed feed starts with the batch's last story. A full feed given a non-empty batch keeps only its oldest `len(batch)` entries |
| Orchestrator.ScenarioCandidates | main.py:71-74 | with ids 1, 2, 3 ranked and nothing processed, all three are candidates in rank order |
| Orchestrator.ItemWithoutUrlIsSkipped | main.py:176-186 | when item 2 has no `url` and items 1 and 3 have HTML pages, exactly 1 and 3 are recorded, in that order |
| Orchestrator.SkipMiddle | main.py:176-186 | of three candidates, a middle one that fails to process is the only one skipped |

## Left out

- HTTP requests: the ranked list, the item API and the page fetch, including their headers, timeout and URL construction from `HN_API_BASE_URL`. Their results are inputs. Every failure is one `None`, `ItemFailed` or `PageFailed` value, whatever exception caused it.
- HTML parsing with BeautifulSoup. The parser's findings are inputs: each `<p>`'s text, its `get_text(strip=True)` text, and the body's visible text. `ContentExtractor.LongParagraphTexts` does not relate a paragraph's stripped text to `Text.Strip`, because `get_text(strip=True)` strips every text node separately and then concatenates them.
- The summarisation SDK, the model name and the API-key configuration. The service is a deterministic function from prompt to reply. The `.env` loading and the exit on a missing key happen before any modelled logic runs.
- RSS serialisation, the channel metadata and the attempt to load the existing feed file. The prior feed is an input list of entries, newest first. That load path uses library calls whose behaviour is not part of this model, and the `existing_entries` it fills is never used.
- The `pubDate` timestamp, because it depends on the wall clock.
- `time.sleep`: only the number of calls is modelled.
- Logging.
- File-system errors. An exception while appending an id would end the run, and the prune's own `except` hides a failed rewrite. Neither is modelled: the append and the prune always succeed.
- JSON values other than strings in an item payload, and ranked ids that are not non-negative integers. The item payload is a map from field names to text, and ranked ids are `nat`.
- How the file's text is split into lines by `readlines`. The file is modelled as its list of lines. `DedupStore.Terminated` says every line ends in its newline; the load-back lemmas require it, and `Record`, `RecordAll` and `Prune` are proved to keep it. A hand-edited file whose last line has no newline is outside those lemmas: the next id would be appended to that line.
- Orchestrator.RunGuarantees: the load-back and survival clauses are stated only for a newline-terminated file, because on an unterminated one the first appended id merges with the last line.
- Orchestrator.RecordedFacts: the same restriction, for the same reason.

## Findings

| source | as written | input that shows it | evidently intended | confidence | as-written member | corrected member |
|---|---|---|---|---|---|---|
| main.py:153-154 | a feed of more than 50 entries becomes `entries[50:]`, everything after the first 50. New stories are prepended, so this keeps the oldest entries and drops the newest | a prior feed of 50 entries plus a batch of one story: 51 entries are trimmed to the single oldest one, and the new story is lost | keep the 50 newest entries (`entries[:50]`) | medium, not executed (reached only when the existing feed loads, which depends on the feed library) | FeedStore.AsWrittenCounterexample | FeedStore.UpdateFeedSpec |

`Orchestrator.Run` publishes with the trim as written (`FeedStore.UpdateFeedAsWritten`). `FeedStore.UpdateFeed` is the intended replacement, and `FeedStore.UpdateFeedSpec` proves its ordering and bound.
