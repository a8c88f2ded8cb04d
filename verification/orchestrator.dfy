/** One run of the batch job: load the dedup set, select candidates, process
    them one by one with per-item failure isolation, publish the batch if there
    is one, and prune the dedup file on every exit path. */
module Orchestrator {
  import opened Wrappers
  import opened Seqs
  import opened Text
  import opened DedupStore
  import opened StorySource
  import opened ContentExtractor
  import opened Summarizer
  import opened FeedStore

  type Pos = n: nat | n > 0 witness 1

  /** The job's limits: stories per run, feed length, dedup file length. */
  datatype Config = Config(maxStories: Pos, maxFeed: Pos, maxProcessed: Pos)

  /** The limits the job is configured with. */
  const Defaults: Config := Config(30, 50, 5000)

  /** Everything outside the program that a run observes: the ranked id list
      (`None` when that request fails), the item API, the page fetch (keyed by
      url), and the summarisation service. */
  datatype World = World(
    topStories: Option<seq<nat>>,
    item: string -> ItemResponse,
    page: string -> PageResponse,
    service: string -> ServiceReply)

  /** One iteration of the loop body, as a value: the summarised story when the
      item has metadata with a url and its page yields non-empty content. */
  function ProcessItem(w: World, id: string): (r: Option<SummarizedStory>)
    ensures r.Some? <==>
      && StoryDetails(id, w.item(id)).Some?
      && ScrapeArticle(w.page(StoryDetails(id, w.item(id)).value.url)).Some?
      && ScrapeArticle(w.page(StoryDetails(id, w.item(id)).value.url)).value != ""
    ensures r.Some? ==> r.value.id == id
    ensures r.Some? ==>
      var d := StoryDetails(id, w.item(id)).value;
      && r.value.title == d.title
      && r.value.url == d.url
      && r.value.summary == Summarize(ScrapeArticle(w.page(d.url)).value, w.service).text
  {
    match StoryDetails(id, w.item(id))
    case None => None
    case Some(d) =>
      match ScrapeArticle(w.page(d.url))
      case None => None
      case Some(content) =>
        if content == "" then None
        else Some(SummarizedStory(d.id, d.title, d.url, Summarize(content, w.service).text))
  }

  /** The candidates that make it into the batch, in candidate order. */
  function AcceptedIds(w: World, ids: seq<string>): seq<string> {
    Filter(ids, id => ProcessItem(w, id).Some?)
  }

  lemma AcceptedIdsSnoc(w: World, ids: seq<string>, id: string)
    ensures AcceptedIds(w, ids + [id]) ==
      AcceptedIds(w, ids) + (if ProcessItem(w, id).Some? then [id] else [])
  {
    assert (ids + [id])[..|ids|] == ids;
  }

  /** A candidate is processed exactly when its item has metadata and its page yields content. */
  lemma AcceptedIdsSpec(w: World, ids: seq<string>)
    ensures forall k :: 0 <= k < |ids| ==> (ids[k] in AcceptedIds(w, ids) <==> ProcessItem(w, ids[k]).Some?)
  {
    var keep := id => ProcessItem(w, id).Some?;
    FilterSpec(ids, keep);
    var r := AcceptedIds(w, ids);
    assert r == Filter(ids, keep);
    forall k | 0 <= k < |ids| && ids[k] in r
      ensures ProcessItem(w, ids[k]).Some?
    {
      var j :| 0 <= j < |r| && r[j] == ids[k];
      assert keep(r[j]);
    }
  }

  /** The batch as a fold over the candidates: each processed item's story, in candidate order. */
  function Batch(w: World, ids: seq<string>): seq<SummarizedStory> {
    if ids == [] then []
    else
      Batch(w, ids[..|ids| - 1]) +
        match ProcessItem(w, ids[|ids| - 1])
        case None => []
        case Some(story) => [story]
  }

  /** One more candidate extends the batch and the processed ids exactly when it is processed. */
  lemma ProcessStep(w: World, done: seq<string>, id: string, next: seq<string>,
                    batch: seq<SummarizedStory>, recorded: seq<string>)
    requires next == done + [id]
    requires batch == Batch(w, done) && recorded == AcceptedIds(w, done)
    ensures ProcessItem(w, id).Some? ==>
      batch + [ProcessItem(w, id).value] == Batch(w, next) && recorded + [id] == AcceptedIds(w, next)
    ensures ProcessItem(w, id).None? ==>
      batch == Batch(w, next) && recorded == AcceptedIds(w, next)
  {
    assert next[..|done|] == done;
    AcceptedIdsSnoc(w, done, id);
  }

  /** The batch and the processed ids line up: the k-th story is what processing
      the k-th processed id gives. */
  lemma {:induction false} BatchMatchesAccepted(w: World, ids: seq<string>)
    ensures |Batch(w, ids)| == |AcceptedIds(w, ids)|
    ensures forall k :: 0 <= k < |Batch(w, ids)| ==>
      ProcessItem(w, AcceptedIds(w, ids)[k]) == Some(Batch(w, ids)[k])
  {
    if ids != [] {
      var init := ids[..|ids| - 1];
      var id := ids[|ids| - 1];
      assert ids == init + [id];
      BatchMatchesAccepted(w, init);
      AcceptedIdsSnoc(w, init, id);
    }
  }

  /** The body of the loop for one candidate: a processed item appends its
      story to the batch and its id to the file; any failure leaves both alone. */
  method ProcessOne(w: World, done: seq<string>, id: string,
                    batch: seq<SummarizedStory>, recorded: seq<string>)
    returns (batch': seq<SummarizedStory>, recorded': seq<string>)
    requires batch == Batch(w, done) && recorded == AcceptedIds(w, done)
    ensures batch' == Batch(w, done + [id]) && recorded' == AcceptedIds(w, done + [id])
  {
    var item := ProcessItem(w, id);
    ProcessStep(w, done, id, done + [id], batch, recorded);
    batch', recorded' := batch, recorded;
    if item.Some? {
      batch' := batch + [item.value];
      recorded' := recorded + [id];
    }
  }

  /** The `for i, story_id in enumerate(story_ids)` loop: builds the batch,
      appends each processed id, and sleeps between items but not after the last. */
  method ProcessCandidates(w: World, candidates: seq<string>)
    returns (batch: seq<SummarizedStory>, recorded: seq<string>, sleeps: nat)
    ensures recorded == AcceptedIds(w, candidates)
    ensures batch == Batch(w, candidates)
    ensures sleeps == if candidates == [] then 0 else |candidates| - 1
  {
    batch, recorded, sleeps := [], [], 0;
    var i := 0;
    while i < |candidates|
      invariant 0 <= i <= |candidates|
      invariant recorded == AcceptedIds(w, candidates[..i])
      invariant batch == Batch(w, candidates[..i])
      invariant sleeps == if candidates == [] then 0 else Min(i, |candidates| - 1)
    {
      PrefixSnoc(candidates, i);
      batch, recorded := ProcessOne(w, candidates[..i], candidates[i], batch, recorded);
      if i < |candidates| - 1 {
        sleeps := sleeps + 1;
      }
      i := i + 1;
    }
    assert candidates[..i] == candidates;
  }

  /** What a run did besides changing the two files. */
  datatype RunOutcome = RunOutcome(
    candidates: seq<string>,
    batch: seq<SummarizedStory>,
    recorded: seq<string>,
    feedUpdated: bool,
    sleeps: nat)

  /** The state a run leaves behind: the dedup file, the feed entries, and the outcome. */
  datatype RunResult = RunResult(log: LogFile, feed: seq<FeedEntry>, outcome: RunOutcome)

  /** What `main` does to the two files and what it reports, given the dedup
      file `log`, the feed `feed` and the world `w`: candidates are selected
      against the loaded ids; the accepted ones form the batch and are appended
      to the log in candidate order; the feed is rewritten only for a non-empty
      batch; the log is pruned on both exit paths; and the job sleeps between
      items but not after the last. */
  ghost predicate RunSpec(cfg: Config, log: LogFile, feed: seq<FeedEntry>, w: World, res: RunResult) {
    var o := res.outcome;
    && o.candidates == SelectCandidates(w.topStories, Load(log), cfg.maxStories)
    && o.recorded == AcceptedIds(w, o.candidates)
    && o.batch == Batch(w, o.candidates)
    && (o.feedUpdated <==> o.batch != [])
    && o.sleeps == (if o.candidates == [] then 0 else |o.candidates| - 1)
    && res.log == Prune(RecordAll(log, o.recorded), cfg.maxProcessed)
    && res.feed == (if o.feedUpdated then UpdateFeedAsWritten(feed, o.batch, cfg.maxFeed) else feed)
  }

  /** `main`: one run of the job. */
  method Run(cfg: Config, log: LogFile, feed: seq<FeedEntry>, w: World) returns (res: RunResult)
    ensures RunSpec(cfg, log, feed, w, res)
    ensures res.outcome.feedUpdated <==> res.outcome.batch != []
    ensures res.outcome.sleeps == if res.outcome.candidates == [] then 0 else |res.outcome.candidates| - 1
  {
    var processed := Load(log);
    var candidates := SelectCandidates(w.topStories, processed, cfg.maxStories);
    var batch: seq<SummarizedStory> := [];
    var recorded: seq<string> := [];
    var sleeps: nat := 0;
    var feed' := feed;
    if candidates == [] {
      // Nothing new: straight to the prune.
      assert AcceptedIds(w, candidates) == [] && Batch(w, candidates) == [];
    } else {
      batch, recorded, sleeps := ProcessCandidates(w, candidates);
      if batch != [] {
        feed' := UpdateFeedAsWritten(feed, batch, cfg.maxFeed);
      }
    }
    var pruned := Prune(RecordAll(log, recorded), cfg.maxProcessed);
    res := RunResult(pruned, feed', RunOutcome(candidates, batch, recorded, batch != [], sleeps));
  }

  /** What a run guarantees across runs: nothing already processed is processed
      again, every processed id loads back, the dedup file stays within its cap
      and (when a run's worth of ids fits in it) keeps this run's ids. A feed
      within its cap stays within it when a run's worth of stories fits in the
      feed; the batch's last story is on top only when nothing had to be trimmed. */
  lemma RunGuarantees(cfg: Config, log: LogFile, feed: seq<FeedEntry>, w: World, res: RunResult)
    requires RunSpec(cfg, log, feed, w, res)
    ensures forall k :: 0 <= k < |res.outcome.candidates| ==>
      (res.outcome.candidates[k] in res.outcome.recorded <==> ProcessItem(w, res.outcome.candidates[k]).Some?)
    ensures forall k :: 0 <= k < |res.outcome.recorded| ==> res.outcome.recorded[k] !in Load(log)
    ensures Terminated(log) ==> Load(RecordAll(log, res.outcome.recorded)) == Load(log) + Elements(res.outcome.recorded)
    ensures res.log.Some? ==> |res.log.value| <= cfg.maxProcessed
    ensures Terminated(log) && cfg.maxStories <= cfg.maxProcessed ==> Elements(res.outcome.recorded) <= Load(res.log)
    ensures Terminated(log) ==> Terminated(res.log)
    ensures |feed| <= cfg.maxFeed && cfg.maxStories <= cfg.maxFeed ==> |res.feed| <= cfg.maxFeed
    ensures res.outcome.feedUpdated && |feed| + |res.outcome.batch| <= cfg.maxFeed ==>
      |res.feed| > 0 && res.feed[0] == EntryOf(res.outcome.batch[|res.outcome.batch| - 1])
  {
    AcceptedIdsSpec(w, res.outcome.candidates);
    RecordedFacts(cfg, log, w, res.outcome.candidates, res.outcome.recorded);
    BatchMatchesAccepted(w, res.outcome.candidates);
    assert |res.outcome.batch| <= cfg.maxStories;
    PublishedFacts(cfg, feed, res.outcome.batch);
  }

  /** What publishing a batch does to the feed, with the trim as written: a feed
      within its cap stays within it when the batch is no larger than the cap;
      an untrimmed feed starts with the batch's last story; and a full feed given
      a non-empty batch keeps only its oldest `|batch|` entries, losing every new story. */
  lemma PublishedFacts(cfg: Config, feed: seq<FeedEntry>, batch: seq<SummarizedStory>)
    ensures |feed| <= cfg.maxFeed && |batch| <= cfg.maxFeed ==>
      |UpdateFeedAsWritten(feed, batch, cfg.maxFeed)| <= cfg.maxFeed
    ensures batch != [] && |feed| + |batch| <= cfg.maxFeed ==>
      |UpdateFeedAsWritten(feed, batch, cfg.maxFeed)| > 0 &&
      UpdateFeedAsWritten(feed, batch, cfg.maxFeed)[0] == EntryOf(batch[|batch| - 1])
    ensures |feed| == cfg.maxFeed && 0 < |batch| <= cfg.maxFeed ==>
      UpdateFeedAsWritten(feed, batch, cfg.maxFeed) == feed[cfg.maxFeed - |batch|..]
  {
    MergeOrder(feed, batch);
    if |feed| <= cfg.maxFeed && |batch| <= cfg.maxFeed {
      AsWrittenBoundedUnderLimits(feed, batch, cfg.maxFeed, cfg.maxFeed);
    }
    if |feed| == cfg.maxFeed && 0 < |batch| <= cfg.maxFeed {
      AsWrittenDropsNewest(feed, batch, cfg.maxFeed);
    }
  }

  /** The processed ids of a run were candidates, hence unseen before and already stripped;
      they load back after recording and, when a run's worth fits the dedup file, survive the prune. */
  lemma RecordedFacts(cfg: Config, log: LogFile, w: World, candidates: seq<string>, recorded: seq<string>)
    requires candidates == SelectCandidates(w.topStories, Load(log), cfg.maxStories)
    requires recorded == AcceptedIds(w, candidates)
    ensures forall k :: 0 <= k < |recorded| ==> recorded[k] !in Load(log)
    ensures Terminated(log) ==> Load(RecordAll(log, recorded)) == Load(log) + Elements(recorded)
    ensures Terminated(log) && cfg.maxStories <= cfg.maxProcessed ==>
      Elements(recorded) <= Load(Prune(RecordAll(log, recorded), cfg.maxProcessed))
    ensures Terminated(log) ==> Terminated(Prune(RecordAll(log, recorded), cfg.maxProcessed))
  {
    CandidatesAreStripped(w.topStories, Load(log), cfg.maxStories);
    SubsequenceMembers(recorded, candidates);
    assert forall k :: 0 <= k < |recorded| ==> recorded[k] in candidates;
    assert forall k :: 0 <= k < |recorded| ==> Strip(recorded[k]) == recorded[k];
    if Terminated(log) {
      LoadAfterRecordAll(log, recorded);
      RecordAllKeepsTerminated(log, recorded);
      PruneKeepsTerminated(RecordAll(log, recorded), cfg.maxProcessed);
      if cfg.maxStories <= cfg.maxProcessed {
        RecentSurvivePrune(log, recorded, cfg.maxProcessed);
      }
    }
  }

  /** With the configured limits (a batch of at most 30, a feed of at most 50),
      even the as-written trim keeps a bounded feed bounded. */
  lemma DefaultsKeepFeedBounded(prior: seq<FeedEntry>, batch: seq<SummarizedStory>)
    requires |prior| <= Defaults.maxFeed && |batch| <= Defaults.maxStories
    ensures |UpdateFeedAsWritten(prior, batch, Defaults.maxFeed)| <= Defaults.maxFeed
  {
    AsWrittenBoundedUnderLimits(prior, batch, Defaults.maxFeed, Defaults.maxStories);
  }

  /** Ids 1, 2, 3 are ranked and none is processed: all three are candidates, in rank order. */
  lemma ScenarioCandidates()
    ensures SelectCandidates(ScenarioWorld().topStories, {}, 30) == ["1", "2", "3"]
  {
    var ids := ["1", "2", "3"];
    assert DecimalString(1) == "1" && DecimalString(2) == "2" && DecimalString(3) == "3";
    assert ScenarioWorld().topStories == Some([1, 2, 3]);
    assert RankedIds([1, 2, 3]) == ids;
    NoneProcessed(ids, {});
    assert Take(ids, 30) == ids;
  }

  /** Item 2 has no url and the other two pages are HTML with a usable body:
      2 is skipped, and 1 and 3 are processed in that order. */
  lemma ItemWithoutUrlIsSkipped()
    ensures AcceptedIds(ScenarioWorld(), ["1", "2", "3"]) == ["1", "3"]
  {
    var w := ScenarioWorld();
    ScenarioItemAccepted(w, "1");
    ScenarioItemRejected(w);
    ScenarioItemAccepted(w, "3");
    SkipMiddle(w, "1", "2", "3");
  }

  /** Of three candidates, a middle one that fails to process is the only one skipped. */
  lemma SkipMiddle(w: World, a: string, b: string, c: string)
    requires ProcessItem(w, a).Some? && ProcessItem(w, b).None? && ProcessItem(w, c).Some?
    ensures AcceptedIds(w, [a, b, c]) == [a, c]
  {
    FilterDropsMiddle(a, b, c, id => ProcessItem(w, id).Some?);
  }

  lemma ScenarioItemRejected(w: World)
    requires w == ScenarioWorld()
    ensures ProcessItem(w, "2").None?
  {
    assert w.item("2") == ItemFetched(Object(map["title" := "Ask"]));
    assert "url" !in map["title" := "Ask"];
  }

  lemma ScenarioItemAccepted(w: World, id: string)
    requires w == ScenarioWorld() && id != "2"
    ensures ProcessItem(w, id).Some?
  {
    var url := "https://example.com/" + id;
    assert w.item(id) == ItemFetched(Object(map["title" := "Story " + id, "url" := url]));
    assert StoryDetails(id, w.item(id)).value.url == url;
    assert OccursAt("text/html", HtmlType, 0);
    assert ScrapeArticle(w.page(url)) == Some("Body of " + url);
  }

  function ScenarioWorld(): World {
    World(
      Some([1, 2, 3]),
      id => if id == "2" then ItemFetched(Object(map["title" := "Ask"]))
            else ItemFetched(Object(map["title" := "Story " + id, "url" := "https://example.com/" + id])),
      url => PageFetched(Some("text/html"), [], Some("Body of " + url)),
      prompt => Replied("summary"))
  }
}
