/** The feed store's merge and trim: new stories are prepended one by one,
    then an over-long entry list is cut back. Serialisation is not modelled;
    the prior feed arrives as its list of entries, newest first. */
module FeedStore {
  import opened Seqs

  /** A story that went through the pipeline: its record plus its summary. */
  datatype SummarizedStory = SummarizedStory(id: string, title: string, url: string, summary: string)

  /** One feed item; the guid is the link, marked as a permalink. */
  datatype FeedEntry = FeedEntry(title: string, link: string, description: string, guid: string)

  function EntryOf(s: SummarizedStory): FeedEntry {
    FeedEntry(s.title, s.url, s.summary, s.url)
  }

  /** The entry of each story of a batch, in batch order. */
  function Entries(batch: seq<SummarizedStory>): (es: seq<FeedEntry>)
    ensures |es| == |batch|
    ensures forall k :: 0 <= k < |batch| ==> es[k] == EntryOf(batch[k])
  {
    seq(|batch|, k requires 0 <= k < |batch| => EntryOf(batch[k]))
  }

  /** The `for story in new_stories: add_entry(order='prepend')` loop, one story at a time. */
  function PrependAll(entries: seq<FeedEntry>, batch: seq<SummarizedStory>): (r: seq<FeedEntry>)
    ensures |r| == |batch| + |entries|
    decreases |batch|
  {
    if batch == [] then entries
    else PrependAll([EntryOf(batch[0])] + entries, batch[1..])
  }

  /** Prepending a batch one story at a time puts the batch, reversed, before the old entries. */
  lemma {:induction false} PrependAllReverses(entries: seq<FeedEntry>, batch: seq<SummarizedStory>)
    ensures PrependAll(entries, batch) == Reverse(Entries(batch)) + entries
    decreases |batch|
  {
    if batch != [] {
      PrependAllReverses([EntryOf(batch[0])] + entries, batch[1..]);
      var es := Entries(batch);
      assert es[1..] == Entries(batch[1..]);
      assert Reverse(es) == Reverse(es[1..]) + [es[0]];
    }
  }

  /** Merge order: the last story of the batch comes first, then the others
      backwards, then every prior entry in its old order. */
  lemma MergeOrder(entries: seq<FeedEntry>, batch: seq<SummarizedStory>)
    ensures |PrependAll(entries, batch)| == |batch| + |entries|
    ensures forall k :: 0 <= k < |batch| ==> PrependAll(entries, batch)[k] == EntryOf(batch[|batch| - 1 - k])
    ensures forall k :: 0 <= k < |entries| ==> PrependAll(entries, batch)[|batch| + k] == entries[k]
  {
    PrependAllReverses(entries, batch);
    var merged := PrependAll(entries, batch);
    var es := Entries(batch);
    var r := Reverse(es);
    forall k | 0 <= k < |batch|
      ensures merged[k] == EntryOf(batch[|batch| - 1 - k])
    {
      assert merged[k] == r[k] == es[|batch| - 1 - k];
    }
    forall k | 0 <= k < |entries|
      ensures merged[|batch| + k] == entries[k]
    {
      assert merged[|batch| + k] == (r + entries)[|r| + k];
    }
  }

  // ---- The trim as written ----

  /** `fg.entry(fg.entry()[MAX_FEED_ENTRIES:], replace=True)` when there are more
      than `cap` entries: it keeps the entries AFTER the first `cap`, the oldest. */
  function TrimAsWritten(entries: seq<FeedEntry>, cap: nat): (r: seq<FeedEntry>)
    ensures |entries| > cap ==> |r| == |entries| - cap && forall k :: 0 <= k < |r| ==> r[k] == entries[cap + k]
    ensures |entries| <= cap ==> r == entries
  {
    if |entries| > cap then Drop(entries, cap) else entries
  }

  /** `update_rss_feed` as written. */
  function UpdateFeedAsWritten(prior: seq<FeedEntry>, batch: seq<SummarizedStory>, cap: nat): seq<FeedEntry> {
    TrimAsWritten(PrependAll(prior, batch), cap)
  }

  /** As written, the feed stays within `cap` exactly when the merged list is at most twice `cap`. */
  lemma AsWrittenBoundIff(prior: seq<FeedEntry>, batch: seq<SummarizedStory>, cap: nat)
    ensures |UpdateFeedAsWritten(prior, batch, cap)| <= cap <==> |prior| + |batch| <= 2 * cap
  {
    MergeOrder(prior, batch);
  }

  /** With the source's limits (a feed of at most 50 and a batch of at most 30),
      the as-written trim still keeps the feed within its cap. */
  lemma AsWrittenBoundedUnderLimits(prior: seq<FeedEntry>, batch: seq<SummarizedStory>, maxFeed: nat, maxStories: nat)
    requires |prior| <= maxFeed && |batch| <= maxStories && maxStories <= maxFeed
    ensures |UpdateFeedAsWritten(prior, batch, maxFeed)| <= maxFeed
  {
    AsWrittenBoundIff(prior, batch, maxFeed);
  }

  /** The as-written trim discards the new batch: with a full feed, the result
      is only the oldest `|batch|` prior entries. */
  lemma AsWrittenDropsNewest(prior: seq<FeedEntry>, batch: seq<SummarizedStory>, cap: nat)
    requires |prior| == cap && 0 < |batch| <= cap
    ensures UpdateFeedAsWritten(prior, batch, cap) == prior[cap - |batch|..]
    ensures |UpdateFeedAsWritten(prior, batch, cap)| == |batch|
  {
    PrependAllReverses(prior, batch);
    var merged := Reverse(Entries(batch)) + prior;
    assert merged[cap..] == prior[cap - |batch|..];
  }

  /** The concrete case: a full feed of 50 plus one new story leaves a single,
      old entry, and the new story is gone. */
  lemma AsWrittenCounterexample(prior: seq<FeedEntry>, story: SummarizedStory)
    requires |prior| == 50
    requires EntryOf(story) !in prior
    ensures UpdateFeedAsWritten(prior, [story], 50) == [prior[49]]
    ensures EntryOf(story) !in UpdateFeedAsWritten(prior, [story], 50)
  {
    AsWrittenDropsNewest(prior, [story], 50);
    assert prior[49..] == [prior[49]];
  }

  // ---- The trim as intended ----

  /** Drops entries from the tail until at most `cap` remain: the newest are kept. */
  function Trim(entries: seq<FeedEntry>, cap: nat): (r: seq<FeedEntry>)
    ensures |r| == Min(|entries|, cap)
    ensures r == entries[..|r|]
  {
    Take(entries, cap)
  }

  /** `update_rss_feed` with the intended trim. */
  function UpdateFeed(prior: seq<FeedEntry>, batch: seq<SummarizedStory>, cap: nat): seq<FeedEntry> {
    Trim(PrependAll(prior, batch), cap)
  }

  /** With the intended trim the feed never exceeds its cap, the newest stories
      come first in reverse batch order, and the prior entries follow in order. */
  lemma UpdateFeedSpec(prior: seq<FeedEntry>, batch: seq<SummarizedStory>, cap: nat)
    ensures |UpdateFeed(prior, batch, cap)| == Min(|prior| + |batch|, cap)
    ensures forall k :: 0 <= k < Min(|batch|, cap) ==>
      UpdateFeed(prior, batch, cap)[k] == EntryOf(batch[|batch| - 1 - k])
    ensures forall k :: 0 <= k < |prior| && |batch| + k < cap ==>
      UpdateFeed(prior, batch, cap)[|batch| + k] == prior[k]
  {
    MergeOrder(prior, batch);
  }
}
