/** The story source: turning the ranked id list into this run's candidates,
    and turning an item's metadata into a story record. */
module StorySource {
  import opened Wrappers
  import opened Seqs
  import opened Text

  // ---- `str(story_id)` ----

  function DigitChar(d: nat): (c: char)
    requires d < 10
    ensures '0' <= c <= '9'
  {
    ('0' as int + d) as char
  }

  /** Python's `str(n)` for a non-negative integer: its decimal digits, most significant first. */
  function DecimalString(n: nat): (s: string)
    ensures |s| > 0
    ensures forall k :: 0 <= k < |s| ==> '0' <= s[k] <= '9'
  {
    if n < 10 then [DigitChar(n)] else DecimalString(n / 10) + [DigitChar(n % 10)]
  }

  /** Reads a string of decimal digits back as a number (Python's `int(s)`). */
  function ParseDecimal(s: string): nat
    requires forall k :: 0 <= k < |s| ==> '0' <= s[k] <= '9'
  {
    if s == [] then 0
    else ParseDecimal(s[..|s| - 1]) * 10 + (s[|s| - 1] as int - '0' as int)
  }

  /** `str` loses nothing: the decimal text of an id reads back as that id. */
  lemma {:induction false} DecimalRoundTrip(n: nat)
    ensures ParseDecimal(DecimalString(n)) == n
  {
    if n >= 10 {
      var s := DecimalString(n);
      assert s[..|s| - 1] == DecimalString(n / 10);
      DecimalRoundTrip(n / 10);
    }
  }

  /** Distinct ids have distinct decimal strings, so filtering by string is filtering by id. */
  lemma DecimalInjective(m: nat, n: nat)
    requires DecimalString(m) == DecimalString(n)
    ensures m == n
  {
    DecimalRoundTrip(m);
    DecimalRoundTrip(n);
  }

  /** A decimal id has no surrounding whitespace, so `strip()` returns it unchanged. */
  lemma DecimalIsStripped(n: nat)
    ensures Strip(DecimalString(n)) == DecimalString(n)
  {
    var s := DecimalString(n);
    assert !IsSpace(s[0]) && !IsSpace(s[|s| - 1]);
    StripNoop(s);
  }

  // ---- `get_top_story_ids` ----

  /** `all_ids`: the ranked ids as strings, in rank order. */
  function RankedIds(top: seq<nat>): (ids: seq<string>)
    ensures |ids| == |top|
    ensures forall k :: 0 <= k < |top| ==> ids[k] == DecimalString(top[k])
  {
    seq(|top|, k requires 0 <= k < |top| => DecimalString(top[k]))
  }

  /** `all_ids` loses nothing: each string reads back as its ranked id, and
      different ids get different strings. */
  lemma RankedIdsRoundTrip(top: seq<nat>)
    ensures forall k :: 0 <= k < |top| ==> ParseDecimal(RankedIds(top)[k]) == top[k]
    ensures forall i, j :: 0 <= i < |top| && 0 <= j < |top| && top[i] != top[j] ==>
      RankedIds(top)[i] != RankedIds(top)[j]
  {
    var ids := RankedIds(top);
    forall k | 0 <= k < |top|
      ensures ParseDecimal(ids[k]) == top[k]
    {
      DecimalRoundTrip(top[k]);
    }
    forall i, j | 0 <= i < |top| && 0 <= j < |top| && top[i] != top[j]
      ensures ids[i] != ids[j]
    {
      assert ParseDecimal(ids[i]) == top[i] && ParseDecimal(ids[j]) == top[j];
    }
  }

  /** `new_story_ids`: the ranked ids not yet processed, in rank order. */
  function Unprocessed(ids: seq<string>, processed: set<string>): seq<string> {
    Filter(ids, id => id !in processed)
  }

  /** When no ranked id is processed, all of them are new. */
  lemma NoneProcessed(ids: seq<string>, processed: set<string>)
    requires forall k :: 0 <= k < |ids| ==> ids[k] !in processed
    ensures Unprocessed(ids, processed) == ids
  {
    FilterKeepsAll(ids, id => id !in processed);
  }

  /** `get_top_story_ids`: `top` is the ranked list the aggregator returned, or
      `None` when the request failed, which yields no candidates. The rest is
      `new_story_ids[:maxStories]`. */
  function SelectCandidates(top: Option<seq<nat>>, processed: set<string>, maxStories: nat): (r: seq<string>)
    ensures |r| <= maxStories
    ensures forall k :: 0 <= k < |r| ==> r[k] !in processed
    ensures top.None? ==> r == []
    ensures top.Some? ==> IsSubsequence(r, RankedIds(top.value))
    ensures top.Some? ==> forall k :: 0 <= k < |r| ==> r[k] in RankedIds(top.value)
    ensures top.Some? ==> forall id :: id in RankedIds(top.value) && id !in processed && id !in r ==> |r| == maxStories
    ensures top.Some? ==> |r| == Min(maxStories, |Unprocessed(RankedIds(top.value), processed)|)
    ensures top.Some? ==> r == Unprocessed(RankedIds(top.value), processed)[..|r|]
  {
    match top
    case None => []
    case Some(ranked) =>
      var unseen := Unprocessed(RankedIds(ranked), processed);
      FilterSpec(RankedIds(ranked), id => id !in processed);
      var r := Take(unseen, maxStories);
      SubsequencePrefix(unseen, RankedIds(ranked), |r|);
      SubsequenceMembers(r, RankedIds(ranked));
      assert forall k :: 0 <= k < |r| ==> r[k] == unseen[k];
      r
  }

  /** Every candidate is the decimal text of a ranked id, hence already stripped. */
  lemma CandidatesAreStripped(top: Option<seq<nat>>, processed: set<string>, maxStories: nat)
    ensures forall k :: 0 <= k < |SelectCandidates(top, processed, maxStories)| ==>
      Strip(SelectCandidates(top, processed, maxStories)[k]) == SelectCandidates(top, processed, maxStories)[k]
  {
    var r := SelectCandidates(top, processed, maxStories);
    forall k | 0 <= k < |r|
      ensures Strip(r[k]) == r[k]
    {
      var ids := RankedIds(top.value);
      var j :| 0 <= j < |ids| && ids[j] == r[k];
      DecimalIsStripped(top.value[j]);
    }
  }

  // ---- `get_story_details` ----

  /** A story record: `{"id", "title", "url"}`. */
  datatype StoryRecord = StoryRecord(id: string, title: string, url: string)

  /** The decoded item JSON: `null`, or an object whose fields are text. */
  datatype Payload = Null | Object(fields: map<string, string>)

  /** The item request: it failed (a transport or HTTP error), or it returned a payload. */
  datatype ItemResponse = ItemFailed | ItemFetched(payload: Payload)

  /** The title used when the item has none. */
  const NoTitle: string := "无标题"

  /** Python truthiness of the payload: `null` and `{}` are false. */
  predicate Truthy(p: Payload) {
    p.Object? && |p.fields| > 0
  }

  /** `dict.get(key, default)`. */
  function Get(fields: map<string, string>, key: string, default: string): string {
    if key in fields then fields[key] else default
  }

  /** `get_story_details`: a record exists exactly for a fetched item whose
      payload has a `url`; non-emptiness is implied by that key. */
  function StoryDetails(id: string, resp: ItemResponse): (r: Option<StoryRecord>)
    ensures r.Some? <==> resp.ItemFetched? && resp.payload.Object? && "url" in resp.payload.fields
    ensures r.Some? ==> r.value.id == id && r.value.url == resp.payload.fields["url"]
    ensures r.Some? && "title" in resp.payload.fields ==> r.value.title == resp.payload.fields["title"]
    ensures r.Some? && "title" !in resp.payload.fields ==> r.value.title == NoTitle
  {
    if resp.ItemFetched? && Truthy(resp.payload) && "url" in resp.payload.fields then
      var fields := resp.payload.fields;
      Some(StoryRecord(id, Get(fields, "title", NoTitle), fields["url"]))
    else
      None
  }
}
