/** The dedup store: the processed-ID file, read as a set, appended to one
    line at a time, and pruned to its last lines when it grows too long. */
module DedupStore {
  import opened Wrappers
  import opened Seqs
  import opened Text

  /** The processed-ID file: `None` when it does not exist, otherwise its lines
      as `readlines` returns them, each still ending in its newline. */
  type LogFile = Option<seq<string>>

  /** Every line of an existing file ends in its newline. The program only ever
      writes whole lines, so a file it created stays this way; a hand-edited
      file whose last line lacks the newline would have the next id appended
      to that line instead of on a line of its own. */
  ghost predicate Terminated(f: LogFile) {
    f.Some? ==> forall k :: 0 <= k < |f.value| ==> EndsInNewline(f.value[k])
  }

  ghost predicate EndsInNewline(line: string) {
    |line| > 0 && line[|line| - 1] == '\n'
  }

  /** The set of stripped lines, one `line.strip()` per line. */
  function StrippedLines(lines: seq<string>): set<string> {
    if lines == [] then {}
    else StrippedLines(lines[..|lines| - 1]) + {Strip(lines[|lines| - 1])}
  }

  /** `get_processed_ids`: the set of stripped lines; a missing file gives no ids. */
  function Load(f: LogFile): set<string> {
    match f
    case None => {}
    case Some(lines) => StrippedLines(lines)
  }

  /** An id is loaded exactly when some line strips to it. */
  lemma {:induction false} LoadMembers(lines: seq<string>, id: string)
    ensures id in Load(Some(lines)) <==> exists k :: 0 <= k < |lines| && Strip(lines[k]) == id
  {
    if lines != [] {
      var init := lines[..|lines| - 1];
      LoadMembers(init, id);
      assert Load(Some(lines)) == Load(Some(init)) + {Strip(lines[|lines| - 1])};
      if id in Load(Some(lines)) {
        if id in Load(Some(init)) {
          var k :| 0 <= k < |init| && Strip(init[k]) == id;
          assert lines[k] == init[k];
        } else {
          assert Strip(lines[|lines| - 1]) == id;
        }
      } else {
        forall k | 0 <= k < |lines|
          ensures Strip(lines[k]) != id
        {
          if k < |init| {
            assert lines[k] == init[k];
          }
        }
      }
    }
  }

  /** `add_processed_id`: opening in append mode creates a missing file, then one line is added. */
  function Record(f: LogFile, id: string): LogFile {
    Some(f.GetOr([]) + [id + "\n"])
  }

  /** `add_processed_id` called once per id, in order. */
  function RecordAll(f: LogFile, ids: seq<string>): (g: LogFile)
    ensures ids == [] ==> g == f
    ensures ids != [] ==> g.Some? && |g.value| == |f.GetOr([])| + |ids|
    ensures ids != [] ==> g.value[..|f.GetOr([])|] == f.GetOr([])
    ensures ids != [] ==> forall k :: 0 <= k < |ids| ==> g.value[|f.GetOr([])| + k] == ids[k] + "\n"
  {
    if ids == [] then f
    else Record(RecordAll(f, ids[..|ids| - 1]), ids[|ids| - 1])
  }

  /** `prune_processed_ids`: a file of more than `cap` lines is rewritten to its
      last `cap` lines; a shorter or missing file is left alone. */
  function Prune(f: LogFile, cap: nat): (g: LogFile)
    requires cap > 0
    ensures g.None? <==> f.None?
    ensures g.Some? ==> |g.value| == Min(|f.value|, cap)
    ensures g.Some? ==> g.value == f.value[|f.value| - |g.value|..]
  {
    match f
    case None => None
    case Some(lines) =>
      if |lines| > cap then Some(Last(lines, cap)) else f
  }

  /** Loading after recording `id` gives the ids loaded before, plus `id` as stripped. */
  lemma LoadAfterRecord(f: LogFile, id: string)
    requires Terminated(f)
    ensures Load(Record(f, id)) == Load(f) + {Strip(id)}
  {
    StripDropsNewline(id);
    var lines := f.GetOr([]);
    assert Load(f) == StrippedLines(lines);
    assert (lines + [id + "\n"])[..|lines|] == lines;
    assert Load(Record(f, id)) == StrippedLines(lines) + {Strip(id + "\n")};
  }

  /** Ids that are already stripped (the decimal story ids) load back exactly as recorded. */
  lemma {:induction false} LoadAfterRecordAll(f: LogFile, ids: seq<string>)
    requires Terminated(f)
    requires forall k :: 0 <= k < |ids| ==> Strip(ids[k]) == ids[k]
    ensures Load(RecordAll(f, ids)) == Load(f) + Elements(ids)
  {
    if ids == [] {
      assert Elements(ids) == {};
    } else {
      var init := ids[..|ids| - 1];
      var last := ids[|ids| - 1];
      assert ids == init + [last];
      var g := RecordAll(f, init);
      assert RecordAll(f, ids) == Record(g, last);
      LoadAfterRecordAll(f, init);
      RecordAllKeepsTerminated(f, init);
      LoadAfterRecord(g, last);
      assert Load(RecordAll(f, ids)) == Load(g) + {last};
      ElementsOfSnoc(init, last);
    }
  }

  /** Appending a line keeps a terminated file terminated, and creates a terminated one. */
  lemma RecordKeepsTerminated(f: LogFile, id: string)
    requires Terminated(f)
    ensures Terminated(Record(f, id))
  {
  }

  /** Appending any number of ids keeps a terminated file terminated. */
  lemma {:induction false} RecordAllKeepsTerminated(f: LogFile, ids: seq<string>)
    requires Terminated(f)
    ensures Terminated(RecordAll(f, ids))
  {
    if ids != [] {
      RecordAllKeepsTerminated(f, ids[..|ids| - 1]);
      RecordKeepsTerminated(RecordAll(f, ids[..|ids| - 1]), ids[|ids| - 1]);
    }
  }

  /** Pruning keeps whole lines, so a terminated file stays terminated. */
  lemma PruneKeepsTerminated(f: LogFile, cap: nat)
    requires cap > 0
    requires Terminated(f)
    ensures Terminated(Prune(f, cap))
  {
  }

  /** Pruning twice is pruning once. */
  lemma PruneIdempotent(f: LogFile, cap: nat)
    requires cap > 0
    ensures Prune(Prune(f, cap), cap) == Prune(f, cap)
  {
  }

  /** Pruning only forgets: every id it keeps was loaded before. */
  lemma PruneOnlyForgets(f: LogFile, cap: nat)
    requires cap > 0
    ensures Load(Prune(f, cap)) <= Load(f)
  {
    if f.Some? {
      var lines := f.value;
      var kept := Prune(f, cap).value;
      forall id | id in Load(Prune(f, cap))
        ensures id in Load(f)
      {
        LoadMembers(kept, id);
        var k :| 0 <= k < |kept| && Strip(kept[k]) == id;
        assert kept[k] == lines[|lines| - |kept| + k];
        LoadMembers(lines, id);
      }
    }
  }

  /** The last `cap` recorded ids survive the prune that follows them. */
  lemma RecentSurvivePrune(f: LogFile, ids: seq<string>, cap: nat)
    requires Terminated(f)
    requires cap > 0
    requires |ids| <= cap
    requires forall k :: 0 <= k < |ids| ==> Strip(ids[k]) == ids[k]
    ensures Elements(ids) <= Load(Prune(RecordAll(f, ids), cap))
  {
    forall id | id in Elements(ids)
      ensures id in Load(Prune(RecordAll(f, ids), cap))
    {
      var k :| 0 <= k < |ids| && ids[k] == id;
      RecordedSurvives(f, ids, cap, k);
    }
  }

  /** One recorded id, among the last `cap` recorded, survives the prune. */
  lemma RecordedSurvives(f: LogFile, ids: seq<string>, cap: nat, k: nat)
    requires cap > 0 && |ids| <= cap && k < |ids|
    requires Strip(ids[k]) == ids[k]
    ensures ids[k] in Load(Prune(RecordAll(f, ids), cap))
  {
    var g := RecordAll(f, ids);
    var kept := Prune(g, cap).value;
    RecordedTail(f, ids, k);
    PruneKeepsTail(g, cap, |ids|);
    assert kept[|kept| - |ids| + k] == ids[k] + "\n";
    LineLoads(kept, |kept| - |ids| + k, ids[k]);
  }

  /** The k-th of the ids just recorded sits k lines into the file's last `|ids|` lines. */
  lemma RecordedTail(f: LogFile, ids: seq<string>, k: nat)
    requires k < |ids|
    ensures |RecordAll(f, ids).value| >= |ids|
    ensures RecordAll(f, ids).value[|RecordAll(f, ids).value| - |ids| + k] == ids[k] + "\n"
  {
  }

  /** A prune to `cap` lines keeps the last `n <= cap` lines unchanged. */
  lemma PruneKeepsTail(g: LogFile, cap: nat, n: nat)
    requires cap > 0 && n <= cap
    requires g.Some? && n <= |g.value|
    ensures |Prune(g, cap).value| >= n
    ensures Prune(g, cap).value[|Prune(g, cap).value| - n..] == g.value[|g.value| - n..]
  {
  }

  /** A line holding a stripped id loads as that id. */
  lemma LineLoads(lines: seq<string>, j: nat, id: string)
    requires j < |lines| && lines[j] == id + "\n"
    requires Strip(id) == id
    ensures id in Load(Some(lines))
  {
    StripDropsNewline(id);
    LoadMembers(lines, id);
  }
}
