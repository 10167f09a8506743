/**
  The duration aggregator of the benchmark (src/durations.rs): per-format
  measurements, their sum over many trials, the "some time was spent" guard,
  the fastest format and the ordering step of the report.

  A duration is a whole number of nanoseconds and a source length a whole
  number of bytes; both are unbounded.
 */
module Durations {

  /** One format's measurement: its name, the time its decoder took and the
      length of the source it decoded. */
  datatype Entry = Entry(name: string, duration: nat, srcLen: nat)

  // ---------------------------------------------------------------------
  // Column sums over several samples (the specification of `sum`).
  // ---------------------------------------------------------------------

  /** Entry `i` of one sample, if it has one: its duration, else 0. */
  function DurationAt(sample: seq<Entry>, i: nat): nat
  {
    if i < |sample| then sample[i].duration else 0
  }

  /** Entry `i` of one sample, if it has one: its source length, else 0. */
  function SrcLenAt(sample: seq<Entry>, i: nat): nat
  {
    if i < |sample| then sample[i].srcLen else 0
  }

  /** The sum over all samples of the duration of entry `i`. */
  ghost function ColumnDuration(samples: seq<seq<Entry>>, i: nat): nat
  {
    if samples == [] then 0
    else ColumnDuration(samples[..|samples| - 1], i) + DurationAt(samples[|samples| - 1], i)
  }

  /** The sum over all samples of the source length of entry `i`. */
  ghost function ColumnSrcLen(samples: seq<seq<Entry>>, i: nat): nat
  {
    if samples == [] then 0
    else ColumnSrcLen(samples[..|samples| - 1], i) + SrcLenAt(samples[|samples| - 1], i)
  }

  /** Column sums split at any sample: the total over `samples` is the total
      over a prefix plus the total over the rest. */
  lemma {:induction false} ColumnSplit(samples: seq<seq<Entry>>, n: nat, i: nat)
    requires n <= |samples|
    ensures ColumnDuration(samples, i)
      == ColumnDuration(samples[..n], i) + ColumnDuration(samples[n..], i)
    ensures ColumnSrcLen(samples, i)
      == ColumnSrcLen(samples[..n], i) + ColumnSrcLen(samples[n..], i)
    decreases |samples|
  {
    if n < |samples| {
      var init := samples[..|samples| - 1];
      ColumnSplit(init, n, i);
      assert init[..n] == samples[..n];
      assert samples[n..][..|samples[n..]| - 1] == init[n..];
    } else {
      assert samples[..n] == samples;
    }
  }

  /** A single sample's column total is its own entry. */
  lemma ColumnSingle(sample: seq<Entry>, i: nat)
    requires i < |sample|
    ensures ColumnDuration([sample], i) == sample[i].duration
    ensures ColumnSrcLen([sample], i) == sample[i].srcLen
  {
    assert [sample][..0] == [];
  }

  /** A column total is the first sample's entry plus the total over the
      later samples, the order in which `sum` adds them. */
  lemma ColumnFromFirst(samples: seq<seq<Entry>>, i: nat)
    requires samples != [] && i < |samples[0]|
    ensures ColumnDuration(samples, i) == samples[0][i].duration + ColumnDuration(samples[1..], i)
    ensures ColumnSrcLen(samples, i) == samples[0][i].srcLen + ColumnSrcLen(samples[1..], i)
  {
    ColumnSingle(samples[0], i);
    ColumnSplit(samples, 1, i);
    assert samples[..1] == [samples[0]];
  }

  // ---------------------------------------------------------------------
  // The fold of `check`.
  // ---------------------------------------------------------------------

  /** The sum of all durations, folded from the first entry. */
  function TotalDuration(entries: seq<Entry>): (total: nat)
    ensures forall i :: 0 <= i < |entries| ==> entries[i].duration <= total
  {
    if entries == [] then 0
    else
      var init := entries[..|entries| - 1];
      assert forall i :: 0 <= i < |init| ==> init[i] == entries[i];
      TotalDuration(init) + entries[|entries| - 1].duration
  }

  /** Durations are never negative, so the total is positive exactly when
      some entry's duration is. */
  lemma {:induction false} TotalDurationPositive(entries: seq<Entry>)
    ensures TotalDuration(entries) > 0
      <==> exists i :: 0 <= i < |entries| && entries[i].duration > 0
  {
    if entries != [] {
      var init := entries[..|entries| - 1];
      TotalDurationPositive(init);
      if exists i :: 0 <= i < |init| && init[i].duration > 0 {
        var i :| 0 <= i < |init| && init[i].duration > 0;
        assert entries[i] == init[i];
      }
      if exists i :: 0 <= i < |entries| && entries[i].duration > 0 {
        var i :| 0 <= i < |entries| && entries[i].duration > 0;
        if i < |init| { assert init[i] == entries[i]; }
      }
    }
  }

  // ---------------------------------------------------------------------
  // Searches.
  // ---------------------------------------------------------------------

  /** The index `min_by_key` lands on: a left fold that replaces the current
      minimum only by a strictly smaller duration, so ties go to the first. */
  function FirstFastest(entries: seq<Entry>): (k: nat)
    requires entries != []
    ensures k < |entries|
    ensures forall j :: 0 <= j < |entries| ==> entries[k].duration <= entries[j].duration
    ensures forall j :: 0 <= j < k ==> entries[j].duration > entries[k].duration
  {
    if |entries| == 1 then 0
    else
      var k := FirstFastest(entries[..|entries| - 1]);
      if entries[|entries| - 1].duration < entries[k].duration then |entries| - 1 else k
  }

  /** The index `find` lands on: the first entry with the given name. */
  function FirstNamed(entries: seq<Entry>, name: string): (k: nat)
    requires exists i :: 0 <= i < |entries| && entries[i].name == name
    ensures k < |entries| && entries[k].name == name
    ensures forall j :: 0 <= j < k ==> entries[j].name != name
  {
    if entries[0].name == name then 0
    else
      assert exists i :: 0 <= i < |entries[1..]| && entries[1..][i].name == name by {
        var i :| 0 <= i < |entries| && entries[i].name == name;
        assert entries[1..][i - 1] == entries[i];
      }
      1 + FirstNamed(entries[1..], name)
  }

  // ---------------------------------------------------------------------
  // The stable sort by duration of `print`.
  // ---------------------------------------------------------------------

  predicate SortedByDuration(entries: seq<Entry>)
  {
    forall i, j :: 0 <= i < j < |entries| ==> entries[i].duration <= entries[j].duration
  }

  /** The entries of duration `d`, in list order. */
  function WithDuration(entries: seq<Entry>, d: nat): seq<Entry>
  {
    if entries == [] then []
    else (if entries[0].duration == d then [entries[0]] else []) + WithDuration(entries[1..], d)
  }

  /** Inserts `e` before the first entry that is not faster than it. */
  function InsertByDuration(e: Entry, sorted: seq<Entry>): seq<Entry>
  {
    if sorted == [] || e.duration <= sorted[0].duration then [e] + sorted
    else [sorted[0]] + InsertByDuration(e, sorted[1..])
  }

  /** A stable sort by duration (insertion sort), the reference for `sort_by_key`:
      it yields a permutation of its input in non-decreasing duration order. */
  function SortByDuration(entries: seq<Entry>): (r: seq<Entry>)
    ensures SortedByDuration(r)
    ensures multiset(r) == multiset(entries)
    ensures |r| == |entries|
  {
    if entries == [] then []
    else
      var rest := SortByDuration(entries[1..]);
      InsertKeepsSorted(entries[0], rest);
      InsertPermutes(entries[0], rest);
      InsertLength(entries[0], rest);
      assert entries == [entries[0]] + entries[1..];
      InsertByDuration(entries[0], rest)
  }

  lemma {:induction false} InsertPermutes(e: Entry, sorted: seq<Entry>)
    ensures multiset(InsertByDuration(e, sorted)) == multiset(sorted) + multiset{e}
    decreases |sorted|
  {
    if sorted != [] && e.duration > sorted[0].duration {
      InsertPermutes(e, sorted[1..]);
      assert sorted == [sorted[0]] + sorted[1..];
    }
  }

  /** Inserting keeps a lower bound that `e` and every entry of the list respect. */
  lemma {:induction false} InsertKeepsLowerBound(e: Entry, sorted: seq<Entry>, lo: nat)
    requires lo <= e.duration
    requires forall k :: 0 <= k < |sorted| ==> lo <= sorted[k].duration
    ensures forall j :: 0 <= j < |InsertByDuration(e, sorted)| ==> lo <= InsertByDuration(e, sorted)[j].duration
    decreases |sorted|
  {
    var ins := InsertByDuration(e, sorted);
    if sorted == [] || e.duration <= sorted[0].duration {
      forall j | 0 <= j < |ins| ensures lo <= ins[j].duration {
        if j > 0 { assert ins[j] == sorted[j - 1]; }
      }
    } else {
      var rest := sorted[1..];
      InsertKeepsLowerBound(e, rest, lo);
      var tail := InsertByDuration(e, rest);
      forall j | 0 <= j < |ins| ensures lo <= ins[j].duration {
        if j > 0 { assert ins[j] == tail[j - 1]; }
      }
    }
  }

  lemma {:induction false} InsertLength(e: Entry, sorted: seq<Entry>)
    ensures |InsertByDuration(e, sorted)| == |sorted| + 1
    decreases |sorted|
  {
    if sorted != [] && e.duration > sorted[0].duration {
      InsertLength(e, sorted[1..]);
    }
  }

  lemma {:induction false} InsertKeepsSorted(e: Entry, sorted: seq<Entry>)
    requires SortedByDuration(sorted)
    ensures SortedByDuration(InsertByDuration(e, sorted))
    decreases |sorted|
  {
    if sorted != [] && e.duration > sorted[0].duration {
      var rest := sorted[1..];
      InsertKeepsSorted(e, rest);
      InsertKeepsLowerBound(e, rest, sorted[0].duration);
      var ins := InsertByDuration(e, rest);
      var r := [sorted[0]] + ins;
      forall i, j | 0 <= i < j < |r| ensures r[i].duration <= r[j].duration {
        assert r[j] == ins[j - 1];
        if i > 0 { assert r[i] == ins[i - 1]; }
      }
    }
  }

  lemma WithDurationCons(x: Entry, s: seq<Entry>, d: nat)
    ensures WithDuration([x] + s, d) == (if x.duration == d then [x] else []) + WithDuration(s, d)
  {
    assert ([x] + s)[1..] == s;
  }

  lemma {:induction false} InsertKeepsOrderOfEquals(e: Entry, sorted: seq<Entry>, d: nat)
    ensures WithDuration(InsertByDuration(e, sorted), d)
      == (if e.duration == d then [e] else []) + WithDuration(sorted, d)
    decreases |sorted|
  {
    if sorted == [] || e.duration <= sorted[0].duration {
      WithDurationCons(e, sorted, d);
    } else {
      var rest := sorted[1..];
      InsertKeepsOrderOfEquals(e, rest, d);
      WithDurationCons(sorted[0], InsertByDuration(e, rest), d);
      WithDurationCons(sorted[0], rest, d);
      assert sorted == [sorted[0]] + rest;
    }
  }

  /** The sort is stable: the entries of each duration keep their relative order. */
  lemma {:induction false} SortIsStable(entries: seq<Entry>, d: nat)
    ensures WithDuration(SortByDuration(entries), d) == WithDuration(entries, d)
    decreases |entries|
  {
    if entries != [] {
      SortIsStable(entries[1..], d);
      InsertKeepsOrderOfEquals(entries[0], SortByDuration(entries[1..]), d);
    }
  }

  /** The first entry of duration `d` heads the entries of that duration. */
  lemma {:induction false} WithDurationHead(entries: seq<Entry>, k: nat, d: nat)
    requires k < |entries| && entries[k].duration == d
    requires forall j :: 0 <= j < k ==> entries[j].duration != d
    ensures WithDuration(entries, d) != [] && WithDuration(entries, d)[0] == entries[k]
    decreases k
  {
    if k > 0 {
      WithDurationHead(entries[1..], k - 1, d);
    }
  }

  /** On a sorted list the fastest entry is the first one. */
  lemma SortedFastestIsFirst(entries: seq<Entry>)
    requires entries != [] && SortedByDuration(entries)
    ensures FirstFastest(entries) == 0
  {
  }

  /** Sorting does not change which entry is the fastest: the first of the
      fastest ones comes first after the stable sort. */
  lemma {:induction false} SortKeepsFastest(entries: seq<Entry>)
    requires entries != []
    ensures SortByDuration(entries) != []
    ensures SortByDuration(entries)[FirstFastest(SortByDuration(entries))]
      == entries[FirstFastest(entries)]
  {
    var sorted := SortByDuration(entries);
    var k := FirstFastest(entries);
    var m := entries[k].duration;
    assert sorted[0] in multiset(entries) by { assert sorted[0] in multiset(sorted); }
    var j :| 0 <= j < |entries| && entries[j] == sorted[0];
    assert entries[k] in multiset(sorted) by { assert entries[k] in multiset(entries); }
    var l :| 0 <= l < |sorted| && sorted[l] == entries[k];
    assert sorted[0].duration == m;
    SortedFastestIsFirst(sorted);
    WithDurationHead(entries, k, m);
    WithDurationHead(sorted, 0, m);
    SortIsStable(entries, m);
  }

  // ---------------------------------------------------------------------
  // The aggregator object.
  // ---------------------------------------------------------------------

  class Durations {
    var entries: seq<Entry>
    var samplesCount: nat

    /** `Durations::default()`: no entries, one sample. */
    constructor ()
      ensures entries == [] && samplesCount == 1
    {
      entries := [];
      samplesCount := 1;
    }

    /** `add`: appends one measurement; the elapsed time is passed in. */
    method Add(name: string, duration: nat, srcLen: nat)
      modifies this
      ensures entries == old(entries) + [Entry(name, duration, srcLen)]
      ensures samplesCount == old(samplesCount)
    {
      entries := entries + [Entry(name, duration, srcLen)];
    }

    /** `get`: the first entry with the given name (the source panics when
        there is none). */
    function Get(name: string): (e: Entry)
      reads this
      requires exists i :: 0 <= i < |entries| && entries[i].name == name
      ensures e.name == name
      ensures exists k :: (0 <= k < |entries| && entries[k] == e
        && forall j :: 0 <= j < k ==> entries[j].name != name)
    {
      entries[FirstNamed(entries, name)]
    }

    /** `check`: passes exactly when the durations do not all sum to zero,
        that is when some entry took time. */
    function Check(): (passes: bool)
      reads this
      ensures passes <==> exists i :: 0 <= i < |entries| && entries[i].duration > 0
    {
      TotalDurationPositive(entries);
      TotalDuration(entries) > 0
    }

    /** `fastest`: an entry of least duration, the first such in list order
        (the source panics on an empty list). */
    function Fastest(): (e: Entry)
      reads this
      requires entries != []
      ensures exists k :: (0 <= k < |entries| && entries[k] == e
        && (forall j :: 0 <= j < |entries| ==> e.duration <= entries[j].duration)
        && forall j :: 0 <= j < k ==> entries[j].duration > e.duration)
    {
      entries[FirstFastest(entries)]
    }

    /** The first step of `print`: a stable sort of the entries by duration. */
    method SortEntries()
      modifies this
      ensures entries == SortByDuration(old(entries))
      ensures SortedByDuration(entries) && multiset(entries) == multiset(old(entries))
      ensures forall d: nat :: WithDuration(entries, d) == WithDuration(old(entries), d)
      ensures samplesCount == old(samplesCount)
      ensures entries != [] ==> Fastest() == entries[0] && Fastest() == old(Fastest())
    {
      ghost var before := entries;
      entries := SortByDuration(entries);
      forall d: nat ensures WithDuration(entries, d) == WithDuration(before, d) {
        SortIsStable(before, d);
      }
      if entries != [] {
        SortedFastestIsFirst(entries);
        SortKeepsFastest(before);
      }
    }

    /** `sum`: the default for no samples; otherwise a copy of the first
        sample whose durations and source lengths are totalled entry by entry
        over all samples, with `samplesCount` the number of samples. Names are
        taken from the first sample and never compared, as the source warns. */
    static method Sum(samples: seq<Durations>) returns (r: Durations)
      requires forall k :: 0 <= k < |samples| ==> |samples[0].entries| <= |samples[k].entries|
      ensures fresh(r)
      ensures samples == [] ==> r.entries == [] && r.samplesCount == 1
      ensures samples != [] ==> r.samplesCount == |samples| && |r.entries| == |samples[0].entries|
      ensures samples != [] ==> forall i :: 0 <= i < |r.entries| ==>
        && r.entries[i].name == samples[0].entries[i].name
        && r.entries[i].duration == ColumnDuration(Rows(samples), i)
        && r.entries[i].srcLen == ColumnSrcLen(Rows(samples), i)
    {
      if samples == [] {
        r := new Durations();
        return;
      }
      ghost var rows: seq<seq<Entry>> := Rows(samples);
      var sum := samples[0].entries;
      var idx := 0;
      while idx < |sum|
        invariant 0 <= idx <= |sum| == |rows[0]|
        invariant forall i :: 0 <= i < |sum| ==> sum[i].name == rows[0][i].name
        invariant forall i :: 0 <= i < idx ==>
          sum[i].duration == ColumnDuration(rows, i) && sum[i].srcLen == ColumnSrcLen(rows, i)
        invariant forall i :: idx <= i < |sum| ==> sum[i] == rows[0][i]
      {
        var entry := AddLaterSamples(samples, idx, sum[idx]);
        ColumnFromFirst(rows, idx);
        assert entry.duration == ColumnDuration(rows, idx) && entry.srcLen == ColumnSrcLen(rows, idx);
        sum := sum[idx := entry];
        idx := idx + 1;
      }
      r := new Durations();
      r.entries := sum;
      r.samplesCount := |samples|;
      assert Rows(samples) == rows;
    }

    /** The inner loop of `sum`: adds entry `idx` of every sample but the
        first to `entry0`. */
    static method AddLaterSamples(samples: seq<Durations>, idx: nat, entry0: Entry) returns (entry: Entry)
      requires samples != []
      requires forall k :: 0 <= k < |samples| ==> idx < |samples[k].entries|
      ensures entry.name == entry0.name
      ensures entry.duration == entry0.duration + ColumnDuration(Rows(samples)[1..], idx)
      ensures entry.srcLen == entry0.srcLen + ColumnSrcLen(Rows(samples)[1..], idx)
    {
      ghost var later := Rows(samples)[1..];
      assert later[..0] == [];
      entry := entry0;
      var k := 1;
      while k < |samples|
        invariant 1 <= k <= |samples|
        invariant entry.name == entry0.name
        invariant entry.duration == entry0.duration + ColumnDuration(later[..k - 1], idx)
        invariant entry.srcLen == entry0.srcLen + ColumnSrcLen(later[..k - 1], idx)
      {
        entry := entry.(duration := entry.duration + samples[k].entries[idx].duration,
                        srcLen := entry.srcLen + samples[k].entries[idx].srcLen);
        assert later[..k][..k - 1] == later[..k - 1];
        k := k + 1;
      }
      assert later[..k - 1] == later;
    }
  }

  /** The entry lists of the given samples, in order. */
  ghost function Rows(samples: seq<Durations>): (rows: seq<seq<Entry>>)
    reads samples
    ensures |rows| == |samples|
    ensures forall k :: 0 <= k < |samples| ==> rows[k] == samples[k].entries
  {
    seq(|samples|, k reads samples requires 0 <= k < |samples| => samples[k].entries)
  }
}
