/** The mode-distribution chart: records sorted by time, grouped into one
    bucket per date label with a counter per mode, the tallest total, and the
    bar heights. The date label (`toLocaleDateString`) is a parameter. */
module Statistics {
  import opened Outcomes
  import opened Records

  // Sorting

  predicate SortedByTime(rs: seq<FieldRecord>)
  {
    forall i, j :: 0 <= i < j < |rs| ==> rs[i].timestamp <= rs[j].timestamp
  }

  /** Put `r` after every record that is not later than it. */
  function InsertByTime(sorted: seq<FieldRecord>, r: FieldRecord): (s: seq<FieldRecord>)
    requires SortedByTime(sorted)
    ensures |s| == |sorted| + 1
    ensures SortedByTime(s)
    ensures multiset(s) == multiset(sorted) + multiset{r}
  {
    if |sorted| == 0 then [r]
    else if sorted[|sorted| - 1].timestamp <= r.timestamp then sorted + [r]
    else
      var init := sorted[..|sorted| - 1];
      var last := sorted[|sorted| - 1];
      assert sorted == init + [last];
      var ins := InsertByTime(init, r);
      NoLaterThan(init, r, ins, last);
      SortedAppend(ins, last);
      ins + [last]
  }

  /** A permutation of `init` and `r` has nothing later than a bound of both. */
  lemma NoLaterThan(init: seq<FieldRecord>, r: FieldRecord, ins: seq<FieldRecord>, x: FieldRecord)
    requires multiset(ins) == multiset(init) + multiset{r}
    requires forall k :: 0 <= k < |init| ==> init[k].timestamp <= x.timestamp
    requires r.timestamp <= x.timestamp
    ensures forall k :: 0 <= k < |ins| ==> ins[k].timestamp <= x.timestamp
  {
    forall k | 0 <= k < |ins|
      ensures ins[k].timestamp <= x.timestamp
    {
      assert ins[k] in multiset(ins);
      if ins[k] != r {
        assert ins[k] in init;
      }
    }
  }

  lemma SortedAppend(s: seq<FieldRecord>, x: FieldRecord)
    requires SortedByTime(s)
    requires forall k :: 0 <= k < |s| ==> s[k].timestamp <= x.timestamp
    ensures SortedByTime(s + [x])
  {
  }

  /** `[...records].sort((a, b) => a.timestamp - b.timestamp)` as an insertion
      sort: a sorted permutation of the records. */
  function SortByTime(rs: seq<FieldRecord>): (s: seq<FieldRecord>)
    ensures |s| == |rs|
    ensures SortedByTime(s)
    ensures multiset(s) == multiset(rs)
  {
    if |rs| == 0 then []
    else
      var init := rs[..|rs| - 1];
      assert rs == init + [rs[|rs| - 1]];
      InsertByTime(SortByTime(init), rs[|rs| - 1])
  }

  // Grouping

  /** What grouping reads from a record: its date label and its mode, `None`
      for a mode string outside the three. */
  datatype Entry = Entry(date: string, mode: Option<AppMode>)

  function Entries(rs: seq<FieldRecord>, dateKey: int -> string): (es: seq<Entry>)
    ensures |es| == |rs|
    ensures forall k :: 0 <= k < |rs| ==> es[k] == Entry(dateKey(rs[k].timestamp), ParseMode(rs[k].mode))
  {
    seq(|rs|, k requires 0 <= k < |rs| => Entry(dateKey(rs[k].timestamp), ParseMode(rs[k].mode)))
  }

  /** One date's counters, in the order the chart stacks them. */
  datatype Bucket = Bucket(date: string, teaching: nat, professional: nat, exploration: nat)

  function Total(b: Bucket): nat
  {
    b.teaching + b.professional + b.exploration
  }

  /** `dataMap[date][record.mode]++`. A mode string outside the three opens a
      fourth key that no total reads, so it changes nothing here. */
  function Bump(b: Bucket, m: Option<AppMode>): (b': Bucket)
    ensures b'.date == b.date
    ensures Total(b') == Total(b) + (if m.Some? then 1 else 0)
  {
    match m
    case None => b
    case Some(Teaching) => b.(teaching := b.teaching + 1)
    case Some(Professional) => b.(professional := b.professional + 1)
    case Some(Exploration) => b.(exploration := b.exploration + 1)
  }

  /** `Object.keys(dataMap)`: the bucket dates in insertion order. */
  function Dates(bs: seq<Bucket>): (ds: seq<string>)
    ensures |ds| == |bs|
    ensures forall i :: 0 <= i < |bs| ==> ds[i] == bs[i].date
  {
    seq(|bs|, i requires 0 <= i < |bs| => bs[i].date)
  }

  function IndexOfDate(bs: seq<Bucket>, d: string): (k: Option<nat>)
    ensures k.Some? ==> k.value < |bs| && bs[k.value].date == d
    ensures k.None? <==> d !in Dates(bs)
  {
    if |bs| == 0 then None
    else if bs[|bs| - 1].date == d then Some(|bs| - 1)
    else
      assert Dates(bs) == Dates(bs[..|bs| - 1]) + [bs[|bs| - 1].date];
      IndexOfDate(bs[..|bs| - 1], d)
  }

  /** One entry into the map: a new date opens a bucket with all three
      counters at 0, then the entry's mode counter goes up. */
  function Tally(bs: seq<Bucket>, e: Entry): (bs': seq<Bucket>)
  {
    match IndexOfDate(bs, e.date)
    case Some(k) => bs[k := Bump(bs[k], e.mode)]
    case None => bs + [Bump(Bucket(e.date, 0, 0, 0), e.mode)]
  }

  /** The `forEach` over the entries, in their order. */
  function Group(es: seq<Entry>): (bs: seq<Bucket>)
  {
    if |es| == 0 then [] else Tally(Group(es[..|es| - 1]), es[|es| - 1])
  }

  // The reference definitions grouping is checked against

  /** The dates of the entries, in entry order. */
  function EntryDates(es: seq<Entry>): (ds: seq<string>)
    ensures |ds| == |es|
    ensures forall k :: 0 <= k < |es| ==> ds[k] == es[k].date
  {
    seq(|es|, k requires 0 <= k < |es| => es[k].date)
  }

  /** Each label once, in the order of its first appearance. */
  function Firsts(ds: seq<string>): (fs: seq<string>)
  {
    if |ds| == 0 then []
    else if ds[|ds| - 1] in Firsts(ds[..|ds| - 1]) then Firsts(ds[..|ds| - 1])
    else Firsts(ds[..|ds| - 1]) + [ds[|ds| - 1]]
  }

  /** The first-appearance list holds every label once and nothing else. */
  lemma {:induction false} FirstsSpec(ds: seq<string>)
    ensures forall d :: d in Firsts(ds) <==> d in ds
    ensures forall i, j :: 0 <= i < j < |Firsts(ds)| ==> Firsts(ds)[i] != Firsts(ds)[j]
    decreases |ds|
  {
    if |ds| != 0 {
      var init := ds[..|ds| - 1];
      FirstsSpec(init);
      assert ds == init + [ds[|ds| - 1]];
    }
  }

  /** How many entries have date `d` and mode `m`. */
  function Count(es: seq<Entry>, d: string, m: AppMode): nat
  {
    if |es| == 0 then 0
    else Count(es[..|es| - 1], d, m) + (if es[|es| - 1] == Entry(d, Some(m)) then 1 else 0)
  }

  /** The bucket for `d` counted directly from the entries. */
  function BucketOf(es: seq<Entry>, d: string): Bucket
  {
    Bucket(d, Count(es, d, Teaching), Count(es, d, Professional), Count(es, d, Exploration))
  }

  lemma {:induction false} CountAbsent(es: seq<Entry>, d: string, m: AppMode)
    requires d !in EntryDates(es)
    ensures Count(es, d, m) == 0
    decreases |es|
  {
    if |es| != 0 {
      assert EntryDates(es) == EntryDates(es[..|es| - 1]) + [es[|es| - 1].date];
      CountAbsent(es[..|es| - 1], d, m);
    }
  }

  /** Every bucket holds the direct counts of its date. */
  predicate Counted(bs: seq<Bucket>, es: seq<Entry>)
  {
    forall i :: 0 <= i < |bs| ==> bs[i] == BucketOf(es, bs[i].date)
  }

  /** The buckets come in the order of their dates' first entries, one per
      date that occurs, each holding that date's counts. */
  lemma {:induction false} GroupSpec(es: seq<Entry>)
    ensures Dates(Group(es)) == Firsts(EntryDates(es))
    ensures Counted(Group(es), es)
    decreases |es|
  {
    if |es| != 0 {
      var init := es[..|es| - 1];
      var e := es[|es| - 1];
      GroupSpec(init);
      var bs := Group(init);
      assert EntryDates(es) == EntryDates(init) + [e.date];
      assert EntryDates(es)[..|es| - 1] == EntryDates(init);
      FirstsSpec(EntryDates(init));
      assert forall i, j :: 0 <= i < j < |bs| ==> Dates(bs)[i] != Dates(bs)[j];
      match IndexOfDate(bs, e.date)
      case Some(p) =>
        TallyFound(bs, es, p);
      case None =>
        CountAbsent(init, e.date, Teaching);
        CountAbsent(init, e.date, Professional);
        CountAbsent(init, e.date, Exploration);
        TallyNew(bs, es);
    }
  }

  lemma TallyFound(bs: seq<Bucket>, es: seq<Entry>, p: nat)
    requires 0 < |es| && Counted(bs, es[..|es| - 1])
    requires p < |bs| && bs[p].date == es[|es| - 1].date
    requires forall i :: 0 <= i < |bs| && i != p ==> bs[i].date != bs[p].date
    ensures Dates(bs[p := Bump(bs[p], es[|es| - 1].mode)]) == Dates(bs)
    ensures Counted(bs[p := Bump(bs[p], es[|es| - 1].mode)], es)
  {
    var e := es[|es| - 1];
    var bs' := bs[p := Bump(bs[p], e.mode)];
    assert Dates(bs') == Dates(bs);
    forall i | 0 <= i < |bs'|
      ensures bs'[i] == BucketOf(es, bs'[i].date)
    {
      var d := bs'[i].date;
      assert Count(es, d, Teaching) == Count(es[..|es| - 1], d, Teaching) + (if e == Entry(d, Some(Teaching)) then 1 else 0);
      assert Count(es, d, Professional) == Count(es[..|es| - 1], d, Professional) + (if e == Entry(d, Some(Professional)) then 1 else 0);
      assert Count(es, d, Exploration) == Count(es[..|es| - 1], d, Exploration) + (if e == Entry(d, Some(Exploration)) then 1 else 0);
    }
  }

  lemma TallyNew(bs: seq<Bucket>, es: seq<Entry>)
    requires 0 < |es| && Counted(bs, es[..|es| - 1])
    requires forall i :: 0 <= i < |bs| ==> bs[i].date != es[|es| - 1].date
    requires var d := es[|es| - 1].date;
      && Count(es[..|es| - 1], d, Teaching) == 0
      && Count(es[..|es| - 1], d, Professional) == 0
      && Count(es[..|es| - 1], d, Exploration) == 0
    ensures var e := es[|es| - 1];
      Counted(bs + [Bump(Bucket(e.date, 0, 0, 0), e.mode)], es)
  {
    var e := es[|es| - 1];
    var bs' := bs + [Bump(Bucket(e.date, 0, 0, 0), e.mode)];
    forall i | 0 <= i < |bs'|
      ensures bs'[i] == BucketOf(es, bs'[i].date)
    {
      var d := bs'[i].date;
      assert Count(es, d, Teaching) == Count(es[..|es| - 1], d, Teaching) + (if e == Entry(d, Some(Teaching)) then 1 else 0);
      assert Count(es, d, Professional) == Count(es[..|es| - 1], d, Professional) + (if e == Entry(d, Some(Professional)) then 1 else 0);
      assert Count(es, d, Exploration) == Count(es[..|es| - 1], d, Exploration) + (if e == Entry(d, Some(Exploration)) then 1 else 0);
    }
  }

  // Totals

  function SumTotals(bs: seq<Bucket>): nat
  {
    if |bs| == 0 then 0 else SumTotals(bs[..|bs| - 1]) + Total(bs[|bs| - 1])
  }

  lemma {:induction false} SumTotalsUpdate(bs: seq<Bucket>, p: nat, b: Bucket)
    requires p < |bs|
    ensures SumTotals(bs[p := b]) + Total(bs[p]) == SumTotals(bs) + Total(b)
    decreases |bs|
  {
    if p < |bs| - 1 {
      assert bs[p := b][..|bs| - 1] == bs[..|bs| - 1][p := b];
      SumTotalsUpdate(bs[..|bs| - 1], p, b);
    } else {
      assert bs[p := b][..|bs| - 1] == bs[..|bs| - 1];
    }
  }

  /** How many entries carry one of the three modes. */
  function ValidCount(es: seq<Entry>): (n: nat)
    ensures n <= |es|
  {
    if |es| == 0 then 0 else ValidCount(es[..|es| - 1]) + (if es[|es| - 1].mode.Some? then 1 else 0)
  }

  lemma {:induction false} ValidCountAll(es: seq<Entry>)
    requires forall k :: 0 <= k < |es| ==> es[k].mode.Some?
    ensures ValidCount(es) == |es|
    decreases |es|
  {
    if |es| != 0 {
      ValidCountAll(es[..|es| - 1]);
    }
  }

  /** Each entry with a valid mode adds exactly one to exactly one counter. */
  lemma {:induction false} GroupTotal(es: seq<Entry>)
    ensures SumTotals(Group(es)) == ValidCount(es)
    decreases |es|
  {
    if |es| != 0 {
      var init := es[..|es| - 1];
      var e := es[|es| - 1];
      GroupTotal(init);
      var bs := Group(init);
      match IndexOfDate(bs, e.date)
      case Some(p) =>
        SumTotalsUpdate(bs, p, Bump(bs[p], e.mode));
      case None =>
        var bs' := bs + [Bump(Bucket(e.date, 0, 0, 0), e.mode)];
        assert bs'[..|bs'| - 1] == bs;
    }
  }

  /** `Math.max(...totals, 1)`. */
  function MaxTotal(bs: seq<Bucket>): (m: nat)
    ensures 1 <= m
    ensures forall i :: 0 <= i < |bs| ==> Total(bs[i]) <= m
    ensures m == 1 || exists i :: 0 <= i < |bs| && Total(bs[i]) == m
  {
    if |bs| == 0 then 1
    else
      var m := MaxTotal(bs[..|bs| - 1]);
      assert forall i :: 0 <= i < |bs| - 1 ==> bs[..|bs| - 1][i] == bs[i];
      if Total(bs[|bs| - 1]) <= m then m else Total(bs[|bs| - 1])
  }

  /** A bar's height in percent: its count over the largest total. */
  function Height(count: nat, maxTotal: nat): (h: real)
    requires 1 <= maxTotal
    ensures 0.0 <= h
    ensures count <= maxTotal ==> h <= 100.0
  {
    (count as real / maxTotal as real) * 100.0
  }

  /** A bucket's three bars stay within the chart and stack to its total's
      share of the largest total. */
  lemma BarHeights(b: Bucket, maxTotal: nat)
    requires 1 <= maxTotal && Total(b) <= maxTotal
    ensures Height(b.exploration, maxTotal) <= 100.0
    ensures Height(b.professional, maxTotal) <= 100.0
    ensures Height(b.teaching, maxTotal) <= 100.0
    ensures Height(b.exploration, maxTotal) + Height(b.professional, maxTotal) + Height(b.teaching, maxTotal)
            == Height(Total(b), maxTotal)
    ensures Height(Total(b), maxTotal) <= 100.0
  {
    var t := maxTotal as real;
    assert b.exploration as real / t + b.professional as real / t + b.teaching as real / t
        == Total(b) as real / t;
  }

  // The chart

  datatype Chart = Chart(buckets: seq<Bucket>, maxTotal: nat)

  /** `FieldStatistics`: nothing for an empty list, otherwise the grouped
      buckets of the time-sorted records and their largest total. */
  function FieldStatistics(rs: seq<FieldRecord>, dateKey: int -> string): (c: Option<Chart>)
    ensures c.None? <==> |rs| == 0
    ensures c.Some? ==> c.value.maxTotal == MaxTotal(c.value.buckets)
  {
    if |rs| == 0 then None
    else
      var bs := Group(Entries(SortByTime(rs), dateKey));
      Some(Chart(bs, MaxTotal(bs)))
  }

  /** A non-empty list gives at least one date, so the chart's "insufficient
      data" branch is never taken; the buckets follow first appearance in the
      time-sorted list, hold the direct counts and, when every mode is one of
      the three, their totals add up to the number of records. */
  lemma ChartSpec(rs: seq<FieldRecord>, dateKey: int -> string)
    requires 0 < |rs|
    ensures var c := FieldStatistics(rs, dateKey).value;
      var es := Entries(SortByTime(rs), dateKey);
      && 0 < |c.buckets|
      && Dates(c.buckets) == Firsts(EntryDates(es))
      && Counted(c.buckets, es)
      && SumTotals(c.buckets) == ValidCount(es)
      && ((forall k :: 0 <= k < |rs| ==> ParseMode(rs[k].mode).Some?) ==> SumTotals(c.buckets) == |rs|)
  {
    var sorted := SortByTime(rs);
    var es := Entries(sorted, dateKey);
    GroupSpec(es);
    GroupTotal(es);
    FirstsSpec(EntryDates(es));
    assert EntryDates(es)[0] in EntryDates(es);
    if forall k :: 0 <= k < |rs| ==> ParseMode(rs[k].mode).Some? {
      forall k | 0 <= k < |es|
        ensures es[k].mode.Some?
      {
        assert sorted[k] in multiset(rs);
      }
      ValidCountAll(es);
    }
  }
}
