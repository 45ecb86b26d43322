/**
 * The category breakdown of the statistics chart: per-category sums of one
 * transaction type for the shown month and the month before, sorted by the
 * shown month's sum, each bar coloured from a fixed palette; and the list of
 * one category's records, newest first.
 */
module StatsChart {
  import opened Wrappers
  import opened Seqs
  import opened Numerals
  import opened Ledger
  import opened CalendarKeys

  /** `t => t.category === category` */
  function InCategory(category: string): Transaction -> bool
  {
    (t: Transaction) => t.category == category
  }

  /** The total amount of the records in `category`, accumulated front to back. */
  function CategorySum(ts: seq<Transaction>, category: string): (sum: int)
    ensures NonNegativeAmounts(ts) ==> sum >= 0
  {
    if ts == [] then 0
    else
      var last := ts[|ts| - 1];
      assert NonNegativeAmounts(ts) ==> NonNegativeAmounts(ts[..|ts| - 1]) by {
        if NonNegativeAmounts(ts) {
          forall t | t in ts[..|ts| - 1] ensures t.amount >= 0 {
            var i :| 0 <= i < |ts| - 1 && ts[..|ts| - 1][i] == t;
            assert ts[i] == t;
          }
        }
      }
      CategorySum(ts[..|ts| - 1], category) + (if last.category == category then last.amount else 0)
  }

  /** The distinct categories in order of first appearance: the key order of the accumulator object. */
  function CategoriesInOrder(ts: seq<Transaction>): (cs: seq<string>)
    ensures forall k :: 0 <= k < |ts| ==> ts[k].category in cs
  {
    if ts == [] then []
    else
      var front := ts[..|ts| - 1];
      var cs := CategoriesInOrder(front);
      assert forall k :: 0 <= k < |front| ==> front[k] == ts[k];
      var c := ts[|ts| - 1].category;
      if c in cs then cs else cs + [c]
  }

  /** Each category is listed once: the accumulator has one key per category. */
  lemma {:induction false} CategoriesDistinct(ts: seq<Transaction>)
    ensures forall i, j :: 0 <= i < j < |CategoriesInOrder(ts)| ==> CategoriesInOrder(ts)[i] != CategoriesInOrder(ts)[j]
  {
    if ts != [] {
      var front := ts[..|ts| - 1];
      var last := ts[|ts| - 1];
      assert ts == front + [last];
      CategoriesDistinct(front);
      CategoriesInOrderSnoc(front, last);
      var cs := CategoriesInOrder(front);
      if last.category !in cs {
        var all := cs + [last.category];
        forall i, j | 0 <= i < j < |all|
          ensures all[i] != all[j]
        {
          if j == |cs| {
            assert all[i] == cs[i];
          } else {
            assert all[i] == cs[i] && all[j] == cs[j];
          }
        }
      }
    }
  }

  /** Only categories some record carries are listed. */
  lemma {:induction false} CategoriesFromRecords(ts: seq<Transaction>)
    ensures forall i :: 0 <= i < |CategoriesInOrder(ts)| ==>
              exists k :: 0 <= k < |ts| && ts[k].category == CategoriesInOrder(ts)[i]
  {
    if ts == [] {
      assert CategoriesInOrder(ts) == [];
    } else {
      var front := ts[..|ts| - 1];
      var last := ts[|ts| - 1];
      assert ts == front + [last];
      CategoriesFromRecords(front);
      CategoriesInOrderSnoc(front, last);
      var cs := CategoriesInOrder(front);
      var all := CategoriesInOrder(ts);
      forall i | 0 <= i < |all|
        ensures exists k :: 0 <= k < |ts| && ts[k].category == all[i]
      {
        var k := CategorySource(front, cs, i, last, all);
        assert ts[k].category == all[i];
      }
    }
  }

  /** The index of a record carrying category `i` of the list after one more record. */
  lemma CategorySource(front: seq<Transaction>, cs: seq<string>, i: nat, last: Transaction, all: seq<string>)
    returns (k: nat)
    requires cs == CategoriesInOrder(front)
    requires forall j :: 0 <= j < |cs| ==> exists k :: 0 <= k < |front| && front[k].category == cs[j]
    requires all == if last.category in cs then cs else cs + [last.category]
    requires i < |all|
    ensures k <= |front| && (front + [last])[k].category == all[i]
  {
    if i < |cs| {
      assert all[i] == cs[i];
      k :| 0 <= k < |front| && front[k].category == cs[i];
      assert (front + [last])[k] == front[k];
    } else {
      k := |front|;
    }
  }

  /** One more record adds its category at the end unless it was already there. */
  lemma CategoriesInOrderSnoc(s: seq<Transaction>, x: Transaction)
    ensures CategoriesInOrder(s + [x])
         == if x.category in CategoriesInOrder(s) then CategoriesInOrder(s) else CategoriesInOrder(s) + [x.category]
  {
    assert (s + [x])[..|s|] == s;
  }

  /** One more record adds its amount to its own category and to no other. */
  lemma CategorySumSnoc(s: seq<Transaction>, x: Transaction, category: string)
    ensures CategorySum(s + [x], category) == CategorySum(s, category) + (if x.category == category then x.amount else 0)
  {
    assert (s + [x])[..|s|] == s;
  }

  /** A category no record carries sums to 0. */
  lemma {:induction false} CategorySumAbsent(ts: seq<Transaction>, category: string)
    requires forall k :: 0 <= k < |ts| ==> ts[k].category != category
    ensures CategorySum(ts, category) == 0
  {
    if ts != [] {
      CategorySumAbsent(ts[..|ts| - 1], category);
    }
  }

  /** The per-category sum is the sum over the records the category filter keeps. */
  lemma {:induction false} CategorySumIsFilteredSum(ts: seq<Transaction>, category: string)
    ensures CategorySum(ts, category) == SumAmounts(Filter(ts, InCategory(category)))
  {
    if ts != [] {
      var front := ts[..|ts| - 1];
      var last := ts[|ts| - 1];
      assert ts == front + [last];
      CategorySumIsFilteredSum(front, category);
      FilterSnoc(front, last, InCategory(category));
      var tail := if last.category == category then [last] else [];
      SumAmountsConcat(Filter(front, InCategory(category)), tail);
      if last.category == category {
        assert SumAmounts(tail) == last.amount + SumAmounts(tail[1..]);
      }
    }
  }

  /** `sums` and its key order `order` are the accumulator after the records `seen`. */
  ghost predicate Accumulates(sums: map<string, int>, order: seq<string>, seen: seq<Transaction>)
  {
    && order == CategoriesInOrder(seen)
    && (forall c :: c in sums <==> c in order)
    && (forall c :: c in sums ==> sums[c] == CategorySum(seen, c))
  }

  /** One reduce step: the record's amount is added to its category's entry, created at 0 if missing. */
  lemma AccumulateStep(sums: map<string, int>, order: seq<string>, seen: seq<Transaction>, t: Transaction)
    requires Accumulates(sums, order, seen)
    ensures var prior := if t.category in sums then sums[t.category] else 0;
            Accumulates(sums[t.category := prior + t.amount],
                        if t.category in sums then order else order + [t.category],
                        seen + [t])
  {
    CategoriesInOrderSnoc(seen, t);
    if t.category !in sums {
      CategorySumAbsent(seen, t.category);
    }
    var prior := if t.category in sums then sums[t.category] else 0;
    var sums' := sums[t.category := prior + t.amount];
    forall c | c in sums'
      ensures sums'[c] == CategorySum(seen + [t], c)
    {
      CategorySumSnoc(seen, t, c);
    }
  }

  /**
   * `filtered.reduce((acc, t) => { acc[t.category] = (acc[t.category] || 0) + t.amount; ... }, {})`:
   * the accumulator object as a map plus its key order.
   */
  method SumByCategory(ts: seq<Transaction>) returns (sums: map<string, int>, order: seq<string>)
    ensures order == CategoriesInOrder(ts)
    ensures forall c :: c in sums <==> c in order
    ensures forall c :: c in sums ==> sums[c] == CategorySum(ts, c)
    ensures Accumulates(sums, order, ts)
  {
    sums := map[];
    order := [];
    for i := 0 to |ts|
      invariant Accumulates(sums, order, ts[..i])
    {
      var t := ts[i];
      ghost var seen := ts[..i];
      AccumulateStep(sums, order, seen, t);
      var prior := if t.category in sums then sums[t.category] else 0;
      order := if t.category in sums then order else order + [t.category];
      sums := sums[t.category := prior + t.amount];
      assert Accumulates(sums, order, seen + [t]);
      assert ts[..i + 1] == seen + [t];
    }
    assert ts[..|ts|] == ts;
  }

  /** `colorPalette` */
  const Palette: seq<string> := [
    "#4f46e5", "#ec4899", "#8b5cf6", "#06b6d4", "#10b981", "#f59e0b",
    "#ef4444", "#6366f1", "#14b8a6", "#f97316", "#a855f7", "#84cc16"
  ]

  /** One bar: a category with its sum this month and last month, and its colour. */
  datatype ChartEntry = ChartEntry(category: string, value: int, prevValue: int, color: string)

  function PairValue(p: (string, int)): int
  {
    p.1
  }

  /** `Object.entries(byCategory)`: each key with its sum, in key order. */
  function EntriesOf(order: seq<string>, sums: map<string, int>): seq<(string, int)>
    requires forall k :: 0 <= k < |order| ==> order[k] in sums
  {
    seq(|order|, k requires 0 <= k < |order| => (order[k], sums[order[k]]))
  }

  /**
   * `Object.entries(byCategory).sort(([, a], [, b]) => b - a)`: every key once,
   * largest sum first, and keys with equal sums in their first-appearance order.
   */
  function RankedEntries(order: seq<string>, sums: map<string, int>): (ranked: seq<(string, int)>)
    requires forall k :: 0 <= k < |order| ==> order[k] in sums
    ensures |ranked| == |order|
    ensures forall i, j :: 0 <= i < j < |ranked| ==> ranked[i].1 >= ranked[j].1
    ensures forall i :: 0 <= i < |ranked| ==> ranked[i].0 in order && ranked[i].1 == sums[ranked[i].0]
    ensures forall c :: c in order ==> exists i :: 0 <= i < |ranked| && ranked[i].0 == c
    ensures forall v :: Filter(ranked, KeyIs(PairValue, v)) == Filter(EntriesOf(order, sums), KeyIs(PairValue, v))
  {
    var pairs := EntriesOf(order, sums);
    var sorted := SortDesc(pairs, PairValue);
    SameElements(sorted, pairs);
    forall v ensures Filter(sorted, KeyIs(PairValue, v)) == Filter(pairs, KeyIs(PairValue, v)) {
      SortDescStable(pairs, PairValue, v);
    }
    forall c | c in order
      ensures exists i :: 0 <= i < |sorted| && sorted[i].0 == c
    {
      var k :| 0 <= k < |order| && order[k] == c;
      assert pairs[k] in sorted;
    }
    sorted
  }

  /**
   * What the chart shows for the records of one type: one entry per category of
   * the shown month (categories seen only in the previous month get none),
   * non-increasing in value, each with both months' sums and the palette colour
   * of its position.
   */
  ghost predicate IsChart(entries: seq<ChartEntry>, current: seq<Transaction>, previous: seq<Transaction>)
  {
    && |entries| == |CategoriesInOrder(current)|
    && (forall c :: c in CategoriesInOrder(current) ==> exists i :: 0 <= i < |entries| && entries[i].category == c)
    && (forall i :: 0 <= i < |entries| ==> entries[i].category in CategoriesInOrder(current))
    && (forall i, j :: 0 <= i < j < |entries| ==> entries[i].value >= entries[j].value)
    && (forall i :: 0 <= i < |entries| ==>
          entries[i].value == CategorySum(current, entries[i].category)
          && entries[i].prevValue == CategorySum(previous, entries[i].category)
          && entries[i].color == Palette[i % |Palette|])
  }

  /** `prevByCategory[label] || 0` */
  function SumOrZero(sums: map<string, int>, category: string): int
  {
    if category in sums then sums[category] else 0
  }

  /** Looking a category up in the accumulator gives its sum, 0 included when it is missing. */
  lemma SumOrZeroIsCategorySum(sums: map<string, int>, order: seq<string>, seen: seq<Transaction>, category: string)
    requires Accumulates(sums, order, seen)
    ensures SumOrZero(sums, category) == CategorySum(seen, category)
  {
    if category !in sums {
      CategorySumAbsent(seen, category);
    }
  }

  /** `sorted.map(...)`: each ranked pair with its previous-month value and the colour of its position. */
  function ChartEntries(ranked: seq<(string, int)>, prevSums: map<string, int>): (entries: seq<ChartEntry>)
    ensures |entries| == |ranked|
    ensures forall i :: 0 <= i < |ranked| ==>
              entries[i] == ChartEntry(ranked[i].0, ranked[i].1, SumOrZero(prevSums, ranked[i].0), Palette[i % |Palette|])
  {
    seq(|ranked|, i requires 0 <= i < |ranked| =>
      ChartEntry(ranked[i].0, ranked[i].1, SumOrZero(prevSums, ranked[i].0), Palette[i % |Palette|]))
  }

  /** The chart of already type-filtered records of the shown and the previous month. */
  method ChartOf(current: seq<Transaction>, previous: seq<Transaction>) returns (entries: seq<ChartEntry>)
    ensures IsChart(entries, current, previous)
  {
    var sums, order := SumByCategory(current);
    var prevSums, prevOrder := SumByCategory(previous);
    var ranked := RankedEntries(order, sums);
    entries := ChartEntries(ranked, prevSums);
    forall i | 0 <= i < |entries|
      ensures entries[i].category in order && entries[i].value == CategorySum(current, entries[i].category)
      ensures entries[i].prevValue == CategorySum(previous, entries[i].category)
    {
      assert entries[i].category == ranked[i].0 && entries[i].value == ranked[i].1;
      SumOrZeroIsCategorySum(prevSums, prevOrder, previous, entries[i].category);
    }
    forall c | c in order
      ensures exists i :: 0 <= i < |entries| && entries[i].category == c
    {
      var i :| 0 <= i < |ranked| && ranked[i].0 == c;
      assert entries[i].category == c;
    }
    forall i, j | 0 <= i < j < |entries|
      ensures entries[i].value >= entries[j].value
    {
      assert entries[i].value == ranked[i].1 && entries[j].value == ranked[j].1;
    }
  }

  /** The `useMemo` aggregation of the chart: only records of the viewed type count, in both months. */
  method BuildChart(transactions: seq<Transaction>, prevTransactions: seq<Transaction>, kind: TxType)
    returns (entries: seq<ChartEntry>)
    ensures IsChart(entries, Filter(transactions, OfKind(kind)), Filter(prevTransactions, OfKind(kind)))
  {
    var current := Filter(transactions, OfKind(kind));
    var previous := Filter(prevTransactions, OfKind(kind));
    entries := ChartOf(current, previous);
  }

  /** With records of the other type only, the chart has no bars, yet the no-data message is not shown. */
  lemma OtherTypeOnlyGivesNoBars(transactions: seq<Transaction>, kind: TxType)
    requires forall k :: 0 <= k < |transactions| ==> transactions[k].kind != kind
    ensures CategoriesInOrder(Filter(transactions, OfKind(kind))) == []
  {
    FilterKeepsNone(transactions, OfKind(kind));
  }

  /** The ordering key of `new Date(date).getTime()` for a `YYYY-MM-DD` date: later dates get larger keys. */
  function DateKey(date: string): (key: int)
    ensures key >= 0
  {
    if |date| == 10 && date[4] == '-' && date[7] == '-'
       && AllDigits(date[..4]) && AllDigits(date[5..7]) && AllDigits(date[8..])
    then DigitsValue(date[..4]) * 10000 + DigitsValue(date[5..7]) * 100 + DigitsValue(date[8..])
    else 0
  }

  /** The key of a `yyyy-MM-dd` date is the date read as the number yyyyMMdd. */
  lemma DateKeyOfDayKey(ym: YearMonth, day: nat)
    requires ValidMonth(ym) && 0 <= ym.year <= 9999 && 1 <= day <= 31
    ensures DateKey(DayKey(ym, day)) == ym.year * 10000 + ym.month * 100 + day
  {
    DayKeyShape(ym, day);
    PaddedValue(ym.year, 4);
    PaddedValue(ym.month, 2);
    PaddedValue(day, 2);
  }

  lemma DayKeyShape(ym: YearMonth, day: nat)
    requires ValidMonth(ym) && 0 <= ym.year <= 9999 && 1 <= day <= 31
    ensures var date := DayKey(ym, day);
            |date| == 10 && date[4] == '-' && date[7] == '-'
            && date[..4] == ZeroPad(NatToDigits(ym.year), 4)
            && date[5..7] == ZeroPad(NatToDigits(ym.month), 2)
            && date[8..] == ZeroPad(NatToDigits(day), 2)
  {
    var y := ZeroPad(NatToDigits(ym.year), 4);
    var m := ZeroPad(NatToDigits(ym.month), 2);
    var d := ZeroPad(NatToDigits(day), 2);
    NatToDigitsLength(day, 2);
    assert |MonthKey(ym)| == 7;
    var date := DayKey(ym, day);
    assert MonthKey(ym) == y + "-" + m;
    assert date == y + "-" + m + "-" + d;
  }

  /** A later calendar day has a larger key, so sorting by key in descending order lists the newest day first. */
  lemma {:induction false} LaterDayHasLargerKey(a: YearMonth, da: nat, b: YearMonth, db: nat)
    requires ValidMonth(a) && 0 <= a.year <= 9999 && 1 <= da <= 31
    requires ValidMonth(b) && 0 <= b.year <= 9999 && 1 <= db <= 31
    requires MonthIndex(a) < MonthIndex(b) || (a == b && da < db)
    ensures DateKey(DayKey(a, da)) < DateKey(DayKey(b, db))
  {
    var ka := a.year * 10000 + a.month * 100 + da;
    var kb := b.year * 10000 + b.month * 100 + db;
    assert ka < kb by {
      if a.year < b.year {
        assert a.year * 10000 + 10000 <= b.year * 10000;
      }
    }
    DateKeyOfDayKey(a, da);
    DateKeyOfDayKey(b, db);
  }

  function DateKeyOf(t: Transaction): int
  {
    DateKey(t.date)
  }

  /** `t => t.type === kind && t.category === category` */
  function OfKindInCategory(kind: TxType, category: string): Transaction -> bool
  {
    (t: Transaction) => t.kind == kind && t.category == category
  }

  /**
   * `getCategoryTransactions`: exactly the records of that type and category,
   * newest first, and the records of one date in their stored order.
   */
  function CategoryTransactions(ts: seq<Transaction>, kind: TxType, category: string): (r: seq<Transaction>)
    ensures multiset(r) == multiset(Filter(ts, OfKindInCategory(kind, category)))
    ensures forall i :: 0 <= i < |r| ==> r[i].kind == kind && r[i].category == category && r[i] in ts
    ensures forall k :: 0 <= k < |ts| && ts[k].kind == kind && ts[k].category == category ==> ts[k] in r
    ensures forall i, j :: 0 <= i < j < |r| ==> DateKey(r[i].date) >= DateKey(r[j].date)
    ensures forall d :: Filter(r, KeyIs(DateKeyOf, d)) == Filter(Filter(ts, OfKindInCategory(kind, category)), KeyIs(DateKeyOf, d))
  {
    var matching := Filter(ts, OfKindInCategory(kind, category));
    var r := SortDesc(matching, DateKeyOf);
    SameElements(r, matching);
    forall d ensures Filter(r, KeyIs(DateKeyOf, d)) == Filter(matching, KeyIs(DateKeyOf, d)) {
      SortDescStable(matching, DateKeyOf, d);
    }
    r
  }
}
