/**
 * The statistics screen: it reads the viewed month and the month before it,
 * narrows both lists to one household member unless "all" is selected, and
 * shows the total of the viewed type for each month and the change between them.
 */
module StatsPage {
  import opened Wrappers
  import opened Seqs
  import opened Ledger
  import opened CalendarKeys

  /** The filter button that applies no consumer filter ("all"). */
  const AllConsumers: string := "전체"

  /** `t => t.consumer === selected` */
  function ByConsumer(selected: string): Transaction -> bool
  {
    (t: Transaction) => t.consumer == selected
  }

  /** The records of the selected member, in their original order; "all" keeps every record. */
  function ConsumerFilter(ts: seq<Transaction>, selected: string): (r: seq<Transaction>)
    ensures selected == AllConsumers ==> r == ts
    ensures selected != AllConsumers ==>
              (forall k :: 0 <= k < |r| ==> r[k] in ts && r[k].consumer == selected)
              && (forall k :: 0 <= k < |ts| && ts[k].consumer == selected ==> ts[k] in r)
  {
    if selected == AllConsumers then ts
    else
      assert forall k :: 0 <= k < |ts| && ts[k].consumer == selected ==> ByConsumer(selected)(ts[k]);
      Filter(ts, ByConsumer(selected))
  }

  /** The two totals the page shows, for the current and the previous month. */
  datatype Totals = Totals(total: int, prevTotal: int)

  /**
   * `totalAmount` and `prevTotalAmount`: the same member filter and the same
   * type applied to both months.
   */
  function StatsTotals(current: seq<Transaction>, previous: seq<Transaction>, selected: string, kind: TxType): (totals: Totals)
    ensures selected == AllConsumers ==> totals == Totals(KindTotal(current, kind), KindTotal(previous, kind))
    ensures selected != AllConsumers && (forall k :: 0 <= k < |current| ==> current[k].consumer != selected) ==>
              totals.total == 0
    ensures selected != AllConsumers && (forall k :: 0 <= k < |previous| ==> previous[k].consumer != selected) ==>
              totals.prevTotal == 0
    ensures NonNegativeAmounts(current) && NonNegativeAmounts(previous) ==> totals.total >= 0 && totals.prevTotal >= 0
  {
    assert selected != AllConsumers && (forall k :: 0 <= k < |current| ==> current[k].consumer != selected) ==>
             ConsumerFilter(current, selected) == [] by {
      if selected != AllConsumers && |ConsumerFilter(current, selected)| > 0 {
        assert ConsumerFilter(current, selected)[0] in current;
      }
    }
    assert selected != AllConsumers && (forall k :: 0 <= k < |previous| ==> previous[k].consumer != selected) ==>
             ConsumerFilter(previous, selected) == [] by {
      if selected != AllConsumers && |ConsumerFilter(previous, selected)| > 0 {
        assert ConsumerFilter(previous, selected)[0] in previous;
      }
    }
    assert NonNegativeAmounts(current) && NonNegativeAmounts(previous) ==>
             NonNegativeAmounts(ConsumerFilter(current, selected)) && NonNegativeAmounts(ConsumerFilter(previous, selected)) by {
      if NonNegativeAmounts(current) && NonNegativeAmounts(previous) && selected != AllConsumers {
        FilterKeepsNonNegative(current, ByConsumer(selected));
        FilterKeepsNonNegative(previous, ByConsumer(selected));
      }
    }
    Totals(KindTotal(ConsumerFilter(current, selected), kind), KindTotal(ConsumerFilter(previous, selected), kind))
  }

  /**
   * Selecting "all" shows the sum over everyone, and a member's records and the
   * other records together make up that sum, in both months.
   */
  lemma {:induction false} MemberTotalsSplitAll(current: seq<Transaction>, previous: seq<Transaction>, member: string, kind: TxType)
    requires member != AllConsumers
    ensures StatsTotals(current, previous, AllConsumers, kind).total
         == StatsTotals(current, previous, member, kind).total + KindTotal(Filter(current, Not(ByConsumer(member))), kind)
    ensures StatsTotals(current, previous, AllConsumers, kind).prevTotal
         == StatsTotals(current, previous, member, kind).prevTotal + KindTotal(Filter(previous, Not(ByConsumer(member))), kind)
  {
    MemberSplit(current, member, kind);
    MemberSplit(previous, member, kind);
  }

  lemma MemberSplit(ts: seq<Transaction>, member: string, kind: TxType)
    ensures KindTotal(ts, kind)
         == KindTotal(Filter(ts, ByConsumer(member)), kind) + KindTotal(Filter(ts, Not(ByConsumer(member))), kind)
  {
    var ofKind := Filter(ts, OfKind(kind));
    SumAmountsSplit(ofKind, ByConsumer(member));
    FilterCommute(ts, OfKind(kind), ByConsumer(member));
    FilterCommute(ts, OfKind(kind), Not(ByConsumer(member)));
  }

  /**
   * `percentageChange` before rounding: the change against last month in
   * percent, and 0 whenever last month's total is not positive.
   */
  function PercentageChange(t: Totals): (change: real)
    ensures t.prevTotal <= 0 ==> change == 0.0
    ensures t.prevTotal > 0 ==> (change > 0.0 <==> t.total > t.prevTotal)
    ensures t.prevTotal > 0 ==> (change < 0.0 <==> t.total < t.prevTotal)
    ensures t.prevTotal > 0 && t.total >= 0 ==> change >= -100.0
  {
    if t.prevTotal > 0 then
      var diff := (t.total - t.prevTotal) as real;
      var prev := t.prevTotal as real;
      assert diff / prev * 100.0 == diff * 100.0 / prev;
      diff * 100.0 / prev
    else 0.0
  }


  lemma KeysOfDifferentMonthsDiffer(a: YearMonth, b: YearMonth)
    requires ValidMonth(a) && 0 <= a.year <= 9999
    requires ValidMonth(b) && 0 <= b.year <= 9999
    requires a != b
    ensures MonthKey(a) != MonthKey(b)
  {
    MonthKeyRoundTrip(a);
    MonthKeyRoundTrip(b);
  }

  /**
   * The two keys the page reads: `format(m, 'yyyy-MM')` and the same for
   * `subMonths(m, 1)`. They differ, and the second reads back as the month before.
   */
  function MonthKeys(ym: YearMonth): (keys: (string, string))
    requires ValidMonth(ym) && ym.year >= 1
    ensures ym.year <= 9999 ==> keys.0 != keys.1 && ParseMonthKey(keys.1) == Some(PreviousMonth(ym))
  {
    var prev := PreviousMonth(ym);
    assert ym.year <= 9999 ==> MonthKey(ym) != MonthKey(prev) && ParseMonthKey(MonthKey(prev)) == Some(prev) by {
      if ym.year <= 9999 {
        MonthKeyRoundTrip(prev);
        KeysOfDifferentMonthsDiffer(ym, prev);
      }
    }
    (MonthKey(ym), MonthKey(prev))
  }
}
