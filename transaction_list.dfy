/**
 * The list under the calendar: the records of one selected day, that day's
 * income and expense totals, and a sign in front of each amount.
 */
module TransactionList {
  import opened Wrappers
  import opened Seqs
  import opened Ledger
  import opened CalendarKeys

  /** `t => t.date === day` */
  function OnDate(day: string): Transaction -> bool
  {
    (t: Transaction) => t.date == day
  }

  /** `dailyTransactions`: exactly the records dated on the selected day, in input order. */
  function DailyTransactions(ts: seq<Transaction>, day: string): (daily: seq<Transaction>)
    ensures forall k :: 0 <= k < |daily| ==> daily[k] in ts && daily[k].date == day
    ensures forall k :: 0 <= k < |ts| && ts[k].date == day ==> ts[k] in daily
  {
    assert forall k :: 0 <= k < |ts| && ts[k].date == day ==> OnDate(day)(ts[k]);
    Filter(ts, OnDate(day))
  }

  /**
   * The screen reads one month and lists one of its days, so no record of the
   * day is lost: every record of the day key is among the month read's records.
   */
  lemma DayRecordsAreInMonthRead(ts: seq<Transaction>, ym: YearMonth, d: nat)
    requires ValidMonth(ym) && ym.year >= 0
    ensures var day := DayKey(ym, d);
            forall k :: 0 <= k < |DailyTransactions(ts, day)| ==>
              DailyTransactions(ts, day)[k] in ByMonth(ts, Some(MonthKey(ym)))
  {
    var day := DayKey(ym, d);
    var daily := DailyTransactions(ts, day);
    forall k | 0 <= k < |daily|
      ensures daily[k] in ByMonth(ts, Some(MonthKey(ym)))
    {
      ByMonthMembers(ts, MonthKey(ym), daily[k]);
    }
  }

  /** The two daily totals together are the sum of every amount of the day. */
  lemma DailyTotalsCoverTheDay(ts: seq<Transaction>, day: string)
    ensures KindTotal(DailyTransactions(ts, day), Income) + KindTotal(DailyTransactions(ts, day), Expense)
         == SumAmounts(DailyTransactions(ts, day))
  {
    KindTotalsMakeSum(DailyTransactions(ts, day));
  }

  /** The sign in front of an amount: `+` for income, `-` for anything else. */
  function AmountSign(t: Transaction): (sign: string)
    ensures sign == "+" <==> t.kind == Income
    ensures sign == "-" <==> t.kind == Expense
  {
    match t.kind
    case Income => "+"
    case Expense => assert "-"[0] != "+"[0]; "-"
  }

  /** What the list area shows: the empty placeholder, or the day's records. */
  datatype DailyView = EmptyPlaceholder | Items(entries: seq<Transaction>)

  function ViewOf(ts: seq<Transaction>, day: string): (v: DailyView)
    ensures v.EmptyPlaceholder? <==> forall k :: 0 <= k < |ts| ==> ts[k].date != day
    ensures v.Items? ==> |v.entries| > 0 && forall k :: 0 <= k < |v.entries| ==> v.entries[k].date == day
    ensures v.Items? ==> v.entries == DailyTransactions(ts, day)
  {
    var daily := DailyTransactions(ts, day);
    if |daily| == 0 then
      EmptyPlaceholder
    else
      assert daily[0] in ts && daily[0].date == day;
      Items(daily)
  }
}
