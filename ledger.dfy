/**
 * The one persisted record, a `Transaction`, and the list operations that
 * several parts of the application apply to lists of them: the month filter
 * both stores use and the amount sum every view uses.
 */
module Ledger {
  import opened Wrappers
  import opened Seqs

  /** `'income' | 'expense'` */
  datatype TxType = Income | Expense

  /**
   * A transaction. `date` is a `YYYY-MM-DD` string, `amount` a whole number of
   * currency units, `memo` may be absent.
   */
  datatype Transaction = Transaction(
    id: string,
    date: string,
    amount: int,
    category: string,
    merchant: string,
    consumer: string,
    kind: TxType,
    memo: Option<string>)

  /** `memo || ''`: the text a store writes for the memo. */
  function MemoText(memo: Option<string>): string
  {
    memo.GetOr("")
  }

  /** The record a store hands back after saving `t`: its memo is always present. */
  function WithMemoText(t: Transaction): Transaction
  {
    t.(memo := Some(MemoText(t.memo)))
  }

  /** `t => t.date.startsWith(month)` */
  function InMonth(month: string): Transaction -> bool
  {
    (t: Transaction) => month <= t.date
  }

  /**
   * `if (!month) return transactions; return transactions.filter(t =>
   * t.date.startsWith(month))`. The empty month is falsy and skips the filter,
   * which is what filtering by the empty prefix would give anyway.
   */
  function ByMonth(ts: seq<Transaction>, month: Option<string>): (r: seq<Transaction>)
    ensures month.None? ==> r == ts
    ensures month.Some? ==> r == Filter(ts, InMonth(month.value))
  {
    if month.None? then ts
    else if month.value == "" then
      FilterKeepsAll(ts, InMonth(""));
      ts
    else Filter(ts, InMonth(month.value))
  }

  /** A month read returns exactly the records dated in that month. */
  lemma ByMonthMembers(ts: seq<Transaction>, month: string, t: Transaction)
    ensures t in ByMonth(ts, Some(month)) <==> t in ts && month <= t.date
  {
    var r := ByMonth(ts, Some(month));
    if t in ts && month <= t.date {
      var i :| 0 <= i < |ts| && ts[i] == t;
      assert InMonth(month)(ts[i]);
    }
    if t in r {
      var i :| 0 <= i < |r| && r[i] == t;
    }
  }

  /** No record carries a negative amount, as every amount typed into the form is made of digits only. */
  predicate NonNegativeAmounts(ts: seq<Transaction>)
  {
    forall t :: t in ts ==> t.amount >= 0
  }

  lemma FilterKeepsNonNegative(ts: seq<Transaction>, p: Transaction -> bool)
    requires NonNegativeAmounts(ts)
    ensures NonNegativeAmounts(Filter(ts, p))
  {
    forall t | t in Filter(ts, p) ensures t.amount >= 0 {
      var i :| 0 <= i < |Filter(ts, p)| && Filter(ts, p)[i] == t;
    }
  }

  /** `ts.reduce((sum, t) => sum + t.amount, 0)` */
  function SumAmounts(ts: seq<Transaction>): (sum: int)
    ensures ts == [] ==> sum == 0
    ensures NonNegativeAmounts(ts) ==> sum >= 0
  {
    if ts == [] then 0
    else
      assert NonNegativeAmounts(ts) ==> NonNegativeAmounts(ts[1..]) by {
        if NonNegativeAmounts(ts) {
          forall t | t in ts[1..] ensures t.amount >= 0 {
            var i :| 0 <= i < |ts[1..]| && ts[1..][i] == t;
            assert ts[i + 1] == t;
          }
        }
      }
      ts[0].amount + SumAmounts(ts[1..])
  }

  lemma {:induction false} SumAmountsConcat(a: seq<Transaction>, b: seq<Transaction>)
    ensures SumAmounts(a + b) == SumAmounts(a) + SumAmounts(b)
  {
    if a == [] {
      assert a + b == b;
    } else {
      assert (a + b)[0] == a[0];
      assert (a + b)[1..] == a[1..] + b;
      SumAmountsConcat(a[1..], b);
    }
  }

  /** The records a filter keeps and the records it drops make up the whole sum. */
  lemma {:induction false} SumAmountsSplit(ts: seq<Transaction>, p: Transaction -> bool)
    ensures SumAmounts(Filter(ts, p)) + SumAmounts(Filter(ts, Not(p))) == SumAmounts(ts)
  {
    if ts != [] {
      var kept := if p(ts[0]) then [ts[0]] else [];
      var dropped := if Not(p)(ts[0]) then [ts[0]] else [];
      SumAmountsConcat(kept, Filter(ts[1..], p));
      SumAmountsConcat(dropped, Filter(ts[1..], Not(p)));
      SumAmountsSplit(ts[1..], p);
    }
  }

  /** `t => t.type === kind` */
  function OfKind(kind: TxType): Transaction -> bool
  {
    (t: Transaction) => t.kind == kind
  }

  /**
   * `ts.filter(t => t.type === kind).reduce((sum, t) => sum + t.amount, 0)`: the
   * total of one type, which the day list, the statistics page and the calendar
   * all show. It never counts a record of the other type.
   */
  function KindTotal(ts: seq<Transaction>, kind: TxType): (total: int)
    ensures (forall k :: 0 <= k < |ts| ==> ts[k].kind != kind) ==> total == 0
    ensures NonNegativeAmounts(ts) ==> 0 <= total <= SumAmounts(ts)
  {
    var kept := Filter(ts, OfKind(kind));
    var other := Filter(ts, OfKind(if kind == Income then Expense else Income));
    assert (forall k :: 0 <= k < |ts| ==> ts[k].kind != kind) ==> kept == [] by {
      if forall k :: 0 <= k < |ts| ==> ts[k].kind != kind {
        FilterKeepsNone(ts, OfKind(kind));
      }
    }
    assert NonNegativeAmounts(ts) ==> SumAmounts(kept) >= 0 && SumAmounts(kept) <= SumAmounts(ts) by {
      if NonNegativeAmounts(ts) {
        IncomeAndExpenseMakeTotal(ts);
        FilterKeepsNonNegative(ts, OfKind(kind));
        FilterKeepsNonNegative(ts, OfKind(if kind == Income then Expense else Income));
      }
    }
    SumAmounts(kept)
  }

  /** Every record is either income or expense, so the two sums make up the whole. */
  lemma {:induction false} IncomeAndExpenseMakeTotal(ts: seq<Transaction>)
    ensures SumAmounts(Filter(ts, OfKind(Income))) + SumAmounts(Filter(ts, OfKind(Expense)))
         == SumAmounts(ts)
  {
    if ts != [] {
      var head := ts[0];
      var incomeHead := if head.kind == Income then [head] else [];
      var expenseHead := if head.kind == Expense then [head] else [];
      SumAmountsConcat(incomeHead, Filter(ts[1..], OfKind(Income)));
      SumAmountsConcat(expenseHead, Filter(ts[1..], OfKind(Expense)));
      IncomeAndExpenseMakeTotal(ts[1..]);
    }
  }

  /** Switching between the income and the expense view splits the whole sum in two. */
  lemma KindTotalsMakeSum(ts: seq<Transaction>)
    ensures KindTotal(ts, Income) + KindTotal(ts, Expense) == SumAmounts(ts)
  {
    IncomeAndExpenseMakeTotal(ts);
  }
}
