/**
 * The server-side boundary the browser calls: it reads and writes through the
 * spreadsheet store when the `NEXT_PUBLIC_USE_GOOGLE_SHEETS` flag is `'true'`,
 * and otherwise answers reads with two fixed records and drops writes. After a
 * write returns normally it marks the `/` and `/stats` pages for re-rendering.
 */
module ServerActions {
  import opened Wrappers
  import opened Ledger
  import opened SheetStore

  /** `process.env.NEXT_PUBLIC_USE_GOOGLE_SHEETS === 'true'` */
  function SheetsEnabled(env: Option<string>): (on: bool)
    ensures on <==> env.Some? && env.value == "true"
    ensures env.None? ==> !on
  {
    env == Some("true")
  }

  /** The pages re-rendered after every write that returns normally. */
  const RevalidatedPaths: seq<string> := ["/", "/stats"]

  /** The records `fetchTransactions` answers with when the spreadsheet is off. */
  function ServerMock(today: string): (ts: seq<Transaction>)
    ensures |ts| == 2
    ensures forall k :: 0 <= k < |ts| ==> ts[k].date == today && ts[k].kind == Expense
  {
    [ Transaction("1", today, 15000, "식비", "맥도날드 (Server Mock)", "남편", Expense, None),
      Transaction("2", today, 5000, "교통", "지하철 (Server Mock)", "아내", Expense, None) ]
  }

  class ActionBoundary {
    const useSheets: bool
    const sheet: Spreadsheet
    /** Every page path handed to `revalidatePath`, in order. */
    var revalidated: seq<string>

    constructor(env: Option<string>, sheet: Spreadsheet)
      ensures useSheets == SheetsEnabled(env) && this.sheet == sheet && revalidated == []
    {
      useSheets := SheetsEnabled(env);
      this.sheet := sheet;
      revalidated := [];
    }

    /**
     * `fetchTransactions(month)`: the sheet's records, or the fixed records
     * whatever the month. None when the sheet read throws.
     */
    function FetchTransactions(month: Option<string>, today: string): (r: Option<seq<Transaction>>)
      reads this, sheet
      ensures useSheets ==> r == GetSheetTransactions(sheet.Snapshot(), month)
      ensures !useSheets ==> r == Some(ServerMock(today))
    {
      if useSheets then GetSheetTransactions(sheet.Snapshot(), month) else Some(ServerMock(today))
    }

    method CreateTransaction(t: Transaction, now: string) returns (st: Status)
      modifies sheet`rows, sheet`metadata, this`revalidated
      ensures useSheets ==> Outcome(st, sheet.Snapshot()) == AddOutcome(old(sheet.Snapshot()), t, now)
      ensures !useSheets ==> st == Done && sheet.Snapshot() == old(sheet.Snapshot())
      ensures revalidated == old(revalidated) + (if st == Done then RevalidatedPaths else [])
    {
      st := Done;
      if useSheets {
        st := sheet.AddSheetTransaction(t, now);
      }
      if st == Done {
        revalidated := revalidated + RevalidatedPaths;
      }
    }

    method UpdateTransactionAction(t: Transaction, now: string) returns (st: Status)
      modifies sheet`rows, sheet`metadata, this`revalidated
      ensures useSheets ==> Outcome(st, sheet.Snapshot()) == UpdateOutcome(old(sheet.Snapshot()), t, now)
      ensures !useSheets ==> st == Done && sheet.Snapshot() == old(sheet.Snapshot())
      ensures revalidated == old(revalidated) + (if st == Done then RevalidatedPaths else [])
    {
      st := Done;
      if useSheets {
        st := sheet.UpdateSheetTransaction(t, now);
      }
      if st == Done {
        revalidated := revalidated + RevalidatedPaths;
      }
    }

    method DeleteTransactionAction(id: string, now: string) returns (st: Status)
      modifies sheet`rows, sheet`metadata, this`revalidated
      ensures useSheets ==> Outcome(st, sheet.Snapshot()) == DeleteOutcome(old(sheet.Snapshot()), id, now)
      ensures !useSheets ==> st == Done && sheet.Snapshot() == old(sheet.Snapshot())
      ensures revalidated == old(revalidated) + (if st == Done then RevalidatedPaths else [])
    {
      st := Done;
      if useSheets {
        st := sheet.DeleteSheetTransaction(id, now);
      }
      if st == Done {
        revalidated := revalidated + RevalidatedPaths;
      }
    }
  }
}
