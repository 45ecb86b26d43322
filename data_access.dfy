/**
 * The facade every screen calls. One flag, read once from the environment,
 * sends all four operations either to the server boundary (and from there to
 * the spreadsheet) or to the browser-local store. The facade keeps no memo of
 * its own: every read reaches the selected store.
 */
module DataAccess {
  import opened Wrappers
  import opened Seqs
  import opened Ledger
  import opened SheetStore
  import opened LocalStore
  import opened ServerActions

  class DataService {
    /** `USE_SERVER_MODE`, the same comparison the server boundary makes. */
    const serverMode: bool
    const actions: ActionBoundary
    const local: BrowserStore

    /** Both flags are read from the same variable, so they always agree. */
    predicate Valid()
      reads this, actions
    {
      serverMode == actions.useSheets
    }

    constructor(env: Option<string>, sheet: Spreadsheet, local: BrowserStore)
      ensures Valid() && serverMode == SheetsEnabled(env)
      ensures actions.sheet == sheet && this.local == local && fresh(actions) && actions.revalidated == []
    {
      serverMode := SheetsEnabled(env);
      actions := new ActionBoundary(env, sheet);
      this.local := local;
    }

    /**
     * `getTransactions(month)`: in server mode a read always reaches the spreadsheet,
     * so the boundary's fixed records are never served; otherwise the local store
     * answers, and never throws. None when the read throws.
     */
    function GetTransactions(month: Option<string>, today: string): (r: Option<seq<Transaction>>)
      requires Valid()
      reads this, actions, actions.sheet, local
      ensures serverMode ==> r == GetSheetTransactions(actions.sheet.Snapshot(), month)
      ensures !serverMode ==> r == Some(local.GetTransactions(month))
    {
      if serverMode then actions.FetchTransactions(month, today) else Some(local.GetTransactions(month))
    }

    method AddTransaction(t: Transaction, now: string) returns (st: Status)
      requires Valid()
      modifies actions.sheet`rows, actions.sheet`metadata, actions`revalidated, local
      ensures serverMode ==>
                Outcome(st, actions.sheet.Snapshot()) == AddOutcome(old(actions.sheet.Snapshot()), t, now)
                && unchanged(local)
                && actions.revalidated == old(actions.revalidated) + (if st == Done then RevalidatedPaths else [])
      ensures !serverMode ==>
                st == Done && actions.sheet.Snapshot() == old(actions.sheet.Snapshot())
                && actions.revalidated == old(actions.revalidated)
                && (local.hasWindow ==> local.Current() == old(local.Current()) + [t])
                && (!local.hasWindow ==> local.Current() == old(local.Current()))
    {
      if serverMode {
        st := actions.CreateTransaction(t, now);
      } else {
        local.AddTransaction(t);
        st := Done;
      }
    }

    method UpdateTransaction(t: Transaction, now: string) returns (st: Status)
      requires Valid()
      modifies actions.sheet`rows, actions.sheet`metadata, actions`revalidated, local
      ensures serverMode ==>
                Outcome(st, actions.sheet.Snapshot()) == UpdateOutcome(old(actions.sheet.Snapshot()), t, now)
                && unchanged(local)
                && actions.revalidated == old(actions.revalidated) + (if st == Done then RevalidatedPaths else [])
      ensures !serverMode ==>
                st == Done && actions.sheet.Snapshot() == old(actions.sheet.Snapshot())
                && actions.revalidated == old(actions.revalidated)
                && var i := IndexWhere(old(local.Current()), SameId(t.id));
                   local.Current() == if local.hasWindow && i != -1 then old(local.Current())[i := t] else old(local.Current())
    {
      if serverMode {
        st := actions.UpdateTransactionAction(t, now);
      } else {
        local.UpdateTransaction(t);
        st := Done;
      }
    }

    method DeleteTransaction(id: string, now: string) returns (st: Status)
      requires Valid()
      modifies actions.sheet`rows, actions.sheet`metadata, actions`revalidated, local
      ensures serverMode ==>
                Outcome(st, actions.sheet.Snapshot()) == DeleteOutcome(old(actions.sheet.Snapshot()), id, now)
                && unchanged(local)
                && actions.revalidated == old(actions.revalidated) + (if st == Done then RevalidatedPaths else [])
      ensures !serverMode ==>
                st == Done && actions.sheet.Snapshot() == old(actions.sheet.Snapshot())
                && actions.revalidated == old(actions.revalidated)
                && local.Current() == if local.hasWindow then Filter(old(local.Current()), OtherId(id)) else old(local.Current())
    {
      if serverMode {
        st := actions.DeleteTransactionAction(id, now);
      } else {
        local.DeleteTransaction(id);
        st := Done;
      }
    }
  }
}
