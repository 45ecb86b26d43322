/**
 * The browser-local store used when the spreadsheet is switched off: the whole
 * list lives under one local-storage key, and three sample records stand in for
 * it until the first write. Reads hand out the sample array itself, so a write
 * made before anything is stored also changes that shared array.
 */
module LocalStore {
  import opened Wrappers
  import opened Seqs
  import opened Ledger

  /** The sample records; the first two carry the date the module was loaded. */
  function MockData(today: string): (ts: seq<Transaction>)
    ensures |ts| == 3
    ensures forall k :: 0 <= k < |ts| ==> ts[k].kind == Expense && ts[k].memo.None?
    ensures forall j, k :: 0 <= j < k < |ts| ==> ts[j].id != ts[k].id
  {
    [ Transaction("1", today, 15000, "식비", "맥도날드", "남편", Expense, None),
      Transaction("2", today, 5000, "교통", "지하철", "아내", Expense, None),
      Transaction("3", "2023-10-01", 200000, "쇼핑", "나이키", "남편", Expense, None) ]
  }

  /** `t => t.id === id` */
  function SameId(id: string): Transaction -> bool
  {
    (t: Transaction) => t.id == id
  }

  /** `t => t.id !== id` */
  function OtherId(id: string): Transaction -> bool
  {
    (t: Transaction) => t.id != id
  }

  class BrowserStore {
    /** `typeof window !== 'undefined'` */
    const hasWindow: bool
    /** The module's sample array, which reads return by reference. */
    var mockData: seq<Transaction>
    /** The parsed value under the storage key, if one is stored. */
    var stored: Option<seq<Transaction>>

    constructor(hasWindow: bool, today: string, stored: Option<seq<Transaction>>)
      ensures this.hasWindow == hasWindow && mockData == MockData(today) && this.stored == stored
    {
      this.hasWindow := hasWindow;
      this.mockData := MockData(today);
      this.stored := stored;
    }

    /** The list a browser read starts from: the stored one, else the sample array. */
    function Current(): seq<Transaction>
      reads this
    {
      if stored.Some? then stored.value else mockData
    }

    /** `getTransactions(month)`; without a window the sample array comes back unfiltered. */
    function GetTransactions(month: Option<string>): (ts: seq<Transaction>)
      reads this
      ensures !hasWindow ==> ts == mockData
      ensures hasWindow && month.None? ==> ts == Current()
      ensures hasWindow && month.Some? ==> ts == Filter(Current(), InMonth(month.value))
    {
      if !hasWindow then mockData else ByMonth(Current(), month)
    }

    /** `addTransaction`: append and store; nothing happens without a window. */
    method AddTransaction(t: Transaction)
      modifies this
      ensures !hasWindow ==> mockData == old(mockData) && stored == old(stored)
      ensures hasWindow ==> stored == Some(old(Current()) + [t])
      ensures hasWindow && old(stored).None? ==> mockData == old(mockData) + [t]
      ensures old(stored).Some? ==> mockData == old(mockData)
      ensures hasWindow ==> forall m :: GetTransactions(Some(m)) == old(GetTransactions(Some(m))) + ByMonth([t], Some(m))
    {
      if !hasWindow {
        return;
      }
      var ts := Current();
      ts := ts + [t];
      if stored.None? {
        mockData := ts;
      }
      stored := Some(ts);
      forall m: string
        ensures Filter(ts, InMonth(m)) == Filter(old(Current()), InMonth(m)) + Filter([t], InMonth(m))
      {
        FilterConcat(old(Current()), [t], InMonth(m));
      }
    }

    /** `updateTransaction`: replace the first record with `t.id`; store only when there is one. */
    method UpdateTransaction(t: Transaction)
      modifies this
      ensures var i := IndexWhere(old(Current()), SameId(t.id));
              if !hasWindow || i == -1 then
                mockData == old(mockData) && stored == old(stored)
              else
                stored == Some(old(Current())[i := t])
                && mockData == (if old(stored).None? then old(mockData)[i := t] else old(mockData))
    {
      if !hasWindow {
        return;
      }
      var ts := Current();
      var i := FindIndex(ts, SameId(t.id));
      if i != -1 {
        ts := ts[i := t];
        if stored.None? {
          mockData := ts;
        }
        stored := Some(ts);
      }
    }

    /** `deleteTransaction`: store every record whose id differs, even when none matched. */
    method DeleteTransaction(id: string)
      modifies this`stored
      ensures !hasWindow ==> stored == old(stored)
      ensures hasWindow ==> stored == Some(Filter(old(Current()), OtherId(id)))
      ensures hasWindow ==> forall k :: 0 <= k < |Current()| ==> Current()[k].id != id
    {
      if !hasWindow {
        return;
      }
      stored := Some(Filter(Current(), OtherId(id)));
    }
  }

  /** Replacing a record with itself changes nothing, so saving twice is saving once. */
  lemma {:induction false} UpdateByIdIdempotent(ts: seq<Transaction>, t: Transaction)
    requires IndexWhere(ts, SameId(t.id)) != -1
    ensures var i := IndexWhere(ts, SameId(t.id));
            var once := ts[i := t];
            IndexWhere(once, SameId(t.id)) == i && once[i := t] == once
  {
    var i := IndexWhere(ts, SameId(t.id));
    var once := ts[i := t];
    forall k | 0 <= k < i
      ensures !SameId(t.id)(once[k])
    {
      assert once[k] == ts[k];
    }
    assert SameId(t.id)(once[i]);
  }

  /** Deleting removes exactly the records with that id: all others stay, in order. */
  lemma {:induction false} DeleteKeepsOthers(ts: seq<Transaction>, id: string)
    ensures forall k :: 0 <= k < |ts| && ts[k].id != id ==> ts[k] in Filter(ts, OtherId(id))
    ensures IndexWhere(ts, SameId(id)) == -1 ==> Filter(ts, OtherId(id)) == ts
  {
    assert forall k :: 0 <= k < |ts| && ts[k].id != id ==> OtherId(id)(ts[k]);
    if IndexWhere(ts, SameId(id)) == -1 {
      assert forall k :: 0 <= k < |ts| ==> !SameId(id)(ts[k]);
      FilterKeepsAll(ts, OtherId(id));
    }
  }
}
