/**
 * The spreadsheet-backed store: a `Transactions` sheet whose row 1 is a header
 * and whose rows 2.. hold one transaction each in columns A–H
 * (id, date, amount, category, merchant, consumer, type, memo), and a
 * `Metadata` sheet whose cell A1 holds the time of the last write.
 *
 * The remote service is modelled by its state: the credentials configured at
 * start-up, whether requests currently reach it, the rows of `Transactions`
 * (row 1, the header, is index 0) and the `Metadata` sheet if it exists.
 * Cells hold the text the service returns for them, so an amount is stored as
 * its decimal numeral.
 */
module SheetStore {
  import opened Wrappers
  import opened Seqs
  import opened Numerals
  import opened Ledger

  type Row = seq<string>

  /**
   * Cell `i` of a row as text. The service leaves trailing empty cells out of a
   * row, so a cell past the row's end is `undefined` when the store reads it;
   * the model reads it as "". The one place where that changes what happens, a
   * month filter over a row without a date, is modelled by `ReadThrows`.
   */
  function Cell(row: Row, i: nat): string
  {
    if i < |row| then row[i] else ""
  }

  function KindText(kind: TxType): string
  {
    match kind
    case Income => "income"
    case Expense => "expense"
  }

  /** `row[6] as 'income' | 'expense'` */
  function KindOf(text: string): TxType
  {
    if text == "income" then Income else Expense
  }

  /** The row written for a transaction, in column order A–H. */
  function EncodeRow(t: Transaction): (row: Row)
    ensures |row| == 8
  {
    [t.id, t.date, IntToString(t.amount), t.category, t.merchant, t.consumer, KindText(t.kind), MemoText(t.memo)]
  }

  /** The transaction a row maps to when the sheet is read. */
  function DecodeRow(row: Row): (t: Transaction)
    ensures t.memo.Some?
    ensures t.kind == Income <==> Cell(row, 6) == "income"
    ensures AllDigits(Cell(row, 2)) ==> t.amount == DigitsValue(Cell(row, 2))
  {
    Transaction(
      Cell(row, 0), Cell(row, 1), NumberValue(Cell(row, 2)).GetOr(0), Cell(row, 3),
      Cell(row, 4), Cell(row, 5), KindOf(Cell(row, 6)), Some(Cell(row, 7)))
  }

  /** Reading back a written row gives the transaction, its absent memo turned into "". */
  lemma DecodeEncode(t: Transaction)
    ensures DecodeRow(EncodeRow(t)) == WithMemoText(t)
  {
    NumberValueOfIntToString(t.amount);
    assert KindOf(KindText(t.kind)) == t.kind;
  }

  /** The rows of range `A2:H`: everything below the header. */
  function DataRows(rows: seq<Row>): seq<Row>
  {
    if rows == [] then [] else rows[1..]
  }

  function DecodeAll(rows: seq<Row>): (ts: seq<Transaction>)
    ensures |ts| == |rows|
    ensures forall i :: 0 <= i < |rows| ==> ts[i] == DecodeRow(rows[i])
  {
    seq(|rows|, i requires 0 <= i < |rows| => DecodeRow(rows[i]))
  }

  /** The hidden auxiliary sheet holding the version marker in A1. */
  datatype MetadataSheet = MetadataSheet(hidden: bool, rowCount: nat, columnCount: nat, a1: string)

  /** What the store's behaviour depends on: configuration, reachability and the two sheets. */
  datatype Backend = Backend(credentials: bool, reachable: bool, rows: seq<Row>, metadata: Option<MetadataSheet>)

  datatype StoreError =
    | CredentialsMissing  // 'Google Sheets credentials missing'
    | Unreachable         // a request to the service failed
    | NoDataFound         // 'No data found': column A holds nothing
    | NotFound            // 'Transaction not found'

  /** How a write ends: normally, or by throwing. */
  datatype Status = Done | Failed(error: StoreError)

  datatype Outcome = Outcome(status: Status, after: Backend)

  const InitialVersion: string := "initial"

  /** `getLastUpdated`: the version marker, or 'initial' whenever it cannot be read or is empty. */
  function GetLastUpdated(b: Backend): (v: string)
    ensures !b.credentials || !b.reachable || b.metadata.None? ==> v == InitialVersion
    ensures b.credentials && b.reachable && b.metadata.Some? ==>
              v == (if b.metadata.value.a1 == "" then InitialVersion else b.metadata.value.a1)
    ensures v != ""
  {
    if !b.credentials then InitialVersion
    else if !b.reachable then InitialVersion
    else if b.metadata.None? || b.metadata.value.a1 == "" then InitialVersion
    else b.metadata.value.a1
  }

  /**
   * `_fetchTransactionsData`: record k is sheet row k + 2, decoded. Missing
   * credentials, a failed request or a sheet without data rows all give [].
   */
  function FetchTransactionsData(b: Backend): (ts: seq<Transaction>)
    ensures !b.credentials || !b.reachable || |b.rows| <= 1 ==> ts == []
    ensures b.credentials && b.reachable && |b.rows| >= 1 ==> |ts| == |b.rows| - 1
    ensures forall k :: 0 <= k < |ts| ==> k + 1 < |b.rows| && ts[k] == DecodeRow(b.rows[k + 1])
  {
    if !b.credentials || !b.reachable then []
    else DecodeAll(DataRows(b.rows))
  }

  /** A row whose column B is empty and not followed by a filled cell: its `date` is `undefined`. */
  predicate LacksDate(row: Row)
  {
    |row| < 2
  }

  /**
   * A month read calls `t.date.startsWith(month)` outside the store's `try`, so
   * it throws a TypeError when the month is non-empty and some fetched row has
   * no date cell at all.
   */
  predicate ReadThrows(b: Backend, month: Option<string>)
  {
    && month.Some? && month.value != ""
    && b.credentials && b.reachable
    && exists k :: 1 <= k < |b.rows| && LacksDate(b.rows[k])
  }

  /**
   * `getSheetTransactions(month)`: the decoded records in sheet order; with a
   * month, exactly those whose date starts with it. None when the read throws.
   */
  function GetSheetTransactions(b: Backend, month: Option<string>): (r: Option<seq<Transaction>>)
    ensures r.None? <==> ReadThrows(b, month)
    ensures month.None? ==> r == Some(FetchTransactionsData(b))
    ensures r.Some? && month.Some? ==> r.value == Filter(FetchTransactionsData(b), InMonth(month.value))
  {
    if ReadThrows(b, month) then None else Some(ByMonth(FetchTransactionsData(b), month))
  }

  /** Every data row has a date cell, so no month read throws. */
  predicate DatesPresent(rows: seq<Row>)
  {
    forall k :: 1 <= k < |rows| ==> !LacksDate(rows[k])
  }

  /** A row the store writes always has a date cell, so its writes never make a month read throw. */
  lemma WritesKeepDates(b: Backend, t: Transaction, id: string, now: string)
    requires DatesPresent(b.rows)
    ensures DatesPresent(AddOutcome(b, t, now).after.rows)
    ensures DatesPresent(UpdateOutcome(b, t, now).after.rows)
    ensures DatesPresent(DeleteOutcome(b, id, now).after.rows)
  {
    if AddOutcome(b, t, now).status == Done {
      DatesPresentAppend(b.rows, EncodeRow(t));
    }
    if UpdateOutcome(b, t, now).status == Done {
      DatesPresentReplace(b.rows, IndexWhere(b.rows, HasId(t.id)), EncodeRow(t));
    }
    if DeleteOutcome(b, id, now).status == Done {
      DatesPresentRemove(b.rows, IndexWhere(b.rows, HasId(id)));
    }
  }

  lemma DatesPresentAppend(rows: seq<Row>, r: Row)
    requires DatesPresent(rows) && !LacksDate(r)
    ensures DatesPresent(rows + [r])
  {
    var rows' := rows + [r];
    forall k | 1 <= k < |rows'| ensures !LacksDate(rows'[k]) {
      if k < |rows| { assert rows'[k] == rows[k]; }
    }
  }

  lemma DatesPresentReplace(rows: seq<Row>, i: int, r: Row)
    requires DatesPresent(rows) && !LacksDate(r) && 0 <= i < |rows|
    ensures DatesPresent(rows[i := r])
  {
  }

  lemma DatesPresentRemove(rows: seq<Row>, i: int)
    requires DatesPresent(rows) && 0 <= i < |rows|
    ensures DatesPresent(rows[..i] + rows[i + 1..])
  {
    var rows' := rows[..i] + rows[i + 1..];
    forall k | 1 <= k < |rows'| ensures !LacksDate(rows'[k]) {
      if k < i { assert rows'[k] == rows[k]; } else { assert rows'[k] == rows[k + 1]; }
    }
  }

  /**
   * `row => row[0] === id` over column A: a row with an empty cell A comes
   * back without it, so its `row[0]` is `undefined` and matches no id.
   */
  function HasId(id: string): Row -> bool
  {
    (row: Row) => Cell(row, 0) != "" && Cell(row, 0) == id
  }

  /** A row matches exactly when its column A is present and holds the id; the empty id matches no row. */
  lemma HasIdMatchesColumnA(id: string, row: Row)
    ensures HasId(id)(row) <==> |row| >= 1 && row[0] == id && id != ""
    ensures id == "" ==> !HasId(id)(row)
  {
  }

  /** Column A has no value at all, so the service returns no `values` for `A:A`. */
  predicate ColumnAEmpty(rows: seq<Row>)
  {
    forall k :: 0 <= k < |rows| ==> Cell(rows[k], 0) == ""
  }

  datatype Lookup = At(index: nat) | LookupFailed(error: StoreError)

  /** The scan of column A that update and delete perform, header row included. */
  function Locate(rows: seq<Row>, id: string): (r: Lookup)
    ensures r.At? ==> r.index < |rows| && HasId(id)(rows[r.index])
                      && forall k :: 0 <= k < r.index ==> !HasId(id)(rows[k])
    ensures r == LookupFailed(NoDataFound) <==> ColumnAEmpty(rows)
    ensures r == LookupFailed(NotFound) <==> !ColumnAEmpty(rows) && forall k :: 0 <= k < |rows| ==> !HasId(id)(rows[k])
    ensures r.LookupFailed? ==> r.error == NoDataFound || r.error == NotFound
  {
    if ColumnAEmpty(rows) then LookupFailed(NoDataFound)
    else
      var i := IndexWhere(rows, HasId(id));
      if i < 0 then LookupFailed(NotFound) else At(i)
  }

  /**
   * `updateLastUpdated`: writes `now` into Metadata!A1; when that fails because the
   * sheet is missing, creates it (hidden, 1×1) and writes once more. It never fails
   * its caller, and it touches nothing but the metadata sheet.
   */
  function AfterVersionUpdate(b: Backend, now: string): (after: Backend)
    ensures after.rows == b.rows && after.credentials == b.credentials && after.reachable == b.reachable
    ensures !b.credentials || !b.reachable ==> after == b
    ensures b.credentials && b.reachable ==> after.metadata.Some? && after.metadata.value.a1 == now
    ensures b.credentials && b.reachable && b.metadata.None? ==>
              after.metadata == Some(MetadataSheet(true, 1, 1, now))
    ensures b.credentials && b.reachable && now != "" ==> GetLastUpdated(after) == now
  {
    if !b.credentials || !b.reachable then b
    else match b.metadata
      case Some(m) => b.(metadata := Some(m.(a1 := now)))
      case None => b.(metadata := Some(MetadataSheet(true, 1, 1, now)))
  }

  /** `addSheetTransaction`: append one row after the last one, then move the version marker. */
  function AddOutcome(b: Backend, t: Transaction, now: string): (o: Outcome)
    ensures o.status == Done <==> b.credentials && b.reachable
    ensures !b.credentials ==> o.status == Failed(CredentialsMissing)
    ensures o.status.Failed? ==> o.after == b
    ensures o.status == Done ==> o.after.rows == b.rows + [EncodeRow(t)]
    ensures o.status == Done && now != "" ==> GetLastUpdated(o.after) == now
  {
    if !b.credentials then Outcome(Failed(CredentialsMissing), b)
    else if !b.reachable then Outcome(Failed(Unreachable), b)
    else Outcome(Done, AfterVersionUpdate(b.(rows := b.rows + [EncodeRow(t)]), now))
  }

  /** `updateSheetTransaction`: overwrite the first row whose column A holds `t.id`. */
  function UpdateOutcome(b: Backend, t: Transaction, now: string): (o: Outcome)
    ensures o.status == Done <==> b.credentials && b.reachable && Locate(b.rows, t.id).At?
    ensures !b.credentials ==> o.status == Failed(CredentialsMissing)
    ensures b.credentials && b.reachable && Locate(b.rows, t.id).LookupFailed? ==>
              o.status == Failed(Locate(b.rows, t.id).error)
    ensures o.status.Failed? ==> o.after == b
    ensures o.status == Done ==>
              var i := IndexWhere(b.rows, HasId(t.id));
              0 <= i < |b.rows| && |o.after.rows| == |b.rows| && o.after.rows[i] == EncodeRow(t)
              && (forall k :: 0 <= k < |b.rows| && k != i ==> o.after.rows[k] == b.rows[k])
    ensures o.status == Done && now != "" ==> GetLastUpdated(o.after) == now
  {
    if !b.credentials then Outcome(Failed(CredentialsMissing), b)
    else if !b.reachable then Outcome(Failed(Unreachable), b)
    else match Locate(b.rows, t.id)
      case LookupFailed(e) => Outcome(Failed(e), b)
      case At(i) => Outcome(Done, AfterVersionUpdate(b.(rows := b.rows[i := EncodeRow(t)]), now))
  }

  /** `deleteSheetTransaction`: remove the first row whose column A holds `id`; later rows move up. */
  function DeleteOutcome(b: Backend, id: string, now: string): (o: Outcome)
    ensures o.status == Done <==> b.credentials && b.reachable && Locate(b.rows, id).At?
    ensures !b.credentials ==> o.status == Failed(CredentialsMissing)
    ensures b.credentials && b.reachable && Locate(b.rows, id).LookupFailed? ==>
              o.status == Failed(Locate(b.rows, id).error)
    ensures o.status.Failed? ==> o.after == b
    ensures o.status == Done ==>
              var i := IndexWhere(b.rows, HasId(id));
              0 <= i < |b.rows| && o.after.rows == b.rows[..i] + b.rows[i + 1..]
    ensures o.status == Done && now != "" ==> GetLastUpdated(o.after) == now
  {
    if !b.credentials then Outcome(Failed(CredentialsMissing), b)
    else if !b.reachable then Outcome(Failed(Unreachable), b)
    else match Locate(b.rows, id)
      case LookupFailed(e) => Outcome(Failed(e), b)
      case At(i) => Outcome(Done, AfterVersionUpdate(b.(rows := b.rows[..i] + b.rows[i + 1..]), now))
  }

  /** The live service: each write method is proved against its outcome function above. */
  class Spreadsheet {
    const credentials: bool
    var reachable: bool
    var rows: seq<Row>
    var metadata: Option<MetadataSheet>

    constructor(credentials: bool, reachable: bool, rows: seq<Row>, metadata: Option<MetadataSheet>)
      ensures Snapshot() == Backend(credentials, reachable, rows, metadata)
    {
      this.credentials := credentials;
      this.reachable := reachable;
      this.rows := rows;
      this.metadata := metadata;
    }

    function Snapshot(): Backend
      reads this
    {
      Backend(credentials, reachable, rows, metadata)
    }

    /** `values.update` of Metadata!A1; it fails when the request fails or the sheet is missing. */
    method WriteVersionCell(now: string) returns (ok: bool)
      modifies this`metadata
      ensures ok == (reachable && old(metadata).Some?)
      ensures metadata == if ok then Some(old(metadata).value.(a1 := now)) else old(metadata)
    {
      ok := reachable && metadata.Some?;
      if ok {
        metadata := Some(metadata.value.(a1 := now));
      }
    }

    /** `batchUpdate` with `addSheet`; it fails when the request fails or the sheet already exists. */
    method AddMetadataSheet() returns (ok: bool)
      modifies this`metadata
      ensures ok == (reachable && old(metadata).None?)
      ensures metadata == if ok then Some(MetadataSheet(true, 1, 1, "")) else old(metadata)
    {
      ok := reachable && metadata.None?;
      if ok {
        metadata := Some(MetadataSheet(true, 1, 1, ""));
      }
    }

    method UpdateLastUpdated(now: string)
      modifies this`metadata
      ensures Snapshot() == AfterVersionUpdate(old(Snapshot()), now)
    {
      if !credentials {
        return;
      }
      var ok := WriteVersionCell(now);
      if !ok {
        var created := AddMetadataSheet();
        if created {
          ok := WriteVersionCell(now);
        }
      }
    }

    method AddSheetTransaction(t: Transaction, now: string) returns (st: Status)
      modifies this`rows, this`metadata
      ensures Outcome(st, Snapshot()) == AddOutcome(old(Snapshot()), t, now)
    {
      if !credentials {
        return Failed(CredentialsMissing);
      }
      if !reachable {
        return Failed(Unreachable);
      }
      rows := rows + [EncodeRow(t)];
      UpdateLastUpdated(now);
      return Done;
    }

    method UpdateSheetTransaction(t: Transaction, now: string) returns (st: Status)
      modifies this`rows, this`metadata
      ensures Outcome(st, Snapshot()) == UpdateOutcome(old(Snapshot()), t, now)
    {
      if !credentials {
        return Failed(CredentialsMissing);
      }
      if !reachable {
        return Failed(Unreachable);
      }
      if ColumnAEmpty(rows) {
        return Failed(NoDataFound);
      }
      var i := FindIndex(rows, HasId(t.id));
      if i == -1 {
        return Failed(NotFound);
      }
      rows := rows[i := EncodeRow(t)];
      UpdateLastUpdated(now);
      return Done;
    }

    method DeleteSheetTransaction(id: string, now: string) returns (st: Status)
      modifies this`rows, this`metadata
      ensures Outcome(st, Snapshot()) == DeleteOutcome(old(Snapshot()), id, now)
    {
      if !credentials {
        return Failed(CredentialsMissing);
      }
      if !reachable {
        return Failed(Unreachable);
      }
      if ColumnAEmpty(rows) {
        return Failed(NoDataFound);
      }
      var i := FindIndex(rows, HasId(id));
      if i == -1 {
        return Failed(NotFound);
      }
      rows := rows[..i] + rows[i + 1..];
      UpdateLastUpdated(now);
      return Done;
    }
  }

  /** An appended row becomes the last listed record once the header row exists. */
  lemma ListingAfterAdd(b: Backend, t: Transaction, now: string, month: Option<string>)
    requires AddOutcome(b, t, now).status == Done
    requires |b.rows| >= 1
    ensures var before := GetSheetTransactions(b, month);
            var after := GetSheetTransactions(AddOutcome(b, t, now).after, month);
            (after.None? <==> before.None?)
            && (before.Some? ==> after.value == before.value + ByMonth([WithMemoText(t)], month))
  {
    var after := AddOutcome(b, t, now).after;
    var r := EncodeRow(t);
    assert after.rows == b.rows + [r];
    assert DataRows(after.rows) == DataRows(b.rows) + [r];
    AppendKeepsThrow(b, after, r, month);
    DecodeEncode(t);
    assert DecodeAll(DataRows(b.rows) + [r]) == DecodeAll(DataRows(b.rows)) + [WithMemoText(t)];
    if month.Some? {
      FilterConcat(DecodeAll(DataRows(b.rows)), [WithMemoText(t)], InMonth(month.value));
    }
  }

  /** Appending a row with a date cell neither causes nor cures a throwing month read. */
  lemma AppendKeepsThrow(b: Backend, after: Backend, r: Row, month: Option<string>)
    requires after.rows == b.rows + [r] && after.credentials == b.credentials && after.reachable == b.reachable
    requires !LacksDate(r)
    ensures ReadThrows(after, month) <==> ReadThrows(b, month)
  {
    if ReadThrows(after, month) {
      var k :| 1 <= k < |after.rows| && LacksDate(after.rows[k]);
      assert k < |b.rows| && after.rows[k] == b.rows[k];
    }
    if ReadThrows(b, month) {
      var k :| 1 <= k < |b.rows| && LacksDate(b.rows[k]);
      assert after.rows[k] == b.rows[k];
    }
  }

  /** On a sheet without even a header row the appended row lands in row 1 and is never listed. */
  lemma AddToBlankSheetIsNotListed(b: Backend, t: Transaction, now: string, month: Option<string>)
    requires AddOutcome(b, t, now).status == Done
    requires |b.rows| == 0
    ensures GetSheetTransactions(AddOutcome(b, t, now).after, month) == Some([])
  {
  }

  lemma DecodeAllUpdate(rows: seq<Row>, j: nat, r: Row)
    requires j < |rows|
    ensures DecodeAll(rows[j := r]) == DecodeAll(rows)[j := DecodeRow(r)]
  {
  }

  /** An update replaces the matched record in place; a match on the header row changes no record. */
  lemma ListingAfterUpdate(b: Backend, t: Transaction, now: string)
    requires UpdateOutcome(b, t, now).status == Done
    ensures var i := IndexWhere(b.rows, HasId(t.id));
            var before := FetchTransactionsData(b);
            var after := FetchTransactionsData(UpdateOutcome(b, t, now).after);
            (i == 0 ==> after == before)
            && (i >= 1 ==> i - 1 < |before| && after == before[i - 1 := WithMemoText(t)])
  {
    var i := IndexWhere(b.rows, HasId(t.id));
    var after := UpdateOutcome(b, t, now).after;
    assert after.rows == b.rows[i := EncodeRow(t)];
    assert FetchTransactionsData(b) == DecodeAll(DataRows(b.rows));
    assert FetchTransactionsData(after) == DecodeAll(DataRows(after.rows));
    DecodeAfterRowUpdate(b.rows, i, EncodeRow(t));
    DecodeEncode(t);
  }

  /** Overwriting sheet row `i` overwrites record `i - 1`; the header row holds no record. */
  lemma DecodeAfterRowUpdate(rows: seq<Row>, i: nat, r: Row)
    requires i < |rows|
    ensures var before := DecodeAll(DataRows(rows));
            var after := DecodeAll(DataRows(rows[i := r]));
            (i == 0 ==> after == before)
            && (i >= 1 ==> i - 1 < |before| && after == before[i - 1 := DecodeRow(r)])
  {
    var data := DataRows(rows);
    if i == 0 {
      assert DataRows(rows[i := r]) == data;
    } else {
      assert DataRows(rows[i := r]) == data[i - 1 := r];
      DecodeAllUpdate(data, i - 1, r);
    }
  }

  /** A delete drops the matched record and keeps the others in order; a match on the header row promotes the first record to header. */
  lemma ListingAfterDelete(b: Backend, id: string, now: string)
    requires DeleteOutcome(b, id, now).status == Done
    ensures var i := IndexWhere(b.rows, HasId(id));
            var before := FetchTransactionsData(b);
            var after := FetchTransactionsData(DeleteOutcome(b, id, now).after);
            (i == 0 ==> after == if before == [] then [] else before[1..])
            && (i >= 1 ==> i - 1 < |before| && after == before[..i - 1] + before[i..])
  {
    var i := IndexWhere(b.rows, HasId(id));
    var after := DeleteOutcome(b, id, now).after;
    assert after.rows == b.rows[..i] + b.rows[i + 1..];
    assert FetchTransactionsData(b) == DecodeAll(DataRows(b.rows));
    assert FetchTransactionsData(after) == DecodeAll(DataRows(after.rows));
    DecodeAfterRowRemoval(b.rows, i);
  }

  /** Removing sheet row `i` removes record `i - 1`, or the first record when the header goes. */
  lemma DecodeAfterRowRemoval(rows: seq<Row>, i: nat)
    requires i < |rows|
    ensures var before := DecodeAll(DataRows(rows));
            var after := DecodeAll(DataRows(rows[..i] + rows[i + 1..]));
            (i == 0 ==> after == if before == [] then [] else before[1..])
            && (i >= 1 ==> i - 1 < |before| && after == before[..i - 1] + before[i..])
  {
    var rows' := rows[..i] + rows[i + 1..];
    var data := DataRows(rows);
    if i == 0 {
      assert rows' == rows[1..];
      if |rows| >= 2 {
        assert DataRows(rows') == data[1..];
        DecodeAllSlice(data, 1, |data|);
      }
    } else {
      assert DataRows(rows') == data[..i - 1] + data[i..];
      DecodeAllSlice(data, 0, i - 1);
      DecodeAllSlice(data, i, |data|);
      DecodeAllConcat(data[..i - 1], data[i..]);
    }
  }

  lemma DecodeAllSlice(rows: seq<Row>, lo: nat, hi: nat)
    requires lo <= hi <= |rows|
    ensures DecodeAll(rows[lo..hi]) == DecodeAll(rows)[lo..hi]
  {
  }

  lemma DecodeAllConcat(a: seq<Row>, c: seq<Row>)
    ensures DecodeAll(a + c) == DecodeAll(a) + DecodeAll(c)
  {
  }

  /** No two rows carry the same non-empty id in column A. */
  predicate IdsUnique(rows: seq<Row>)
  {
    forall j, k :: 0 <= j < k < |rows| && Cell(rows[j], 0) != "" ==> Cell(rows[j], 0) != Cell(rows[k], 0)
  }

  /** When ids are unique, no record read after a successful delete carries the deleted id. */
  lemma DeleteRemovesId(b: Backend, id: string, now: string, month: Option<string>)
    requires IdsUnique(b.rows)
    requires DeleteOutcome(b, id, now).status == Done
    ensures var r := GetSheetTransactions(DeleteOutcome(b, id, now).after, month);
            r.Some? ==> forall k :: 0 <= k < |r.value| ==> r.value[k].id != id
  {
    var after := DeleteOutcome(b, id, now).after;
    DeletedRowsLackId(b, id, now);
    assert id != "";
    RowsWithoutIdDecodeWithoutId(after.rows, id);
    assert FetchTransactionsData(after) == DecodeAll(DataRows(after.rows));
  }

  /** Rows none of which matches a non-empty id decode to records none of which carries it. */
  lemma RowsWithoutIdDecodeWithoutId(rows: seq<Row>, id: string)
    requires id != "" && forall k :: 0 <= k < |rows| ==> !HasId(id)(rows[k])
    ensures forall t :: t in DecodeAll(DataRows(rows)) ==> t.id != id
  {
    var all := DecodeAll(DataRows(rows));
    forall t | t in all
      ensures t.id != id
    {
      var m :| 0 <= m < |all| && all[m] == t;
      assert DataRows(rows)[m] == rows[m + 1];
      assert !HasId(id)(rows[m + 1]);
    }
  }

  /** When ids are unique, a successful delete leaves no row whose column A holds the id. */
  lemma DeletedRowsLackId(b: Backend, id: string, now: string)
    requires IdsUnique(b.rows)
    requires DeleteOutcome(b, id, now).status == Done
    ensures forall k :: 0 <= k < |DeleteOutcome(b, id, now).after.rows| ==>
              !HasId(id)(DeleteOutcome(b, id, now).after.rows[k])
  {
    var i := IndexWhere(b.rows, HasId(id));
    var rows' := DeleteOutcome(b, id, now).after.rows;
    assert rows' == b.rows[..i] + b.rows[i + 1..];
    forall k | 0 <= k < |rows'|
      ensures !HasId(id)(rows'[k])
    {
      if k < i {
        assert rows'[k] == b.rows[k];
      } else {
        assert rows'[k] == b.rows[k + 1];
        assert Cell(b.rows[i], 0) == id;
      }
    }
  }

  /** Saving the same record twice leaves the sheet's rows as saving it once. */
  lemma UpdateIdempotent(b: Backend, t: Transaction, now: string, later: string)
    requires UpdateOutcome(b, t, now).status == Done
    ensures var once := UpdateOutcome(b, t, now).after;
            UpdateOutcome(once, t, later).status == Done
            && UpdateOutcome(once, t, later).after.rows == once.rows
  {
    var i := IndexWhere(b.rows, HasId(t.id));
    var once := UpdateOutcome(b, t, now).after;
    assert once.rows == b.rows[i := EncodeRow(t)];
    assert HasId(t.id)(once.rows[i]);
    assert !ColumnAEmpty(once.rows);
    forall k | 0 <= k < i
      ensures !HasId(t.id)(once.rows[k])
    {
      assert once.rows[k] == b.rows[k];
    }
    assert IndexWhere(once.rows, HasId(t.id)) == i;
    assert once.rows[i := EncodeRow(t)] == once.rows;
  }
}
