/**
 * The add/edit form. Opened with an `id` (and the record's `date`) it loads
 * that record and saves with an update; opened without one it starts from
 * defaults and saves with an add under a freshly generated id. The amount field
 * keeps only decimal digits; the submit and delete buttons are disabled while
 * a save is in flight, and the page leaves only after a save returns normally.
 */
module AddPage {
  import opened Wrappers
  import opened Seqs
  import opened Numerals
  import opened Ledger
  import opened SheetStore
  import opened LocalStore
  import opened ServerActions
  import opened DataAccess

  /** The form's fields; every field is text except the type toggle. */
  datatype FormData = FormData(
    date: string,
    amount: string,
    category: string,
    merchant: string,
    consumer: string,
    kind: TxType,
    memo: string)

  /** A query parameter that is absent or empty is falsy. */
  predicate Present(param: Option<string>)
  {
    param.Some? && param.value != ""
  }

  /** `date: dateParam || today`, and the fixed defaults of the other fields. */
  function DefaultForm(dateParam: Option<string>, today: string): (f: FormData)
    ensures f.date == if Present(dateParam) then dateParam.value else today
    ensures f.category == "식비" && f.consumer == "함께" && f.kind == Expense
    ensures f.amount == "" && f.merchant == "" && f.memo == ""
  {
    FormData(if Present(dateParam) then dateParam.value else today, "", "식비", "", "함께", Expense, "")
  }

  /** The fields marked `required` (date, amount, merchant) must be non-empty for the browser to submit. */
  predicate Submittable(f: FormData)
  {
    f.date != "" && f.amount != "" && f.merchant != ""
  }

  /** A fresh form cannot be saved until an amount and a merchant are entered. */
  lemma DefaultFormNeedsInput(dateParam: Option<string>, today: string)
    ensures !Submittable(DefaultForm(dateParam, today))
  {
  }

  /** `value.replace(/[^0-9]/g, '')`: the digits of the typed text, in their order. */
  function DigitsOnly(s: string): (r: string)
    ensures AllDigits(r) && |r| <= |s|
    ensures forall i :: 0 <= i < |s| && IsDigit(s[i]) ==> s[i] in r
  {
    assert forall i :: 0 <= i < |s| && IsDigit(s[i]) ==> ((c: char) => IsDigit(c))(s[i]);
    Filter(s, (c: char) => IsDigit(c))
  }

  /** Text that is already all digits passes the filter unchanged, so filtering twice is filtering once. */
  lemma DigitsOnlyIdempotent(s: string)
    ensures AllDigits(s) ==> DigitsOnly(s) == s
    ensures DigitsOnly(DigitsOnly(s)) == DigitsOnly(s)
  {
    FilterKeepsAll(DigitsOnly(s), (c: char) => IsDigit(c));
    if AllDigits(s) {
      FilterKeepsAll(s, (c: char) => IsDigit(c));
    }
  }

  /**
   * Typing into the amount field decides whether the browser lets the form be
   * submitted: only text with at least one digit fills the required amount.
   */
  lemma AmountInputDecidesSubmit(f: FormData, typed: string)
    ensures Submittable(f.(amount := DigitsOnly(typed)))
        <==> f.date != "" && f.merchant != "" && exists i :: 0 <= i < |typed| && IsDigit(typed[i])
  {
    var digits := DigitsOnly(typed);
    if digits != "" {
      assert digits[0] in typed && IsDigit(digits[0]);
    }
    if exists i :: 0 <= i < |typed| && IsDigit(typed[i]) {
      var i :| 0 <= i < |typed| && IsDigit(typed[i]);
      assert typed[i] in digits;
    }
  }

  /** The digits of a text are the digits of its first part followed by those of its rest: order is kept. */
  lemma DigitsOnlyKeepsOrder(a: string, b: string)
    ensures DigitsOnly(a + b) == DigitsOnly(a) + DigitsOnly(b)
  {
    FilterConcat(a, b, (c: char) => IsDigit(c));
  }

  /** `setFormData({...})` after a record is found: amount as text, absent memo as `''`. */
  function FormFromRecord(t: Transaction): (f: FormData)
    ensures NumberValue(f.amount) == Some(t.amount)
    ensures f.memo == MemoText(t.memo)
  {
    NumberValueOfIntToString(t.amount);
    FormData(t.date, IntToString(t.amount), t.category, t.merchant, t.consumer, t.kind, MemoText(t.memo))
  }

  /** The two calls a save can make. */
  datatype Request = AddRequest(record: Transaction) | UpdateRequest(record: Transaction)

  /**
   * `handleSubmit`'s record and call: the edited id or a fresh one, the
   * amount read as a number, the memo always present; an id means update.
   */
  function SubmitRequest(f: FormData, idParam: Option<string>, freshId: string): (req: Request)
    ensures req.UpdateRequest? <==> Present(idParam)
    ensures req.record.id == if Present(idParam) then idParam.value else freshId
    ensures AllDigits(f.amount) ==> req.record.amount == DigitsValue(f.amount) && req.record.amount >= 0
    ensures req.record.memo == Some(f.memo)
    ensures req.record.date == f.date && req.record.merchant == f.merchant && req.record.kind == f.kind
    ensures req.record.category == f.category && req.record.consumer == f.consumer
  {
    var record := Transaction(
      if Present(idParam) then idParam.value else freshId,
      f.date, NumberValue(f.amount).GetOr(0), f.category, f.merchant, f.consumer, f.kind, Some(f.memo));
    if Present(idParam) then UpdateRequest(record) else AddRequest(record)
  }

  /** Saving a loaded record without edits sends back that record, with its memo made present. */
  lemma {:induction false} UnchangedEditRoundTrip(t: Transaction, freshId: string)
    requires t.id != ""
    ensures SubmitRequest(FormFromRecord(t), Some(t.id), freshId) == UpdateRequest(WithMemoText(t))
  {
    NumberValueOfIntToString(t.amount);
  }

  /** `dateParam.substring(0, 7)`: the month part of the date, or the whole text when shorter. */
  function MonthOf(date: string): (m: string)
    ensures m <= date && |m| <= 7
    ensures |date| >= 7 ==> |m| == 7
  {
    if |date| >= 7 then date[..7] else date
  }

  /** A record loaded for editing is found among the month read of its own date. */
  lemma LoadedRecordIsInItsMonth(ts: seq<Transaction>, t: Transaction)
    requires t in ts
    ensures t in ByMonth(ts, Some(MonthOf(t.date)))
  {
    ByMonthMembers(ts, MonthOf(t.date), t);
  }

  /**
   * The form after the edit-mode load has read a month: the first record with
   * the id, copied in; the form as it was when the read threw or found nothing.
   */
  function LoadedForm(read: Option<seq<Transaction>>, id: string, current: FormData): FormData
  {
    if read.None? then current
    else
      var i := IndexWhere(read.value, SameId(id));
      if i != -1 then FormFromRecord(read.value[i]) else current
  }

  class TransactionForm {
    const idParam: Option<string>
    const dateParam: Option<string>
    const service: DataService
    var form: FormData
    /** Set when a save or delete starts; nothing sets it back. */
    var loading: bool
    /** `router.back()` and `router.refresh()` have run. */
    var leftPage: bool

    /** The data service dispatches consistently, and the page is left only after a save or delete started. */
    predicate Valid()
      reads this, service, service.actions
    {
      service.Valid() && (leftPage ==> loading)
    }

    constructor(idParam: Option<string>, dateParam: Option<string>, today: string, service: DataService)
      requires service.Valid()
      ensures this.idParam == idParam && this.dateParam == dateParam && this.service == service
      ensures Valid()
      ensures form == DefaultForm(dateParam, today) && !loading && !leftPage
    {
      this.idParam := idParam;
      this.dateParam := dateParam;
      this.service := service;
      form := DefaultForm(dateParam, today);
      loading := false;
      leftPage := false;
    }

    /** The amount input's change handler: whatever was typed, only its digits are kept. */
    method EditAmount(typed: string)
      modifies this`form
      ensures form == old(form).(amount := DigitsOnly(typed))
      ensures AllDigits(form.amount)
    {
      form := form.(amount := DigitsOnly(typed));
    }

    /**
     * The edit-mode load: with both an id and a date, read the month of the
     * date and copy the first record with that id into the form; otherwise,
     * when no record has the id, or when the read throws (the rejected load
     * never reaches `setFormData`), the form stays as it is.
     */
    method LoadForEdit(today: string)
      requires service.Valid()
      modifies this`form
      ensures Present(idParam) && Present(dateParam) ==>
                form == LoadedForm(service.GetTransactions(Some(MonthOf(dateParam.value)), today), idParam.value, old(form))
      ensures !(Present(idParam) && Present(dateParam)) ==> form == old(form)
    {
      if Present(idParam) && Present(dateParam) {
        var read := service.GetTransactions(Some(MonthOf(dateParam.value)), today);
        if read.Some? {
          var ts := read.value;
          var i := FindIndex(ts, SameId(idParam.value));
          if i != -1 {
            form := FormFromRecord(ts[i]);
          }
        }
      }
    }

    /**
     * `handleSubmit`. The browser submits only a form whose required fields
     * are filled and whose submit button is enabled; then the request goes to
     * the data service, and the page is left only when the call returns normally.
     */
    method Submit(freshId: string, now: string) returns (sent: Option<Status>)
      requires Valid()
      modifies this`loading, this`leftPage
      modifies service.actions.sheet`rows, service.actions.sheet`metadata, service.actions`revalidated, service.local
      ensures Valid()
      ensures !Submittable(form) || old(loading) ==>
                sent.None? && loading == old(loading) && leftPage == old(leftPage)
                && service.actions.sheet.Snapshot() == old(service.actions.sheet.Snapshot())
                && service.local.Current() == old(service.local.Current())
                && service.actions.revalidated == old(service.actions.revalidated)
      ensures Submittable(form) && !old(loading) ==>
                sent.Some? && loading && (leftPage <==> sent.value == Done)
      ensures sent.Some? && service.serverMode ==>
                var req := SubmitRequest(form, idParam, freshId);
                Outcome(sent.value, service.actions.sheet.Snapshot())
                == match req
                   case AddRequest(t) => AddOutcome(old(service.actions.sheet.Snapshot()), t, now)
                   case UpdateRequest(t) => UpdateOutcome(old(service.actions.sheet.Snapshot()), t, now)
      ensures sent.Some? && service.serverMode ==>
                unchanged(service.local)
                && service.actions.revalidated
                   == old(service.actions.revalidated) + (if sent.value == Done then RevalidatedPaths else [])
      ensures sent.Some? && !service.serverMode ==>
                var req := SubmitRequest(form, idParam, freshId);
                var before := old(service.local.Current());
                var i := IndexWhere(before, SameId(req.record.id));
                sent.value == Done
                && service.actions.revalidated == old(service.actions.revalidated)
                && service.local.Current()
                   == if !service.local.hasWindow then before
                      else match req
                           case AddRequest(t) => before + [t]
                           case UpdateRequest(t) => if i != -1 then before[i := t] else before
    {
      if !Submittable(form) || loading {
        return None;
      }
      loading := true;
      var req := SubmitRequest(form, idParam, freshId);
      var st: Status;
      if req.UpdateRequest? {
        st := service.UpdateTransaction(req.record, now);
      } else {
        st := service.AddTransaction(req.record, now);
      }
      if st == Done {
        leftPage := true;
      }
      sent := Some(st);
    }

    /**
     * The delete button, shown only in edit mode: after the user confirms, the
     * record's id goes to the data service, and the page is left only when the
     * call returns normally.
     */
    method Delete(confirmed: bool, now: string) returns (sent: Option<Status>)
      requires Valid()
      modifies this`loading, this`leftPage
      modifies service.actions.sheet`rows, service.actions.sheet`metadata, service.actions`revalidated, service.local
      ensures Valid()
      ensures !(Present(idParam) && confirmed && !old(loading)) ==>
                sent.None? && loading == old(loading) && leftPage == old(leftPage)
                && service.actions.sheet.Snapshot() == old(service.actions.sheet.Snapshot())
                && service.local.Current() == old(service.local.Current())
                && service.actions.revalidated == old(service.actions.revalidated)
      ensures Present(idParam) && confirmed && !old(loading) ==>
                sent.Some? && loading && (leftPage <==> sent.value == Done)
      ensures sent.Some? && service.serverMode ==>
                Outcome(sent.value, service.actions.sheet.Snapshot())
                == DeleteOutcome(old(service.actions.sheet.Snapshot()), idParam.value, now)
      ensures sent.Some? && service.serverMode ==>
                unchanged(service.local)
                && service.actions.revalidated
                   == old(service.actions.revalidated) + (if sent.value == Done then RevalidatedPaths else [])
      ensures sent.Some? && !service.serverMode ==>
                sent.value == Done
                && service.actions.revalidated == old(service.actions.revalidated)
                && service.local.Current()
                   == if service.local.hasWindow then Filter(old(service.local.Current()), OtherId(idParam.value))
                      else old(service.local.Current())
    {
      if !(Present(idParam) && confirmed && !loading) {
        return None;
      }
      loading := true;
      var st := service.DeleteTransaction(idParam.value, now);
      if st == Done {
        leftPage := true;
      }
      sent := Some(st);
    }
  }
}
