/**
 * The add/edit expense form: its validity rule, the values it submits, the
 * row the fallback insert path writes, and the form state around a submit
 * (`submitting` guard, closing, resetting after success).
 */
module ExpenseSheet {
  import opened Wrappers
  import opened Text
  import opened Dates
  import opened Validation
  import opened Records

  datatype Mode = Add | Edit

  /** `PersonalExpenseFormValues`; the amount stays text until submit. */
  datatype FormValues = FormValues(kind: ExpenseType, amount: string, date: Option<JsDate>, category: string, note: string)

  /** `Partial<PersonalExpenseFormValues>`: each field may be missing. */
  datatype InitialValues = InitialValues(
    kind: Option<ExpenseType>,
    amount: Option<string>,
    date: Option<JsDate>,
    category: Option<string>,
    note: Option<string>
  )

  /** `x ?? d` for a possibly missing `initial` and field. */
  function OrElse<T>(o: Option<T>, d: T): T {
    if o.Some? then o.value else d
  }

  /**
   * `isValid`: the amount passes `isAmount2dp` and is positive, the date is
   * present and valid, and an expense has a category that is not blank.
   */
  function FormIsValid(v: FormValues): (ok: bool)
    ensures ok ==> IsAmount2dp(v.amount) && HasNonZeroDigit(Trim(v.amount))
    ensures ok ==> ToIsoDate(v.date).Some?
    ensures ok ==> v.kind == Income || Trim(v.category) != ""
    ensures (IsAmount2dp(v.amount) && HasNonZeroDigit(Trim(v.amount)) && ToIsoDate(v.date).Some?
             && (v.kind == Income || Trim(v.category) != "")) ==> ok
  {
    var validAmount := IsAmount2dp(v.amount) && To2dpCents(v.amount) > 0;
    var validDate := IsRequiredDate(v.date);
    var validCategory := v.kind == Income || |Trim(v.category)| > 0;
    validAmount && validDate && validCategory
  }

  /** The submitted `values`: category forced to "Income" for income, otherwise trimmed; note trimmed. */
  function SubmittedValues(v: FormValues): (s: FormValues)
    ensures s.kind == v.kind && s.amount == v.amount && s.date == v.date
    ensures v.kind == Income ==> s.category == "Income"
    ensures v.kind == Expense ==> s.category == Trim(v.category)
    ensures s.note == Trim(v.note)
  {
    FormValues(v.kind, v.amount, v.date, if v.kind == Income then "Income" else Trim(v.category), Trim(v.note))
  }

  /** Submitting keeps a valid form valid, and the values are already trimmed. */
  lemma SubmittedStaysValid(v: FormValues)
    requires FormIsValid(v)
    ensures FormIsValid(SubmittedValues(v))
    ensures Trim(SubmittedValues(v).category) == SubmittedValues(v).category
    ensures Trim(SubmittedValues(v).note) == SubmittedValues(v).note
  {
    var s := SubmittedValues(v);
    TrimIdempotent(v.note);
    if v.kind == Income {
      IncomeNameIsClean(s.category);
    } else {
      TrimIdempotent(v.category);
    }
  }

  lemma IncomeNameIsClean(name: string)
    requires name == "Income"
    ensures Trim(name) == name && name != ""
  {
    assert !IsJsWhitespace(name[0]) && !IsJsWhitespace(name[|name| - 1]);
    TrimOfClean(name);
  }

  /** The row `createPersonalExpense` receives on the fallback path. */
  datatype NewExpenseRow = NewExpenseRow(
    userId: string,
    amountCents: nat,
    date: string,
    isIncome: bool,
    category: string,
    comment: Option<string>
  )

  /** The row built from submitted values: amount in cents, ISO date, `is_income`, `note || null`. */
  function InsertRow(userId: string, s: FormValues): (row: NewExpenseRow)
    requires FormIsValid(s)
    ensures row.amountCents > 0
    ensures Some(row.date) == ToIsoDate(s.date)
    ensures row.isIncome <==> s.kind == Income
    ensures row.category == s.category && row.userId == userId
    ensures row.comment.None? <==> s.note == ""
    ensures row.comment.Some? ==> row.comment.value == s.note
  {
    NewExpenseRow(userId, To2dpCents(s.amount), ToIsoDate(s.date).value, s.kind == Income, s.category,
                  if s.note == "" then None else Some(s.note))
  }

  /** A valid form inserts a positive amount, a non-blank category and a comment that is trimmed or absent. */
  lemma InsertedRowFromForm(userId: string, v: FormValues)
    requires FormIsValid(v)
    ensures FormIsValid(SubmittedValues(v))
    ensures var row := InsertRow(userId, SubmittedValues(v));
            && row.amountCents > 0
            && row.category != "" && Trim(row.category) == row.category
            && (row.isIncome ==> row.category == "Income")
            && (row.comment.None? <==> AllWhitespace(v.note))
            && (row.comment.Some? ==> row.comment.value == Trim(v.note))
  {
    SubmittedStaysValid(v);
    TrimEmptyIffBlank(v.note);
  }

  /** What the session lookup yields on the fallback path. */
  datatype Session = SessionError(message: string) | SignedOut | SignedIn(userId: string)

  /** What `doSubmit` does with the values. */
  datatype SubmitAction = CallHandler(values: FormValues) | Insert(row: NewExpenseRow) | Fail(message: string)

  /** `doSubmit`: the caller's handler if given, else the session check and the insert. */
  function DoSubmit(s: FormValues, hasHandler: bool, session: Session): (a: SubmitAction)
    requires FormIsValid(s)
    ensures hasHandler ==> a == CallHandler(s)
    ensures !hasHandler && session.SessionError? ==> a == Fail(session.message)
    ensures !hasHandler && session.SignedOut? ==> a == Fail("Not signed in")
    ensures !hasHandler && session.SignedIn? ==> a == Insert(InsertRow(session.userId, s))
  {
    if hasHandler then CallHandler(s)
    else match session
      case SessionError(m) => Fail(m)
      case SignedOut => Fail("Not signed in")
      case SignedIn(id) => Insert(InsertRow(id, s))
  }

  /** What a submit of form `v` starts: nothing for an invalid form, else `doSubmit` on the submitted values. */
  function SubmitFor(v: FormValues, hasHandler: bool, session: Session): (a: Option<SubmitAction>)
    ensures a.Some? <==> FormIsValid(v)
    ensures a.Some? ==> FormIsValid(SubmittedValues(v)) && a.value == DoSubmit(SubmittedValues(v), hasHandler, session)
  {
    if FormIsValid(v) then
      SubmittedStaysValid(v);
      Some(DoSubmit(SubmittedValues(v), hasHandler, session))
    else None
  }

  /** The values the form starts with: `initial` where given, today's date only in add mode. */
  function InitialForm(mode: Mode, initial: Option<InitialValues>, today: JsDate): (v: FormValues)
    ensures initial.None? ==> v.kind == Expense && v.amount == "" && v.category == "" && v.note == ""
    ensures initial.None? ==> (v.date == if mode == Add then Some(today) else None)
    ensures initial.Some? ==> (v.kind == if initial.value.kind.Some? then initial.value.kind.value else Expense)
    ensures initial.Some? ==> (v.amount == if initial.value.amount.Some? then initial.value.amount.value else "")
    ensures initial.Some? ==> (v.category == if initial.value.category.Some? then initial.value.category.value else "")
    ensures initial.Some? ==> (v.note == if initial.value.note.Some? then initial.value.note.value else "")
    ensures initial.Some? && initial.value.date.Some? ==> v.date == initial.value.date
    ensures initial.Some? && initial.value.date.None? ==> (v.date == if mode == Add then Some(today) else None)
  {
    var i := OrElse(initial, InitialValues(None, None, None, None, None));
    FormValues(OrElse(i.kind, Expense), OrElse(i.amount, ""),
               if i.date.Some? then i.date else if mode == Add then Some(today) else None,
               OrElse(i.category, ""), OrElse(i.note, ""))
  }

  /** `resetForm()`: blank with today's date in add mode; `initial` again in edit mode, defaulting the date to today. */
  function ResetValues(mode: Mode, initial: Option<InitialValues>, today: JsDate): (v: FormValues)
    ensures v.date.Some?
    ensures mode == Add ==> v == FormValues(Expense, "", Some(today), "", "")
    ensures mode == Edit ==> v == InitialForm(mode, initial, today).(date := Some(OrElse(InitialForm(mode, initial, today).date, today)))
  {
    if mode == Add then FormValues(Expense, "", Some(today), "", "")
    else
      var i := OrElse(initial, InitialValues(None, None, None, None, None));
      FormValues(OrElse(i.kind, Expense), OrElse(i.amount, ""), Some(OrElse(i.date, today)),
                 OrElse(i.category, ""), OrElse(i.note, ""))
  }

  /** Without `initial`, resetting an add form gives back the form it started as. */
  lemma AddResetIsInitial(today: JsDate)
    ensures ResetValues(Add, None, today) == InitialForm(Add, None, today)
  {
  }

  /** An edit form without an initial date starts with none, but a reset fills in today. */
  lemma EditResetFillsDate(initial: Option<InitialValues>, today: JsDate)
    requires initial.None? || initial.value.date.None?
    ensures InitialForm(Edit, initial, today).date.None?
    ensures ResetValues(Edit, initial, today).date == Some(today)
  {
  }

  /** The form's state. */
  class Sheet {
    const mode: Mode
    const initial: Option<InitialValues>
    var open: bool
    var values: FormValues
    var submitting: bool

    constructor (mode: Mode, initial: Option<InitialValues>, today: JsDate)
      ensures this.mode == mode && this.initial == initial
      ensures values == InitialForm(mode, initial, today) && !open && !submitting
    {
      this.mode := mode;
      this.initial := initial;
      open := false;
      values := InitialForm(mode, initial, today);
      submitting := false;
    }

    /** `isValid` */
    function IsValid(): bool
      reads this
    {
      FormIsValid(values)
    }

    method ResetForm(today: JsDate)
      modifies this
      ensures values == ResetValues(mode, initial, today)
      ensures open == old(open) && submitting == old(submitting)
    {
      if mode == Add {
        values := FormValues(Expense, "", Some(today), "", "");
      } else {
        var i := OrElse(initial, InitialValues(None, None, None, None, None));
        values := FormValues(OrElse(i.kind, Expense), OrElse(i.amount, ""), Some(OrElse(i.date, today)),
                             OrElse(i.category, ""), OrElse(i.note, ""));
      }
    }

    /** The guard of `handleSubmit()`: `!isValid || submitting` means nothing to do. */
    method CanSubmit() returns (ok: bool)
      ensures ok <==> FormIsValid(values) && !submitting
    {
      ok := !submitting && FormIsValid(values);
    }

    /** Past the guard: raise the flag, start `doSubmit` on the submitted values, close the sheet. */
    method StartSubmit(hasHandler: bool, session: Session) returns (action: Option<SubmitAction>)
      modifies this
      ensures unchanged(this`values)
      ensures action == SubmitFor(old(values), hasHandler, session)
      ensures submitting && !open
    {
      action := SubmitFor(values, hasHandler, session);
      submitting := true;
      open := false;
    }

    /**
     * `handleSubmit()` up to its `await`: nothing happens for an invalid form
     * or while a submit is in flight; otherwise the flag is raised, `doSubmit`
     * starts on the submitted values and the sheet closes.
     */
    method BeginSubmit(hasHandler: bool, session: Session) returns (action: Option<SubmitAction>)
      modifies this
      ensures unchanged(this`values)
      ensures !old(FormIsValid(values)) || old(submitting) ==>
                action.None? && open == old(open) && submitting == old(submitting)
      ensures old(FormIsValid(values)) && !old(submitting) ==>
                action == SubmitFor(old(values), hasHandler, session) && action.Some? && submitting && !open
    {
      var ok := CanSubmit();
      if !ok {
        return None;
      }
      action := StartSubmit(hasHandler, session);
    }

    /** The rest of `handleSubmit()`: reset after success, and in every case lower the flag. */
    method SettleSubmit(succeeded: bool, today: JsDate)
      modifies this
      ensures !submitting && open == old(open)
      ensures values == if succeeded then ResetValues(mode, initial, today) else old(values)
    {
      if succeeded {
        ResetForm(today);
      }
      submitting := false;
    }
  }
}
