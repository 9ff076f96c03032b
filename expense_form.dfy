/**
 * The add/edit form (`ExpenseForm.tsx`): its initial state, the field checks of
 * `validate`, and the submit gate.
 */
module ExpenseForm {
  import opened Optional
  import opened Text
  import opened ExpenseTypes
  import Expenses

  datatype FormErrors = FormErrors(
    date: Option<string>,
    amount: Option<string>,
    category: Option<string>,
    description: Option<string>)

  const NoErrors: FormErrors := FormErrors(None, None, None, None)

  const MaxDescription: nat := 120

  /** `form.amount` is non-empty, `parseFloat` reads a number, and that number is above 0. */
  predicate AmountValid(amount: string)
  {
    amount != "" && ParseDecimal(amount).Some? && ParseDecimal(amount).value.units > 0
  }

  /** The description has a non-blank trimmed form of at most 120 UTF-16 code units. */
  predicate DescriptionValid(description: string)
  {
    Trim(description) != "" && Utf16Length(Trim(description)) <= MaxDescription
  }

  /** A form `validate` accepts. */
  predicate FormValid(form: ExpenseFormData)
  {
    form.date != "" && AmountValid(form.amount) && DescriptionValid(form.description)
  }

  /**
   * `validate`: fills `errs` field by field and succeeds iff it stays empty.
   * The category always holds one of the six values, so it is never flagged.
   */
  method Validate(form: ExpenseFormData) returns (errs: FormErrors, ok: bool)
    ensures errs.date == (if form.date == "" then Some("Date is required") else None)
    ensures errs.amount.Some? <==> !AmountValid(form.amount)
    ensures errs.amount.Some? ==> errs.amount.value == "Enter a valid amount greater than 0"
    ensures errs.category == None
    ensures errs.description ==
              if Trim(form.description) == "" then Some("Description is required")
              else if Utf16Length(Trim(form.description)) > MaxDescription then Some("Description must be under 120 characters")
              else None
    ensures ok <==> errs == NoErrors
    ensures ok <==> FormValid(form)
  {
    errs := NoErrors;
    if form.date == "" {
      errs := errs.(date := Some("Date is required"));
    }
    if form.amount == "" || ParseDecimal(form.amount).None? || ParseDecimal(form.amount).value.units <= 0 {
      errs := errs.(amount := Some("Enter a valid amount greater than 0"));
    }
    var trimmed := Trim(form.description);
    if trimmed == "" {
      errs := errs.(description := Some("Description is required"));
    } else if Utf16Length(trimmed) > MaxDescription {
      errs := errs.(description := Some("Description must be under 120 characters"));
    }
    ok := errs.date.None? && errs.amount.None? && errs.category.None? && errs.description.None?;
  }

  /** `handleSubmit`: the form, untrimmed, reaches `onSubmit` exactly when it validates. */
  method HandleSubmit(form: ExpenseFormData) returns (submitted: Option<ExpenseFormData>, errs: FormErrors)
    ensures submitted.Some? <==> FormValid(form)
    ensures submitted.Some? ==> submitted.value == form && errs == NoErrors
    ensures errs.date == (if form.date == "" then Some("Date is required") else None)
    ensures errs.amount.Some? <==> !AmountValid(form.amount)
    ensures errs.amount.Some? ==> errs.amount.value == "Enter a valid amount greater than 0"
    ensures errs.category == None
    ensures errs.description ==
              if Trim(form.description) == "" then Some("Description is required")
              else if Utf16Length(Trim(form.description)) > MaxDescription then Some("Description must be under 120 characters")
              else None
  {
    var ok;
    errs, ok := Validate(form);
    submitted := if ok then Some(form) else None;
  }

  /** The initial state: a copy of the record being edited, or a blank form for today. */
  function InitialForm(initial: Option<Expense>, today: string): (form: ExpenseFormData)
    ensures initial.None? ==> form.date == today && form.amount == "" && form.category == Food && form.description == ""
    ensures initial.Some? ==> var e := initial.value;
              form.date == e.date && form.category == e.category && form.description == e.description
              && Expenses.ParseAmount(form.amount) == Some(e.amount)
  {
    match initial
    case Some(e) =>
      var form := ExpenseFormData(e.date, FormatFixed2(e.amount), e.category, e.description);
      Expenses.ParseAmountOfFixed2(e.amount);
      form
    case None => ExpenseFormData(today, "", Food, "")
  }

  /** A blank form never validates: its amount is empty. */
  lemma NewFormInvalid(today: string)
    ensures !FormValid(InitialForm(None, today))
    ensures InitialForm(None, today).category == Food && InitialForm(None, today).date == today
  {
  }

  /** A form that validates has an amount the store can parse. */
  lemma ValidFormParses(form: ExpenseFormData)
    requires FormValid(form)
    ensures Expenses.ParseAmount(form.amount).Some?
  {
  }

  /**
   * Opening a stored record for editing and saving it unchanged validates and
   * gives back the same record, whenever its date is set, its amount is positive
   * and its description is already trimmed and within 120 code units.
   */
  lemma EditUnchangedRoundTrip(e: Expense, today: string)
    requires e.date != "" && e.amount > 0
    requires e.description != "" && Trim(e.description) == e.description
    requires Utf16Length(e.description) <= MaxDescription
    ensures FormValid(InitialForm(Some(e), today))
    ensures Expenses.ParseAmount(InitialForm(Some(e), today).amount).Some?
    ensures Expenses.WithForm(e, InitialForm(Some(e), today)) == e
  {
    ParseFixed2(e.amount);
    Expenses.ParseAmountOfFixed2(e.amount);
  }
}
