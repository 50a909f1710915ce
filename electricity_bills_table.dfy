/** The electricity bills table: its form derivation, the payload it
    writes, and the component state its handlers update. */
module ElectricityBills {
  import opened Base
  import opened Strings
  import opened Numbers
  import opened Bills

  /** handleChange: set the edited input; when a reading or the rate
      changes and the clamped difference of the readings and the rate are
      both positive, rewrite the amount as their product to the cent. The
      consumption input is never written. Unreadable inputs count as 0. */
  function ElectricityChange(f: FormData, name: FieldName, value: string): (r: FormData)
    ensures r.Get(name) == value
    ensures forall other :: other != name && other != AmountField ==> r.Get(other) == f.Get(other)
    ensures !IsMeterField(name) ==> r == f.Set(name, value)
    ensures IsMeterField(name) ==>
              var c := DeriveConsumption(ParseOrZero(r.previousReading), ParseOrZero(r.currentReading));
              var a := DeriveAmount(c, ParseOrZero(r.rate));
              (a.Some? ==> Parse(r.amount) == Finite(a.value))
              && (a.None? ==> r.amount == f.amount)
  {
    var g := f.Set(name, value);
    if !IsMeterField(name) then g
    else
      var c := DeriveConsumption(ParseOrZero(g.previousReading), ParseOrZero(g.currentReading));
      match DeriveAmount(c, ParseOrZero(g.rate))
      case None => g
      case Some(a) => ParseToFixed2(a); g.(amount := ToFixed2(a))
  }

  /** The fields handleAddBill and handleEditBill write: the parsed readings,
      rate and amount, and the consumption as Math.max(0, current - previous). */
  function ElectricityRecord(f: FormData): BillFields
  {
    var previous, current := Parse(f.previousReading), Parse(f.currentReading);
    BillFields(f.month, previous, current, ClampAtZero(Minus(current, previous)), Parse(f.rate), Parse(f.amount))
  }

  /** The stored consumption is never negative: NaN when a reading does not
      parse, otherwise the clamped difference of the readings. */
  lemma ElectricityRecordConsumption(f: FormData)
    ensures var r := ElectricityRecord(f).consumption;
            (r.Finite? <==> Parse(f.previousReading).Finite? && Parse(f.currentReading).Finite?)
            && (r.Finite? ==> r.hundredths >= 0)
            && (r.Finite? ==> r.hundredths == DeriveConsumption(Parse(f.previousReading).hundredths, Parse(f.currentReading).hundredths))
  {
  }

  /** A current reading below the previous one is stored as zero
      consumption: readings p and then c < p, as the form shows them, store
      0. */
  lemma ElectricityRecordClamped(f: FormData, p: int, c: int)
    requires f.previousReading == NumberToString(p) && f.currentReading == NumberToString(c)
    requires c < p
    ensures ElectricityRecord(f).consumption == Finite(0)
  {
    ParseNumberToString(p);
    ParseNumberToString(c);
  }

  /** Saving an edit of a bill without touching the form writes the bill's
      own readings, rate and amount, and the clamped difference of its
      readings as consumption. */
  lemma ElectricityEditUnchanged(b: Bill)
    ensures ElectricityRecord(EditForm(b))
            == BillFields(b.month, Finite(b.previousReading), Finite(b.currentReading),
                          Finite(DeriveConsumption(b.previousReading, b.currentReading)), Finite(b.rate), Finite(b.amount))
  {
    EditFormReadsBack(b);
  }

  /** On readable readings the read-only consumption shows what is stored
      on save. */
  lemma ElectricityShownIsStored(f: FormData)
    requires Parse(f.previousReading).Finite? && Parse(f.currentReading).Finite?
    ensures Parse(ConsumptionShown(f)) == ElectricityRecord(f).consumption
  {
    ConsumptionShownDerived(f);
  }

  /** The electricity bills table component's state. */
  class ElectricityBillsTable {
    var bills: seq<Bill>
    var formData: FormData
    var sort: SortState
    var editBill: Option<Bill>
    var selectedYear: int
    var searchTerm: string
    var showAddForm: bool
    var showEditForm: bool
    var error: Option<string>

    /** The edit form is only open on a selected bill; nothing sets the
        search term. */
    predicate Valid()
      reads this
    {
      (showEditForm ==> editBill.Some?) && searchTerm == ""
    }

    constructor (currentYear: int)
      ensures Valid()
      ensures bills == [] && formData == EmptyForm && sort == InitialSort && editBill.None?
      ensures selectedYear == currentYear && searchTerm == ""
      ensures !showAddForm && !showEditForm && error.None?
    {
      bills := [];
      formData := EmptyForm;
      sort := InitialSort;
      editBill := None;
      selectedYear := currentYear;
      searchTerm := "";
      showAddForm := false;
      showEditForm := false;
      error := None;
    }

    /** The table's rows: the loaded bills of the selected year. */
    function FilteredBills(): (r: seq<Bill>)
      reads this
      ensures IsSubsequence(r, bills)
      ensures searchTerm == "" ==> forall i :: 0 <= i < |bills| ==> (bills[i] in r <==> YearOf(bills[i].month) == Some(selectedYear))
    {
      FilterBills(bills, selectedYear, searchTerm)
    }

    /** fetchBills, given the store's answer for the signed-in user's rows in
        the current sort order; a missing user stops before the query. */
    method FetchBills(user: Option<string>, response: Result<Option<seq<Bill>>>)
      requires Valid()
      modifies this`bills, this`error
      ensures Valid()
      ensures user.None? ==> error == Some("User not authenticated") && bills == old(bills)
      ensures user.Some? && response.Failure? ==> error == Some(response.error) && bills == old(bills)
      ensures user.Some? && response.Success? ==>
                error.None? && bills == match response.value case None => [] case Some(rows) => rows
    {
      error := None;
      if user.None? {
        error := Some("User not authenticated");
        return;
      }
      match response
      case Failure(message) => error := Some(message);
      case Success(data) =>
        bills := match data case None => [] case Some(rows) => rows;
    }

    /** handleSort. */
    method HandleSort(clicked: SortKey)
      requires Valid()
      modifies this`sort
      ensures Valid()
      ensures sort == NextSort(old(sort), clicked)
    {
      sort := NextSort(sort, clicked);
    }

    /** The year filter's select. */
    method SelectYear(year: int)
      requires Valid()
      modifies this`selectedYear
      ensures Valid()
      ensures selectedYear == year
    {
      selectedYear := year;
    }

    /** handleChange on one of the inputs. */
    method HandleChange(name: FieldName, value: string)
      requires Valid()
      modifies this`formData
      ensures Valid()
      ensures formData == ElectricityChange(old(formData), name, value)
    {
      formData := ElectricityChange(formData, name, value);
    }

    /** The form's month select. */
    method ChooseFormMonth(choice: string, currentYear: int)
      requires Valid()
      modifies this`formData
      ensures Valid()
      ensures formData == old(formData).(month := ChooseMonth(old(formData).month, choice, currentYear))
    {
      formData := formData.(month := ChooseMonth(formData.month, choice, currentYear));
    }

    /** The form's year select. */
    method ChooseFormYear(choice: string)
      requires Valid()
      modifies this`formData
      ensures Valid()
      ensures formData == old(formData).(month := ChooseYear(old(formData).month, choice))
    {
      formData := formData.(month := ChooseYear(formData.month, choice));
    }

    /** startAddBill, on today's year and month. */
    method StartAddBill(currentYear: int, currentMonth: int)
      requires Valid()
      modifies this`formData, this`showAddForm
      ensures Valid()
      ensures formData == NewBillForm(old(bills), currentYear, currentMonth)
      ensures showAddForm
    {
      var loaded := bills;
      showAddForm := true;
      formData := NewBillForm(loaded, currentYear, currentMonth);
    }

    /** The empty-table button: opens the add form as it is. */
    method OpenAddForm()
      requires Valid()
      modifies this`showAddForm
      ensures Valid()
      ensures showAddForm
    {
      showAddForm := true;
    }

    method CancelAdd()
      requires Valid()
      modifies this`showAddForm
      ensures Valid()
      ensures !showAddForm
    {
      showAddForm := false;
    }

    /** startEditBill. */
    method StartEditBill(b: Bill)
      requires Valid()
      modifies this`editBill, this`formData, this`showEditForm
      ensures Valid()
      ensures editBill == Some(b) && formData == EditForm(b) && showEditForm
    {
      editBill := Some(b);
      formData := EditForm(b);
      showEditForm := true;
    }

    method CancelEdit()
      requires Valid()
      modifies this`editBill, this`showEditForm
      ensures Valid()
      ensures editBill.None? && !showEditForm
    {
      showEditForm := false;
      editBill := None;
    }

    /** handleAddBill: sends the insert for the signed-in user and, when the
        store accepts it, empties and closes the form; a store error is shown
        and the form kept. Returns the row sent, if any. */
    method HandleAddBill(user: Option<string>, storeError: Option<string>) returns (sent: Option<NewBill>)
      requires Valid()
      modifies this`formData, this`showAddForm, this`error
      ensures Valid()
      ensures AddOutcome(sent, error, formData, showAddForm)
              == AddBill(user, storeError, old(formData), old(showAddForm), ElectricityRecord(old(formData)))
    {
      var o := AddBill(user, storeError, formData, showAddForm, ElectricityRecord(formData));
      sent, error, formData, showAddForm := o.sent, o.error, o.form, o.open;
    }

    /** handleEditBill: sends the update of the selected bill and, when the
        store accepts it, empties the form and closes it. While the edit form
        is open a signed-in user's save always sends. */
    method HandleEditBill(user: Option<string>, storeError: Option<string>) returns (sent: Option<BillUpdate>)
      requires Valid()
      modifies this`formData, this`showEditForm, this`editBill, this`error
      ensures Valid()
      ensures user.Some? && old(showEditForm) ==> sent.Some?
      ensures EditOutcome(sent, error, formData, showEditForm, editBill)
              == EditBill(user, storeError, old(formData), old(showEditForm), old(editBill), ElectricityRecord(old(formData)))
    {
      var o := EditBill(user, storeError, formData, showEditForm, editBill, ElectricityRecord(formData));
      sent, error, formData, showEditForm, editBill := o.sent, o.error, o.form, o.open, o.selected;
    }
  }
}
