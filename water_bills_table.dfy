/** The water bills table: its form derivation, the payload it writes, its
    statistics, and the component state its handlers update. */
module WaterBills {
  import opened Base
  import opened Strings
  import opened Numbers
  import opened Bills

  /** handleChange: set the edited input; when a reading or the rate
      changes, rewrite the consumption as the clamped difference of the
      readings and, when consumption and rate are both positive, the amount
      as their product to the cent. Unreadable inputs count as 0. */
  function WaterChange(f: FormData, name: FieldName, value: string): (r: FormData)
    ensures r.Get(name) == value
    ensures forall other :: other != name && other != ConsumptionField && other != AmountField ==> r.Get(other) == f.Get(other)
    ensures !IsMeterField(name) ==> r == f.Set(name, value)
    ensures IsMeterField(name) ==>
              var c := DeriveConsumption(ParseOrZero(r.previousReading), ParseOrZero(r.currentReading));
              var a := DeriveAmount(c, ParseOrZero(r.rate));
              Parse(r.consumption) == Finite(c)
              && (a.Some? ==> Parse(r.amount) == Finite(a.value))
              && (a.None? ==> r.amount == f.amount)
  {
    var g := f.Set(name, value);
    if !IsMeterField(name) then g
    else
      var c := DeriveConsumption(ParseOrZero(g.previousReading), ParseOrZero(g.currentReading));
      ParseNumberToString(c);
      var h := g.(consumption := NumberToString(c));
      match DeriveAmount(c, ParseOrZero(g.rate))
      case None => h
      case Some(a) => ParseToFixed2(a); h.(amount := ToFixed2(a))
  }

  /** The fields handleAddBill and handleEditBill write: the parsed readings,
      rate and amount, and the consumption as the plain difference of the
      readings, which is negative when the current reading is the lower. */
  function WaterRecord(f: FormData): BillFields
  {
    var previous, current := Parse(f.previousReading), Parse(f.currentReading);
    BillFields(f.month, previous, current, Minus(current, previous), Parse(f.rate), Parse(f.amount))
  }

  /** What the store receives as consumption: the signed difference of the
      readings when both parse, negative for a meter that went back. */
  lemma WaterRecordConsumption(f: FormData)
    requires Parse(f.previousReading).Finite? && Parse(f.currentReading).Finite?
    ensures var p, c := Parse(f.previousReading).hundredths, Parse(f.currentReading).hundredths;
            var r := WaterRecord(f).consumption;
            r.Finite? && r.hundredths == c - p
            && (c >= p ==> r.hundredths == DeriveConsumption(p, c))
            && (c < p ==> r.hundredths < 0 && DeriveConsumption(p, c) == 0)
  {
  }

  /** A current reading below the previous one is stored as a negative
      consumption: readings p and then c < p, as the form shows them, store
      c - p. */
  lemma WaterRecordNegative(f: FormData, p: int, c: int)
    requires f.previousReading == NumberToString(p) && f.currentReading == NumberToString(c)
    requires c < p
    ensures WaterRecord(f).consumption == Finite(c - p) && c - p < 0
  {
    ParseNumberToString(p);
    ParseNumberToString(c);
  }

  /** Saving an edit of a bill without touching the form writes the bill's
      own readings, rate and amount, and the difference of its readings as
      consumption. */
  lemma WaterEditUnchanged(b: Bill)
    ensures WaterRecord(EditForm(b))
            == BillFields(b.month, Finite(b.previousReading), Finite(b.currentReading),
                          Finite(b.currentReading - b.previousReading), Finite(b.rate), Finite(b.amount))
  {
    EditFormReadsBack(b);
  }

  /** After any reading or rate change on readable readings, the read-only
      consumption shows what the form's consumption field holds. */
  lemma WaterChangeShown(f: FormData, name: FieldName, value: string)
    requires IsMeterField(name)
    requires Readable(f.Set(name, value).previousReading) && Readable(f.Set(name, value).currentReading)
    ensures var r := WaterChange(f, name, value);
            Parse(ConsumptionShown(r)) == Parse(r.consumption)
  {
    var r := WaterChange(f, name, value);
    assert r.previousReading == f.Set(name, value).previousReading;
    assert r.currentReading == f.Set(name, value).currentReading;
    ConsumptionShownDerived(r);
  }

  /** The statistics computed over the filtered bills, which the table never
      displays. Averages are exact quotients of the hundredths totals. */
  datatype Statistics = Statistics(
    totalBills: nat,
    totalAmount: int,
    averageAmount: real,
    totalConsumption: int,
    averageConsumption: real)

  function AmountOf(b: Bill): int { b.amount }

  function ConsumptionOf(b: Bill): int { b.consumption }

  function WaterStatistics(filtered: seq<Bill>): Statistics
  {
    var amount, consumption := Sum(filtered, AmountOf), Sum(filtered, ConsumptionOf);
    Statistics(|filtered|, amount, Average(amount, |filtered|), consumption, Average(consumption, |filtered|))
  }

  /** The average amount stays within the range of the filtered bills'
      amounts, and the average consumption within that of their
      consumptions. */
  lemma WaterStatisticsBounds(filtered: seq<Bill>, loAmount: int, hiAmount: int, loConsumption: int, hiConsumption: int)
    requires |filtered| > 0
    requires forall i :: 0 <= i < |filtered| ==> loAmount <= filtered[i].amount <= hiAmount
    requires forall i :: 0 <= i < |filtered| ==> loConsumption <= filtered[i].consumption <= hiConsumption
    ensures var st := WaterStatistics(filtered);
            st.totalBills == |filtered|
            && loAmount as real <= st.averageAmount <= hiAmount as real
            && loConsumption as real <= st.averageConsumption <= hiConsumption as real
  {
    AverageBetween(filtered, AmountOf, loAmount, hiAmount);
    AverageBetween(filtered, ConsumptionOf, loConsumption, hiConsumption);
  }

  /** The water bills table component's state. */
  class WaterBillsTable {
    var bills: seq<Bill>
    var formData: FormData
    var sort: SortState
    var editBill: Option<Bill>
    var selectedYear: int
    var searchTerm: string
    var showAddForm: bool
    var showEditForm: bool
    var error: Option<string>

    /** The edit form is only open on a selected bill; nothing sets the
        search term. */
    predicate Valid()
      reads this
    {
      (showEditForm ==> editBill.Some?) && searchTerm == ""
    }

    constructor (currentYear: int)
      ensures Valid()
      ensures bills == [] && formData == EmptyForm && sort == InitialSort && editBill.None?
      ensures selectedYear == currentYear && searchTerm == ""
      ensures !showAddForm && !showEditForm && error.None?
    {
      bills := [];
      formData := EmptyForm;
      sort := InitialSort;
      editBill := None;
      selectedYear := currentYear;
      searchTerm := "";
      showAddForm := false;
      showEditForm := false;
      error := None;
    }

    /** The table's rows: the loaded bills of the selected year. */
    function FilteredBills(): (r: seq<Bill>)
      reads this
      ensures IsSubsequence(r, bills)
      ensures searchTerm == "" ==> forall i :: 0 <= i < |bills| ==> (bills[i] in r <==> YearOf(bills[i].month) == Some(selectedYear))
    {
      FilterBills(bills, selectedYear, searchTerm)
    }

    /** fetchBills, given the store's answer for the signed-in user's rows in
        the current sort order; a missing user stops before the query. */
    method FetchBills(user: Option<string>, response: Result<Option<seq<Bill>>>)
      requires Valid()
      modifies this`bills, this`error
      ensures Valid()
      ensures user.None? ==> error == Some("User not authenticated") && bills == old(bills)
      ensures user.Some? && response.Failure? ==> error == Some(response.error) && bills == old(bills)
      ensures user.Some? && response.Success? ==>
                error.None? && bills == match response.value case None => [] case Some(rows) => rows
    {
      error := None;
      if user.None? {
        error := Some("User not authenticated");
        return;
      }
      match response
      case Failure(message) => error := Some(message);
      case Success(data) =>
        bills := match data case None => [] case Some(rows) => rows;
    }

    /** handleSort. */
    method HandleSort(clicked: SortKey)
      requires Valid()
      modifies this`sort
      ensures Valid()
      ensures sort == NextSort(old(sort), clicked)
    {
      sort := NextSort(sort, clicked);
    }

    /** The year filter's select. */
    method SelectYear(year: int)
      requires Valid()
      modifies this`selectedYear
      ensures Valid()
      ensures selectedYear == year
    {
      selectedYear := year;
    }

    /** handleChange on one of the inputs. */
    method HandleChange(name: FieldName, value: string)
      requires Valid()
      modifies this`formData
      ensures Valid()
      ensures formData == WaterChange(old(formData), name, value)
    {
      formData := WaterChange(formData, name, value);
    }

    /** The form's month select. */
    method ChooseFormMonth(choice: string, currentYear: int)
      requires Valid()
      modifies this`formData
      ensures Valid()
      ensures formData == old(formData).(month := ChooseMonth(old(formData).month, choice, currentYear))
    {
      formData := formData.(month := ChooseMonth(formData.month, choice, currentYear));
    }

    /** The form's year select. */
    method ChooseFormYear(choice: string)
      requires Valid()
      modifies this`formData
      ensures Valid()
      ensures formData == old(formData).(month := ChooseYear(old(formData).month, choice))
    {
      formData := formData.(month := ChooseYear(formData.month, choice));
    }

    /** startAddBill, on today's year and month. */
    method StartAddBill(currentYear: int, currentMonth: int)
      requires Valid()
      modifies this`formData, this`showAddForm
      ensures Valid()
      ensures formData == NewBillForm(old(bills), currentYear, currentMonth)
      ensures showAddForm
    {
      var loaded := bills;
      showAddForm := true;
      formData := NewBillForm(loaded, currentYear, currentMonth);
    }

    /** The empty-table button: opens the add form as it is. */
    method OpenAddForm()
      requires Valid()
      modifies this`showAddForm
      ensures Valid()
      ensures showAddForm
    {
      showAddForm := true;
    }

    method CancelAdd()
      requires Valid()
      modifies this`showAddForm
      ensures Valid()
      ensures !showAddForm
    {
      showAddForm := false;
    }

    /** startEditBill. */
    method StartEditBill(b: Bill)
      requires Valid()
      modifies this`editBill, this`formData, this`showEditForm
      ensures Valid()
      ensures editBill == Some(b) && formData == EditForm(b) && showEditForm
    {
      editBill := Some(b);
      formData := EditForm(b);
      showEditForm := true;
    }

    method CancelEdit()
      requires Valid()
      modifies this`editBill, this`showEditForm
      ensures Valid()
      ensures editBill.None? && !showEditForm
    {
      showEditForm := false;
      editBill := None;
    }

    /** handleAddBill: sends the insert for the signed-in user and, when the
        store accepts it, empties and closes the form; a store error is shown
        and the form kept. Returns the row sent, if any. */
    method HandleAddBill(user: Option<string>, storeError: Option<string>) returns (sent: Option<NewBill>)
      requires Valid()
      modifies this`formData, this`showAddForm, this`error
      ensures Valid()
      ensures AddOutcome(sent, error, formData, showAddForm)
              == AddBill(user, storeError, old(formData), old(showAddForm), WaterRecord(old(formData)))
    {
      var o := AddBill(user, storeError, formData, showAddForm, WaterRecord(formData));
      sent, error, formData, showAddForm := o.sent, o.error, o.form, o.open;
    }

    /** handleEditBill: sends the update of the selected bill and, when the
        store accepts it, empties the form and closes it. While the edit form
        is open a signed-in user's save always sends. */
    method HandleEditBill(user: Option<string>, storeError: Option<string>) returns (sent: Option<BillUpdate>)
      requires Valid()
      modifies this`formData, this`showEditForm, this`editBill, this`error
      ensures Valid()
      ensures user.Some? && old(showEditForm) ==> sent.Some?
      ensures EditOutcome(sent, error, formData, showEditForm, editBill)
              == EditBill(user, storeError, old(formData), old(showEditForm), old(editBill), WaterRecord(old(formData)))
    {
      var o := EditBill(user, storeError, formData, showEditForm, editBill, WaterRecord(formData));
      sent, error, formData, showEditForm, editBill := o.sent, o.error, o.form, o.open, o.selected;
    }
  }
}
