/** What the water and the electricity bill tables have in common: the
    stored bill row, the six-field entry form, the column-sort toggle, the
    consumption and amount derivation, the most-recent bill, the pre-filled
    add and edit forms, the month and year selects, the payload written to
    the store, and the year-and-search filter over the loaded bills.
    Every amount, reading, rate and consumption is in hundredths. */
module Bills {
  import opened Base
  import opened Strings
  import opened Numbers

  /** A row of the water_bills or electricity_bills table. */
  datatype Bill = Bill(
    id: string,
    userId: string,
    month: string,
    previousReading: int,
    currentReading: int,
    consumption: int,
    rate: int,
    amount: int,
    createdAt: string)

  /** The names of the entry form's inputs. */
  datatype FieldName =
    | MonthField | AmountField | PreviousReadingField | CurrentReadingField | ConsumptionField | RateField

  /** The entry form: every input holds text. */
  datatype FormData = FormData(
    month: string,
    amount: string,
    previousReading: string,
    currentReading: string,
    consumption: string,
    rate: string)
  {
    function Get(name: FieldName): string
    {
      match name
      case MonthField => month
      case AmountField => amount
      case PreviousReadingField => previousReading
      case CurrentReadingField => currentReading
      case ConsumptionField => consumption
      case RateField => rate
    }

    /** { ...formData, [name]: value } */
    function Set(name: FieldName, value: string): (r: FormData)
      ensures r.Get(name) == value
      ensures forall other :: other != name ==> r.Get(other) == Get(other)
    {
      match name
      case MonthField => this.(month := value)
      case AmountField => this.(amount := value)
      case PreviousReadingField => this.(previousReading := value)
      case CurrentReadingField => this.(currentReading := value)
      case ConsumptionField => this.(consumption := value)
      case RateField => this.(rate := value)
    }
  }

  const EmptyForm := FormData("", "", "", "", "", "")

  /** The inputs whose change triggers the consumption and amount derivation. */
  predicate IsMeterField(name: FieldName)
  {
    name == PreviousReadingField || name == CurrentReadingField || name == RateField
  }

  /** The columns a table can be ordered by (the keys of a bill row). */
  datatype SortKey =
    | ById | ByUserId | ByMonth | ByPreviousReading | ByCurrentReading
    | ByConsumption | ByRate | ByAmount | ByCreatedAt

  datatype Direction = Asc | Desc

  datatype SortState = SortState(field: SortKey, direction: Direction)

  /** Tables start ordered by month, newest first. */
  const InitialSort := SortState(ByMonth, Desc)

  /** handleSort: clicking the current column reverses the direction,
      clicking another column orders by it ascending. */
  function NextSort(s: SortState, clicked: SortKey): (r: SortState)
    ensures r.field == clicked
    ensures clicked == s.field ==> r.direction != s.direction
    ensures clicked != s.field ==> r.direction == Asc
  {
    if clicked == s.field then SortState(s.field, if s.direction == Asc then Desc else Asc)
    else SortState(clicked, Asc)
  }

  /** Clicking the same column twice restores the ordering. */
  lemma NextSortTwice(s: SortState)
    ensures NextSort(NextSort(s, s.field), s.field) == s
  {
  }

  /** Math.max(0, current - previous). */
  function DeriveConsumption(previous: int, current: int): (c: int)
    ensures c >= 0 && c >= current - previous
    ensures c == 0 || c == current - previous
  {
    if current - previous > 0 then current - previous else 0
  }

  /** toFixed(2) of a non-negative product held in ten-thousandths: the
      nearest hundredth, halves rounded up. */
  function RoundToCents(p: int): (r: int)
    ensures 100 * r - 50 <= p < 100 * r + 50
  {
    (p + 50) / 100
  }

  /** The amount the form derives: consumption times rate to the cent, or
      None (leave the amount as entered) unless both are positive. */
  function DeriveAmount(consumption: int, rate: int): (r: Option<int>)
    ensures r.Some? <==> consumption > 0 && rate > 0
    ensures r.Some? ==> 100 * r.value - 50 <= consumption * rate < 100 * r.value + 50
    ensures r.Some? ==> r.value >= 0
  {
    if consumption > 0 && rate > 0 then Some(RoundToCents(consumption * rate)) else None
  }

  /** The position findMostRecentBill's stable descending sort puts first:
      the first bill whose month no other bill's month exceeds. */
  function MostRecentIndex(bills: seq<Bill>): (k: Option<nat>)
    ensures k.None? <==> |bills| == 0
    ensures k.Some? ==> k.value < |bills|
    ensures k.Some? ==> forall j :: 0 <= j < |bills| ==> LexLe(bills[j].month, bills[k.value].month)
    ensures k.Some? ==> forall j :: 0 <= j < k.value ==> bills[j].month != bills[k.value].month
  {
    if |bills| == 0 then None
    else match MostRecentIndex(bills[1..])
      case None => LexLeReflexive(bills[0].month); Some(0)
      case Some(i) =>
        var best := bills[i + 1].month;
        if LexLe(best, bills[0].month) then
          LexLeReflexive(bills[0].month);
          assert forall j :: 1 <= j < |bills| ==> LexLe(bills[j].month, best) by {
            forall j | 1 <= j < |bills| ensures LexLe(bills[j].month, best) {
              assert bills[j] == bills[1..][j - 1];
            }
          }
          forall j | 1 <= j < |bills| ensures LexLe(bills[j].month, bills[0].month) {
            LexLeTransitive(bills[j].month, best, bills[0].month);
          }
          Some(0)
        else
          LexLeTotal(best, bills[0].month);
          forall j | 0 <= j < |bills| ensures LexLe(bills[j].month, best) {
            if j > 0 { assert bills[j] == bills[1..][j - 1]; }
          }
          forall j | 1 <= j < i + 1 ensures bills[j].month != best {
            assert bills[j] == bills[1..][j - 1];
          }
          Some(i + 1)
  }

  /** findMostRecentBill: null for no bills, otherwise a bill whose month is
      lexicographically greatest. */
  function MostRecentBill(bills: seq<Bill>): (r: Option<Bill>)
    ensures r.None? <==> |bills| == 0
    ensures r.Some? ==> r.value in bills
    ensures r.Some? ==> forall b :: b in bills ==> LexLe(b.month, r.value.month)
  {
    match MostRecentIndex(bills)
    case None => None
    case Some(k) => Some(bills[k])
  }

  /** `${year}-${String(month).padStart(2, '0')}` */
  function DefaultMonth(year: int, month: int): string
  {
    IntToString(year) + "-" + PadStart(IntToString(month), 2, '0')
  }

  /** startAddBill's form: the month is the current one, the previous
      reading continues from the most recent bill, everything else is empty. */
  function NewBillForm(bills: seq<Bill>, currentYear: int, currentMonth: int): FormData
  {
    var previous := match MostRecentBill(bills)
      case None => ""
      case Some(b) => NumberToString(b.currentReading);
    FormData(DefaultMonth(currentYear, currentMonth), "", previous, "", "", "")
  }

  /** startEditBill's form: every field is the bill's value as a string. */
  function EditForm(b: Bill): FormData
  {
    FormData(b.month, NumberToString(b.amount), NumberToString(b.previousReading),
             NumberToString(b.currentReading), NumberToString(b.consumption), NumberToString(b.rate))
  }

  /** The month select: keep the year part (or use the current year) and put
      the chosen month after it. */
  function ChooseMonth(current: string, choice: string, currentYear: int): string
  {
    var year := Split(current, '-')[0];
    (if year != "" then year else IntToString(currentYear)) + "-" + choice
  }

  /** The year select: keep the month part (or use "01") and put the chosen
      year before it. */
  function ChooseYear(current: string, choice: string): string
  {
    var parts := Split(current, '-');
    choice + "-" + (if |parts| > 1 && parts[1] != "" then parts[1] else "01")
  }

  /** The fields written to the store on add or edit. A field parseFloat
      cannot read is NaN. */
  datatype BillFields = BillFields(
    month: string,
    previousReading: Number,
    currentReading: Number,
    consumption: Number,
    rate: Number,
    amount: Number)

  /** The row inserted on add: the fields and the owning user. */
  datatype NewBill = NewBill(userId: string, fields: BillFields)

  /** The update sent on edit: the bill's id and the new fields. */
  datatype BillUpdate = BillUpdate(id: string, fields: BillFields)

  /** a - b on JavaScript numbers: NaN when either is NaN. */
  function Minus(a: Number, b: Number): (r: Number)
    ensures r.Finite? <==> a.Finite? && b.Finite?
    ensures r.Finite? ==> r.hundredths + b.hundredths == a.hundredths
  {
    if a.Finite? && b.Finite? then Finite(a.hundredths - b.hundredths) else NaN
  }

  /** Math.max(0, n): NaN stays NaN. */
  function ClampAtZero(n: Number): (r: Number)
    ensures r.Finite? <==> n.Finite?
    ensures r.Finite? ==> r.hundredths >= 0 && r.hundredths >= n.hundredths
    ensures r.Finite? ==> r.hundredths == 0 || r.hundredths == n.hundredths
  {
    match n
    case NaN => NaN
    case Finite(v) => Finite(if v > 0 then v else 0)
  }

  /** What a save handler leaves behind: the payload it sent to the store
      (None when it returned before sending), the error shown, the form and
      whether its dialog is open. */
  datatype AddOutcome = AddOutcome(sent: Option<NewBill>, error: Option<string>, form: FormData, open: bool)

  datatype EditOutcome = EditOutcome(sent: Option<BillUpdate>, error: Option<string>, form: FormData,
                                     open: bool, selected: Option<Bill>)

  /** handleAddBill given the signed-in user, the store's answer to the insert
      and the fields the table computes from the form: without a user nothing
      is sent; otherwise the new bill is sent under the user's id, and the
      form is emptied and closed only when the store accepts it. */
  function AddBill(user: Option<string>, storeError: Option<string>, form: FormData, open: bool,
                   record: BillFields): (o: AddOutcome)
    ensures user.None? <==> o.sent.None?
    ensures user.None? ==> o == AddOutcome(None, Some("User not authenticated"), form, open)
    ensures user.Some? ==> o.sent == Some(NewBill(user.value, record))
    ensures user.Some? && storeError.Some? ==> o.error == storeError && o.form == form && o.open == open
    ensures user.Some? && storeError.None? ==> o.error.None? && o.form == EmptyForm && !o.open
  {
    if user.None? then AddOutcome(None, Some("User not authenticated"), form, open)
    else
      var sent := Some(NewBill(user.value, record));
      if storeError.Some? then AddOutcome(sent, storeError, form, open)
      else AddOutcome(sent, None, EmptyForm, false)
  }

  /** handleEditBill likewise, for the bill being edited: the update carries
      that bill's id, and success also forgets the selection. A save from an
      open edit dialog that has its bill always sends, and the outcome keeps
      "an open edit dialog has a bill". */
  function EditBill(user: Option<string>, storeError: Option<string>, form: FormData, open: bool,
                    selected: Option<Bill>, record: BillFields): (o: EditOutcome)
    ensures user.None? || selected.None? <==> o.sent.None?
    ensures (open ==> selected.Some?) ==> (o.open ==> o.selected.Some?)
    ensures user.None? || selected.None? ==>
              o == EditOutcome(None, Some("User not authenticated or bill not selected"), form, open, selected)
    ensures user.Some? && selected.Some? ==> o.sent == Some(BillUpdate(selected.value.id, record))
    ensures user.Some? && selected.Some? && storeError.Some? ==>
              o.error == storeError && o.form == form && o.open == open && o.selected == selected
    ensures user.Some? && selected.Some? && storeError.None? ==>
              o.error.None? && o.form == EmptyForm && !o.open && o.selected.None?
  {
    if user.None? || selected.None? then
      EditOutcome(None, Some("User not authenticated or bill not selected"), form, open, selected)
    else
      var sent := Some(BillUpdate(selected.value.id, record));
      if storeError.Some? then EditOutcome(sent, storeError, form, open, selected)
      else EditOutcome(sent, None, EmptyForm, false, None)
  }

  /** parseInt(month.split('-')[0]) */
  function YearOf(month: string): Option<int>
  {
    ParseInt(Split(month, '-')[0])
  }

  /** The search: an empty term matches everything, otherwise the lower-cased
      term must occur in the lower-cased month, the amount or the consumption. */
  predicate MatchesSearch(b: Bill, term: string)
  {
    term == "" ||
    var t := LowerAscii(term);
    Contains(LowerAscii(b.month), t) || Contains(NumberToString(b.amount), t) || Contains(NumberToString(b.consumption), t)
  }

  predicate KeepBill(b: Bill, selectedYear: int, term: string)
  {
    YearOf(b.month) == Some(selectedYear) && MatchesSearch(b, term)
  }

  /** filteredBills: the loaded bills of the selected year that match the search. */
  function FilterBills(bills: seq<Bill>, selectedYear: int, term: string): (r: seq<Bill>)
    ensures IsSubsequence(r, bills)
    ensures forall i :: 0 <= i < |r| ==> KeepBill(r[i], selectedYear, term)
    ensures forall i :: 0 <= i < |bills| ==> (bills[i] in r <==> KeepBill(bills[i], selectedYear, term))
  {
    Filter(bills, b => KeepBill(b, selectedYear, term))
  }

  /** Padding with zeros adds no separator. */
  lemma PaddedNoDash(s: string, width: nat)
    requires '-' !in s
    ensures '-' !in PadStart(s, width, '0')
  {
    var r := PadStart(s, width, '0');
    var k := |r| - |s|;
    forall i | k <= i < |r| ensures r[i] != '-' {
      assert r[k + (i - k)] == s[i - k];
    }
  }

  /** The default month splits into the year and the padded month, and the
      tables' year filter reads the year back. */
  lemma DefaultMonthParts(year: int, month: int)
    requires year >= 0 && month >= 0
    ensures Split(DefaultMonth(year, month), '-') == [IntToString(year), PadStart(IntToString(month), 2, '0')]
    ensures YearOf(DefaultMonth(year, month)) == Some(year)
  {
    var y, m := IntToString(year), PadStart(IntToString(month), 2, '0');
    AllDigitsNoPunctuation(y);
    AllDigitsNoPunctuation(IntToString(month));
    PaddedNoDash(IntToString(month), 2);
    SplitPair(y, '-', m);
    ParseIntOfIntToString(year);
  }

  /** startAddBill: the new form belongs to the current year, and its
      previous reading reads back as the current reading of the most recent
      bill, or as nothing (NaN) when there are no bills. */
  lemma NewBillFormPrefill(bills: seq<Bill>, currentYear: int, currentMonth: int)
    requires currentYear >= 0 && 1 <= currentMonth <= 12
    ensures var f := NewBillForm(bills, currentYear, currentMonth);
            YearOf(f.month) == Some(currentYear)
            && (|bills| == 0 ==> Parse(f.previousReading) == NaN && ParseOrZero(f.previousReading) == 0)
            && (|bills| > 0 ==> Parse(f.previousReading) == Finite(MostRecentBill(bills).value.currentReading))
  {
    DefaultMonthParts(currentYear, currentMonth);
    if |bills| > 0 {
      ParseNumberToString(MostRecentBill(bills).value.currentReading);
    }
  }

  /** startEditBill: every numeric field of the edit form reads back as the
      bill's value. */
  lemma EditFormReadsBack(b: Bill)
    ensures var f := EditForm(b);
            f.month == b.month
            && Parse(f.amount) == Finite(b.amount)
            && Parse(f.previousReading) == Finite(b.previousReading)
            && Parse(f.currentReading) == Finite(b.currentReading)
            && Parse(f.consumption) == Finite(b.consumption)
            && Parse(f.rate) == Finite(b.rate)
  {
    ParseNumberToString(b.amount);
    ParseNumberToString(b.previousReading);
    ParseNumberToString(b.currentReading);
    ParseNumberToString(b.consumption);
    ParseNumberToString(b.rate);
  }

  /** The month select keeps the year part, or supplies the current year,
      and leaves exactly a year and the chosen month. */
  lemma ChooseMonthParts(current: string, choice: string, currentYear: int)
    requires '-' !in choice && currentYear >= 0
    ensures var year := Split(current, '-')[0];
            var parts := Split(ChooseMonth(current, choice, currentYear), '-');
            |parts| == 2 && parts[1] == choice
            && parts[0] == if year != "" then year else IntToString(currentYear)
  {
    var year := Split(current, '-')[0];
    var y := if year != "" then year else IntToString(currentYear);
    AllDigitsNoPunctuation(IntToString(currentYear));
    SplitAfter(y, '-', choice);
    SplitWithout(choice, '-');
  }

  /** The year select keeps the month part, or supplies "01", and leaves
      exactly the chosen year and a month. */
  lemma ChooseYearParts(current: string, choice: string)
    requires '-' !in choice
    ensures var old_ := Split(current, '-');
            var parts := Split(ChooseYear(current, choice), '-');
            |parts| == 2 && parts[0] == choice
            && parts[1] == if |old_| > 1 && old_[1] != "" then old_[1] else "01"
  {
    var old_ := Split(current, '-');
    var m := if |old_| > 1 && old_[1] != "" then old_[1] else "01";
    assert '-' !in m;
    SplitAfter(choice, '-', m);
    SplitWithout(m, '-');
  }

  /** Choosing a month and a year, in either order, gives "year-month". */
  lemma ChooseMonthAndYear(current: string, year: string, month: string, currentYear: int)
    requires '-' !in year && '-' !in month && year != "" && month != "" && currentYear >= 0
    ensures ChooseYear(ChooseMonth(current, month, currentYear), year) == year + "-" + month
    ensures ChooseMonth(ChooseYear(current, year), month, currentYear) == year + "-" + month
  {
    ChooseMonthParts(current, month, currentYear);
    ChooseYearParts(current, year);
  }

  /** parseFloat(s || '0'): an empty input reads as 0. */
  function ParseOrZeroText(s: string): Number
  {
    Parse(if s == "" then "0" else s)
  }

  /** Number.prototype.toFixed(2) with the ".00" stripped; NaN shows as "NaN". */
  function Show(n: Number): string
  {
    match n
    case NaN => "NaN"
    case Finite(v) => FormatNumber(v)
  }

  /** The read-only consumption input of both forms. */
  function ConsumptionShown(f: FormData): string
  {
    Show(ClampAtZero(Minus(ParseOrZeroText(f.currentReading), ParseOrZeroText(f.previousReading))))
  }

  /** The read-only amount input of both forms. */
  function AmountShown(f: FormData): string
  {
    if f.amount == "" then "" else Show(Parse(f.amount))
  }

  /** An input the read-only consumption can use: empty or a number. */
  predicate Readable(s: string)
  {
    s == "" || Parse(s).Finite?
  }

  /** parseFloat("0"), the reading of an empty input. */
  lemma ParseZero()
    ensures Parse("0") == Finite(0)
  {
    assert DigitsEnd("0", 0) == 1;
  }

  /** On readable inputs the read-only consumption shows exactly the clamped
      difference the form derives from them. */
  lemma ConsumptionShownDerived(f: FormData)
    requires Readable(f.previousReading) && Readable(f.currentReading)
    ensures Parse(ConsumptionShown(f))
            == Finite(DeriveConsumption(ParseOrZero(f.previousReading), ParseOrZero(f.currentReading)))
  {
    ParseZero();
    var p, c := ParseOrZero(f.previousReading), ParseOrZero(f.currentReading);
    assert ParseOrZeroText(f.previousReading) == Finite(p);
    assert ParseOrZeroText(f.currentReading) == Finite(c);
    assert ClampAtZero(Finite(c - p)) == Finite(DeriveConsumption(p, c));
  }

  /** The read-only amount shows the form's amount, to the cent. */
  lemma AmountShownReadsBack(f: FormData)
    requires Parse(f.amount).Finite?
    ensures Parse(AmountShown(f)) == Parse(f.amount)
  {
  }
}
