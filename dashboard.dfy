/** The dashboard: the selected year's bills of each kind, the twelve-month
    consumption chart with its bar heights, and the annual summary of total
    consumption, average rate and total amount. */
module Dashboard {
  import opened Base
  import opened Strings
  import opened Numbers
  import opened Bills

  const MonthNames: seq<string> :=
    ["Jan", "Feb", "Mar", "Apr", "May", "Jun", "Jul", "Aug", "Sep", "Oct", "Nov", "Dec"]

  /** getMonthFromYYYYMM: "" for an empty string or one without '-', else
      the short name of the month number after the first '-'; None stands
      for undefined, when that number is not 1 to 12. */
  function MonthLabel(yyyymm: string): (r: Option<string>)
    ensures ('-' !in yyyymm) ==> r == Some("")
    ensures r.Some? && r.value != "" ==> r.value in MonthNames
  {
    if yyyymm == "" || '-' !in yyyymm then Some("")
    else
      SplitCount(yyyymm, '-');
      match ParseInt(Split(yyyymm, '-')[1])
      case None => None
      case Some(n) => if 1 <= n <= 12 then Some(MonthNames[n - 1]) else None
  }

  /** A one-digit month is padded with a single '0'. */
  lemma PaddedDigit(m: nat)
    requires m < 10
    ensures PadStart(NatToString(m), 2, '0') == ['0', DigitChar(m)]
  {
    var r := PadStart(NatToString(m), 2, '0');
    assert r[1 + 0] == DigitChar(m);
  }

  /** parseInt of '0' and a digit is that digit. */
  lemma ParseZeroDigit(m: nat)
    requires m < 10
    ensures ParseInt(['0', DigitChar(m)]) == Some(m)
  {
    var r := ['0', DigitChar(m)];
    assert DigitsEnd(r, 2) == 2;
    assert DigitsEnd(r, 1) == 2;
    assert DigitsEnd(r, 0) == 2;
    assert DigitsBetween(r, 0, 1) == 0;
  }

  /** parseInt reads a zero-padded month number back. */
  lemma ParsePaddedMonth(m: nat)
    requires m < 100
    ensures ParseInt(PadStart(NatToString(m), 2, '0')) == Some(m)
  {
    if m >= 10 {
      ParseIntOfIntToString(m);
    } else {
      PaddedDigit(m);
      ParseZeroDigit(m);
    }
  }

  /** The month a bill gets by default is charted under its own name. */
  lemma DefaultMonthLabel(year: int, month: int)
    requires year >= 0 && 1 <= month <= 12
    ensures MonthLabel(DefaultMonth(year, month)) == Some(MonthNames[month - 1])
  {
    var s := DefaultMonth(year, month);
    var padded := PadStart(NatToString(month), 2, '0');
    DefaultMonthParts(year, month);
    assert Split(s, '-')[1] == padded;
    ParsePaddedMonth(month);
    assert s[|IntToString(year)|] == '-';
    assert s != "" && '-' in s;
    SplitCount(s, '-');
  }

  /** A month number outside 1 to 12 has no name. */
  lemma MonthLabelUndefined(year: string, m: nat)
    requires '-' !in year && (m == 0 || m > 12)
    ensures MonthLabel(year + "-" + NatToString(m)) == None
  {
    var s := year + "-" + NatToString(m);
    AllDigitsNoPunctuation(NatToString(m));
    SplitAfter(year, '-', NatToString(m));
    SplitWithout(NatToString(m), '-');
    ParseIntOfIntToString(m);
    assert s[|year|] == '-';
  }

  predicate StartsWithYear(b: Bill, year: int)
  {
    StartsWith(b.month, IntToString(year))
  }

  /** The selected year's bills: those whose month starts with the year. */
  function YearBills(bills: seq<Bill>, year: int): (r: seq<Bill>)
    ensures IsSubsequence(r, bills)
    ensures forall i :: 0 <= i < |r| ==> StartsWithYear(r[i], year)
    ensures forall i :: 0 <= i < |bills| ==> (bills[i] in r <==> StartsWithYear(bills[i], year))
  {
    Filter(bills, b => StartsWithYear(b, year))
  }

  /** On months of the form year-anything the dashboard's year filter and the
      tables' agree. */
  lemma YearFiltersAgree(year: int, rest: string)
    requires year >= 0
    ensures var month := IntToString(year) + "-" + rest;
            StartsWith(month, IntToString(year)) && YearOf(month) == Some(year)
  {
    var y := IntToString(year);
    AllDigitsNoPunctuation(y);
    SplitAfter(y, '-', rest);
    assert (y + "-" + rest)[..|y|] == y;
    ParseIntOfIntToString(year);
  }

  /** A digit after a number's digits: parseInt reads ten times the number
      plus the digit. */
  lemma AppendDigit(n: nat, digit: nat)
    requires digit < 10
    ensures var ds := NatToString(n) + [DigitChar(digit)];
            AllDigits(ds) && ParseInt(ds) == Some(n * 10 + digit)
  {
    var y := NatToString(n);
    var ds := y + [DigitChar(digit)];
    AllDigitsConcat(y, [DigitChar(digit)]);
    DigitsValueAppend(y, DigitChar(digit));
    DigitsValueOfNatToString(n);
    assert DigitValue(DigitChar(digit)) == digit;
    ParseIntDigits(ds);
  }

  /** They differ when the year part has a further digit: a month
      "2024" + "5" + "-…" starts with "2024", so the dashboard counts it for
      2024, while the tables read the year 20245. */
  lemma YearFiltersDiffer(year: nat, digit: nat, rest: string)
    requires digit < 10
    ensures var month := IntToString(year) + [DigitChar(digit)] + "-" + rest;
            StartsWith(month, IntToString(year)) && YearOf(month) == Some(year * 10 + digit)
  {
    var y := NatToString(year);
    var ds := y + [DigitChar(digit)];
    var month := ds + "-" + rest;
    AppendDigit(year, digit);
    AllDigitsNoPunctuation(ds);
    SplitAfter(ds, '-', rest);
    assert month[..|y|] == y;
  }

  /** The chart's scale for electricity (250 kWh) and water (18 m³). */
  const ElectricityFloor: int := 25000
  const WaterFloor: int := 1800

  /** Math.max(...consumptions, floor). */
  function ChartMax(bills: seq<Bill>, floor: int): (r: int)
    ensures r >= floor
    ensures forall i :: 0 <= i < |bills| ==> bills[i].consumption <= r
    ensures r == floor || exists i :: 0 <= i < |bills| && bills[i].consumption == r
  {
    if |bills| == 0 then floor
    else
      var rest := ChartMax(bills[1..], floor);
      assert forall i :: 1 <= i < |bills| ==> bills[i] == bills[1..][i - 1];
      if bills[0].consumption > rest then bills[0].consumption else rest
  }

  /** A chart column: the month's name, the first year bill charted under
      it, and its bar height in percent. */
  datatype Slot = Slot(monthName: string, bill: Option<Bill>, consumption: int, barHeight: real)

  predicate ChartedUnder(b: Bill, monthName: string)
  {
    MonthLabel(b.month) == Some(monthName)
  }

  /** yearBills.find(b => getMonthFromYYYYMM(b.month) === monthName) */
  function ChartedBill(yearBills: seq<Bill>, monthName: string): (r: Option<Bill>)
    ensures r.None? <==> forall j :: 0 <= j < |yearBills| ==> !ChartedUnder(yearBills[j], monthName)
    ensures r.Some? ==> ChartedUnder(r.value, monthName)
    ensures r.Some? ==> exists i :: 0 <= i < |yearBills| && yearBills[i] == r.value
                                    && forall j :: 0 <= j < i ==> !ChartedUnder(yearBills[j], monthName)
  {
    var k := FirstMatch(yearBills, b => ChartedUnder(b, monthName));
    match k
    case None => None
    case Some(i) => Some(yearBills[i])
  }

  function MakeSlot(yearBills: seq<Bill>, monthName: string, max: int): (s: Slot)
    requires max > 0
    ensures s.monthName == monthName
    ensures s.bill == ChartedBill(yearBills, monthName)
    ensures s.bill.None? ==> s.consumption == 0 && s.barHeight == 0.0
    ensures s.bill.Some? ==> s.consumption == s.bill.value.consumption
    ensures s.bill.Some? ==> s.barHeight == BarPercent(s.consumption, max)
  {
    match ChartedBill(yearBills, monthName)
    case None => Slot(monthName, None, 0, 0.0)
    case Some(b) => Slot(monthName, Some(b), b.consumption, BarPercent(b.consumption, max))
  }

  /** (consumption / max) * 100, a bar's height in percent of the chart. */
  function BarPercent(c: int, max: int): (p: real)
    requires max > 0
    ensures p * max as real == c as real * 100.0
    ensures c < 0 <==> p < 0.0
  {
    var q := c as real / max as real;
    assert q * max as real == c as real;
    q * 100.0
  }

  /** The twelve chart columns, January to December. */
  function MonthlySeries(yearBills: seq<Bill>, max: int): (r: seq<Slot>)
    requires max > 0
    ensures |r| == 12
    ensures forall i :: 0 <= i < 12 ==> r[i] == MakeSlot(yearBills, MonthNames[i], max)
  {
    seq(12, i requires 0 <= i < 12 => MakeSlot(yearBills, MonthNames[i], max))
  }

  /** c / max * 100 lies in [0, 100] for 0 <= c <= max. */
  lemma PercentBetween(c: int, max: int)
    requires 0 < max && 0 <= c <= max
    ensures 0.0 <= BarPercent(c, max) <= 100.0
  {
    QuotientBetween(c, max, 0, 1);
  }

  /** c / max * 100 is at most 100 for any c <= max, negative c included. */
  lemma PercentAtMost(c: int, max: int)
    requires 0 < max && c <= max
    ensures BarPercent(c, max) <= 100.0
  {
    var p, m := BarPercent(c, max), max as real;
    assert (100.0 - p) * m == (max - c) as real * 100.0;
  }

  /** Every bar of a chart scaled by ChartMax is at most full height, whatever
      the signs of the consumptions. */
  lemma BarAtMostFull(yearBills: seq<Bill>, floor: int, i: nat)
    requires floor > 0 && i < 12
    ensures MonthlySeries(yearBills, ChartMax(yearBills, floor))[i].barHeight <= 100.0
  {
    var max := ChartMax(yearBills, floor);
    var s := MakeSlot(yearBills, MonthNames[i], max);
    if s.bill.Some? {
      var b := s.bill.value;
      var k :| 0 <= k < |yearBills| && yearBills[k] == b;
      PercentAtMost(b.consumption, max);
    }
  }

  /** A bar is at least empty when the bill charted in its column, if any,
      has a consumption that is not negative. */
  lemma BarNonNegative(yearBills: seq<Bill>, max: int, i: nat)
    requires max > 0 && i < 12
    requires var b := ChartedBill(yearBills, MonthNames[i]); b.Some? ==> b.value.consumption >= 0
    ensures MonthlySeries(yearBills, max)[i].barHeight >= 0.0
  {
    var s := MakeSlot(yearBills, MonthNames[i], max);
    assert s.bill.Some? ==> BarPercent(s.consumption, max) >= 0.0;
  }

  /** A negative consumption, which the water table can store, draws a bar
      of negative height, whatever the scale. */
  lemma NegativeBar(b: Bill, month: nat, max: int)
    requires 1 <= month <= 12 && max > 0
    requires ChartedUnder(b, MonthNames[month - 1]) && b.consumption < 0
    ensures MonthlySeries([b], max)[month - 1].barHeight < 0.0
  {
    var name := MonthNames[month - 1];
    SingleSlot(b, name, max);
    var s := MonthlySeries([b], max)[month - 1];
    assert s == MakeSlot([b], name, max);
  }

  lemma SingleSlot(b: Bill, monthName: string, max: int)
    requires max > 0 && ChartedUnder(b, monthName)
    ensures MakeSlot([b], monthName, max).bill == Some(b)
  {
    assert ChartedUnder([b][0], monthName);
  }

  function ConsumptionOf(b: Bill): int { b.consumption }

  function AmountOf(b: Bill): int { b.amount }

  function RateOf(b: Bill): int { b.rate }

  predicate Rated(b: Bill) { b.rate != 0 }

  /** Math.round of a sum held in hundredths. */
  function RoundedTotal(hundredths: int): (r: int)
    ensures hundredths as real / 100.0 - 0.5 < r as real <= hundredths as real / 100.0 + 0.5
  {
    MathRound(hundredths as real / 100.0)
  }

  /** The summary's total consumption and total amount, rounded. */
  function TotalConsumption(yearBills: seq<Bill>): (r: int)
    ensures var total := Sum(yearBills, ConsumptionOf) as real / 100.0; total - 0.5 < r as real <= total + 0.5
  {
    RoundedTotal(Sum(yearBills, ConsumptionOf))
  }

  function TotalAmount(yearBills: seq<Bill>): (r: int)
    ensures var total := Sum(yearBills, AmountOf) as real / 100.0; total - 0.5 < r as real <= total + 0.5
  {
    RoundedTotal(Sum(yearBills, AmountOf))
  }

  /** The sum of the rates over the number of bills with a rate, or over 1
      when none has one, in whole units. */
  function MeanRate(yearBills: seq<Bill>): real
  {
    var rated := |Filter(yearBills, Rated)|;
    Average(Sum(yearBills, RateOf), if rated == 0 then 1 else rated) / 100.0
  }

  /** The summary's average rate: 0 for no bills, else MeanRate rounded. */
  function AverageRate(yearBills: seq<Bill>): (r: int)
    ensures |yearBills| > 0 ==> MeanRate(yearBills) - 0.5 < r as real <= MeanRate(yearBills) + 0.5
    ensures |yearBills| == 0 ==> r == 0
  {
    if |yearBills| > 0 then MathRound(MeanRate(yearBills)) else 0
  }

  /** Bills without a rate change neither the sum nor the count, so the
      average rate is the mean over the rated bills alone. */
  lemma MeanRateOverRated(yearBills: seq<Bill>)
    ensures MeanRate(yearBills) == MeanRate(Filter(yearBills, Rated))
  {
    var rated := Filter(yearBills, Rated);
    SumOfFilterNonZero(yearBills, RateOf, Rated);
    FilterRatedIdempotent(rated);
  }

  lemma {:induction false} FilterRatedIdempotent(s: seq<Bill>)
    requires forall i :: 0 <= i < |s| ==> Rated(s[i])
    ensures Filter(s, Rated) == s
  {
    if |s| > 0 {
      FilterRatedIdempotent(s[1..]);
      assert [s[0]] + s[1..] == s;
    }
  }

  /** With no rated bill the average rate is 0, thanks to the `|| 1` guard. */
  lemma AverageRateNoRates(yearBills: seq<Bill>)
    requires forall i :: 0 <= i < |yearBills| ==> !Rated(yearBills[i])
    ensures AverageRate(yearBills) == 0
  {
    SumOfFilterNonZero(yearBills, RateOf, Rated);
    assert Filter(yearBills, Rated) == [];
  }

  /** When every rated bill's rate lies in [lo, hi], the unrounded average
      does too. */
  lemma MeanRateBetween(yearBills: seq<Bill>, lo: int, hi: int)
    requires exists i :: 0 <= i < |yearBills| && Rated(yearBills[i])
    requires forall i :: 0 <= i < |yearBills| && Rated(yearBills[i]) ==> lo <= yearBills[i].rate <= hi
    ensures lo as real / 100.0 <= MeanRate(yearBills) <= hi as real / 100.0
  {
    var rated := Filter(yearBills, Rated);
    MeanRateOverRated(yearBills);
    FilterRatedIdempotent(rated);
    forall i | 0 <= i < |rated| ensures lo <= RateOf(rated[i]) <= hi {
      var k :| 0 <= k < |yearBills| && yearBills[k] == rated[i];
    }
    var i :| 0 <= i < |yearBills| && Rated(yearBills[i]);
    assert yearBills[i] in rated;
    AverageBetween(rated, RateOf, lo, hi);
  }

  /** A bar tooltip's amount or rate: Math.round of the value, or 0 when it
      is 0, which is also what Math.round gives for 0. */
  function Tooltip(hundredths: int): (r: int)
    ensures hundredths == 0 ==> r == 0
    ensures hundredths as real / 100.0 - 0.5 < r as real <= hundredths as real / 100.0 + 0.5
  {
    if hundredths != 0 then RoundedTotal(hundredths) else 0
  }

  /** fetchWaterBills and fetchElectricityBills: the store's rows, none for
      a null answer; an error is logged and the list kept. */
  function Fetched(current: seq<Bill>, response: Result<Option<seq<Bill>>>): (r: seq<Bill>)
    ensures response.Failure? ==> r == current
    ensures response == Success(None) ==> r == []
    ensures response.Success? && response.value.Some? ==> r == response.value.value
  {
    match response
    case Failure(_) => current
    case Success(None) => []
    case Success(Some(rows)) => rows
  }

  /** Everything the dashboard shows for one kind of bill and one year. */
  datatype Chart = Chart(series: seq<Slot>, totalConsumption: int, averageRate: int, totalAmount: int)

  function ChartFor(bills: seq<Bill>, year: int, floor: int): (c: Chart)
    requires floor > 0
    ensures |c.series| == 12
  {
    var yearBills := YearBills(bills, year);
    Chart(MonthlySeries(yearBills, ChartMax(yearBills, floor)),
          TotalConsumption(yearBills), AverageRate(yearBills), TotalAmount(yearBills))
  }
}
