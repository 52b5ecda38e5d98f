/** The American Community Survey side: turning one answer of the survey service into a
    demographics record, and the six income bands of `classify_income_level`. */
module Demographics {
  import opened Wrappers
  import opened PyStr
  import opened Services

  // ---------------------------------------------------------------- income bands

  /** The band boundaries, lowest first; each one belongs to the band above it. */
  const IncomeThresholds: seq<int> := [30000, 50000, 75000, 100000, 150000]

  /** The band labels, lowest first. */
  const IncomeLevels: seq<string> := [
    "Very Low Income", "Low Income", "Moderate Income",
    "Middle Income", "Upper Middle Income", "High Income"
  ]

  /** How many of the thresholds in `ts` the income reaches. */
  function ThresholdsReached(income: int, ts: seq<int>): (n: nat)
    ensures n <= |ts|
  {
    if ts == [] then 0 else (if ts[0] <= income then 1 else 0) + ThresholdsReached(income, ts[1..])
  }

  /** The band of an income: the number of thresholds it reaches. */
  function IncomeBand(income: int): (b: nat)
    ensures b < |IncomeLevels|
  {
    ThresholdsReached(income, IncomeThresholds)
  }

  lemma IncomeBandCases(income: int)
    ensures IncomeBand(income) ==
      if income < 30000 then 0 else if income < 50000 then 1 else if income < 75000 then 2
      else if income < 100000 then 3 else if income < 150000 then 4 else 5
  {
    var t5: seq<int> := [150000];
    var t4 := [100000] + t5;
    var t3 := [75000] + t4;
    var t2 := [50000] + t3;
    assert IncomeThresholds == [30000] + t2;
    assert t5[1..] == [];
    assert ThresholdsReached(income, t5) == if income >= 150000 then 1 else 0;
    assert t4[1..] == t5 && t3[1..] == t4 && t2[1..] == t3 && IncomeThresholds[1..] == t2;
    assert ThresholdsReached(income, t4) == (if income >= 100000 then 1 else 0) + ThresholdsReached(income, t5);
    assert ThresholdsReached(income, t3) == (if income >= 75000 then 1 else 0) + ThresholdsReached(income, t4);
    assert ThresholdsReached(income, t2) == (if income >= 50000 then 1 else 0) + ThresholdsReached(income, t3);
    assert IncomeBand(income) == (if income >= 30000 then 1 else 0) + ThresholdsReached(income, t2);
  }

  /** `classify_income_level`: total, and equal to the label of the income's band. */
  function ClassifyIncomeLevel(income: int): (level: string)
    ensures level == IncomeLevels[IncomeBand(income)]
  {
    IncomeBandCases(income);
    if income < 30000 then "Very Low Income"
    else if income < 50000 then "Low Income"
    else if income < 75000 then "Moderate Income"
    else if income < 100000 then "Middle Income"
    else if income < 150000 then "Upper Middle Income"
    else "High Income"
  }

  lemma {:induction false} ThresholdsReachedMonotone(a: int, b: int, ts: seq<int>)
    requires a <= b
    ensures ThresholdsReached(a, ts) <= ThresholdsReached(b, ts)
  {
    if ts != [] {
      ThresholdsReachedMonotone(a, b, ts[1..]);
    }
  }

  /** A larger income never falls in a lower band. */
  lemma IncomeBandMonotone(a: int, b: int)
    requires a <= b
    ensures IncomeBand(a) <= IncomeBand(b)
  {
    ThresholdsReachedMonotone(a, b, IncomeThresholds);
  }

  /** Every comparison is strict: a threshold itself is in the band above it, and the
      income just below it in the band below. */
  lemma ClassifyAtThresholds(k: nat)
    requires k < |IncomeThresholds|
    ensures ClassifyIncomeLevel(IncomeThresholds[k]) == IncomeLevels[k + 1]
    ensures ClassifyIncomeLevel(IncomeThresholds[k] - 1) == IncomeLevels[k]
  {
  }

  // ---------------------------------------------------------------- the survey answer

  const MedianIncomeVariable := "B19013_001E"
  const PopulationVariable := "B01003_001E"
  const HousingUnitsVariable := "B25003_001E"
  const OwnerOccupiedVariable := "B25003_002E"
  const TransitVariable := "B08301_010E"

  /** The survey's codes for a median income it could not estimate. */
  const IncomeSentinels: seq<string> := ["-666666666", "-666666"]

  /** The income reported when the income variable is absent from the answer. */
  const MissingIncome: int := -666666666

  const NoLevel := "Data Not Available"

  datatype DataSource = DataSource(survey: string, year: string, confidence: string, lastUpdated: string)

  const AcsDataSource := DataSource("American Community Survey 5-Year Estimates", "2022", "High", "2023-12-14")

  /** The `demographics` part of a result. `ownerOccupiedRate` is the exact ratio; the
      code rounds it to three decimals. */
  datatype DemographicsData = DemographicsData(
    medianHouseholdIncome: Option<int>,
    totalPopulation: int,
    totalHousingUnits: int,
    ownerOccupiedHousing: int,
    publicTransportationCommuters: int,
    ownerOccupiedRate: Option<real>,
    incomeLevel: string)

  datatype DemographicsResult =
    | DemographicsFound(demographics: DemographicsData, dataSource: DataSource)
    | DemographicsError(error: string, message: string)

  /** `dict(zip(headers, values))` over the first `n` pairs. */
  function ZipPrefix(headers: seq<string>, values: seq<string>, n: nat): map<string, string>
    requires n <= |headers| && n <= |values|
  {
    if n == 0 then map[] else ZipPrefix(headers, values, n - 1)[headers[n - 1] := values[n - 1]]
  }

  /** `dict(zip(headers, values))`: pairs up to the shorter row, a later header winning. */
  function RowMap(headers: seq<string>, values: seq<string>): map<string, string> {
    ZipPrefix(headers, values, if |headers| <= |values| then |headers| else |values|)
  }

  /** A header is a key when it occurs among the paired headers, with the value paired
      with its last occurrence. */
  lemma {:induction false} ZipPrefixSpec(headers: seq<string>, values: seq<string>, n: nat, k: string)
    requires n <= |headers| && n <= |values|
    ensures k in ZipPrefix(headers, values, n) <==> exists i :: 0 <= i < n && headers[i] == k
    ensures forall i :: 0 <= i < n && headers[i] == k && (forall j :: i < j < n ==> headers[j] != k) ==>
      ZipPrefix(headers, values, n)[k] == values[i]
  {
    if n > 0 {
      ZipPrefixSpec(headers, values, n - 1, k);
    }
  }

  /** An integer field as read: its value, or the text `int()` rejected. */
  datatype CountRead = Count(value: int) | CountInvalid(literal: string)

  /** The median income as read: a value or None, or the text `int()` rejected. */
  datatype IncomeRead = Income(value: Option<int>) | IncomeInvalid(literal: string)

  /** `int(census_data.get(name, 0))` */
  function CountField(m: map<string, string>, name: string): (f: CountRead)
    ensures name !in m ==> f == Count(0)
    ensures name in m ==> (f.Count? <==> ParseInt(m[name]).Some?) && (f.Count? ==> Some(f.value) == ParseInt(m[name]))
  {
    if name !in m then Count(0)
    else match ParseInt(m[name])
      case Some(n) => Count(n)
      case None => CountInvalid(m[name])
  }

  /** The median income: None for the sentinel codes, `MissingIncome` when the variable is
      absent, otherwise the parsed value. */
  function IncomeField(m: map<string, string>): (f: IncomeRead)
    ensures MedianIncomeVariable in m && m[MedianIncomeVariable] in IncomeSentinels ==> f == Income(None)
    ensures MedianIncomeVariable !in m ==> f == Income(Some(MissingIncome))
    ensures MedianIncomeVariable in m && m[MedianIncomeVariable] !in IncomeSentinels ==>
      (f.Income? <==> ParseInt(m[MedianIncomeVariable]).Some?)
      && (f.Income? ==> f.value == ParseInt(m[MedianIncomeVariable]))
  {
    if MedianIncomeVariable in m && m[MedianIncomeVariable] in IncomeSentinels then Income(None)
    else if MedianIncomeVariable !in m then Income(Some(MissingIncome))
    else match ParseInt(m[MedianIncomeVariable])
      case Some(n) => Income(Some(n))
      case None => IncomeInvalid(m[MedianIncomeVariable])
  }

  const InvalidLiteralPrefix := "invalid literal for int() with base 10: "

  /** The text of the ValueError `int()` raises for a literal it rejects: the prefix,
      then the `repr` of the literal as given (before stripping), cut to 200 characters. */
  function InvalidLiteralMessage(literal: string): (msg: string)
    ensures |InvalidLiteralPrefix| < |msg| <= |InvalidLiteralPrefix| + 200
    ensures msg[..|InvalidLiteralPrefix|] == InvalidLiteralPrefix
    ensures msg[|InvalidLiteralPrefix|] == ReprQuote(literal)
  {
    InvalidLiteralPrefix + ReprCut(literal)
  }

  /** A short literal of printable ASCII without backslashes is quoted whole: in single
      quotes, or in double quotes when it holds a single quote and no double quote. */
  lemma ShortPlainLiteralMessage(literal: string)
    requires |literal| <= 198
    requires forall i :: 0 <= i < |literal| ==> ' ' <= literal[i] < '\U{7f}' && literal[i] != '\\'
    ensures '\'' !in literal ==> InvalidLiteralMessage(literal) == InvalidLiteralPrefix + "'" + literal + "'"
    ensures '\'' in literal && '"' !in literal ==>
      InvalidLiteralMessage(literal) == InvalidLiteralPrefix + "\"" + literal + "\""
  {
    if '\'' !in literal || '"' !in literal {
      ReprOfPlain(literal);
      assert |Repr(literal)| == |literal| + 2;
      assert InvalidLiteralMessage(literal) == InvalidLiteralPrefix + Repr(literal);
    }
  }

  /** The label for an income: its band, or `NoLevel` when it is absent or zero. */
  function IncomeLevelFor(income: Option<int>): (level: string)
    ensures level == NoLevel <==> income.None? || income.value == 0
    ensures level != NoLevel ==> level == ClassifyIncomeLevel(income.value)
  {
    if income.Some? && income.value != 0 then ClassifyIncomeLevel(income.value) else NoLevel
  }

  /** Owner-occupied units over all housing units, when there are any. */
  function OwnerOccupiedRate(owner: int, units: int): (rate: Option<real>)
    ensures rate.Some? <==> units > 0
    ensures rate.Some? ==> rate.value * units as real == owner as real
  {
    if units > 0 then Some(owner as real / units as real) else None
  }

  /** The derived fields of a record agree with the counts it was computed from. */
  predicate WellFormedData(d: DemographicsData) {
    && (d.ownerOccupiedRate.Some? <==> d.totalHousingUnits > 0)
    && (d.ownerOccupiedRate.Some? ==> d.ownerOccupiedRate.value * d.totalHousingUnits as real == d.ownerOccupiedHousing as real)
    && (d.incomeLevel == NoLevel <==> d.medianHouseholdIncome.None? || d.medianHouseholdIncome.value == 0)
    && (d.incomeLevel != NoLevel ==> d.incomeLevel == ClassifyIncomeLevel(d.medianHouseholdIncome.value))
  }

  /** The record for the five values read, with the rate and the income level derived. */
  function BuildData(income: Option<int>, population: int, units: int, owner: int, transit: int): (d: DemographicsData)
    ensures WellFormedData(d)
    ensures d.medianHouseholdIncome == income && d.totalPopulation == population && d.totalHousingUnits == units
    ensures d.ownerOccupiedHousing == owner && d.publicTransportationCommuters == transit
  {
    DemographicsData(income, population, units, owner, transit, OwnerOccupiedRate(owner, units), IncomeLevelFor(income))
  }

  /** The five fields in the order the code reads them: the first rejected one raises. */
  function ReadData(m: map<string, string>): (r: Option<DemographicsData>)
    ensures r.Some? ==> WellFormedData(r.value)
  {
    var income := IncomeField(m);
    var population := CountField(m, PopulationVariable);
    var units := CountField(m, HousingUnitsVariable);
    var owner := CountField(m, OwnerOccupiedVariable);
    var transit := CountField(m, TransitVariable);
    if income.Income? && population.Count? && units.Count? && owner.Count? && transit.Count? then
      Some(BuildData(income.value, population.value, units.value, owner.value, transit.value))
    else None
  }

  /** The literal of the first field `int()` rejects, in reading order. */
  function FirstInvalidLiteral(m: map<string, string>): string
    requires ReadData(m).None?
  {
    var income := IncomeField(m);
    var population := CountField(m, PopulationVariable);
    var units := CountField(m, HousingUnitsVariable);
    var owner := CountField(m, OwnerOccupiedVariable);
    if income.IncomeInvalid? then income.literal
    else if population.CountInvalid? then population.literal
    else if units.CountInvalid? then units.literal
    else if owner.CountInvalid? then owner.literal
    else CountField(m, TransitVariable).literal
  }

  /** What `get_census_demographics` makes of one answer of the survey service for `tract`. */
  function DemographicsFromAcs(tract: string, reply: AcsResponse): (r: DemographicsResult)
    ensures r.DemographicsFound? ==>
      && reply.AcsRows? && |reply.rows| >= 2
      && WellFormedData(r.demographics) && r.dataSource == AcsDataSource
    ensures reply.AcsRows? && |reply.rows| < 2 ==>
      r == DemographicsError("No Census data available", "No ACS data found for tract " + tract)
    ensures reply.AcsRequestFailed? ==> r == DemographicsError("Census API error", reply.message)
    ensures reply.AcsUnexpected? ==> r == DemographicsError("Unexpected error", reply.message)
  {
    match reply
    case AcsRequestFailed(msg) => DemographicsError("Census API error", msg)
    case AcsUnexpected(msg) => DemographicsError("Unexpected error", msg)
    case AcsRows(rows) =>
      if |rows| < 2 then
        DemographicsError("No Census data available", "No ACS data found for tract " + tract)
      else
        var m := RowMap(rows[0], rows[1]);
        match ReadData(m)
        case Some(d) => DemographicsFound(d, AcsDataSource)
        case None => DemographicsError("Unexpected error", InvalidLiteralMessage(FirstInvalidLiteral(m)))
  }

  /** The fields of the record are the ones read from the header and data rows, and a
      record comes back exactly when each of them was read. */
  lemma DemographicsFields(tract: string, rows: seq<seq<string>>)
    requires |rows| >= 2
    ensures var r := DemographicsFromAcs(tract, AcsRows(rows));
      var m := RowMap(rows[0], rows[1]);
      && (r.DemographicsFound? <==>
            IncomeField(m).Income? && CountField(m, PopulationVariable).Count? && CountField(m, HousingUnitsVariable).Count?
            && CountField(m, OwnerOccupiedVariable).Count? && CountField(m, TransitVariable).Count?)
      && (r.DemographicsFound? ==>
        && IncomeField(m) == Income(r.demographics.medianHouseholdIncome)
        && CountField(m, PopulationVariable) == Count(r.demographics.totalPopulation)
        && CountField(m, HousingUnitsVariable) == Count(r.demographics.totalHousingUnits)
        && CountField(m, OwnerOccupiedVariable) == Count(r.demographics.ownerOccupiedHousing)
        && CountField(m, TransitVariable) == Count(r.demographics.publicTransportationCommuters))
      && (r.DemographicsError? ==>
        r.error == "Unexpected error" && r.message == InvalidLiteralMessage(FirstInvalidLiteral(m)))
  {
  }

  /** A sentinel income comes back as no income, with no income level. */
  lemma SentinelIncomeHasNoLevel(tract: string, rows: seq<seq<string>>)
    requires |rows| >= 2
    requires var m := RowMap(rows[0], rows[1]); MedianIncomeVariable in m && m[MedianIncomeVariable] in IncomeSentinels
    ensures var r := DemographicsFromAcs(tract, AcsRows(rows));
      r.DemographicsFound? ==> r.demographics.medianHouseholdIncome.None? && r.demographics.incomeLevel == NoLevel
  {
  }

  /** An answer without the income variable reports the survey's `-666666666` code as the
      income, which falls in the lowest band. */
  lemma MissingIncomeIsLowestBand(tract: string, rows: seq<seq<string>>)
    requires |rows| >= 2 && MedianIncomeVariable !in RowMap(rows[0], rows[1])
    ensures var r := DemographicsFromAcs(tract, AcsRows(rows));
      r.DemographicsFound? ==>
        r.demographics.medianHouseholdIncome == Some(MissingIncome) && r.demographics.incomeLevel == IncomeLevels[0]
  {
  }
}
