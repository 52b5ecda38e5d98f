/** The FFIEC tract income levels: finding and reading the reference workbook, building
    the tract table from it, and answering one tract from the table. The state that
    holds the table and the cache lives on the lookup class. */
module Ffiec {
  import opened Wrappers
  import opened PyStr
  import opened Services
  import opened Geocoding

  /** The reference files looked for under `data/`, in order. */
  const ReferenceFileNames: seq<string> := ["CensusTractList2025_0.xlsx", "FFIEC_Census_Tract_List.xlsx"]

  /** `os.path.join("data", name)`. The base name of this path is `name` itself. */
  function ReferencePath(name: string): string {
    "data/" + name
  }

  /** The sheets tried, in order. */
  const SheetNameCandidates: seq<SheetName> := [SheetTitled("2024-2025 tracts"), SheetTitled("2025-2024"), SheetIndex(0)]

  /** The first of `names` whose path exists. */
  function FirstExisting(names: seq<string>, pathExists: string -> bool): (r: Option<string>)
    ensures r.None? <==> forall i :: 0 <= i < |names| ==> !pathExists(ReferencePath(names[i]))
    ensures r.Some? ==>
      exists i :: (0 <= i < |names| && names[i] == r.value && pathExists(ReferencePath(names[i]))
        && forall j :: 0 <= j < i ==> !pathExists(ReferencePath(names[j])))
  {
    if names == [] then None
    else if pathExists(ReferencePath(names[0])) then Some(names[0])
    else
      var r := FirstExisting(names[1..], pathExists);
      assert forall i :: 1 <= i < |names| ==> names[i] == names[1..][i - 1];
      r
  }

  /** The first sheet that is not missing (a sheet read that fails otherwise ends the
      search as well); `SheetMissing` when every sheet is missing. */
  function FirstSheet(path: string, sheets: seq<SheetName>, read: (string, SheetName) -> SheetRead): (r: SheetRead)
    ensures r == SheetMissing <==> forall i :: 0 <= i < |sheets| ==> read(path, sheets[i]) == SheetMissing
    ensures r != SheetMissing ==>
      exists i :: (0 <= i < |sheets| && read(path, sheets[i]) == r
        && forall j :: 0 <= j < i ==> read(path, sheets[j]) == SheetMissing)
  {
    if sheets == [] then SheetMissing
    else if read(path, sheets[0]) != SheetMissing then read(path, sheets[0])
    else
      var r := FirstSheet(path, sheets[1..], read);
      assert forall i :: 1 <= i < |sheets| ==> sheets[i] == sheets[1..][i - 1];
      r
  }

  /** The table key of a FIPS code: every ".0" removed, then zero-padded to eleven characters. */
  function NormalizeFips(code: string): string {
    Zfill(ReplaceAll(code, ".0", ""), 11)
  }

  /** A key is never shorter than eleven characters; a code of digits keeps its digits and
      the number they spell, behind leading zeros. */
  lemma NormalizeFipsSpec(code: string)
    ensures |NormalizeFips(code)| >= 11
    ensures AllDigits(code) ==>
      var k := NormalizeFips(code);
      && |k| == (if |code| >= 11 then |code| else 11)
      && AllDigits(k) && DigitsValue(k) == DigitsValue(code)
      && k[|k| - |code|..] == code
  {
    var c1 := ReplaceAll(code, ".0", "");
    ZfillSpec(c1, 11);
    if AllDigits(code) {
      assert !Contains(code, ".0") by {
        forall i | 0 <= i <= |code| ensures !OccursAt(code, ".0", i) {
          if i + 2 <= |code| {
            assert code[i..i + 2][0] == code[i];
          }
        }
      }
      ReplaceAllWithoutOccurrence(code, ".0", "");
      if |code| < 11 {
        assert NormalizeFips(code) == Zeros(11 - |code|) + code;
        DigitsValueWithLeadingZeros(11 - |code|, code);
      }
    }
  }

  /** A row that survives `dropna`: both cells present. */
  predicate Complete(row: SheetRow) { row.fips.Some? && row.level.Some? }

  /** `dict(zip(codes, levels))` over the complete rows: normalised code to trimmed level,
      a later row winning. */
  function BuildTable(rows: seq<SheetRow>): map<string, string>
    decreases |rows|
  {
    if rows == [] then map[]
    else
      var init := BuildTable(rows[..|rows| - 1]);
      var row := rows[|rows| - 1];
      if Complete(row) then init[NormalizeFips(row.fips.value) := Strip(row.level.value)] else init
  }

  /** The row gives a value to `key`. */
  predicate RowFor(row: SheetRow, key: string) {
    Complete(row) && NormalizeFips(row.fips.value) == key
  }

  /** A key is in the table exactly when some complete row normalises to it. */
  lemma {:induction false} BuildTableKeys(rows: seq<SheetRow>, key: string)
    ensures key in BuildTable(rows) <==> exists i :: 0 <= i < |rows| && RowFor(rows[i], key)
    decreases |rows|
  {
    if rows != [] {
      var init := rows[..|rows| - 1];
      BuildTableKeys(init, key);
      if key in BuildTable(init) {
        var i :| 0 <= i < |init| && RowFor(init[i], key);
        assert rows[i] == init[i];
      }
      if i :| 0 <= i < |rows| && RowFor(rows[i], key) {
        if i < |init| {
          assert init[i] == rows[i];
        }
      }
    }
  }

  /** The level of a key is the trimmed level of the last row that names it. */
  lemma {:induction false} BuildTableLast(rows: seq<SheetRow>, key: string, i: nat)
    requires i < |rows| && RowFor(rows[i], key)
    requires forall j :: i < j < |rows| ==> !RowFor(rows[j], key)
    ensures key in BuildTable(rows) && BuildTable(rows)[key] == Strip(rows[i].level.value)
    decreases |rows|
  {
    if i < |rows| - 1 {
      var init := rows[..|rows| - 1];
      assert init[i] == rows[i];
      forall j | i < j < |init| ensures !RowFor(init[j], key) {
        assert init[j] == rows[j];
      }
      BuildTableLast(init, key, i);
      assert !RowFor(rows[|rows| - 1], key);
    }
  }

  /** What loading the reference data gives: a table with the base name of its file (an
      empty table and no name when anything goes wrong), or an exception that escapes. */
  datatype LoadOutcome =
    | Loaded(table: map<string, string>, source: Option<string>)
    | LoadRaised(message: string)

  /** `load_ffiec_tract_lookup` once the table is still unset. */
  function LoadTable(files: ReferenceFiles): (r: LoadOutcome)
    ensures r.LoadRaised? <==> FirstExisting(ReferenceFileNames, files.pathExists).Some? && files.pandas.PandasBroken?
    ensures r.Loaded? && r.source.Some? ==> r.source.value in ReferenceFileNames
    ensures r.Loaded? && r.source.None? ==> r.table == map[]
    ensures FirstExisting(ReferenceFileNames, files.pathExists).None? || files.pandas.PandasMissing? ==>
      r == Loaded(map[], None)
    ensures r.Loaded? && r.source.Some? ==>
      && FirstExisting(ReferenceFileNames, files.pathExists) == r.source && files.pandas.PandasAvailable?
      && var sheet := FirstSheet(ReferencePath(r.source.value), SheetNameCandidates, files.readSheet);
         sheet.SheetRows? && r.table == BuildTable(sheet.rows)
    ensures var found := FirstExisting(ReferenceFileNames, files.pathExists);
      found.Some? && files.pandas.PandasAvailable?
      && !FirstSheet(ReferencePath(found.value), SheetNameCandidates, files.readSheet).SheetRows? ==>
      r == Loaded(map[], None)
  {
    match FirstExisting(ReferenceFileNames, files.pathExists)
    case None => Loaded(map[], None)
    case Some(name) =>
      match files.pandas
      case PandasMissing => Loaded(map[], None)
      case PandasBroken(msg) => LoadRaised(msg)
      case PandasAvailable =>
        match FirstSheet(ReferencePath(name), SheetNameCandidates, files.readSheet)
        case SheetRows(rows) => Loaded(BuildTable(rows), Some(name))
        case _ => Loaded(map[], None)
  }

  /** Every key of a loaded table is the normalised code of a complete row of the first
      readable sheet, at least eleven characters long, and every such row gives a key. */
  lemma LoadedTableKeys(files: ReferenceFiles, key: string)
    requires LoadTable(files).Loaded?
    ensures key in LoadTable(files).table ==> |key| >= 11 && LoadTable(files).source.Some?
    ensures LoadTable(files).source.Some? ==>
      var rows := FirstSheet(ReferencePath(LoadTable(files).source.value), SheetNameCandidates, files.readSheet).rows;
      (key in LoadTable(files).table <==> exists i :: 0 <= i < |rows| && RowFor(rows[i], key))
  {
    var r := LoadTable(files);
    if r.source.Some? {
      var rows := FirstSheet(ReferencePath(r.source.value), SheetNameCandidates, files.readSheet).rows;
      assert r.table == BuildTable(rows);
      BuildTableKeys(rows, key);
      if key in r.table {
        var i :| 0 <= i < |rows| && RowFor(rows[i], key);
        NormalizeFipsSpec(rows[i].fips.value);
        assert rows == FirstSheet(ReferencePath(LoadTable(files).source.value), SheetNameCandidates, files.readSheet).rows;
      }
    }
  }

  /** The fields `get_ffiec_income_level` returns: the level (None when there is none),
      `ffiec_source` and `ffiec_error` when present. */
  datatype FfiecResult = FfiecResult(incomeLevel: Option<string>, source: Option<string>, error: Option<string>)

  const NoGeographyResult := FfiecResult(None, None, Some("No census geography available for FFIEC lookup"))
  const NoTractIdResult := FfiecResult(None, None, Some("Unable to determine tract identifier"))
  const TableUnavailableResult := FfiecResult(None, None, Some("FFIEC reference data unavailable"))
  const TractMissingResult := FfiecResult(None, None, Some("Tract not present in FFIEC reference file"))

  /** The tract identifier of a geography: its `tract_id`, or else the three codes side by
      side when all are non-empty. */
  function TractIdFor(g: Geography): (r: Option<string>)
    ensures r.Some? ==> r.value != ""
    ensures r.None? <==> g.tractId == "" && (g.stateFips == "" || g.countyFips == "" || g.tractFips == "")
  {
    if g.tractId != "" then Some(g.tractId)
    else if g.stateFips != "" && g.countyFips != "" && g.tractFips != "" then Some(g.stateFips + g.countyFips + g.tractFips)
    else None
  }

  function FfiecCacheKey(tractId: string): string {
    "ffiec::" + tractId
  }

  /** The answer for one tract from a loaded table. */
  function FfiecFromTable(table: map<string, string>, source: Option<string>, tractId: string): (r: FfiecResult)
    ensures r.incomeLevel.Some? <==> tractId in table && table[tractId] != ""
    ensures r.incomeLevel.Some? ==>
      && r.incomeLevel.value == table[tractId] && r.error.None?
      && r.source == Some(if Truthy(source) then source.value else "local_file")
    ensures r.incomeLevel.None? ==> r == (if |table| == 0 then TableUnavailableResult else TractMissingResult)
  {
    if |table| == 0 then TableUnavailableResult
    else if tractId in table && table[tractId] != "" then
      FfiecResult(Some(table[tractId]), Some(if Truthy(source) then source.value else "local_file"), None)
    else TractMissingResult
  }
}
