/** The lookup object: its cache and its once-loaded FFIEC table, the methods that read
    and update them, and the step functions those methods are proved against. A step
    function maps the state before a call to the result and the state after it, so
    that properties of several calls in a row are lemmas about the step functions. */
module Lookup {
  import opened Wrappers
  import opened PyStr
  import opened Services
  import opened Addresses
  import opened Geocoding
  import opened Demographics
  import opened Ffiec

  /** A cached value: a located geocoding result, demographics found for a tract, or the
      FFIEC answer for a tract (negative answers included). */
  datatype CacheEntry =
    | GeoEntry(geocode: GeocodeResult)
    | DemographicsEntry(demographics: DemographicsResult)
    | FfiecEntry(ffiec: FfiecResult)

  /** The mutable part of the object: the cache, the FFIEC table (None until loaded) and
      the base name of the file it came from. */
  datatype LookupState = LookupState(
    cache: map<string, CacheEntry>,
    table: Option<map<string, string>>,
    source: Option<string>)

  /** Stands for the key built into the code; any non-empty string behaves the same. */
  const DefaultGoogleMapsApiKey := "default-google-maps-api-key"

  /** The FFIEC part of a result with its error present exactly when there is no level. */
  predicate FfiecWellFormed(f: FfiecResult) {
    f.incomeLevel.Some? <==> f.error.None?
  }

  /** What the cache can hold: only located geocoding results, only demographics that
      were found, and FFIEC answers with a level or an error. */
  predicate CacheWellFormed(cache: map<string, CacheEntry>) {
    forall k :: k in cache ==>
      match cache[k]
      case GeoEntry(g) => g.Located?
      case DemographicsEntry(d) => d.DemographicsFound?
      case FfiecEntry(f) => FfiecWellFormed(f)
  }

  // ---------------------------------------------------------------- geocoding

  /** `geocode_address` once its candidate list is `vars`: the result, and the cache
      with a located result stored under the request's key. The cache is never read. */
  function GeocodeStep(st: LookupState, vars: seq<string>, address: string, city: string, state: string,
                       zip: Option<string>, key: Option<string>, services: Services): (LookupState, GeocodeResult)
  {
    var r := Geocode(vars, address, city, state, zip, key, services);
    (if r.Located? then st.(cache := st.cache[GeocodeCacheKey(address, city, state, zip) := GeoEntry(r)]) else st, r)
  }

  /** The result does not depend on what is cached, the table is untouched, and the cache
      gains exactly the located result under the request's key. */
  lemma GeocodeStepFrame(st: LookupState, other: LookupState, vars: seq<string>, address: string, city: string,
                         state: string, zip: Option<string>, key: Option<string>, services: Services)
    ensures var (st1, r) := GeocodeStep(st, vars, address, city, state, zip, key, services);
      && r == GeocodeStep(other, vars, address, city, state, zip, key, services).1
      && st1.table == st.table && st1.source == st.source
      && (forall k :: k in st.cache && k != GeocodeCacheKey(address, city, state, zip) ==>
            k in st1.cache && st1.cache[k] == st.cache[k])
      && (GeocodeCacheKey(address, city, state, zip) in st1.cache <==>
            r.Located? || GeocodeCacheKey(address, city, state, zip) in st.cache)
      && (r.Located? ==> st1.cache[GeocodeCacheKey(address, city, state, zip)] == GeoEntry(r))
      && (!r.Located? ==> st1 == st)
  {
  }

  // ---------------------------------------------------------------- demographics

  function DemographicsCacheKey(stateFips: string, countyFips: string, tractFips: string): string {
    stateFips + countyFips + tractFips
  }

  /** `get_census_demographics`: a cached record comes back without a request; otherwise
      the survey answer decides, and a record that was found is cached. */
  function DemographicsStep(st: LookupState, stateFips: string, countyFips: string, tractFips: string,
                            acs: (string, string, string) -> AcsResponse): (LookupState, DemographicsResult)
  {
    var key := DemographicsCacheKey(stateFips, countyFips, tractFips);
    if key in st.cache && st.cache[key].DemographicsEntry? then (st, st.cache[key].demographics)
    else
      var r := DemographicsFromAcs(tractFips, acs(stateFips, countyFips, tractFips));
      (if r.DemographicsFound? then st.(cache := st.cache[key := DemographicsEntry(r)]) else st, r)
  }

  /** On a cache hit the survey service is not consulted: any other service gives the same. */
  lemma DemographicsHitSkipsService(st: LookupState, stateFips: string, countyFips: string, tractFips: string,
                                    acs: (string, string, string) -> AcsResponse, other: (string, string, string) -> AcsResponse)
    requires DemographicsCacheKey(stateFips, countyFips, tractFips) in st.cache
    requires st.cache[DemographicsCacheKey(stateFips, countyFips, tractFips)].DemographicsEntry?
    ensures DemographicsStep(st, stateFips, countyFips, tractFips, acs) == DemographicsStep(st, stateFips, countyFips, tractFips, other)
    ensures DemographicsStep(st, stateFips, countyFips, tractFips, acs).0 == st
  {
  }

  /** A record once found is what every later request for the tract returns, whatever
      the service would answer then, and the state stays as it is. */
  lemma DemographicsRepeat(st: LookupState, stateFips: string, countyFips: string, tractFips: string,
                           acs: (string, string, string) -> AcsResponse, later: (string, string, string) -> AcsResponse)
    requires DemographicsStep(st, stateFips, countyFips, tractFips, acs).1.DemographicsFound?
    ensures var (st1, r) := DemographicsStep(st, stateFips, countyFips, tractFips, acs);
      DemographicsStep(st1, stateFips, countyFips, tractFips, later) == (st1, r)
  {
  }

  /** A failed request is not cached: the next request asks the service again. */
  lemma DemographicsErrorNotCached(st: LookupState, stateFips: string, countyFips: string, tractFips: string,
                                   acs: (string, string, string) -> AcsResponse)
    requires CacheWellFormed(st.cache)
    requires DemographicsStep(st, stateFips, countyFips, tractFips, acs).1.DemographicsError?
    ensures DemographicsStep(st, stateFips, countyFips, tractFips, acs).0 == st
    ensures var key := DemographicsCacheKey(stateFips, countyFips, tractFips);
      !(key in st.cache && st.cache[key].DemographicsEntry?)
  {
  }

  // ---------------------------------------------------------------- the FFIEC table

  /** `load_ffiec_tract_lookup`: nothing happens once the table is set; otherwise the
      table (empty when anything goes wrong) and its file name are set, unless the
      import of the spreadsheet library raises, which leaves the state as it was. */
  function LoadStep(st: LookupState, files: ReferenceFiles): (r: (LookupState, Option<string>))
    ensures r.1.None? ==> r.0.table.Some? && r.0.cache == st.cache
    ensures r.1.Some? ==> r.0 == st && st.table.None?
    ensures st.table.Some? ==> r == (st, None)
  {
    if st.table.Some? then (st, None)
    else
      match LoadTable(files)
      case Loaded(t, src) => (st.(table := Some(t), source := src), None)
      case LoadRaised(msg) => (st, Some(msg))
  }

  /** The table is loaded at most once: after a load that did not raise, loading again
      with any reference files at all changes nothing. */
  lemma LoadAtMostOnce(st: LookupState, files: ReferenceFiles, later: ReferenceFiles)
    requires LoadStep(st, files).1.None?
    ensures LoadStep(LoadStep(st, files).0, later) == (LoadStep(st, files).0, None)
  {
  }

  /** A load on a state without a table sets the table the reference files give, and a
      table that comes with no file name is empty. */
  lemma LoadSetsTable(st: LookupState, files: ReferenceFiles)
    requires st.table.None? && LoadTable(files).Loaded?
    ensures var st1 := LoadStep(st, files).0;
      && st1.table == Some(LoadTable(files).table) && st1.source == LoadTable(files).source
      && (st1.source.None? ==> st1.table == Some(map[]))
      && (st1.source.Some? ==> st1.source.value in ReferenceFileNames)
      && (FirstExisting(ReferenceFileNames, files.pathExists).None? || files.pandas.PandasMissing? ==>
            st1.table == Some(map[]) && st1.source.None?)
      && (st1.source.Some? ==>
            && FirstExisting(ReferenceFileNames, files.pathExists) == st1.source
            && var sheet := FirstSheet(ReferencePath(st1.source.value), SheetNameCandidates, files.readSheet);
               sheet.SheetRows? && st1.table == Some(BuildTable(sheet.rows)))
      && (forall key :: key in st1.table.value ==> |key| >= 11)
  {
    forall key | key in LoadTable(files).table ensures |key| >= 11 {
      LoadedTableKeys(files, key);
    }
  }

  /** What `get_ffiec_income_level` raises or returns. */
  datatype FfiecOutcome = FfiecReturned(result: FfiecResult) | FfiecRaised(message: string)

  /** `get_ffiec_income_level`: no geography and no tract identifier are answered at once;
      a cached answer is returned; otherwise the table is loaded if need be, and the
      answer, negative or not, is cached under "ffiec::" and the identifier. */
  function FfiecStep(st: LookupState, geography: Option<Geography>, files: ReferenceFiles): (LookupState, FfiecOutcome)
  {
    if geography.None? then (st, FfiecReturned(NoGeographyResult))
    else
      match TractIdFor(geography.value)
      case None => (st, FfiecReturned(NoTractIdResult))
      case Some(id) =>
        var key := FfiecCacheKey(id);
        if key in st.cache && st.cache[key].FfiecEntry? then (st, FfiecReturned(st.cache[key].ffiec))
        else
          var (st1, raised) := LoadStep(st, files);
          if raised.Some? then (st1, FfiecRaised(raised.value))
          else
            var res := FfiecFromTable(st1.table.value, st1.source, id);
            (st1.(cache := st1.cache[key := FfiecEntry(res)]), FfiecReturned(res))
  }

  /** The answer for a tract the table has been consulted for, positive or negative, is
      the one every later request returns, whatever the reference files are by then. */
  lemma FfiecRepeat(st: LookupState, g: Geography, files: ReferenceFiles, later: ReferenceFiles)
    requires TractIdFor(g).Some? && FfiecStep(st, Some(g), files).1.FfiecReturned?
    ensures var (st1, o) := FfiecStep(st, Some(g), files);
      FfiecStep(st1, Some(g), later) == (st1, o)
  {
  }

  /** An answer read from the table is the table's level for the tract, or one of the two
      negative answers, and the table is then loaded. */
  lemma FfiecAnswer(st: LookupState, g: Geography, files: ReferenceFiles)
    requires TractIdFor(g).Some?
    requires FfiecCacheKey(TractIdFor(g).value) !in st.cache
    requires FfiecStep(st, Some(g), files).1.FfiecReturned?
    ensures var (st1, o) := FfiecStep(st, Some(g), files);
      var id := TractIdFor(g).value;
      && st1.table.Some?
      && (o.result.incomeLevel.Some? <==> id in st1.table.value && st1.table.value[id] != "")
      && (o.result.incomeLevel.None? ==>
            o.result == (if |st1.table.value| == 0 then TableUnavailableResult else TractMissingResult))
      && FfiecCacheKey(id) in st1.cache && st1.cache[FfiecCacheKey(id)] == FfiecEntry(o.result)
  {
  }

  /** Without a tract identifier nothing is loaded and nothing is cached. */
  lemma FfiecWithoutTract(st: LookupState, geography: Option<Geography>, files: ReferenceFiles)
    requires geography.None? || TractIdFor(geography.value).None?
    ensures FfiecStep(st, geography, files).0 == st
    ensures FfiecStep(st, geography, files).1 == FfiecReturned(if geography.None? then NoGeographyResult else NoTractIdResult)
  {
  }

  // ---------------------------------------------------------------- the whole lookup

  /** The result of `lookup_address`: the geocoding part, then demographics once an
      address is located, then the FFIEC fields once demographics were found. */
  datatype LookupResult = LookupResult(
    geocode: GeocodeResult,
    demographics: Option<DemographicsResult>,
    ffiec: Option<FfiecResult>)

  const FfiecUnexpectedPrefix := "Unexpected FFIEC processing error: "

  /** The FFIEC fields merged into a result: the answer, or a raised error without a level. */
  function FfiecFields(o: FfiecOutcome): (f: FfiecResult)
    ensures o.FfiecRaised? ==> f.incomeLevel.None? && f.source.None? && f.error == Some(FfiecUnexpectedPrefix + o.message)
    ensures o.FfiecReturned? ==> f == o.result
  {
    match o
    case FfiecReturned(res) => res
    case FfiecRaised(msg) => FfiecResult(None, None, Some(FfiecUnexpectedPrefix + msg))
  }

  /** The `error` field of a lookup result: the demographics error once there is one,
      else the geocoding error. */
  function LookupError(r: LookupResult): (e: Option<string>)
    ensures r.geocode.Located? && r.demographics.Some? && r.demographics.value.DemographicsFound? ==> e.None?
    ensures !r.geocode.Located? && r.demographics.None? ==> e == Geocoding.ErrorOf(r.geocode)
  {
    match r.demographics
    case Some(DemographicsError(err, _)) => Some(err)
    case _ => Geocoding.ErrorOf(r.geocode)
  }

  /** `lookup_address` once the candidate list is `vars`. */
  function LookupStep(st: LookupState, vars: seq<string>, address: string, city: string, state: string,
                      zip: Option<string>, key: Option<string>, services: Services): (LookupState, LookupResult)
  {
    var (st1, g) := GeocodeStep(st, vars, address, city, state, zip, key, services);
    if !g.Located? then (st1, LookupResult(g, None, None))
    else
      var geo := g.geography;
      var (st2, d) := DemographicsStep(st1, geo.stateFips, geo.countyFips, geo.tractFips, services.acs);
      if d.DemographicsError? then (st2, LookupResult(g, Some(d), None))
      else
        var (st3, f) := FfiecStep(st2, Some(geo), services.files);
        (st3, LookupResult(g, Some(d), Some(FfiecFields(f))))
  }

  /** A geocoding failure comes back as it is; a demographics error is reported with the
      geocoding fields; otherwise the FFIEC fields are always there, an exception in that
      step included, which then leaves the income level empty. */
  lemma LookupStepShape(st: LookupState, vars: seq<string>, address: string, city: string, state: string,
                        zip: Option<string>, key: Option<string>, services: Services)
    ensures var r := LookupStep(st, vars, address, city, state, zip, key, services).1;
      && r.geocode == Geocode(vars, address, city, state, zip, key, services)
      && (!r.geocode.Located? ==> r.demographics.None? && r.ffiec.None? && LookupError(r) == Geocoding.ErrorOf(r.geocode))
      && (r.geocode.Located? ==> r.demographics.Some?)
      && (r.demographics.Some? && r.demographics.value.DemographicsError? ==>
            r.ffiec.None? && LookupError(r) == Some(r.demographics.value.error))
      && (r.geocode.Located? && r.demographics.Some? && r.demographics.value.DemographicsFound? ==>
            r.ffiec.Some? && LookupError(r).None?)
  {
    var (st1, g) := GeocodeStep(st, vars, address, city, state, zip, key, services);
    if g.Located? {
      var geo := g.geography;
      var (st2, d) := DemographicsStep(st1, geo.stateFips, geo.countyFips, geo.tractFips, services.acs);
      if d.DemographicsFound? {
        var (st3, f) := FfiecStep(st2, Some(geo), services.files);
        assert LookupStep(st, vars, address, city, state, zip, key, services).1 == LookupResult(g, Some(d), Some(FfiecFields(f)));
      }
    }
  }

  /** Every answer the FFIEC step produces carries a level or an error, never both. */
  lemma FfiecStepWellFormed(st: LookupState, geography: Option<Geography>, files: ReferenceFiles)
    requires CacheWellFormed(st.cache)
    ensures var (st1, o) := FfiecStep(st, geography, files);
      CacheWellFormed(st1.cache) && FfiecWellFormed(FfiecFields(o))
  {
    var (st1, o) := FfiecStep(st, geography, files);
    if geography.Some? && TractIdFor(geography.value).Some? {
      var key := FfiecCacheKey(TractIdFor(geography.value).value);
      if key in st.cache && st.cache[key].FfiecEntry? {
        assert FfiecWellFormed(st.cache[key].ffiec);
      }
    }
  }

  lemma GeocodeStepKeepsCache(st: LookupState, vars: seq<string>, address: string, city: string, state: string,
                              zip: Option<string>, key: Option<string>, services: Services)
    requires CacheWellFormed(st.cache)
    ensures CacheWellFormed(GeocodeStep(st, vars, address, city, state, zip, key, services).0.cache)
  {
  }

  lemma DemographicsStepKeepsCache(st: LookupState, stateFips: string, countyFips: string, tractFips: string,
                                   acs: (string, string, string) -> AcsResponse)
    requires CacheWellFormed(st.cache)
    ensures CacheWellFormed(DemographicsStep(st, stateFips, countyFips, tractFips, acs).0.cache)
  {
  }

  /** The cache keeps its shape across a whole lookup. */
  lemma LookupStepKeepsCache(st: LookupState, vars: seq<string>, address: string, city: string, state: string,
                             zip: Option<string>, key: Option<string>, services: Services)
    requires CacheWellFormed(st.cache)
    ensures CacheWellFormed(LookupStep(st, vars, address, city, state, zip, key, services).0.cache)
  {
    GeocodeStepKeepsCache(st, vars, address, city, state, zip, key, services);
    var (st1, g) := GeocodeStep(st, vars, address, city, state, zip, key, services);
    if g.Located? {
      var geo := g.geography;
      DemographicsStepKeepsCache(st1, geo.stateFips, geo.countyFips, geo.tractFips, services.acs);
      var (st2, d) := DemographicsStep(st1, geo.stateFips, geo.countyFips, geo.tractFips, services.acs);
      if d.DemographicsFound? {
        FfiecStepWellFormed(st2, Some(geo), services.files);
      }
    }
  }

  /** Once loaded, the table and its file name stay as they are for every later lookup. */
  lemma LookupStepKeepsTable(st: LookupState, vars: seq<string>, address: string, city: string, state: string,
                             zip: Option<string>, key: Option<string>, services: Services)
    requires st.table.Some?
    ensures var st1 := LookupStep(st, vars, address, city, state, zip, key, services).0;
      st1.table == st.table && st1.source == st.source
  {
    GeocodeStepFrame(st, st, vars, address, city, state, zip, key, services);
    var (st1, g) := GeocodeStep(st, vars, address, city, state, zip, key, services);
    if g.Located? {
      var geo := g.geography;
      DemographicsStepKeepsTable(st1, geo.stateFips, geo.countyFips, geo.tractFips, services.acs);
      var (st2, d) := DemographicsStep(st1, geo.stateFips, geo.countyFips, geo.tractFips, services.acs);
      if d.DemographicsFound? {
        FfiecStepKeepsTable(st2, Some(geo), services.files);
      }
    }
  }

  lemma DemographicsStepKeepsTable(st: LookupState, stateFips: string, countyFips: string, tractFips: string,
                                   acs: (string, string, string) -> AcsResponse)
    ensures var st1 := DemographicsStep(st, stateFips, countyFips, tractFips, acs).0;
      st1.table == st.table && st1.source == st.source
  {
  }

  lemma FfiecStepKeepsTable(st: LookupState, geography: Option<Geography>, files: ReferenceFiles)
    requires st.table.Some?
    ensures var st1 := FfiecStep(st, geography, files).0;
      st1.table == st.table && st1.source == st.source
  {
  }

  // ---------------------------------------------------------------- the object

  /** `list(set(s))`: every element of `s` once. The order Python gives is not fixed; this
      one keeps first occurrences, which the contract does not promise. */
  method Distinct<T(==)>(s: seq<T>) returns (d: seq<T>)
    ensures NoDuplicates(d)
    ensures forall v :: v in d ==> v in s
    ensures forall v :: v in s ==> v in d
  {
    d := [];
    for i := 0 to |s|
      invariant NoDuplicates(d)
      invariant forall v :: v in d ==> v in s[..i]
      invariant forall k :: 0 <= k < i ==> s[k] in d
    {
      if s[i] !in d {
        d := d + [s[i]];
      }
    }
    assert s[..|s|] == s;
  }

  class CensusDemographicsLookup {
    var googleMapsApiKey: Option<string>
    var cache: map<string, CacheEntry>
    var ffiecTractLookup: Option<map<string, string>>
    var ffiecTractSource: Option<string>
    /** The outside world, fixed for the life of the object. */
    const services: Services

    function State(): LookupState
      reads this
    {
      LookupState(cache, ffiecTractLookup, ffiecTractSource)
    }

    predicate Valid()
      reads this
    {
      CacheWellFormed(cache) && Truthy(googleMapsApiKey)
    }

    /** The given key when it is non-empty, else the built-in one; an empty cache and no table. */
    constructor(googleMapsApiKey: Option<string>, services: Services)
      ensures this.googleMapsApiKey == if Truthy(googleMapsApiKey) then googleMapsApiKey else Some(DefaultGoogleMapsApiKey)
      ensures this.services == services
      ensures State() == LookupState(map[], None, None)
      ensures Valid()
    {
      this.googleMapsApiKey := if Truthy(googleMapsApiKey) then googleMapsApiKey else Some(DefaultGoogleMapsApiKey);
      this.services := services;
      cache := map[];
      ffiecTractLookup := None;
      ffiecTractSource := None;
    }

    /** `normalize_address`: lower-case, trim, then every abbreviation of every entry of
        the table rewritten, in order. */
    method NormalizeAddress(address: string) returns (normalized: string)
      ensures normalized == Normalize(address)
      ensures NoUpper(normalized) && IsStripped(normalized)
    {
      AddressAbbreviationsWellFormed();
      normalized := ExpandAbbreviations(Strip(Lower(address)), AddressAbbreviations);
      NormalizeIsLowerAndTrimmed(address);
    }

    /** The two loops of `normalize_address`: each abbreviation of each entry, in order,
        rewritten to the entry's full word where it stands as a whole word. */
    method ExpandAbbreviations(text: string, table: seq<(string, seq<string>)>) returns (normalized: string)
      requires WellFormedTable(table)
      ensures normalized == ExpandAll(text, table)
    {
      normalized := text;
      for i := 0 to |table|
        invariant ExpandAll(normalized, table[i..]) == ExpandAll(text, table)
      {
        var (fullWord, abbreviations) := table[i];
        assert table[i..][1..] == table[i + 1..];
        for j := 0 to |abbreviations|
          invariant ExpandAll(ExpandWith(normalized, abbreviations[j..], fullWord), table[i + 1..]) == ExpandAll(text, table)
        {
          assert abbreviations[j..][1..] == abbreviations[j + 1..];
          normalized := SubWholeWord(normalized, abbreviations[j], fullWord);
        }
      }
    }

    /** `generate_address_variations`: the candidates without repetitions. */
    method GenerateAddressVariations(address: string, city: string, state: string, zip: Option<string>)
      returns (variations: seq<string>)
      ensures IsVariationList(variations, address, city, state, zip)
    {
      var fullAddress := FullAddress(address, city, state, zip);
      var normalizedAddress := NormalizeAddress(address);
      var normalizedFull := FullAddress(normalizedAddress, city, state, zip);
      var cleanAddress := StripUnit(address);
      var unitFull: seq<string> := if cleanAddress != address then [FullAddress(cleanAddress, city, state, zip)] else [];
      var cleanVariation := CleanPunctuation(address);
      var cleanFull: seq<string> := if cleanVariation != address then [FullAddress(cleanVariation, city, state, zip)] else [];
      var candidates := [fullAddress, normalizedFull] + unitFull + cleanFull;
      assert candidates == Candidates(address, city, state, zip);
      variations := Distinct(candidates);
    }

    /** `geocode_with_google_maps`, the component map built type by type. */
    method GeocodeWithGoogleMaps(address: string, city: string, state: string, zip: Option<string>)
      returns (r: GoogleOutcome)
      ensures r == GoogleGeocode(googleMapsApiKey, FullAddress(address, city, state, zip), services.googleGeocode)
    {
      if !Truthy(googleMapsApiKey) {
        return GoogleError("Google Maps API key not provided", None);
      }
      var fullAddress := FullAddress(address, city, state, zip);
      match services.googleGeocode(fullAddress, googleMapsApiKey.value)
      case GoogleRequestFailed(msg) =>
        r := GoogleError("Google Maps API error", Some(msg));
      case GoogleUnexpected(msg) =>
        r := GoogleError("Unexpected error with Google Maps", Some(msg));
      case GoogleReply(status, results) =>
        if status != "OK" || |results| == 0 {
          r := GoogleError("Address not found in Google Maps", Some("Google Maps status: " + status));
        } else {
          var place := results[0];
          var components: map<string, string> := map[];
          for i := 0 to |place.components|
            invariant components == ComponentMap(place.components[..i])
          {
            var component := place.components[i];
            for j := 0 to |component.types|
              invariant components == AddComponentTypes(ComponentMap(place.components[..i]), component.longName, component.types[..j])
            {
              assert component.types[..j + 1][..j] == component.types[..j];
              components := components[component.types[j] := component.longName];
            }
            assert component.types[..|component.types|] == component.types;
            assert place.components[..i + 1][..i] == place.components[..i];
          }
          assert place.components[..|place.components|] == place.components;
          r := GoogleFound(GoogleHit(
            AddressInfo(fullAddress, place.formattedAddress, Coordinates(place.latitude, place.longitude)),
            place.placeId, place.formattedAddress, components));
        }
    }

    /** The loop of `geocode_address` over the candidates: the first one the Census
        geocoder locates, in list order. */
    method FirstCensusMatch(variations: seq<string>) returns (hit: Option<GeocodeResult>)
      ensures hit == FirstPrimaryHit(variations, services.censusGeocode)
    {
      var i := 0;
      while i < |variations|
        invariant 0 <= i <= |variations|
        invariant forall j :: 0 <= j < i ==> PrimaryFails(variations[j], services.censusGeocode)
      {
        var fullAddress := variations[i];
        var attempt := PrimaryAttempt(fullAddress, services.censusGeocode(fullAddress));
        if attempt.Some? {
          FirstPrimaryHitAt(variations, services.censusGeocode, i);
          return attempt;
        }
        i := i + 1;
      }
      FirstPrimaryHitNone(variations, services.censusGeocode);
      return None;
    }

    /** The part of `geocode_address` after the candidates are made: each through the
        Census geocoder in turn, then Google and one Census retry. Nothing is cached here. */
    method GeocodeVariations(variations: seq<string>, address: string, city: string, state: string, zip: Option<string>)
      returns (r: GeocodeResult)
      ensures r == Geocode(variations, address, city, state, zip, googleMapsApiKey, services)
    {
      var hit := FirstCensusMatch(variations);
      if hit.Some? {
        r := hit.value;
      } else if Truthy(googleMapsApiKey) {
        var google := GeocodeWithGoogleMaps(address, city, state, zip);
        if google.GoogleFound? {
          r := CensusRetry(FullAddress(address, city, state, zip), google.hit, services.censusGeocode);
        } else {
          r := NotFound(variations);
        }
      } else {
        r := NotFound(variations);
      }
    }

    /** `geocode_address`: the candidates (or the literal address alone without fuzzy
        matching) through the Census geocoder, then Google and one Census retry. */
    method GeocodeAddress(address: string, city: string, state: string, zip: Option<string>, useFuzzyMatching: bool)
      returns (r: GeocodeResult)
      requires Valid()
      modifies this`cache
      ensures exists vars :: (IsTriedList(vars, address, city, state, zip, useFuzzyMatching)
        && (State(), r) == GeocodeStep(old(State()), vars, address, city, state, zip, googleMapsApiKey, services))
      ensures Valid()
    {
      var cacheKey := GeocodeCacheKey(address, city, state, zip);
      var variations: seq<string>;
      if useFuzzyMatching {
        variations := GenerateAddressVariations(address, city, state, zip);
      } else {
        variations := [FullAddress(address, city, state, zip)];
      }
      assert IsTriedList(variations, address, city, state, zip, useFuzzyMatching);
      r := GeocodeVariations(variations, address, city, state, zip);
      // The located result is cached, whichever way it was found.
      if r.Located? {
        cache := cache[cacheKey := GeoEntry(r)];
      }
      assert (State(), r) == GeocodeStep(old(State()), variations, address, city, state, zip, googleMapsApiKey, services);
      GeocodeStepKeepsCache(old(State()), variations, address, city, state, zip, googleMapsApiKey, services);
    }

    /** `get_census_demographics`. */
    method GetCensusDemographics(stateFips: string, countyFips: string, tractFips: string)
      returns (r: DemographicsResult)
      requires Valid()
      modifies this`cache
      ensures (State(), r) == DemographicsStep(old(State()), stateFips, countyFips, tractFips, services.acs)
      ensures Valid()
    {
      DemographicsStepKeepsCache(State(), stateFips, countyFips, tractFips, services.acs);
      var cacheKey := DemographicsCacheKey(stateFips, countyFips, tractFips);
      if cacheKey in cache && cache[cacheKey].DemographicsEntry? {
        return cache[cacheKey].demographics;
      }
      r := DemographicsFromAcs(tractFips, services.acs(stateFips, countyFips, tractFips));
      if r.DemographicsFound? {
        cache := cache[cacheKey := DemographicsEntry(r)];
      }
    }

    /** `load_ffiec_tract_lookup`, with the sheets tried in order until one exists. The
        message of an exception that escapes is returned. */
    method LoadFfiecTractLookup() returns (raised: Option<string>)
      requires Valid()
      modifies this`ffiecTractLookup, this`ffiecTractSource
      ensures (State(), raised) == LoadStep(old(State()), services.files)
      ensures Valid()
    {
      if ffiecTractLookup.Some? {
        return None;
      }
      var files := services.files;
      match FirstExisting(ReferenceFileNames, files.pathExists)
      case None =>
        ffiecTractLookup := Some(map[]);
        ffiecTractSource := None;
        return None;
      case Some(name) =>
        match files.pandas
        case PandasMissing =>
          ffiecTractLookup := Some(map[]);
          ffiecTractSource := None;
          return None;
        case PandasBroken(msg) =>
          return Some(msg);
        case PandasAvailable =>
          raised := None;
          var path := ReferencePath(name);
          var sheet := SheetMissing;
          var i := 0;
          while i < |SheetNameCandidates|
            invariant 0 <= i <= |SheetNameCandidates|
            invariant sheet == SheetMissing
            invariant forall j :: 0 <= j < i ==> files.readSheet(path, SheetNameCandidates[j]) == SheetMissing
          {
            var read := files.readSheet(path, SheetNameCandidates[i]);
            if read != SheetMissing {
              sheet := read;
              break;
            }
            i := i + 1;
          }
          assert sheet == FirstSheet(path, SheetNameCandidates, files.readSheet);
          match sheet
          case SheetRows(rows) =>
            ffiecTractLookup := Some(BuildTable(rows));
            ffiecTractSource := Some(name);
          case _ =>
            ffiecTractLookup := Some(map[]);
            ffiecTractSource := None;
    }

    /** `get_ffiec_income_level`. The message of an exception raised while loading the
        table is returned as `FfiecRaised`. */
    method GetFfiecIncomeLevel(geography: Option<Geography>) returns (r: FfiecOutcome)
      requires Valid()
      modifies this`cache, this`ffiecTractLookup, this`ffiecTractSource
      ensures (State(), r) == FfiecStep(old(State()), geography, services.files)
      ensures Valid() && FfiecWellFormed(FfiecFields(r))
    {
      FfiecStepWellFormed(State(), geography, services.files);
      if geography.None? {
        return FfiecReturned(NoGeographyResult);
      }
      var g := geography.value;
      var tractId := g.tractId;
      if tractId == "" && g.stateFips != "" && g.countyFips != "" && g.tractFips != "" {
        tractId := g.stateFips + g.countyFips + g.tractFips;
      }
      if tractId == "" {
        return FfiecReturned(NoTractIdResult);
      }
      var cacheKey := FfiecCacheKey(tractId);
      if cacheKey in cache && cache[cacheKey].FfiecEntry? {
        return FfiecReturned(cache[cacheKey].ffiec);
      }
      var raised := LoadFfiecTractLookup();
      if raised.Some? {
        return FfiecRaised(raised.value);
      }
      var result := FfiecFromTable(ffiecTractLookup.value, ffiecTractSource, tractId);
      cache := cache[cacheKey := FfiecEntry(result)];
      r := FfiecReturned(result);
    }

    /** `lookup_address`: geocoding, then demographics, then the FFIEC fields. */
    method LookupAddress(address: string, city: string, state: string, zip: Option<string>, useFuzzyMatching: bool)
      returns (r: LookupResult)
      requires Valid()
      modifies this`cache, this`ffiecTractLookup, this`ffiecTractSource
      ensures exists vars :: (IsTriedList(vars, address, city, state, zip, useFuzzyMatching)
        && (State(), r) == LookupStep(old(State()), vars, address, city, state, zip, googleMapsApiKey, services))
      ensures Valid() && (r.ffiec.Some? ==> FfiecWellFormed(r.ffiec.value))
    {
      var geocodeResult := GeocodeAddress(address, city, state, zip, useFuzzyMatching);
      ghost var vars :| IsTriedList(vars, address, city, state, zip, useFuzzyMatching)
        && (State(), geocodeResult) == GeocodeStep(old(State()), vars, address, city, state, zip, googleMapsApiKey, services);
      if !geocodeResult.Located? {
        r := LookupResult(geocodeResult, None, None);
        assert (State(), r) == LookupStep(old(State()), vars, address, city, state, zip, googleMapsApiKey, services);
        return;
      }
      var geography := geocodeResult.geography;
      var demographics := GetCensusDemographics(geography.stateFips, geography.countyFips, geography.tractFips);
      if demographics.DemographicsError? {
        r := LookupResult(geocodeResult, Some(demographics), None);
        assert (State(), r) == LookupStep(old(State()), vars, address, city, state, zip, googleMapsApiKey, services);
        return;
      }
      var ffiec := GetFfiecIncomeLevel(Some(geography));
      r := LookupResult(geocodeResult, Some(demographics), Some(FfiecFields(ffiec)));
      assert (State(), r) == LookupStep(old(State()), vars, address, city, state, zip, googleMapsApiKey, services);
    }
  }
}
