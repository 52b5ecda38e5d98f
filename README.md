# Census demographics lookup, modelled in Dafny

This project models `CensusDemographicsLookup`, the core of the census lookup tool, and
proves properties of that model. The tool takes a U.S. street address and works through
these steps:

- It geocodes the address with the Census geocoder. It tries several spellings of the
  street, then falls back to Google Maps and one more Census request with Google's
  standardised address.
- It finds the census tract of the address.
- It fetches the tract's American Community Survey figures and puts the median household
  income into one of six bands.
- It reads the tract's official FFIEC income level from a reference workbook. The
  workbook is loaded once per object.

A separate heuristic splits a one-line address into street, city, state and ZIP code.

The object is modelled as the class `Lookup.CensusDemographicsLookup`. Its mutable state is:

- the result cache;
- the FFIEC table, which is set once;
- the name of the file the table came from.

Each method that changes that state is proved equal to a step function. A step function
maps the state before a call to the result and the state after it. Properties that span
several calls, such as "loaded at most once" or "a cached answer is returned again", are
lemmas about the step functions. The loops of the source stay loops:

- abbreviation rewriting;
- the walk over the address candidates;
- the component map of a Google answer;
- the sheet search;
- the parser's suffix search and its right-to-left scan for a state.

Each loop is proved against a recursive function whose properties are lemmas.

The outside world is a value of `Services.Services` that is fixed for one run. It holds:

- the Census geocoder, as a function from an address line to a tagged answer;
- the Census coordinate lookup;
- Google geocoding, given the address and the key;
- the survey service, given the state, county and tract codes;
- the reference files: whether a path exists, what importing the spreadsheet library
  does, and what reading a given sheet gives.

Each answer keeps only what the code reads from it. HTTP, JSON decoding and the file
system are behind these functions.

Modules:

- `Wrappers`: Option.
- `PyStr`: Python string operations, namely `strip`, `split`, `join`,
  `lower`, `upper`, `replace`, `zfill`, `int()`, `str()` and `repr`.
- `Services`: the external answers.
- `Addresses`: the `\b` whole-word rewriting, the abbreviation table, unit and
  punctuation removal, and the candidate list.
- `Geocoding`: the Census, Google and retry chain, and the reverse lookup.
- `Demographics`: the survey record and the income bands.
- `Ffiec`: the reference workbook and the tract table.
- `Lookup`: the cache, the step functions and the class.
- `AddressParser`: `parse_full_address`.
- `AddressExamples`: one address taken through every stage of the parse.

A few behaviours of the code are easy to misread; the model follows the code as written:

- One might expect "25 Drake Ave, New Rochelle, New York 10805" to parse into street
  "25 Drake Ave" and state "New York". The code gives street "25 Drake Ave," with
  the comma kept. The state comes out as the code "NY", not as
  "New York". `STATE_NAMES` maps lower-case full names to codes, so a two-letter code
  in the input is never read as a state. `AddressExamples.DrakeAvenueParse` proves this
  outcome.
- A geocoding result is written to the cache but never read back: the code that reads
  it is commented out. Repeated geocoding requests therefore ask the services again.
  Only the demographics and FFIEC answers are served from the cache.

## Model

| member | source | states |
|---|---|---|
| Lookup.CensusDemographicsLookup.constructor | census_demographics_lookup.py:23-31 | The key is the given one when it is non-empty, else the built-in default. The cache starts empty and no table is loaded. |
| Lookup.CensusDemographicsLookup.NormalizeAddress | census_demographics_lookup.py:54-67 | Equals `Normalize`: lower-case, trim, then expand the abbreviations. The result has no upper-case letter and no surrounding whitespace. |
| Lookup.CensusDemographicsLookup.ExpandAbbreviations | census_demographics_lookup.py:61-65 | The two nested loops compute `ExpandAll`: each spelling of each table entry, in table order, rewritten as a whole word to its full word. |
| Lookup.CensusDemographicsLookup.GenerateAddressVariations | census_demographics_lookup.py:69-104 | The result is duplicate-free and holds exactly the literal, normalised, unit-stripped and punctuation-stripped candidates. The last two are present only when they differ from the street. |
| Lookup.Distinct | census_demographics_lookup.py:104 | `list(set(s))`: no duplicates, and exactly the elements of `s`. |
| Lookup.CensusDemographicsLookup.GeocodeWithGoogleMaps | census_demographics_lookup.py:106-169 | Equals `GoogleGeocode` for the object's key. The component loops build the map from each type to the long name of the last component that lists it. |
| Lookup.CensusDemographicsLookup.FirstCensusMatch | census_demographics_lookup.py:259-315 | The loop over the candidates returns the first one, in list order, that the Census geocoder locates with a tract, or None. |
| Lookup.CensusDemographicsLookup.GeocodeVariations | census_demographics_lookup.py:259-397 | Equals `Geocode`: the primary loop first. If it finds nothing and a key is present, then Google and one Census retry; otherwise "Address not found". |
| Lookup.CensusDemographicsLookup.GeocodeAddress | census_demographics_lookup.py:229-397 | For some tried list (the variations, or the literal line alone without fuzzy matching), the result and new cache equal `GeocodeStep`. A located result is stored under the lower-cased, trimmed request key, and nothing else changes. The cache stays well formed. |
| Lookup.GeocodeStepFrame | census_demographics_lookup.py:236-374 | The result does not depend on the cache. The table is untouched. Every other cache key keeps its entry. The request key holds an entry afterwards exactly when the result is located or it held one before. A located result is the entry under the request key; an unlocated one leaves the whole state as it was. |
| Lookup.CensusDemographicsLookup.GetCensusDemographics | census_demographics_lookup.py:399-489 | Equals `DemographicsStep`: a cached record under state++county++tract is returned without a request; otherwise the survey answer decides, and only a record that was found is cached. The cache stays well formed. |
| Lookup.DemographicsHitSkipsService | census_demographics_lookup.py:404-406 | On a cache hit, the survey service is not consulted and the state is unchanged. |
| Lookup.DemographicsRepeat | census_demographics_lookup.py:404-478 | After a record is found, a second request for the tract returns the same record and state, whatever the service answers then. |
| Lookup.DemographicsErrorNotCached | census_demographics_lookup.py:476-489 | An error answer leaves the state unchanged, so the next request asks the service again. |
| Lookup.LoadStep | census_demographics_lookup.py:491-543 | When the table is already set, nothing happens. A load that does not raise sets the table and keeps the cache. A raise leaves the state as it was. |
| Lookup.CensusDemographicsLookup.LoadFfiecTractLookup | census_demographics_lookup.py:491-543 | Equals `LoadStep`. The sheet loop tries the sheet names in order until one exists. The cache is untouched. |
| Lookup.LoadAtMostOnce | census_demographics_lookup.py:493-494 | After a load that did not raise, every later load, whatever the files are then, changes nothing. |
| Lookup.LoadSetsTable | census_demographics_lookup.py:501-543 | A load on an unset table stores the table the reference files give, with its file name. With no file found, or without the spreadsheet library, the table is empty and has no name. A named table is `BuildTable` of the first readable sheet of the first existing file, which is its name. Every key of the stored table has at least eleven characters. |
| Lookup.CensusDemographicsLookup.GetFfiecIncomeLevel | census_demographics_lookup.py:545-583 | Equals `FfiecStep`. The cache stays well formed, and the answer has a level or an error, never both. |
| Lookup.FfiecWithoutTract | census_demographics_lookup.py:549-561 | Without a geography, or without a tract identifier, the answer is the matching error. Nothing is loaded and nothing is cached. |
| Lookup.FfiecAnswer | census_demographics_lookup.py:567-583 | On a cache miss the table gets loaded. There is a level exactly when the table has a non-empty level for the tract; otherwise the answer is "reference data unavailable" (empty table) or "tract not present". The answer is cached under "ffiec::" + id. |
| Lookup.FfiecRepeat | census_demographics_lookup.py:563-583 | An answer given once, negative ones included, is returned again with the state unchanged, whatever the reference files are later. |
| Lookup.FfiecStepWellFormed | census_demographics_lookup.py:569-583 | Every FFIEC answer carries either a level or an error, and the cache keeps that shape. |
| Lookup.FfiecFields | census_demographics_lookup.py:644-652 | An exception in the FFIEC step gives no level, no source and "Unexpected FFIEC processing error: " + message. Otherwise the answer itself. |
| Lookup.LookupError | census_demographics_lookup.py:617-634 | The error field is the geocoding error when the address is not located, and absent when demographics were found. |
| Lookup.CensusDemographicsLookup.LookupAddress | census_demographics_lookup.py:600-661 | For some tried list, the result and new state equal `LookupStep`: geocoding, then demographics, then the FFIEC fields. The cache stays well formed, and FFIEC fields that are present have a level or an error, never both. |
| Lookup.LookupStepShape | census_demographics_lookup.py:615-652 | A geocoding failure is returned as it is. A demographics error comes back without FFIEC fields and with that error. Otherwise the FFIEC fields are always present and there is no error. |
| Lookup.LookupStepKeepsCache | census_demographics_lookup.py:600-661 | A lookup keeps the cache well-formed: only located geocoding results, found demographics, and FFIEC answers with a level or an error. |
| Lookup.LookupStepKeepsTable | census_demographics_lookup.py:493-494 | Once loaded, the table and its file name remain the same for every later lookup. |
| Geocoding.TractIdOfGeography | census_demographics_lookup.py:297-302 | The tract id is state ++ county ++ tract. It has 11 characters when they have 2, 3 and 6. |
| Geocoding.PrimaryAttempt | census_demographics_lookup.py:267-315 | A candidate succeeds exactly when the reply has a first match with coordinates and a first tract that has its three codes. The result is located, not through Google, and has the candidate as input. Its coordinates are the match's (y, x) as latitude and longitude, its standardised address is the matched address or else the candidate, and its geography is that of the first tract. |
| Geocoding.FirstPrimaryHit | census_demographics_lookup.py:259-315 | A hit is a located, non-Google result whose input is one of the candidates. |
| Geocoding.FirstPrimaryHitNone | census_demographics_lookup.py:259-315 | There is no hit exactly when every candidate fails. |
| Geocoding.FirstPrimaryHitAt | census_demographics_lookup.py:259-308 | The first candidate that succeeds decides the result. |
| Geocoding.AddComponentTypesSpec | census_demographics_lookup.py:141-142 | The keys are the old keys plus the component's types. Each of the types maps to the component's name, and other keys keep their values. |
| Geocoding.ComponentMapSpec | census_demographics_lookup.py:139-142 | A type is a key exactly when some component lists it. Its value is the name of the last component that lists it. |
| Geocoding.GoogleGeocode | census_demographics_lookup.py:106-169 | A missing or empty key gives "key not provided". There is a hit exactly when the reply is OK with at least one result. A hit has the full address as input, the first result's latitude and longitude, its formatted address as the standardised address, its place id, and the component map of its components. A request failure, another failure and a non-OK or empty reply give their own error and message. |
| Geocoding.CensusRetry | census_demographics_lookup.py:326-384 | The retry is either located, marked as through Google, with the literal full address as input and Google's coordinates, or else Google's own result without a tract. It is located exactly when the Census reply for Google's standardised address has a first match with a first tract that has its three codes. Its standardised address is then the match's, or Google's when the match has none, and its geography is that of the first tract. |
| Geocoding.GeocodeNotFoundExactly | census_demographics_lookup.py:317-397 | "Address not found" comes back exactly when every candidate fails and there is no key or Google errs. It lists the candidates tried, and its message counts them. |
| Geocoding.GeocodeFirstHit | census_demographics_lookup.py:259-308 | The first candidate located by the Census geocoder is the answer, not through Google. |
| Geocoding.LaterVariationsNotTried | census_demographics_lookup.py:259-308 | Candidates after the first located one are never asked about: a geocoder that agrees up to that candidate gives the same result. |
| Geocoding.GeocodeThroughGoogle | census_demographics_lookup.py:324-384 | When every candidate fails and Google answers, the result is located through Google with Google's coordinates, or Google's result without a tract. |
| Geocoding.GeocodeLocatedDirectly | census_demographics_lookup.py:259-308 | A result located without Google is the primary attempt of one of the candidates. |
| Geocoding.ReverseGeocodeForCensusTract | census_demographics_lookup.py:171-227 | Google's result is always kept. The tract is attached exactly when the coordinate lookup, given the longitude as x and the latitude as y, has a first match with a complete first tract; the geography is that tract's. A failed lookup gives "Reverse geocoding failed" with the prefixed message; no match or no tract gives "Census tract data not available"; a tract missing a code names the first missing key. |
| Demographics.IncomeBand | census_demographics_lookup.py:585-598 | The band is one of the six levels. |
| Demographics.IncomeBandCases | census_demographics_lookup.py:587-597 | The band is fixed by the strict comparisons with 30000, 50000, 75000, 100000 and 150000. |
| Demographics.ClassifyIncomeLevel | census_demographics_lookup.py:585-598 | Total: every integer gets the label of its band. |
| Demographics.IncomeBandMonotone | census_demographics_lookup.py:585-598 | A larger income never falls in a lower band. |
| Demographics.ClassifyAtThresholds | census_demographics_lookup.py:587-597 | A threshold is in the band above it, and the integer just below it is in the band below. |
| Demographics.ZipPrefixSpec | census_demographics_lookup.py:441 | `dict(zip(headers, values))`: a header is a key exactly when it occurs among the paired headers, and it maps to the value paired with its last occurrence. |
| Demographics.CountField | census_demographics_lookup.py:447-450 | An absent variable reads 0, and a present one reads its parsed integer. The text `int()` rejects is reported. |
| Demographics.IncomeField | census_demographics_lookup.py:446 | The two sentinel strings give None. An absent variable gives -666666666. Otherwise the parsed value, or the rejected text. |
| Demographics.IncomeLevelFor | census_demographics_lookup.py:470-474 | "Data Not Available" exactly when the income is None or 0; otherwise the band label. |
| Demographics.OwnerOccupiedRate | census_demographics_lookup.py:461-467 | Present exactly when there are housing units. Rate times units equals the owner-occupied count. |
| Demographics.BuildData | census_demographics_lookup.py:444-474 | The record carries the five values read, and its derived rate and level agree with them. |
| Demographics.DemographicsFromAcs | census_demographics_lookup.py:423-489 | A record needs at least two rows and is well-formed with the survey source. Fewer than two rows gives "No Census data available" for the tract. A request failure gives "Census API error" and any other failure "Unexpected error", each with the failure's message. A field `int()` rejects gives "Unexpected error" with the text of `int()`'s ValueError for that field's value. |
| Demographics.DemographicsFields | census_demographics_lookup.py:437-474 | With two rows, a record comes back exactly when all five fields are read, and its fields are the values read. A field `int()` rejects gives "Unexpected error", and the message is the ValueError text for the first rejected field. |
| Demographics.InvalidLiteralMessage | census_demographics_lookup.py:446-450 | The ValueError text `str(e)` carries for a literal `int()` rejects: the fixed prefix, then the `repr` of the value, opened with the quote `repr` chooses and cut to at most 200 characters. |
| Demographics.ShortPlainLiteralMessage | census_demographics_lookup.py:446-450 | A printable ASCII value of at most 198 characters, without backslashes, appears whole in the message. It is in single quotes, or in double quotes when it holds a single quote and no double quote. |
| PyStr.ReprFromLength | census_demographics_lookup.py:446-450 | Escaping never shortens the text. `repr` is longer than the quoted value exactly when some character is escaped (a backslash, the quote, a tab, a newline, a carriage return or a character written as `\xhh`). |
| PyStr.ReprCut | census_demographics_lookup.py:446-450 | The `%.200R` cut keeps the first characters of the `repr`: all of it when it has at most 200, else exactly 200. |
| Demographics.SentinelIncomeHasNoLevel | census_demographics_lookup.py:446-474 | A sentinel income gives no income and "Data Not Available". |
| Demographics.MissingIncomeIsLowestBand | census_demographics_lookup.py:446-472 | A missing income variable is reported as -666666666, which falls in the "Very Low Income" band. |
| Ffiec.FirstExisting | census_demographics_lookup.py:496-501 | The first candidate file that exists; None exactly when none exists. |
| Ffiec.FirstSheet | census_demographics_lookup.py:518-533 | The first sheet read that is not "no such sheet"; "missing" exactly when every sheet is missing. |
| Ffiec.NormalizeFipsSpec | census_demographics_lookup.py:536 | A key has at least 11 characters. A digit code keeps its digits and numeric value behind leading zeros, and is never truncated. |
| Ffiec.BuildTableKeys | census_demographics_lookup.py:535-537 | A key is in the table exactly when some row with both cells normalises to it. |
| Ffiec.BuildTableLast | census_demographics_lookup.py:535-537 | A key's level is the trimmed level of the last row that names it. |
| Ffiec.LoadTable | census_demographics_lookup.py:496-543 | The load raises exactly when a file exists and importing the library fails with something other than ImportError. No file found, a missing library, or no readable sheet gives an empty table without a name. A named table is `BuildTable` of the rows of the first readable sheet of the first existing file, and that file is its name. |
| Ffiec.LoadedTableKeys | census_demographics_lookup.py:534-537 | Every key of a loaded table has at least eleven characters and comes from a named file. For a named table, a key is present exactly when a complete row of the sheet normalises to it. |
| Ffiec.TractIdFor | census_demographics_lookup.py:552-561 | The tract id, or else state++county++tract when all three are non-empty. None exactly when neither applies. |
| Ffiec.FfiecFromTable | census_demographics_lookup.py:569-580 | A level exactly when the table has a non-empty entry for the tract, with its source, defaulting to "local_file". Otherwise "reference data unavailable" for an empty table, else "tract not present". |
| Addresses.SubWholeWordWithoutMatch | census_demographics_lookup.py:64-65 | Where the abbreviation never stands between word boundaries, the text is unchanged. |
| Addresses.SubWholeWordExample | census_demographics_lookup.py:63-65 | "first st" becomes "first street": the "st" inside "first" is not a whole word. |
| Addresses.AddressAbbreviationsWellFormed | census_demographics_lookup.py:34-52 | Every abbreviation is non-empty, and every full word is a lower-case word. |
| Addresses.ExpandAllKeeps | census_demographics_lookup.py:61-65 | Rewriting keeps a lower-case, trimmed text lower-case and trimmed. |
| Addresses.NormalizeIsLowerAndTrimmed | census_demographics_lookup.py:58-67 | The normalised street has no upper-case letter and no surrounding whitespace. |
| Addresses.ExpandAllWithoutMatch | census_demographics_lookup.py:61-65 | When no abbreviation stands as a whole word, the table leaves the text unchanged. |
| Addresses.NormalizeWithoutAbbreviation | census_demographics_lookup.py:58-67 | A street with no whole-word abbreviation is only lower-cased and trimmed. |
| Addresses.StripUnitWithoutDesignator | census_demographics_lookup.py:89-90 | A trimmed street with no unit designator gives no unit-stripped candidate. |
| Addresses.RemovePunctuation | census_demographics_lookup.py:97 | Only word characters and whitespace remain, and the text never grows. |
| Addresses.CleanPunctuationIsClean | census_demographics_lookup.py:97 | The punctuation-free candidate holds only word characters and single inner spaces, and is trimmed. |
| Addresses.CandidatesMembers | census_demographics_lookup.py:73-102 | A string is a candidate exactly when it is the literal, the normalised, or (when it differs) the unit-stripped or punctuation-free line. |
| Addresses.VariationListShape | census_demographics_lookup.py:73-104 | A variation list holds the literal and the normalised line, and the unit-stripped and punctuation-free lines when they differ from the street. It holds nothing else, and has between 1 and 4 entries. |
| AddressParser.CodesAreCodes | census_demographics_lookup.py:681-693 | Every key of `STATES` is two upper-case letters. |
| AddressParser.NamesGiveStates | census_demographics_lookup.py:696 | Every value of `STATE_NAMES` is a key of `STATES`. |
| AddressParser.CodesAreShort | census_demographics_lookup.py:696 | Every value of `STATE_NAMES` has two characters. |
| AddressParser.NamesAreLong | census_demographics_lookup.py:696 | Every key of `STATE_NAMES` has at least four characters. |
| AddressParser.CodesAreNotStateNames | census_demographics_lookup.py:696 | A two-letter word is never a key of `STATE_NAMES`. |
| AddressParser.ZipStart | census_demographics_lookup.py:700 | Where the regex match starts: the leftmost position from which the rest is a 5-digit or 5+4 ZIP code; None exactly when there is none. |
| AddressParser.SplitZip | census_demographics_lookup.py:700-703 | A ZIP code found is a 5-digit or 5+4 code that ends the address; None exactly when no suffix is one. |
| AddressParser.Norm | census_demographics_lookup.py:825-828 | None exactly for None or the empty string; otherwise a trimmed string. |
| AddressParser.ReadRight | census_demographics_lookup.py:712-745 | Raises (None) exactly when nothing follows the last comma. A state found is a value of `STATE_NAMES`. Without a state, the part before the comma is left as it was. |
| AddressParser.LastWhere | census_demographics_lookup.py:761-764 | The index of the last word that passes the test; None exactly when none passes. |
| AddressParser.FindLast | census_demographics_lookup.py:761-764 | The suffix loop computes `LastWhere`. |
| AddressParser.ScanFrom | census_demographics_lookup.py:802-817 | A state found by the right-to-left scan is a value of `STATE_NAMES`. |
| AddressParser.ScanForState | census_demographics_lookup.py:802-817 | The scan loop with its early exits computes `ScanFrom` from the last word. |
| AddressParser.ReadRightPart | census_demographics_lookup.py:707-745 | The right-hand statements compute `ReadRight`. |
| AddressParser.ReadLeftPart | census_demographics_lookup.py:747-781 | The left-hand statements compute `ReadLeft`. |
| AddressParser.SplitStreetAndCityPart | census_demographics_lookup.py:765-776 | The street/city split after the last suffix, or at the last two or last one words, computes `SplitStreetAndCity`. |
| AddressParser.SplitStreetAndCityWords | census_demographics_lookup.py:765-776 | The words of the street followed by the words of the city are the words before the comma, and the city has at least one word. When a split index comes before the last word, the street is the words up to and including it. |
| AddressParser.SplitAtLastSuffix | census_demographics_lookup.py:760-768 | When the last street suffix is not the last word, the street ends at that suffix and no word of the city is a street suffix. |
| AddressExamples.DrakeAvenueParse | census_demographics_lookup.py:663-830 | "25 Drake Ave, New Rochelle, New York 10805" parses to street "25 Drake Ave,", city "New Rochelle", state "NY" and ZIP "10805". |
| AddressParser.ParseTokens | census_demographics_lookup.py:795-822 | The no-comma statements compute `ParseWithoutComma`. |
| AddressParser.ParseFullAddress | census_demographics_lookup.py:663-830 | The whole method computes `ParseAddress`. |
| AddressParser.ParseBlank | census_demographics_lookup.py:672-673 | A blank input gives all four fields None. |
| AddressParser.ParseFieldsTrimmed | census_demographics_lookup.py:825-830 | Every field returned is None or a trimmed string. |
| AddressParser.CommaRaises | census_demographics_lookup.py:707-740 | With a comma, the parse raises exactly when no word follows it. |
| AddressParser.ParseIndexErrorExactly | census_demographics_lookup.py:672-740 | The parse raises IndexError exactly when the input is not blank and, after the country and ZIP are removed, it has a last comma followed only by whitespace. |
| AddressParser.SplitZipReports | census_demographics_lookup.py:700-703 | The reported ZIP is None exactly when no suffix is a ZIP code; otherwise it is the ZIP code that ends the text. |
| AddressParser.ParseZip | census_demographics_lookup.py:700-703 | The ZIP of a parse is the 5-digit or 5+4 code ending the address after the country is removed, or None when there is none. |
| AddressParser.ReadingState | census_demographics_lookup.py:748-752 | The state after the left side is read is the right side's state, or, when the right side had none, the upper-cased last word of the left side, whose lower case is a state name. |
| AddressParser.CommaState | census_demographics_lookup.py:715-783 | With a comma, a state reported is a code of `STATES` or an upper-cased state-name word. |
| AddressParser.CommaStateOrigin | census_demographics_lookup.py:715-783 | With a comma, a state reported is a code of `STATES` or the upper-cased last word before the comma, whose lower case is a state name. |
| AddressParser.NoCommaState | census_demographics_lookup.py:802-822 | Without a comma, a state reported is a code of `STATES` or an upper-cased state-name word. |
| AddressParser.ParseStateShape | census_demographics_lookup.py:663-830 | Every state reported is a two-letter code of `STATES` or an upper-cased word that names a state. With a comma, that word is the last one before the last comma. |

## Left out

- HTTP requests, timeouts, JSON decoding and `raise_for_status`. Each service is a fixed function that returns a tagged answer. `requests` failures and other failures are separate tags that carry their message.
- Printing and debug output (`print`, the emoji progress lines), and the commented-out debug code.
- Floating point. Coordinates are `real` values that are passed through unchanged.
- PyStr.Repr: `repr` is modelled for characters up to U+00AD: the escapes `\\`, the quote, `\t`, `\n`, `\r`, and `\xhh` for other controls, U+007F to U+00A0 and U+00AD. Characters above U+00AD are kept as they are. `repr`'s `\uXXXX` escapes for non-printable characters beyond that range are not modelled.
- Demographics.OwnerOccupiedRate: the rate is the exact ratio. The code's `round(..., 3)` on floats is not modelled.
- Letters, digits, `lower`, `upper`, `isdigit`, `isupper` and the regex classes `\w` and `\b` cover ASCII only; Unicode letters and digits are not modelled. Whitespace (`strip`, `split`, `\s`) follows the full `str.isspace()` set.
- JSON `null` inside a reply: an absent key and a present value are the only cases. A tract whose `STATE`, `COUNTY` or `TRACT` is absent is a failed attempt, as the KeyError in the code makes it.
- Lookup.DemographicsStep: the one cache dictionary is keyed by strings of three kinds. An entry of another kind under a demographics or FFIEC key would be returned as it is by the code. The model treats such an entry as a miss. Such a hit needs FIPS codes that spell a geocoding key (which contains ", ") or an "ffiec::" key.
- The Google Maps key literal built into the code is not reproduced. A placeholder non-empty string stands for it, and any non-empty key behaves the same.
- Lookup.CensusDemographicsLookup.GetFfiecIncomeLevel: the unused `address_data` parameter is dropped.
- The Excel details (`pd.read_excel`, column dtypes, `dropna` and `astype(str)`) are behind `readSheet`. It gives each sheet's rows as optional "FIPS code" / "Tract income level" cells, a missing sheet, or any other failure.
- Lookup.CensusDemographicsLookup.GenerateAddressVariations and Lookup.Distinct: Python's set order is not fixed. The contracts state no duplicates and exact membership but no order. The geocoding and lookup methods are stated for some tried list with those properties.
- Geocoding.ReverseGeocodeForCensusTract is not called by the geocoding chain. It is modelled on its own.
- `STATE_NAMES` is written out as the inverse of `STATES` instead of being computed from it. `NamesGiveStates` and `CodesAreShort` tie the two tables together.
- The last-comma IndexError of `parse_full_address` is the outcome `ParseIndexError`, not an exception.
- CSV and Google Sheets batch processing, `save_results_to_csv`, `print_results`, `print_batch_results`, `main`, the interactive loop and the rate-limiting sleep are not modelled. They are file, sheet, network and console code.
- main_app.py, app.py, check_setup.py, convert_to_streamlit_secrets.py and run_app.py are not part of this model. They hold UI, setup and launcher code only.
