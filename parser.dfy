/** `parse_full_address`: a heuristic split of a one-line address into street, city,
    state and ZIP code. The two loops of the code (the suffix search and the scan for a
    state from the right) are methods proved against the recursive functions here; the
    whole parse is the function `ParseAddress`, and `ParseFullAddress` follows the
    code's statements and is proved equal to it. */
module AddressParser {
  import opened Wrappers
  import opened PyStr

  datatype ParsedAddress = ParsedAddress(
    street: Option<string>,
    city: Option<string>,
    state: Option<string>,
    zip: Option<string>)

  /** The parse, or the IndexError the code raises when nothing follows the last comma. */
  datatype ParseOutcome = Parsed(fields: ParsedAddress) | ParseIndexError

  /** `STATES`: two-letter code to state name, written in two halves. */
  const States: map<string, string> := StatesFirst + StatesSecond

  const StatesFirst: map<string, string> := map[
    "AL" := "Alabama", "AK" := "Alaska", "AZ" := "Arizona", "AR" := "Arkansas",
    "CA" := "California", "CO" := "Colorado", "CT" := "Connecticut", "DE" := "Delaware",
    "FL" := "Florida", "GA" := "Georgia", "HI" := "Hawaii", "ID" := "Idaho",
    "IL" := "Illinois", "IN" := "Indiana", "IA" := "Iowa", "KS" := "Kansas",
    "KY" := "Kentucky", "LA" := "Louisiana", "ME" := "Maine", "MD" := "Maryland",
    "MA" := "Massachusetts", "MI" := "Michigan", "MN" := "Minnesota", "MS" := "Mississippi",
    "MO" := "Missouri", "MT" := "Montana"
  ]

  const StatesSecond: map<string, string> := map[
    "NE" := "Nebraska", "NV" := "Nevada", "NH" := "New Hampshire", "NJ" := "New Jersey",
    "NM" := "New Mexico", "NY" := "New York", "NC" := "North Carolina", "ND" := "North Dakota",
    "OH" := "Ohio", "OK" := "Oklahoma", "OR" := "Oregon", "PA" := "Pennsylvania",
    "RI" := "Rhode Island", "SC" := "South Carolina", "SD" := "South Dakota", "TN" := "Tennessee",
    "TX" := "Texas", "UT" := "Utah", "VT" := "Vermont", "VA" := "Virginia",
    "WA" := "Washington", "WV" := "West Virginia", "WI" := "Wisconsin", "WY" := "Wyoming",
    "DC" := "District of Columbia"
  ]

  /** `STATE_NAMES`: lower-case state name to its code, written in two halves. */
  const StateNames: map<string, string> := StateNamesFirst + StateNamesSecond

  const StateNamesFirst: map<string, string> := map[
    "alabama" := "AL", "alaska" := "AK", "arizona" := "AZ", "arkansas" := "AR",
    "california" := "CA", "colorado" := "CO", "connecticut" := "CT", "delaware" := "DE",
    "florida" := "FL", "georgia" := "GA", "hawaii" := "HI", "idaho" := "ID",
    "illinois" := "IL", "indiana" := "IN", "iowa" := "IA", "kansas" := "KS",
    "kentucky" := "KY", "louisiana" := "LA", "maine" := "ME", "maryland" := "MD",
    "massachusetts" := "MA", "michigan" := "MI", "minnesota" := "MN", "mississippi" := "MS",
    "missouri" := "MO", "montana" := "MT"
  ]

  const StateNamesSecond: map<string, string> := map[
    "nebraska" := "NE", "nevada" := "NV", "new hampshire" := "NH", "new jersey" := "NJ",
    "new mexico" := "NM", "new york" := "NY", "north carolina" := "NC", "north dakota" := "ND",
    "ohio" := "OH", "oklahoma" := "OK", "oregon" := "OR", "pennsylvania" := "PA",
    "rhode island" := "RI", "south carolina" := "SC", "south dakota" := "SD", "tennessee" := "TN",
    "texas" := "TX", "utah" := "UT", "vermont" := "VT", "virginia" := "VA",
    "washington" := "WA", "west virginia" := "WV", "wisconsin" := "WI", "wyoming" := "WY",
    "district of columbia" := "DC"
  ]

  /** Words that start a two-word city name. */
  const CityPrefixes: seq<string> := ["new", "north", "south", "east", "west", "st", "saint", "fort"]

  const StreetSuffixes: set<string> := {
    "ave", "avenue", "st", "street", "rd", "road", "dr", "drive",
    "blvd", "boulevard", "ln", "lane", "ct", "court", "pl", "place"
  }

  predicate IsStateCode(c: string) { |c| == 2 && IsUpper(c[0]) && IsUpper(c[1]) }

  /** No state name is as short as a code. */
  lemma NamesAreLong(n: string)
    requires n in StateNames
    ensures |n| >= 4
  {
    if n in StateNamesFirst {
      FirstNamesAreLong(n);
    } else {
      SecondNamesAreLong(n);
    }
  }

  lemma FirstNamesAreLong(n: string)
    requires n in StateNamesFirst
    ensures |n| >= 4
  {
    assert n in {"alabama", "alaska", "arizona", "arkansas", "california", "colorado", "connecticut", "delaware", "florida", "georgia", "hawaii", "idaho", "illinois", "indiana", "iowa", "kansas", "kentucky", "louisiana", "maine", "maryland", "massachusetts", "michigan", "minnesota", "mississippi", "missouri", "montana"};
  }

  lemma SecondNamesAreLong(n: string)
    requires n in StateNamesSecond
    ensures |n| >= 4
  {
    assert n in {"nebraska", "nevada", "new hampshire", "new jersey", "new mexico", "new york", "north carolina", "north dakota", "ohio", "oklahoma", "oregon", "pennsylvania", "rhode island", "south carolina", "south dakota", "tennessee", "texas", "utah", "vermont", "virginia", "washington", "west virginia", "wisconsin", "wyoming", "district of columbia"};
  }

  /** Every key of `STATES` is two capital letters. */
  lemma CodesAreCodes(c: string)
    requires c in States
    ensures IsStateCode(c)
  {
    if c in StatesFirst {
      FirstCodesAreCodes(c);
    } else {
      SecondCodesAreCodes(c);
    }
  }

  lemma FirstCodesAreCodes(c: string)
    requires c in StatesFirst
    ensures IsStateCode(c)
  {
    assert c in {"AL", "AK", "AZ", "AR", "CA", "CO", "CT", "DE", "FL", "GA", "HI", "ID", "IL", "IN", "IA", "KS", "KY", "LA", "ME", "MD", "MA", "MI", "MN", "MS", "MO", "MT"};
  }

  lemma SecondCodesAreCodes(c: string)
    requires c in StatesSecond
    ensures IsStateCode(c)
  {
    assert c in {"NE", "NV", "NH", "NJ", "NM", "NY", "NC", "ND", "OH", "OK", "OR", "PA", "RI", "SC", "SD", "TN", "TX", "UT", "VT", "VA", "WA", "WV", "WI", "WY", "DC"};
  }

  /** `STATE_NAMES` is `STATES` inverted: each name maps to a code of `STATES`. */
  lemma NamesGiveStates()
    ensures forall n :: n in StateNames ==> StateNames[n] in States
  {
    FirstNamesGiveStates();
    SecondNamesGiveStates();
  }

  lemma FirstNamesGiveStates()
    ensures forall n :: n in StateNamesFirst ==> StateNamesFirst[n] in StatesFirst
  {
  }

  lemma SecondNamesGiveStates()
    ensures forall n :: n in StateNamesSecond ==> StateNamesSecond[n] in StatesSecond
  {
  }

  /** Two-letter codes are never taken for state names. */
  lemma CodesAreNotStateNames(c: string)
    requires |c| == 2
    ensures c !in StateNames
  {
    if c in StateNames {
      NamesAreLong(c);
    }
  }

  // ---------------------------------------------------------------- the input

  predicate IsBlank(s: string) { Strip(s) == "" }

  /** Trimmed, with every "United States" and then every "USA" removed, trimmed again. */
  function RemoveCountry(s: string): string {
    Strip(ReplaceAll(ReplaceAll(Strip(s), "United States", ""), "USA", ""))
  }

  /** A ZIP code as the pattern `\d{5}(?:-\d{4})?` matches it. */
  predicate IsZipCode(z: string) {
    || (|z| == 5 && AllDigits(z))
    || (|z| == 10 && AllDigits(z[..5]) && z[5] == '-' && AllDigits(z[6..]))
  }

  /** Where `re.search(r"(\d{5}(?:-\d{4})?)$", s)` matches: the leftmost start of a ZIP
      code that ends the string, so the nine-digit form wins over its last five digits. */
  function ZipStart(s: string): (r: Option<nat>)
    ensures r.Some? ==> r.value <= |s| && IsZipCode(s[r.value..]) && forall k :: 0 <= k < r.value ==> !IsZipCode(s[k..])
    ensures r.None? <==> forall k :: 0 <= k <= |s| ==> !IsZipCode(s[k..])
  {
    var n := |s|;
    if n >= 10 && IsZipCode(s[n - 10..]) then Some(n - 10)
    else if n >= 5 && IsZipCode(s[n - 5..]) then Some(n - 5)
    else None
  }

  predicate IsCommaOrSpace(c: char) { c == ',' || c == ' ' }

  /** The address without its trailing ZIP code (and the commas and spaces before it),
      and the code. */
  function SplitZip(addr: string): (r: (string, Option<string>))
    ensures r.1.Some? ==> IsZipCode(r.1.value) && |r.1.value| <= |addr| && addr[|addr| - |r.1.value|..] == r.1.value
    ensures r.1.None? <==> forall k :: 0 <= k <= |addr| ==> !IsZipCode(addr[k..])
  {
    match ZipStart(addr)
    case None => (addr, None)
    case Some(k) => (Strip(StripWhere(addr[..k], IsCommaOrSpace)), Some(addr[k..]))
  }

  /** The value of a field: a non-empty string trimmed, anything else None. */
  function Norm(v: Option<string>): (r: Option<string>)
    ensures r.Some? ==> Truthy(v) && IsStripped(r.value)
    ensures r.None? <==> !Truthy(v)
  {
    if Truthy(v) then Some(Strip(v.value)) else None
  }

  function Finish(street: Option<string>, city: Option<string>, state: Option<string>, zip: Option<string>): ParsedAddress {
    ParsedAddress(Norm(street), Norm(city), Norm(state), Norm(zip))
  }

  predicate StartsUpper(w: string) { |w| > 0 && IsUpper(w[0]) }

  function Last<T>(s: seq<T>): T
    requires |s| > 0
  {
    s[|s| - 1]
  }

  // ---------------------------------------------------------------- with a comma

  /** The state and city read from the part after the last comma, and the part before it
      (from which a two-word city may have been taken). */
  datatype RightRead = RightRead(state: Option<string>, city: Option<string>, left: string)

  /** The right-hand part. None where `right_tokens[-1]` raises: nothing after the comma. */
  function ReadRight(right: string, left: string): (r: Option<RightRead>)
    ensures r.None? <==> Split(right) == []
    ensures r.Some? && r.value.state.Some? ==> r.value.state.value in StateNames.Values
    ensures r.Some? && r.value.state.None? ==> r.value.left == left
  {
    var rt := Split(right);
    if |rt| >= 2 then
      var lastTwo := Lower(Join(rt[|rt| - 2..]));
      if lastTwo in StateNames then
        var city := if |rt| > 2 then Some(Strip(Join(rt[..|rt| - 2]))) else None;
        if !Truthy(city) || |Split(city.value)| < 2 then
          var lt := Split(left);
          if |lt| >= 2 && StartsUpper(lt[|lt| - 2]) && StartsUpper(Last(lt)) then
            Some(RightRead(Some(StateNames[lastTwo]), Some(Strip(Join(lt[|lt| - 2..]))), Strip(Join(lt[..|lt| - 2]))))
          else Some(RightRead(Some(StateNames[lastTwo]), city, left))
        else Some(RightRead(Some(StateNames[lastTwo]), city, left))
      else
        var lastOne := Lower(Last(rt));
        if lastOne in StateNames then Some(RightRead(Some(StateNames[lastOne]), Some(Strip(Join(rt[..|rt| - 1]))), left))
        else Some(RightRead(None, Some(Strip(Join(rt))), left))
    else if |rt| == 0 then None
    else
      var lastOne := Lower(rt[0]);
      if lastOne in StateNames then Some(RightRead(Some(StateNames[lastOne]), None, left))
      else Some(RightRead(None, Some(right), left))
  }

  /** `token.lower().rstrip('.') in street_suffixes` */
  predicate IsStreetSuffix(token: string) {
    TrimEndWhere(Lower(token), c => c == '.') in StreetSuffixes
  }

  /** The index of the last word that satisfies `p`. */
  function LastWhere(tokens: seq<string>, p: string -> bool): (r: Option<nat>)
    ensures r.Some? ==>
      && r.value < |tokens| && p(tokens[r.value])
      && forall k :: r.value < k < |tokens| ==> !p(tokens[k])
    ensures r.None? ==> forall k :: 0 <= k < |tokens| ==> !p(tokens[k])
  {
    if tokens == [] then None
    else if p(Last(tokens)) then Some(|tokens| - 1)
    else
      var r := LastWhere(tokens[..|tokens| - 1], p);
      assert forall k :: 0 <= k < |tokens| - 1 ==> tokens[..|tokens| - 1][k] == tokens[k];
      r
  }

  /** The index of the last street suffix among the words. */
  function LastStreetSuffix(tokens: seq<string>): Option<nat> {
    LastWhere(tokens, IsStreetSuffix)
  }

  /** Street and city read from the words before the comma, when the street starts
      with a number: after the last street suffix, or the last two words when they look
      like a city, or else the last word. */
  function SplitStreetAndCity(lt: seq<string>, splitIdx: Option<nat>): (r: (string, string))
    requires |lt| > 0
  {
    if splitIdx.Some? && splitIdx.value < |lt| - 1 then
      (Strip(Join(lt[..splitIdx.value + 1])), Strip(Join(lt[splitIdx.value + 1..])))
    else if |lt| >= 2 && ((StartsUpper(lt[|lt| - 2]) && StartsUpper(Last(lt))) || Lower(lt[|lt| - 2]) in CityPrefixes) then
      (Strip(Join(lt[..|lt| - 2])), Strip(Join(lt[|lt| - 2..])))
    else (Strip(Join(lt[..|lt| - 1])), Last(lt))
  }

  /** The state, city and street once the left-hand part is looked at: a state name as its
      last word is taken (upper-cased) when the right-hand part had none. */
  datatype Reading = Reading(street: string, city: Option<string>, state: Option<string>)

  function ReadLeft(rr: RightRead): Reading {
    if !Truthy(rr.state) then
      var lt := Split(rr.left);
      if |lt| > 0 && Lower(Last(lt)) in StateNames then
        Reading(Strip(Join(lt[..|lt| - 1])), rr.city, Some(Upper(Last(lt))))
      else if |lt| > 0 && HasDigit(lt[0]) then
        var (street, city) := SplitStreetAndCity(lt, LastStreetSuffix(lt));
        Reading(street, Some(city), rr.state)
      else Reading(rr.left, rr.city, rr.state)
    else Reading(rr.left, rr.city, rr.state)
  }

  /** Without a city, the last word of a street that starts with a number becomes the city. */
  function CityFromStreet(rd: Reading): Reading {
    if !Truthy(rd.city) then
      var parts := Split(rd.street);
      if |parts| > 0 && HasDigit(parts[0]) then Reading(Strip(Join(parts[..|parts| - 1])), Some(Last(parts)), rd.state)
      else rd
    else rd
  }

  /** The parse of an address that has a comma at `c`. */
  function ParseWithComma(addr: string, c: nat, zip: Option<string>): ParseOutcome
    requires c < |addr|
  {
    match ReadRight(Strip(addr[c + 1..]), Strip(addr[..c]))
    case None => ParseIndexError
    case Some(rr) =>
      var rd := CityFromStreet(ReadLeft(rr));
      Parsed(Finish(Some(rd.street), rd.city, rd.state, zip))
  }

  // ---------------------------------------------------------------- without a comma

  /** A state found among the words, with the word before it as the city and the words
      before that as the street. */
  datatype ScanHit = ScanHit(state: string, city: Option<string>, street: Option<string>)

  /** The scan from word `i` down to the first word: a two-word state name ending at `i`
      is tried before a one-word name at `i`. */
  function ScanFrom(tokens: seq<string>, i: int): (r: Option<ScanHit>)
    requires i < |tokens|
    ensures r.Some? ==> r.value.state in StateNames.Values
    decreases i + 1
  {
    if i < 0 then None
    else if i >= 1 && Lower(Join(tokens[i - 1..i + 1])) in StateNames then
      var st := StateNames[Lower(Join(tokens[i - 1..i + 1]))];
      Some(ScanHit(st, if i >= 2 then Some(tokens[i - 2]) else None, if i >= 2 then Some(Join(tokens[..i - 2])) else None))
    else if Lower(tokens[i]) in StateNames then
      Some(ScanHit(StateNames[Lower(tokens[i])], if i >= 1 then Some(tokens[i - 1]) else None,
                   if i >= 1 then Some(Join(tokens[..i - 1])) else None))
    else ScanFrom(tokens, i - 1)
  }

  /** The parse of an address without a comma. */
  function ParseWithoutComma(addr: string, zip: Option<string>): ParsedAddress {
    var tokens := Split(addr);
    match ScanFrom(tokens, |tokens| - 1)
    case Some(hit) => Finish(hit.street, hit.city, Some(hit.state), zip)
    case None =>
      var street := Join(tokens[..if |tokens| >= 2 then |tokens| - 2 else 0]);
      Finish(Some(street), if |tokens| >= 2 then Some(tokens[|tokens| - 2]) else None, None, zip)
  }

  // ---------------------------------------------------------------- the whole parse

  /** The address with the country removed and the ZIP code cut off. */
  function Prepared(s: string): (string, Option<string>) {
    SplitZip(RemoveCountry(s))
  }

  function ParseAddress(s: string): ParseOutcome {
    if IsBlank(s) then Parsed(ParsedAddress(None, None, None, None))
    else
      var (addr, zip) := Prepared(s);
      match LastIndexOf(addr, ',')
      case Some(c) => ParseWithComma(addr, c, zip)
      case None => Parsed(ParseWithoutComma(addr, zip))
  }

  // ---------------------------------------------------------------- the code's statements

  /** The loop over the words before the comma that keeps the index of each word it
      meets that passes `p` (a street suffix, as it is called), so that the last one
      remains. */
  method FindLast(tokens: seq<string>, p: string -> bool) returns (splitIdx: Option<nat>)
    ensures splitIdx == LastWhere(tokens, p)
  {
    splitIdx := None;
    for idx := 0 to |tokens|
      invariant splitIdx == LastWhere(tokens[..idx], p)
    {
      assert tokens[..idx + 1][..idx] == tokens[..idx];
      if p(tokens[idx]) {
        splitIdx := Some(idx);
      }
    }
    assert tokens[..|tokens|] == tokens;
  }

  /** The loop from the last word down that stops at the first state name, two words
      before one. */
  method ScanForState(tokens: seq<string>) returns (hit: Option<ScanHit>)
    ensures hit == ScanFrom(tokens, |tokens| - 1)
  {
    var i := |tokens| - 1;
    while i >= 0
      invariant -1 <= i < |tokens|
      invariant ScanFrom(tokens, i) == ScanFrom(tokens, |tokens| - 1)
      decreases i + 1
    {
      if i - 1 >= 0 {
        var two := Lower(Join(tokens[i - 1..i + 1]));
        if two in StateNames {
          var city := if i - 2 >= 0 then Some(tokens[i - 2]) else None;
          var street := if i - 2 >= 0 then Some(Join(tokens[..i - 2])) else None;
          return Some(ScanHit(StateNames[two], city, street));
        }
      }
      var one := Lower(tokens[i]);
      if one in StateNames {
        var city := if i - 1 >= 0 then Some(tokens[i - 1]) else None;
        var street := if i - 1 >= 0 then Some(Join(tokens[..i - 1])) else None;
        return Some(ScanHit(StateNames[one], city, street));
      }
      i := i - 1;
    }
    return None;
  }

  /** Every code of `STATE_NAMES` is non-empty, so a state found by the scan is truthy. */
  lemma CodesAreShort()
    ensures forall n :: n in StateNames ==> |StateNames[n]| == 2
  {
  }

  /** `parse_full_address` statement by statement: the variables are reassigned as the
      code reassigns them, and the result is the parse. The part after the comma, the
      part before it and the branch without a comma are the methods below. */
  method ParseFullAddress(fullAddress: string) returns (r: ParseOutcome)
    ensures r == ParseAddress(fullAddress)
  {
    if IsBlank(fullAddress) {
      return Parsed(ParsedAddress(None, None, None, None));
    }
    var addr := Strip(fullAddress);
    addr := Strip(ReplaceAll(ReplaceAll(addr, "United States", ""), "USA", ""));
    var zipCode: Option<string> := None;
    var zipStart := ZipStart(addr);
    if zipStart.Some? {
      zipCode := Some(addr[zipStart.value..]);
      addr := Strip(StripWhere(addr[..zipStart.value], IsCommaOrSpace));
    }
    assert (addr, zipCode) == Prepared(fullAddress);
    var comma := LastIndexOf(addr, ',');
    if comma.Some? {
      var left := Strip(addr[..comma.value]);
      var right := Strip(addr[comma.value + 1..]);
      var rr := ReadRightPart(right, left);
      if rr.None? {
        return ParseIndexError;
      }
      var rd := ReadLeftPart(rr.value);
      var street, city := rd.street, rd.city;
      if !Truthy(city) {
        var streetParts := Split(street);
        if |streetParts| > 0 && HasDigit(streetParts[0]) {
          city := Some(streetParts[|streetParts| - 1]);
          street := Strip(Join(streetParts[..|streetParts| - 1]));
        }
      }
      assert Reading(street, city, rd.state) == CityFromStreet(rd);
      r := Parsed(Finish(Some(street), city, rd.state, zipCode));
    } else {
      var fields := ParseTokens(addr, zipCode);
      r := Parsed(fields);
    }
  }

  /** The part after the last comma: a two-word state name, else a one-word one, with the
      words before it as the city; a short city may be completed from the left part. */
  method ReadRightPart(right: string, left: string) returns (rr: Option<RightRead>)
    ensures rr == ReadRight(right, left)
  {
    var left' := left;
    var city: Option<string>;
    var rightTokens := Split(right);
    var possibleState: Option<string> := None;
    if |rightTokens| >= 2 {
      var lastTwo := Lower(Join(rightTokens[|rightTokens| - 2..]));
      if lastTwo in StateNames {
        possibleState := Some(StateNames[lastTwo]);
        city := if |rightTokens| > 2 then Some(Strip(Join(rightTokens[..|rightTokens| - 2]))) else None;
        if !Truthy(city) || |Split(city.value)| < 2 {
          var leftTokens := Split(left');
          if |leftTokens| >= 2 && StartsUpper(leftTokens[|leftTokens| - 2]) && StartsUpper(leftTokens[|leftTokens| - 1]) {
            city := Some(Strip(Join(leftTokens[|leftTokens| - 2..])));
            left' := Strip(Join(leftTokens[..|leftTokens| - 2]));
          }
        }
      } else {
        var lastOne := Lower(rightTokens[|rightTokens| - 1]);
        if lastOne in StateNames {
          possibleState := Some(StateNames[lastOne]);
          city := Some(Strip(Join(rightTokens[..|rightTokens| - 1])));
        } else {
          possibleState := None;
          city := Some(Strip(Join(rightTokens)));
        }
      }
    } else {
      if |rightTokens| == 0 {
        return None;
      }
      var lastOne := Lower(rightTokens[|rightTokens| - 1]);
      if lastOne in StateNames {
        possibleState := Some(StateNames[lastOne]);
        city := None;
      } else {
        city := Some(right);
      }
    }
    return Some(RightRead(possibleState, city, left'));
  }

  /** Without a state after the comma: a state name as the last word before it, else the
      street and city split of a left part that starts with a number. */
  method ReadLeftPart(rr: RightRead) returns (rd: Reading)
    ensures rd == ReadLeft(rr)
  {
    var possibleState, city, left := rr.state, rr.city, rr.left;
    var street: string;
    if !Truthy(possibleState) {
      var leftTokens := Split(left);
      if |leftTokens| > 0 && Lower(leftTokens[|leftTokens| - 1]) in StateNames {
        possibleState := Some(Upper(leftTokens[|leftTokens| - 1]));
        street := Strip(Join(leftTokens[..|leftTokens| - 1]));
      } else if |leftTokens| > 0 && HasDigit(leftTokens[0]) {
        var splitIdx := FindLast(leftTokens, IsStreetSuffix);
        var cityText;
        street, cityText := SplitStreetAndCityPart(leftTokens, splitIdx);
        city := Some(cityText);
      } else {
        street := left;
      }
    } else {
      street := left;
    }
    return Reading(street, city, possibleState);
  }

  /** A left part that starts with a number: split after its last street suffix, or
      before two words that look like a city, or before its last word. */
  method SplitStreetAndCityPart(leftTokens: seq<string>, splitIdx: Option<nat>) returns (street: string, city: string)
    requires |leftTokens| > 0
    ensures (street, city) == SplitStreetAndCity(leftTokens, splitIdx)
  {
    if splitIdx.Some? && splitIdx.value < |leftTokens| - 1 {
      city := Strip(Join(leftTokens[splitIdx.value + 1..]));
      street := Strip(Join(leftTokens[..splitIdx.value + 1]));
    } else if |leftTokens| >= 2
      && ((StartsUpper(leftTokens[|leftTokens| - 2]) && StartsUpper(leftTokens[|leftTokens| - 1]))
          || Lower(leftTokens[|leftTokens| - 2]) in CityPrefixes)
    {
      city := Strip(Join(leftTokens[|leftTokens| - 2..]));
      street := Strip(Join(leftTokens[..|leftTokens| - 2]));
    } else {
      city := leftTokens[|leftTokens| - 1];
      street := Strip(Join(leftTokens[..|leftTokens| - 1]));
    }
  }

  /** The branch without a comma: the scan for a state, else the fallback, then every
      field trimmed. */
  method ParseTokens(addr: string, zipCode: Option<string>) returns (fields: ParsedAddress)
    ensures fields == ParseWithoutComma(addr, zipCode)
  {
    var tokens := Split(addr);
    var state: Option<string>, city: Option<string>, street: Option<string> := None, None, None;
    var hit := ScanForState(tokens);
    if hit.Some? {
      state, city, street := Some(hit.value.state), hit.value.city, hit.value.street;
      CodesAreShort();
    }
    if !Truthy(state) {
      street := Some(Join(tokens[..if |tokens| >= 2 then |tokens| - 2 else 0]));
      city := if |tokens| >= 2 then Some(tokens[|tokens| - 2]) else None;
    }
    fields := ParsedAddress(Norm(street), Norm(city), Norm(state), Norm(zipCode));
  }

  // ---------------------------------------------------------------- properties

  /** A blank input gives four empty fields. */
  lemma ParseBlank(s: string)
    requires IsBlank(s)
    ensures ParseAddress(s) == Parsed(ParsedAddress(None, None, None, None))
  {
  }

  /** A comma branch that does not raise ends in `Finish`, with the ZIP code passed in. */
  lemma CommaFinishes(addr: string, c: nat, zip: Option<string>) returns (rd: Reading)
    requires c < |addr| && ParseWithComma(addr, c, zip).Parsed?
    ensures ReadRight(Strip(addr[c + 1..]), Strip(addr[..c])).Some?
    ensures rd == CityFromStreet(ReadLeft(ReadRight(Strip(addr[c + 1..]), Strip(addr[..c])).value))
    ensures ParseWithComma(addr, c, zip).fields == Finish(Some(rd.street), rd.city, rd.state, zip)
  {
    rd := CityFromStreet(ReadLeft(ReadRight(Strip(addr[c + 1..]), Strip(addr[..c])).value));
  }

  /** A parse that does not raise ends in `Finish`, with the ZIP code cut off the address. */
  lemma ParseFinishes(s: string) returns (street: Option<string>, city: Option<string>, state: Option<string>)
    requires !IsBlank(s) && ParseAddress(s).Parsed?
    ensures ParseAddress(s).fields == Finish(street, city, state, Prepared(s).1)
  {
    var (addr, zip) := Prepared(s);
    match LastIndexOf(addr, ',')
    case Some(c) =>
      var rd := CommaFinishes(addr, c, zip);
      street, city, state := Some(rd.street), rd.city, rd.state;
    case None =>
      var tokens := Split(addr);
      match ScanFrom(tokens, |tokens| - 1)
      case Some(hit) =>
        street, city, state := hit.street, hit.city, Some(hit.state);
      case None =>
        street := Some(Join(tokens[..if |tokens| >= 2 then |tokens| - 2 else 0]));
        city := if |tokens| >= 2 then Some(tokens[|tokens| - 2]) else None;
        state := None;
  }

  predicate Trimmed(f: ParsedAddress) {
    && (f.street.Some? ==> IsStripped(f.street.value))
    && (f.city.Some? ==> IsStripped(f.city.value))
    && (f.state.Some? ==> IsStripped(f.state.value))
    && (f.zip.Some? ==> IsStripped(f.zip.value))
  }

  /** Every field returned is absent or trimmed. */
  lemma ParseFieldsTrimmed(s: string)
    ensures ParseAddress(s).Parsed? ==> Trimmed(ParseAddress(s).fields)
  {
    if !IsBlank(s) && ParseAddress(s).Parsed? {
      var street, city, state := ParseFinishes(s);
      assert Trimmed(Finish(street, city, state, Prepared(s).1));
    }
  }

  /** A comma with nothing but whitespace after it. */
  predicate CommaThenBlank(addr: string) {
    exists c :: 0 <= c < |addr| && addr[c] == ',' && forall k :: c < k < |addr| ==> IsSpace(addr[k])
  }

  /** The comma branch raises exactly when no word follows the comma. */
  lemma CommaRaises(addr: string, c: nat, zip: Option<string>)
    requires c < |addr|
    ensures ParseWithComma(addr, c, zip) == ParseIndexError <==> Split(Strip(addr[c + 1..])) == []
  {
  }

  /** No word follows the comma at `c` exactly when only whitespace does. */
  lemma NoWordAfter(addr: string, c: nat)
    requires c < |addr|
    ensures Split(Strip(addr[c + 1..])) == [] <==> forall k :: c < k < |addr| ==> IsSpace(addr[k])
  {
    var tail := addr[c + 1..];
    var right := Strip(tail);
    SplitFromEmpty(right, 0);
    assert (forall k :: 0 <= k < |right| ==> IsSpace(right[k])) <==> right == [];
    assert (forall k :: 0 <= k < |tail| ==> IsSpace(tail[k])) <==> (forall k :: c < k < |addr| ==> IsSpace(addr[k])) by {
      forall k | c < k < |addr| ensures tail[k - c - 1] == addr[k] { }
    }
  }

  /** Only the last comma can be followed by whitespace alone. */
  lemma CommaThenBlankAtLast(addr: string)
    ensures LastIndexOf(addr, ',').None? ==> !CommaThenBlank(addr)
    ensures LastIndexOf(addr, ',').Some? ==>
      var c := LastIndexOf(addr, ',').value;
      CommaThenBlank(addr) <==> forall k :: c < k < |addr| ==> IsSpace(addr[k])
  {
    if LastIndexOf(addr, ',').Some? && CommaThenBlank(addr) {
      var c := LastIndexOf(addr, ',').value;
      var c' :| 0 <= c' < |addr| && addr[c'] == ',' && forall k :: c' < k < |addr| ==> IsSpace(addr[k]);
      assert !IsSpace(addr[c]);
      assert c' == c;
    }
  }

  /** The parse raises exactly when the input is not blank and, once the country and the
      ZIP code are removed, its last comma is followed by whitespace only. */
  lemma ParseIndexErrorExactly(s: string)
    ensures ParseAddress(s) == ParseIndexError <==> !IsBlank(s) && CommaThenBlank(Prepared(s).0)
  {
    if !IsBlank(s) {
      var (addr, zip) := Prepared(s);
      CommaThenBlankAtLast(addr);
      if LastIndexOf(addr, ',').Some? {
        var c := LastIndexOf(addr, ',').value;
        CommaRaises(addr, c, zip);
        NoWordAfter(addr, c);
      }
    }
  }

  /** What the parse promises of its ZIP code, given the address it was cut from. */
  predicate ZipOf(z: Option<string>, a: string) {
    && (z.Some? ==> IsZipCode(z.value) && |z.value| <= |a| && a[|a| - |z.value|..] == z.value)
    && (z.None? <==> forall k :: 0 <= k <= |a| ==> !IsZipCode(a[k..]))
  }

  /** The trimmed ZIP code cut off an address is a ZIP code that ends it, and there is
      none exactly when no ZIP code ends it. */
  lemma SplitZipReports(a: string)
    ensures ZipOf(Norm(SplitZip(a).1), a)
  {
    var zip := SplitZip(a).1;
    if zip.Some? {
      NormOfZipCode(zip.value);
    }
  }

  /** A ZIP code starts and ends with a digit, so the final trimming leaves it alone. */
  lemma NormOfZipCode(z: string)
    requires IsZipCode(z)
    ensures Norm(Some(z)) == Some(z)
  {
    assert IsDigit(z[0]) && IsDigit(z[|z| - 1]) by {
      if |z| == 10 {
        assert z[..5][0] == z[0];
        assert z[6..][3] == z[9];
      }
    }
    StripOfStripped(z, IsSpace);
  }

  /** The ZIP code the parse reports is a ZIP code that ends the address once the country
      is removed, and there is none exactly when no ZIP code ends it. */
  lemma ParseZip(s: string)
    requires !IsBlank(s)
    ensures ParseAddress(s).Parsed? ==> ZipOf(ParseAddress(s).fields.zip, RemoveCountry(s))
  {
    if ParseAddress(s).Parsed? {
      var street, city, state := ParseFinishes(s);
      SplitZipReports(RemoveCountry(s));
    }
  }

  /** A state as the parse reports it: a code of `STATES`, or a word upper-cased whose
      lower-case form is a state name. */
  ghost predicate IsReportedState(v: string) {
    v in States || exists w :: IsToken(w) && Lower(w) in StateNames && v == Upper(w)
  }

  /** Codes are left alone by the final trimming. */
  lemma NormOfCode(v: string)
    requires IsStateCode(v)
    ensures Norm(Some(v)) == Some(v)
  {
    StripOfStripped(v, IsSpace);
  }

  /** A state name's code is a reported state, and the final trimming leaves it alone. */
  lemma NormOfNamedCode(v: string)
    requires v in StateNames.Values
    ensures IsReportedState(v) && Norm(Some(v)) == Some(v)
  {
    NamesGiveStates();
    CodesAreCodes(v);
    NormOfCode(v);
  }

  /** An upper-cased word is left alone by the final trimming. */
  lemma NormOfUpperWord(w: string)
    requires IsToken(w)
    ensures Norm(Some(Upper(w))) == Some(Upper(w))
  {
    var v := Upper(w);
    assert IsSpace(v[0]) == IsSpace(w[0]) && IsSpace(v[|v| - 1]) == IsSpace(w[|w| - 1]);
    StripOfStripped(v, IsSpace);
  }

  /** The state read on the comma branch is the one read after the comma, or the last
      word before it upper-cased, when nothing after it was a state. */
  lemma ReadingState(rr: RightRead) returns (w: Option<string>)
    ensures var st := CityFromStreet(ReadLeft(rr)).state;
      && (w.None? ==> st == rr.state)
      && (w.Some? ==> IsToken(w.value) && Lower(w.value) in StateNames && st == Some(Upper(w.value)))
      && (w.Some? ==> !Truthy(rr.state) && |Split(rr.left)| > 0 && w.value == Last(Split(rr.left)))
  {
    var rd := ReadLeft(rr);
    assert CityFromStreet(rd).state == rd.state;
    w := None;
    if !Truthy(rr.state) {
      var lt := Split(rr.left);
      if |lt| > 0 && Lower(Last(lt)) in StateNames {
        w := Some(Last(lt));
      }
    }
  }

  /** A right-hand part without a state leaves the left-hand part as it was. */
  lemma ReadRightStateless(right: string, left: string)
    requires ReadRight(right, left).Some? && !Truthy(ReadRight(right, left).value.state)
    ensures ReadRight(right, left).value.left == left
  {
    if ReadRight(right, left).value.state.Some? {
      CodesAreShort();
    }
  }

  /** The state of the comma branch is a code of `STATES`, or the last word before the
      comma upper-cased. */
  lemma CommaStateOrigin(addr: string, c: nat, zip: Option<string>)
    requires c < |addr| && ParseWithComma(addr, c, zip).Parsed?
    ensures var st := ParseWithComma(addr, c, zip).fields.state; var lt := Split(Strip(addr[..c]));
      st.Some? ==> st.value in States || (|lt| > 0 && Lower(Last(lt)) in StateNames && st.value == Upper(Last(lt)))
  {
    var rd := CommaFinishes(addr, c, zip);
    var rr := ReadRight(Strip(addr[c + 1..]), Strip(addr[..c])).value;
    var w := ReadingState(rr);
    if w.Some? {
      NormOfUpperWord(w.value);
      ReadRightStateless(Strip(addr[c + 1..]), Strip(addr[..c]));
    } else if rr.state.Some? {
      NamesGiveStates();
      CodesAreCodes(rr.state.value);
      NormOfCode(rr.state.value);
    }
  }

  /** The state of the comma branch. */
  lemma CommaState(addr: string, c: nat, zip: Option<string>)
    requires c < |addr| && ParseWithComma(addr, c, zip).Parsed?
    ensures var st := ParseWithComma(addr, c, zip).fields.state; st.Some? ==> IsReportedState(st.value)
  {
    var rd := CommaFinishes(addr, c, zip);
    var rr := ReadRight(Strip(addr[c + 1..]), Strip(addr[..c])).value;
    var w := ReadingState(rr);
    if w.Some? {
      NormOfUpperWord(w.value);
    } else if rr.state.Some? {
      NormOfNamedCode(rr.state.value);
    }
  }

  /** The state of the branch without a comma. */
  lemma NoCommaState(addr: string, zip: Option<string>)
    ensures var st := ParseWithoutComma(addr, zip).state; st.Some? ==> IsReportedState(st.value)
  {
    var tokens := Split(addr);
    var hit := ScanFrom(tokens, |tokens| - 1);
    if hit.Some? {
      NormOfNamedCode(hit.value.state);
    }
  }

  /** A state reported by the parse is a code of `STATES` or a word upper-cased whose
      lower-case form is a state name; a two-letter code is never read as a state name.
      With a comma, that word is the last one before the last comma. */
  lemma ParseStateShape(s: string)
    ensures ParseAddress(s).Parsed? && ParseAddress(s).fields.state.Some? ==>
      IsReportedState(ParseAddress(s).fields.state.value)
    ensures var addr := Prepared(s).0;
      !IsBlank(s) && LastIndexOf(addr, ',').Some? && ParseAddress(s).Parsed? && ParseAddress(s).fields.state.Some? ==>
        var st := ParseAddress(s).fields.state.value;
        var lt := Split(Strip(addr[..LastIndexOf(addr, ',').value]));
        st in States || (|lt| > 0 && Lower(Last(lt)) in StateNames && st == Upper(Last(lt)))
  {
    if !IsBlank(s) {
      var (addr, zip) := Prepared(s);
      match LastIndexOf(addr, ',')
      case Some(c) =>
        if ParseWithComma(addr, c, zip).Parsed? {
          CommaState(addr, c, zip);
          CommaStateOrigin(addr, c, zip);
        }
      case None =>
        NoCommaState(addr, zip);
    }
  }

  // ---------------------------------------------------------------- the street and city split

  /** Trimming a space-joined run of words and splitting it again gives the words back. */
  lemma JoinedWords(ws: seq<string>)
    requires AllTokens(ws)
    ensures Split(Strip(Join(ws))) == ws
  {
    JoinIsStripped(ws);
    StripOfStripped(Join(ws), IsSpace);
    SplitJoin(ws);
  }

  /** Cutting the words at `k` and trimming each side keeps them in order, and the
      part after the cut has words. */
  lemma CutWords(lt: seq<string>, k: nat)
    requires k < |lt| && AllTokens(lt)
    ensures Split(Strip(Join(lt[..k]))) + Split(Strip(Join(lt[k..]))) == lt
    ensures Split(Strip(Join(lt[k..]))) != []
  {
    assert AllTokens(lt[..k]) && AllTokens(lt[k..]);
    JoinedWords(lt[..k]);
    JoinedWords(lt[k..]);
    assert lt[..k] + lt[k..] == lt;
  }

  /** Where the split cuts the words: the street is the words before `k`, and the city
      the words from `k` on, or the last word alone. */
  lemma SplitStreetAndCityCut(lt: seq<string>, splitIdx: Option<nat>) returns (k: nat, lastOnly: bool)
    requires |lt| > 0
    ensures k < |lt| && SplitStreetAndCity(lt, splitIdx).0 == Strip(Join(lt[..k]))
    ensures lastOnly ==> k == |lt| - 1 && SplitStreetAndCity(lt, splitIdx).1 == Last(lt)
    ensures !lastOnly ==> SplitStreetAndCity(lt, splitIdx).1 == Strip(Join(lt[k..]))
    ensures splitIdx.Some? && splitIdx.value < |lt| - 1 ==> k == splitIdx.value + 1 && !lastOnly
  {
    if splitIdx.Some? && splitIdx.value < |lt| - 1 {
      k, lastOnly := splitIdx.value + 1, false;
    } else if |lt| >= 2 && ((StartsUpper(lt[|lt| - 2]) && StartsUpper(Last(lt))) || Lower(lt[|lt| - 2]) in CityPrefixes) {
      k, lastOnly := |lt| - 2, false;
    } else {
      k, lastOnly := |lt| - 1, true;
    }
  }

  /** The split of the words before the comma cuts them in two, in order: the street's
      words and then the city's, which are never none. With a split index before the
      last word, the street ends at that word. */
  lemma SplitStreetAndCityWords(lt: seq<string>, splitIdx: Option<nat>)
    requires |lt| > 0 && AllTokens(lt)
    ensures var (street, city) := SplitStreetAndCity(lt, splitIdx);
      && Split(street) + Split(city) == lt
      && Split(city) != []
      && (splitIdx.Some? && splitIdx.value < |lt| - 1 ==> Split(street) == lt[..splitIdx.value + 1])
  {
    var k, lastOnly := SplitStreetAndCityCut(lt, splitIdx);
    if lastOnly {
      assert AllTokens(lt[..k]);
      JoinedWords(lt[..k]);
      assert Join([Last(lt)]) == Last(lt);
      SplitJoin([Last(lt)]);
      assert lt[..k] + [Last(lt)] == lt;
    } else {
      CutWords(lt, k);
      assert AllTokens(lt[..k]);
      JoinedWords(lt[..k]);
    }
  }

  /** With the split at a word `i` before the last that passes `p`, no later word
      passing `p`, the street runs up to that word and the city holds no word passing `p`. */
  lemma SplitAtLast(lt: seq<string>, p: string -> bool, i: nat)
    requires i < |lt| - 1 && AllTokens(lt) && p(lt[i])
    requires forall j :: i < j < |lt| ==> !p(lt[j])
    ensures var (street, city) := SplitStreetAndCity(lt, Some(i));
      && Split(street) == lt[..i + 1]
      && p(Last(Split(street)))
      && forall w :: w in Split(city) ==> !p(w)
  {
    var k, lastOnly := SplitStreetAndCityCut(lt, Some(i));
    var before, after := lt[..k], lt[k..];
    assert AllTokens(before) && AllTokens(after);
    JoinedWords(before);
    JoinedWords(after);
    assert Last(before) == lt[i];
    forall w | w in after ensures !p(w) {
      var j :| 0 <= j < |after| && after[j] == w;
      assert lt[k + j] == w;
    }
  }

  /** Where a street suffix comes before the last word, the street runs up to the last
      suffix and the city holds no suffix. */
  lemma SplitAtLastSuffix(lt: seq<string>)
    requires |lt| > 0 && AllTokens(lt)
    requires LastStreetSuffix(lt).Some? && LastStreetSuffix(lt).value < |lt| - 1
    ensures var (street, city) := SplitStreetAndCity(lt, LastStreetSuffix(lt));
      && Split(street) == lt[..LastStreetSuffix(lt).value + 1]
      && IsStreetSuffix(Last(Split(street)))
      && forall w :: w in Split(city) ==> !IsStreetSuffix(w)
  {
    SplitAtLast(lt, IsStreetSuffix, LastStreetSuffix(lt).value);
  }
}
