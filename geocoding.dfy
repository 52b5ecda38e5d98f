/** Geocoding: the Census geocoder tried on each candidate address, Google Maps as the
    fallback, one more Census attempt with Google's standardised address, and the
    stand-alone reverse lookup from coordinates. The loop over the candidates runs in
    `Lookup.CensusDemographicsLookup.GeocodeAddress`; this module holds what it is proved
    against, and the properties of the whole fallback chain. */
module Geocoding {
  import opened Wrappers
  import opened PyStr
  import opened Services
  import opened Addresses

  datatype Coordinates = Coordinates(latitude: real, longitude: real)

  /** The `address` part of a result. */
  datatype AddressInfo = AddressInfo(input: string, standardized: string, coordinates: Coordinates)

  /** The `census_geography` part of a result. */
  datatype Geography = Geography(
    stateFips: string,
    countyFips: string,
    tractFips: string,
    tractId: string,
    blockGroup: string)

  /** A successful `geocode_with_google_maps` result: the address and the `google_maps_data`. */
  datatype GoogleHit = GoogleHit(
    address: AddressInfo,
    placeId: string,
    formattedAddress: string,
    components: map<string, string>)

  datatype GoogleOutcome =
    | GoogleFound(hit: GoogleHit)
    | GoogleError(error: string, message: Option<string>)

  /** What `geocode_address` returns: an address with its tract (`google_maps_enhanced`
      true when it came through Google), Google's result without a tract, or the
      terminal failure with the candidates that were tried. */
  datatype GeocodeResult =
    | Located(address: AddressInfo, geography: Geography, googleMapsEnhanced: bool)
    | TractUnavailable(google: GoogleHit)
    | NotFound(triedVariations: seq<string>)

  const NotFoundSuggestions: seq<string> := [
    "Check address spelling",
    "Try without apartment/unit numbers",
    "Use ZIP code for better accuracy",
    "Consider using Google Maps API key for better matching"
  ]

  const TractUnavailableError := "Census tract data not available"
  const TractUnavailableMessage := "Address found via Google Maps but Census tract data unavailable"

  function NotFoundMessage(tried: nat): string {
    "Could not find address after trying " + NatToString(tried) + " variations"
  }

  /** The `error` field of a result, None when there is none. */
  function ErrorOf(r: GeocodeResult): Option<string> {
    match r
    case Located(_, _, _) => None
    case TractUnavailable(_) => Some(TractUnavailableError)
    case NotFound(_) => Some("Address not found")
  }

  /** The `message` field of a result, None when there is none. */
  function MessageOf(r: GeocodeResult): Option<string> {
    match r
    case Located(_, _, _) => None
    case TractUnavailable(_) => Some(TractUnavailableMessage)
    case NotFound(tried) => Some(NotFoundMessage(|tried|))
  }

  /** The value of `{zip_code}` in an f-string: the text, or "None". */
  function ZipText(zip: Option<string>): string {
    match zip
    case Some(z) => z
    case None => "None"
  }

  /** The cache key of a geocoding request. */
  function GeocodeCacheKey(address: string, city: string, state: string, zip: Option<string>): string {
    Strip(Lower(address + ", " + city + ", " + state + ", " + ZipText(zip)))
  }

  /** The geography of a tract entry; None when `STATE`, `COUNTY` or `TRACT` is absent
      (a KeyError in the code). A missing `BLKGRP` becomes the empty string. */
  function GeographyOf(t: CensusTract): Option<Geography> {
    if t.state.Some? && t.county.Some? && t.tract.Some? then
      var s, c, tr := t.state.value, t.county.value, t.tract.value;
      Some(Geography(s, c, tr, s + c + tr, t.blockGroup.GetOr("")))
    else None
  }

  /** The tract identifier is state, county and tract codes side by side, so it has
      eleven characters when they have two, three and six. */
  lemma TractIdOfGeography(t: CensusTract)
    requires GeographyOf(t).Some?
    ensures var g := GeographyOf(t).value;
      && g.stateFips == t.state.value && g.countyFips == t.county.value && g.tractFips == t.tract.value
      && g.tractId[..|g.stateFips|] == g.stateFips
      && g.tractId[|g.stateFips|..|g.stateFips| + |g.countyFips|] == g.countyFips
      && g.tractId[|g.stateFips| + |g.countyFips|..] == g.tractFips
      && (|g.stateFips| == 2 && |g.countyFips| == 3 && |g.tractFips| == 6 ==> |g.tractId| == 11)
  {
    var g := GeographyOf(t).value;
    assert g.tractId == g.stateFips + g.countyFips + g.tractFips;
    assert g.tractId[|g.stateFips|..] == g.countyFips + g.tractFips;
  }

  // ---------------------------------------------------------------- the primary geocoder

  /** One Census attempt with the candidate `full`: a located result when the first match
      has coordinates and a first tract with its three codes, None where the code moves on
      to the next candidate. */
  function PrimaryAttempt(full: string, reply: CensusResponse): (r: Option<GeocodeResult>)
    ensures r.Some? ==> r.value.Located? && !r.value.googleMapsEnhanced && r.value.address.input == full
    ensures r.Some? <==>
      && reply.CensusReply? && |reply.matches| > 0
      && reply.matches[0].coordinates.Some?
      && |reply.matches[0].tracts| > 0
      && GeographyOf(reply.matches[0].tracts[0]).Some?
    ensures r.Some? ==>
      && r.value.address.coordinates
         == Coordinates(reply.matches[0].coordinates.value.y, reply.matches[0].coordinates.value.x)
      && r.value.address.standardized == reply.matches[0].matchedAddress.GetOr(full)
      && Some(r.value.geography) == GeographyOf(reply.matches[0].tracts[0])
  {
    match reply
    case CensusFailed(_) => None
    case CensusReply(matches) =>
      if |matches| == 0 then None
      else
        var m := matches[0];
        match m.coordinates
        case None => None
        case Some(point) =>
          if |m.tracts| == 0 then None
          else
            match GeographyOf(m.tracts[0])
            case None => None
            case Some(g) =>
              Some(Located(AddressInfo(full, m.matchedAddress.GetOr(full), Coordinates(point.y, point.x)), g, false))
  }

  /** The first candidate, in list order, for which the primary attempt succeeds. */
  function FirstPrimaryHit(vars: seq<string>, census: string -> CensusResponse): (r: Option<GeocodeResult>)
    ensures r.Some? ==> r.value.Located? && !r.value.googleMapsEnhanced && r.value.address.input in vars
  {
    if vars == [] then None
    else
      match PrimaryAttempt(vars[0], census(vars[0]))
      case Some(r) => Some(r)
      case None => FirstPrimaryHit(vars[1..], census)
  }

  predicate PrimaryFails(v: string, census: string -> CensusResponse) {
    PrimaryAttempt(v, census(v)).None?
  }

  /** No primary hit exactly when every candidate fails. */
  lemma {:induction false} FirstPrimaryHitNone(vars: seq<string>, census: string -> CensusResponse)
    ensures FirstPrimaryHit(vars, census).None? <==> forall i :: 0 <= i < |vars| ==> PrimaryFails(vars[i], census)
  {
    if vars != [] {
      FirstPrimaryHitNone(vars[1..], census);
      assert forall i :: 1 <= i < |vars| ==> vars[i] == vars[1..][i - 1];
    }
  }

  /** The first candidate that succeeds decides the result. */
  lemma {:induction false} FirstPrimaryHitAt(vars: seq<string>, census: string -> CensusResponse, i: nat)
    requires i < |vars| && !PrimaryFails(vars[i], census)
    requires forall j :: 0 <= j < i ==> PrimaryFails(vars[j], census)
    ensures FirstPrimaryHit(vars, census) == PrimaryAttempt(vars[i], census(vars[i]))
  {
    if i > 0 {
      assert forall j :: 0 <= j < i - 1 ==> vars[1..][j] == vars[j + 1];
      assert PrimaryFails(vars[0], census);
      FirstPrimaryHitAt(vars[1..], census, i - 1);
    }
  }

  lemma {:induction false} FirstPrimaryHitFrom(vars: seq<string>, census: string -> CensusResponse, i: nat)
    requires i <= |vars| && forall j :: 0 <= j < i ==> PrimaryFails(vars[j], census)
    ensures FirstPrimaryHit(vars, census) == FirstPrimaryHit(vars[i..], census)
  {
    if i > 0 {
      assert PrimaryFails(vars[0], census);
      assert forall j :: 0 <= j < i - 1 ==> vars[1..][j] == vars[j + 1];
      FirstPrimaryHitFrom(vars[1..], census, i - 1);
      assert vars[1..][i - 1..] == vars[i..];
    }
  }

  // ---------------------------------------------------------------- Google Maps

  /** The types of one address component, each mapped to its long name, in order. */
  function AddComponentTypes(m: map<string, string>, name: string, types: seq<string>): map<string, string>
    decreases |types|
  {
    if types == [] then m
    else AddComponentTypes(m, name, types[..|types| - 1])[types[|types| - 1] := name]
  }

  /** `address_components`: every component type mapped to the long name of the last
      component that lists it. */
  function ComponentMap(cs: seq<AddressComponent>): map<string, string>
    decreases |cs|
  {
    if cs == [] then map[]
    else
      var c := cs[|cs| - 1];
      AddComponentTypes(ComponentMap(cs[..|cs| - 1]), c.longName, c.types)
  }

  lemma {:induction false} AddComponentTypesSpec(m: map<string, string>, name: string, types: seq<string>)
    ensures forall t :: t in AddComponentTypes(m, name, types) <==> t in m || t in types
    ensures forall t :: t in types ==> AddComponentTypes(m, name, types)[t] == name
    ensures forall t :: t in m && t !in types ==> AddComponentTypes(m, name, types)[t] == m[t]
    decreases |types|
  {
    if types != [] {
      var init := types[..|types| - 1];
      AddComponentTypesSpec(m, name, init);
      assert forall t :: t in types <==> t in init || t == types[|types| - 1];
    }
  }

  /** A type is a key of the component map exactly when some component lists it, and its
      value is the long name of the last component that does. */
  lemma {:induction false} ComponentMapSpec(cs: seq<AddressComponent>, t: string)
    ensures t in ComponentMap(cs) <==> exists i :: 0 <= i < |cs| && t in cs[i].types
    ensures forall i :: 0 <= i < |cs| && t in cs[i].types && (forall k :: i < k < |cs| ==> t !in cs[k].types) ==>
      ComponentMap(cs)[t] == cs[i].longName
    decreases |cs|
  {
    if cs != [] {
      var init := cs[..|cs| - 1];
      var c := cs[|cs| - 1];
      ComponentMapSpec(init, t);
      AddComponentTypesSpec(ComponentMap(init), c.longName, c.types);
      assert forall i :: 0 <= i < |init| ==> init[i] == cs[i];
      if t in ComponentMap(cs) && t !in c.types {
        var i :| 0 <= i < |init| && t in init[i].types;
        assert t in cs[i].types;
      }
    }
  }

  /** The result for Google's first place, asked about with the candidate `full`. */
  function GoogleHitOf(full: string, place: GooglePlace): GoogleHit {
    GoogleHit(
      AddressInfo(full, place.formattedAddress, Coordinates(place.latitude, place.longitude)),
      place.placeId, place.formattedAddress, ComponentMap(place.components))
  }

  /** What `geocode_with_google_maps` returns for the key and the answer of the service. */
  function GoogleGeocode(key: Option<string>, full: string, google: (string, string) -> GoogleResponse): (r: GoogleOutcome)
    ensures !Truthy(key) <==> r == GoogleError("Google Maps API key not provided", None)
    ensures r.GoogleFound? ==> r.hit.address.input == full
    ensures r.GoogleFound? <==> Truthy(key) && var reply := google(full, key.value);
      reply.GoogleReply? && reply.status == "OK" && |reply.results| > 0
    ensures r.GoogleFound? ==> key.Some? && var p := google(full, key.value).results[0];
      && r.hit.address.coordinates == Coordinates(p.latitude, p.longitude)
      && r.hit.address.standardized == p.formattedAddress
      && r.hit.formattedAddress == p.formattedAddress && r.hit.placeId == p.placeId
      && r.hit.components == ComponentMap(p.components)
    ensures Truthy(key) ==> var reply := google(full, key.value);
      && (reply.GoogleRequestFailed? ==> r == GoogleError("Google Maps API error", Some(reply.message)))
      && (reply.GoogleUnexpected? ==> r == GoogleError("Unexpected error with Google Maps", Some(reply.message)))
      && (reply.GoogleReply? && (reply.status != "OK" || |reply.results| == 0) ==>
            r == GoogleError("Address not found in Google Maps", Some("Google Maps status: " + reply.status)))
  {
    if !Truthy(key) then GoogleError("Google Maps API key not provided", None)
    else
      match google(full, key.value)
      case GoogleRequestFailed(msg) => GoogleError("Google Maps API error", Some(msg))
      case GoogleUnexpected(msg) => GoogleError("Unexpected error with Google Maps", Some(msg))
      case GoogleReply(status, results) =>
        if status != "OK" || |results| == 0 then
          GoogleError("Address not found in Google Maps", Some("Google Maps status: " + status))
        else GoogleFound(GoogleHitOf(full, results[0]))
  }

  /** The Census retry with Google's standardised address: located, carrying Google's
      coordinates and the literal input, or Google's result without a tract. */
  function CensusRetry(input: string, hit: GoogleHit, census: string -> CensusResponse): (r: GeocodeResult)
    ensures r.Located? || r == TractUnavailable(hit)
    ensures r.Located? ==>
      r.googleMapsEnhanced && r.address.input == input && r.address.coordinates == hit.address.coordinates
    ensures r.Located? <==> var reply := census(hit.address.standardized);
      && reply.CensusReply? && |reply.matches| > 0 && |reply.matches[0].tracts| > 0
      && GeographyOf(reply.matches[0].tracts[0]).Some?
    ensures r.Located? ==> var m := census(hit.address.standardized).matches[0];
      && r.address.standardized == m.matchedAddress.GetOr(hit.address.standardized)
      && Some(r.geography) == GeographyOf(m.tracts[0])
  {
    var standardized := hit.address.standardized;
    match census(standardized)
    case CensusFailed(_) => TractUnavailable(hit)
    case CensusReply(matches) =>
      if |matches| == 0 || |matches[0].tracts| == 0 then TractUnavailable(hit)
      else
        var m := matches[0];
        match GeographyOf(m.tracts[0])
        case None => TractUnavailable(hit)
        case Some(g) =>
          Located(AddressInfo(input, m.matchedAddress.GetOr(standardized), hit.address.coordinates), g, true)
  }

  /** The whole of `geocode_address` once the candidate list `vars` is known. */
  function Geocode(vars: seq<string>, address: string, city: string, state: string, zip: Option<string>,
                   key: Option<string>, services: Services): GeocodeResult
  {
    match FirstPrimaryHit(vars, services.censusGeocode)
    case Some(r) => r
    case None =>
      if !Truthy(key) then NotFound(vars)
      else
        var full := FullAddress(address, city, state, zip);
        match GoogleGeocode(key, full, services.googleGeocode)
        case GoogleError(_, _) => NotFound(vars)
        case GoogleFound(hit) => CensusRetry(full, hit, services.censusGeocode)
  }

  /** "Address not found" comes back exactly when every candidate fails with the Census
      geocoder and there is either no key or Google answers with an error; it lists every
      candidate and its message counts them. */
  lemma GeocodeNotFoundExactly(vars: seq<string>, address: string, city: string, state: string,
                               zip: Option<string>, key: Option<string>, services: Services)
    ensures var r := Geocode(vars, address, city, state, zip, key, services);
      r.NotFound? <==>
        && (forall i :: 0 <= i < |vars| ==> PrimaryFails(vars[i], services.censusGeocode))
        && (!Truthy(key) || GoogleGeocode(key, FullAddress(address, city, state, zip), services.googleGeocode).GoogleError?)
    ensures var r := Geocode(vars, address, city, state, zip, key, services);
      r.NotFound? ==> r.triedVariations == vars && MessageOf(r) == Some(NotFoundMessage(|vars|))
  {
    FirstPrimaryHitNone(vars, services.censusGeocode);
    var full := FullAddress(address, city, state, zip);
    if FirstPrimaryHit(vars, services.censusGeocode).None? && Truthy(key) {
      var g := GoogleGeocode(key, full, services.googleGeocode);
      if g.GoogleFound? {
        assert Geocode(vars, address, city, state, zip, key, services) == CensusRetry(full, g.hit, services.censusGeocode);
      }
    }
  }

  /** The first candidate that the Census geocoder locates is the answer, and it does not
      come through Google. */
  lemma GeocodeFirstHit(vars: seq<string>, address: string, city: string, state: string,
                        zip: Option<string>, key: Option<string>, services: Services, i: nat)
    requires i < |vars| && !PrimaryFails(vars[i], services.censusGeocode)
    requires forall j :: 0 <= j < i ==> PrimaryFails(vars[j], services.censusGeocode)
    ensures var r := Geocode(vars, address, city, state, zip, key, services);
      && Some(r) == PrimaryAttempt(vars[i], services.censusGeocode(vars[i]))
      && r.Located? && !r.googleMapsEnhanced && r.address.input == vars[i]
  {
    FirstPrimaryHitAt(vars, services.censusGeocode, i);
  }

  /** Once a candidate is located, the candidates after it are never asked about: another
      geocoder that agrees on the candidates up to it gives the same result. */
  lemma LaterVariationsNotTried(vars: seq<string>, address: string, city: string, state: string,
                                zip: Option<string>, key: Option<string>, services: Services,
                                other: string -> CensusResponse, i: nat)
    requires i < |vars| && !PrimaryFails(vars[i], services.censusGeocode)
    requires forall j :: 0 <= j < i ==> PrimaryFails(vars[j], services.censusGeocode)
    requires forall j :: 0 <= j <= i ==> other(vars[j]) == services.censusGeocode(vars[j])
    ensures Geocode(vars, address, city, state, zip, key, services.(censusGeocode := other))
         == Geocode(vars, address, city, state, zip, key, services)
  {
    FirstPrimaryHitAt(vars, services.censusGeocode, i);
    FirstPrimaryHitAt(vars, other, i);
  }

  /** When Google answers, the result is either located through Google, with Google's
      coordinates and the literal full address as input, or Google's own result without a tract. */
  lemma GeocodeThroughGoogle(vars: seq<string>, address: string, city: string, state: string,
                             zip: Option<string>, key: Option<string>, services: Services)
    requires forall i :: 0 <= i < |vars| ==> PrimaryFails(vars[i], services.censusGeocode)
    requires GoogleGeocode(key, FullAddress(address, city, state, zip), services.googleGeocode).GoogleFound?
    ensures var hit := GoogleGeocode(key, FullAddress(address, city, state, zip), services.googleGeocode).hit;
      var r := Geocode(vars, address, city, state, zip, key, services);
      || (r.Located? && r.googleMapsEnhanced && r.address.input == FullAddress(address, city, state, zip)
          && r.address.coordinates == hit.address.coordinates)
      || r == TractUnavailable(hit)
  {
    FirstPrimaryHitNone(vars, services.censusGeocode);
  }

  /** A result located without Google comes from one of the candidates. */
  lemma GeocodeLocatedDirectly(vars: seq<string>, address: string, city: string, state: string,
                               zip: Option<string>, key: Option<string>, services: Services)
    ensures var r := Geocode(vars, address, city, state, zip, key, services);
      r.Located? && !r.googleMapsEnhanced ==>
        exists i :: 0 <= i < |vars| && Some(r) == PrimaryAttempt(vars[i], services.censusGeocode(vars[i]))
  {
    var r := Geocode(vars, address, city, state, zip, key, services);
    if r.Located? && !r.googleMapsEnhanced {
      FirstPrimaryHitNone(vars, services.censusGeocode);
      var i :| 0 <= i < |vars| && !PrimaryFails(vars[i], services.censusGeocode);
      var first := FirstSucceeding(vars, services.censusGeocode, i);
      FirstPrimaryHitAt(vars, services.censusGeocode, first);
    }
  }

  /** The least index at or below `i` whose candidate succeeds. */
  lemma {:induction false} FirstSucceeding(vars: seq<string>, census: string -> CensusResponse, i: nat) returns (k: nat)
    requires i < |vars| && !PrimaryFails(vars[i], census)
    ensures k <= i && !PrimaryFails(vars[k], census)
    ensures forall j :: 0 <= j < k ==> PrimaryFails(vars[j], census)
    decreases i
  {
    if exists j :: 0 <= j < i && !PrimaryFails(vars[j], census) {
      var j :| 0 <= j < i && !PrimaryFails(vars[j], census);
      k := FirstSucceeding(vars, census, j);
    } else {
      k := i;
    }
  }

  // ---------------------------------------------------------------- reverse geocoding

  datatype ReverseResult =
    | ReverseEnriched(google: GoogleHit, geography: Geography)
    | ReverseError(google: GoogleHit, error: string, message: string)

  const ReverseFailedError := "Reverse geocoding failed"
  const ReverseFailedPrefix := "Could not get Census tract data: "

  /** `reverse_geocode_for_census_tract`: the tract at Google's coordinates, asked of the
      Census coordinate service with the longitude as `x` and the latitude as `y`. A
      failure of the service, or a tract without one of its codes (a KeyError naming the
      key), is reported as a failed reverse lookup; no match or no tract as unavailable data. */
  function ReverseGeocodeForCensusTract(hit: GoogleHit, reverse: (real, real) -> CensusResponse): (r: ReverseResult)
    ensures r.google == hit
    ensures r.ReverseEnriched? <==>
      var reply := reverse(hit.address.coordinates.longitude, hit.address.coordinates.latitude);
      && reply.CensusReply? && |reply.matches| > 0 && |reply.matches[0].tracts| > 0
      && GeographyOf(reply.matches[0].tracts[0]).Some?
    ensures var reply := reverse(hit.address.coordinates.longitude, hit.address.coordinates.latitude);
      && (r.ReverseEnriched? ==> Some(r.geography) == GeographyOf(reply.matches[0].tracts[0]))
      && (reply.CensusFailed? ==> r == ReverseError(hit, ReverseFailedError, ReverseFailedPrefix + reply.message))
      && (reply.CensusReply? && (|reply.matches| == 0 || |reply.matches[0].tracts| == 0) ==>
            r == ReverseError(hit, TractUnavailableError, TractUnavailableMessage))
      && (reply.CensusReply? && |reply.matches| > 0 && |reply.matches[0].tracts| > 0 ==>
            var t := reply.matches[0].tracts[0];
            && (t.state.None? ==> r == ReverseError(hit, ReverseFailedError, ReverseFailedPrefix + "'STATE'"))
            && (t.state.Some? && t.county.None? ==>
                  r == ReverseError(hit, ReverseFailedError, ReverseFailedPrefix + "'COUNTY'"))
            && (t.state.Some? && t.county.Some? && t.tract.None? ==>
                  r == ReverseError(hit, ReverseFailedError, ReverseFailedPrefix + "'TRACT'")))
  {
    var failed := ReverseFailedError;
    var prefix := ReverseFailedPrefix;
    match reverse(hit.address.coordinates.longitude, hit.address.coordinates.latitude)
    case CensusFailed(msg) => ReverseError(hit, failed, prefix + msg)
    case CensusReply(matches) =>
      if |matches| == 0 || |matches[0].tracts| == 0 then
        ReverseError(hit, TractUnavailableError, TractUnavailableMessage)
      else
        var t := matches[0].tracts[0];
        if t.state.None? then ReverseError(hit, failed, prefix + "'STATE'")
        else if t.county.None? then ReverseError(hit, failed, prefix + "'COUNTY'")
        else if t.tract.None? then ReverseError(hit, failed, prefix + "'TRACT'")
        else ReverseEnriched(hit, GeographyOf(t).value)
  }
}
