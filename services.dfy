/** The outside world the lookup talks to, reduced to what its code reads from each
    answer. Each service is a fixed function for one run: the HTTP request, the JSON
    decoding and the file system are behind it. */
module Services {
  import opened Wrappers

  /** A point as the Census geocoder reports it: `x` is the longitude, `y` the latitude. */
  datatype CensusPoint = CensusPoint(x: real, y: real)

  /** One entry of `geographies['Census Tracts']`; a field is None when its key is absent. */
  datatype CensusTract = CensusTract(
    state: Option<string>,
    county: Option<string>,
    tract: Option<string>,
    blockGroup: Option<string>)

  /** One entry of `result['addressMatches']`. `coordinates` is None when the key is absent;
      `tracts` is empty when there are no geographies or no tract list. */
  datatype CensusMatch = CensusMatch(
    matchedAddress: Option<string>,
    coordinates: Option<CensusPoint>,
    tracts: seq<CensusTract>)

  /** The answer of a Census geocoder request: a transport, HTTP or decoding failure
      with its message, or the list of address matches. */
  datatype CensusResponse =
    | CensusFailed(message: string)
    | CensusReply(matches: seq<CensusMatch>)

  datatype AddressComponent = AddressComponent(longName: string, types: seq<string>)

  /** The first result of a Google geocoding answer with every field the code reads. */
  datatype GooglePlace = GooglePlace(
    formattedAddress: string,
    latitude: real,
    longitude: real,
    placeId: string,
    components: seq<AddressComponent>)

  /** The answer of a Google geocoding request: a `requests` failure, any other failure
      while reading the answer (a missing key included), or the status and results. */
  datatype GoogleResponse =
    | GoogleRequestFailed(message: string)
    | GoogleUnexpected(message: string)
    | GoogleReply(status: string, results: seq<GooglePlace>)

  /** The answer of an American Community Survey request: a `requests` failure, any other
      failure, or the decoded table (a header row, then data rows). */
  datatype AcsResponse =
    | AcsRequestFailed(message: string)
    | AcsUnexpected(message: string)
    | AcsRows(rows: seq<seq<string>>)

  /** What `import pandas` does: succeed, raise ImportError, or raise something else. */
  datatype PandasImport = PandasAvailable | PandasMissing | PandasBroken(message: string)

  /** A sheet of the workbook, by title or by position. */
  datatype SheetName = SheetTitled(title: string) | SheetIndex(index: nat)

  /** One row of the sheet: the "FIPS code" and "Tract income level" cells, None when empty. */
  datatype SheetRow = SheetRow(fips: Option<string>, level: Option<string>)

  /** What reading one sheet gives: no such sheet (`ValueError`), any other failure
      (an unreadable file, a missing column), or its rows. */
  datatype SheetRead = SheetMissing | SheetUnreadable | SheetRows(rows: seq<SheetRow>)

  datatype ReferenceFiles = ReferenceFiles(
    pathExists: string -> bool,
    pandas: PandasImport,
    readSheet: (string, SheetName) -> SheetRead)

  /** The services of one run. */
  datatype Services = Services(
    censusGeocode: string -> CensusResponse,
    censusReverse: (real, real) -> CensusResponse,
    googleGeocode: (string, string) -> GoogleResponse,
    acs: (string, string, string) -> AcsResponse,
    files: ReferenceFiles)
}
