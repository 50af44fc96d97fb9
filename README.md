# traffic-info, modelled in Dafny

`traffic-info` is a Go command-line tool. It reports the driving distance and duration
between two `latitude,longitude` points, using the Google Distance Matrix API. This project
models the tool's two pieces of deterministic logic and proves properties of them:

- **Coordinate validation** (`util/cli.go`). `verifyCoordinate` splits a `"lat,lon"`
  string on commas. It then parses and range-checks the two tokens, returning at the first
  check that fails. `CheckArgs` requires both arguments, then validates the origin before
  the destination.
- **The traffic-info request and report** (`util/map.go`):
  - the request URL, with both coordinates passed through `url.QueryEscape`;
  - the deadline-bounded retry loop of `FetchTrafficInfo`;
  - the text that the fixed `respTempl` template renders from the decoded
    `DistanceMatrixResponse`.

Files and modules (one module per file, all verified together):

| file | module | contents |
|---|---|---|
| wrappers.dfy | `Wrappers` | `Option`, `Result` |
| strings.dfy | `Strings` | Go's `strings.Split` on one separator, its inverse `Join`, split facts |
| decimal.dfy | `Decimal` | the decimal-literal part of `strconv.ParseFloat`, read as exact reals |
| coordinates.dfy | `Coordinates` | `verifyCoordinate`, `CheckArgs` |
| url_escape.dfy | `UrlEscape` | `url.QueryEscape` over UTF-8 bytes, and `url.QueryUnescape` as its inverse |
| traffic.dfy | `Traffic` | the response records, `baseURL`, the request URL |
| fetch.dfy | `Fetch` | the retry loop, as a method over a trace of clock readings and attempt outcomes |
| report.dfy | `Report` | the template's output, and a line-by-line reference layout of the report |

The Go package globals `origin` and `destination` are explicit parameters here. The wall
clock and the HTTP transport are an input trace. Each `Fetch.Step` holds the clock reading
taken by the loop guard and the outcome `http.Get` would have at that moment: a transport
error, or a status code with a body that decodes to a record or does not. The loop's
termination relies on time passing. The model states that as its one precondition: the
trace's last reading is at or past the deadline. `FetchTrafficInfo` also returns the list
of URLs it requested, one per attempt. This makes "no further attempts" observable.

Three behaviours of the code that a caller might not expect are modelled as written:

- A caller might expect the fetcher to return only records that have addresses and rows.
  The code returns whatever a 200 body decodes to. `Report.DecodedRecordIsNotChecked`
  shows such a record coming back as a success and then failing to render.
- A caller might expect every dynamic URL field to be percent-encoded. The code escapes
  the two coordinates but inserts the API key as it is. `Traffic.RequestQueryFields`
  shows that each `&` in the key adds a query field.
- A caller might expect each response body to be closed before the next attempt. The code
  defers every close to the function's return (see "Left out").

## Model

| member | source | states |
|---|---|---|
| `Strings.Split` | util/cli.go:44 | Go's `strings.Split` on one separator: at least one token, even for the empty string (`[""]`); its meaning is fixed by `SplitLength`, `SplitPiecesFree` and `JoinSplit` below |
| `Strings.SplitLength` | util/cli.go:44-45 | `strings.Split` on `","` returns one more token than the string has commas, so "exactly two tokens" means "exactly one comma" |
| `Strings.SplitPiecesFree` | util/cli.go:44 | no token produced by the split contains a comma |
| `Strings.JoinSplit` | util/cli.go:44 | gluing the tokens back together with commas gives the original string, so the split loses nothing |
| `Strings.SplitAtSeparator` | util/cli.go:44 | splitting `a + "," + b` gives the tokens of `a` followed by the tokens of `b` |
| `Strings.SplitNoSeparator` | util/cli.go:44 | a string without the separator is a single token, itself |
| `Strings.SplitTwo` | util/cli.go:44-52 | `x + "," + y`, with no comma in `x` or `y`, splits into exactly `[x, y]`, in that order |
| `Strings.SplitTwoPieces` | util/cli.go:44-52 | conversely, a two-token split comes from a string `t0 + "," + t1` whose tokens hold no comma |
| `Decimal.ParseDecimal` | util/cli.go:52 | the decimal-literal part of `strconv.ParseFloat`, used for the latitude (line 52) and the longitude (line 66): a literal that parses is not empty; a leading `-` gives a value of at most 0, any other literal a value of at least 0 |
| `Decimal.ParseIntString` | util/cli.go:52 | the parser reads the decimal rendering of any integer (sign included) back as that integer |
| `Decimal.ParseFraction` | util/cli.go:52 | a literal `a.d` with a fractional part reads as `a + d / 10^len(d)`, and `-a.d` as its negation |
| `Decimal.FractionBelowOne` | util/cli.go:52 | the fractional part of a literal lies in [0, 1) and is 0 only when its digits are all zeros |
| `Decimal.ParsedLiteralChars` | util/cli.go:52-57 | a token that parses holds only digits, `.` and a leading sign, so a blank or comma makes it "not a number" |
| `Decimal.ParseEmpty` | util/cli.go:52-57 | the empty token is not a number |
| `Coordinates.VerifyCoordinate` | util/cli.go:43-79 | the boolean is true exactly when no error is returned; the malformed error is returned exactly when the input does not have exactly one comma (the empty string included) |
| `Coordinates.VerifyTwoTokens` | util/cli.go:52-78 | for `lat,lon`, the result is valid iff `lat` is a number in [-90, 90] and `lon` a number in [-180, 180]; a bad latitude gives a latitude error whatever the longitude; with a good latitude, a bad longitude gives `LongitudeNotNumber` or `LongitudeOutOfRange` according to whether it parses |
| `Coordinates.ValidExactly` | util/cli.go:43-79 | a string is accepted iff it has one comma at some position, with a valid latitude before it and a valid longitude after it |
| `Coordinates.AcceptedIsValidAt` | util/cli.go:43-79 | an accepted string has its single comma right after the first token, with valid tokens around it |
| `Coordinates.ValidAtIsAccepted` | util/cli.go:43-79 | a string made of a valid latitude, one comma and a valid longitude is accepted |
| `Coordinates.LongitudeErrorMeansLatitudeValid` | util/cli.go:52-76 | a longitude error is only reported when the split gave two tokens and the latitude passed both of its checks |
| `Coordinates.FractionalLatitude` | util/cli.go:52-62 | a latitude token `a.d` or `-a.d` passes both latitude checks exactly when `a < 90`, or `a == 90` and the fraction is all zeros: `90.0` passes, `90.5` does not |
| `Coordinates.IntegerCoordinates` | util/cli.go:58-76 | for integer tokens: ±90 and ±180 are accepted, anything strictly beyond is refused, and the latitude range is checked before the longitude range |
| `Coordinates.NoCommaInIntString` | util/cli.go:44-52 | a rendered integer never contains the separator |
| `Coordinates.BlankIsNotTrimmed` | util/cli.go:52-71 | tokens are not trimmed: with a valid latitude, a blank in the longitude token gives `LongitudeNotNumber` |
| `Coordinates.UpperBoundsAccepted` | util/cli.go:58-76 | `"90,180"` is valid |
| `Coordinates.LowerBoundsAccepted` | util/cli.go:58-76 | `"-90,-180"` is valid |
| `Coordinates.SwappedIsLatitudeError` | util/cli.go:52-62 | tokens are positional: `"180,90"` reads 180 as a latitude and is refused for it |
| `Coordinates.MalformedExamples` | util/cli.go:44-49 | `""`, `"45.5"` and `"1,2,3"` are malformed |
| `Coordinates.CheckArgs` | util/cli.go:28-40 | succeeds exactly when both coordinates are valid; the missing-argument error is reported exactly when an argument is empty, before any coordinate check; with both present, an invalid origin is reported with its own error before the destination is looked at, and with a valid origin an invalid destination is reported with the destination's own error |
| `UrlEscape.HexDigit` | util/map.go:77-78 | the digit written for a value below 16 is `0-9` or upper-case `A-F`, and reads back as that value |
| `UrlEscape.EscapeByte` | util/map.go:77-78 | the per-byte rule of `url.QueryEscape`: one to three characters, all unreserved, `+` or `%`; the byte is kept as itself exactly when it is an unreserved ASCII character, and becomes `+` exactly when it is a blank; every other byte becomes `%` and two upper-case hexadecimal digits whose value is the byte |
| `UrlEscape.EscapeBytes` | util/map.go:77-78 | escaped text is made only of unreserved characters (section 2.3 of RFC 3986), `+` and `%` |
| `UrlEscape.QueryEscape` | util/map.go:77-78 | an escaped coordinate contains no `&`, `=`, `,`, `?`, `#` or blank, so it cannot break the query |
| `UrlEscape.UnescapeEscapeByte` | util/map.go:77-78 | each byte's escape (`c`, `+` or `%XX`) unescapes to exactly that byte |
| `UrlEscape.UnescapeEscapeBytes` | util/map.go:77-78 | unescaping the escaped bytes gives the bytes back |
| `UrlEscape.QueryRoundTrip` | util/map.go:77-78 | `QueryUnescape(QueryEscape(s))` is the UTF-8 encoding of `s`, so escaping of byte sequences is injective |
| `UrlEscape.Utf8Append` | util/map.go:77-78 | the UTF-8 encoding of a concatenation is the concatenation of the encodings |
| `UrlEscape.EscapeBytesAppend` | util/map.go:77-78 | escaping works byte by byte over a concatenation |
| `UrlEscape.EscapeAroundComma` | util/map.go:77-78 | in `lat,lon` the comma always becomes `%2C`, and each token is escaped on its own |
| `UrlEscape.UnreservedUnchanged` | util/map.go:77-78 | a token of unreserved characters, such as `-33.86`, is sent as it is |
| `Traffic.TextValue` | util/map.go:38-41 | `DistanceTextValueObject`: the text of a distance or duration (its float32 value is not modelled) |
| `Traffic.DistanceFare` | util/map.go:43-47 | `DistanceFare`: currency and text (its float32 value is not modelled) |
| `Traffic.DistanceMatrixElement` | util/map.go:30-36 | one origin-to-destination element: status, distance, duration, duration in traffic, fare |
| `Traffic.DistanceMatrixRow` | util/map.go:26-28 | one row of elements |
| `Traffic.DistanceMatrixResponse` | util/map.go:18-24 | the decoded response: destination and origin addresses, rows, status, error message |
| `Traffic.EmptyResponse` | util/map.go:97 | Go's zero value `DistanceMatrixResponse{}`, returned with every error |
| `Traffic.BaseURL` | util/map.go:13 | the Distance Matrix endpoint that every request URL starts with |
| `Fetch.Timeout` | util/map.go:15 | ten seconds, in nanoseconds, added to the start reading to give the deadline |
| `Fetch.StatusOK` | util/map.go:93 | the only status code that ends the loop before the deadline |
| `Traffic.RequestURL` | util/map.go:77-81 | the URL of every attempt; it has no contract of its own, and its field layout is proved by `Traffic.RequestQueryFields` |
| `Traffic.RequestQueryFields` | util/map.go:77-81 | the URL is `baseURL` followed by `&`-separated fields whose count is 4 plus the number of `&` in the key; for a key with no `&`, the fields are exactly `language=en`, `key=<key>`, `origins=<escaped origin>` and `destinations=<escaped destination>`, and each coordinate field unescapes to exactly the coordinate's bytes |
| `Fetch.StopIndex` | util/map.go:86-102 | the loop ends at the first step whose clock reading is at or past the deadline or whose attempt got a 200; no earlier step does either |
| `Fetch.Settle` | util/map.go:93-105 | what the loop returns at the step where it stops: the timeout error exactly when the reading is at or past the deadline; otherwise (a 200) the decode error exactly when the body does not decode, and the decoded record with no error exactly when it does; every error comes with the empty record |
| `Fetch.Outcome` | util/map.go:93-105 | whenever an error is returned, the record is the empty `DistanceMatrixResponse{}` |
| `Fetch.AttemptCount` | util/map.go:85-87 | every request is issued at a clock reading strictly before the deadline |
| `Fetch.FetchTrafficInfo` | util/map.go:76-106 | the deadline is `start + 10 s`, fixed before the first attempt; the loop returns the outcome of the first stopping step; it issues exactly `AttemptCount` requests, all before the deadline and all for the same request URL |
| `Fetch.NeverOKTimesOut` | util/map.go:86-105 | if no attempt gets a 200, the result is the timeout error with the empty record, returned at a reading at or past the deadline |
| `Fetch.RetryIsTransparent` | util/map.go:87-93 | a transport error or a non-200 status before the deadline never ends the loop: it costs one request and leaves the outcome unchanged |
| `Fetch.ShiftStopIndex` | util/map.go:86-102 | prefixing a retried step moves the stopping step by exactly one |
| `Fetch.OKEndsTheLoop` | util/map.go:93-100 | a 200 before the deadline ends the loop after that one request: a decodable body is returned as it decoded, an undecodable one gives the decode error with the empty record |
| `Fetch.RetryThenSuccess` | util/map.go:85-100 | a transport error, then a 500, then a 200 with a body, all before the deadline, return that body after exactly three requests |
| `Report.RowBlock` | util/map.go:59-65 | the text of one `range` iteration; it has no contract of its own, and `Report.RowBlockLines` proves it is the six reference lines |
| `Report.RenderRows` | util/map.go:59-65 | the `range` section fails iff some row has no elements, and it reports the first such row |
| `Report.Render` | util/map.go:51-66 | rendering fails iff `OriginAddr` is empty, or `DestinationAddr` is empty, or some row has no elements; the error is the first of these in template order; an empty `Rows` renders |
| `Report.RowsLines` | util/map.go:59-65 | every row contributes a block of six lines |
| `Report.UnlinesAppend` | util/map.go:51-66 | the text of consecutive runs of lines is the concatenation of their texts |
| `Report.RowBlockLines` | util/map.go:59-65 | one `range` iteration is the six lines: blank, distance, blank, duration, blank, status |
| `Report.HeaderLinesText` | util/map.go:51-58 | the template's header is the eight lines: blank, title, rule, blank, origin, blank, destination, blank |
| `Report.RowsLinesText` | util/map.go:59-65 | with no empty row, the `range` section is the text of all row blocks in row order |
| `Report.RenderIsReportLines` | util/map.go:51-66 | a renderable response gives exactly its reference lines: the header with the first origin and destination addresses, one block per row with the first element's distance text, duration text and status, then a final empty line |
| `Report.RowsReadFirstElementOnly` | util/map.go:59-65 | rows agreeing on emptiness and on their first elements render alike |
| `Report.RenderReadsFirstOnly` | util/map.go:55-64 | only the first origin address, the first destination address and the first element of each row reach the report; later elements, `Status` and `ErrMsg` never do |
| `Report.ExampleReport` | util/map.go:51-66 | origin "A", destination "B" and one element reading "5 km" and "10 mins" give the header, then those lines in that order |
| `Report.DecodedRecordIsNotChecked` | util/map.go:93-115 | a 200 body that decodes to a record without addresses comes back from the loop as a success, and rendering it then fails with the missing-origin error |

## Left out

- HTTP and the wall clock: `http.Get` and `time.Now` (util/map.go:85-87) are the input trace of `Fetch.Step`s. The blocking time of each request, and the fact that one slow request can overrun the deadline, appear only as the readings the trace supplies.
- The `tries` counter (util/map.go:86) is never read and is not modelled. `requests` records the attempts instead.
- `defer response.Body.Close()` (util/map.go:91) only releases bodies when the function returns. Resource release is not modelled.
- JSON decoding (util/map.go:95): a body is either `Decodable(record)` or `Undecodable`. The decoder's field mapping is not modelled.
- The float32 `Value` fields of distance, duration, traffic duration and fare (util/map.go:38-47) are not modelled. The report never prints them.
- The `text/template` engine and the `init` that parses `respTempl` (util/map.go:68-73). The one template's output is modelled directly.
- `fmt.Println` of the report (util/map.go:117), the `log.Fatal*` process exits, flag registration (util/cli.go:17-25) and all of main.go (environment lookup of the API key, call sequencing) are not modelled.
- Error message text is not modelled, only error kinds. This covers two copy-paste slips: the longitude messages print `coord[0]` and the latitude value (util/cli.go:70, 75). It also covers `log.Fatalln` being given a `%v` format (util/cli.go:34).
- Coordinates.VerifyCoordinate: tokens are read as exact decimals (an optional sign, then digits with at most one `.`, at least one digit, so `.5` and `5.` are numbers), not as Go float32 values. Several Go behaviours are therefore not captured:
  - rounding (`90.000001` rounds to 90 and is accepted by Go);
  - exponents, hexadecimal floats, `Inf` and underscores, which Go accepts;
  - `NaN`, which Go parses and which passes both range checks because every comparison with it is false;
  - magnitudes beyond float32, which Go reports as "not a number" and the model reports as out of range.
- Go strings are byte sequences; here they are sequences of Unicode characters. Argument bytes that are not valid UTF-8 cannot be expressed. Splitting on the ASCII comma and escaping the UTF-8 bytes behave as in Go for every string that can be expressed.
- Fetch.FetchTrafficInfo: requires the trace to reach the deadline. The Go loop has no such guarantee beyond real time passing.
