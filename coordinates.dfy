/** The command-line coordinate checks: `verifyCoordinate` and the decision order of
    `CheckArgs`, with the two coordinate strings passed explicitly. */
module Coordinates {
  import opened Wrappers
  import opened Strings
  import opened Decimal

  /** The error kinds `verifyCoordinate` can report (the message text is not modelled). */
  datatype CoordinateError =
    | Malformed             // not exactly two comma-separated tokens
    | LatitudeNotNumber     // token 0 does not parse as a number
    | LatitudeOutOfRange    // token 0 parses to a value outside [-90, 90]
    | LongitudeNotNumber    // token 1 does not parse as a number
    | LongitudeOutOfRange   // token 1 parses to a value outside [-180, 180]

  predicate IsLatitudeError(e: CoordinateError)
  {
    e.LatitudeNotNumber? || e.LatitudeOutOfRange?
  }

  /** A latitude token: a number in the closed interval [-90, 90]. */
  predicate ValidLatitude(token: string)
  {
    match ParseDecimal(token)
    case None => false
    case Some(x) => -90.0 <= x <= 90.0
  }

  /** A longitude token: a number in the closed interval [-180, 180]. */
  predicate ValidLongitude(token: string)
  {
    match ParseDecimal(token)
    case None => false
    case Some(y) => -180.0 <= y <= 180.0
  }

  /** `verifyCoordinate`: Go's `(bool, error)` pair, checks in source order with an
      early return at the first that fails. */
  function VerifyCoordinate(coordinate: string): (r: (bool, Option<CoordinateError>))
    ensures r.0 <==> r.1 == None
    ensures r.1 == Some(Malformed) <==> Count(coordinate, ',') != 1
  {
    SplitLength(coordinate, ',');
    var coord := Split(coordinate, ',');
    if |coord| != 2 then
      (false, Some(Malformed))
    else
      match ParseDecimal(coord[0])
      case None => (false, Some(LatitudeNotNumber))
      case Some(latitude) =>
        if latitude > 90.0 || latitude < -90.0 then
          (false, Some(LatitudeOutOfRange))
        else
          match ParseDecimal(coord[1])
          case None => (false, Some(LongitudeNotNumber))
          case Some(longitude) =>
            if longitude > 180.0 || longitude < -180.0 then
              (false, Some(LongitudeOutOfRange))
            else
              (true, None)
  }

  /** On a string with exactly one comma, the token before it is the latitude and the
      token after it the longitude, both taken as they are; the latitude is judged first. */
  lemma {:induction false} VerifyTwoTokens(lat: string, lon: string)
    requires ',' !in lat && ',' !in lon
    ensures var r := VerifyCoordinate(lat + [','] + lon);
      && (r.0 <==> ValidLatitude(lat) && ValidLongitude(lon))
      && (!ValidLatitude(lat) ==> r.1.Some? && IsLatitudeError(r.1.value))
      && (ValidLatitude(lat) && !ValidLongitude(lon) ==>
            r.1 == Some(if ParseDecimal(lon).None? then LongitudeNotNumber else LongitudeOutOfRange))
      && (!ValidLatitude(lat) ==>
            r.1 == Some(if ParseDecimal(lat).None? then LatitudeNotNumber else LatitudeOutOfRange))
  {
    SplitTwo(lat, lon, ',');
  }

  /** `s` reads as `lat,lon` with the single comma at position `i` and both tokens valid. */
  predicate ValidAt(s: string, i: int)
  {
    0 <= i < |s| && s[i] == ',' && ',' !in s[..i] && ',' !in s[i + 1..]
    && ValidLatitude(s[..i]) && ValidLongitude(s[i + 1..])
  }

  /** A coordinate is accepted exactly when it is `lat,lon` with one comma, a latitude in
      [-90, 90] before it and a longitude in [-180, 180] after it. */
  lemma {:induction false} ValidExactly(s: string)
    ensures VerifyCoordinate(s).0 <==> exists i :: ValidAt(s, i)
  {
    if VerifyCoordinate(s).0 {
      AcceptedIsValidAt(s);
    }
    if exists i :: ValidAt(s, i) {
      var i :| ValidAt(s, i);
      ValidAtIsAccepted(s, i);
    }
  }

  lemma {:induction false} AcceptedIsValidAt(s: string)
    requires VerifyCoordinate(s).0
    ensures ValidAt(s, |Split(s, ',')[0]|)
  {
    var parts := Split(s, ',');
    SplitTwoPieces(s, ',');
    var i := |parts[0]|;
    assert s[..i] == parts[0] && s[i + 1..] == parts[1];
    VerifyTwoTokens(parts[0], parts[1]);
  }

  lemma {:induction false} ValidAtIsAccepted(s: string, i: int)
    requires ValidAt(s, i)
    ensures VerifyCoordinate(s).0
  {
    var lat, lon := s[..i], s[i + 1..];
    CutAt(s, i);
    VerifyTwoTokens(lat, lon);
  }

  lemma {:induction false} CutAt(s: string, i: int)
    requires 0 <= i < |s|
    ensures s == s[..i] + [s[i]] + s[i + 1..]
  {
  }

  /** Latitudes with a fractional part: `a.d` (or `-a.d`) is within range exactly when
      `a < 90`, or `a == 90` and the fraction is all zeros, so `90.0` passes and `90.5` does
      not. */
  lemma {:induction false} FractionalLatitude(a: nat, d: string)
    requires AllDigits(d)
    ensures ValidLatitude(NatString(a) + "." + d) <==> a < 90 || (a == 90 && DigitsValue(d) == 0)
    ensures ValidLatitude("-" + (NatString(a) + "." + d)) <==> a < 90 || (a == 90 && DigitsValue(d) == 0)
  {
    ParseFraction(a, d);
    FractionBelowOne(d);
  }

  /** A longitude error is only ever reported after the latitude has passed. */
  lemma {:induction false} LongitudeErrorMeansLatitudeValid(s: string)
    requires VerifyCoordinate(s).1.Some? && !IsLatitudeError(VerifyCoordinate(s).1.value)
    requires VerifyCoordinate(s).1 != Some(Malformed)
    ensures |Split(s, ',')| == 2
    ensures ValidLatitude(Split(s, ',')[0]) && !ValidLongitude(Split(s, ',')[1])
  {
  }

  /** Integer coordinates: both bounds are inclusive, anything beyond them is refused, and
      the first token is always read as the latitude. */
  lemma {:induction false} IntegerCoordinates(x: int, y: int)
    ensures VerifyCoordinate(IntString(x) + [','] + IntString(y)) ==
      if x < -90 || x > 90 then (false, Some(LatitudeOutOfRange))
      else if y < -180 || y > 180 then (false, Some(LongitudeOutOfRange))
      else (true, None)
  {
    NoCommaInIntString(x);
    NoCommaInIntString(y);
    ParseIntString(x);
    ParseIntString(y);
    VerifyTwoTokens(IntString(x), IntString(y));
  }

  lemma {:induction false} NoCommaInIntString(n: int)
    ensures ',' !in IntString(n)
  {
    var s := IntString(n);
    if ',' in s {
      var i :| 0 <= i < |s| && s[i] == ',';
      ParseIntString(n);
      ParsedLiteralChars(s, i);
    }
  }

  /** Tokens are not trimmed: a blank anywhere in a token makes it "not a number", so
      `"45, 90"` is refused for its longitude. */
  lemma {:induction false} BlankIsNotTrimmed(lat: string, lon: string)
    requires ',' !in lat && ',' !in lon
    requires ValidLatitude(lat) && ' ' in lon
    ensures VerifyCoordinate(lat + [','] + lon) == (false, Some(LongitudeNotNumber))
  {
    if ParseDecimal(lon).Some? {
      var i :| 0 <= i < |lon| && lon[i] == ' ';
      ParsedLiteralChars(lon, i);
    }
    VerifyTwoTokens(lat, lon);
  }

  lemma {:induction false} BoundaryStrings()
    ensures IntString(90) == "90" && IntString(180) == "180"
    ensures IntString(-90) == "-90" && IntString(-180) == "-180"
  {
    assert NatString(9) == "9" && NatString(1) == "1";
    assert NatString(18) == "18";
  }

  /** The bounds themselves are accepted. */
  lemma {:induction false} UpperBoundsAccepted()
    ensures VerifyCoordinate("90,180") == (true, None)
  {
    BoundaryStrings();
    IntegerCoordinates(90, 180);
    assert IntString(90) + [','] + IntString(180) == "90,180";
  }

  lemma {:induction false} LowerBoundsAccepted()
    ensures VerifyCoordinate("-90,-180") == (true, None)
  {
    BoundaryStrings();
    IntegerCoordinates(-90, -180);
    assert IntString(-90) + [','] + IntString(-180) == "-90,-180";
  }

  /** The tokens are positional: the valid pair "90,180" swapped is a latitude error. */
  lemma {:induction false} SwappedIsLatitudeError()
    ensures VerifyCoordinate("180,90") == (false, Some(LatitudeOutOfRange))
  {
    BoundaryStrings();
    IntegerCoordinates(180, 90);
    assert IntString(180) + [','] + IntString(90) == "180,90";
  }

  /** A string with no comma, or with two, is malformed whatever else it holds. */
  lemma {:induction false} MalformedExamples()
    ensures VerifyCoordinate("") == (false, Some(Malformed))
    ensures VerifyCoordinate("45.5") == (false, Some(Malformed))
    ensures VerifyCoordinate("1,2,3") == (false, Some(Malformed))
  {
    assert Count("1,2,3", ',') == 2;
  }

  /** Errors `CheckArgs` stops the program with. */
  datatype ArgsError =
    | MissingArgument                  // origin or destination is the empty string
    | BadOrigin(cause: CoordinateError)
    | BadDestination(cause: CoordinateError)

  /** `CheckArgs`: both arguments must be present; then the origin is verified, then the
      destination. `None` means the program goes on. */
  function CheckArgs(origin: string, destination: string): (r: Option<ArgsError>)
    ensures r == None <==> VerifyCoordinate(origin).0 && VerifyCoordinate(destination).0
    ensures origin == "" || destination == "" ==> r == Some(MissingArgument)
    ensures origin != "" && destination != "" && !VerifyCoordinate(origin).0 ==>
      r == Some(BadOrigin(VerifyCoordinate(origin).1.value))
    ensures (origin != "" && destination != "" && VerifyCoordinate(origin).0
             && !VerifyCoordinate(destination).0) ==>
      r == Some(BadDestination(VerifyCoordinate(destination).1.value))
    ensures r.Some? && r.value.BadDestination? ==> VerifyCoordinate(origin).0
    ensures r == Some(MissingArgument) ==> origin == "" || destination == ""
  {
    if origin == "" || destination == "" then
      Some(MissingArgument)
    else
      var (validOrigin, errOrigin) := VerifyCoordinate(origin);
      if !validOrigin then
        Some(BadOrigin(errOrigin.value))
      else
        var (validDestination, errDestination) := VerifyCoordinate(destination);
        if !validDestination then Some(BadDestination(errDestination.value)) else None
  }
}
