/** The Distance Matrix response records and the request URL of `FetchTrafficInfo`. */
module Traffic {
  import opened Wrappers
  import opened Strings
  import opened UrlEscape

  /** `DistanceTextValueObject`; its float32 `Value` is not modelled. */
  datatype TextValue = TextValue(text: string)

  /** `DistanceFare`; its float32 `Value` is not modelled. */
  datatype DistanceFare = DistanceFare(currency: string, text: string)

  datatype DistanceMatrixElement = DistanceMatrixElement(
    status: string,
    distance: TextValue,
    duration: TextValue,
    trafficDuration: TextValue,
    fare: DistanceFare)

  datatype DistanceMatrixRow = DistanceMatrixRow(elements: seq<DistanceMatrixElement>)

  datatype DistanceMatrixResponse = DistanceMatrixResponse(
    destinationAddr: seq<string>,
    originAddr: seq<string>,
    rows: seq<DistanceMatrixRow>,
    status: string,
    errMsg: string)

  /** Go's zero value `DistanceMatrixResponse{}`. */
  const EmptyResponse := DistanceMatrixResponse([], [], [], "", "")

  const BaseURL := "https://maps.googleapis.com/maps/api/distancematrix/json?"

  /** The URL of every attempt: fixed language, the key as given, both coordinates escaped. */
  function RequestURL(apiKey: string, origin: string, destination: string): string
  {
    BaseURL + "language=en" + "&key=" + apiKey + "&origins=" + QueryEscape(origin)
      + "&destinations=" + QueryEscape(destination)
  }

  /** The query after `BaseURL` has four `&`-separated fields when the key holds no `&`;
      the coordinates unescape to exactly the bytes given. The key is not escaped, so each
      `&` in it adds a field. */
  lemma {:induction false} RequestQueryFields(apiKey: string, origin: string, destination: string)
    ensures var url := RequestURL(apiKey, origin, destination);
      && url[..|BaseURL|] == BaseURL
      && |Split(url[|BaseURL|..], '&')| == 4 + Count(apiKey, '&')
    ensures '&' !in apiKey ==>
      var fields := Split(RequestURL(apiKey, origin, destination)[|BaseURL|..], '&');
      && fields == ["language=en", "key=" + apiKey, "origins=" + QueryEscape(origin),
                    "destinations=" + QueryEscape(destination)]
      && QueryUnescape(fields[2][|"origins="|..]) == Some(Utf8(origin))
      && QueryUnescape(fields[3][|"destinations="|..]) == Some(Utf8(destination))
  {
    var eo, ed := QueryEscape(origin), QueryEscape(destination);
    var f1, f2, f3, f4 := "language=en", "key=" + apiKey, "origins=" + eo, "destinations=" + ed;
    UrlLayout(apiKey, origin, destination);
    NoSeparatorAfterName("origins=", eo);
    NoSeparatorAfterName("destinations=", ed);
    KeyFieldCount(apiKey);
    FourFieldCount(f1, f2, f3, f4);
    if '&' !in apiKey {
      CountZero(apiKey, '&');
      CountZero(f2, '&');
      FourFields(f1, f2, f3, f4);
      QueryRoundTrip(origin);
      QueryRoundTrip(destination);
    }
  }

  lemma {:induction false} UrlLayout(apiKey: string, origin: string, destination: string)
    ensures var url := RequestURL(apiKey, origin, destination);
      && url[..|BaseURL|] == BaseURL
      && url[|BaseURL|..] == "language=en" + ['&'] + ("key=" + apiKey)
           + ['&'] + ("origins=" + QueryEscape(origin))
           + ['&'] + ("destinations=" + QueryEscape(destination))
  {
    var eo, ed := QueryEscape(origin), QueryEscape(destination);
    var query := "language=en" + ['&'] + ("key=" + apiKey) + ['&'] + ("origins=" + eo)
      + ['&'] + ("destinations=" + ed);
    QueryLayout(apiKey, eo, ed);
    AfterBase(query);
  }

  lemma {:induction false} QueryLayout(key: string, eo: string, ed: string)
    ensures BaseURL + "language=en" + "&key=" + key + "&origins=" + eo + "&destinations=" + ed
      == BaseURL + ("language=en" + ['&'] + ("key=" + key) + ['&'] + ("origins=" + eo)
           + ['&'] + ("destinations=" + ed))
  {
    var amp: string := ['&'];
    assert "&key=" == amp + "key=";
    assert "&origins=" == amp + "origins=";
    assert "&destinations=" == amp + "destinations=";
    Regroup(BaseURL, "language=en", amp, "key=", key, "origins=", eo, "destinations=", ed);
  }

  /** The URL's pieces regrouped into `base` and three `amp`-separated fields after it. */
  lemma {:induction false} Regroup(base: string, f1: string, amp: string, k: string, key: string,
                                   o: string, eo: string, d: string, ed: string)
    ensures base + f1 + (amp + k) + key + (amp + o) + eo + (amp + d) + ed
      == base + (f1 + amp + (k + key) + amp + (o + eo) + amp + (d + ed))
  {
  }

  lemma {:induction false} AfterBase(query: string)
    ensures (BaseURL + query)[..|BaseURL|] == BaseURL && (BaseURL + query)[|BaseURL|..] == query
  {
  }

  /** A field `name=value` whose name and value hold no `&` holds none either, and the
      value is what follows the name. */
  lemma {:induction false} NoSeparatorAfterName(name: string, value: string)
    requires '&' !in name && '&' !in value
    ensures '&' !in name + value && (name + value)[|name|..] == value
  {
  }

  lemma {:induction false} KeyFieldCount(apiKey: string)
    ensures Count("key=" + apiKey, '&') == Count(apiKey, '&')
  {
    CountAppend("key=", apiKey, '&');
  }

  lemma {:induction false} FourFieldCount(f1: string, f2: string, f3: string, f4: string)
    requires '&' !in f1 && '&' !in f3 && '&' !in f4
    ensures |Split(f1 + ['&'] + f2 + ['&'] + f3 + ['&'] + f4, '&')| == 4 + Count(f2, '&')
  {
    var query := f1 + ['&'] + f2 + ['&'] + f3 + ['&'] + f4;
    SplitLength(query, '&');
    assert query == f1 + (['&'] + f2) + (['&'] + f3) + (['&'] + f4);
    CountAppend(f1 + (['&'] + f2) + (['&'] + f3), ['&'] + f4, '&');
    CountAppend(f1 + (['&'] + f2), ['&'] + f3, '&');
    CountAppend(f1, ['&'] + f2, '&');
    CountAppend(['&'], f2, '&');
    CountAppend(['&'], f3, '&');
    CountAppend(['&'], f4, '&');
    CountZero(f1, '&');
    CountZero(f3, '&');
    CountZero(f4, '&');
  }

  lemma {:induction false} FourFields(f1: string, f2: string, f3: string, f4: string)
    requires '&' !in f1 && '&' !in f2 && '&' !in f3 && '&' !in f4
    ensures Split(f1 + ['&'] + f2 + ['&'] + f3 + ['&'] + f4, '&') == [f1, f2, f3, f4]
  {
    SplitAtSeparator(f1 + ['&'] + f2 + ['&'] + f3, f4, '&');
    SplitAtSeparator(f1 + ['&'] + f2, f3, '&');
    SplitAtSeparator(f1, f2, '&');
    SplitNoSeparator(f1, '&');
    SplitNoSeparator(f2, '&');
    SplitNoSeparator(f3, '&');
    SplitNoSeparator(f4, '&');
  }
}
