/** The report `PrintTrafficInfo` prints: the output of the fixed `respTempl` template. */
module Report {
  import opened Wrappers
  import opened Strings
  import opened Traffic
  import Fetch

  /** Where template execution stops: an `index ... 0` on an empty slice. */
  datatype RenderError =
    | MissingOrigin               // `index .OriginAddr 0`
    | MissingDestination          // `index .DestinationAddr 0`
    | MissingElement(row: nat)    // `index .Elements 0` in that row

  const Title := "Traffic Information:"
  const Rule := "--------------------"
  const OriginLabel := "Origin:         "
  const DestinationLabel := "Destination:    "
  const DistanceLabel := "    *Distance:  "
  const DurationLabel := "    *Duration:  "
  const StatusLabel := "    *Status:    "

  /** The body of `{{range .Rows}}` for one row, whose first element is `e`. */
  function RowBlock(e: DistanceMatrixElement): string
  {
    "\n" + DistanceLabel + e.distance.text + "\n\n" + DurationLabel + e.duration.text
      + "\n\n" + StatusLabel + e.status + "\n"
  }

  /** The `{{range .Rows}}` section; `Err(i)` when row `i` is the first without elements. */
  function RenderRows(rows: seq<DistanceMatrixRow>): (r: Result<string, nat>)
    ensures r.Err? <==> exists i :: 0 <= i < |rows| && rows[i].elements == []
    ensures r.Err? ==>
      && r.error < |rows| && rows[r.error].elements == []
      && forall j :: 0 <= j < r.error ==> rows[j].elements != []
  {
    if rows == [] then Ok("")
    else if rows[0].elements == [] then Err(0)
    else
      match RenderRows(rows[1..])
      case Ok(rest) => Ok(RowBlock(rows[0].elements[0]) + rest)
      case Err(i) => Err(i + 1)
  }

  /** Executing `respTempl` on a response: the text, or the first failing `index`. */
  function Render(resp: DistanceMatrixResponse): (r: Result<string, RenderError>)
    ensures r.Err? <==>
      || resp.originAddr == []
      || resp.destinationAddr == []
      || exists i :: 0 <= i < |resp.rows| && resp.rows[i].elements == []
    ensures resp.originAddr == [] ==> r == Err(MissingOrigin)
    ensures resp.originAddr != [] && resp.destinationAddr == [] ==> r == Err(MissingDestination)
    ensures r.Err? && r.error.MissingElement? ==>
      && resp.originAddr != [] && resp.destinationAddr != []
      && r.error.row < |resp.rows| && resp.rows[r.error.row].elements == []
      && forall j :: 0 <= j < r.error.row ==> resp.rows[j].elements != []
  {
    if resp.originAddr == [] then Err(MissingOrigin)
    else if resp.destinationAddr == [] then Err(MissingDestination)
    else
      match RenderRows(resp.rows)
      case Err(i) => Err(MissingElement(i))
      case Ok(blocks) =>
        Ok("\n" + Title + "\n" + Rule + "\n\n" + OriginLabel + resp.originAddr[0]
          + "\n\n" + DestinationLabel + resp.destinationAddr[0] + "\n\n" + blocks + "\n")
  }

  // Reference layout: the report as a list of lines, each ending in a newline.

  function Unlines(lines: seq<string>): string
  {
    if lines == [] then "" else lines[0] + "\n" + Unlines(lines[1..])
  }

  function HeaderLines(origin: string, destination: string): seq<string>
  {
    ["", Title, Rule, "", OriginLabel + origin, "", DestinationLabel + destination, ""]
  }

  function RowLines(e: DistanceMatrixElement): seq<string>
  {
    ["", DistanceLabel + e.distance.text, "", DurationLabel + e.duration.text, "",
     StatusLabel + e.status]
  }

  /** The lines of all row blocks, in row order. */
  function RowsLines(rows: seq<DistanceMatrixRow>): (lines: seq<string>)
    requires forall i :: 0 <= i < |rows| ==> rows[i].elements != []
    ensures |lines| == 6 * |rows|
  {
    if rows == [] then [] else RowLines(rows[0].elements[0]) + RowsLines(rows[1..])
  }

  /** The report a renderable response should give: header, row blocks, one empty line. */
  function ReportLines(resp: DistanceMatrixResponse): seq<string>
    requires resp.originAddr != [] && resp.destinationAddr != []
    requires forall i :: 0 <= i < |resp.rows| ==> resp.rows[i].elements != []
  {
    HeaderLines(resp.originAddr[0], resp.destinationAddr[0]) + RowsLines(resp.rows) + [""]
  }

  lemma {:induction false} UnlinesAppend(a: seq<string>, b: seq<string>)
    ensures Unlines(a + b) == Unlines(a) + Unlines(b)
  {
    if a == [] {
      assert a + b == b;
    } else {
      assert (a + b)[0] == a[0] && (a + b)[1..] == a[1..] + b;
      UnlinesAppend(a[1..], b);
    }
  }

  /** One unfolding of `Unlines` at position `k`. */
  lemma {:induction false} UnlinesAt(lines: seq<string>, k: nat)
    requires k < |lines|
    ensures Unlines(lines[k..]) == lines[k] + "\n" + Unlines(lines[k + 1..])
  {
    assert lines[k..][1..] == lines[k + 1..];
  }

  lemma {:induction false} RowBlockLines(e: DistanceMatrixElement)
    ensures Unlines(RowLines(e)) == RowBlock(e)
  {
    BlockText(DistanceLabel, e.distance.text, DurationLabel, e.duration.text,
      StatusLabel, e.status);
  }

  /** The six lines of a row block, with any labels and values, as one text. */
  lemma {:induction false} BlockText(dl: string, dt: string, ul: string, ut: string,
                                     sl: string, st: string)
    ensures Unlines(["", dl + dt, "", ul + ut, "", sl + st])
      == "\n" + dl + dt + "\n\n" + ul + ut + "\n\n" + sl + st + "\n"
  {
    var ls := ["", dl + dt, "", ul + ut, "", sl + st];
    var d, u, s := dl + dt, ul + ut, sl + st;
    calc {
      Unlines(ls);
      { UnlinesAt(ls, 0); assert ls[0..] == ls; }
      "" + "\n" + Unlines(ls[1..]);
      { UnlinesAt(ls, 1); }
      "" + "\n" + (d + "\n" + Unlines(ls[2..]));
      { UnlinesAt(ls, 2); }
      "" + "\n" + (d + "\n" + ("" + "\n" + Unlines(ls[3..])));
      { UnlinesAt(ls, 3); }
      "" + "\n" + (d + "\n" + ("" + "\n" + (u + "\n" + Unlines(ls[4..]))));
      { UnlinesAt(ls, 4); }
      "" + "\n" + (d + "\n" + ("" + "\n" + (u + "\n" + ("" + "\n" + Unlines(ls[5..])))));
      { UnlinesAt(ls, 5); assert ls[6..] == []; }
      "" + "\n" + (d + "\n" + ("" + "\n" + (u + "\n" + ("" + "\n" + (s + "\n" + "")))));
      { BlockShape("\n", dl, dt, ul, ut, sl, st); assert "\n\n" == "\n" + "\n"; }
      "\n" + dl + dt + "\n\n" + ul + ut + "\n\n" + sl + st + "\n";
    }
  }

  /** Regrouping of the row block's six lines into the template's layout. */
  lemma {:induction false} BlockShape(nl: string, dl: string, dt: string, ul: string, ut: string, sl: string, st: string)
    ensures "" + nl + (dl + dt + nl + ("" + nl + (ul + ut + nl + ("" + nl + (sl + st + nl + "")))))
      == nl + dl + dt + (nl + nl) + ul + ut + (nl + nl) + sl + st + nl
  {
  }

  lemma {:induction false} HeaderLinesText(origin: string, destination: string)
    ensures Unlines(HeaderLines(origin, destination))
      == "\n" + Title + "\n" + Rule + "\n\n" + OriginLabel + origin
         + "\n\n" + DestinationLabel + destination + "\n\n"
  {
    HeaderText(Title, Rule, OriginLabel, origin, DestinationLabel, destination);
  }

  /** The eight header lines, with any title, rule, labels and addresses, as one text. */
  lemma {:induction false} HeaderText(t: string, r: string, ol: string, o: string,
                                      dl: string, d: string)
    ensures Unlines(["", t, r, "", ol + o, "", dl + d, ""])
      == "\n" + t + "\n" + r + "\n\n" + ol + o + "\n\n" + dl + d + "\n\n"
  {
    var ls := ["", t, r, "", ol + o, "", dl + d, ""];
    var p, q := ol + o, dl + d;
    calc {
      Unlines(ls);
      { UnlinesAt(ls, 0); assert ls[0..] == ls; }
      "" + "\n" + Unlines(ls[1..]);
      { UnlinesAt(ls, 1); }
      "" + "\n" + (t + "\n" + Unlines(ls[2..]));
      { UnlinesAt(ls, 2); }
      "" + "\n" + (t + "\n" + (r + "\n" + Unlines(ls[3..])));
      { UnlinesAt(ls, 3); }
      "" + "\n" + (t + "\n" + (r + "\n" + ("" + "\n" + Unlines(ls[4..]))));
      { UnlinesAt(ls, 4); }
      "" + "\n" + (t + "\n" + (r + "\n" + ("" + "\n" + (p + "\n" + Unlines(ls[5..])))));
      { UnlinesAt(ls, 5); }
      "" + "\n" + (t + "\n" + (r + "\n" + ("" + "\n" + (p + "\n" + ("" + "\n"
        + Unlines(ls[6..]))))));
      { UnlinesAt(ls, 6); }
      "" + "\n" + (t + "\n" + (r + "\n" + ("" + "\n" + (p + "\n" + ("" + "\n"
        + (q + "\n" + Unlines(ls[7..])))))));
      { UnlinesAt(ls, 7); assert ls[8..] == []; }
      "" + "\n" + (t + "\n" + (r + "\n" + ("" + "\n" + (p + "\n" + ("" + "\n"
        + (q + "\n" + ("" + "\n" + "")))))));
      { HeaderShape("\n", t, r, ol, o, dl, d); assert "\n\n" == "\n" + "\n"; }
      "\n" + t + "\n" + r + "\n\n" + ol + o + "\n\n" + dl + d + "\n\n";
    }
  }

  /** Regrouping of the header's eight lines into the template's layout. */
  lemma {:induction false} HeaderShape(nl: string, t: string, r: string, ol: string, o: string, dl: string, d: string)
    ensures "" + nl + (t + nl + (r + nl + ("" + nl + (ol + o + nl + ("" + nl
        + (dl + d + nl + ("" + nl + "")))))))
      == nl + t + nl + r + (nl + nl) + ol + o + (nl + nl) + dl + d + (nl + nl)
  {
  }

  lemma {:induction false} RowsLinesText(rows: seq<DistanceMatrixRow>)
    requires forall i :: 0 <= i < |rows| ==> rows[i].elements != []
    ensures RenderRows(rows).Ok?
    ensures Unlines(RowsLines(rows)) == RenderRows(rows).value
  {
    if rows != [] {
      var e := rows[0].elements[0];
      RowsLinesText(rows[1..]);
      UnlinesAppend(RowLines(e), RowsLines(rows[1..]));
      RowBlockLines(e);
    }
  }

  /** A renderable response gives exactly its reference lines: the header with the first
      origin and destination addresses, then one block per row with the first element's
      distance, duration and status, in row order, then an empty line. */
  lemma {:induction false} RenderIsReportLines(resp: DistanceMatrixResponse)
    requires resp.originAddr != [] && resp.destinationAddr != []
    requires forall i :: 0 <= i < |resp.rows| ==> resp.rows[i].elements != []
    ensures Render(resp) == Ok(Unlines(ReportLines(resp)))
  {
    var h := HeaderLines(resp.originAddr[0], resp.destinationAddr[0]);
    var b := RowsLines(resp.rows);
    RowsLinesText(resp.rows);
    HeaderLinesText(resp.originAddr[0], resp.destinationAddr[0]);
    UnlinesAppend(h + b, [""]);
    UnlinesAppend(h, b);
    UnlinesAt([""], 0);
    assert [""][0..] == [""] && [""][1..] == [];
    assert Unlines(ReportLines(resp)) == Unlines(h) + Unlines(b) + "\n";
  }

  /** Rows agree on what the template reads: the same emptiness and, when not empty, the
      same first element. */
  predicate SameFirstElements(a: seq<DistanceMatrixRow>, b: seq<DistanceMatrixRow>)
  {
    |a| == |b| && forall i :: 0 <= i < |a| ==>
      (a[i].elements == [] <==> b[i].elements == [])
      && (a[i].elements != [] ==> a[i].elements[0] == b[i].elements[0])
  }

  lemma {:induction false} RowsReadFirstElementOnly(a: seq<DistanceMatrixRow>, b: seq<DistanceMatrixRow>)
    requires SameFirstElements(a, b)
    ensures RenderRows(a) == RenderRows(b)
  {
    if a != [] {
      assert SameFirstElements(a[1..], b[1..]) by {
        forall i | 0 <= i < |a| - 1
          ensures (a[1..][i].elements == [] <==> b[1..][i].elements == [])
            && (a[1..][i].elements != [] ==> a[1..][i].elements[0] == b[1..][i].elements[0])
        {
          assert a[1..][i] == a[i + 1] && b[1..][i] == b[i + 1];
        }
      }
      RowsReadFirstElementOnly(a[1..], b[1..]);
    }
  }

  /** Only the first address of each list and the first element of each row reach the
      report; the status, the error message, later addresses and later elements never do. */
  lemma {:induction false} RenderReadsFirstOnly(r1: DistanceMatrixResponse, r2: DistanceMatrixResponse)
    requires |r1.originAddr| > 0 <==> |r2.originAddr| > 0
    requires |r1.destinationAddr| > 0 <==> |r2.destinationAddr| > 0
    requires |r1.originAddr| > 0 ==> r1.originAddr[0] == r2.originAddr[0]
    requires |r1.destinationAddr| > 0 ==> r1.destinationAddr[0] == r2.destinationAddr[0]
    requires SameFirstElements(r1.rows, r2.rows)
    ensures Render(r1) == Render(r2)
  {
    RowsReadFirstElementOnly(r1.rows, r2.rows);
  }

  /** One origin "A", one destination "B", one row whose element reads "5 km", "10 mins". */
  lemma {:induction false} ExampleReport(status: string)
    ensures var e := DistanceMatrixElement(status, TextValue("5 km"), TextValue("10 mins"),
                                           TextValue(""), DistanceFare("", ""));
      var resp := DistanceMatrixResponse(["B"], ["A"], [DistanceMatrixRow([e])], "OK", "");
      Render(resp) == Ok(Unlines(["", Title, Rule, "", OriginLabel + "A", "",
        DestinationLabel + "B", "", "", DistanceLabel + "5 km", "", DurationLabel + "10 mins",
        "", StatusLabel + status, ""]))
  {
    var e := DistanceMatrixElement(status, TextValue("5 km"), TextValue("10 mins"),
                                   TextValue(""), DistanceFare("", ""));
    var resp := DistanceMatrixResponse(["B"], ["A"], [DistanceMatrixRow([e])], "OK", "");
    RenderIsReportLines(resp);
    assert resp.rows[1..] == [];
    assert RowsLines(resp.rows) == RowLines(e);
    assert ReportLines(resp) == HeaderLines("A", "B") + RowLines(e) + [""];
    assert HeaderLines("A", "B") + RowLines(e) + [""] == ["", Title, Rule, "", OriginLabel + "A", "",
      DestinationLabel + "B", "", "", DistanceLabel + "5 km", "", DurationLabel + "10 mins",
      "", StatusLabel + status, ""];
  }

  /** The fetch loop hands over whatever a 200 body decodes to: a record without
      addresses comes back as a success and then fails to render. */
  lemma {:induction false} DecodedRecordIsNotChecked(t: int, later: seq<Fetch.Step>, deadline: int)
    requires t < deadline && Fetch.ReachesDeadline(later, deadline)
    ensures var ok := Fetch.Step(t, Fetch.HttpResponse(Fetch.StatusOK, Fetch.Decodable(EmptyResponse)));
      && Fetch.Outcome([ok] + later, deadline) == (EmptyResponse, None)
      && Render(EmptyResponse) == Err(MissingOrigin)
  {
    var ok := Fetch.Step(t, Fetch.HttpResponse(Fetch.StatusOK, Fetch.Decodable(EmptyResponse)));
    Fetch.OKEndsTheLoop(ok, later, deadline);
  }
}
