/** The feed side of the fetch step: the query window, the GeoJSON document
    the USGS service answers with, the mapping of each feature to one CSV
    record, and the staging file's name and path. */
module Feed {
  import opened Wrappers
  import opened Errors
  import opened Calendar

  /** The `properties` of a feature; `.get` gives None for a missing key. */
  datatype Properties = Properties(time: Option<int>, place: Option<string>, mag: Option<real>)

  /** A feature; None stands for a missing or null `properties` or
      `geometry`, either of which makes the mapping raise. A coordinate may
      itself be a JSON `null`. */
  datatype Feature = Feature(properties: Option<Properties>, coordinates: Option<seq<Option<real>>>)

  /** What `response.json()` yields; `features` is None when the key is
      missing or null. */
  datatype Document = NotJson | NotAnObject | Object(features: Option<seq<Feature>>)

  /** The outcome of `requests.get(url, timeout=30)` and `raise_for_status()`:
      a transport error or a non-success status, or a body. */
  datatype FeedResponse = RequestFailed(reason: string) | Received(body: Document)

  /** One row of the staged CSV file. */
  datatype Record = Record(
    time: Option<int>,
    place: Option<string>,
    magnitude: Option<real>,
    longitude: Option<real>,
    latitude: Option<real>,
    depth: Option<real>,
    fileName: string)

  /** What the fetch step leaves behind: nothing, or a file at `path`. */
  datatype Staged = NothingStaged | Staged(path: string, records: seq<Record>)

  const DataPath := "./data"
  const FileSuffix := "_earthquakedata.csv"
  const QueryPrefix := "https://earthquake.usgs.gov/fdsnws/event/1/query?format=geojson&starttime="

  function QueryUrl(startTime: string, endTime: string): string {
    QueryPrefix + startTime + "&endtime=" + endTime
  }

  /** `s.replace('-', '')`. */
  function WithoutDashes(s: string): (r: string)
    ensures '-' !in r && |r| <= |s|
  {
    if s == [] then []
    else (if s[0] == '-' then [] else [s[0]]) + WithoutDashes(s[1..])
  }

  /** The staging file name exactly as the fetch step writes it: the text of
      the execution date without its dashes. */
  function StagingFileNameAsWritten(executionDate: string): (r: string)
    ensures |r| >= |FileSuffix| && r[|r| - |FileSuffix|..] == FileSuffix
    ensures '-' !in r[..|r| - |FileSuffix|]
    ensures r[..|r| - |FileSuffix|] == WithoutDashes(executionDate)
  {
    var w := WithoutDashes(executionDate);
    assert (w + FileSuffix)[..|w|] == w;
    w + FileSuffix
  }

  /** The corrected staging file name, made from the parsed day rather than
      from the date text: its eight-digit `YYYYMMDD` form (the year unpadded below 1000, as strftime writes it). */
  function StagingFileName(d: Date): string
    requires ValidDate(d)
  {
    WithoutDashes(FormatDate(d)) + FileSuffix
  }

  lemma {:induction false} WithoutDashesAppend(a: string, b: string)
    ensures WithoutDashes(a + b) == WithoutDashes(a) + WithoutDashes(b)
  {
    if a == [] {
      assert a + b == b;
    } else {
      var head := if a[0] == '-' then [] else [a[0]];
      assert (a + b)[0] == a[0] && (a + b)[1..] == a[1..] + b;
      WithoutDashesAppend(a[1..], b);
      calc {
        WithoutDashes(a + b);
        head + WithoutDashes(a[1..] + b);
        head + (WithoutDashes(a[1..]) + WithoutDashes(b));
        (head + WithoutDashes(a[1..])) + WithoutDashes(b);
        WithoutDashes(a) + WithoutDashes(b);
      }
    }
  }

  /** A dash between two parts is dropped and nothing else is: the name
      loses the separators of the date and keeps every other character. */
  lemma WithoutDashesAroundDash(a: string, b: string)
    ensures WithoutDashes(a + ['-'] + b) == WithoutDashes(a) + WithoutDashes(b)
  {
    var dash: string := ['-'];
    assert WithoutDashes(dash) == [] by {
      assert dash[1..] == [];
    }
    WithoutDashesAppend(a, dash);
    assert WithoutDashes(a + dash) == WithoutDashes(a);
    WithoutDashesAppend(a + dash, b);
  }

  lemma {:induction false} DigitsHaveNoDash(s: string)
    requires forall i :: 0 <= i < |s| ==> IsDigit(s[i])
    ensures WithoutDashes(s) == s
  {
    if s != [] {
      DigitsHaveNoDash(s[1..]);
    }
  }

  lemma {:induction false} DecimalDigits(n: nat)
    ensures |Decimal(n)| >= 1 && forall i :: 0 <= i < |Decimal(n)| ==> IsDigit(Decimal(n)[i])
    ensures FieldValue(Decimal(n)) == n
  {
    if n >= 10 {
      DecimalDigits(n / 10);
      var s := Decimal(n);
      assert s[..|s| - 1] == Decimal(n / 10);
    }
  }

  /** The day's date without its dashes, spelled out: year, two-digit
      month, two-digit day. */
  lemma DateDigits(d: Date)
    requires ValidDate(d)
    ensures WithoutDashes(FormatDate(d)) == Decimal(d.year) + (TwoDigits(d.month) + TwoDigits(d.day))
  {
    var y, m, dd := Decimal(d.year), TwoDigits(d.month), TwoDigits(d.day);
    DecimalDigits(d.year);
    DigitsHaveNoDash(y);
    DigitsHaveNoDash(m);
    DigitsHaveNoDash(dd);
    WithoutDashesAroundDash(y + "-" + m, dd);
    WithoutDashesAroundDash(y, m);
  }

  /** Corrected naming: the staging file name determines the day, so two
      different days never share a file and a load for one day never deletes
      another day's raw rows. */
  lemma StagingFileNameInjective(d1: Date, d2: Date)
    requires ValidDate(d1) && ValidDate(d2)
    requires StagingFileName(d1) == StagingFileName(d2)
    ensures d1 == d2
  {
    var w1, w2 := WithoutDashes(FormatDate(d1)), WithoutDashes(FormatDate(d2));
    assert |w1| == |w2|;
    assert w1 == (w1 + FileSuffix)[..|w1|] == (w2 + FileSuffix)[..|w2|] == w2;
    DateDigits(d1);
    DateDigits(d2);
    var y1, y2 := Decimal(d1.year), Decimal(d2.year);
    var t1 := TwoDigits(d1.month) + TwoDigits(d1.day);
    var t2 := TwoDigits(d2.month) + TwoDigits(d2.day);
    assert |y1| == |y2|;
    assert y1 == (y1 + t1)[..|y1|] == (y2 + t2)[..|y2|] == y2;
    DecimalDigits(d1.year);
    DecimalDigits(d2.year);
    assert t1 == (y1 + t1)[|y1|..] == (y2 + t2)[|y2|..] == t2;
    assert t1[0] == t2[0] && t1[1] == t2[1] && t1[2] == t2[2] && t1[3] == t2[3];
  }

  lemma ParsesAs(s: string, e: nat, y: int, m: int, d: int)
    requires |s| > 4 && IsYearField(s[..4]) && s[4] == '-' && MonthEnd(s) == Some(e)
    requires IsDayField(s[e + 1..])
    requires FieldValue(s[..4]) == y && FieldValue(s[5..e]) == m && FieldValue(s[e + 1..]) == d
    requires ValidDate(Date(y, m, d))
    ensures ParseDate(s) == Ok(Date(y, m, d))
  {
  }

  lemma FieldValues()
    ensures FieldValue("2024") == 2024
    ensures FieldValue("1") == 1 && FieldValue("01") == 1 && FieldValue("11") == 11
    ensures FieldValue("5") == 5 && FieldValue("15") == 15
  {
    FieldValueOfDigits(2, 0, 2, 4);
    FieldValueOfDigits(0, 1, 0, 0);
    FieldValueOfDigits(1, 1, 0, 0);
    FieldValueOfDigits(1, 5, 0, 0);
    FieldValueOfDigits(5, 0, 0, 0);
    FieldValueOfDigits(1, 0, 0, 0);
  }

  lemma UnpaddedDatesParse()
    ensures ParseDate("2024-1-15") == Ok(Date(2024, 1, 15))
    ensures ParseDate("2024-11-5") == Ok(Date(2024, 11, 5))
    ensures ParseDate("2024-01-15") == Ok(Date(2024, 1, 15))
  {
    FieldValues();
    var a, b, c := "2024-1-15", "2024-11-5", "2024-01-15";
    assert a[..4] == "2024" && a[5..6] == "1" && a[7..] == "15" && MonthEnd(a) == Some(6);
    ParsesAs(a, 6, 2024, 1, 15);
    assert b[..4] == "2024" && b[5..7] == "11" && b[8..] == "5" && MonthEnd(b) == Some(7);
    ParsesAs(b, 7, 2024, 11, 5);
    assert c[..4] == "2024" && c[5..7] == "01" && c[8..] == "15" && MonthEnd(c) == Some(7);
    ParsesAs(c, 7, 2024, 1, 15);
  }

  /** The as-written name of `year-month-day` text is its three fields run
      together. */
  lemma NameOfFields(y: string, m: string, d: string)
    requires forall i :: 0 <= i < |y| ==> IsDigit(y[i])
    requires forall i :: 0 <= i < |m| ==> IsDigit(m[i])
    requires forall i :: 0 <= i < |d| ==> IsDigit(d[i])
    ensures WithoutDashes(y + "-" + m + "-" + d) == y + m + d
  {
    DigitsHaveNoDash(y);
    DigitsHaveNoDash(m);
    DigitsHaveNoDash(d);
    WithoutDashesAroundDash(y, m);
    WithoutDashesAroundDash(y + "-" + m, d);
  }

  lemma AsWrittenNameShared()
    ensures StagingFileNameAsWritten("2024-1-15") == StagingFileNameAsWritten("2024-11-5")
  {
    NameOfFields("2024", "1", "15");
    NameOfFields("2024", "11", "5");
    assert "2024-1-15" == "2024" + "-" + "1" + "-" + "15";
    assert "2024-11-5" == "2024" + "-" + "11" + "-" + "5";
    assert "2024" + "1" + "15" == "2024" + "11" + "5";
  }

  lemma AsWrittenNamesDiffer()
    ensures StagingFileNameAsWritten("2024-01-15") != StagingFileNameAsWritten("2024-1-15")
  {
    NameOfFields("2024", "1", "15");
    NameOfFields("2024", "01", "15");
    assert "2024-1-15" == "2024" + "-" + "1" + "-" + "15";
    assert "2024-01-15" == "2024" + "-" + "01" + "-" + "15";
  }

  /** As written, the name is built from the text of the date, which strptime
      also accepts without zero padding: January 15th and November 5th of 2024
      share one staging file, and January 15th has two. */
  lemma StagingFileNameAsWrittenCollides()
    ensures ParseDate("2024-1-15") == Ok(Date(2024, 1, 15))
    ensures ParseDate("2024-11-5") == Ok(Date(2024, 11, 5))
    ensures StagingFileNameAsWritten("2024-1-15") == StagingFileNameAsWritten("2024-11-5")
    ensures ParseDate("2024-01-15") == Ok(Date(2024, 1, 15))
    ensures StagingFileNameAsWritten("2024-01-15") != StagingFileNameAsWritten("2024-1-15")
  {
    UnpaddedDatesParse();
    AsWrittenNameShared();
    AsWrittenNamesDiffer();
  }

  /** `os.path.join(directory, name)`. */
  function JoinPath(directory: string, name: string): (r: string)
    ensures |r| >= |name| && r[|r| - |name|..] == name
  {
    if |name| > 0 && name[0] == '/' then name
    else if |directory| == 0 || directory[|directory| - 1] == '/' then directory + name
    else directory + "/" + name
  }

  /** `os.path.basename(path)`: the text after the last slash. */
  function Basename(path: string): (r: string)
    ensures '/' !in r
    ensures |r| <= |path| && r == path[|path| - |r|..]
    ensures |r| < |path| ==> path[|path| - |r| - 1] == '/'
  {
    if path == [] then []
    else if path[|path| - 1] == '/' then []
    else
      var init := path[..|path| - 1];
      var b := Basename(init);
      assert b == path[|path| - 1 - |b|..|path| - 1];
      b + [path[|path| - 1]]
  }

  lemma {:induction false} BasenameAfterSlash(directory: string, name: string)
    requires '/' !in name
    ensures Basename(directory + "/" + name) == name
  {
    var p := directory + "/" + name;
    if name != [] {
      var init := name[..|name| - 1];
      assert p[..|p| - 1] == directory + "/" + init;
      assert '/' !in init by {
        forall c | c in init ensures c in name {
        }
      }
      BasenameAfterSlash(directory, init);
      assert name == init + [name[|name| - 1]];
    }
  }

  lemma BasenameOfJoin(name: string)
    requires '/' !in name
    ensures Basename(JoinPath(DataPath, name)) == name
  {
    if |name| > 0 {
      assert name[0] in name;
    }
    BasenameAfterSlash(DataPath, name);
  }

  /** A text strptime accepts holds only digits, dashes and blanks. */
  lemma DateTextHasNoSlash(s: string)
    requires MatchesDateFormat(s)
    ensures '/' !in s
  {
    var e := MonthEnd(s).value;
    forall i | 0 <= i < |s| ensures s[i] != '/' {
      if i < 4 {
        assert s[i] == s[..4][i];
      } else if 5 <= i < e {
        assert s[i] == s[5..e][i - 5];
      } else if e < i {
        assert s[i] == s[e + 1..][i - e - 1];
      }
    }
  }

  /** A name made from a date text strptime accepts is at most 29 characters
      long: the text has at most ten. */
  lemma StagingFileNameAsWrittenFits(s: string)
    requires MatchesDateFormat(s)
    ensures |StagingFileNameAsWritten(s)| <= 10 + |FileSuffix|
  {
  }

  /** Removing dashes adds no character. */
  lemma {:induction false} WithoutDashesKeepsOut(s: string, c: char)
    requires c !in s
    ensures c !in WithoutDashes(s)
  {
    if s != [] {
      assert c !in s[1..] by {
        assert forall x :: x in s[1..] ==> x in s;
      }
      WithoutDashesKeepsOut(s[1..], c);
    }
  }

  /** The staging file name of a date text strptime accepts has no slash,
      so the load step finds that very name again as the staged path's
      basename. */
  lemma StagingPathBasename(executionDate: string)
    requires ParseDate(executionDate).Ok?
    ensures Basename(JoinPath(DataPath, StagingFileNameAsWritten(executionDate))) == StagingFileNameAsWritten(executionDate)
  {
    DateTextHasNoSlash(executionDate);
    WithoutDashesKeepsOut(executionDate, '/');
    assert '/' !in FileSuffix;
    var name := StagingFileNameAsWritten(executionDate);
    assert '/' !in name by {
      assert forall x :: x in name ==> x in WithoutDashes(executionDate) || x in FileSuffix;
    }
    BasenameOfJoin(name);
  }

  /** One feature to one record; raises as indexing the feature does. */
  function MapFeature(f: Feature, fileName: string): (r: Result<Record, Failure>)
    ensures r.Ok? <==> f.properties.Some? && f.coordinates.Some? && |f.coordinates.value| >= 3
    ensures r.Err? ==> r.error.kind == MalformedFeature
  {
    match (f.properties, f.coordinates)
    case (Some(p), Some(c)) =>
      if |c| < 3 then Err(Failure(MalformedFeature, "list index out of range"))
      else Ok(Record(p.time, p.place, p.mag, c[0], c[1], c[2], fileName))
    case (None, _) => Err(Failure(MalformedFeature, "feature without properties"))
    case (_, None) => Err(Failure(MalformedFeature, "feature without geometry coordinates"))
  }

  /** The record list of a feature list, or the error of its first bad
      feature. */
  function MapFeatures(fs: seq<Feature>, fileName: string): (r: Result<seq<Record>, Failure>)
    ensures r.Ok? <==> forall i :: 0 <= i < |fs| ==> MapFeature(fs[i], fileName).Ok?
    ensures r.Ok? ==> |r.value| == |fs|
                      && forall i :: 0 <= i < |fs| ==> MapFeature(fs[i], fileName) == Ok(r.value[i])
    ensures r.Err? ==> exists k :: 0 <= k < |fs| && MapFeature(fs[k], fileName) == Err(r.error)
                                 && forall i :: 0 <= i < k ==> MapFeature(fs[i], fileName).Ok?
  {
    if fs == [] then Ok([])
    else
      match MapFeature(fs[0], fileName)
      case Err(e) => Err(e)
      case Ok(rec) =>
        match MapFeatures(fs[1..], fileName)
        case Err(e) => Err(e)
        case Ok(rest) => Ok([rec] + rest)
  }

  /** What the fetch step makes of the feed's answer: nothing staged when
      the request fails or there are no features, otherwise one record per
      feature in a file named after the date text. */
  function StageResponse(executionDate: string, response: FeedResponse): (r: Result<Staged, Failure>)
    ensures r.Ok? && r.value.Staged? ==>
              && r.value.path == JoinPath(DataPath, StagingFileNameAsWritten(executionDate))
              && r.value.records != []
              && forall i :: 0 <= i < |r.value.records| ==>
                   r.value.records[i].fileName == StagingFileNameAsWritten(executionDate)
    ensures r.Err? ==> r.error.kind in {InvalidJson, MalformedDocument, MalformedFeature}
  {
    match response
    case RequestFailed(_) => Ok(NothingStaged)
    case Received(NotJson) => Err(Failure(InvalidJson, "response body is not JSON"))
    case Received(NotAnObject) => Err(Failure(MalformedDocument, "response body has no attribute 'get'"))
    case Received(Object(features)) =>
      if features.None? || features.value == [] then Ok(NothingStaged)
      else
        var name := StagingFileNameAsWritten(executionDate);
        match MapFeatures(features.value, name)
        case Err(e) => Err(e)
        case Ok(records) => Ok(Staged(JoinPath(DataPath, name), records))
  }

  /** The fetch step as a function of the execution date and of what the
      feed answers for the URL it asks: the window is the execution date
      (as given) up to the formatted next day. */
  function Fetch(executionDate: string, feed: string -> FeedResponse): (r: Result<Staged, Failure>)
    ensures r.Ok? && r.value.Staged? ==>
              && r.value.path == JoinPath(DataPath, StagingFileNameAsWritten(executionDate))
              && r.value.records != []
              && forall i :: 0 <= i < |r.value.records| ==>
                   r.value.records[i].fileName == StagingFileNameAsWritten(executionDate)
    ensures r.Err? ==> r.error.kind in {DateFormat, DateRange, DateOverflow, InvalidJson, MalformedDocument, MalformedFeature}
  {
    match ParseDate(executionDate)
    case Err(e) => Err(e)
    case Ok(d) =>
      match NextDay(d)
      case None => Err(Failure(DateOverflow, "date value out of range"))
      case Some(next) => StageResponse(executionDate, feed(QueryUrl(executionDate, FormatDate(next))))
  }

  /** A text strptime rejects, or the last representable day, raises before
      any request is made. */
  lemma FetchDateFailures(executionDate: string, feed: string -> FeedResponse)
    ensures ParseDate(executionDate).Err? ==> Fetch(executionDate, feed) == Err(ParseDate(executionDate).error)
    ensures ParseDate(executionDate) == Ok(Date(MaxYear, 12, 31))
            ==> Fetch(executionDate, feed).Err? && Fetch(executionDate, feed).error.kind == DateOverflow
  {
  }

  /** The request is for one day: from the execution date to the formatted
      following day, and nothing but the answer to that URL matters. */
  lemma FetchAsksForOneDay(executionDate: string, feed1: string -> FeedResponse, feed2: string -> FeedResponse)
    requires ParseDate(executionDate).Ok?
    requires NextDay(ParseDate(executionDate).value).Some?
    requires var d := ParseDate(executionDate).value;
             var url := QueryUrl(executionDate, FormatDate(NextDay(d).value));
             feed1(url) == feed2(url)
    ensures Fetch(executionDate, feed1) == Fetch(executionDate, feed2)
    ensures var d := ParseDate(executionDate).value;
            Ordinal(NextDay(d).value) == Ordinal(d) + 1
  {
    NextDayIsFollowingDay(ParseDate(executionDate).value);
  }

  /** Nothing is staged exactly when the request fails or the document has no
      features; a staged file holds one record per feature, in feature order,
      each field taken from its feature and stamped with the file name made
      from the date text;
      every other outcome raises. */
  lemma FetchOutcomes(executionDate: string, feed: string -> FeedResponse)
    requires ParseDate(executionDate).Ok?
    requires NextDay(ParseDate(executionDate).value).Some?
    ensures var d := ParseDate(executionDate).value;
            var response := feed(QueryUrl(executionDate, FormatDate(NextDay(d).value)));
            var r := Fetch(executionDate, feed);
            && (r == Ok(NothingStaged) <==>
                  response.RequestFailed?
                  || (response.body.Object? && (response.body.features.None? || response.body.features.value == [])))
            && (r.Ok? && r.value.Staged? ==>
                  response.Received? && response.body.Object? && response.body.features.Some?
                  && var fs := response.body.features.value;
                  && r.value.path == JoinPath(DataPath, StagingFileNameAsWritten(executionDate))
                  && |r.value.records| == |fs|
                  && forall i :: 0 <= i < |fs| ==>
                       var rec := r.value.records[i];
                       && fs[i].properties.Some? && fs[i].coordinates.Some? && |fs[i].coordinates.value| >= 3
                       && rec.time == fs[i].properties.value.time
                       && rec.place == fs[i].properties.value.place
                       && rec.magnitude == fs[i].properties.value.mag
                       && rec.longitude == fs[i].coordinates.value[0]
                       && rec.latitude == fs[i].coordinates.value[1]
                       && rec.depth == fs[i].coordinates.value[2]
                       && rec.fileName == StagingFileNameAsWritten(executionDate))
            && (r.Err? <==>
                  response.Received? && (response.body.NotJson? || response.body.NotAnObject?
                    || (response.body.features.Some?
                        && exists i :: 0 <= i < |response.body.features.value|
                                       && MapFeature(response.body.features.value[i], StagingFileNameAsWritten(executionDate)).Err?)))
  {
    var d := ParseDate(executionDate).value;
    var response := feed(QueryUrl(executionDate, FormatDate(NextDay(d).value)));
    if response.Received? && response.body.Object? && response.body.features.Some? {
      var fs := response.body.features.value;
      var m := MapFeatures(fs, StagingFileNameAsWritten(executionDate));
      if m.Ok? {
        forall i | 0 <= i < |fs| ensures MapFeature(fs[i], StagingFileNameAsWritten(executionDate)) == Ok(m.value[i]) {
        }
      }
    }
  }
}
