/** The EarthquakePipeline object: the staging directory and the two tables
    it fills, with the fetch, load and transform steps as methods that change
    them. Each step is specified by a function of the old state (`Fetch`,
    `Load`, `Transform`), about which the lemmas below and in the Tables and
    Feed modules state what the steps promise. */
module Pipeline {
  import opened Wrappers
  import opened Errors
  import opened Calendar
  import opened Models
  import opened Feed
  import opened Tables

  /** VARCHAR(255), the width of `place` and `file_name`. */
  const TextWidth := 255

  /** How a step ends: normally, or by raising. */
  datatype Outcome = Done | Raised(failure: Failure)

  /** Everything the pipeline reads and writes: the files of the staging
      directory, both tables with their next SERIAL values, and whether the
      server is reachable and the tables exist. */
  datatype Store = Store(
    files: map<string, seq<Record>>,
    earthquake: seq<Row<EarthquakeData>>,
    nextEarthquakeId: int,
    stageEarthquake: seq<Row<StageEarthquake>>,
    nextStageId: int,
    online: bool,
    hasEarthquakeTable: bool,
    hasStageTable: bool)

  /** A staged CSV row as COPY ... (FORMAT CSV) reads it back. An empty
      field is NULL, so a missing or empty place and a missing float become
      NULL. Each field is converted in column order, where a text too long
      for VARCHAR(255) is refused unless its excess is blanks, which are cut;
      the NOT NULL columns (time, longitude, latitude, file_name) are checked
      on the converted row. */
  function CopyRow(rec: Record): (r: Result<EarthquakeData, Failure>)
    ensures r.Ok? <==> && (rec.place.None? || StoreVarchar(rec.place.value, TextWidth).Some?)
                       && StoreVarchar(rec.fileName, TextWidth).Some?
                       && rec.time.Some? && rec.longitude.Some? && rec.latitude.Some? && rec.fileName != ""
    ensures r.Ok? ==>
              && r.value.time == rec.time.value
              && r.value.place == (if rec.place.None? || rec.place.value == "" then None
                                   else StoreVarchar(rec.place.value, TextWidth))
              && r.value.magnitude == rec.magnitude
              && r.value.longitude == rec.longitude.value && r.value.latitude == rec.latitude.value
              && r.value.depth == rec.depth
              && Some(r.value.fileName) == StoreVarchar(rec.fileName, TextWidth)
    ensures r.Err? ==> r.error.kind == NotNullViolation || r.error.kind == ValueTooLong
    ensures r.Err? && r.error.kind == NotNullViolation ==>
              rec.time.None? || rec.longitude.None? || rec.latitude.None? || rec.fileName == ""
  {
    if rec.place.Some? && StoreVarchar(rec.place.value, TextWidth).None? then
      Err(Failure(ValueTooLong, "value too long for type character varying(255)"))
    else if StoreVarchar(rec.fileName, TextWidth).None? then
      Err(Failure(ValueTooLong, "value too long for type character varying(255)"))
    else if rec.time.None? then Err(Failure(NotNullViolation, "null value in column \"time\""))
    else if rec.longitude.None? then Err(Failure(NotNullViolation, "null value in column \"longitude\""))
    else if rec.latitude.None? then Err(Failure(NotNullViolation, "null value in column \"latitude\""))
    else if rec.fileName == "" then Err(Failure(NotNullViolation, "null value in column \"file_name\""))
    else
      Ok(EarthquakeData(rec.time.value,
                        if rec.place.None? || rec.place.value == "" then None else StoreVarchar(rec.place.value, TextWidth),
                        rec.magnitude, rec.longitude.value, rec.latitude.value, rec.depth,
                        StoreVarchar(rec.fileName, TextWidth).value))
  }

  /** COPY of a whole file: every row, or the error of the first bad one. */
  function CopyRows(recs: seq<Record>): (r: Result<seq<EarthquakeData>, Failure>)
    ensures r.Ok? <==> forall i :: 0 <= i < |recs| ==> CopyRow(recs[i]).Ok?
    ensures r.Ok? ==> |r.value| == |recs| && forall i :: 0 <= i < |recs| ==> CopyRow(recs[i]) == Ok(r.value[i])
    ensures r.Err? ==> exists k :: 0 <= k < |recs| && CopyRow(recs[k]) == Err(r.error)
                                 && forall i :: 0 <= i < k ==> CopyRow(recs[i]).Ok?
  {
    if recs == [] then Ok([])
    else
      var head, rest := CopyRow(recs[0]), CopyRows(recs[1..]);
      assert forall i :: 1 <= i < |recs| ==> recs[i] == recs[1..][i - 1];
      if head.Err? then Err(head.error)
      else if rest.Err? then Err(rest.error)
      else Ok([head.value] + rest.value)
  }

  /** Rows of one file whose name fits the column keep that name through COPY. */
  lemma CopiedRowsKeepName(recs: seq<Record>, name: string)
    requires CopyRows(recs).Ok? && |name| <= TextWidth
    requires forall i :: 0 <= i < |recs| ==> recs[i].fileName == name
    ensures forall i :: 0 <= i < |CopyRows(recs).value| ==> CopyRows(recs).value[i].fileName == name
  {
    var vs := CopyRows(recs).value;
    forall i | 0 <= i < |vs| ensures vs[i].fileName == name {
      assert CopyRow(recs[i]) == Ok(vs[i]);
    }
  }

  /** `load_csv_to_postgres(csv_path)`: the new store and how the call ends.
      A failure after the DELETE rolls back, so every raise leaves the store
      as it was. */
  function Load(s: Store, csvPath: string): (r: (Store, Outcome))
    ensures r.1.Raised? ==> r.0 == s
    ensures r.0 == s.(earthquake := r.0.earthquake, nextEarthquakeId := r.0.nextEarthquakeId)
    ensures r.0.nextEarthquakeId >= s.nextEarthquakeId
  {
    if csvPath == "" then (s, Done)
    else if !s.online then (s, Raised(Failure(ConnectionFailed, "could not connect to server")))
    else if !s.hasEarthquakeTable then (s, Raised(Failure(UndefinedTable, "relation \"public.earthquake\" does not exist")))
    else if csvPath !in s.files then (s, Raised(Failure(FileNotFound, "No such file or directory: '" + csvPath + "'")))
    else
      match CopyRows(s.files[csvPath])
      case Err(e) => (s, Raised(e))
      case Ok(vs) =>
        (s.(earthquake := ReplaceFile(s.earthquake, Basename(csvPath), Numbered(vs, s.nextEarthquakeId)),
            nextEarthquakeId := s.nextEarthquakeId + |vs|), Done)
  }

  /** How the server reads a transform bound as a `date` literal, for the
      texts the pipeline passes it. The server takes what strptime takes
      except a blank-padded day (`2024-01- 5`, allowed by `%d`): the blank
      ends the date field, which then holds only a year and a month, and
      the literal is refused. Text strptime refuses is refused here too. */
  function DateLiteral(s: string): (r: Result<Date, Failure>)
    ensures r.Err? ==> r.error.kind == InvalidDateLiteral
    ensures r.Ok? ==> ValidDate(r.value) && ' ' !in s
  {
    if ' ' in s then Err(Failure(InvalidDateLiteral, "invalid input syntax for type date"))
    else
      match ParseDate(s)
      case Ok(d) => Ok(d)
      case Err(_) => Err(Failure(InvalidDateLiteral, "invalid input syntax for type date"))
  }

  /** The server reads a literal exactly when strptime does and the text
      has no blank, and then as the same day; the one blank strptime lets
      through pads a one-digit day, just before the last character. */
  lemma DateLiteralAgrees(s: string)
    ensures DateLiteral(s).Ok? <==> ParseDate(s).Ok? && ' ' !in s
    ensures DateLiteral(s).Ok? ==> DateLiteral(s) == ParseDate(s)
    ensures ParseDate(s).Ok? && ' ' in s ==> |s| >= 2 && s[|s| - 2] == ' ' && DateLiteral(s).Err?
  {
    if ParseDate(s).Ok? {
      var e := MonthEnd(s).value;
      assert forall i :: 0 <= i < 4 ==> s[..4][i] == s[i];
      assert forall i :: 5 <= i < e ==> s[5..e][i - 5] == s[i];
      assert forall i :: e < i < |s| ==> s[e + 1..][i - e - 1] == s[i];
    }
  }

  /** `2024-01- 5` is 5 January 2024 to strptime and no date to the
      server. */
  lemma BlankPaddedDayExample()
    ensures ParseDate("2024-01- 5") == Ok(Date(2024, 1, 5))
    ensures DateLiteral("2024-01- 5").Err?
  {
    var s := "2024-01- 5";
    assert s[..4] == "2024";
    assert s[5..7] == "01";
    assert s[8..] == " 5";
    assert MonthEnd(s) == Some(7);
    assert FieldValue(" 5") == 5 by {
      assert " 5"[..1] == " " && " "[..0] == [];
    }
    FieldValues();
    ParsesAs(s, 7, 2024, 1, 5);
    assert s[8] == ' ';
  }

  /** `transform_in_postgres(p_start_date, p_end_date)`: the new store and how
      the call ends. The bounds are date literals the server reads; a
      missing table is reported as UndefinedTable, distinct from every other
      failure, and every failure rolls back. */
  function Transform(s: Store, startDate: string, endDate: string): (r: (Store, Outcome))
    ensures r.1.Raised? ==> r.0 == s
    ensures r.0 == s.(stageEarthquake := r.0.stageEarthquake, nextStageId := r.0.nextStageId)
    ensures r.0.nextStageId >= s.nextStageId
    ensures r.1.Raised? && r.1.failure.kind == UndefinedTable ==> !s.hasStageTable || !s.hasEarthquakeTable
  {
    if !s.online then (s, Raised(Failure(ConnectionFailed, "could not connect to server")))
    else if !s.hasStageTable then (s, Raised(Failure(UndefinedTable, "relation \"public.stage_earthquake\" does not exist")))
    else if DateLiteral(startDate).Err? then (s, Raised(DateLiteral(startDate).error))
    else if DateLiteral(endDate).Err? then (s, Raised(DateLiteral(endDate).error))
    else if !s.hasEarthquakeTable then (s, Raised(Failure(UndefinedTable, "relation \"public.earthquake\" does not exist")))
    else
      var lo, hi := Ordinal(DateLiteral(startDate).value), Ordinal(DateLiteral(endDate).value);
      var raw := Values(s.earthquake);
      (s.(stageEarthquake := ReplaceDays(s.stageEarthquake, raw, lo, hi, s.nextStageId),
          nextStageId := s.nextStageId + |Derive(raw, lo, hi)|), Done)
  }

  /** The path `fetch_data_to_local_csv` returns for a fetch outcome. */
  function FetchedPath(f: Result<Staged, Failure>): Result<string, Failure> {
    match f
    case Err(e) => Err(e)
    case Ok(NothingStaged) => Ok("")
    case Ok(Staged(p, _)) => Ok(p)
  }

  /** The staging directory after a fetch. */
  function FetchedFiles(files: map<string, seq<Record>>, f: Result<Staged, Failure>): map<string, seq<Record>> {
    if f.Ok? && f.value.Staged? then files[f.value.path := f.value.records] else files
  }

  /** The body of one run: fetch, load if a file was staged, then transform
      the execution date; the first step that raises ends the run, and the
      steps committed before it stay committed. */
  function Run(s: Store, executionDate: string, feed: string -> FeedResponse): (r: (Store, Outcome))
    ensures r.0.files == FetchedFiles(s.files, Fetch(executionDate, feed))
    ensures r.0 == s.(files := r.0.files, earthquake := r.0.earthquake, nextEarthquakeId := r.0.nextEarthquakeId,
                      stageEarthquake := r.0.stageEarthquake, nextStageId := r.0.nextStageId)
    ensures r.0.nextEarthquakeId >= s.nextEarthquakeId && r.0.nextStageId >= s.nextStageId
  {
    var f := Fetch(executionDate, feed);
    if f.Err? then (s, Raised(f.error))
    else
      var s1 := s.(files := FetchedFiles(s.files, f));
      var path := FetchedPath(f).value;
      var (s2, loaded) := if path != "" then Load(s1, path) else (s1, Done);
      if loaded.Raised? then (s2, loaded)
      else Transform(s2, executionDate, executionDate)
  }

  // ---------------------------------------------------------------------
  // What the steps promise

  /** An empty path loads nothing and raises nothing. */
  lemma LoadOfNothing(s: Store)
    ensures Load(s, "") == (s, Done)
  {
  }

  /** A load either raises and leaves the store as it was, or commits: the
      rows of the loaded file become exactly the file's rows as COPY reads
      them, the rows of every other file stay, and nothing but the raw
      table and its counter changes. The replacement is promised for a file
      name that fits `file_name VARCHAR(255)`; a longer, blank-padded name is
      stored cut, so the DELETE by the full name does not find its rows. */
  lemma LoadIsAtomicReplace(s: Store, csvPath: string)
    requires csvPath != ""
    requires csvPath in s.files ==> forall i :: 0 <= i < |s.files[csvPath]| ==> s.files[csvPath][i].fileName == Basename(csvPath)
    ensures Load(s, csvPath).1.Raised? ==> Load(s, csvPath).0 == s
    ensures Load(s, csvPath).1 == Done <==>
              s.online && s.hasEarthquakeTable && csvPath in s.files && CopyRows(s.files[csvPath]).Ok?
    ensures Load(s, csvPath).1 == Done && |Basename(csvPath)| <= TextWidth ==>
              var t := Load(s, csvPath).0;
              var name := Basename(csvPath);
              && Values(RowsOfFile(t.earthquake, name, true)) == CopyRows(s.files[csvPath]).value
              && RowsOfFile(t.earthquake, name, false) == RowsOfFile(s.earthquake, name, false)
              && t.stageEarthquake == s.stageEarthquake && t.files == s.files
  {
    if s.online && s.hasEarthquakeTable && csvPath in s.files && CopyRows(s.files[csvPath]).Ok? {
      LoadCommits(s, csvPath);
      if |Basename(csvPath)| <= TextWidth {
        LoadReplacesRows(s, csvPath);
      }
    } else {
      LoadRefuses(s, csvPath);
    }
  }

  /** The committed rows of a file whose name fits the column replace that
      file's rows and no other. */
  lemma LoadReplacesRows(s: Store, csvPath: string)
    requires csvPath != "" && s.online && s.hasEarthquakeTable && csvPath in s.files
    requires CopyRows(s.files[csvPath]).Ok? && |Basename(csvPath)| <= TextWidth
    requires forall i :: 0 <= i < |s.files[csvPath]| ==> s.files[csvPath][i].fileName == Basename(csvPath)
    ensures var t := Load(s, csvPath).0;
            var name := Basename(csvPath);
            && Values(RowsOfFile(t.earthquake, name, true)) == CopyRows(s.files[csvPath]).value
            && RowsOfFile(t.earthquake, name, false) == RowsOfFile(s.earthquake, name, false)
  {
    LoadCommits(s, csvPath);
    CopiedFileReplaces(s.earthquake, s.files[csvPath], Basename(csvPath), s.nextEarthquakeId);
  }

  lemma CopiedFileReplaces(t: seq<Row<EarthquakeData>>, recs: seq<Record>, name: string, id: int)
    requires CopyRows(recs).Ok? && |name| <= TextWidth
    requires forall i :: 0 <= i < |recs| ==> recs[i].fileName == name
    ensures var rows := Numbered(CopyRows(recs).value, id);
            && Values(RowsOfFile(ReplaceFile(t, name, rows), name, true)) == CopyRows(recs).value
            && RowsOfFile(ReplaceFile(t, name, rows), name, false) == RowsOfFile(t, name, false)
  {
    var rows := Numbered(CopyRows(recs).value, id);
    CopiedRowsKeepName(recs, name);
    assert forall i :: 0 <= i < |rows| ==> rows[i].values.fileName == name;
    LoadReplacesFile(t, name, rows);
  }

  /** A load whose every step succeeds commits the file's rows under its
      name, numbered from the table's counter. */
  lemma LoadCommits(s: Store, csvPath: string)
    requires csvPath != "" && s.online && s.hasEarthquakeTable && csvPath in s.files
    requires CopyRows(s.files[csvPath]).Ok?
    ensures var vs := CopyRows(s.files[csvPath]).value;
            Load(s, csvPath) == (s.(earthquake := ReplaceFile(s.earthquake, Basename(csvPath), Numbered(vs, s.nextEarthquakeId)),
                                    nextEarthquakeId := s.nextEarthquakeId + |vs|), Done)
  {
    var copied := CopyRows(s.files[csvPath]);
    assert copied == Ok(copied.value);
  }

  /** A load some step of which fails raises and leaves the store as it was. */
  lemma LoadRefuses(s: Store, csvPath: string)
    requires csvPath != ""
    requires !(s.online && s.hasEarthquakeTable && csvPath in s.files && CopyRows(s.files[csvPath]).Ok?)
    ensures Load(s, csvPath).1.Raised? && Load(s, csvPath).0 == s
  {
  }

  /** Loading the same staged file twice leaves the same raw rows as loading
      it once, apart from the surrogate ids. */
  lemma LoadTwiceIsLoadOnce(s: Store, csvPath: string)
    requires Load(s, csvPath).1 == Done
    requires csvPath in s.files ==> forall i :: 0 <= i < |s.files[csvPath]| ==> s.files[csvPath][i].fileName == Basename(csvPath)
    ensures Load(Load(s, csvPath).0, csvPath).1 == Done
    ensures |Basename(csvPath)| <= TextWidth ==>
              Values(Load(Load(s, csvPath).0, csvPath).0.earthquake) == Values(Load(s, csvPath).0.earthquake)
  {
    if csvPath != "" {
      LoadIsAtomicReplace(s, csvPath);
      LoadCommits(s, csvPath);
      var vs := CopyRows(s.files[csvPath]).value;
      var name := Basename(csvPath);
      var id1 := s.nextEarthquakeId;
      var once := ReplaceFile(s.earthquake, name, Numbered(vs, id1));
      var s1 := Load(s, csvPath).0;
      assert s1.earthquake == once && s1.nextEarthquakeId == id1 + |vs| && s1.files == s.files;
      LoadCommits(s1, csvPath);
      var twice := ReplaceFile(once, name, Numbered(vs, id1 + |vs|));
      assert Load(s1, csvPath).0.earthquake == twice;
      if |name| <= TextWidth {
        CopiedRowsKeepName(s.files[csvPath], name);
        LoadIdempotent(s.earthquake, name, vs, id1, id1 + |vs|);
        assert Values(twice) == Values(once);
      }
    }
  }

  /** A transform either raises and leaves the store as it was, with a
      missing table told apart from every other failure, or commits: stage
      rows outside the range stay, rows inside it are exactly the cleaned
      images of the selected raw rows, and nothing else changes. */
  lemma TransformIsAtomicReplace(s: Store, startDate: string, endDate: string)
    ensures Transform(s, startDate, endDate).1.Raised? ==> Transform(s, startDate, endDate).0 == s
    ensures Transform(s, startDate, endDate).1.Raised? ==>
              (Transform(s, startDate, endDate).1.failure.kind == UndefinedTable <==>
                 s.online && (!s.hasStageTable || !s.hasEarthquakeTable)
                      && (s.hasStageTable ==> DateLiteral(startDate).Ok? && DateLiteral(endDate).Ok?))
    ensures Transform(s, startDate, endDate).1 == Done <==>
              s.online && s.hasStageTable && s.hasEarthquakeTable && DateLiteral(startDate).Ok? && DateLiteral(endDate).Ok?
    ensures Transform(s, startDate, endDate).1 == Done ==>
              var t := Transform(s, startDate, endDate).0;
              var lo, hi := Ordinal(DateLiteral(startDate).value), Ordinal(DateLiteral(endDate).value);
              && RowsInDays(t.stageEarthquake, lo, hi, false) == RowsInDays(s.stageEarthquake, lo, hi, false)
              && Values(RowsInDays(t.stageEarthquake, lo, hi, true)) == Derive(Values(s.earthquake), lo, hi)
              && t.earthquake == s.earthquake && t.files == s.files
  {
    if Transform(s, startDate, endDate).1 == Done {
      var lo, hi := Ordinal(DateLiteral(startDate).value), Ordinal(DateLiteral(endDate).value);
      TransformReplacesDays(s.stageEarthquake, Values(s.earthquake), lo, hi, s.nextStageId);
    }
  }

  /** Re-running a transform over an unchanged raw table leaves the same
      stage rows, apart from the surrogate ids. */
  lemma TransformTwiceIsTransformOnce(s: Store, startDate: string, endDate: string)
    requires Transform(s, startDate, endDate).1 == Done
    ensures Transform(Transform(s, startDate, endDate).0, startDate, endDate).1 == Done
    ensures Values(Transform(Transform(s, startDate, endDate).0, startDate, endDate).0.stageEarthquake)
         == Values(Transform(s, startDate, endDate).0.stageEarthquake)
  {
    var lo, hi := Ordinal(DateLiteral(startDate).value), Ordinal(DateLiteral(endDate).value);
    var raw := Values(s.earthquake);
    TransformIdempotent(s.stageEarthquake, raw, lo, hi, s.nextStageId, s.nextStageId + |Derive(raw, lo, hi)|);
  }

  /** A fetch that raises ends the run at once: nothing is staged, loaded
      or transformed. */
  lemma RunStopsAtFetchError(s: Store, executionDate: string, feed: string -> FeedResponse)
    requires Fetch(executionDate, feed).Err?
    ensures Run(s, executionDate, feed) == (s, Raised(Fetch(executionDate, feed).error))
  {
  }

  /** A run whose fetch returned a path goes on as load-then-transform
      over the store with the staged file added. */
  lemma RunAfterFetch(s: Store, executionDate: string, feed: string -> FeedResponse)
    requires Fetch(executionDate, feed).Ok?
    ensures var f := Fetch(executionDate, feed);
            var s1 := s.(files := FetchedFiles(s.files, f));
            var path := FetchedPath(f).value;
            var (s2, loaded) := if path != "" then Load(s1, path) else (s1, Done);
            Run(s, executionDate, feed) == if loaded.Raised? then (s2, loaded) else Transform(s2, executionDate, executionDate)
  {
  }

  /** A request that fails on the network is not an exception: nothing is
      staged or loaded, the transform still runs, and with the server up and
      both tables present the run completes. */
  lemma NetworkFailureCompletes(s: Store, executionDate: string, feed: string -> FeedResponse)
    requires ParseDate(executionDate).Ok? && NextDay(ParseDate(executionDate).value).Some?
    requires feed(QueryUrl(executionDate, FormatDate(NextDay(ParseDate(executionDate).value).value))).RequestFailed?
    requires s.online && s.hasStageTable && s.hasEarthquakeTable
    ensures Run(s, executionDate, feed).1 == Done <==> ' ' !in executionDate
    ensures Run(s, executionDate, feed).0 == Transform(s, executionDate, executionDate).0
    ensures Run(s, executionDate, feed).0.earthquake == s.earthquake
    ensures Run(s, executionDate, feed).0.files == s.files
  {
    FetchOutcomes(executionDate, feed);
    DateLiteralAgrees(executionDate);
  }

  /** A date text with a blank never completes a run. strptime takes a
      blank-padded day, so the fetch and the load go ahead and commit the
      day's raw rows, and then the server refuses the transform's bounds. */
  lemma BlankDateRunFails(s: Store, executionDate: string, feed: string -> FeedResponse)
    requires ' ' in executionDate
    ensures Run(s, executionDate, feed).1.Raised?
    ensures var f := Fetch(executionDate, feed);
            var s1 := s.(files := FetchedFiles(s.files, f));
            f.Ok? && f.value.Staged? && s.online && s.hasStageTable && s.hasEarthquakeTable
              && CopyRows(f.value.records).Ok? ==>
              && Run(s, executionDate, feed).1.failure.kind == InvalidDateLiteral
              && Run(s, executionDate, feed).0 == Load(s1, f.value.path).0
  {
    var f := Fetch(executionDate, feed);
    if f.Ok? {
      var s1 := s.(files := FetchedFiles(s.files, f));
      var path := FetchedPath(f).value;
      var s2 := if path != "" then Load(s1, path).0 else s1;
      assert DateLiteral(executionDate).Err?;
      if f.value.Staged? && s.online && s.hasStageTable && s.hasEarthquakeTable && CopyRows(f.value.records).Ok? {
        FetchOutcomes(executionDate, feed);
        assert path == f.value.path && path in s1.files && s1.files[path] == f.value.records;
        assert Load(s1, path).1 == Done;
      }
    }
  }

  /** A run that completes has staged the day's features, replaced the raw
      rows of that day's file by them, and rebuilt the stage rows of exactly
      that day from the whole raw table; stage rows of other days stay. */
  lemma CompletedRun(s: Store, executionDate: string, feed: string -> FeedResponse)
    requires Run(s, executionDate, feed).1 == Done
    ensures ParseDate(executionDate).Ok? && ' ' !in executionDate
    ensures var t := Run(s, executionDate, feed).0;
            var day := Ordinal(ParseDate(executionDate).value);
            && RowsInDays(t.stageEarthquake, day, day, false) == RowsInDays(s.stageEarthquake, day, day, false)
            && Values(RowsInDays(t.stageEarthquake, day, day, true)) == Derive(Values(t.earthquake), day, day)
    ensures var f := Fetch(executionDate, feed);
            var t := Run(s, executionDate, feed).0;
            f.Ok? && f.value.Staged? ==>
              && CopyRows(f.value.records).Ok?
              && Values(RowsOfFile(t.earthquake, StagingFileNameAsWritten(executionDate), true))
                 == CopyRows(f.value.records).value
              && RowsOfFile(t.earthquake, StagingFileNameAsWritten(executionDate), false)
                 == RowsOfFile(s.earthquake, StagingFileNameAsWritten(executionDate), false)
  {
    var f := Fetch(executionDate, feed);
    assert f.Ok?;
    FetchDateFailures(executionDate, feed);
    var d := ParseDate(executionDate).value;
    var s1 := s.(files := FetchedFiles(s.files, f));
    var path := FetchedPath(f).value;
    var s2 := if path != "" then Load(s1, path).0 else s1;
    assert Run(s, executionDate, feed) == Transform(s2, executionDate, executionDate);
    TransformIsAtomicReplace(s2, executionDate, executionDate);
    DateLiteralAgrees(executionDate);
    assert s2.stageEarthquake == s.stageEarthquake;
    if f.value.Staged? {
      FetchOutcomes(executionDate, feed);
      StagingPathBasename(executionDate);
      assert path == JoinPath(DataPath, StagingFileNameAsWritten(executionDate));
      StagingFileNameAsWrittenFits(executionDate);
      LoadIsAtomicReplace(s1, path);
    }
  }

  /** As written, two date texts with one staging file name share their raw
      rows: after a run for the first and then a run for the second, the raw
      rows of that name are the second run's records only, so the first
      day's raw rows are gone. */
  lemma AsWrittenRunReplacesOtherDay(s: Store, date1: string, feed1: string -> FeedResponse,
                                     date2: string, feed2: string -> FeedResponse)
    requires StagingFileNameAsWritten(date1) == StagingFileNameAsWritten(date2)
    requires Run(s, date1, feed1).1 == Done
    requires Fetch(date1, feed1).Ok? && Fetch(date1, feed1).value.Staged?
    requires Run(Run(s, date1, feed1).0, date2, feed2).1 == Done
    requires Fetch(date2, feed2).Ok? && Fetch(date2, feed2).value.Staged?
    ensures var name := StagingFileNameAsWritten(date1);
            var t1 := Run(s, date1, feed1).0;
            var t2 := Run(t1, date2, feed2).0;
            && CopyRows(Fetch(date1, feed1).value.records)
                  == Ok(Values(RowsOfFile(t1.earthquake, name, true)))
            && CopyRows(Fetch(date2, feed2).value.records)
                  == Ok(Values(RowsOfFile(t2.earthquake, name, true)))
  {
    CompletedRun(s, date1, feed1);
    CompletedRun(Run(s, date1, feed1).0, date2, feed2);
  }

  /** The example texts "2024-1-15" and "2024-11-5" name different days and
      share one staging file name, so a run for the second after one for the
      first leaves only the second day's raw rows under that name. */
  lemma AsWrittenExampleRuns(s: Store, date1: string, feed1: string -> FeedResponse,
                             date2: string, feed2: string -> FeedResponse)
    requires date1 == "2024-1-15" && date2 == "2024-11-5"
    requires Run(s, date1, feed1).1 == Done
    requires Fetch(date1, feed1).Ok? && Fetch(date1, feed1).value.Staged?
    requires Run(Run(s, date1, feed1).0, date2, feed2).1 == Done
    requires Fetch(date2, feed2).Ok? && Fetch(date2, feed2).value.Staged?
    ensures ParseDate(date1) == Ok(Date(2024, 1, 15)) && ParseDate(date2) == Ok(Date(2024, 11, 5))
    ensures StagingFileNameAsWritten(date1) == StagingFileNameAsWritten(date2)
    ensures CopyRows(Fetch(date2, feed2).value.records)
               == Ok(Values(RowsOfFile(Run(Run(s, date1, feed1).0, date2, feed2).0.earthquake, StagingFileNameAsWritten(date1), true)))
  {
    StagingFileNameAsWrittenCollides();
    AsWrittenRunReplacesOtherDay(s, date1, feed1, date2, feed2);
  }

  /** As written, two date texts with different staging file names keep
      separate raw rows: after a run for each, the raw rows under the first
      name are still the first run's records, beside the second run's under
      the second name. */
  lemma AsWrittenRunsKeepBothNames(s: Store, date1: string, feed1: string -> FeedResponse,
                                   date2: string, feed2: string -> FeedResponse)
    requires StagingFileNameAsWritten(date1) != StagingFileNameAsWritten(date2)
    requires Run(s, date1, feed1).1 == Done
    requires Fetch(date1, feed1).Ok? && Fetch(date1, feed1).value.Staged?
    requires Run(Run(s, date1, feed1).0, date2, feed2).1 == Done
    requires Fetch(date2, feed2).Ok? && Fetch(date2, feed2).value.Staged?
    ensures var t2 := Run(Run(s, date1, feed1).0, date2, feed2).0;
            && CopyRows(Fetch(date1, feed1).value.records)
                  == Ok(Values(RowsOfFile(t2.earthquake, StagingFileNameAsWritten(date1), true)))
            && CopyRows(Fetch(date2, feed2).value.records)
                  == Ok(Values(RowsOfFile(t2.earthquake, StagingFileNameAsWritten(date2), true)))
  {
    var name1, name2 := StagingFileNameAsWritten(date1), StagingFileNameAsWritten(date2);
    var t1 := Run(s, date1, feed1).0;
    var t2 := Run(t1, date2, feed2).0;
    CompletedRun(s, date1, feed1);
    CompletedRun(t1, date2, feed2);
    OtherFileUntouched(t2.earthquake, name2, name1);
    OtherFileUntouched(t1.earthquake, name2, name1);
  }

  /** "2024-01-15" and "2024-1-15" name one day under two staging file
      names, so running that day once with each text leaves two sets of raw
      rows for it, one under each name. */
  lemma AsWrittenExampleDuplicates(s: Store, date1: string, feed1: string -> FeedResponse,
                                   date2: string, feed2: string -> FeedResponse)
    requires date1 == "2024-01-15" && date2 == "2024-1-15"
    requires Run(s, date1, feed1).1 == Done
    requires Fetch(date1, feed1).Ok? && Fetch(date1, feed1).value.Staged?
    requires Run(Run(s, date1, feed1).0, date2, feed2).1 == Done
    requires Fetch(date2, feed2).Ok? && Fetch(date2, feed2).value.Staged?
    ensures ParseDate(date1) == ParseDate(date2) == Ok(Date(2024, 1, 15))
    ensures StagingFileNameAsWritten(date1) != StagingFileNameAsWritten(date2)
    ensures var t2 := Run(Run(s, date1, feed1).0, date2, feed2).0;
            && CopyRows(Fetch(date1, feed1).value.records)
                  == Ok(Values(RowsOfFile(t2.earthquake, StagingFileNameAsWritten(date1), true)))
            && CopyRows(Fetch(date2, feed2).value.records)
                  == Ok(Values(RowsOfFile(t2.earthquake, StagingFileNameAsWritten(date2), true)))
  {
    StagingFileNameAsWrittenCollides();
    AsWrittenRunsKeepBothNames(s, date1, feed1, date2, feed2);
  }

  /** With the corrected name, loading one day's file never touches the raw
      rows of another day's file. */
  lemma CorrectedLoadKeepsOtherDays(t: seq<Row<EarthquakeData>>, d1: Date, d2: Date, rows: seq<Row<EarthquakeData>>)
    requires ValidDate(d1) && ValidDate(d2) && d1 != d2
    requires forall i :: 0 <= i < |rows| ==> rows[i].values.fileName == StagingFileName(d2)
    ensures RowsOfFile(ReplaceFile(t, StagingFileName(d2), rows), StagingFileName(d1), true)
         == RowsOfFile(t, StagingFileName(d1), true)
  {
    var n1, n2 := StagingFileName(d1), StagingFileName(d2);
    if n1 == n2 {
      StagingFileNameInjective(d1, d2);
    }
    OtherFileUntouched(t, n2, n1);
    RowsOfFileAppend(RowsOfFile(t, n2, false), rows, n1, true);
    RowsOfFileAll(rows, n1, false);
  }

  /** The feature loop stops at the first bad feature with its error. */
  lemma MapFeaturesStopsAt(fs: seq<Feature>, name: string, i: nat)
    requires i < |fs| && MapFeature(fs[i], name).Err?
    requires forall j :: 0 <= j < i ==> MapFeature(fs[j], name).Ok?
    ensures MapFeatures(fs, name) == Err(MapFeature(fs[i], name).error)
  {
    var r := MapFeatures(fs, name);
    var k :| 0 <= k < |fs| && MapFeature(fs[k], name) == Err(r.error)
             && forall j :: 0 <= j < k ==> MapFeature(fs[j], name).Ok?;
    if k < i {
    } else if i < k {
    }
  }

  /** The feature loop that gets through every feature builds the record
      list of the whole feature list. */
  lemma MapFeaturesAll(fs: seq<Feature>, name: string, recs: seq<Record>)
    requires |recs| == |fs|
    requires forall j :: 0 <= j < |fs| ==> MapFeature(fs[j], name) == Ok(recs[j])
    ensures MapFeatures(fs, name) == Ok(recs)
  {
    var r := MapFeatures(fs, name).value;
    assert r == recs by {
      forall j | 0 <= j < |fs| ensures r[j] == recs[j] {
        assert MapFeature(fs[j], name) == Ok(r[j]);
      }
    }
  }

  // ---------------------------------------------------------------------
  // The object

  class EarthquakePipeline {
    var files: map<string, seq<Record>>
    var earthquake: seq<Row<EarthquakeData>>
    var nextEarthquakeId: int
    var stageEarthquake: seq<Row<StageEarthquake>>
    var nextStageId: int
    var online: bool
    var hasEarthquakeTable: bool
    var hasStageTable: bool

    function State(): Store
      reads this
    {
      Store(files, earthquake, nextEarthquakeId, stageEarthquake, nextStageId, online, hasEarthquakeTable, hasStageTable)
    }

    /** The pipeline over a staging directory and a database as found. */
    constructor (initial: Store)
      ensures State() == initial
    {
      files := initial.files;
      earthquake := initial.earthquake;
      nextEarthquakeId := initial.nextEarthquakeId;
      stageEarthquake := initial.stageEarthquake;
      nextStageId := initial.nextStageId;
      online := initial.online;
      hasEarthquakeTable := initial.hasEarthquakeTable;
      hasStageTable := initial.hasStageTable;
    }

    /** Fetch one day of events and stage them as a CSV file; "" when the
        request fails or there is nothing to stage. */
    method FetchDataToLocalCsv(executionDate: string, feed: string -> FeedResponse) returns (r: Result<string, Failure>)
      modifies this`files
      ensures r == FetchedPath(Fetch(executionDate, feed))
      ensures files == FetchedFiles(old(files), Fetch(executionDate, feed))
    {
      var parsed := ParseDate(executionDate);
      if parsed.Err? {
        return Err(parsed.error);
      }
      var next := NextDay(parsed.value);
      if next.None? {
        return Err(Failure(DateOverflow, "date value out of range"));
      }
      var response := feed(QueryUrl(executionDate, FormatDate(next.value)));
      if response.RequestFailed? {
        return Ok("");
      }
      if response.body.NotJson? {
        return Err(Failure(InvalidJson, "response body is not JSON"));
      }
      if response.body.NotAnObject? {
        return Err(Failure(MalformedDocument, "response body has no attribute 'get'"));
      }
      var features := if response.body.features.Some? then response.body.features.value else [];
      if features == [] {
        return Ok("");
      }
      var filename := StagingFileNameAsWritten(executionDate);
      var fullPath := JoinPath(DataPath, filename);
      var earthquakes: seq<Record> := [];
      for i := 0 to |features|
        invariant |earthquakes| == i
        invariant forall j :: 0 <= j < i ==> MapFeature(features[j], filename) == Ok(earthquakes[j])
      {
        var earthquake := MapFeature(features[i], filename);
        if earthquake.Err? {
          MapFeaturesStopsAt(features, filename, i);
          return Err(earthquake.error);
        }
        earthquakes := earthquakes + [earthquake.value];
      }
      MapFeaturesAll(features, filename, earthquakes);
      files := files[fullPath := earthquakes];
      return Ok(fullPath);
    }

    /** Replace the raw rows of the staged file's name by the file's rows,
        in one transaction. */
    method LoadCsvToPostgres(csvPath: string) returns (r: Outcome)
      modifies this
      ensures State() == Load(old(State()), csvPath).0
      ensures r == Load(old(State()), csvPath).1
    {
      if csvPath == "" {
        return Done;
      }
      var filenameOnly := Basename(csvPath);
      if !online {
        return Raised(Failure(ConnectionFailed, "could not connect to server"));
      }
      // The transaction works on a copy; returning without assigning it back
      // is the rollback.
      if !hasEarthquakeTable {
        return Raised(Failure(UndefinedTable, "relation \"public.earthquake\" does not exist"));
      }
      var working := RowsOfFile(earthquake, filenameOnly, false);
      if csvPath !in files {
        return Raised(Failure(FileNotFound, "No such file or directory: '" + csvPath + "'"));
      }
      var copied := CopyRows(files[csvPath]);
      if copied.Err? {
        return Raised(copied.error);
      }
      working := working + Numbered(copied.value, nextEarthquakeId);
      earthquake := working;
      nextEarthquakeId := nextEarthquakeId + |copied.value|;
      return Done;
    }

    /** Replace the stage rows of [p_start_date, p_end_date] by the cleaned
        raw rows of those days, in one transaction. */
    method TransformInPostgres(pStartDate: string, pEndDate: string) returns (r: Outcome)
      modifies this
      ensures State() == Transform(old(State()), pStartDate, pEndDate).0
      ensures r == Transform(old(State()), pStartDate, pEndDate).1
    {
      if !online {
        return Raised(Failure(ConnectionFailed, "could not connect to server"));
      }
      if !hasStageTable {
        return Raised(Failure(UndefinedTable, "relation \"public.stage_earthquake\" does not exist"));
      }
      var start, end := DateLiteral(pStartDate), DateLiteral(pEndDate);
      if start.Err? {
        return Raised(start.error);
      }
      if end.Err? {
        return Raised(end.error);
      }
      var lo, hi := Ordinal(start.value), Ordinal(end.value);
      var working := RowsInDays(stageEarthquake, lo, hi, false);
      if !hasEarthquakeTable {
        return Raised(Failure(UndefinedTable, "relation \"public.earthquake\" does not exist"));
      }
      var derived := Derive(Values(earthquake), lo, hi);
      working := working + Numbered(derived, nextStageId);
      stageEarthquake := working;
      nextStageId := nextStageId + |derived|;
      return Done;
    }

    /** The steps of one run in order: fetch; load only when a file was
        staged; transform the execution date. The first step that raises
        skips the rest. */
    method RunSteps(executionDate: string, feed: string -> FeedResponse) returns (outcome: Outcome)
      modifies this
      ensures State() == Run(old(State()), executionDate, feed).0
      ensures outcome == Run(old(State()), executionDate, feed).1
    {
      ghost var s0 := State();
      var csvPath := FetchDataToLocalCsv(executionDate, feed);
      if csvPath.Err? {
        RunStopsAtFetchError(s0, executionDate, feed);
        return Raised(csvPath.error);
      }
      RunAfterFetch(s0, executionDate, feed);
      outcome := Done;
      if csvPath.value != "" {
        outcome := LoadCsvToPostgres(csvPath.value);
      }
      if outcome == Done {
        outcome := TransformInPostgres(executionDate, executionDate);
      }
    }
  }
}
