/** The web application around the pipeline: the trigger that records a run
    and the background body that drives one run to a terminal state, the
    status lookup, and the ordering and paging of the stage-table listing. */
module App {
  import opened Wrappers
  import opened Errors
  import opened Calendar
  import opened Models
  import opened Pipeline
  import opened Feed

  /** The execution date of a trigger: the submitted form value, or today's
      date formatted `%Y-%m-%d` when it is missing or empty. */
  function ExecutionDate(formDate: Option<string>, today: Date): (r: string)
    requires ValidDate(today)
    ensures r != ""
    ensures formDate.Some? && formDate.value != "" ==> r == formDate.value
  {
    if formDate.None? || formDate.value == "" then FormatDate(today) else formDate.value
  }

  /** The defaulted date names today, and fits the run's date column. */
  lemma DefaultDateIsToday(formDate: Option<string>, today: Date)
    requires ValidDate(today) && today.year >= 1000
    requires formDate.None? || formDate.value == ""
    ensures ParseDate(ExecutionDate(formDate, today)) == Ok(today)
    ensures |ExecutionDate(formDate, today)| == ExecutionDateWidth
  {
    FormatThenParse(today);
    DecimalOfFourDigits(today.year);
  }

  /** The message of a run that completed. */
  function SuccessMessage(executionDate: string): string {
    "Successfully processed data for " + executionDate
  }

  /** The message of a run that failed: the text of the exception. */
  function ErrorMessage(f: Failure): string {
    "Error: " + f.text
  }

  /** A run as this application writes it: it has a start time and a
      creation time, it is never `pending`, its date fits the column, and it
      has an end time and a message exactly when it is terminal. */
  predicate WellFormedRun(run: PipelineRun) {
    && run.status != Pending
    && |run.executionDate| <= ExecutionDateWidth
    && run.startedAt.Some? && run.createdAt.Some?
    && (IsTerminal(run.status) <==> run.completedAt.Some? && run.message.Some?)
    && (IsTerminal(run.status) || (run.completedAt.None? && run.message.None?))
  }

  /** The only change a run may undergo: a running run becomes completed or
      failed, its end time and message are set, and nothing else changes. */
  predicate Advances(before: PipelineRun, after: PipelineRun) {
    && before.status == Running
    && IsTerminal(after.status)
    && after.completedAt.Some? && after.message.Some?
    && after == before.(status := after.status, completedAt := after.completedAt, message := after.message)
  }

  /** The run after its background body for the submitted date text
      `executionDate` ends with `outcome` at time `t`. */
  function Finish(run: PipelineRun, executionDate: string, outcome: Outcome, t: Timestamp): (r: PipelineRun)
    ensures IsTerminal(r.status) && r.completedAt == Some(t) && r.message.Some?
    ensures r.status == Completed <==> outcome == Done
    ensures r == run.(status := r.status, completedAt := r.completedAt, message := r.message)
  {
    match outcome
    case Done => run.(status := Completed, completedAt := Some(t), message := Some(SuccessMessage(executionDate)))
    case Raised(f) => run.(status := Failed, completedAt := Some(t), message := Some(ErrorMessage(f)))
  }

  /** A finished run has advanced from running to exactly one terminal
      state: completed with the success message when every step returned,
      failed with the exception's text when one raised. The success message
      names the date as submitted, which may differ from the stored one. */
  lemma FinishAdvances(run: PipelineRun, executionDate: string, outcome: Outcome, t: Timestamp)
    requires WellFormedRun(run) && run.status == Running
    ensures Advances(run, Finish(run, executionDate, outcome, t))
    ensures WellFormedRun(Finish(run, executionDate, outcome, t))
    ensures Finish(run, executionDate, outcome, t).status == Completed <==> outcome == Done
    ensures Finish(run, executionDate, outcome, t).status == Failed <==> outcome.Raised?
    ensures outcome == Done ==> Finish(run, executionDate, outcome, t).message == Some(SuccessMessage(executionDate))
    ensures outcome.Raised? ==> Finish(run, executionDate, outcome, t).message == Some(ErrorMessage(outcome.failure))
  {
  }

  /** A date text with one trailing blank is recorded, cut to "2024-01-15",
      but the background body is given the text as submitted: strptime
      rejects it, so the run raises before any step changes the store and
      ends failed. */
  lemma PaddedDateRecordedThenFails(padded: string, s: Store, feed: string -> FeedResponse)
    requires padded == "2024-01-15 "
    ensures StoreVarchar(padded, ExecutionDateWidth) == Some("2024-01-15")
    ensures Run(s, padded, feed).1.Raised? && Run(s, padded, feed).1.failure.kind == DateFormat
    ensures Run(s, padded, feed).0 == s
  {
    StoreVarcharClipsBlanks(padded, "2024-01-150");
    assert MonthEnd(padded) == Some(7) by {
      assert padded[5..7] == "01";
    }
    assert !IsDayField(padded[8..]) by {
      assert |padded[8..]| == 3;
    }
    FetchDateFailures(padded, feed);
  }

  /** A terminal run cannot advance again: its end time and message are
      written once. */
  lemma TerminalIsFinal(before: PipelineRun, after: PipelineRun)
    requires IsTerminal(before.status)
    ensures !Advances(before, after)
  {
  }

  /** What the status endpoint answers. */
  datatype StatusReply =
    | NotFound
    | Snapshot(id: int, status: string, executionDate: string,
               startedAt: Option<Timestamp>, completedAt: Option<Timestamp>, message: Option<string>)

  // ---------------------------------------------------------------------
  // The listing: stage rows by time, newest first, one page at a time

  /** The default page size of the listing. */
  const DefaultPerPage := 20

  predicate Descending(s: seq<StageEarthquake>) {
    forall i, j :: 0 <= i < j < |s| ==> s[i].ts >= s[j].ts
  }

  /** Insert `x` into a newest-first list, ahead of rows of the same time. */
  function InsertByTs(x: StageEarthquake, s: seq<StageEarthquake>): (r: seq<StageEarthquake>)
    ensures multiset(r) == multiset(s) + multiset{x}
    ensures |r| == |s| + 1
    ensures r[0] == x || (s != [] && r[0] == s[0])
  {
    if s == [] then [x]
    else if x.ts >= s[0].ts then [x] + s
    else
      assert s == [s[0]] + s[1..];
      [s[0]] + InsertByTs(x, s[1..])
  }

  /** Inserting into a newest-first list keeps it newest first. */
  lemma {:induction false} InsertByTsDescending(x: StageEarthquake, s: seq<StageEarthquake>)
    requires Descending(s)
    ensures Descending(InsertByTs(x, s))
  {
    if s != [] && x.ts < s[0].ts {
      var rest := InsertByTs(x, s[1..]);
      InsertByTsDescending(x, s[1..]);
      var r := InsertByTs(x, s);
      assert r == [s[0]] + rest;
      assert rest[0] == x || rest[0] == s[1];
      forall i, j | 0 <= i < j < |r| ensures r[i].ts >= r[j].ts {
        if i == 0 {
          assert r[j] == rest[j - 1];
          assert rest[0].ts >= rest[j - 1].ts;
        } else {
          assert r[i] == rest[i - 1] && r[j] == rest[j - 1];
        }
      }
    }
  }

  /** ORDER BY ts DESC: the rows, newest first. */
  function ByTsDesc(s: seq<StageEarthquake>): (r: seq<StageEarthquake>)
    ensures multiset(r) == multiset(s)
    ensures |r| == |s|
    ensures Descending(r)
  {
    if s == [] then []
    else
      assert s == [s[0]] + s[1..];
      InsertByTsDescending(s[0], ByTsDesc(s[1..]));
      InsertByTs(s[0], ByTsDesc(s[1..]))
  }

  /** The page number and page size the listing uses: a missing or
      non-numeric argument takes its default, and a value below 1 is reset
      to the default as paging without an error does. */
  function PageArgs(page: Option<int>, perPage: Option<int>): (r: (int, int))
    ensures r.0 >= 1 && r.1 >= 1
    ensures page.Some? && page.value >= 1 ==> r.0 == page.value
    ensures page.None? || page.value < 1 ==> r.0 == 1
    ensures perPage.Some? && perPage.value >= 1 ==> r.1 == perPage.value
    ensures perPage.None? || perPage.value < 1 ==> r.1 == DefaultPerPage
  {
    var p := if page.Some? then page.value else 1;
    var n := if perPage.Some? then perPage.value else DefaultPerPage;
    (if p < 1 then 1 else p, if n < 1 then DefaultPerPage else n)
  }

  /** One page of a listing with its count of rows and of pages. */
  datatype DataPage = DataPage(items: seq<StageEarthquake>, total: nat, pages: nat, currentPage: int)

  /** The number of pages: the ceiling of total / perPage, 0 when empty. */
  function PageCount(total: nat, perPage: int): nat
    requires perPage >= 1
  {
    if total == 0 then 0 else (total + perPage - 1) / perPage
  }

  /** `pages` is the least number of pages of `perPage` rows that hold
      every row. */
  lemma PageCountIsLeast(total: nat, perPage: int)
    requires perPage >= 1
    ensures PageCount(total, perPage) * perPage >= total
    ensures PageCount(total, perPage) == 0 || (PageCount(total, perPage) - 1) * perPage < total
  {
    var n := PageCount(total, perPage);
    if total > 0 {
      var q := total + perPage - 1;
      assert q == n * perPage + q % perPage;
      assert n * perPage >= total;
      assert (n - 1) * perPage == n * perPage - perPage;
    }
  }

  /** LIMIT `limit` OFFSET `offset` over the ordered rows. */
  function PageOf(rows: seq<StageEarthquake>, offset: nat, limit: nat): seq<StageEarthquake> {
    if offset >= |rows| then []
    else if offset + limit >= |rows| then rows[offset..]
    else rows[offset..offset + limit]
  }

  /** The number of rows before page `page`. */
  function Offset(page: int, perPage: int): (r: nat)
    requires page >= 1 && perPage >= 1
  {
    MulMonotone(0, page - 1, perPage);
    (page - 1) * perPage
  }

  /** The page of the listing: the `page`-th slice of at most `perPage` rows
      of the stage table newest first, the row count and the page count. */
  function Listing(table: seq<StageEarthquake>, page: Option<int>, perPage: Option<int>): (r: DataPage)
    ensures r.total == |table| && r.currentPage == PageArgs(page, perPage).0
    ensures r.pages == PageCount(|table|, PageArgs(page, perPage).1)
    ensures |r.items| <= PageArgs(page, perPage).1
  {
    var (p, n) := PageArgs(page, perPage);
    DataPage(PageOf(ByTsDesc(table), Offset(p, n), n), |table|, PageCount(|table|, n), p)
  }

  lemma MulMonotone(a: int, b: int, n: int)
    requires 0 <= a <= b && n >= 0
    ensures a * n <= b * n
  {
  }

  /** A slice of at most `limit` rows starting at `offset`; full unless it
      reaches the end. */
  lemma PageOfSlice(rows: seq<StageEarthquake>, offset: nat, limit: nat, r: seq<StageEarthquake>)
    requires r == PageOf(rows, offset, limit)
    ensures |r| <= limit
    ensures r == [] <==> offset >= |rows| || limit == 0
    ensures r != [] ==> offset + |r| <= |rows| && r == rows[offset .. offset + |r|]
    ensures offset + limit <= |rows| ==> |r| == limit
    ensures multiset(r) <= multiset(rows)
    ensures Descending(rows) ==> Descending(r)
  {
    if offset >= |rows| {
      assert r == [];
    } else {
      var end := if offset + limit >= |rows| then |rows| else offset + limit;
      assert r == rows[offset .. end];
      SliceKeepsOrder(rows, offset, end);
    }
  }

  /** A slice of a table holds rows of the table only, and keeps its order. */
  lemma SliceKeepsOrder(rows: seq<StageEarthquake>, lo: nat, hi: nat)
    requires lo <= hi <= |rows|
    ensures multiset(rows[lo .. hi]) <= multiset(rows)
    ensures Descending(rows) ==> Descending(rows[lo .. hi])
  {
    var r := rows[lo .. hi];
    assert rows == rows[..lo] + r + rows[hi..];
    assert multiset(rows) == multiset(rows[..lo]) + multiset(r) + multiset(rows[hi..]);
    if Descending(rows) {
      forall i, j | 0 <= i < j < |r| ensures r[i].ts >= r[j].ts {
        assert r[i] == rows[lo + i] && r[j] == rows[lo + j];
      }
    }
  }

  /** A page lies past the last page exactly when its offset is past the
      last row. */
  lemma PastLastPage(total: nat, page: int, perPage: int)
    requires page >= 1 && perPage >= 1
    ensures Offset(page, perPage) >= total <==> page > PageCount(total, perPage)
    ensures page < PageCount(total, perPage) ==> Offset(page, perPage) + perPage <= total
  {
    var pages := PageCount(total, perPage);
    PageCountIsLeast(total, perPage);
    if page > pages {
      MulMonotone(pages, page - 1, perPage);
    } else if pages > 0 {
      MulMonotone(page - 1, pages - 1, perPage);
    }
    if page < pages {
      MulMonotone(page, pages - 1, perPage);
    }
  }

  lemma SubMultisetOfSame<T>(a: multiset<T>, b: multiset<T>, c: multiset<T>)
    requires a <= b && b == c
    ensures a <= c
  {
  }

  /** A page holds at most `perPage` rows, all of the stage table, newest
      first, taken right after the rows of the pages before it. */
  lemma ListingPageRows(table: seq<StageEarthquake>, page: Option<int>, perPage: Option<int>)
    ensures var r := Listing(table, page, perPage);
            var n := PageArgs(page, perPage).1;
            var offset := Offset(PageArgs(page, perPage).0, n);
            && r.total == |table| && r.currentPage == PageArgs(page, perPage).0
            && |r.items| <= n
            && Descending(r.items)
            && multiset(r.items) <= multiset(table)
            && (r.items != [] ==> offset + |r.items| <= |table|
                                  && r.items == ByTsDesc(table)[offset .. offset + |r.items|])
  {
    var r := Listing(table, page, perPage);
    var p, n := PageArgs(page, perPage).0, PageArgs(page, perPage).1;
    var offset := Offset(p, n);
    var ordered := ByTsDesc(table);
    assert r.items == PageOf(ordered, offset, n);
    PageOfSlice(ordered, offset, n, r.items);
    SubMultisetOfSame(multiset(r.items), multiset(ordered), multiset(table));
  }

  /** A page is empty exactly when it lies past the last page, and full
      when it lies before the last page. */
  lemma ListingPageCount(table: seq<StageEarthquake>, page: Option<int>, perPage: Option<int>)
    ensures var r := Listing(table, page, perPage);
            && (r.items == [] <==> r.currentPage > r.pages)
            && (r.currentPage < r.pages ==> |r.items| == PageArgs(page, perPage).1)
  {
    var r := Listing(table, page, perPage);
    var p, n := PageArgs(page, perPage).0, PageArgs(page, perPage).1;
    var ordered := ByTsDesc(table);
    var offset := Offset(p, n);
    assert r.items == PageOf(ordered, offset, n);
    assert r.pages == PageCount(|table|, n) && r.currentPage == p;
    PageOfSlice(ordered, offset, n, r.items);
    PastLastPage(|table|, p, n);
  }

  /** What a page of the listing is: the `page`-th run of at most `perPage`
      rows of the table newest first, full unless it is the last page, empty
      exactly past the last page, with the row and page counts. */
  predicate IsListingPage(table: seq<StageEarthquake>, page: Option<int>, perPage: Option<int>, r: DataPage) {
    var n := PageArgs(page, perPage).1;
    var offset := Offset(PageArgs(page, perPage).0, n);
    && r.total == |table| && r.currentPage == PageArgs(page, perPage).0
    && r.pages == PageCount(|table|, n)
    && |r.items| <= n
    && Descending(r.items)
    && multiset(r.items) <= multiset(table)
    && (r.items != [] ==> offset + |r.items| <= |table|
                          && r.items == ByTsDesc(table)[offset .. offset + |r.items|])
    && (r.items == [] <==> r.currentPage > r.pages)
    && (r.currentPage < r.pages ==> |r.items| == n)
  }

  /** Everything the listing promises about one page. */
  lemma ListingPage(table: seq<StageEarthquake>, page: Option<int>, perPage: Option<int>)
    ensures IsListingPage(table, page, perPage, Listing(table, page, perPage))
  {
    ListingPageRows(table, page, perPage);
    ListingPageCount(table, page, perPage);
  }

  // ---------------------------------------------------------------------
  // The application object

  class PipelineApp {
    /** The module-level pipeline every run drives. */
    const pipeline: EarthquakePipeline
    /** The `pipeline_runs` table, by id. */
    var runs: map<int, PipelineRun>
    /** The next value of the run id sequence. */
    var nextRunId: int

    ghost predicate Valid()
      reads this
    {
      && nextRunId >= 1
      && forall id :: id in runs ==> 1 <= id < nextRunId && runs[id].id == id && WellFormedRun(runs[id])
    }

    constructor (pipeline: EarthquakePipeline)
      ensures Valid()
      ensures this.pipeline == pipeline && runs == map[] && nextRunId == 1
    {
      this.pipeline := pipeline;
      runs := map[];
      nextRunId := 1;
    }

    /** The trigger: record a new run of the execution date as running with
        its start time, before any step runs, and return its id. The date is
        stored as the `varchar(10)` column takes it: trailing blanks past the
        width are cut, and any other over-long date is refused by the INSERT,
        so that no run exists. */
    method RunPipeline(formDate: Option<string>, today: Date, now: Timestamp) returns (r: Result<int, Failure>)
      requires Valid() && ValidDate(today)
      modifies this`runs, this`nextRunId
      ensures Valid()
      ensures var date := ExecutionDate(formDate, today);
              var stored := StoreVarchar(date, ExecutionDateWidth);
              if stored.None? then
                r.Err? && r.error.kind == ValueTooLong && runs == old(runs) && nextRunId == old(nextRunId)
              else
                && r == Ok(old(nextRunId)) && old(nextRunId) !in old(runs)
                && runs == old(runs)[old(nextRunId) := NewPipelineRun(old(nextRunId), stored.value, Some(Running), Some(now), now)]
                && nextRunId == old(nextRunId) + 1
    {
      var executionDate := ExecutionDate(formDate, today);
      var stored := StoreVarchar(executionDate, ExecutionDateWidth);
      if stored.None? {
        return Err(Failure(ValueTooLong, "value too long for type character varying(10)"));
      }
      var id := nextRunId;
      var pipelineRun := NewPipelineRun(id, stored.value, Some(Running), Some(now), now);
      runs := runs[id := pipelineRun];
      nextRunId := nextRunId + 1;
      return Ok(id);
    }

    /** The background body of run `id`, started for the date text
        `executionDate` the trigger was given (the run holds that text as
        the column stored it): fetch, load only when a file was staged,
        transform the execution date; the first step that raises skips the
        rest; then the run is finished with the outcome at `finishedAt` and
        committed once. */
    method RunPipelineAsync(id: int, executionDate: string, feed: string -> FeedResponse, finishedAt: Timestamp)
      requires Valid() && id in runs && runs[id].status == Running
      requires StoreVarchar(executionDate, ExecutionDateWidth) == Some(runs[id].executionDate)
      modifies this`runs, pipeline
      ensures Valid()
      ensures pipeline.State() == Run(old(pipeline.State()), executionDate, feed).0
      ensures runs == old(runs)[id := Finish(old(runs[id]), executionDate, Run(old(pipeline.State()), executionDate, feed).1, finishedAt)]
      ensures Advances(old(runs[id]), runs[id])
    {
      var pipelineRun := runs[id];
      var outcome := pipeline.RunSteps(executionDate, feed);
      if outcome == Done {
        pipelineRun := pipelineRun.(status := Completed, completedAt := Some(finishedAt),
                                    message := Some(SuccessMessage(executionDate)));
      } else {
        pipelineRun := pipelineRun.(status := Failed, completedAt := Some(finishedAt),
                                    message := Some(ErrorMessage(outcome.failure)));
      }
      FinishAdvances(runs[id], executionDate, outcome, finishedAt);
      runs := runs[id := pipelineRun];
    }

    /** The status endpoint: not found for an unknown id, otherwise the
        run's fields with missing times and message kept missing. */
    function PipelineStatus(runId: int): (r: StatusReply)
      requires Valid()
      reads this
      ensures r.NotFound? <==> runId !in runs
      ensures r.Snapshot? ==>
                var run := runs[runId];
                && r.id == runId && ParseStatus(r.status) == Some(run.status)
                && r.executionDate == run.executionDate && r.message == run.message
                && r.startedAt == run.startedAt && r.completedAt == run.completedAt
    {
      if runId !in runs then NotFound
      else
        var run := runs[runId];
        StatusNamesRoundTrip(run.status);
        Snapshot(run.id, StatusName(run.status), run.executionDate, run.startedAt, run.completedAt, run.message)
    }

    /** The listing endpoint over the pipeline's stage table. */
    function EarthquakeDataApi(page: Option<int>, perPage: Option<int>): (r: DataPage)
      reads this, pipeline
      ensures IsListingPage(Values(pipeline.stageEarthquake), page, perPage, r)
    {
      var table := Values(pipeline.stageEarthquake);
      ListingPage(table, page, perPage);
      Listing(table, page, perPage)
    }
  }
}
