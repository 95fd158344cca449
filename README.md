# Earthquake data pipeline — a verified model

This project models, in Dafny, the core of a small ETL application built on
the USGS earthquake feed. For one execution date the application does three
things, in order:

1. **Fetch.** It fetches the feed's GeoJSON for one day (`starttime` = the
   date, `endtime` = the day after). It maps every feature to one record and
   stages the records as a CSV file under `./data`. The file is named after
   the date's text, with the dashes removed.
2. **Load.** It replaces the rows of the raw `earthquake` table that came
   from a file of that name with the rows of the staged file. This happens in
   one transaction.
3. **Transform.** It replaces the rows of the `stage_earthquake` table whose
   day lies in a date range. The new rows are the cleaned images of the raw
   rows of those days that have a magnitude. A cleaned row has its timestamp
   and day derived from the millisecond `time`, and its place cut after the
   first `" of "`. This is also one transaction.

A web trigger records each run in `pipeline_runs` as `running`. A background
body then drives the run to `completed` or `failed`. A status endpoint reports
one run, and a listing endpoint pages through the stage table, newest event
first.

## Modules

- `Wrappers` and `Errors`: `Option`/`Result`, and the kinds of exception the
  steps raise.
- `Calendar`: the calendar primitives the fetch step relies on.
  - `strptime(s, "%Y-%m-%d")`, including its acceptance of unpadded months
    and days.
  - `date + timedelta(days=1)`.
  - `strftime("%Y-%m-%d")`.
  - `date.toordinal()`, the representation of every date in the model.
- `Models`: the three tables' rows, with nullable columns as `Option`, and the
  run statuses with their column default.
- `Places`: the `CASE ... POSITION(' of ' IN place) ... TRIM(...)` cleaning
  rule.
- `Feed`: the feed's side of the fetch step. It covers the response document,
  the feature→record mapping, the staging file name and path, and `Fetch`, the
  whole step as a function of what the feed answers.
- `Tables`: the two table replacements as pure functions over rows.
  - Load is delete-by-`file_name` then append.
  - Transform is delete-by-day-range then append the filter-and-map `SELECT`.
- `Pipeline`: the `EarthquakePipeline` class. Its fields are the staging
  directory and both tables, and its methods are the three steps and the run
  steps.
  - Each method is proved equal to a function of the old state (`Load`,
    `Transform`, `Run`).
  - A transaction is modelled as work on a copy that is assigned back only
    on commit.
  - The transform's bounds are read as the server reads a `date` literal
    (`DateLiteral`), which differs from strptime on a blank-padded day.
- `App`: the application object, covering run creation, the background run
  body, the status lookup and the ordering and paging of the listing.

The feed (`requests.get`) is a parameter, `feed: string -> FeedResponse`: the
answer for each URL. Clock readings (`datetime.now()`) are parameters too.
The database server is represented by the `Store` fields `online`,
`hasEarthquakeTable` and `hasStageTable`.

## Model

| member | source | states |
|---|---|---|
| Calendar.NextDayIsFollowingDay | earthquake_pipeline.py:111 | The window end is a real date exactly one day (ordinal) after the execution date, across month ends, year ends and 29 February; only 9999-12-31 has none (OverflowError). |
| Calendar.NextDay | earthquake_pipeline.py:111 | `date + timedelta(days=1)` gives a valid date for every valid date except 9999-12-31, which overflows. |
| Calendar.FormatDate | earthquake_pipeline.py:111 | `strftime("%Y-%m-%d")` of a date with a four-digit year is ten characters with dashes at positions 4 and 7. |
| Calendar.ParseDate | earthquake_pipeline.py:111 | `strptime` succeeds only on text matching `%Y-%m-%d` that names an existing day, and fails with a format or range error otherwise. |
| Calendar.FormatThenParse | main.py:44 | A date formatted `%Y-%m-%d` (four-digit year) parses back to the same date. |
| Calendar.EpochOrdinal | earthquake_pipeline.py:198 | 1970-01-01, the day Unix time 0 falls on, has ordinal 719163. |
| Models.StatusNamesRoundTrip | models.py:10 | Each of the four statuses is stored under its own name, fits the 20-character column and reads back as the same status. |
| Models.NewPipelineRun | models.py:8-14 | A new run row keeps the id, execution date and start time it is given, and takes the column default `pending` unless a status is given; `created_at` is stamped, and `completed_at` and `message` are NULL. |
| Models.StoreVarchar | models.py:9 | A `varchar(n)` column stores text that fits unchanged, and stores longer text cut to exactly n characters when it is not refused; what it stores never exceeds n characters. |
| Models.StoreVarcharRefuses | earthquake_pipeline.py:71-77 | The column refuses a text exactly when some character past the width is not a blank; a stored text is a prefix of the given one, and what is cut off is blanks only. |
| Models.StoreVarcharClipsBlanks | models.py:9 | `"2024-01-15 "` (one trailing blank) is stored as `"2024-01-15"` in the 10-character date column, and `"2024-01-150"` is refused. |
| Places.CleanPlace | earthquake_pipeline.py:199-203 | The cleaned place is NULL exactly when the raw place is NULL. |
| Places.CleanPlaceCases | earthquake_pipeline.py:199-203 | NULL stays NULL; text without `" of "` is unchanged; otherwise the result is the trimmed text after the first occurrence, and no earlier occurrence exists. |
| Places.CleanPlaceExample | earthquake_pipeline.py:199-203 | `"10km SSE of Example Town"` cleans to `"Example Town"`. |
| Places.CleanPlaceFirstSeparator | earthquake_pipeline.py:200-201 | With two separators, everything after the first is kept: `"5 km N of Isle of Pines"` → `"Isle of Pines"`. |
| Places.CleanPlaceShape | earthquake_pipeline.py:201 | A cleaned place is never longer than the original, and when the rule changed the text it has no blank at either end. |
| Places.Trim | earthquake_pipeline.py:201 | `TRIM` removes exactly the leading and trailing blanks, and the result is a slice of the input. |
| Feed.MapFeature | earthquake_pipeline.py:133-143 | A feature maps to a record exactly when it has properties and at least three coordinates; otherwise the indexing raises. A JSON `null` coordinate is copied into the record as missing. |
| Feed.MapFeatures | earthquake_pipeline.py:131-144 | One record per feature, in feature order, or the error of the first bad feature. |
| Feed.StageResponse | earthquake_pipeline.py:115-149 | A staged answer lies at `./data/<name>` with at least one record, every record carrying the name made from the date text. Only a non-JSON body, a body without `get` or a bad feature raises. |
| Feed.Fetch | earthquake_pipeline.py:106-149 | A staged file lies at `./data/<name>` with the name made from the date text, holds at least one record and every record carries that name. A raise is a date error, an overflow, a non-JSON or non-object body or a bad feature. |
| Feed.FetchDateFailures | earthquake_pipeline.py:111 | An execution date strptime rejects raises its error before any request; the last representable day raises an overflow. |
| Feed.FetchAsksForOneDay | earthquake_pipeline.py:109-116 | Fetch depends only on the feed's answer to the one URL from the execution date to the next day. |
| Feed.FetchOutcomes | earthquake_pipeline.py:115-149 | Nothing is staged exactly when the request fails or `features` is missing or empty. A staged file lies at `./data/<name>`, `<name>` being the date text without dashes plus `_earthquakedata.csv`, and holds one record per feature with time, place, mag, coordinates 0, 1 and 2 and that name. Fetch raises exactly on a non-JSON body or a bad feature. |
| Feed.StagingFileNameAsWritten | earthquake_pipeline.py:128 | The name ends with `_earthquakedata.csv`, and what precedes it is exactly the date text with its dashes removed, so it holds no dash. |
| Feed.WithoutDashesAroundDash | earthquake_pipeline.py:128 | Removing dashes from two parts joined by a dash gives the two parts without dashes, joined directly: the separators go and every other character stays. |
| Feed.StagingFileNameAsWrittenFits | earthquake_pipeline.py:111-128 | For a date text strptime accepts, the name is at most 29 characters long, so it fits `file_name VARCHAR(255)`. |
| Feed.StagingFileNameInjective | earthquake_pipeline.py:128 | Corrected naming: the name made from the parsed day determines the day. |
| Feed.StagingFileNameAsWrittenCollides | earthquake_pipeline.py:128 | As written, `2024-1-15` and `2024-11-5` both parse and share one file name, and `2024-01-15` and `2024-1-15` name the same day with two file names. |
| Feed.StagingPathBasename | earthquake_pipeline.py:128-157 | For a date text strptime accepts, the basename of the staged path is the name made from that text, which is the name every record carries: the text holds no slash. |
| Feed.JoinPath | earthquake_pipeline.py:129 | `os.path.join` ends with the joined name. |
| Feed.Basename | earthquake_pipeline.py:157 | `os.path.basename` gives the slash-free suffix after the last slash. |
| Tables.ReplaceFile | earthquake_pipeline.py:162-170 | After the delete and the COPY, no row of the old table with the loaded name is left, and the copied rows follow the kept ones. |
| Tables.LoadReplacesFile | earthquake_pipeline.py:162-170 | After delete-then-insert, the rows of the loaded file name are exactly the inserted rows. The rows of every other file name are unchanged. |
| Tables.LoadIdempotent | earthquake_pipeline.py:162-170 | Loading the same rows twice gives the same table as loading them once, apart from surrogate ids. |
| Tables.TruncDiv | earthquake_pipeline.py:197 | `time/1000` on a bigint truncates toward zero: the remainder has the sign of `time` and is smaller than the divisor. |
| Tables.EventDay | earthquake_pipeline.py:197-198 | The derived `dt` is the UTC day the derived `ts` second falls on. |
| Tables.EventDayExamples | earthquake_pipeline.py:197-198 | Milliseconds 0 and 86399999 fall on 1970-01-01, 86400000 on the next day; −999 ms truncates to second 0, and −1000 ms falls on 1969-12-31. |
| Tables.Derive | earthquake_pipeline.py:194-211 | Every derived row lies in the day range and has a magnitude. |
| Tables.DeriveMembers | earthquake_pipeline.py:194-211 | A stage row is derived exactly when it is the cleaned image of a raw row in the day range that has a magnitude. |
| Tables.ReplaceDays | earthquake_pipeline.py:189-211 | After the range delete and the insert, every stage row inside the range has a magnitude. |
| Tables.TransformReplacesDays | earthquake_pipeline.py:189-213 | After the range delete and the insert, stage rows outside the range are unchanged, and rows inside it are exactly the derived rows. |
| Tables.TransformIdempotent | earthquake_pipeline.py:189-213 | Repeating the transform over the same raw table gives the same stage table, apart from surrogate ids. |
| Tables.TransformKeepsOtherDays | earthquake_pipeline.py:189-190 | The stage rows of any day outside the range are untouched. |
| Pipeline.CopyRow | earthquake_pipeline.py:168-170 | COPY into the columns declared at earthquake_pipeline.py:69-77 accepts a CSV row exactly when place and file name fit 255 characters once trailing blanks are cut, and time, longitude, latitude and file name are present. It reads back every field, an empty place as NULL, a missing depth as NULL, over-long blank-padded texts cut to 255; a rejected row is a length violation or a NOT NULL violation of one of those four columns. |
| Pipeline.CopyRows | earthquake_pipeline.py:168-170 | COPY reads back every staged row (an empty place as NULL) or fails with the error of the first row it rejects. |
| Pipeline.Load | earthquake_pipeline.py:151-180 | A load that raises leaves the store as it was; otherwise only the raw table and its id counter change, and the counter does not go back. |
| Pipeline.DateLiteral | earthquake_pipeline.py:189-190 | The server refuses a bound unless strptime takes it and it has no blank; a refused bound is `InvalidDateLiteral`, and an accepted one is a valid day. |
| Pipeline.DateLiteralAgrees | earthquake_pipeline.py:189-190 | The server reads a bound exactly when strptime does and the text has no blank, and then as the same day. The only blank strptime lets through pads a one-digit day, and the server refuses that text. |
| Pipeline.BlankPaddedDayExample | earthquake_pipeline.py:189-190 | `2024-01- 5` is 5 January 2024 to strptime and no date to the server. |
| Pipeline.Transform | earthquake_pipeline.py:182-227 | A transform that raises leaves the store as it was; otherwise only the stage table and its id counter change. `UndefinedTable` is raised only when a table is missing. |
| Pipeline.Run | main.py:59-67 | The staging directory after a run is that of the fetch. The server's state and which tables exist are unchanged, and neither id counter goes back. |
| Pipeline.LoadOfNothing | earthquake_pipeline.py:153-155 | Loading the empty path changes nothing and raises nothing. |
| Pipeline.LoadIsAtomicReplace | earthquake_pipeline.py:151-180 | A load that raises leaves the store as it was. A load completes exactly when the server is up, the table exists, the file exists and COPY accepts every row. For a basename that fits the column, the rows of that name are then exactly the file's rows, and nothing else changes. |
| Pipeline.LoadRefuses | earthquake_pipeline.py:151-180 | A load for a path when the server is down, the table or the file is missing, or COPY rejects a row raises and leaves the store unchanged. |
| Pipeline.CopiedRowsKeepName | earthquake_pipeline.py:168-170 | Rows that all carry a file name that fits the column keep exactly that name through COPY. |
| Pipeline.LoadTwiceIsLoadOnce | earthquake_pipeline.py:162-173 | Loading the same staged file again succeeds and, for a basename that fits the column, leaves the same raw rows, apart from surrogate ids. |
| Pipeline.TransformIsAtomicReplace | earthquake_pipeline.py:182-227 | A transform that raises leaves the store as it was, and a missing table is told apart from every other failure. It completes exactly when the server is up, both tables exist and the server reads both bounds as dates. The day range is then rebuilt from the raw table, and other days and the raw table are unchanged. |
| Pipeline.TransformTwiceIsTransformOnce | earthquake_pipeline.py:189-216 | A second transform over the same range succeeds and leaves the same stage rows, apart from surrogate ids. |
| Pipeline.RunStopsAtFetchError | main.py:58-77 | A fetch that raises ends the run with that error and changes nothing. |
| Pipeline.NetworkFailureCompletes | main.py:60-72 | A failed request is not an exception. With the server up and both tables present, the run does the transform alone, leaving the raw table and the files unchanged, and completes exactly when the date text has no blank. |
| Pipeline.CompletedRun | main.py:59-67 | A completed run had a date text strptime takes and with no blank. It has replaced the raw rows of the file named from the date text with the staged records, and rebuilt exactly the execution day's stage rows from the resulting raw table. |
| Pipeline.BlankDateRunFails | main.py:59-77 | A run for a date text with a blank never completes. When the fetch staged rows and COPY accepts them, the load commits them and the transform then raises `InvalidDateLiteral`. |
| Pipeline.AsWrittenRunReplacesOtherDay | earthquake_pipeline.py:128-163 | Two completed runs whose date texts give one file name: after the second, the raw rows of that name are the second run's records, whatever the first loaded. |
| Pipeline.AsWrittenExampleRuns | earthquake_pipeline.py:128-163 | A run for `2024-11-5` after one for `2024-1-15` (two different days) leaves under their shared file name only the 5 November records. |
| Pipeline.AsWrittenRunsKeepBothNames | earthquake_pipeline.py:128-163 | Two completed runs whose date texts give different file names: after the second, the raw rows under the first name are still the first run's records, beside the second run's under the second name. |
| Pipeline.AsWrittenExampleDuplicates | earthquake_pipeline.py:128-163 | `2024-01-15` and `2024-1-15` both parse to 15 January 2024 but give two file names, so a run for each leaves two sets of raw rows for that day, one under each name. |
| Pipeline.CorrectedLoadKeepsOtherDays | earthquake_pipeline.py:128-163 | With names made from the parsed day, loading one day's file leaves the raw rows of every other day's file unchanged. |
| Pipeline.EarthquakePipeline.FetchDataToLocalCsv | earthquake_pipeline.py:106-149 | The feature loop returns the path `Fetch` stages, or `""`, or the error it raises, and the staging directory gains exactly that file. |
| Pipeline.EarthquakePipeline.LoadCsvToPostgres | earthquake_pipeline.py:151-180 | The new state and the outcome are those of `Load`. |
| Pipeline.EarthquakePipeline.TransformInPostgres | earthquake_pipeline.py:182-227 | The new state and the outcome are those of `Transform`. |
| Pipeline.EarthquakePipeline.RunSteps | main.py:59-67 | Fetch, load only if a path came back, then transform the execution date; the first raise skips the rest. The result is `Run`. |
| App.ExecutionDate | main.py:42-44 | The execution date is never empty, and a non-empty submitted value is kept as given. |
| App.DefaultDateIsToday | main.py:42-44 | A missing or empty form date defaults to today formatted `%Y-%m-%d`, which names today and fits the 10-character column. |
| App.Finish | main.py:69-77 | A finished run is terminal with `completed_at` set to the given time and a message, `completed` exactly when every step returned, and its other fields unchanged. |
| App.FinishAdvances | main.py:69-77 | A running run ends in exactly one terminal state: `completed` with `Successfully processed data for <date>`, the date as submitted, when every step returned, `failed` with `Error: <text>` when one raised. `completed_at` is set in both cases, and nothing else changes. |
| App.PaddedDateRecordedThenFails | main.py:42-60 | `"2024-01-15 "` is recorded cut to `"2024-01-15"`, but the run body is given the submitted text, which strptime rejects: the run raises a format error and changes nothing. |
| App.TerminalIsFinal | main.py:70-79 | A terminal run cannot advance again, so its terminal fields are written once. |
| App.PipelineApp.RunPipeline | main.py:42-53 | A new run is recorded as `running` with `started_at` set before any step, under a fresh id, with its date as the 10-character column stores it: trailing blanks past 10 characters are cut. Any other date longer than 10 characters is refused and no run is recorded. |
| App.PipelineApp.RunPipelineAsync | main.py:56-79 | The run steps are given the date text as submitted, whose stored form is the run's date; the pipeline's new state is that of those steps. Only the run itself changes, and it advances from `running` to the terminal state of the outcome. |
| App.PipelineApp.PipelineStatus | main.py:89-100 | An unknown id is not found (404). A known id gives its id, status name, date, message and both times, a NULL time kept NULL. |
| App.ByTsDesc | main.py:108 | `ORDER BY ts DESC` gives a permutation of the rows, newest first. |
| App.PageArgs | main.py:105-109 | A missing or non-numeric page is 1 and per_page is 20; values below 1 are reset to those defaults, as paging without `error_out` does. |
| App.PageCountIsLeast | main.py:122 | `pages` is the least page count whose pages hold every row (0 when there are none). |
| App.Listing | main.py:105-124 | A page reports the row total, the page number used and `pages` as the page count, and holds at most per_page rows. |
| App.ListingPageRows | main.py:105-124 | A page holds at most per_page rows of the stage table, newest first, taken right after the rows of the earlier pages. It reports the row total and the page number used. |
| App.ListingPageCount | main.py:108-124 | A page is empty exactly when it lies past the last page, and full when it lies before the last page. |
| App.ListingPage | main.py:105-124 | A page is the `page`-th slice of the rows newest first: at most per_page rows, empty exactly past the last page, full before it, with the row and page counts. |
| App.PipelineApp.EarthquakeDataApi | main.py:102-124 | The listing endpoint's page over the pipeline's stage table is that slice: the rows right after the earlier pages, newest first, at most per_page of them and exactly per_page before the last page, with `pages` the page count and the row total. |

## Left out

- Printing, HTTP, JSON decoding, pandas and psycopg2 are not modelled. The feed is the parameter `feed`, and a failed request is one value. The CSV file is the list of records it holds.
- Exception wording is not modelled. Each failure carries a kind and a short text, and the run message is `"Error: "` followed by that text, not Python's exact `str(e)`.
- `repr` escaping inside strptime's message is not modelled.
- Unicode digits, which Python's `\d` also accepts in a day field, are not modelled.
- Pipeline.DateLiteral: the server's date-literal parsing is modelled only for the texts a run passes, those strptime takes, where the two differ only on a blank-padded day. The server also accepts spellings strptime refuses (`Jan 15 2024`), which a run never reaches the transform with; a direct call with one would be refused here.
- Tables.EventDay: the session time zone is fixed to UTC.
- `to_timestamp`'s range limits are not modelled.
- `ts` is whole seconds, not a timestamp type.
- Floats (magnitude, latitude, longitude, depth) are opaque values that nothing computes on. pandas' conversion of an integer column with a missing value to floats is not modelled; the whole COPY fails either way, with a different message.
- Pipeline.LoadIsAtomicReplace: the replacement is promised only for a basename that fits `file_name VARCHAR(255)`. A longer, blank-padded name is stored cut, so the DELETE by the full name misses its rows. Every name the fetch step makes fits (Feed.StagingFileNameAsWrittenFits).
- Pipeline.LoadTwiceIsLoadOnce: stated, for the same reason, only for a basename that fits `file_name VARCHAR(255)`.
- Pipeline.CopyRow: CSV fidelity beyond the empty-string/NULL rule and the NOT NULL and VARCHAR(255) checks is not modelled (quoting, embedded newlines, the header line).
- Failures while writing the CSV file (`to_csv`) are not modelled.
- The database is not modelled beyond `online`, the two table-existence flags and the rows. A connection failure is raised before the transaction opens, and its result is the same unchanged store.
- SERIAL values consumed by rolled-back inserts are not modelled. Ids are a counter that advances only on commit, and the contracts compare tables apart from ids.
- Threading is not modelled: the daemon thread, `app.app_context()` and concurrent runs for the same date. One run's body is a sequential method.
- The ORM session is not modelled. The background body updates the run object created in the request's session and commits the thread's session. The model treats that single commit as writing the run; whether the ORM persists those changes depends on session scoping the model does not see.
- The run's `started_at` and `created_at` are taken from one clock reading `now`; the source calls `datetime.now()` twice.
- App.ByTsDesc: rows with equal `ts` keep table order. SQL leaves that order unspecified, so the contracts state only descending order and permutation.
- JSON rendering (`isoformat`, `jsonify`) is not modelled. The listing reports the stage rows themselves.
- The dashboard, `/data`, flash and redirect are presentation and are not modelled.
- `create_database`, `create_tables`, `db.create_all()`, `config.py` and `setup.py` are provisioning and configuration.

## Intended behaviour vs. code

Where the code does something a reader might not expect, the model follows
the code:

- **Place cleaning cuts at the first `" of "`.** `POSITION` finds the first
  occurrence, so a place with two keeps the text after the first
  (earthquake_pipeline.py:200-201).
- **Runs start as `running`, not `pending`.** `pending` is only the column
  default (main.py:49, models.py:10).
- **A failed request does not fail the run.** It returns `""`, so the run
  goes on to transform and completes (earthquake_pipeline.py:118-120).
- **Depth needs a third coordinate.** A feature with two coordinates raises
  (earthquake_pipeline.py:141).

## Findings

| source | as written | input that shows it | evidently intended | confidence | as-written member | corrected member |
|---|---|---|---|---|---|---|
| earthquake_pipeline.py:128 | The staging file name is the execution date's text with its dashes removed, and strptime (line 111) also accepts unpadded months and days. | `2024-1-15` and `2024-11-5` both give `2024115_earthquakedata.csv`, so loading one day deletes the other day's raw rows. `2024-01-15` and `2024-1-15` give two names for one day, so running that day once with each text keeps two sets of its raw rows (Pipeline.AsWrittenExampleDuplicates). | One name per calendar day, built from the parsed date: `YYYYMMDD_earthquakedata.csv`. | medium, not executed | Pipeline.AsWrittenExampleRuns | Pipeline.CorrectedLoadKeepsOtherDays |

The steps (`Feed.Fetch`, `Pipeline.Run` and the `EarthquakePipeline`
methods) keep the code's naming, so that what a run does is what the code
does. The corrected name, `Feed.StagingFileName`, is stated next to it, with
the property that one day's load keeps every other day's raw rows. Being a
function of the parsed day, it also gives every spelling of one day the same
name.
