/** The three tables of the application: pipeline runs, raw earthquake rows
    and cleaned (stage) earthquake rows. Nullable columns are Options; the
    float columns are carried as opaque values (`real`) that nothing computes
    on. Dates are ordinals (`date.toordinal()`), timestamps whole seconds. */
module Models {
  import opened Wrappers

  /** A DateTime column, as an opaque clock reading. */
  type Timestamp = int

  /** The four values the `status` column takes. */
  datatype RunStatus = Pending | Running | Completed | Failed

  /** The column default of `pipeline_runs.status`. */
  const DefaultStatus := Pending

  /** The `status` column holds at most 20 characters. */
  const StatusWidth := 20

  /** `pipeline_runs.execution_date` is a String(10). */
  const ExecutionDateWidth := 10

  /** Postgres storing text in a `varchar(width)` column: text that fits is
      stored as it is, longer text whose excess is all blanks is cut to the
      width, and any other longer text is refused (None). */
  function StoreVarchar(s: string, width: nat): (r: Option<string>)
    ensures r.Some? ==> |r.value| <= width
    ensures r.Some? && |s| > width ==> |r.value| == width
    ensures |s| <= width ==> r == Some(s)
  {
    if |s| <= width then Some(s)
    else if forall i :: width <= i < |s| ==> s[i] == ' ' then Some(s[..width])
    else None
  }

  /** The column refuses a text exactly when a character past the width is
      not a blank; what it stores is a prefix of the text, and what it cuts
      off is blanks only. */
  lemma StoreVarcharRefuses(s: string, width: nat)
    ensures StoreVarchar(s, width).None? <==> exists i :: width <= i < |s| && s[i] != ' '
    ensures StoreVarchar(s, width).Some? ==> StoreVarchar(s, width).value <= s
    ensures StoreVarchar(s, width).Some? ==>
              forall i :: |StoreVarchar(s, width).value| <= i < |s| ==> s[i] == ' '
  {
  }

  /** An eleven-character date whose last character is a blank is stored
      cut to ten characters; one ending in any other character is refused. */
  lemma StoreVarcharClipsBlanks(padded: string, longer: string)
    requires padded == "2024-01-15 " && longer == "2024-01-150"
    ensures StoreVarchar(padded, ExecutionDateWidth) == Some("2024-01-15")
    ensures StoreVarchar(longer, ExecutionDateWidth) == None
  {
    assert padded[..10] == "2024-01-15";
    assert longer[10] != ' ';
  }

  function StatusName(s: RunStatus): string {
    match s
    case Pending => "pending"
    case Running => "running"
    case Completed => "completed"
    case Failed => "failed"
  }

  function ParseStatus(t: string): Option<RunStatus> {
    if t == "pending" then Some(Pending)
    else if t == "running" then Some(Running)
    else if t == "completed" then Some(Completed)
    else if t == "failed" then Some(Failed)
    else None
  }

  /** Each status is stored under its own name, which fits the column and
      reads back as the same status. */
  lemma StatusNamesRoundTrip(s: RunStatus)
    ensures ParseStatus(StatusName(s)) == Some(s)
    ensures 0 < |StatusName(s)| <= StatusWidth
  {
  }

  /** One row of `pipeline_runs`. */
  datatype PipelineRun = PipelineRun(
    id: int,
    executionDate: string,
    status: RunStatus,
    startedAt: Option<Timestamp>,
    completedAt: Option<Timestamp>,
    message: Option<string>,
    createdAt: Option<Timestamp>)

  predicate IsTerminal(s: RunStatus) {
    s == Completed || s == Failed
  }

  /** A new `PipelineRun(...)` as the ORM inserts it: the status falls back to
      the column default, `created_at` is stamped, the rest stays NULL. */
  function NewPipelineRun(id: int, executionDate: string, status: Option<RunStatus>,
                          startedAt: Option<Timestamp>, now: Timestamp): (r: PipelineRun)
    ensures r.id == id && r.executionDate == executionDate && r.startedAt == startedAt
    ensures r.status == (if status.Some? then status.value else DefaultStatus)
    ensures r.completedAt == None && r.message == None && r.createdAt == Some(now)
  {
    PipelineRun(id, executionDate, if status.Some? then status.value else DefaultStatus,
                startedAt, None, None, Some(now))
  }

  /** One row of `earthquake` without its surrogate id: `time` (epoch
      milliseconds), longitude, latitude and file_name are NOT NULL. */
  datatype EarthquakeData = EarthquakeData(
    time: int,
    place: Option<string>,
    magnitude: Option<real>,
    longitude: real,
    latitude: real,
    depth: Option<real>,
    fileName: string)

  /** One row of `stage_earthquake` without its surrogate id: `ts` in seconds
      since the Unix epoch, `dt` the ordinal of its day. */
  datatype StageEarthquake = StageEarthquake(
    ts: Timestamp,
    dt: int,
    place: Option<string>,
    magnitude: Option<real>,
    latitude: real,
    longitude: real)

  /** A stored row: the SERIAL primary key and the column values. */
  datatype Row<T> = Row(id: int, values: T)

  /** A table's contents apart from the surrogate ids. */
  function Values<T>(t: seq<Row<T>>): (r: seq<T>)
    ensures |r| == |t| && forall i :: 0 <= i < |t| ==> r[i] == t[i].values
  {
    seq(|t|, i requires 0 <= i < |t| => t[i].values)
  }

  /** The rows an INSERT adds, numbered from the table's next SERIAL value. */
  function Numbered<T>(vs: seq<T>, firstId: int): (r: seq<Row<T>>)
    ensures Values(r) == vs
    ensures forall i :: 0 <= i < |r| ==> r[i].id == firstId + i
  {
    seq(|vs|, i requires 0 <= i < |vs| => Row(firstId + i, vs[i]))
  }
}
