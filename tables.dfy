/** The two transactions of the pipeline as operations on table contents.
    The load: DELETE FROM earthquake WHERE file_name = name, then COPY the
    staged rows in. The transform: DELETE FROM stage_earthquake WHERE dt
    BETWEEN lo AND hi, then INSERT the cleaned images of the raw rows whose
    day lies in [lo, hi] and whose magnitude is present. */
module Tables {
  import opened Wrappers
  import opened Models
  import opened Calendar
  import opened Places

  // ---------------------------------------------------------------------
  // The raw table, grouped by staging file

  /** The rows of `t` whose file_name is (`matching`) or is not (`!matching`)
      `name`, in table order. */
  function RowsOfFile(t: seq<Row<EarthquakeData>>, name: string, matching: bool): (r: seq<Row<EarthquakeData>>)
    ensures |r| <= |t|
  {
    if t == [] then []
    else
      (if (t[0].values.fileName == name) == matching then [t[0]] else [])
        + RowsOfFile(t[1..], name, matching)
  }

  /** Every row selected by file name has (or lacks) that name. */
  lemma {:induction false} RowsOfFileSelects(t: seq<Row<EarthquakeData>>, name: string, matching: bool)
    ensures forall i :: 0 <= i < |RowsOfFile(t, name, matching)| ==>
              (RowsOfFile(t, name, matching)[i].values.fileName == name) == matching
  {
    if t != [] {
      RowsOfFileSelects(t[1..], name, matching);
      var head := if (t[0].values.fileName == name) == matching then [t[0]] else [];
      var rest := RowsOfFile(t[1..], name, matching);
      var r := RowsOfFile(t, name, matching);
      assert r == head + rest;
      forall i | 0 <= i < |r| ensures (r[i].values.fileName == name) == matching {
        if i >= |head| {
          assert r[i] == rest[i - |head|];
        } else {
          assert r[i] == t[0];
        }
      }
    }
  }

  lemma {:induction false} RowsOfFileAppend(a: seq<Row<EarthquakeData>>, b: seq<Row<EarthquakeData>>, name: string, matching: bool)
    ensures RowsOfFile(a + b, name, matching) == RowsOfFile(a, name, matching) + RowsOfFile(b, name, matching)
  {
    if a == [] {
      assert a + b == b;
    } else {
      var head := if (a[0].values.fileName == name) == matching then [a[0]] else [];
      assert (a + b)[0] == a[0] && (a + b)[1..] == a[1..] + b;
      RowsOfFileAppend(a[1..], b, name, matching);
      var ra, rb := RowsOfFile(a[1..], name, matching), RowsOfFile(b, name, matching);
      assert RowsOfFile(a + b, name, matching) == head + (ra + rb);
      assert RowsOfFile(a, name, matching) == head + ra;
      assert head + (ra + rb) == (head + ra) + rb;
    }
  }

  lemma {:induction false} RowsOfFileAll(t: seq<Row<EarthquakeData>>, name: string, matching: bool)
    requires forall i :: 0 <= i < |t| ==> (t[i].values.fileName == name) == matching
    ensures RowsOfFile(t, name, matching) == t
    ensures RowsOfFile(t, name, !matching) == []
  {
    if t != [] {
      RowsOfFileAll(t[1..], name, matching);
    }
  }

  lemma {:induction false} RowsOfFileTwice(t: seq<Row<EarthquakeData>>, name: string, matching: bool)
    ensures RowsOfFile(RowsOfFile(t, name, matching), name, matching) == RowsOfFile(t, name, matching)
    ensures RowsOfFile(RowsOfFile(t, name, matching), name, !matching) == []
  {
    if t != [] {
      RowsOfFileTwice(t[1..], name, matching);
      var head := if (t[0].values.fileName == name) == matching then [t[0]] else [];
      RowsOfFileAppend(head, RowsOfFile(t[1..], name, matching), name, matching);
      RowsOfFileAppend(head, RowsOfFile(t[1..], name, matching), name, !matching);
    }
  }

  /** The raw table after a committed load of `rows` from file `name`. */
  function ReplaceFile(t: seq<Row<EarthquakeData>>, name: string, rows: seq<Row<EarthquakeData>>): (r: seq<Row<EarthquakeData>>)
    ensures |r| >= |rows| && r[|r| - |rows|..] == rows
    ensures forall i :: 0 <= i < |r| - |rows| ==> r[i].values.fileName != name
  {
    RowsOfFileSelects(t, name, false);
    RowsOfFile(t, name, false) + rows
  }

  /** After a load, the rows of the loaded file are exactly the loaded rows,
      and the rows of every other file are the ones that were there. */
  lemma LoadReplacesFile(t: seq<Row<EarthquakeData>>, name: string, rows: seq<Row<EarthquakeData>>)
    requires forall i :: 0 <= i < |rows| ==> rows[i].values.fileName == name
    ensures RowsOfFile(ReplaceFile(t, name, rows), name, true) == rows
    ensures RowsOfFile(ReplaceFile(t, name, rows), name, false) == RowsOfFile(t, name, false)
    ensures forall other :: other != name ==>
              RowsOfFile(ReplaceFile(t, name, rows), other, true) == RowsOfFile(t, other, true) + RowsOfFile(rows, other, true)
  {
    RowsOfFileAppend(RowsOfFile(t, name, false), rows, name, true);
    RowsOfFileAppend(RowsOfFile(t, name, false), rows, name, false);
    RowsOfFileTwice(t, name, false);
    RowsOfFileAll(rows, name, true);
    forall other | other != name
      ensures RowsOfFile(ReplaceFile(t, name, rows), other, true) == RowsOfFile(t, other, true) + RowsOfFile(rows, other, true)
    {
      RowsOfFileAppend(RowsOfFile(t, name, false), rows, other, true);
      OtherFileUntouched(t, name, other);
    }
  }

  lemma {:induction false} OtherFileUntouched(t: seq<Row<EarthquakeData>>, name: string, other: string)
    requires other != name
    ensures RowsOfFile(RowsOfFile(t, name, false), other, true) == RowsOfFile(t, other, true)
  {
    if t != [] {
      OtherFileUntouched(t[1..], name, other);
      var head := if t[0].values.fileName != name then [t[0]] else [];
      RowsOfFileAppend(head, RowsOfFile(t[1..], name, false), other, true);
    }
  }

  /** Loading the same file twice leaves the same rows as loading it once,
      apart from the surrogate ids. */
  lemma LoadIdempotent(t: seq<Row<EarthquakeData>>, name: string, vs: seq<EarthquakeData>, id1: int, id2: int)
    requires forall i :: 0 <= i < |vs| ==> vs[i].fileName == name
    ensures Values(ReplaceFile(ReplaceFile(t, name, Numbered(vs, id1)), name, Numbered(vs, id2)))
         == Values(ReplaceFile(t, name, Numbered(vs, id1)))
  {
    var once := ReplaceFile(t, name, Numbered(vs, id1));
    LoadReplacesFile(t, name, Numbered(vs, id1));
    assert RowsOfFile(once, name, false) == RowsOfFile(t, name, false);
    ValuesAppend(RowsOfFile(t, name, false), Numbered(vs, id2));
    ValuesAppend(RowsOfFile(t, name, false), Numbered(vs, id1));
  }

  lemma ValuesAppend<T>(a: seq<Row<T>>, b: seq<Row<T>>)
    ensures Values(a + b) == Values(a) + Values(b)
  {
  }

  // ---------------------------------------------------------------------
  // The derived table, replaced by day range

  const MillisPerSecond := 1000
  const SecondsPerDay := 86400

  /** Postgres division of bigints, which truncates toward zero. */
  function TruncDiv(x: int, d: int): (q: int)
    requires d > 0
    ensures x >= 0 ==> 0 <= x - q * d < d
    ensures x < 0 ==> -d < x - q * d <= 0
  {
    if x >= 0 then x / d else -((-x) / d)
  }

  /** `to_timestamp(time/1000)`: whole seconds since the epoch. */
  function EventSeconds(time: int): int {
    TruncDiv(time, MillisPerSecond)
  }

  /** `to_timestamp(time/1000)::date` in UTC, as an ordinal: the day the
      event's second lies in. Dafny's `/` by a positive divisor floors, as
      the day of a timestamp does. */
  function EventDay(time: int): (r: int)
    ensures (r - UnixEpochOrdinal) * SecondsPerDay <= EventSeconds(time) < (r - UnixEpochOrdinal + 1) * SecondsPerDay
  {
    EventSeconds(time) / SecondsPerDay + UnixEpochOrdinal
  }

  /** The day of an event is the day its second falls on, counting whole
      seconds toward zero first: -1 ms and -999 ms are still 1970-01-01,
      -1000 ms is the day before. */
  lemma EventDayExamples()
    ensures EventDay(0) == UnixEpochOrdinal && EventDay(86399999) == UnixEpochOrdinal
    ensures EventDay(86400000) == UnixEpochOrdinal + 1
    ensures EventDay(-1) == UnixEpochOrdinal && EventDay(-999) == UnixEpochOrdinal
    ensures EventDay(-1000) == UnixEpochOrdinal - 1
  {
  }

  /** The WHERE clause of the transform. `latitude IS NOT NULL` and
      `longitude IS NOT NULL` hold of every raw row, whose columns are NOT
      NULL; only the day and the magnitude can exclude a row. */
  predicate Selected(r: EarthquakeData, lo: int, hi: int) {
    lo <= EventDay(r.time) <= hi && r.magnitude.Some?
  }

  /** The SELECT list of the transform. */
  function Cleaned(r: EarthquakeData): StageEarthquake {
    StageEarthquake(EventSeconds(r.time), EventDay(r.time), CleanPlace(r.place), r.magnitude, r.latitude, r.longitude)
  }

  /** The rows the transform's INSERT ... SELECT produces, in raw table order. */
  function Derive(raw: seq<EarthquakeData>, lo: int, hi: int): (r: seq<StageEarthquake>)
    ensures |r| <= |raw|
    ensures forall i :: 0 <= i < |r| ==> lo <= r[i].dt <= hi && r[i].magnitude.Some?
  {
    if raw == [] then []
    else (if Selected(raw[0], lo, hi) then [Cleaned(raw[0])] else []) + Derive(raw[1..], lo, hi)
  }

  /** A row is derived exactly when it is the cleaned image of a selected raw
      row: no incomplete or out-of-range raw row ever reaches the stage table. */
  lemma {:induction false} DeriveMembers(raw: seq<EarthquakeData>, lo: int, hi: int, x: StageEarthquake)
    ensures x in Derive(raw, lo, hi) <==> exists r :: r in raw && Selected(r, lo, hi) && Cleaned(r) == x
  {
    if raw != [] {
      DeriveMembers(raw[1..], lo, hi, x);
      assert forall r :: r in raw <==> r == raw[0] || r in raw[1..];
    }
  }

  /** The stage rows whose `dt` lies (`inside`) or does not lie (`!inside`)
      in [lo, hi], in table order. */
  function RowsInDays(t: seq<Row<StageEarthquake>>, lo: int, hi: int, inside: bool): (r: seq<Row<StageEarthquake>>)
    ensures |r| <= |t|
  {
    if t == [] then []
    else
      (if (lo <= t[0].values.dt <= hi) == inside then [t[0]] else [])
        + RowsInDays(t[1..], lo, hi, inside)
  }

  /** Every row selected by day lies inside (or outside) the range. */
  lemma {:induction false} RowsInDaysSelects(t: seq<Row<StageEarthquake>>, lo: int, hi: int, inside: bool)
    ensures forall i :: 0 <= i < |RowsInDays(t, lo, hi, inside)| ==>
              (lo <= RowsInDays(t, lo, hi, inside)[i].values.dt <= hi) == inside
  {
    if t != [] {
      RowsInDaysSelects(t[1..], lo, hi, inside);
      var head := if (lo <= t[0].values.dt <= hi) == inside then [t[0]] else [];
      var rest := RowsInDays(t[1..], lo, hi, inside);
      var r := RowsInDays(t, lo, hi, inside);
      assert r == head + rest;
      forall i | 0 <= i < |r| ensures (lo <= r[i].values.dt <= hi) == inside {
        if i >= |head| {
          assert r[i] == rest[i - |head|];
        } else {
          assert r[i] == t[0];
        }
      }
    }
  }

  lemma {:induction false} RowsInDaysAppend(a: seq<Row<StageEarthquake>>, b: seq<Row<StageEarthquake>>, lo: int, hi: int, inside: bool)
    ensures RowsInDays(a + b, lo, hi, inside) == RowsInDays(a, lo, hi, inside) + RowsInDays(b, lo, hi, inside)
  {
    if a == [] {
      assert a + b == b;
    } else {
      var head := if (lo <= a[0].values.dt <= hi) == inside then [a[0]] else [];
      assert (a + b)[0] == a[0] && (a + b)[1..] == a[1..] + b;
      RowsInDaysAppend(a[1..], b, lo, hi, inside);
      var ra, rb := RowsInDays(a[1..], lo, hi, inside), RowsInDays(b, lo, hi, inside);
      assert RowsInDays(a + b, lo, hi, inside) == head + (ra + rb);
      assert RowsInDays(a, lo, hi, inside) == head + ra;
      assert head + (ra + rb) == (head + ra) + rb;
    }
  }

  lemma {:induction false} RowsInDaysAll(t: seq<Row<StageEarthquake>>, lo: int, hi: int, inside: bool)
    requires forall i :: 0 <= i < |t| ==> (lo <= t[i].values.dt <= hi) == inside
    ensures RowsInDays(t, lo, hi, inside) == t
    ensures RowsInDays(t, lo, hi, !inside) == []
  {
    if t != [] {
      RowsInDaysAll(t[1..], lo, hi, inside);
    }
  }

  lemma {:induction false} RowsInDaysTwice(t: seq<Row<StageEarthquake>>, lo: int, hi: int, inside: bool)
    ensures RowsInDays(RowsInDays(t, lo, hi, inside), lo, hi, inside) == RowsInDays(t, lo, hi, inside)
    ensures RowsInDays(RowsInDays(t, lo, hi, inside), lo, hi, !inside) == []
  {
    if t != [] {
      RowsInDaysTwice(t[1..], lo, hi, inside);
      var head := if (lo <= t[0].values.dt <= hi) == inside then [t[0]] else [];
      RowsInDaysAppend(head, RowsInDays(t[1..], lo, hi, inside), lo, hi, inside);
      RowsInDaysAppend(head, RowsInDays(t[1..], lo, hi, inside), lo, hi, !inside);
    }
  }

  /** The stage table after a committed transform over [lo, hi]. */
  function ReplaceDays(stage: seq<Row<StageEarthquake>>, raw: seq<EarthquakeData>, lo: int, hi: int, firstId: int): (r: seq<Row<StageEarthquake>>)
    ensures forall i :: 0 <= i < |r| && lo <= r[i].values.dt <= hi ==> r[i].values.magnitude.Some?
  {
    RowsInDaysSelects(stage, lo, hi, false);
    RowsInDays(stage, lo, hi, false) + Numbered(Derive(raw, lo, hi), firstId)
  }

  /** After a transform, the rows outside the range are the ones that were
      there, and the rows inside it are exactly the derived rows. */
  lemma TransformReplacesDays(stage: seq<Row<StageEarthquake>>, raw: seq<EarthquakeData>, lo: int, hi: int, firstId: int)
    ensures RowsInDays(ReplaceDays(stage, raw, lo, hi, firstId), lo, hi, false) == RowsInDays(stage, lo, hi, false)
    ensures Values(RowsInDays(ReplaceDays(stage, raw, lo, hi, firstId), lo, hi, true)) == Derive(raw, lo, hi)
  {
    var kept := RowsInDays(stage, lo, hi, false);
    var added := Numbered(Derive(raw, lo, hi), firstId);
    assert ReplaceDays(stage, raw, lo, hi, firstId) == kept + added;
    forall i | 0 <= i < |added| ensures lo <= added[i].values.dt <= hi {
    }
    RowsInDaysAll(added, lo, hi, true);
    RowsInDaysTwice(stage, lo, hi, false);
    RowsInDaysAppend(kept, added, lo, hi, false);
    assert RowsInDays(kept + added, lo, hi, false) == kept + [];
    RowsInDaysAppend(kept, added, lo, hi, true);
    assert RowsInDays(kept + added, lo, hi, true) == [] + added;
  }

  /** Transforming the same range twice over the same raw rows leaves the
      same stage rows as transforming it once, apart from the surrogate ids. */
  lemma TransformIdempotent(stage: seq<Row<StageEarthquake>>, raw: seq<EarthquakeData>, lo: int, hi: int, id1: int, id2: int)
    ensures Values(ReplaceDays(ReplaceDays(stage, raw, lo, hi, id1), raw, lo, hi, id2))
         == Values(ReplaceDays(stage, raw, lo, hi, id1))
  {
    TransformReplacesDays(stage, raw, lo, hi, id1);
    ValuesAppend(RowsInDays(stage, lo, hi, false), Numbered(Derive(raw, lo, hi), id2));
    ValuesAppend(RowsInDays(stage, lo, hi, false), Numbered(Derive(raw, lo, hi), id1));
  }

  /** A transform over one day leaves the rows of every other day as they
      were: transforming 2024-01-02 keeps 2024-01-01 and 2024-01-03. */
  lemma TransformKeepsOtherDays(stage: seq<Row<StageEarthquake>>, raw: seq<EarthquakeData>, lo: int, hi: int, firstId: int, day: int)
    requires day < lo || hi < day
    ensures RowsInDays(ReplaceDays(stage, raw, lo, hi, firstId), day, day, true) == RowsInDays(stage, day, day, true)
  {
    var added := Numbered(Derive(raw, lo, hi), firstId);
    forall i | 0 <= i < |added| ensures !(day <= added[i].values.dt <= day) {
    }
    RowsInDaysAppend(RowsInDays(stage, lo, hi, false), added, day, day, true);
    RowsInDaysAll(added, day, day, false);
    OtherDaysUntouched(stage, lo, hi, day);
  }

  lemma {:induction false} OtherDaysUntouched(t: seq<Row<StageEarthquake>>, lo: int, hi: int, day: int)
    requires day < lo || hi < day
    ensures RowsInDays(RowsInDays(t, lo, hi, false), day, day, true) == RowsInDays(t, day, day, true)
  {
    if t != [] {
      OtherDaysUntouched(t[1..], lo, hi, day);
      var head := if !(lo <= t[0].values.dt <= hi) then [t[0]] else [];
      RowsInDaysAppend(head, RowsInDays(t[1..], lo, hi, false), day, day, true);
    }
  }
}
