/** The cleaning rule the transform applies to `place`:
      CASE WHEN place IS NOT NULL AND POSITION(' of ' IN place) > 0
           THEN TRIM(SUBSTRING(place FROM POSITION(' of ' IN place) + 4))
           ELSE place END
    POSITION finds the FIRST occurrence, and TRIM strips blanks (' ') only. */
module Places {
  import opened Wrappers

  const Separator := " of "

  predicate OccursAt(s: string, pat: string, i: nat) {
    i + |pat| <= |s| && s[i..i + |pat|] == pat
  }

  /** The first position at or after `from` where `pat` occurs. */
  function FindFrom(s: string, pat: string, from: nat): (r: Option<nat>)
    requires from <= |s|
    ensures r.Some? ==> from <= r.value && OccursAt(s, pat, r.value)
    ensures forall j :: from <= j && (r.None? || j < r.value) ==> !OccursAt(s, pat, j)
    decreases |s| - from
  {
    if from + |pat| > |s| then None
    else if s[from..from + |pat|] == pat then Some(from)
    else if from == |s| then None
    else FindFrom(s, pat, from + 1)
  }

  /** `POSITION(pat IN s) - 1`, or None where POSITION gives 0. */
  function Position(s: string, pat: string): (r: Option<nat>)
    ensures r.Some? ==> OccursAt(s, pat, r.value)
    ensures forall j: nat :: (r.None? || j < r.value) ==> !OccursAt(s, pat, j)
  {
    FindFrom(s, pat, 0)
  }

  /** `s` with its leading blanks removed. */
  function TrimLeft(s: string): (r: string)
    ensures |r| <= |s| && r == s[|s| - |r|..]
    ensures forall i :: 0 <= i < |s| - |r| ==> s[i] == ' '
    ensures r == [] || r[0] != ' '
  {
    if s != [] && s[0] == ' ' then TrimLeft(s[1..]) else s
  }

  /** `s` with its trailing blanks removed. */
  function TrimRight(s: string): (r: string)
    ensures |r| <= |s| && r == s[..|r|]
    ensures forall i :: |r| <= i < |s| ==> s[i] == ' '
    ensures r == [] || r[|r| - 1] != ' '
  {
    if s != [] && s[|s| - 1] == ' ' then TrimRight(s[..|s| - 1]) else s
  }

  /** Postgres `TRIM(s)`: the middle part of `s` between runs of blanks. */
  function Trim(s: string): (r: string)
    ensures exists a, b :: 0 <= a <= b <= |s| && r == s[a..b]
                        && (forall i :: 0 <= i < a ==> s[i] == ' ')
                        && (forall i :: b <= i < |s| ==> s[i] == ' ')
    ensures r == [] || (r[0] != ' ' && r[|r| - 1] != ' ')
  {
    var l := TrimLeft(s);
    var r := TrimRight(l);
    var a := |s| - |l|;
    assert r == s[a..a + |r|];
    r
  }

  /** The cleaned place of a raw row. */
  function CleanPlace(place: Option<string>): (r: Option<string>)
    ensures r.None? <==> place.None?
  {
    match place
    case None => None
    case Some(p) =>
      match Position(p, Separator)
      case None => Some(p)
      case Some(i) => Some(Trim(p[i + |Separator|..]))
  }

  /** The three cases of the rule: NULL stays NULL; text without " of " is
      kept as it is; otherwise the result is the trimmed text after the first
      " of ", and no earlier " of " exists. */
  lemma CleanPlaceCases(place: Option<string>)
    ensures place.None? ==> CleanPlace(place) == None
    ensures place.Some? && (forall j: nat :: !OccursAt(place.value, Separator, j))
            ==> CleanPlace(place) == place
    ensures place.Some? && (exists j: nat :: OccursAt(place.value, Separator, j))
            ==> exists i: nat :: OccursAt(place.value, Separator, i)
                              && (forall j: nat :: j < i ==> !OccursAt(place.value, Separator, j))
                              && CleanPlace(place) == Some(Trim(place.value[i + 4..]))
  {
    if place.Some? {
      var p := place.value;
      var i := Position(p, Separator);
      if i.None? {
        assert CleanPlace(place) == place;
      } else {
        assert OccursAt(p, Separator, i.value);
        assert CleanPlace(place) == Some(Trim(p[i.value + 4..]));
      }
    }
  }

  /** A cleaned place never grows and never starts or ends with a blank
      unless the rule left the text unchanged. */
  lemma CleanPlaceShape(p: string)
    ensures CleanPlace(Some(p)).Some?
    ensures |CleanPlace(Some(p)).value| <= |p|
    ensures CleanPlace(Some(p)).value != p ==> var c := CleanPlace(Some(p)).value;
              c == [] || (c[0] != ' ' && c[|c| - 1] != ' ')
  {
  }

  /** Position is determined by one occurrence and the absence of earlier ones. */
  lemma PositionIs(s: string, pat: string, i: nat)
    requires OccursAt(s, pat, i)
    requires forall j: nat :: j < i ==> !OccursAt(s, pat, j)
    ensures Position(s, pat) == Some(i)
  {
  }

  /** The separator cannot occur where the third character is not 'f'. */
  lemma NoSeparatorAt(s: string, j: nat)
    requires j + 2 < |s| ==> s[j + 2] != 'f'
    ensures !OccursAt(s, Separator, j)
  {
    if j + 4 <= |s| {
      assert s[j..j + 4][2] == s[j + 2] != Separator[2];
    }
  }

  /** A typical place name of the feed. */
  lemma CleanPlaceExample()
    ensures CleanPlace(Some("10km SSE of Example Town")) == Some("Example Town")
  {
    var p := "10km SSE of Example Town";
    assert OccursAt(p, Separator, 8);
    forall j: nat | j < 8 ensures !OccursAt(p, Separator, j) {
      NoSeparatorAt(p, j);
    }
    PositionIs(p, Separator, 8);
    var rest := p[12..];
    assert rest == "Example Town";
    assert TrimLeft(rest) == rest;
    assert TrimRight(rest) == rest;
  }

  /** A place naming two separators keeps everything after the first. */
  lemma CleanPlaceFirstSeparator()
    ensures CleanPlace(Some("5 km N of Isle of Pines")) == Some("Isle of Pines")
  {
    var p := "5 km N of Isle of Pines";
    assert OccursAt(p, Separator, 6);
    forall j: nat | j < 6 ensures !OccursAt(p, Separator, j) {
      NoSeparatorAt(p, j);
    }
    PositionIs(p, Separator, 6);
    assert p[10..] == "Isle of Pines";
  }
}
