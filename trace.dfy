/**
 * The counties within a radius of a chosen county, joined with their case
 * statistics and given a per-capita density (covid_trace.py).
 */
module Trace {
  import opened Outcomes
  import opened Utils

  /** The exceptions raised while a trace is built. */
  datatype TraceError =
    | EmptyCaseTable                                // `cases_df['date'].values[0]` raised IndexError
    | InvalidStatistic(statistic: string)
    | InvalidState(state: string)
    | InvalidCounty(county: string, state: string)
    | CenterNotGeocoded(county: string, state: string)  // `counties_df.loc[...]` raised KeyError

  /**
   * Great-circle distance in miles between (latitude_1, longitude_1) and
   * (latitude_2, longitude_2), given in degrees.
   */
  type Distance = (real, real, real, real) -> real

  /** A county joined with its statistics. */
  datatype Joined = Joined(county: County, stats: Stats)

  /** A row of a trace: a joined county and its density. */
  datatype TraceRow = TraceRow(county: County, stats: Stats, density: real)

  /** The counties whose distance to (latitude, longitude) is at most `numMiles`, in table order. */
  function WithinRadius(counties: seq<County>, latitude: real, longitude: real, numMiles: real, distance: Distance): (r: seq<County>)
    ensures |r| <= |counties|
    ensures forall c :: c in r <==> c in counties && distance(c.latitude, c.longitude, latitude, longitude) <= numMiles
    ensures forall c :: multiset(r)[c] ==
              if distance(c.latitude, c.longitude, latitude, longitude) <= numMiles then multiset(counties)[c] else 0
  {
    if counties == [] then []
    else
      var c := counties[0];
      var rest := WithinRadius(counties[1..], latitude, longitude, numMiles, distance);
      assert counties == [c] + counties[1..];
      assert forall x :: x in counties <==> x == c || x in counties[1..];
      if distance(c.latitude, c.longitude, latitude, longitude) <= numMiles then [c] + rest else rest
  }

  /**
   * The selection of a table is the selection of its first part followed by
   * that of its second: the mask keeps rows in table order.
   */
  lemma {:induction false} WithinRadiusAppend(a: seq<County>, b: seq<County>, latitude: real, longitude: real,
                                              numMiles: real, distance: Distance)
    ensures WithinRadius(a + b, latitude, longitude, numMiles, distance) ==
            WithinRadius(a, latitude, longitude, numMiles, distance) + WithinRadius(b, latitude, longitude, numMiles, distance)
  {
    if a == [] {
      assert a + b == b;
    } else {
      var x, a' := a[0], a[1..];
      assert a == [x] + a';
      assert a + b == [x] + (a' + b);
      WithinRadiusCons(x, a' + b, latitude, longitude, numMiles, distance);
      WithinRadiusCons(x, a', latitude, longitude, numMiles, distance);
      WithinRadiusAppend(a', b, latitude, longitude, numMiles, distance);
      var kept := if distance(x.latitude, x.longitude, latitude, longitude) <= numMiles then [x] else [];
      SeqAssoc(kept, WithinRadius(a', latitude, longitude, numMiles, distance),
               WithinRadius(b, latitude, longitude, numMiles, distance));
    }
  }

  /** The selection of a table with a known first county. */
  lemma WithinRadiusCons(x: County, s: seq<County>, latitude: real, longitude: real, numMiles: real, distance: Distance)
    ensures WithinRadius([x] + s, latitude, longitude, numMiles, distance) ==
            (if distance(x.latitude, x.longitude, latitude, longitude) <= numMiles then [x] else []) +
            WithinRadius(s, latitude, longitude, numMiles, distance)
  {
    assert ([x] + s)[1..] == s;
  }

  lemma SeqAssoc<T>(x: seq<T>, y: seq<T>, z: seq<T>)
    ensures x + (y + z) == (x + y) + z
  {
  }

  /** The statistics of a county: those of its first case record, or all zero when it has none. */
  function StatsFor(cases: seq<CaseRecord>, key: CountyKey): Stats
  {
    match FindCase(cases, key)
    case Some(j) => cases[j].stats
    case None => NoStats
  }

  /**
   * `data.join(cases_df[statistic_list])` followed by `fillna(0)`: every
   * selected county keeps its place; a county the case table lacks gets 0 in
   * every statistic, any other the statistics of its (first) case record.
   */
  function JoinCases(selected: seq<County>, cases: seq<CaseRecord>): (r: seq<Joined>)
    ensures |r| == |selected|
    ensures forall i :: 0 <= i < |r| ==> r[i].county == selected[i]
    ensures forall i :: 0 <= i < |r| && (forall j :: 0 <= j < |cases| ==> CaseKey(cases[j]) != selected[i].key) ==>
              r[i].stats == NoStats
    ensures forall i, j ::
              0 <= i < |r| && 0 <= j < |cases| && CaseKey(cases[j]) == selected[i].key &&
              (forall m :: 0 <= m < j ==> CaseKey(cases[m]) != selected[i].key)
              ==> r[i].stats == cases[j].stats
  {
    seq(|selected|, i requires 0 <= i < |selected| => Joined(selected[i], StatsFor(cases, selected[i].key)))
  }

  /** The density row of a joined county with a non-zero population. */
  function Densify(j: Joined, statistic: string): TraceRow
    requires statistic in StatisticList && j.county.population != 0.0
  {
    TraceRow(j.county, j.stats, Statistic(j.stats, statistic) / j.county.population)
  }

  /**
   * The density column and the removal of the rows where it is undefined: a
   * population of 0 makes the quotient infinite or NaN, and such rows are
   * dropped; every other row is kept with density = statistic / population.
   */
  function WithDensity(rows: seq<Joined>, statistic: string): (r: seq<TraceRow>)
    requires statistic in StatisticList
    ensures |r| <= |rows|
    ensures forall t :: t in r ==>
              t.county.population != 0.0 && t.density == Statistic(t.stats, statistic) / t.county.population
    ensures forall t :: t in r ==> Joined(t.county, t.stats) in rows
    ensures forall j :: j in rows && j.county.population != 0.0 ==> Densify(j, statistic) in r
    ensures forall t :: multiset(r)[t] ==
              if t.county.population != 0.0 && t.density == Statistic(t.stats, statistic) / t.county.population
              then multiset(rows)[Joined(t.county, t.stats)] else 0
  {
    if rows == [] then []
    else
      var rest := WithDensity(rows[1..], statistic);
      assert rows == [rows[0]] + rows[1..];
      assert forall x :: x in rows <==> x == rows[0] || x in rows[1..];
      if rows[0].county.population == 0.0 then rest
      else [Densify(rows[0], statistic)] + rest
  }

  /** Densities of a table are those of its first part followed by those of its second, in order. */
  lemma {:induction false} WithDensityAppend(a: seq<Joined>, b: seq<Joined>, statistic: string)
    requires statistic in StatisticList
    ensures WithDensity(a + b, statistic) == WithDensity(a, statistic) + WithDensity(b, statistic)
  {
    if a == [] {
      assert a + b == b;
    } else {
      var x, a' := a[0], a[1..];
      assert a == [x] + a';
      assert a + b == [x] + (a' + b);
      WithDensityCons(x, a' + b, statistic);
      WithDensityCons(x, a', statistic);
      WithDensityAppend(a', b, statistic);
      var kept := if x.county.population == 0.0 then [] else [Densify(x, statistic)];
      SeqAssoc(kept, WithDensity(a', statistic), WithDensity(b, statistic));
    }
  }

  /** The densities of a table with a known first row. */
  lemma WithDensityCons(x: Joined, s: seq<Joined>, statistic: string)
    requires statistic in StatisticList
    ensures WithDensity([x] + s, statistic) ==
            (if x.county.population == 0.0 then [] else [Densify(x, statistic)]) + WithDensity(s, statistic)
  {
    assert ([x] + s)[1..] == s;
  }

  /** The rows of a trace around the county `centre`. */
  function TraceData(counties: seq<County>, cases: seq<CaseRecord>, centre: County, numMiles: real,
                     distance: Distance, statistic: string): seq<TraceRow>
    requires statistic in StatisticList
  {
    WithDensity(JoinCases(WithinRadius(counties, centre.latitude, centre.longitude, numMiles, distance), cases), statistic)
  }

  /**
   * A row is in a trace exactly when its county is in the county table,
   * within `numMiles` of the centre, and has a non-zero population, its
   * statistics are the county's (zero when the case table lacks it), and its
   * density is the chosen statistic divided by the population.
   */
  lemma TraceMembership(counties: seq<County>, cases: seq<CaseRecord>, centre: County, numMiles: real,
                        distance: Distance, statistic: string, t: TraceRow)
    requires statistic in StatisticList
    ensures t in TraceData(counties, cases, centre, numMiles, distance, statistic) <==>
              && t.county in counties
              && distance(t.county.latitude, t.county.longitude, centre.latitude, centre.longitude) <= numMiles
              && t.county.population != 0.0
              && t.stats == StatsFor(cases, t.county.key)
              && t.density == Statistic(t.stats, statistic) / t.county.population
  {
    var selected := WithinRadius(counties, centre.latitude, centre.longitude, numMiles, distance);
    var joined := JoinCases(selected, cases);
    var data := WithDensity(joined, statistic);
    if t in data {
      assert Joined(t.county, t.stats) in joined;
      var i :| 0 <= i < |joined| && joined[i] == Joined(t.county, t.stats);
      assert t.county == selected[i];
    } else if t.county in selected && t.county.population != 0.0 && t.stats == StatsFor(cases, t.county.key) {
      var i :| 0 <= i < |selected| && selected[i] == t.county;
      assert joined[i] in joined;
      assert Densify(joined[i], statistic) in data;
    }
  }

  /** Position of the first row of a trace with the given key. */
  function FindRow(data: seq<TraceRow>, key: CountyKey): Option<nat>
  {
    FindKey(data, key, (t: TraceRow) => t.county.key)
  }

  /** Position of the first county of the county table with the given key. */
  function FindCounty(counties: seq<County>, key: CountyKey): Option<nat>
  {
    FindKey(counties, key, (c: County) => c.key)
  }

  /** The rows of a trace whose county name (the first index level) is `name`, in order. */
  function RowsNamed(data: seq<TraceRow>, name: string): (r: seq<TraceRow>)
    ensures forall t :: t in r <==> t in data && t.county.key.county == name
  {
    if data == [] then []
    else
      var rest := RowsNamed(data[1..], name);
      assert forall x :: x in data <==> x == data[0] || x in data[1..];
      if data[0].county.key.county == name then [data[0]] + rest else rest
  }

  /**
   * `data.loc[labels]` for a list of labels on the (county, state) index, as
   * pandas reads a list: every label is a county name, selecting the rows with
   * that name, label after label. A label that names no row raises KeyError
   * (None).
   */
  function LocLabels(data: seq<TraceRow>, labels: seq<string>): (r: Option<seq<TraceRow>>)
    ensures r.None? <==>
              exists k :: 0 <= k < |labels| && forall i :: 0 <= i < |data| ==> data[i].county.key.county != labels[k]
    ensures r.Some? ==> |r.value| >= |labels|
    ensures r.Some? ==> forall t :: t in r.value <==> t in data && t.county.key.county in labels
  {
    if labels == [] then Some([])
    else
      var hits := RowsNamed(data, labels[0]);
      assert hits == [] <==> forall i :: 0 <= i < |data| ==> data[i].county.key.county != labels[0] by {
        if hits != [] {
          assert hits[0] in hits;
        }
        forall i | 0 <= i < |data| && data[i].county.key.county == labels[0] ensures hits != [] {
          assert data[i] in data;
        }
      }
      if hits == [] then None
      else
        match LocLabels(data, labels[1..])
        case None =>
          None
        case Some(rest) =>
          assert forall l :: l in labels <==> l == labels[0] || l in labels[1..];
          Some(hits + rest)
  }

  datatype Point = Point(latitude: real, longitude: real)

  /** Lower-left and upper-right corners of a map frame. */
  datatype Corners = Corners(lowerLeft: Point, upperRight: Point)

  /** Extra miles shown around the radius. */
  const MarginBuffer: real := 20.0

  /** Miles per degree used to turn the radius into degrees. */
  const MilesPerDegree: real := 69.0

  /**
   * The frame centred on (latitude, longitude) reaching (numMiles + 20) / 69
   * degrees to each side; it is well-formed exactly when numMiles >= -20.
   */
  function CornersAround(latitude: real, longitude: real, numMiles: real): (r: Corners)
    ensures (r.lowerLeft.latitude + r.upperRight.latitude) / 2.0 == latitude
    ensures (r.lowerLeft.longitude + r.upperRight.longitude) / 2.0 == longitude
    ensures r.upperRight.latitude - latitude == (numMiles + MarginBuffer) / MilesPerDegree
    ensures r.upperRight.longitude - longitude == (numMiles + MarginBuffer) / MilesPerDegree
    ensures r.lowerLeft.latitude <= r.upperRight.latitude <==> numMiles >= -MarginBuffer
    ensures r.lowerLeft.longitude <= r.upperRight.longitude <==> numMiles >= -MarginBuffer
  {
    var half := (numMiles + MarginBuffer) / MilesPerDegree;
    Corners(Point(latitude - half, longitude - half), Point(latitude + half, longitude + half))
  }

  /** A trace around one county (`CovidTrace`). */
  class CovidTrace {
    /** The trace rows (`self.data`). */
    var data: seq<TraceRow>
    /** The county and the state exactly as the caller gave them. */
    var center: CountyKey
    var numMiles: real
    /** The date of the first row of the case table. */
    var updatedLast: string

    /**
     * The field assignments of `__init__` once every check has passed;
     * `centre` is the county-table row of the centre.
     */
    constructor (county: string, state: string, statistic: string, numMiles: real,
                 cases: seq<CaseRecord>, counties: seq<County>, centre: County, distance: Distance)
      requires cases != [] && statistic in StatisticList
      ensures center == CountyKey(county, state)
      ensures this.numMiles == numMiles && updatedLast == cases[0].date
      ensures data == TraceData(counties, cases, centre, numMiles, distance, statistic)
    {
      center := CountyKey(county, state);
      this.numMiles := numMiles;
      updatedLast := cases[0].date;
      var selected := WithinRadius(counties, centre.latitude, centre.longitude, numMiles, distance);
      var joined := JoinCases(selected, cases);
      data := WithDensity(joined, statistic);
    }

    /**
     * `CovidTrace(US_county, US_state, statistic, num_miles)`: checks the
     * arguments in the order the source does and builds the trace, or
     * returns the error it raises. A state name longer than two characters
     * is replaced by its abbreviation for the lookups only.
     */
    static method Create(county: string, state: string, statistic: string, numMiles: real,
                         cases: seq<CaseRecord>, counties: seq<County>,
                         abbrev: map<string, string>, distance: Distance)
      returns (r: Result<CovidTrace, TraceError>)
      ensures cases == [] ==> r == Err(EmptyCaseTable)
      ensures cases != [] && statistic !in StatisticList ==> r == Err(InvalidStatistic(statistic))
      ensures cases != [] && statistic in StatisticList && |state| > 2 && state !in abbrev ==>
                r == Err(InvalidState(state))
      ensures cases != [] && statistic in StatisticList && (|state| <= 2 || state in abbrev) ==>
                var key := CountyKey(county, if |state| > 2 then abbrev[state] else state);
                && (FindCase(cases, key).None? ==> r == Err(InvalidCounty(key.county, key.state)))
                && (FindCase(cases, key).Some? && FindCounty(counties, key).None? ==>
                      r == Err(CenterNotGeocoded(key.county, key.state)))
                && (FindCase(cases, key).Some? && FindCounty(counties, key).Some? ==>
                      && r.Ok? && fresh(r.value)
                      && r.value.center == CountyKey(county, state)
                      && r.value.numMiles == numMiles
                      && r.value.updatedLast == cases[0].date
                      && r.value.data == TraceData(counties, cases, counties[FindCounty(counties, key).value],
                                                   numMiles, distance, statistic))
    {
      if cases == [] {
        return Err(EmptyCaseTable);
      }
      if statistic !in StatisticList {
        return Err(InvalidStatistic(statistic));
      }
      var lookupState := state;
      if |state| > 2 {
        if state !in abbrev {
          return Err(InvalidState(state));
        }
        lookupState := abbrev[state];
      }
      var key := CountyKey(county, lookupState);
      if FindCase(cases, key).None? {
        return Err(InvalidCounty(county, lookupState));
      }
      var at := FindCounty(counties, key);
      if at.None? {
        return Err(CenterNotGeocoded(county, lookupState));
      }
      var trace := new CovidTrace(county, state, statistic, numMiles, cases, counties, counties[at.value], distance);
      r := Ok(trace);
    }

    /**
     * `retrieve_corners`: the frame around the trace row keyed by the stored
     * centre; None stands for the KeyError raised when no row has that key.
     */
    function RetrieveCorners(): (r: Option<Corners>)
      reads this
      ensures r.None? <==> forall i :: 0 <= i < |data| ==> data[i].county.key != center
      ensures r.Some? ==> exists i ::
                0 <= i < |data| && data[i].county.key == center &&
                r.value == CornersAround(data[i].county.latitude, data[i].county.longitude, numMiles)
    {
      match FindRow(data, center)
      case None => None
      case Some(i) =>
        var c := data[i].county;
        Some(CornersAround(c.latitude, c.longitude, numMiles))
    }

    /**
     * `retrieve_corners` as written: `self.center` is the list
     * [county, state], which the lookup reads as two county names. It raises
     * KeyError (None) unless some row is named after the state string, and
     * otherwise gives one frame per selected row, never a single frame.
     */
    function RetrieveCornersAsWritten(): (r: Option<seq<Corners>>)
      reads this
      ensures r.None? <==>
                (forall i :: 0 <= i < |data| ==> data[i].county.key.county != center.county) ||
                (forall i :: 0 <= i < |data| ==> data[i].county.key.county != center.state)
      ensures r.Some? ==> |r.value| >= 2
    {
      var labels, miles := [center.county, center.state], numMiles;
      assert forall k :: 0 <= k < |labels| ==> labels[k] == center.county || labels[k] == center.state;
      assert labels[0] == center.county && labels[1] == center.state;
      match LocLabels(data, labels)
      case None =>
        None
      case Some(rows) =>
        Some(seq(|rows|, k requires 0 <= k < |rows| =>
               CornersAround(rows[k].county.latitude, rows[k].county.longitude, miles)))
    }
  }

  /**
   * The centre of run.py, ("Alameda", "CA"): with Alameda's row in the trace
   * the single-key lookup finds it, while the list lookup as written raises
   * KeyError because no county is named "CA".
   */
  lemma AlamedaCenterAsWritten()
    ensures var row := TraceRow(County(CountyKey("Alameda", "CA"), 37.65, -121.91, 1671329.0), NoStats, 0.0);
            && LocLabels([row], ["Alameda", "CA"]).None?
            && FindRow([row], CountyKey("Alameda", "CA")) == Some(0)
  {
    var row := TraceRow(County(CountyKey("Alameda", "CA"), 37.65, -121.91, 1671329.0), NoStats, 0.0);
    assert row.county.key.county != "CA";
  }

  /**
   * As written, a trace whose rows carry state abbreviations and no county
   * named after one never finds corners, whatever its data.
   */
  lemma AbbreviatedCenterRaises(t: CovidTrace)
    requires forall i :: 0 <= i < |t.data| ==> t.data[i].county.key.county != t.center.state
    ensures t.RetrieveCornersAsWritten().None?
  {
  }

  /**
   * The centre is stored with the state as the caller gave it, so a trace
   * built from a full state name finds no row of its own for the frame when
   * every row carries an abbreviation of at most two characters.
   */
  lemma FullStateNameMissesCenter(t: CovidTrace)
    requires |t.center.state| > 2
    requires forall i :: 0 <= i < |t.data| ==> |t.data[i].county.key.state| <= 2
    ensures t.RetrieveCorners().None?
  {
  }
}
