/**
 * The tables built when utils.py is imported: the case table with state
 * names replaced by their abbreviations, the county table grouped from the
 * geocode rows, and the list of statistic columns.
 */
module Utils {
  import opened Outcomes
  import CaseScraper

  /** The (county, state) pair that indexes both tables. */
  datatype CountyKey = CountyKey(county: string, state: string)

  /** The statistic columns of one case record. */
  datatype Stats = Stats(
    cases: real, deaths: real,
    confirmedCases: real, confirmedDeaths: real,
    probableCases: real, probableDeaths: real)

  /** The statistics a trace may be computed for, in this order. */
  const StatisticList: seq<string> := [
    "cases", "deaths", "confirmed_cases", "confirmed_deaths", "probable_cases", "probable_deaths"
  ]

  /** The statistics of a county the case table does not list (`fillna(0)`). */
  const NoStats: Stats := Stats(0.0, 0.0, 0.0, 0.0, 0.0, 0.0)

  /** The column `name` of a statistics record. */
  function Statistic(s: Stats, name: string): real
    requires name in StatisticList
  {
    match name
    case "cases" => s.cases
    case "deaths" => s.deaths
    case "confirmed_cases" => s.confirmedCases
    case "confirmed_deaths" => s.confirmedDeaths
    case "probable_cases" => s.probableCases
    case "probable_deaths" => s.probableDeaths
  }

  /** The statistic columns are exactly the last six columns the refresh writes, in order. */
  lemma StatisticsAreCaseColumns()
    ensures StatisticList == CaseScraper.ColumnNames[4..]
  {
  }

  /** A row of the case table. */
  datatype CaseRecord = CaseRecord(date: string, county: string, state: string, fips: string, stats: Stats)

  function CaseKey(r: CaseRecord): CountyKey {
    CountyKey(r.county, r.state)
  }

  /**
   * `[us_state_abbrev[state] for state in ...]`: every state name replaced by
   * its abbreviation; None stands for the KeyError of a name the map lacks.
   */
  function AbbreviateStates(records: seq<CaseRecord>, abbrev: map<string, string>): (r: Option<seq<CaseRecord>>)
    ensures r.None? <==> exists i :: 0 <= i < |records| && records[i].state !in abbrev
    ensures r.Some? ==> |r.value| == |records|
    ensures r.Some? ==> forall i :: 0 <= i < |records| ==>
              r.value[i] == records[i].(state := abbrev[records[i].state])
  {
    if records == [] then Some([])
    else if records[0].state !in abbrev then None
    else
      match AbbreviateStates(records[1..], abbrev)
      case None => None
      case Some(rest) => Some([records[0].(state := abbrev[records[0].state])] + rest)
  }

  /**
   * `.loc[key]` on a table indexed by (county, state): the position of the
   * first element whose key is `key`; None stands for the KeyError raised
   * when there is none.
   */
  function FindKey<T>(s: seq<T>, key: CountyKey, keyOf: T -> CountyKey): (r: Option<nat>)
    ensures r.None? <==> forall i :: 0 <= i < |s| ==> keyOf(s[i]) != key
    ensures r.Some? ==> r.value < |s| && keyOf(s[r.value]) == key
    ensures r.Some? ==> forall j :: 0 <= j < r.value ==> keyOf(s[j]) != key
  {
    if s == [] then None
    else if keyOf(s[0]) == key then Some(0)
    else
      match FindKey(s[1..], key, keyOf)
      case None => None
      case Some(i) => Some(i + 1)
  }

  /** Position of the first case record with the given key. */
  function FindCase(cases: seq<CaseRecord>, key: CountyKey): Option<nat>
  {
    FindKey(cases, key, CaseKey)
  }

  /** A row of the geocode table (one per ZIP code). */
  datatype GeoRow = GeoRow(county: string, state: string, latitude: real, longitude: real, population: real)

  function GeoKey(g: GeoRow): CountyKey {
    CountyKey(g.county, g.state)
  }

  function Latitude(g: GeoRow): real { g.latitude }
  function Longitude(g: GeoRow): real { g.longitude }
  function Population(g: GeoRow): real { g.population }

  /** A row of the county table: mean position and total population of a (county, state) group. */
  datatype County = County(key: CountyKey, latitude: real, longitude: real, population: real)

  /** The geocode rows of one key, in order. */
  function Select(geo: seq<GeoRow>, key: CountyKey): seq<GeoRow>
  {
    if geo == [] then []
    else
      var last := geo[|geo| - 1];
      Select(geo[..|geo| - 1], key) + (if GeoKey(last) == key then [last] else [])
  }

  function Sum(rows: seq<GeoRow>, f: GeoRow -> real): real
  {
    if rows == [] then 0.0 else Sum(rows[..|rows| - 1], f) + f(rows[|rows| - 1])
  }

  function Mean(rows: seq<GeoRow>, f: GeoRow -> real): real
    requires rows != []
  {
    Sum(rows, f) / (|rows| as real)
  }

  /** Running totals of one group while the geocode rows are folded. */
  datatype Group = Group(key: CountyKey, count: nat, sumLatitude: real, sumLongitude: real, sumPopulation: real)

  /** Position of the group with the given key. */
  function FindGroup(groups: seq<Group>, key: CountyKey): (r: Option<nat>)
    ensures r.None? <==> forall i :: 0 <= i < |groups| ==> groups[i].key != key
    ensures r.Some? ==> r.value < |groups| && groups[r.value].key == key
  {
    FindKey(groups, key, (g: Group) => g.key)
  }

  /** Adds one geocode row to the totals of its key, opening a group for a new key. */
  function AddRow(groups: seq<Group>, g: GeoRow): seq<Group>
  {
    match FindGroup(groups, GeoKey(g))
    case Some(i) =>
      var t := groups[i];
      groups[i := t.(count := t.count + 1,
                     sumLatitude := t.sumLatitude + g.latitude,
                     sumLongitude := t.sumLongitude + g.longitude,
                     sumPopulation := t.sumPopulation + g.population)]
    case None =>
      groups + [Group(GeoKey(g), 1, g.latitude, g.longitude, g.population)]
  }

  /** The groups of all geocode rows, in order of first appearance of their key. */
  function Accumulate(geo: seq<GeoRow>): seq<Group>
  {
    if geo == [] then [] else AddRow(Accumulate(geo[..|geo| - 1]), geo[|geo| - 1])
  }

  /**
   * `geocodes_df.groupby(['county', 'state']).agg(...)`: one row per key, with
   * mean latitude, mean longitude and summed population.
   */
  function GroupCounties(geo: seq<GeoRow>): seq<County>
  {
    var groups := Accumulate(geo);
    seq(|groups|, i requires 0 <= i < |groups| =>
      var t := groups[i];
      County(t.key,
             if t.count == 0 then 0.0 else t.sumLatitude / (t.count as real),
             if t.count == 0 then 0.0 else t.sumLongitude / (t.count as real),
             t.sumPopulation))
  }

  /** The totals a group must hold: those of the geocode rows of its key. */
  function GroupOf(geo: seq<GeoRow>, key: CountyKey): Group {
    var rows := Select(geo, key);
    Group(key, |rows|, Sum(rows, Latitude), Sum(rows, Longitude), Sum(rows, Population))
  }

  /** The groups summarise `geo`: distinct keys, the right totals, every key present. */
  ghost predicate Summarises(groups: seq<Group>, geo: seq<GeoRow>) {
    && (forall i, j :: 0 <= i < j < |groups| ==> groups[i].key != groups[j].key)
    && (forall i :: 0 <= i < |groups| ==> groups[i] == GroupOf(geo, groups[i].key))
    && (forall i :: 0 <= i < |groups| ==> Select(geo, groups[i].key) != [])
    && (forall k :: Select(geo, k) != [] ==> FindGroup(groups, k).Some?)
  }

  /** Selecting from rows with one more row at the end. */
  lemma {:induction false} SelectSnoc(geo: seq<GeoRow>, g: GeoRow, key: CountyKey)
    ensures Select(geo + [g], key) == Select(geo, key) + (if GeoKey(g) == key then [g] else [])
  {
    assert (geo + [g])[..|geo + [g]| - 1] == geo;
  }

  /** Summing rows with one more row at the end. */
  lemma {:induction false} SumSnoc(rows: seq<GeoRow>, g: GeoRow, f: GeoRow -> real)
    ensures Sum(rows + [g], f) == Sum(rows, f) + f(g)
  {
    assert (rows + [g])[..|rows + [g]| - 1] == rows;
  }

  /** Adds one row's values to a group's totals. */
  function Bump(t: Group, g: GeoRow): Group {
    t.(count := t.count + 1,
       sumLatitude := t.sumLatitude + g.latitude,
       sumLongitude := t.sumLongitude + g.longitude,
       sumPopulation := t.sumPopulation + g.population)
  }

  /** The totals a key must hold after one more row. */
  lemma {:induction false} GroupOfSnoc(geo: seq<GeoRow>, g: GeoRow, key: CountyKey)
    ensures GroupOf(geo + [g], key) == if GeoKey(g) == key then Bump(GroupOf(geo, key), g) else GroupOf(geo, key)
    ensures Select(geo + [g], key) != [] <==> (Select(geo, key) != [] || GeoKey(g) == key)
  {
    SelectSnoc(geo, g, key);
    var rows := Select(geo, key);
    SumSnoc(rows, g, Latitude);
    SumSnoc(rows, g, Longitude);
    SumSnoc(rows, g, Population);
    if GeoKey(g) == key {
      assert Select(geo + [g], key) == rows + [g];
      assert Latitude(g) == g.latitude && Longitude(g) == g.longitude && Population(g) == g.population;
    } else {
      assert Select(geo + [g], key) == rows;
    }
  }

  /** A row of a key that already has a group is added to that group's totals. */
  lemma {:induction false} AddRowExisting(groups: seq<Group>, geo: seq<GeoRow>, g: GeoRow, i: nat)
    requires Summarises(groups, geo)
    requires FindGroup(groups, GeoKey(g)) == Some(i)
    ensures Summarises(AddRow(groups, g), geo + [g])
  {
    var geo' := geo + [g];
    var k := GeoKey(g);
    var r := AddRow(groups, g);
    assert r == groups[i := Bump(groups[i], g)];
    forall j | 0 <= j < |r| ensures r[j] == GroupOf(geo', r[j].key) && Select(geo', r[j].key) != [] {
      GroupOfSnoc(geo, g, r[j].key);
      if j != i {
        assert groups[j].key != k;
      }
    }
    forall key | Select(geo', key) != [] ensures FindGroup(r, key).Some? {
      GroupOfSnoc(geo, g, key);
      if key != k {
        var m := FindGroup(groups, key).value;
        assert r[m].key == key;
      }
    }
  }

  /** A row of a new key opens a group holding just that row. */
  lemma {:induction false} AddRowNew(groups: seq<Group>, geo: seq<GeoRow>, g: GeoRow)
    requires Summarises(groups, geo)
    requires FindGroup(groups, GeoKey(g)).None?
    ensures Summarises(AddRow(groups, g), geo + [g])
  {
    var geo' := geo + [g];
    var k := GeoKey(g);
    var r := AddRow(groups, g);
    assert r == groups + [Group(k, 1, g.latitude, g.longitude, g.population)];
    assert Select(geo, k) == [];
    assert GroupOf(geo, k) == Group(k, 0, 0.0, 0.0, 0.0);
    forall j | 0 <= j < |r| ensures r[j] == GroupOf(geo', r[j].key) && Select(geo', r[j].key) != [] {
      GroupOfSnoc(geo, g, r[j].key);
      if j < |groups| {
        assert r[j] == groups[j];
      }
    }
    forall key | Select(geo', key) != [] ensures FindGroup(r, key).Some? {
      GroupOfSnoc(geo, g, key);
      if key != k {
        var m := FindGroup(groups, key).value;
        assert r[m].key == key;
      } else {
        assert r[|groups|].key == key;
      }
    }
  }

  lemma AddRowSummarises(groups: seq<Group>, geo: seq<GeoRow>, g: GeoRow)
    requires Summarises(groups, geo)
    ensures Summarises(AddRow(groups, g), geo + [g])
  {
    match FindGroup(groups, GeoKey(g))
    case Some(i) => AddRowExisting(groups, geo, g, i);
    case None => AddRowNew(groups, geo, g);
  }

  lemma {:induction false} AccumulateSummarises(geo: seq<GeoRow>)
    ensures Summarises(Accumulate(geo), geo)
  {
    if geo != [] {
      var init := geo[..|geo| - 1];
      AccumulateSummarises(init);
      AddRowSummarises(Accumulate(init), init, geo[|geo| - 1]);
      assert init + [geo[|geo| - 1]] == geo;
    }
  }

  /**
   * The county table has exactly one row per distinct (county, state) key of
   * the geocode table; each row's latitude and longitude are the means, and
   * its population the sum, over that key's geocode rows.
   */
  lemma GroupCountiesSpec(geo: seq<GeoRow>)
    ensures var r := GroupCounties(geo);
            && (forall i, j :: 0 <= i < j < |r| ==> r[i].key != r[j].key)
            && (forall k :: (exists i :: 0 <= i < |r| && r[i].key == k) <==> Select(geo, k) != [])
            && (forall i :: 0 <= i < |r| ==>
                  && Select(geo, r[i].key) != []
                  && r[i].latitude == Mean(Select(geo, r[i].key), Latitude)
                  && r[i].longitude == Mean(Select(geo, r[i].key), Longitude)
                  && r[i].population == Sum(Select(geo, r[i].key), Population))
  {
    AccumulateSummarises(geo);
    var groups := Accumulate(geo);
    var r := GroupCounties(geo);
    GroupCountiesRows(geo);
    forall k | Select(geo, k) != [] ensures exists i :: 0 <= i < |r| && r[i].key == k {
      var i := FindGroup(groups, k).value;
      assert r[i].key == k;
    }
  }

  /** Each county row is its group's key with the group's totals turned into means and a sum. */
  lemma GroupCountiesRows(geo: seq<GeoRow>)
    requires Summarises(Accumulate(geo), geo)
    ensures var groups, r := Accumulate(geo), GroupCounties(geo);
            && |r| == |groups|
            && forall i :: 0 <= i < |r| ==>
                 && r[i].key == groups[i].key
                 && Select(geo, r[i].key) != []
                 && r[i].latitude == Mean(Select(geo, r[i].key), Latitude)
                 && r[i].longitude == Mean(Select(geo, r[i].key), Longitude)
                 && r[i].population == Sum(Select(geo, r[i].key), Population)
  {
    var groups := Accumulate(geo);
    forall i | 0 <= i < |groups| ensures groups[i] == GroupOf(geo, groups[i].key) {
    }
  }
}
