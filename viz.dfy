/**
 * The data preparation of the map display (covid_viz.py): the colour scale
 * shared by all traces, the choice of the zoomed trace, the frame and
 * resolution of the zoomed map and the ranked table beside it. The drawing
 * itself is not modelled; `Plot` returns what it would draw.
 */
module Viz {
  import opened Outcomes
  import opened Utils
  import opened Trace

  /** The exceptions `plot` raises. */
  datatype VizError =
    | ZoomIndexTooSmall              // zoom_index < 1 (ValueError)
    | CornersMissing                 // retrieve_corners raised KeyError
    | UnknownResolution(name: string)
    | UnknownColumn(name: string)

  /** The frame and coastline resolution of a Basemap. */
  datatype MapFrame = MapFrame(corners: Corners, resolution: char)

  /** The national map drawn by the constructor. */
  const NationalFrame: MapFrame :=
    MapFrame(Corners(Point(23.2368, -126.845), Point(50.1926, -63.6515)), 'l')

  /** The resolution names `plot` accepts. */
  const ResolutionNames: seq<string> := ["crude", "low", "intermediate", "high", "full"]

  /**
   * `resolution_map[resolution]`: the Basemap code of a resolution name,
   * which is its initial; None stands for the KeyError of any other name.
   */
  function ResolutionCode(name: string): (r: Option<char>)
    ensures r.Some? <==> name in ResolutionNames
    ensures r.Some? ==> |name| > 0 && r.value == name[0]
  {
    match name
    case "crude" => Some('c')
    case "low" => Some('l')
    case "intermediate" => Some('i')
    case "high" => Some('h')
    case "full" => Some('f')
    case _ => None
  }

  /** The zero-based position of the zoomed trace; `zoom_index` counts from 1. */
  function ZoomPosition(zoomIndex: int): (r: Result<nat, VizError>)
    ensures r.Err? <==> zoomIndex < 1
    ensures r.Err? ==> r.error == ZoomIndexTooSmall
    ensures r.Ok? ==> r.value + 1 == zoomIndex
  {
    if zoomIndex < 1 then Err(ZoomIndexTooSmall) else Ok(zoomIndex - 1)
  }

  /** The largest density of a non-empty trace (`data['density'].max()`). */
  function MaxDensity(rows: seq<TraceRow>): (r: real)
    requires rows != []
    ensures exists j :: 0 <= j < |rows| && rows[j].density == r
    ensures forall j :: 0 <= j < |rows| ==> rows[j].density <= r
  {
    if |rows| == 1 then rows[0].density
    else
      var rest := MaxDensity(rows[1..]);
      assert forall j :: 1 <= j < |rows| ==> rows[j] == rows[1..][j - 1];
      if rows[0].density >= rest then rows[0].density else rest
  }

  /** The smallest density of a non-empty trace (`data['density'].min()`). */
  function MinDensity(rows: seq<TraceRow>): (r: real)
    requires rows != []
    ensures exists j :: 0 <= j < |rows| && rows[j].density == r
    ensures forall j :: 0 <= j < |rows| ==> r <= rows[j].density
  {
    if |rows| == 1 then rows[0].density
    else
      var rest := MinDensity(rows[1..]);
      assert forall j :: 1 <= j < |rows| ==> rows[j] == rows[1..][j - 1];
      if rows[0].density <= rest then rows[0].density else rest
  }

  /** The sort key: the density, negated for a descending ranking. */
  function Rank(t: TraceRow, ascending: bool): real {
    if ascending then t.density else -t.density
  }

  /** Ranked by density: ascending when `ascending`, descending otherwise. */
  predicate SortedBy(rows: seq<TraceRow>, ascending: bool) {
    forall i, j :: 0 <= i < j < |rows| ==> Rank(rows[i], ascending) <= Rank(rows[j], ascending)
  }

  /** Inserts `x` into a ranked sequence before the first row it does not rank after. */
  function Insert(x: TraceRow, rows: seq<TraceRow>, ascending: bool): (r: seq<TraceRow>)
    ensures |r| == |rows| + 1
  {
    if rows == [] then [x]
    else if Rank(x, ascending) <= Rank(rows[0], ascending) then [x] + rows
    else [rows[0]] + Insert(x, rows[1..], ascending)
  }

  /** Insertion adds exactly `x`. */
  lemma {:induction false} InsertCount(x: TraceRow, rows: seq<TraceRow>, ascending: bool)
    ensures multiset(Insert(x, rows, ascending)) == multiset(rows) + multiset{x}
  {
    if rows != [] && Rank(x, ascending) > Rank(rows[0], ascending) {
      InsertCount(x, rows[1..], ascending);
      assert rows == [rows[0]] + rows[1..];
    }
  }

  /** `b` ranks no later than any row of `rows`. */
  predicate RanksBefore(b: TraceRow, rows: seq<TraceRow>, ascending: bool) {
    forall j :: 0 <= j < |rows| ==> Rank(b, ascending) <= Rank(rows[j], ascending)
  }

  /** A row ranking before `x` and before every row still ranks before all of them after insertion. */
  lemma {:induction false} InsertKeepsBound(b: TraceRow, x: TraceRow, rows: seq<TraceRow>, ascending: bool)
    requires Rank(b, ascending) <= Rank(x, ascending)
    requires RanksBefore(b, rows, ascending)
    ensures RanksBefore(b, Insert(x, rows, ascending), ascending)
  {
    if rows != [] && Rank(x, ascending) > Rank(rows[0], ascending) {
      InsertKeepsBound(b, x, rows[1..], ascending);
      var r := Insert(x, rows, ascending);
      assert r == [rows[0]] + Insert(x, rows[1..], ascending);
      forall j | 0 <= j < |r| ensures Rank(b, ascending) <= Rank(r[j], ascending) {
        if j > 0 {
          assert r[j] == Insert(x, rows[1..], ascending)[j - 1];
        }
      }
    }
  }

  /** Insertion keeps the ranking. */
  lemma {:induction false} InsertSorted(x: TraceRow, rows: seq<TraceRow>, ascending: bool)
    requires SortedBy(rows, ascending)
    ensures SortedBy(Insert(x, rows, ascending), ascending)
  {
    if rows == [] {
    } else if Rank(x, ascending) <= Rank(rows[0], ascending) {
      var r := [x] + rows;
      assert Insert(x, rows, ascending) == r;
      forall i, j | 0 <= i < j < |r| ensures Rank(r[i], ascending) <= Rank(r[j], ascending) {
        assert r[j] == rows[j - 1];
        if i > 0 {
          assert r[i] == rows[i - 1];
        } else {
          assert Rank(rows[0], ascending) <= Rank(rows[j - 1], ascending);
        }
      }
    } else {
      var tail := rows[1..];
      var rest := Insert(x, tail, ascending);
      InsertSorted(x, tail, ascending);
      assert RanksBefore(rows[0], tail, ascending) by {
        forall j | 0 <= j < |tail| ensures Rank(rows[0], ascending) <= Rank(tail[j], ascending) {
          assert tail[j] == rows[j + 1];
        }
      }
      InsertKeepsBound(rows[0], x, tail, ascending);
      var r := [rows[0]] + rest;
      assert Insert(x, rows, ascending) == r;
      forall i, j | 0 <= i < j < |r| ensures Rank(r[i], ascending) <= Rank(r[j], ascending) {
        assert r[j] == rest[j - 1];
        if i > 0 {
          assert r[i] == rest[i - 1];
        }
      }
    }
  }

  /** `sort_values(by=['density'], ascending=ascending)`: a ranking of the same rows. */
  function SortByDensity(rows: seq<TraceRow>, ascending: bool): (r: seq<TraceRow>)
    ensures |r| == |rows|
    ensures multiset(r) == multiset(rows)
    ensures SortedBy(r, ascending)
  {
    if rows == [] then []
    else
      var tail := rows[1..];
      var sortedTail := SortByDensity(tail, ascending);
      InsertCount(rows[0], sortedTail, ascending);
      InsertSorted(rows[0], sortedTail, ascending);
      assert multiset(rows) == multiset(tail) + multiset{rows[0]} by {
        assert rows == [rows[0]] + tail;
      }
      Insert(rows[0], sortedTail, ascending)
  }

  /** A cell of the displayed table. */
  datatype Entry = Label(text: string) | Number(value: real)

  /** One line of the displayed table: county, state and the chosen column. */
  datatype TableRow = TableRow(county: Entry, state: Entry, value: Entry)

  /** The row that marks a truncated table. */
  const EllipsisRow: TableRow := TableRow(Label("..."), Label("..."), Label("..."))

  /** The most rows shown before the table is truncated. */
  const MaxTableRows: nat := 15

  /** The columns of a trace once its index has been reset. */
  predicate IsColumn(name: string) {
    name in ["county", "state", "latitude", "longitude", "estimated_population", "density"] ||
    name in StatisticList
  }

  /** The value of column `name` of a trace row. */
  function Column(t: TraceRow, name: string): Entry
    requires IsColumn(name)
  {
    match name
    case "county" => Label(t.county.key.county)
    case "state" => Label(t.county.key.state)
    case "latitude" => Number(t.county.latitude)
    case "longitude" => Number(t.county.longitude)
    case "estimated_population" => Number(t.county.population)
    case "density" => Number(t.density)
    case _ => Number(Statistic(t.stats, name))
  }

  /** `[['county', 'state', text]]` of every row. */
  function Project(rows: seq<TraceRow>, text: string): (r: seq<TableRow>)
    requires IsColumn(text)
    ensures |r| == |rows|
    ensures forall i :: 0 <= i < |rows| ==>
              r[i] == TableRow(Label(rows[i].county.key.county), Label(rows[i].county.key.state), Column(rows[i], text))
  {
    seq(|rows|, i requires 0 <= i < |rows| =>
      TableRow(Label(rows[i].county.key.county), Label(rows[i].county.key.state), Column(rows[i], text)))
  }

  /**
   * A table of more than 15 rows keeps its first 15 and gains the ellipsis
   * row, 16 in all; a shorter table is unchanged.
   */
  function Truncate(table: seq<TableRow>): (r: seq<TableRow>)
    ensures |r| <= MaxTableRows + 1
    ensures |table| <= MaxTableRows ==> r == table
    ensures |table| > MaxTableRows ==> r == table[..MaxTableRows] + [EllipsisRow]
  {
    if |table| > MaxTableRows then table[..MaxTableRows] + [EllipsisRow] else table
  }

  /** The table beside the zoomed map; None stands for the KeyError of an unknown column. */
  function ZoomTable(rows: seq<TraceRow>, text: string, ascending: bool): (r: Option<seq<TableRow>>)
    ensures r.None? <==> !IsColumn(text)
  {
    if !IsColumn(text) then None
    else Some(Truncate(Project(SortByDensity(rows, ascending), text)))
  }

  /**
   * The displayed table lists the trace's rows ranked by density (descending
   * unless `ascending`), at most 15 of them, followed by the ellipsis row
   * exactly when rows were cut.
   */
  lemma {:induction false} ZoomTableSpec(rows: seq<TraceRow>, text: string, ascending: bool)
    requires IsColumn(text)
    ensures var table := ZoomTable(rows, text, ascending).value;
            var ranked := SortByDensity(rows, ascending);
            && multiset(ranked) == multiset(rows)
            && SortedBy(ranked, ascending)
            && |table| == (if |rows| > MaxTableRows then MaxTableRows + 1 else |rows|)
            && (forall i :: 0 <= i < |table| && i < MaxTableRows && i < |rows| ==>
                  table[i] == TableRow(Label(ranked[i].county.key.county), Label(ranked[i].county.key.state),
                                       Column(ranked[i], text)))
            && (|rows| > MaxTableRows ==> table[MaxTableRows] == EllipsisRow)
  {
    var ranked := SortByDensity(rows, ascending);
    var projected := Project(ranked, text);
    assert ZoomTable(rows, text, ascending).value == Truncate(projected);
  }

  /** What `plot` draws in the zoomed panel. */
  datatype ZoomPanel = ZoomPanel(frame: MapFrame, table: seq<TableRow>)

  /**
   * The zoomed panel of one trace, in the order `plot` evaluates it: the
   * frame from `retrieve_corners`, the resolution code, then the table.
   */
  function ZoomPanelOf(t: CovidTrace, resolution: string, text: string, ascending: bool): (r: Result<ZoomPanel, VizError>)
    reads t
  {
    match t.RetrieveCorners()
    case None => Err(CornersMissing)
    case Some(corners) =>
      match ResolutionCode(resolution)
      case None => Err(UnknownResolution(resolution))
      case Some(code) =>
        match ZoomTable(t.data, text, ascending)
        case None => Err(UnknownColumn(text))
        case Some(table) => Ok(ZoomPanel(MapFrame(corners, code), table))
  }

  /**
   * The colour scale of a set of traces: vmax is the largest of 0 and every
   * density, vmin the smallest of 1 and every density.
   */
  ghost predicate IsColourScale(traces: seq<CovidTrace>, vmin: real, vmax: real)
    reads set k | 0 <= k < |traces| :: traces[k]
  {
    && 0.0 <= vmax && vmin <= 1.0
    && (forall k, j :: 0 <= k < |traces| && 0 <= j < |traces[k].data| ==>
          vmin <= traces[k].data[j].density <= vmax)
    && (vmax == 0.0 || HasDensity(traces, |traces|, vmax))
    && (vmin == 1.0 || HasDensity(traces, |traces|, vmin))
  }

  /** Some row of one of the first `n` traces has density `d`. */
  ghost predicate HasDensity(traces: seq<CovidTrace>, n: nat, d: real)
    requires n <= |traces|
    reads set k | 0 <= k < |traces| :: traces[k]
  {
    exists k, j :: 0 <= k < n && 0 <= j < |traces[k].data| && traces[k].data[j].density == d
  }

  /**
   * The loop of `plot` over the traces that widens the colour scale, starting
   * from vmin = 1 and vmax = 0, to each trace's largest and smallest density.
   */
  method ColourScale(traces: seq<CovidTrace>) returns (vmin: real, vmax: real)
    ensures IsColourScale(traces, vmin, vmax)
  {
    vmin := 1.0;
    vmax := 0.0;
    var i := 0;
    while i < |traces|
      invariant 0 <= i <= |traces|
      invariant 0.0 <= vmax && vmin <= 1.0
      invariant forall k, j :: 0 <= k < i && 0 <= j < |traces[k].data| ==>
                  vmin <= traces[k].data[j].density <= vmax
      invariant vmax == 0.0 || HasDensity(traces, i, vmax)
      invariant vmin == 1.0 || HasDensity(traces, i, vmin)
    {
      var rows := traces[i].data;
      // the maximum and minimum of an empty column are NaN, and NaN compares false
      if rows != [] {
        var hi := MaxDensity(rows);
        if hi > vmax {
          vmax := hi;
        }
        var lo := MinDensity(rows);
        if lo < vmin {
          vmin := lo;
        }
      }
      i := i + 1;
    }
  }

  /** What `plot` computes: the colour scale and the zoomed panel, if any. */
  datatype Plotted = Plotted(vmin: real, vmax: real, zoom: Option<ZoomPanel>)

  /** The display (`CovidViz`). */
  class CovidViz {
    var usMap: MapFrame

    constructor ()
      ensures usMap == NationalFrame
    {
      usMap := NationalFrame;
    }

    /**
     * `plot(*traces, zoom_index, resolution, text, ascending)`: the colour
     * scale runs from min(1, every density) to max(0, every density); only
     * the trace at position `zoomIndex - 1` gets a zoomed panel, and an index
     * past the last trace gets none and raises nothing. The defaults are
     * the source's.
     */
    method Plot(traces: seq<CovidTrace>, zoomIndex: int := 1, resolution: string := "low",
                text: string := "estimated_population", ascending: bool := false)
      returns (r: Result<Plotted, VizError>)
      ensures zoomIndex < 1 <==> r == Err(ZoomIndexTooSmall)
      ensures r.Ok? ==> IsColourScale(traces, r.value.vmin, r.value.vmax)
      ensures zoomIndex > |traces| ==> r.Ok? && r.value.zoom.None?
      ensures 1 <= zoomIndex <= |traces| ==>
                match ZoomPanelOf(traces[zoomIndex - 1], resolution, text, ascending)
                case Err(e) => r == Err(e)
                case Ok(panel) => r.Ok? && r.value.zoom == Some(panel)
    {
      var position := ZoomPosition(zoomIndex);
      if position.Err? {
        return Err(position.error);
      }
      var zoom := position.value;
      var vmin, vmax := ColourScale(traces);
      var panel: Option<ZoomPanel> := None;
      var ind := 0;
      while ind < |traces|
        invariant 0 <= ind <= |traces|
        invariant ind <= zoom ==> panel.None?
        invariant zoom < ind ==> panel.Some? && ZoomPanelOf(traces[zoom], resolution, text, ascending) == Ok(panel.value)
      {
        if ind == zoom {
          var trace := traces[ind];
          var corners := trace.RetrieveCorners();
          if corners.None? {
            return Err(CornersMissing);
          }
          var code := ResolutionCode(resolution);
          if code.None? {
            return Err(UnknownResolution(resolution));
          }
          var table := ZoomTable(trace.data, text, ascending);
          if table.None? {
            return Err(UnknownColumn(text));
          }
          panel := Some(ZoomPanel(MapFrame(corners.value, code.value), table.value));
        }
        ind := ind + 1;
      }
      r := Ok(Plotted(vmin, vmax, panel));
    }
  }
}
