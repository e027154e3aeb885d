# covid_visualization — a Dafny model

This project models the data pipeline of `covid_visualization`, a small tool that
draws the density of COVID-19 statistics around a chosen US county:

- **Case scraper** (`CaseScraper`, `case_scraper.dfy`). The scraper takes the New
  York Times "live" county CSV as one string and removes every newline from it.
  The date that follows the `probable_deaths` header becomes the update date.
  The remaining text is split into one record per county on `date,`. When the
  local cache is missing or its first date differs, the scraper writes a
  ten-column case table (the cells go into a two-dimensional array). Empty
  fields are stored as `0`.
- **Python string operations** (`PyStrings`, `py_strings.dfy`). These are the
  `str.split`, `sep.join` and `str.replace` operations the scraper relies on,
  with their round-trip laws.
- **Utilities** (`Utils`, `utils.dfy`):
  - mapping full state names to abbreviations in the case table;
  - the list of case statistics;
  - the geocode group-by. It averages latitude and longitude and sums the
    population of every zip-code row of a (county, state) key.
- **Trace** (`Trace`, `trace.dfy`). `CovidTrace` validates its statistic, state
  and county, then builds its data in three steps:
  - it keeps the counties within the radius of the centre county;
  - it left-joins the case statistics, filling missing ones with zero;
  - it computes the density as statistic ÷ population and drops rows whose
    population is zero.

  `RetrieveCorners` returns the zoom box around the data row keyed by the
  stored (county, state) centre. That is the intended single-key lookup; the
  source looks the centre up with a list, which behaves differently (see
  Findings).
- **Visualisation** (`Viz`, `viz.dfy`). `CovidViz.Plot` does four things:
  - it checks the zoom index;
  - it folds the density range of all traces into one colour scale (`vmin`,
    `vmax`), starting from 1 and 0;
  - it builds the zoomed panel of the selected trace: a frame with the trace's
    corners and the chosen map resolution;
  - it lists the county, state and the chosen column, sorted by density and
    cut to 15 rows plus an ellipsis row.

Python exceptions become `Option`/`Result` values (`Outcomes`, `outcomes.dfy`).
The network download, the local CSV cache and the great-circle distance are
parameters of the model.

## Model

| member | source | states |
|---|---|---|
| PyStrings.JoinSplit | covid_case_scraper.py:6 | joining the pieces of `s.split(sep)` with `sep` gives back `s` |
| PyStrings.ReplaceIsDrop | covid_case_scraper.py:6 | `s.replace(c, '')` equals `s` with every `c` removed and all other characters kept in order |
| PyStrings.SplitPiecesFree | covid_case_scraper.py:7 | no piece produced by `split(sep)` contains `sep` |
| PyStrings.SplitJoinChar | covid_case_scraper.py:41 | splitting on a one-character separator the parts of a join that do not contain it gives back exactly those parts |
| PyStrings.RemoveCharGone | covid_case_scraper.py:6 | after replacing a character with the empty string, that character no longer occurs |
| CaseScraper.StripNewlines | covid_case_scraper.py:6 | the stripped download is the download with exactly its newlines removed, other characters kept in order; no newline remains |
| CaseScraper.UpdatedDate | covid_case_scraper.py:7 | the update date exists exactly when the download contains `probable_deaths` (otherwise indexing `[1]` raises) |
| CaseScraper.UpdatedDateLocation | covid_case_scraper.py:5-7 | the date is the text that directly follows the first `probable_deaths`. It contains no comma and no header, and is followed by the end of the text, a comma or the header |
| CaseScraper.CaseListReassembles | covid_case_scraper.py:34 | the discarded prefix plus the records, joined with `date,`, rebuild the text between the first and the second `probable_deaths` (or the end). No record contains `date,` |
| CaseScraper.RowCells | covid_case_scraper.py:37-46 | every row has ten cells, its first cell is the update date and no cell is left unset |
| CaseScraper.ParsedEntry | covid_case_scraper.py:39-46 | for a loaded download the newline test never fires. Cell `c+1` is the `c`-th comma field, or zero when that field is empty or missing |
| CaseScraper.ExtraFieldsIgnored | covid_case_scraper.py:39-41 | fields after the ninth do not change the row |
| CaseScraper.RowRoundTrip | covid_case_scraper.py:37-46 | a record built by joining nine non-empty comma-free fields yields the date followed by exactly those fields |
| CaseScraper.BuildCasesArray | covid_case_scraper.py:35-46 | the array has one row per record and ten columns. Each cell is the corresponding cell of that record's row |
| CaseScraper.CreateCovidCsv | covid_case_scraper.py:17-61 | a table is written exactly when the cache is missing or its first date differs from the update date. It has the ten column names and one row per record |
| Utils.StatisticsAreCaseColumns | utils.py:28-35 | the statistic list is exactly the last six columns of the case table |
| Utils.AbbreviateStates | utils.py:17 | the lookup fails exactly when some state name is not in the abbreviation map. Otherwise each record keeps its fields, with its state replaced by the abbreviation |
| Utils.FindKey | covid_trace.py:39-42 | the `.loc[(county, state)]` lookup finds the first element with the key, and fails exactly when there is none; used for the case table, the county table, the groups and the trace rows |
| Utils.GroupCountiesSpec | utils.py:21-25 | group keys are distinct, and a key appears exactly when some geocode row has it. Latitude and longitude are the means, and population the sum, over that key's rows |
| Trace.WithinRadius | covid_trace.py:56-58 | a county is kept exactly when its distance from the centre is at most the radius, as many times as the table holds it |
| Trace.WithinRadiusAppend | covid_trace.py:58 | the selection of two concatenated tables is the concatenation of their selections, so rows stay in table order |
| Trace.JoinCases | covid_trace.py:59-61 | the join keeps every selected county in order. It attaches the matching case statistics, or zeros when there is no match |
| Trace.WithDensity | covid_trace.py:63-65 | every kept row has non-zero population and density = statistic ÷ population. Every joined row with non-zero population is kept, as many times as it occurs |
| Trace.WithDensityAppend | covid_trace.py:63-65 | the densities of two concatenated tables are the concatenation of their densities, so rows stay in order |
| Trace.TraceMembership | covid_trace.py:56-65 | a county is in the trace exactly when it is within the radius and has non-zero population. Its density uses its case statistic |
| Trace.CornersAround | covid_trace.py:75-85 | the box is centred on the county, its half-width is (radius + 20) / 69 degrees, and it is well-ordered exactly when the radius is at least -20 |
| Trace.CovidTrace.Create | covid_trace.py:24-42 | an unknown statistic, unknown full state name or unknown county is reported in the source's order. On success the fields hold the centre as passed, the radius, the first case date and the trace data |
| Trace.CovidTrace.constructor | covid_trace.py:24-65 | the new trace stores the centre, radius, last update date and trace data |
| Trace.CovidTrace.RetrieveCorners | covid_trace.py:67-85 | intended behaviour: the corners exist exactly when a data row has the stored centre's (county, state) key, and are the box around that row |
| Trace.LocLabels | covid_trace.py:77 | a list lookup fails exactly when some label names no row's county. Otherwise it selects every row whose county is one of the labels, at least one per label |
| Trace.CovidTrace.RetrieveCornersAsWritten | covid_trace.py:77-85 | as written: no corners (KeyError) unless some row is named after the centre's county and some row after its state string. Otherwise there is one box per selected row, at least two |
| Trace.AlamedaCenterAsWritten | covid_trace.py:77 | for the centre ("Alameda", "CA") and Alameda's row, the single-key lookup finds the row, while the list lookup fails |
| Trace.AbbreviatedCenterRaises | covid_trace.py:26 | as written, when no row's county is named like the centre's state, no corners are found |
| Trace.FullStateNameMissesCenter | covid_trace.py:26 | under the single-key lookup the centre keeps the state as passed, so when that is a full name and every data row carries an abbreviation, no corners are found |
| Viz.ResolutionCode | covid_viz.py:59-65 | only the five resolution names are accepted, each mapping to its initial letter |
| Viz.ZoomPosition | covid_viz.py:54-57 | indexes below 1 fail; otherwise the position is the index minus one |
| Viz.MaxDensity | covid_viz.py:68-69 | the maximum is a density of the trace and bounds every density from above |
| Viz.MinDensity | covid_viz.py:70-71 | the minimum is a density of the trace and bounds every density from below |
| Viz.SortByDensity | covid_viz.py:130 | the result is a permutation of the rows, ordered by density ascending or descending |
| Viz.Truncate | covid_viz.py:131-133 | a table of at most 15 rows is unchanged. A longer one keeps its first 15 rows plus one ellipsis row |
| Viz.ZoomTable | covid_viz.py:130 | the table fails exactly when the requested column does not exist |
| Viz.ZoomTableSpec | covid_viz.py:130-133 | the table rows are a sorted permutation of the trace rows, projected on county, state and column. There are as many as rows up to 15; a longer trace gives its first 15 plus an ellipsis row |
| Viz.ColourScale | covid_viz.py:51-71 | `vmax` is the largest of 0 and every density, and `vmin` the smallest of 1 and every density; empty traces do not count |
| Viz.CovidViz.constructor | covid_viz.py:13-24 | the national map frame has the fixed corners and low resolution |
| Viz.CovidViz.Plot | covid_viz.py:30-108 | the source's defaults apply: zoom index 1, resolution "low", column "estimated_population", descending order. An index below 1 fails. Otherwise the colour scale covers every trace. An index past the last trace draws no zoom panel, and any other index builds the panel of that trace |

## Left out

- The download from the New York Times repository is a string parameter: network access is outside the model.
- Reading and writing `us-counties.csv` are not modelled. The cache is given as its optional first date, and writing returns the table. The printed messages are dropped.
- Parsing the written CSV back into case records (`pd.read_csv`) is not modelled. The case table is given as a sequence of records.
- The haversine distance in `utils.py` and the conversion to radians are floating-point trigonometry. The distance is a function parameter taking degrees.
- The `us_state_abbrev` table is a map parameter, because its file is not part of this model.
- Everything matplotlib and Basemap draw (coastlines, scatter markers and their sizes, the colour bar, the title, the text table widget, `plt.show`) is left out. The model keeps only the values they are given.
- The `try`/`except` in `utils.py` around the scraper call is not modelled: it only decides whether the scraper runs.
- `run.py` is not part of this model.
- pandas' NaN and infinity handling is not modelled. `mean` skips NaN, and the model has no NaN inputs. After `fillna(0)` no statistic is NaN. `replace([inf, -inf], nan)` followed by `dropna` drops every row holding an infinite value; the model drops only the rows whose population is 0, because a `real` cannot be infinite.
- Every float is an exact `real`: the means, the densities and the corner arithmetic `(num_miles + 20) / 69.`. Rounding and overflow are not modelled.
- Utils.FindKey: `cases_df` is indexed by (county, state) and may hold duplicate keys. The join then yields several rows, but the model takes the first match.
- Utils.GroupCountiesSpec: groups appear in first-appearance order; pandas sorts the keys.
- Viz.SortByDensity: the contract states a sorted permutation only. The order among rows of equal density (pandas' unstable quicksort) is not fixed.
- Viz.ColourScale: the density of an empty trace is NaN in pandas, and comparisons with it are false, so the model skips that trace.
- Trace.CovidTrace.Create: integer and float radii are both modelled as `real`.
- Trace.CovidTrace.RetrieveCornersAsWritten: when the list lookup succeeds, the corners are pandas Series. What Basemap does with them is not modelled, and neither are `.loc` label lists with repeated labels.

## Findings

| source | as written | input that shows it | evidently intended | confidence | as-written member | corrected member |
|---|---|---|---|---|---|---|
| covid_trace.py:77-80 | `self.data.loc[self.center]` with `self.center` the list `[county, state]` (line 26). pandas reads a list as labels of the first index level, the county, so the lookup raises KeyError unless a county is named after the state string. When it does not raise, it selects several rows instead of one | the centre ("Alameda", "CA") used by run.py, with Alameda's row in the trace: no county is named "CA" | the single-key lookup `self.data.loc[tuple(self.center)]`, giving the box around the centre's own row | not executed; follows pandas' documented list-versus-tuple indexing | Trace.CovidTrace.RetrieveCornersAsWritten, Trace.AlamedaCenterAsWritten | Trace.CovidTrace.RetrieveCorners |
