# World Happiness scoring and ranking, in Dafny

This project models the scoring and ranking engine of the World Happiness
Report tools: the `HappinessHandler` class. A handler owns one in-memory
table of country-year records and offers four operations:

- **load a year**: only 2015 to 2019 have data files, named `<year>.csv`
  under the handler's data directory. A good year and an existing file
  replace the table wholesale.
- **compute the weighted score**: every row's `Weighted_Score` is set to
  0.3·GDP + 0.25·Social support + 0.2·Healthy life expectancy +
  0.15·Freedom + 0.05·Corruption + 0.05·Generosity.
- **top countries**: the handler rescores, groups the rows by country,
  averages each group, and returns the `n` largest averages.
- **country rank**: the handler groups and averages without rescoring,
  sorts descending, and returns the country's 1-based position, the number
  of countries, and the country's average.

Files:

- `tables.dfy` (module `Tables`) holds the data model. A `Row` is one
  country-year record with six `real` factors and an optional score. A
  `Table` is a set of present columns and a sequence of rows; every row
  carries a score exactly when the `Weighted_Score` column is present. The
  module also holds the error kinds.
- `grouping.dfy` (module `Grouping`) holds the pandas steps the queries use.
  These are the per-country count, sum and mean, the list of distinct
  countries, the code-point order on names, an insertion sort into listing
  order, the `n`-largest selection, and the rank bounds.
- `handler.dfy` (module `Handler`) holds the year-to-file map, path joining,
  the weighted score and the scored table. It also holds the two queries as
  functions and the class `HappinessHandler`, whose `data` field is the
  table that `LoadData` and `ComputeWeightedScore` reassign.

Modelling choices:

- Exceptions become `Result` values. `ValueError` for a year becomes
  `UnsupportedYear`. `FileNotFoundError` becomes `SourceNotFound`. A
  `KeyError` on a column lookup becomes `MissingColumn`. `ValueError` for an
  unknown country becomes `CountryNotFound`.
- Columns can be missing, as in a DataFrame. Scoring reports the first
  missing factor column in the order the score expression reads them.
  Scoring fails on the empty table a new handler starts with. The top query
  fails on a table without a `Country` column. It has already rescored the
  table when it fails that way, as the source does. The rank query fails
  when the `Country` or `Weighted_Score` column is missing.
- The file system is a parameter: a map from path to parsed table. A path
  exists when it is a key of the map, and reading it yields the mapped table.
- Scores and means are `real`, so the weighted sum and the averages are
  exact.
- Listing order is higher mean first. Among equal means, the country whose
  name is smaller in code-point order (Python's `<` on `str`) comes first.
  The grouped keys arrive sorted by name, so this is the order a stable
  descending selection gives. Neither query's source promises it for equal
  means (see "## Left out"), so the tie-break is a modelling choice.
  `RankBounds` states the rank's bounds for every order of equal means.
- A non-positive `n` selects no countries, as pandas' `nlargest` does.

## Model

| member | source | states |
|---|---|---|
| `Handler.FileFor` | src/happiness/happiness_handler.py:18-27 | a year has a data file exactly when it lies in 2015..2019; the file is the year's decimal digits followed by `.csv`; any other year is an `UnsupportedYear` error |
| `Handler.Join` | src/happiness/happiness_handler.py:29 | POSIX `os.path.join`: an absolute name replaces the directory; otherwise a directory that is empty or ends in `/` is followed directly by the name, and any other directory is joined to it with one `/` |
| `Handler.HappinessHandler.constructor` | src/happiness/happiness_handler.py:10-12 | a new handler keeps its data directory and starts with the empty table |
| `Handler.HappinessHandler.LoadData` | src/happiness/happiness_handler.py:14-35 | an unsupported year fails and leaves the table alone; a missing file fails with its path and leaves the table alone; otherwise the parsed file replaces the table and is returned |
| `Handler.WeightsSumToOne` | src/happiness/happiness_handler.py:42-49 | the six weights sum to 1 |
| `Handler.ScoreWithinFactors` | src/happiness/happiness_handler.py:50-58 | a row's weighted score lies between its smallest and its largest factor |
| `Handler.ScoreMonotone` | src/happiness/happiness_handler.py:50-58 | raising any factor never lowers the weighted score |
| `Handler.WeightedSum` | src/happiness/happiness_handler.py:42-58 | the score expression the other contracts are stated in; it equals the sum over the six factor columns, in reading order, of each column's weight times the row's value in it |
| `Handler.MissingFactor` | src/happiness/happiness_handler.py:50-57 | no factor is reported exactly when all six columns are present; a reported factor is absent and every factor read before it is present |
| `Handler.Scored` | src/happiness/happiness_handler.py:50-58 | scoring fails exactly when a factor column is absent, and then names the first absent one; on success it adds the score column, keeps row count, order and every other field, and gives each row the weighted sum of its own factors |
| `Handler.ScoredIdempotent` | src/happiness/happiness_handler.py:50-58 | scoring a scored table gives the same table again |
| `Handler.ScoredIgnoresStaleScores` | src/happiness/happiness_handler.py:50-58 | the scored table is the same whether or not the table already held scores: scoring depends only on the factors |
| `Handler.EmptyTableQueries` | src/happiness/happiness_handler.py:12 | the initial empty table cannot be scored (GDP is missing first) and cannot be ranked (`Country` is missing) |
| `Handler.HappinessHandler.ComputeWeightedScore` | src/happiness/happiness_handler.py:37-58 | on a missing factor column the table is unchanged and the error is returned; otherwise the table becomes the scored table |
| `Handler.TopCountries` | src/happiness/happiness_handler.py:60-67 | the query succeeds exactly when the table can be scored and has `Country`; scoring errors propagate; a table without `Country` fails; a success is the top-`n` selection over the freshly scored rows |
| `Handler.TopCountriesIgnoresStaleScores` | src/happiness/happiness_handler.py:64 | because the query rescores first, its answer is the same with or without scores already in the table |
| `Handler.HappinessHandler.GetTopCountries` | src/happiness/happiness_handler.py:60-67 | returns the top-`n` answer for the old table; the table is left rescored whenever scoring succeeded, even when the query then fails |
| `Handler.CountryRank` | src/happiness/happiness_handler.py:69-89 | succeeds exactly when both columns are present and the country has a row; fails on a missing `Country` or `Weighted_Score` column, in that order, and otherwise with `CountryNotFound` when the country has no rows; on success 1 <= rank <= total, total is the number of distinct countries, the score is the country's mean, the country stands at position rank, fewer than rank countries have a higher mean while at least rank have a mean as high, every country listed before it has a mean at least as high, and every one listed after it a mean at most as high |
| `Handler.HappinessHandler.GetCountryRank` | src/happiness/happiness_handler.py:69-89 | reads the table without changing it and returns the rank answer for it, whose rank lies in 1..total and whose total is the number of distinct countries |
| `Handler.TopTwoOfThree` | src/happiness/happiness_handler.py:65-66 | with countries averaging 0.9, 0.5 and 0.7, the top two are the first and the third, in that order |
| `Grouping.Mean` | src/happiness/happiness_handler.py:65 | the per-country mean the other contracts are stated in; mean times row count is the country's score sum |
| `Grouping.Averages` | src/happiness/happiness_handler.py:65 | the grouped table before sorting: one entry per country of the table, with that country's mean, no country twice, in the order `Countries` lists them (by last occurrence; pandas lists the keys by name) |
| `Grouping.SumBounds` | src/happiness/happiness_handler.py:65 | a country's score sum lies between its row count times a lower and an upper bound on its scores |
| `Grouping.MeanBounds` | src/happiness/happiness_handler.py:65 | a country's mean lies between the smallest and the largest of its scores |
| `Grouping.Countries` | src/happiness/happiness_handler.py:65 | the grouped keys: no country twice, and a country is listed exactly when it has at least one row |
| `Grouping.CountriesCard` | src/happiness/happiness_handler.py:86 | the number of groups equals the number of distinct country names in the table |
| `Grouping.NameLessTransitive` | src/happiness/happiness_handler.py:65-66 | the name order used to break ties is transitive |
| `Grouping.NameLessTotal` | src/happiness/happiness_handler.py:65-66 | any two different names are ordered one way or the other |
| `Grouping.Insert` | src/happiness/happiness_handler.py:78 | inserting into a sorted grouped table adds exactly that entry and keeps listing order |
| `Grouping.Sort` | src/happiness/happiness_handler.py:78 | the sorted grouped table is a permutation of the input and is in listing order |
| `Grouping.Ranked` | src/happiness/happiness_handler.py:75-78 | the sorted grouped table has one entry per distinct country, each with that country's mean, in listing order |
| `Grouping.IndexOf` | src/happiness/happiness_handler.py:82 | finds the first position of a country, or reports that no entry has it |
| `Grouping.Top` | src/happiness/happiness_handler.py:65-66 | exactly min(n, number of distinct countries) entries (none for n <= 0), distinct countries, each with its mean, means non-increasing, and no country left out has a mean above any entry |
| `Grouping.PrefixDominates` | src/happiness/happiness_handler.py:66 | an entry left out of a prefix of a sorted table scores no higher than any entry in the prefix |
| `Grouping.RankBetween` | src/happiness/happiness_handler.py:75-89 | the position of a country in listing order is above the number of countries with a higher mean and at most the number with a mean as high |
| `Grouping.RankBounds` | src/happiness/happiness_handler.py:75-89 | the same bounds hold for every listing of the grouped table whose means do not increase, whatever order it gives equal means, so they hold for the unstable sort at :78 |

## Left out

- Reading the CSV (`pd.read_csv`) and checking that the path exists (`os.path.exists`) are file I/O. The file system is a parameter instead: a map from path to an already parsed table.
- Parsing itself is left out. A file that exists but cannot be parsed, column types other than numbers, and values missing from a file (NaN, which pandas' `mean` skips) are not modelled.
- IEEE floating-point rounding in the weighted sum and the means is left out. All arithmetic is on `real`.
- Handler.CountryRank: pandas' default sort is not stable, so the source's rank among countries with equal means is unspecified. The model fixes the tie-break by name. `RankBounds` proves the bounds that hold for every tie-break.
- Handler.TopCountries: for equal means the model lists the smaller name first. pandas' `nlargest` keeps the first of equal values only on some of its code paths; on others it sorts descending with an unstable sort. So the model fixes an order among ties that the source does not promise. The number of countries selected, their means, and the fact that no country left out has a higher mean than one selected hold for every order of ties. Which of several countries tied at the cut-off is selected does depend on that order.
- Aliasing is not modelled. `load_data` returns the handler's own frame, and `compute_weighted_score` adds the column to that same object in place. So a frame a caller got from `load_data` later shows the scores, and so does a visualizer built on it. `LoadData` returns a value: the table as it was loaded.
- Grouping.Averages: the groups come in the order of each country's last occurrence in the table, while pandas' `groupby` lists its keys in ascending name order. No result depends on this order. `Sort` orders by a total order on distinct names, so `Ranked`, `Top` and `CountryRank` are the same for every order of the grouped table.
- Path joining follows POSIX `os.path.join`. Windows paths (`ntpath.join`, with `\` separators and drive letters) are not modelled.
- A year passed as something other than an integer is out of scope. For example, Python treats `2015.0` as the key `2015`.
- The `Year` column is kept as a passive field. No handler logic reads it.
- The plotting class in src/happiness/happiness_visualizer.py is matplotlib/seaborn rendering and is not part of this model. Its only logic repeats the handler's group-mean and top-`n`, or is default column names, a year filter and title strings.
