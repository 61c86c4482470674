/** The in-memory table the happiness handler works on: the rows of one
    World Happiness Report year, the set of columns the table carries, and
    the errors the handler raises. */
module Tables {

  datatype Option<+T> = None | Some(value: T)

  datatype Result<+T, +E> = Success(value: T) | Failure(error: E)

  /** The result of an operation that returns nothing but may fail. */
  datatype Outcome<+E> = Pass | Fail(error: E)

  /** The columns the handler reads or writes; each comment gives the
      column's header in the data files. */
  datatype Column =
    | Country
    | Year
    | Gdp                    // "GDP per capita"
    | SocialSupport          // "Social support"
    | HealthyLifeExpectancy  // "Healthy life expectancy"
    | Freedom                // "Freedom to make life choices"
    | Corruption             // "Perceptions of corruption"
    | Generosity             // "Generosity"
    | WeightedScore          // "Weighted_Score", the derived column

  /** One country-year record. A field whose column the table lacks carries
      no meaning; the derived score is present exactly when the table has
      the Weighted_Score column. */
  datatype Row = Row(
    country: string,
    year: int,
    gdp: real,
    socialSupport: real,
    healthyLifeExpectancy: real,
    freedom: real,
    corruption: real,
    generosity: real,
    score: Option<real>)

  datatype Frame = Frame(columns: set<Column>, rows: seq<Row>)

  /** Every row has a score exactly when the table has the score column. */
  predicate ScoreColumnConsistent(f: Frame) {
    forall i :: 0 <= i < |f.rows| ==> (f.rows[i].score.Some? <==> WeightedScore in f.columns)
  }

  type Table = f: Frame | ScoreColumnConsistent(f) witness Frame({}, [])

  /** The table a new handler starts with: no columns and no rows. */
  const EmptyTable: Table := Frame({}, [])

  datatype Error =
    | UnsupportedYear(year: int)          // ValueError: no data file for that year
    | SourceNotFound(path: string)        // FileNotFoundError
    | MissingColumn(column: Column)       // KeyError on a column lookup
    | CountryNotFound(country: string)    // ValueError: country not in the table
}
