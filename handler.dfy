/** The happiness handler: it loads one year's table, scores every row with
    a fixed linear combination of six factors, and answers top-n and rank
    queries over the per-country mean score. */
module Handler {
  import opened Tables
  import opened Grouping

  // ----- Year validation and file lookup -----

  /** The data file of each supported year. */
  const FileMap: map<int, string> := map[
    2015 := "2015.csv",
    2016 := "2016.csv",
    2017 := "2017.csv",
    2018 := "2018.csv",
    2019 := "2019.csv"]

  /** Decimal digits of a natural number. */
  function DecimalText(n: nat): string {
    if n < 10 then [Digit(n)] else DecimalText(n / 10) + [Digit(n % 10)]
  }

  function Digit(d: nat): char
    requires d < 10
  {
    "0123456789"[d]
  }

  /** The file name for `year`, or the error for a year without data. */
  function FileFor(year: int): (r: Result<string, Error>)
    ensures r.Success? <==> 2015 <= year <= 2019
    ensures r.Success? ==> r.value == DecimalText(year) + ".csv"
    ensures r.Failure? ==> r.error == UnsupportedYear(year)
  {
    if year in FileMap then
      FileMapEntry(year);
      SupportedYearText(year);
      Success(FileMap[year])
    else Failure(UnsupportedYear(year))
  }

  /** A year from 2015 to 2019 is written `201` followed by its last digit. */
  lemma SupportedYearText(year: int)
    requires 2015 <= year <= 2019
    ensures DecimalText(year) == "201" + [Digit(year - 2010)]
  {
    var p: nat := year / 10;
    assert p == 201 && year % 10 == year - 2010;
    assert DecimalText(p) == DecimalText(20) + "1";
  }

  /** The file of a supported year is its text followed by `.csv`. */
  lemma FileMapEntry(year: int)
    requires year in FileMap
    ensures 2015 <= year <= 2019 && FileMap[year] == "201" + [Digit(year - 2010)] + ".csv"
  {
    if year == 2015 {
    } else if year == 2016 {
    } else if year == 2017 {
    } else if year == 2018 {
    } else {
      assert year == 2019;
    }
  }

  /** POSIX `os.path.join` (`posixpath.join`) of a directory and a relative or absolute name. */
  function Join(dir: string, name: string): (path: string)
    ensures |name| > 0 && name[0] == '/' ==> path == name
    ensures (|name| == 0 || name[0] != '/') && |dir| > 0 && dir[|dir| - 1] != '/' ==> path == dir + "/" + name
    ensures (|name| == 0 || name[0] != '/') && (|dir| == 0 || dir[|dir| - 1] == '/') ==> path == dir + name
  {
    if |name| > 0 && name[0] == '/' then name
    else if |dir| == 0 || dir[|dir| - 1] == '/' then dir + name
    else dir + "/" + name
  }

  /** The files the handler can see: a path is present when it exists, and
      maps to the table parsed from it. */
  datatype FileSystem = FileSystem(files: map<string, Table>)

  // ----- Weighted score -----

  const GdpWeight: real := 0.3
  const SocialSupportWeight: real := 0.25
  const HealthWeight: real := 0.2
  const FreedomWeight: real := 0.15
  const CorruptionWeight: real := 0.05
  const GenerosityWeight: real := 0.05

  /** The six factor columns, in the order the score expression reads them. */
  const FactorColumns: seq<Column> :=
    [Gdp, SocialSupport, HealthyLifeExpectancy, Freedom, Corruption, Generosity]

  /** The weight of each column in the score; columns that are not factors
      weigh nothing. */
  function Weight(c: Column): real {
    match c
    case Gdp => GdpWeight
    case SocialSupport => SocialSupportWeight
    case HealthyLifeExpectancy => HealthWeight
    case Freedom => FreedomWeight
    case Corruption => CorruptionWeight
    case Generosity => GenerosityWeight
    case _ => 0.0
  }

  /** The value a row holds in a factor column. */
  function FactorValue(r: Row, c: Column): real {
    match c
    case Gdp => r.gdp
    case SocialSupport => r.socialSupport
    case HealthyLifeExpectancy => r.healthyLifeExpectancy
    case Freedom => r.freedom
    case Corruption => r.corruption
    case Generosity => r.generosity
    case _ => 0.0
  }

  /** Sum of weight times value over the given columns. */
  function WeightedTotal(r: Row, cs: seq<Column>): real {
    if cs == [] then 0.0 else Weight(cs[0]) * FactorValue(r, cs[0]) + WeightedTotal(r, cs[1..])
  }

  /** The score expression: each factor column's value times its weight. */
  function WeightedSum(r: Row): (s: real)
    ensures s == WeightedTotal(r, FactorColumns)
  {
    FactorColumnsTotal(r);
    GdpWeight * r.gdp + SocialSupportWeight * r.socialSupport
    + HealthWeight * r.healthyLifeExpectancy + FreedomWeight * r.freedom
    + CorruptionWeight * r.corruption + GenerosityWeight * r.generosity
  }

  lemma FactorColumnsTotal(r: Row)
    ensures WeightedTotal(r, FactorColumns) ==
      GdpWeight * r.gdp + SocialSupportWeight * r.socialSupport
      + HealthWeight * r.healthyLifeExpectancy + FreedomWeight * r.freedom
      + CorruptionWeight * r.corruption + GenerosityWeight * r.generosity
  {
    var cs := FactorColumns;
    assert cs[1..][1..][1..][1..][1..][1..] == [];
    assert WeightedTotal(r, cs[5..]) == GenerosityWeight * r.generosity;
    assert WeightedTotal(r, cs[4..]) == CorruptionWeight * r.corruption + WeightedTotal(r, cs[5..]);
    assert WeightedTotal(r, cs[3..]) == FreedomWeight * r.freedom + WeightedTotal(r, cs[4..]);
    assert WeightedTotal(r, cs[2..]) == HealthWeight * r.healthyLifeExpectancy + WeightedTotal(r, cs[3..]);
    assert WeightedTotal(r, cs[1..]) == SocialSupportWeight * r.socialSupport + WeightedTotal(r, cs[2..]);
  }

  lemma WeightsSumToOne()
    ensures GdpWeight + SocialSupportWeight + HealthWeight + FreedomWeight
      + CorruptionWeight + GenerosityWeight == 1.0
  {
  }

  /** Since the weights are positive and sum to one, the score is a weighted
      average of the factors: it lies between the smallest and the largest. */
  lemma ScoreWithinFactors(r: Row, lo: real, hi: real)
    requires lo <= r.gdp <= hi && lo <= r.socialSupport <= hi
    requires lo <= r.healthyLifeExpectancy <= hi && lo <= r.freedom <= hi
    requires lo <= r.corruption <= hi && lo <= r.generosity <= hi
    ensures lo <= WeightedSum(r) <= hi
  {
  }

  /** Raising any factor never lowers the score. */
  lemma ScoreMonotone(a: Row, b: Row)
    requires a.gdp <= b.gdp && a.socialSupport <= b.socialSupport
    requires a.healthyLifeExpectancy <= b.healthyLifeExpectancy && a.freedom <= b.freedom
    requires a.corruption <= b.corruption && a.generosity <= b.generosity
    ensures WeightedSum(a) <= WeightedSum(b)
  {
  }

  /** `factors[k]` is the first of `factors` that `columns` lacks. */
  predicate IsFirstMissing(columns: set<Column>, factors: seq<Column>, k: int) {
    0 <= k < |factors| && factors[k] !in columns && forall i :: 0 <= i < k ==> factors[i] in columns
  }

  /** The first factor column, in reading order, that the table lacks. */
  function MissingFactor(columns: set<Column>, factors: seq<Column>): (m: Option<Column>)
    ensures m.None? <==> forall i :: 0 <= i < |factors| ==> factors[i] in columns
    ensures m.Some? ==> exists k :: IsFirstMissing(columns, factors, k) && factors[k] == m.value
  {
    if factors == [] then None
    else if factors[0] !in columns then Some(factors[0])
    else
      var m := MissingFactor(columns, factors[1..]);
      if m.Some? then
        var k :| IsFirstMissing(columns, factors[1..], k) && factors[1..][k] == m.value;
        assert IsFirstMissing(columns, factors, k + 1);
        m
      else m
  }

  /** The row with its score column set from its own factors. */
  function Rescore(r: Row): Row {
    r.(score := Some(WeightedSum(r)))
  }

  /** All fields but the derived score agree. */
  predicate SameRecord(a: Row, b: Row) {
    a.country == b.country && a.year == b.year && a.gdp == b.gdp
    && a.socialSupport == b.socialSupport && a.healthyLifeExpectancy == b.healthyLifeExpectancy
    && a.freedom == b.freedom && a.corruption == b.corruption && a.generosity == b.generosity
  }

  /** The table after `compute_weighted_score`: the first missing factor
      column is an error; otherwise every row gets its weighted score, the
      score column is added, and nothing else changes. */
  function Scored(t: Table): (r: Result<Table, Error>)
    ensures r.Failure? <==> exists i :: 0 <= i < |FactorColumns| && FactorColumns[i] !in t.columns
    ensures r.Failure? ==>
      exists k :: IsFirstMissing(t.columns, FactorColumns, k) && r.error == MissingColumn(FactorColumns[k])
    ensures r.Success? ==> r.value.columns == t.columns + {WeightedScore}
    ensures r.Success? ==> |r.value.rows| == |t.rows|
    ensures r.Success? ==> forall i :: 0 <= i < |t.rows| ==>
      SameRecord(r.value.rows[i], t.rows[i]) && r.value.rows[i].score == Some(WeightedSum(t.rows[i]))
  {
    match MissingFactor(t.columns, FactorColumns)
    case Some(c) => Failure(MissingColumn(c))
    case None =>
      var rows := seq(|t.rows|, i requires 0 <= i < |t.rows| => Rescore(t.rows[i]));
      Success(Frame(t.columns + {WeightedScore}, rows))
  }

  /** Scoring twice gives the same table as scoring once. */
  lemma ScoredIdempotent(t: Table)
    requires Scored(t).Success?
    ensures Scored(Scored(t).value) == Scored(t)
  {
    var s := Scored(t).value;
    var s2 := Scored(s).value;
    assert s2.rows == s.rows;
  }

  /** The table with its derived score column dropped. */
  function Unscored(t: Table): (u: Table)
    ensures WeightedScore !in u.columns && |u.rows| == |t.rows|
    ensures forall i :: 0 <= i < |t.rows| ==> SameRecord(u.rows[i], t.rows[i])
  {
    Frame(t.columns - {WeightedScore},
      seq(|t.rows|, i requires 0 <= i < |t.rows| => t.rows[i].(score := None)))
  }

  /** Scoring overwrites any stale score: its result depends only on the
      factor columns. */
  lemma ScoredIgnoresStaleScores(t: Table)
    ensures Scored(t) == Scored(Unscored(t))
  {
    var u := Unscored(t);
    assert forall i :: 0 <= i < |FactorColumns| ==> (FactorColumns[i] in t.columns <==> FactorColumns[i] in u.columns);
    if Scored(t).Success? {
      assert t.columns + {WeightedScore} == u.columns + {WeightedScore};
      assert Scored(t).value.rows == Scored(u).value.rows;
    } else {
      assert MissingFactor(t.columns, FactorColumns) == MissingFactor(u.columns, FactorColumns);
    }
  }

  // ----- Queries -----

  /** `get_top_countries(n)`: score, group by country, take the n largest
      means. */
  function TopCountries(t: Table, n: int): (r: Result<seq<Entry>, Error>)
    ensures Scored(t).Failure? ==> r == Failure(Scored(t).error)
    ensures Scored(t).Success? && Country !in t.columns ==> r == Failure(MissingColumn(Country))
    ensures r.Success? <==> Scored(t).Success? && Country in t.columns
    ensures r.Success? ==> AllScored(Scored(t).value.rows) && r.value == Top(Scored(t).value.rows, n)
  {
    match Scored(t)
    case Failure(e) => Failure(e)
    case Success(s) =>
      if Country !in s.columns then Failure(MissingColumn(Country))
      else Success(Top(s.rows, n))
  }

  /** The answer to a top-n query never depends on scores already stored in
      the table. */
  lemma TopCountriesIgnoresStaleScores(t: Table, n: int)
    ensures TopCountries(t, n) == TopCountries(Unscored(t), n)
  {
    ScoredIgnoresStaleScores(t);
  }

  /** A rank query's answer: 1-based rank, number of countries, mean. */
  datatype Rank = Rank(rank: int, total: int, score: real)

  /** `get_country_rank(c)` over the scores already in the table. */
  function CountryRank(t: Table, c: string): (r: Result<Rank, Error>)
    ensures Country !in t.columns ==> r == Failure(MissingColumn(Country))
    ensures Country in t.columns && WeightedScore !in t.columns ==> r == Failure(MissingColumn(WeightedScore))
    ensures Country in t.columns && WeightedScore in t.columns && Count(t.rows, c) == 0 ==>
      r == Failure(CountryNotFound(c))
    ensures r.Success? <==> Country in t.columns && WeightedScore in t.columns && Count(t.rows, c) > 0
    ensures r.Success? ==> AllScored(t.rows)
    ensures r.Success? ==> 1 <= r.value.rank <= r.value.total == |CountrySet(t.rows)|
    ensures r.Success? ==> r.value.score == Mean(t.rows, c) && Ranked(t.rows)[r.value.rank - 1].country == c
    ensures r.Success? ==> |Above(t.rows, r.value.score)| < r.value.rank <= |AtLeast(t.rows, r.value.score)|
    ensures r.Success? ==> forall i :: 0 <= i < r.value.rank - 1 ==> Ranked(t.rows)[i].score >= r.value.score
    ensures r.Success? ==> forall i :: r.value.rank <= i < r.value.total ==> Ranked(t.rows)[i].score <= r.value.score
  {
    if Country !in t.columns then Failure(MissingColumn(Country))
    else if WeightedScore !in t.columns then Failure(MissingColumn(WeightedScore))
    else
      var e := Ranked(t.rows);
      match IndexOf(e, c)
      case None => Failure(CountryNotFound(c))
      case Some(k) =>
        RankBetween(t.rows, c, k);
        SortedAroundK(e, k);
        Success(Rank(k + 1, |e|, e[k].score))
  }

  /** A new handler's empty table has no factor columns, so it cannot be
      scored, and no country column, so it cannot be ranked. */
  lemma EmptyTableQueries(n: int, c: string)
    ensures Scored(EmptyTable) == Failure(MissingColumn(Gdp))
    ensures TopCountries(EmptyTable, n) == Failure(MissingColumn(Gdp))
    ensures CountryRank(EmptyTable, c) == Failure(MissingColumn(Country))
  {
    assert IsFirstMissing(EmptyTable.columns, FactorColumns, 0);
  }

  function ScoredRow(country: string, score: real): Row {
    Row(country, 2015, 0.0, 0.0, 0.0, 0.0, 0.0, 0.0, Some(score))
  }

  /** Three countries scoring 0.9, 0.5 and 0.7: the top two are the first
      and the third, in that order. */
  lemma TopTwoOfThree(rows: seq<Row>)
    requires rows == [ScoredRow("A", 0.9), ScoredRow("B", 0.5), ScoredRow("C", 0.7)]
    ensures AllScored(rows) && Top(rows, 2) == [Entry("A", 0.9), Entry("C", 0.7)]
  {
    ThreeCountries(rows);
    var top := Top(rows, 2);
    assert |top| == 2;
    var n0, n1 := top[0].country, top[1].country;
    assert n0 in Countries(rows) && n1 in Countries(rows) && n0 != n1;
    var missing :| missing in ["A", "B", "C"] && missing != n0 && missing != n1;
    assert Names(top)[0] == n0 && Names(top)[1] == n1;
    assert Count(rows, missing) > 0 && missing !in Names(top);
    assert Mean(rows, missing) <= top[1].score;
    assert n0 == "A" && n1 == "C";
    assert top == [top[0], top[1]];
  }

  lemma ThreeCountries(rows: seq<Row>)
    requires rows == [ScoredRow("A", 0.9), ScoredRow("B", 0.5), ScoredRow("C", 0.7)]
    ensures AllScored(rows) && Countries(rows) == ["A", "B", "C"]
    ensures Mean(rows, "A") == 0.9 && Mean(rows, "B") == 0.5 && Mean(rows, "C") == 0.7
    ensures |CountrySet(rows)| == 3
  {
    var r1, r2 := rows[1..], rows[2..];
    assert r1 == [ScoredRow("B", 0.5), ScoredRow("C", 0.7)] && r2 == [ScoredRow("C", 0.7)];
    assert r2[1..] == [];
    assert rows[0].country == "A" && r1[0].country == "B" && r2[0].country == "C";
    assert rows[0].score == Some(0.9) && r1[0].score == Some(0.5) && r2[0].score == Some(0.7);
    assert Countries(r2) == ["C"];
    assert Countries(r1) == ["B", "C"];
    assert Countries(rows) == ["A", "B", "C"];
    assert Count(r2, "A") == 0 && Count(r2, "B") == 0 && Count(r2, "C") == 1;
    assert Count(r1, "A") == 0 && Count(r1, "B") == 1 && Count(r1, "C") == 1;
    assert Count(rows, "A") == 1 && Count(rows, "B") == 1 && Count(rows, "C") == 1;
    assert Sum(r2[1..], "A") == 0.0 && Sum(r2[1..], "B") == 0.0 && Sum(r2[1..], "C") == 0.0;
    assert Sum(r2, "C") == 0.7 + Sum(r2[1..], "C");
    assert Sum(r2, "A") == 0.0 && Sum(r2, "B") == 0.0 && Sum(r2, "C") == 0.7;
    assert Sum(r1, "A") == 0.0 && Sum(r1, "B") == 0.5 && Sum(r1, "C") == 0.7;
    assert Sum(rows, "A") == 0.9 && Sum(rows, "B") == 0.5 && Sum(rows, "C") == 0.7;
    CountriesCard(rows);
  }

  // ----- The handler object -----

  class HappinessHandler {
    var dataDir: string
    var data: Table

    constructor (dataDir: string := "../data")
      ensures this.dataDir == dataDir && data == EmptyTable
    {
      this.dataDir := dataDir;
      data := EmptyTable;
    }

    /** `load_data(year)`: an unsupported year or a missing file is an
        error and leaves the table alone; otherwise the parsed file replaces
        the table and is returned. */
    method LoadData(year: int, fs: FileSystem) returns (r: Result<Table, Error>)
      modifies this`data
      ensures !(2015 <= year <= 2019) ==> r == Failure(UnsupportedYear(year)) && data == old(data)
      ensures 2015 <= year <= 2019 ==>
        var path := Join(dataDir, DecimalText(year) + ".csv");
        if path in fs.files then r == Success(fs.files[path]) && data == fs.files[path]
        else r == Failure(SourceNotFound(path)) && data == old(data)
    {
      var file := FileFor(year);
      if file.Failure? {
        return Failure(file.error);
      }
      var path := Join(dataDir, file.value);
      if path !in fs.files {
        return Failure(SourceNotFound(path));
      }
      data := fs.files[path];
      r := Success(data);
    }

    /** `compute_weighted_score()`. */
    method ComputeWeightedScore() returns (r: Outcome<Error>)
      modifies this`data
      ensures Scored(old(data)).Failure? ==> r == Fail(Scored(old(data)).error) && data == old(data)
      ensures Scored(old(data)).Success? ==> r == Pass && data == Scored(old(data)).value
    {
      match Scored(data)
      case Failure(e) => r := Fail(e);
      case Success(s) => data := s; r := Pass;
    }

    /** `get_top_countries(n)`: the table is rescored first, and stays
        rescored even when the country column then turns out missing. */
    method GetTopCountries(n: int := 10) returns (r: Result<seq<Entry>, Error>)
      modifies this`data
      ensures r == TopCountries(old(data), n)
      ensures data == if Scored(old(data)).Success? then Scored(old(data)).value else old(data)
    {
      var scored := ComputeWeightedScore();
      if scored.Fail? {
        return Failure(scored.error);
      }
      if Country !in data.columns {
        return Failure(MissingColumn(Country));
      }
      r := Success(Top(data.rows, n));
    }

    /** `get_country_rank(country)`: reads the table without rescoring. */
    method GetCountryRank(country: string) returns (r: Result<Rank, Error>)
      ensures r == CountryRank(data, country)
      ensures r.Success? ==> 1 <= r.value.rank <= r.value.total == |CountrySet(data.rows)|
    {
      r := CountryRank(data, country);
    }
  }
}
