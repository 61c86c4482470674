/** Grouping rows by country, averaging the weighted score per country and
    ordering the averages: the `groupby("Country")["Weighted_Score"].mean()`
    step followed by a descending sort on the mean. Among equal means the
    country whose name comes first in code-point order is placed first. */
module Grouping {
  import opened Tables

  /** One line of a grouped table: a country and its mean score. */
  datatype Entry = Entry(country: string, score: real)

  predicate AllScored(rows: seq<Row>) {
    forall i :: 0 <= i < |rows| ==> rows[i].score.Some?
  }

  predicate Distinct<T(==)>(s: seq<T>) {
    forall i, j :: 0 <= i < j < |s| ==> s[i] != s[j]
  }

  /** Number of rows recorded for country `c`. */
  function Count(rows: seq<Row>, c: string): (k: nat)
    ensures k <= |rows|
  {
    if rows == [] then 0
    else (if rows[0].country == c then 1 else 0) + Count(rows[1..], c)
  }

  /** Sum of the scores recorded for country `c`. */
  function Sum(rows: seq<Row>, c: string): real
    requires AllScored(rows)
  {
    if rows == [] then 0.0
    else (if rows[0].country == c then rows[0].score.value else 0.0) + Sum(rows[1..], c)
  }

  /** Arithmetic mean of the scores recorded for country `c`. */
  function Mean(rows: seq<Row>, c: string): (m: real)
    requires AllScored(rows) && Count(rows, c) > 0
    ensures m * (Count(rows, c) as real) == Sum(rows, c)
  {
    Sum(rows, c) / (Count(rows, c) as real)
  }

  /** Every score recorded for `c` lies between `lo` and `hi`. */
  predicate ScoresWithin(rows: seq<Row>, c: string, lo: real, hi: real)
    requires AllScored(rows)
  {
    forall i :: 0 <= i < |rows| && rows[i].country == c ==> lo <= rows[i].score.value <= hi
  }

  lemma ScoresWithinTail(rows: seq<Row>, c: string, lo: real, hi: real)
    requires AllScored(rows) && rows != [] && ScoresWithin(rows, c, lo, hi)
    ensures AllScored(rows[1..]) && ScoresWithin(rows[1..], c, lo, hi)
    ensures rows[0].country == c ==> lo <= rows[0].score.value <= hi
  {
    forall i | 0 <= i < |rows[1..]| ensures rows[1..][i] == rows[i + 1] {}
  }

  /** A country's score sum lies between its row count times any lower
      and any upper bound on its scores. */
  lemma SumBounds(rows: seq<Row>, c: string, lo: real, hi: real)
    requires AllScored(rows) && ScoresWithin(rows, c, lo, hi)
    ensures (Count(rows, c) as real) * lo <= Sum(rows, c) <= (Count(rows, c) as real) * hi
  {
    SumBetweenRepeats(rows, c, lo, hi);
    RepeatIsProduct(rows, c, lo);
    RepeatIsProduct(rows, c, hi);
  }

  /** `x` added once for every row of `c`. */
  function Repeat(rows: seq<Row>, c: string, x: real): real {
    if rows == [] then 0.0
    else (if rows[0].country == c then x else 0.0) + Repeat(rows[1..], c, x)
  }

  lemma {:induction false} SumBetweenRepeats(rows: seq<Row>, c: string, lo: real, hi: real)
    requires AllScored(rows) && ScoresWithin(rows, c, lo, hi)
    ensures Repeat(rows, c, lo) <= Sum(rows, c) <= Repeat(rows, c, hi)
  {
    if rows != [] {
      ScoresWithinTail(rows, c, lo, hi);
      SumBetweenRepeats(rows[1..], c, lo, hi);
    }
  }

  lemma {:induction false} RepeatIsProduct(rows: seq<Row>, c: string, x: real)
    ensures Repeat(rows, c, x) == (Count(rows, c) as real) * x
  {
    if rows != [] {
      RepeatIsProduct(rows[1..], c, x);
      var n := Count(rows[1..], c) as real;
      if rows[0].country == c {
        assert Count(rows, c) as real == 1.0 + n;
        assert (1.0 + n) * x == x + n * x;
      }
    }
  }

  /** The mean of a country's scores lies between the smallest and the
      largest of them. */
  lemma MeanBounds(rows: seq<Row>, c: string, lo: real, hi: real)
    requires AllScored(rows) && Count(rows, c) > 0
    requires forall i :: 0 <= i < |rows| && rows[i].country == c ==> lo <= rows[i].score.value <= hi
    ensures lo <= Mean(rows, c) <= hi
  {
    SumBounds(rows, c, lo, hi);
    QuotientBounds(Sum(rows, c), Count(rows, c) as real, lo, hi);
  }

  /** A sum between n·lo and n·hi, divided by n, lies between lo and hi. */
  lemma QuotientBounds(s: real, n: real, lo: real, hi: real)
    requires n > 0.0 && n * lo <= s <= n * hi
    ensures lo <= s / n <= hi
  {
    assert s / n - lo == (s - n * lo) / n;
    assert hi - s / n == (n * hi - s) / n;
  }

  /** The distinct countries of the table, each once, in the order of
      their last occurrence. */
  function Countries(rows: seq<Row>): (cs: seq<string>)
    ensures Distinct(cs)
    ensures forall c :: c in cs <==> Count(rows, c) > 0
  {
    if rows == [] then []
    else
      var rest := Countries(rows[1..]);
      if rows[0].country in rest then rest else [rows[0].country] + rest
  }

  /** The set of country names that occur in the table. */
  function CountrySet(rows: seq<Row>): set<string> {
    set i | 0 <= i < |rows| :: rows[i].country
  }

  lemma {:induction false} DistinctCard<T>(s: seq<T>)
    requires Distinct(s)
    ensures |set x | x in s| == |s|
  {
    if s != [] {
      DistinctCard(s[1..]);
      assert (set x | x in s) == {s[0]} + (set x | x in s[1..]);
      assert s[0] !in (set x | x in s[1..]);
    }
  }

  /** The grouped table has one line per distinct country name. */
  lemma {:induction false} CountriesCard(rows: seq<Row>)
    ensures |Countries(rows)| == |CountrySet(rows)|
  {
    var cs := Countries(rows);
    forall c ensures c in cs <==> c in CountrySet(rows) {
      CountPositive(rows, c);
    }
    assert (set x | x in cs) == CountrySet(rows);
    DistinctCard(cs);
  }

  lemma {:induction false} CountPositive(rows: seq<Row>, c: string)
    ensures Count(rows, c) > 0 <==> exists i :: 0 <= i < |rows| && rows[i].country == c
  {
    if rows != [] {
      CountPositive(rows[1..], c);
      if Count(rows[1..], c) > 0 {
        var i :| 0 <= i < |rows[1..]| && rows[1..][i].country == c;
        assert rows[i + 1].country == c;
      }
      if exists i :: 0 <= i < |rows| && rows[i].country == c {
        var i :| 0 <= i < |rows| && rows[i].country == c;
        if i > 0 { assert rows[1..][i - 1].country == c; }
      }
    }
  }

  /** The grouped table, one entry per country, before sorting. */
  function Averages(rows: seq<Row>): (avg: seq<Entry>)
    requires AllScored(rows)
    ensures |avg| == |Countries(rows)| && DistinctNames(avg)
    ensures forall i :: 0 <= i < |avg| ==>
      avg[i].country == Countries(rows)[i] && avg[i].score == Mean(rows, avg[i].country)
  {
    var cs := Countries(rows);
    seq(|cs|, i requires 0 <= i < |cs| => Entry(cs[i], Mean(rows, cs[i])))
  }

  // ----- Ordering of country names and of grouped entries -----

  /** Python's `<` on strings: code-point lexicographic order. */
  predicate NameLess(a: string, b: string)
    decreases |a|
  {
    if |a| == 0 then |b| > 0
    else if |b| == 0 then false
    else a[0] < b[0] || (a[0] == b[0] && NameLess(a[1..], b[1..]))
  }

  lemma {:induction false} NameLessIrreflexive(a: string)
    ensures !NameLess(a, a)
    decreases |a|
  {
    if |a| > 0 { NameLessIrreflexive(a[1..]); }
  }

  lemma {:induction false} NameLessTransitive(a: string, b: string, c: string)
    requires NameLess(a, b) && NameLess(b, c)
    ensures NameLess(a, c)
    decreases |a|
  {
    if |a| > 0 && a[0] == b[0] && b[0] == c[0] {
      NameLessTransitive(a[1..], b[1..], c[1..]);
    }
  }

  lemma {:induction false} NameLessTotal(a: string, b: string)
    requires a != b
    ensures NameLess(a, b) || NameLess(b, a)
    decreases |a|
  {
    if |a| > 0 && |b| > 0 && a[0] == b[0] {
      assert a == [a[0]] + a[1..] && b == [b[0]] + b[1..];
      NameLessTotal(a[1..], b[1..]);
    }
  }

  /** `a` is listed before `b`: higher mean first, then smaller name. */
  predicate Before(a: Entry, b: Entry) {
    a.score > b.score || (a.score == b.score && NameLess(a.country, b.country))
  }

  lemma BeforeTransitive(a: Entry, b: Entry, c: Entry)
    requires Before(a, b) && Before(b, c)
    ensures Before(a, c)
  {
    if a.score == b.score == c.score {
      NameLessTransitive(a.country, b.country, c.country);
    }
  }

  predicate SortedDesc(s: seq<Entry>) {
    forall i, j :: 0 <= i < j < |s| ==> Before(s[i], s[j])
  }

  predicate DistinctNames(s: seq<Entry>) {
    forall i, j :: 0 <= i < j < |s| ==> s[i].country != s[j].country
  }

  /** The country column of a grouped table. */
  function Names(s: seq<Entry>): (ns: seq<string>)
    ensures |ns| == |s| && forall i :: 0 <= i < |s| ==> ns[i] == s[i].country
  {
    seq(|s|, i requires 0 <= i < |s| => s[i].country)
  }

  lemma PrependSorted(x: Entry, s: seq<Entry>)
    requires SortedDesc(s)
    requires forall y :: y in s ==> Before(x, y)
    ensures SortedDesc([x] + s)
  {
    forall i, j | 0 <= i < j < |[x] + s| ensures Before(([x] + s)[i], ([x] + s)[j]) {
      if i == 0 { assert ([x] + s)[j] == s[j - 1]; }
    }
  }

  /** Inserting an entry into a sorted grouped table keeps it sorted and
      adds exactly that entry. */
  function Insert(e: Entry, s: seq<Entry>): (r: seq<Entry>)
    requires SortedDesc(s)
    requires forall y :: y in s ==> y.country != e.country
    ensures multiset(r) == multiset(s) + multiset{e}
    ensures SortedDesc(r)
  {
    if s == [] then [e]
    else if Before(e, s[0]) then
      InsertFront(e, s);
      [e] + s
    else
      var t := Insert(e, s[1..]);
      InsertBehind(e, s, t);
      [s[0]] + t
  }

  lemma InsertFront(e: Entry, s: seq<Entry>)
    requires SortedDesc(s) && s != [] && Before(e, s[0])
    ensures SortedDesc([e] + s)
  {
    forall y | y in s ensures Before(e, y) {
      var k :| 0 <= k < |s| && s[k] == y;
      if k > 0 { BeforeTransitive(e, s[0], y); }
    }
    PrependSorted(e, s);
  }

  lemma InsertBehind(e: Entry, s: seq<Entry>, t: seq<Entry>)
    requires SortedDesc(s) && s != [] && !Before(e, s[0]) && e.country != s[0].country
    requires SortedDesc(t) && multiset(t) == multiset(s[1..]) + multiset{e}
    ensures SortedDesc([s[0]] + t)
    ensures multiset([s[0]] + t) == multiset(s) + multiset{e}
  {
    NameLessTotal(e.country, s[0].country);
    forall y | y in t ensures Before(s[0], y) {
      assert y in multiset(s[1..]) + multiset{e};
      if y != e {
        var k :| 0 <= k < |s[1..]| && s[1..][k] == y;
        assert s[k + 1] == y;
      }
    }
    PrependSorted(s[0], t);
    assert s == [s[0]] + s[1..];
  }

  /** Insertion sort of a grouped table into listing order. */
  function Sort(s: seq<Entry>): (r: seq<Entry>)
    requires DistinctNames(s)
    ensures multiset(r) == multiset(s)
    ensures SortedDesc(r)
  {
    if s == [] then []
    else
      var t := Sort(s[1..]);
      SortStep(s, t);
      Insert(s[0], t)
  }

  lemma SortStep(s: seq<Entry>, t: seq<Entry>)
    requires DistinctNames(s) && s != [] && multiset(t) == multiset(s[1..])
    ensures forall y :: y in t ==> y.country != s[0].country
    ensures multiset(s) == multiset(t) + multiset{s[0]}
  {
    forall y | y in t ensures y.country != s[0].country {
      assert y in multiset(s[1..]);
      var k :| 0 <= k < |s[1..]| && s[1..][k] == y;
      assert s[k + 1] == y;
    }
    assert s == [s[0]] + s[1..];
  }

  /** Two entries for the same country in a sorted table that gives each
      country one mean would be listed before each other. */
  lemma SortedFunctionalDistinct(s: seq<Entry>)
    requires SortedDesc(s)
    requires forall i, j :: 0 <= i < |s| && 0 <= j < |s| && s[i].country == s[j].country ==> s[i].score == s[j].score
    ensures DistinctNames(s)
  {
    forall i, j | 0 <= i < j < |s| ensures s[i].country != s[j].country {
      NameLessIrreflexive(s[i].country);
    }
  }

  /** The grouped table in listing order: every country of the table once,
      with its mean, highest mean first. */
  function Ranked(rows: seq<Row>): (r: seq<Entry>)
    requires AllScored(rows)
    ensures |r| == |Countries(rows)| == |CountrySet(rows)|
    ensures forall i :: 0 <= i < |r| ==>
      Count(rows, r[i].country) > 0 && r[i].score == Mean(rows, r[i].country)
    ensures forall c :: Count(rows, c) > 0 ==> Entry(c, Mean(rows, c)) in r
    ensures DistinctNames(r)
    ensures SortedDesc(r)
  {
    var r := Sort(Averages(rows));
    PermutedAverages(rows, r);
    SortedFunctionalDistinct(r);
    CountriesCard(rows);
    r
  }

  /** A reordering of the grouped table still holds each country once with
      its mean. */
  lemma PermutedAverages(rows: seq<Row>, r: seq<Entry>)
    requires AllScored(rows) && multiset(r) == multiset(Averages(rows))
    ensures |r| == |Countries(rows)|
    ensures forall i :: 0 <= i < |r| ==>
      Count(rows, r[i].country) > 0 && r[i].score == Mean(rows, r[i].country)
    ensures forall c :: Count(rows, c) > 0 ==> Entry(c, Mean(rows, c)) in r
  {
    var avg := Averages(rows);
    var cs := Countries(rows);
    assert |r| == |multiset(r)| == |multiset(avg)| == |avg|;
    forall i | 0 <= i < |r|
      ensures Count(rows, r[i].country) > 0 && r[i].score == Mean(rows, r[i].country)
    {
      assert r[i] in multiset(r);
      var k :| 0 <= k < |avg| && avg[k] == r[i];
    }
    forall c | Count(rows, c) > 0 ensures Entry(c, Mean(rows, c)) in r {
      var k :| 0 <= k < |cs| && cs[k] == c;
      assert avg[k] == Entry(c, Mean(rows, c));
      assert avg[k] in multiset(avg);
    }
  }

  /** Index of the first entry for `c`, if there is one. */
  function IndexOf(s: seq<Entry>, c: string): (k: Option<nat>)
    ensures k.None? <==> forall i :: 0 <= i < |s| ==> s[i].country != c
    ensures k.Some? ==> k.value < |s| && s[k.value].country == c
    ensures k.Some? ==> forall i :: 0 <= i < k.value ==> s[i].country != c
  {
    if s == [] then None
    else if s[0].country == c then Some(0)
    else match IndexOf(s[1..], c)
      case None => None
      case Some(k) => Some(k + 1)
  }

  function Min(a: int, b: int): int {
    if a <= b then a else b
  }

  /** The `n` largest means (`nlargest(n, "Weighted_Score")`); a
      non-positive `n` selects nothing. */
  function Top(rows: seq<Row>, n: int): (top: seq<Entry>)
    requires AllScored(rows)
    ensures |top| == if n <= 0 then 0 else Min(n, |CountrySet(rows)|)
    ensures DistinctNames(top)
    ensures forall i :: 0 <= i < |top| ==>
      Count(rows, top[i].country) > 0 && top[i].score == Mean(rows, top[i].country)
    ensures forall i, j :: 0 <= i < j < |top| ==> top[i].score >= top[j].score
    ensures forall c :: Count(rows, c) > 0 && c !in Names(top) ==>
      forall i :: 0 <= i < |top| ==> Mean(rows, c) <= top[i].score
  {
    var e := Ranked(rows);
    var k := if n <= 0 then 0 else Min(n, |e|);
    TopOfRanked(rows, e, k);
    e[..k]
  }

  lemma TopOfRanked(rows: seq<Row>, e: seq<Entry>, k: nat)
    requires AllScored(rows) && e == Ranked(rows) && k <= |e|
    ensures DistinctNames(e[..k])
    ensures forall i :: 0 <= i < k ==>
      Count(rows, e[i].country) > 0 && e[i].score == Mean(rows, e[i].country)
    ensures forall i, j :: 0 <= i < j < k ==> e[i].score >= e[j].score
    ensures forall c :: Count(rows, c) > 0 && c !in Names(e[..k]) ==>
      forall i :: 0 <= i < k ==> Mean(rows, c) <= e[i].score
  {
    forall i, j | 0 <= i < j < k ensures e[i].score >= e[j].score {
      assert Before(e[i], e[j]);
    }
    forall c | Count(rows, c) > 0 && c !in Names(e[..k]) {
      PrefixDominates(e, k, Entry(c, Mean(rows, c)));
    }
  }

  /** An entry left out of a prefix of a sorted table scores no higher than
      any entry of the prefix. */
  lemma PrefixDominates(e: seq<Entry>, k: nat, x: Entry)
    requires SortedDesc(e) && k <= |e| && x in e && x.country !in Names(e[..k])
    ensures forall i :: 0 <= i < k ==> x.score <= e[i].score
  {
    var j :| 0 <= j < |e| && e[j] == x;
    assert forall m :: 0 <= m < k ==> Names(e[..k])[m] == e[m].country;
    forall i | 0 <= i < k ensures x.score <= e[i].score {
      assert Before(e[i], e[j]);
    }
  }

  /** The countries whose mean is above `x`, and those whose mean is at
      least `x`. */
  function Above(rows: seq<Row>, x: real): set<string>
    requires AllScored(rows)
  {
    set c | c in Countries(rows) && Mean(rows, c) > x
  }

  function AtLeast(rows: seq<Row>, x: real): set<string>
    requires AllScored(rows)
  {
    set c | c in Countries(rows) && Mean(rows, c) >= x
  }

  lemma SubsetCard<T>(a: set<T>, b: set<T>)
    requires a <= b
    ensures |a| <= |b|
  {
    assert b == a + (b - a);
  }

  /** In a sorted table, the entries before position k score at least as
      high as entry k and those after it at most as high. */
  lemma SortedAroundK(e: seq<Entry>, k: nat)
    requires SortedDesc(e) && k < |e|
    ensures forall j :: 0 <= j < k ==> e[j].score >= e[k].score
    ensures forall j :: k < j < |e| ==> e[j].score <= e[k].score
  {
    forall j | 0 <= j < k ensures e[j].score >= e[k].score {
      assert Before(e[j], e[k]);
    }
    forall j | k < j < |e| ensures e[j].score <= e[k].score {
      assert Before(e[k], e[j]);
    }
  }

  /** Scores never increase along `e`; entries with equal scores may come in
      any order. */
  predicate ScoreOrdered(e: seq<Entry>) {
    forall i, j :: 0 <= i < j < |e| ==> e[i].score >= e[j].score
  }

  /** `e` lists every country of the table exactly once, each with its mean. */
  ghost predicate GroupedListing(rows: seq<Row>, e: seq<Entry>)
    requires AllScored(rows)
  {
    MeansOf(rows, e) && DistinctNames(e) && forall c :: Count(rows, c) > 0 ==> Entry(c, Mean(rows, c)) in e
  }

  /** The 1-based position `k + 1` of country `c` in listing order lies
      strictly after every country with a higher mean and no later than the
      number of countries whose mean is at least c's. */
  lemma RankBetween(rows: seq<Row>, c: string, k: nat)
    requires AllScored(rows)
    requires k < |Ranked(rows)| && Ranked(rows)[k].country == c
    ensures |Above(rows, Mean(rows, c))| < k + 1 <= |AtLeast(rows, Mean(rows, c))|
  {
    var e := Ranked(rows);
    forall i, j | 0 <= i < j < |e| ensures e[i].score >= e[j].score {
      assert Before(e[i], e[j]);
    }
    RankBounds(rows, e, k);
  }

  /** The bounds hold for every listing of the grouped table whose means do
      not increase, however it orders equal means: an unstable sort gives
      the same bounds. */
  lemma RankBounds(rows: seq<Row>, e: seq<Entry>, k: nat)
    requires AllScored(rows) && k < |e|
    requires GroupedListing(rows, e) && ScoreOrdered(e)
    ensures |Above(rows, e[k].score)| <= k < |AtLeast(rows, e[k].score)|
  {
    AboveInPrefix(rows, e, k);
    SubsetCard(Above(rows, e[k].score), PrefixNames(e, k));
    PrefixNamesCard(e, k);
    PrefixInAtLeast(rows, e, k);
    SubsetCard(PrefixNames(e, k + 1), AtLeast(rows, e[k].score));
    PrefixNamesCard(e, k + 1);
  }

  /** The countries of the first `m` entries. */
  function PrefixNames(e: seq<Entry>, m: nat): set<string>
    requires m <= |e|
  {
    if m == 0 then {} else PrefixNames(e, m - 1) + {e[m - 1].country}
  }

  lemma {:induction false} PrefixNamesMembers(e: seq<Entry>, m: nat)
    requires m <= |e|
    ensures forall d :: d in PrefixNames(e, m) <==> exists j :: 0 <= j < m && e[j].country == d
  {
    if m > 0 {
      PrefixNamesMembers(e, m - 1);
    }
  }

  lemma {:induction false} PrefixNamesCard(e: seq<Entry>, m: nat)
    requires m <= |e| && DistinctNames(e)
    ensures |PrefixNames(e, m)| == m
  {
    if m > 0 {
      PrefixNamesCard(e, m - 1);
      PrefixNamesMembers(e, m - 1);
      AddOneCard(PrefixNames(e, m - 1), e[m - 1].country);
    }
  }

  lemma AddOneCard<T>(p: set<T>, x: T)
    requires x !in p
    ensures |p + {x}| == |p| + 1
  {
  }

  /** Each entry of `e` is a country of the table with its mean. */
  predicate MeansOf(rows: seq<Row>, e: seq<Entry>)
    requires AllScored(rows)
  {
    forall i :: 0 <= i < |e| ==> Count(rows, e[i].country) > 0 && e[i].score == Mean(rows, e[i].country)
  }

  /** Every country with a higher mean than entry k is listed before it. */
  lemma {:induction false} AboveInPrefix(rows: seq<Row>, e: seq<Entry>, k: nat)
    requires AllScored(rows) && k < |e|
    requires forall c :: Count(rows, c) > 0 ==> Entry(c, Mean(rows, c)) in e
    requires ScoreOrdered(e)
    ensures Above(rows, e[k].score) <= PrefixNames(e, k)
  {
    PrefixNamesMembers(e, k);
    forall d | d in Above(rows, e[k].score) ensures d in PrefixNames(e, k) {
      var j :| 0 <= j < |e| && e[j] == Entry(d, Mean(rows, d));
    }
  }

  /** Every country listed up to entry k has a mean at least as high. */
  lemma {:induction false} PrefixInAtLeast(rows: seq<Row>, e: seq<Entry>, k: nat)
    requires AllScored(rows) && k < |e| && MeansOf(rows, e) && ScoreOrdered(e)
    ensures PrefixNames(e, k + 1) <= AtLeast(rows, e[k].score)
  {
    PrefixNamesMembers(e, k + 1);
    forall d | d in PrefixNames(e, k + 1) ensures d in AtLeast(rows, e[k].score) {
      var j :| 0 <= j <= k && e[j].country == d;
      assert Count(rows, d) > 0 && Mean(rows, d) == e[j].score;
      if j < k { assert e[j].score >= e[k].score; }
    }
  }
}
