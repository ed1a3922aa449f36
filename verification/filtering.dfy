/** `filter_df`: conjunctive selection of enriched rows by an inclusive date
    range (given, or resolved from the "Last 20 rounds" window), by golfer and
    by course. */
module Filtering {
  import opened Wrappers
  import opened Dates
  import opened Records
  import opened Sequences
  import opened Ordering

  /** The one named date window the source recognises. */
  const LastTwentyRounds: string := "Last 20 rounds"

  /** How many distinct play dates the named window covers. */
  const WindowSize: nat := 20

  /** `date_range`: both ends included. */
  datatype DateRange = DateRange(first: Date, last: Date)

  /** The arguments of `filter_df` after `df`. `dates` is any string or
      missing; only `LastTwentyRounds` has an effect. A missing or empty
      golfer or course list selects everything. */
  datatype FilterParams = FilterParams(
    dates: Option<string>,
    dateRange: Option<DateRange>,
    golfers: Option<seq<string>>,
    courses: Option<seq<string>>)

  /** Resolving the named window on an empty table calls `min` on an empty
      sequence, which raises `ValueError`. */
  datatype FilterError = EmptyWindow

  // ------------------------------------------------------ the date window

  /** The `Date` column. */
  function DatesOf(holes: seq<Hole>): (ds: seq<Date>)
    ensures |ds| == |holes|
    ensures forall i :: 0 <= i < |holes| ==> ds[i] == holes[i].row.date
  {
    seq(|holes|, i requires 0 <= i < |holes| => holes[i].row.date)
  }

  /** `df["Date"].unique()`, sorted ascending. */
  function PlayDates(holes: seq<Hole>): (ds: seq<Date>)
    ensures StrictlySorted(ds, Before)
    ensures forall d :: d in ds <==> exists h :: h in holes && h.row.date == d
    ensures |ds| == 0 <==> |holes| == 0
  {
    BeforeIsStrictTotalOrder();
    var all := DatesOf(holes);
    assert forall h :: h in holes ==> h.row.date in all by {
      forall h | h in holes ensures h.row.date in all {
        var i :| 0 <= i < |holes| && holes[i] == h;
        assert all[i] == h.row.date;
      }
    }
    assert |holes| > 0 ==> all[0] in all;
    SortedDistinct(all, Before)
  }

  /** `dates_of_last_20`: the distinct dates, latest first, cut to the window. */
  function RecentDates(holes: seq<Hole>): (ds: seq<Date>)
    ensures |ds| <= WindowSize
  {
    Take(Reverse(PlayDates(holes)), WindowSize)
  }

  /** The `date_range` `filter_df` uses: the one resolved from the named
      window, which overrides any given range, or the given range. */
  function ResolveRange(holes: seq<Hole>, p: FilterParams): (r: Result<Option<DateRange>, FilterError>)
    ensures r.Failure? <==> p.dates == Some(LastTwentyRounds) && |holes| == 0
    ensures p.dates != Some(LastTwentyRounds) ==> r == Success(p.dateRange)
    ensures p.dates == Some(LastTwentyRounds) && r.Success? ==> r.value.Some?
  {
    if p.dates == Some(LastTwentyRounds) then
      var recent := RecentDates(holes);
      if |recent| == 0 then
        Failure(EmptyWindow)
      else
        BeforeIsStrictTotalOrder();
        Success(Some(DateRange(Minimum(recent, Before), Maximum(recent, Before))))
    else Success(p.dateRange)
  }

  // ---------------------------------------------------------- row filters

  predicate InRange(d: Date, range: DateRange) {
    OnOrBefore(range.first, d) && OnOrBefore(d, range.last)
  }

  /** A list filter is applied only when the list is present and non-empty. */
  predicate Active(selection: Option<seq<string>>) {
    selection.Some? && selection.value != []
  }

  function ByDate(range: DateRange): Hole -> bool {
    (h: Hole) => InRange(h.row.date, range)
  }

  function ByGolfer(golfers: seq<string>): Hole -> bool {
    (h: Hole) => h.row.golfer in golfers
  }

  function ByCourse(courses: seq<string>): Hole -> bool {
    (h: Hole) => h.row.course in courses
  }

  /** `filter_df(df, dates, date_range, golfers, courses)`: the date filter,
      then the golfer filter, then the course filter. */
  function FilterDf(holes: seq<Hole>, p: FilterParams): (r: Result<seq<Hole>, FilterError>)
    ensures r.Failure? <==> p.dates == Some(LastTwentyRounds) && |holes| == 0
    ensures r.Success? ==> |r.value| <= |holes|
  {
    var range :- ResolveRange(holes, p);
    var byDate := if range.Some? then Select(holes, ByDate(range.value)) else holes;
    var byGolfer := if Active(p.golfers) then Select(byDate, ByGolfer(p.golfers.value)) else byDate;
    var byCourse := if Active(p.courses) then Select(byGolfer, ByCourse(p.courses.value)) else byGolfer;
    Success(byCourse)
  }

  // ---------------------------------------------- the conjunctive reading

  /** Whether a row passes every active filter. */
  predicate Admits(range: Option<DateRange>, p: FilterParams, h: Hole) {
    && (range.None? || InRange(h.row.date, range.value))
    && (!Active(p.golfers) || h.row.golfer in p.golfers.value)
    && (!Active(p.courses) || h.row.course in p.courses.value)
  }

  function AdmitsAll(range: Option<DateRange>, p: FilterParams): Hole -> bool {
    (h: Hole) => Admits(range, p, h)
  }

  /** The three filters in a row are one selection by their conjunction. */
  lemma FilterIsConjunctive(holes: seq<Hole>, p: FilterParams)
    requires ResolveRange(holes, p).Success?
    ensures FilterDf(holes, p) == Success(Select(holes, AdmitsAll(ResolveRange(holes, p).value, p)))
  {
    var range := ResolveRange(holes, p).value;
    var dateOk := (h: Hole) => range.None? || InRange(h.row.date, range.value);
    var golferOk := (h: Hole) => !Active(p.golfers) || h.row.golfer in p.golfers.value;
    var courseOk := (h: Hole) => !Active(p.courses) || h.row.course in p.courses.value;
    var dateGolferOk := (h: Hole) => dateOk(h) && golferOk(h);

    var byDate := if range.Some? then Select(holes, ByDate(range.value)) else holes;
    if range.Some? {
      SelectCongruent(holes, ByDate(range.value), dateOk);
    } else {
      SelectAll(holes, dateOk);
    }
    assert byDate == Select(holes, dateOk);

    var byGolfer := if Active(p.golfers) then Select(byDate, ByGolfer(p.golfers.value)) else byDate;
    if Active(p.golfers) {
      SelectCongruent(byDate, ByGolfer(p.golfers.value), golferOk);
    } else {
      SelectAll(byDate, golferOk);
    }
    SelectSelect(holes, dateOk, golferOk, dateGolferOk);
    assert byGolfer == Select(holes, dateGolferOk);

    var byCourse := if Active(p.courses) then Select(byGolfer, ByCourse(p.courses.value)) else byGolfer;
    if Active(p.courses) {
      SelectCongruent(byGolfer, ByCourse(p.courses.value), courseOk);
    } else {
      SelectAll(byGolfer, courseOk);
    }
    SelectSelect(holes, dateGolferOk, courseOk, AdmitsAll(range, p));
  }

  /** `filter_df` returns a subsequence of its input holding exactly the
      rows that pass every active filter. */
  lemma FilterSelectsAdmitted(holes: seq<Hole>, p: FilterParams)
    requires ResolveRange(holes, p).Success?
    ensures FilterDf(holes, p).Success?
    ensures IsSubsequence(FilterDf(holes, p).value, holes)
    ensures forall h :: h in FilterDf(holes, p).value <==>
              h in holes && Admits(ResolveRange(holes, p).value, p, h)
  {
    FilterIsConjunctive(holes, p);
    SelectIsSubsequence(holes, AdmitsAll(ResolveRange(holes, p).value, p));
  }

  /** With an explicit range and no named window, a row survives iff its
      date lies in the range, both ends included, and its golfer and course
      pass their filters. */
  lemma ExplicitRangeIsInclusive(holes: seq<Hole>, p: FilterParams)
    requires p.dates != Some(LastTwentyRounds) && p.dateRange.Some?
    ensures FilterDf(holes, p).Success?
    ensures forall h :: h in FilterDf(holes, p).value <==>
              && h in holes
              && OnOrBefore(p.dateRange.value.first, h.row.date)
              && OnOrBefore(h.row.date, p.dateRange.value.last)
              && (!Active(p.golfers) || h.row.golfer in p.golfers.value)
              && (!Active(p.courses) || h.row.course in p.courses.value)
  {
    FilterSelectsAdmitted(holes, p);
  }

  /** An empty golfer or course list filters exactly as a missing one. */
  lemma EmptyListIsNoFilter(holes: seq<Hole>, p: FilterParams)
    ensures FilterDf(holes, p.(golfers := Some([]))) == FilterDf(holes, p.(golfers := None))
    ensures FilterDf(holes, p.(courses := Some([]))) == FilterDf(holes, p.(courses := None))
  {
  }

  // ------------------------------------------------- the named window

  /** The distinct dates of the table. */
  function DateSet(holes: seq<Hole>): set<Date> {
    set h | h in holes :: h.row.date
  }

  /** The distinct dates of the table strictly later than `d`. */
  function LaterDates(holes: seq<Hole>, d: Date): set<Date> {
    set h | h in holes && Before(d, h.row.date) :: h.row.date
  }

  /** A sequence has at most as many distinct elements as positions. */
  lemma {:induction false} DistinctAtMostLength<T>(s: seq<T>)
    ensures |set x | x in s| <= |s|
    decreases |s|
  {
    if |s| > 0 {
      DistinctAtMostLength(s[1..]);
      assert (set x | x in s) == {s[0]} + (set x | x in s[1..]);
    }
  }

  lemma SubsetCardinality<T>(a: set<T>, b: set<T>)
    requires a <= b
    ensures |a| <= |b|
  {
    assert b == a + (b - a);
  }

  /** The range the named window resolves to, in terms of the sorted play dates. */
  lemma WindowRange(holes: seq<Hole>, p: FilterParams)
    requires p.dates == Some(LastTwentyRounds) && |holes| > 0
    ensures var ds := PlayDates(holes);
            var k := |RecentDates(holes)|;
            && 0 < k <= |ds|
            && (forall i :: 0 <= i < |ds| ==> (ds[i] in RecentDates(holes) <==> |ds| - k <= i))
            && k == (if |ds| <= WindowSize then |ds| else WindowSize)
            && ResolveRange(holes, p) == Success(Some(DateRange(ds[|ds| - k], ds[|ds| - 1])))
  {
    BeforeIsStrictTotalOrder();
    TopWindow(PlayDates(holes), Before, WindowSize);
  }

  /** One row under the named window: see `RecentWindowKeeps`. */
  lemma RecentWindowRow(holes: seq<Hole>, p: FilterParams, x: Date)
    requires p.dates == Some(LastTwentyRounds) && x in DateSet(holes)
    ensures ResolveRange(holes, p).Success? && ResolveRange(holes, p).value.Some?
    ensures InRange(x, ResolveRange(holes, p).value.value) <==> x in RecentDates(holes)
    ensures x in RecentDates(holes) <==> |LaterDates(holes, x)| < WindowSize
  {
    var ds := PlayDates(holes);
    assert x in ds;
    var i :| 0 <= i < |ds| && ds[i] == x;
    BeforeIsStrictTotalOrder();
    LaterDatesArePlayDates(holes, x);
    TopWindowElement(ds, Before, WindowSize, i, LaterDates(holes, x));
  }

  lemma LaterDatesArePlayDates(holes: seq<Hole>, x: Date)
    ensures forall y :: y in LaterDates(holes, x) <==> y in PlayDates(holes) && Before(x, y)
  {
    forall y | y in PlayDates(holes) && Before(x, y) ensures y in LaterDates(holes, x) {
      var w :| w in holes && w.row.date == y;
    }
  }

  /** Under the named window a row survives the date filter iff its date is
      one of the 20 most recent distinct play dates, that is, iff fewer than
      20 distinct play dates are later than it. Rows sharing a date are
      therefore kept or dropped together. */
  lemma RecentWindowKeeps(holes: seq<Hole>, p: FilterParams)
    requires p.dates == Some(LastTwentyRounds) && |holes| > 0
    ensures ResolveRange(holes, p).Success? && ResolveRange(holes, p).value.Some?
    ensures forall h :: h in holes ==>
              (InRange(h.row.date, ResolveRange(holes, p).value.value) <==> h.row.date in RecentDates(holes))
    ensures forall h :: h in holes ==>
              (h.row.date in RecentDates(holes) <==> |LaterDates(holes, h.row.date)| < WindowSize)
  {
    forall h | h in holes
      ensures InRange(h.row.date, ResolveRange(holes, p).value.value) <==> h.row.date in RecentDates(holes)
      ensures h.row.date in RecentDates(holes) <==> |LaterDates(holes, h.row.date)| < WindowSize
    {
      RecentWindowRow(holes, p, h.row.date);
    }
  }

  /** The distinct dates of the table are the sorted play dates. */
  lemma DateSetIsPlayDates(holes: seq<Hole>)
    ensures |DateSet(holes)| == |PlayDates(holes)|
  {
    BeforeIsStrictTotalOrder();
    var ds := PlayDates(holes);
    assert DateSet(holes) == set d | d in ds by {
      forall d | d in ds ensures d in DateSet(holes) {
        var w :| w in holes && w.row.date == d;
      }
    }
    SortedCardinality(ds, Before);
  }

  /** With at most 20 distinct play dates the named window removes no row:
      filtering with it equals filtering with no date filter at all. */
  lemma FewDatesKeepEveryRow(holes: seq<Hole>, p: FilterParams)
    requires p.dates == Some(LastTwentyRounds) && |holes| > 0
    requires |DateSet(holes)| <= WindowSize
    ensures FilterDf(holes, p) == FilterDf(holes, p.(dates := None, dateRange := None))
  {
    var q := p.(dates := None, dateRange := None);
    RecentWindowKeeps(holes, p);
    DateSetIsPlayDates(holes);
    var range := ResolveRange(holes, p).value;
    forall h | h in holes ensures InRange(h.row.date, range.value) {
      assert LaterDates(holes, h.row.date) <= DateSet(holes) - {h.row.date};
      SubsetCardinality(LaterDates(holes, h.row.date), DateSet(holes) - {h.row.date});
    }
    FilterIsConjunctive(holes, p);
    FilterIsConjunctive(holes, q);
    SelectCongruent(holes, AdmitsAll(range, p), AdmitsAll(None, q));
  }

  /** A table whose dates all lie among the 20 most recent dates of another
      table has at most 20 distinct dates, so its own window keeps it whole. */
  lemma WindowKeepsRecentRows(holes: seq<Hole>, p: FilterParams, out: seq<Hole>)
    requires p.dates == Some(LastTwentyRounds) && |out| > 0
    requires forall h :: h in out ==> h.row.date in RecentDates(holes)
    ensures ResolveRange(out, p).Success? && ResolveRange(out, p).value.Some?
    ensures forall h :: h in out ==> InRange(h.row.date, ResolveRange(out, p).value.value)
  {
    var recent := RecentDates(holes);
    assert DateSet(out) <= set d | d in recent;
    DistinctAtMostLength(recent);
    SubsetCardinality(DateSet(out), set d | d in recent);
    forall h | h in out ensures InRange(h.row.date, ResolveRange(out, p).value.value) {
      var x := h.row.date;
      assert LaterDates(out, x) <= DateSet(out) - {x};
      SubsetCardinality(LaterDates(out, x), DateSet(out) - {x});
      RecentWindowRow(out, p, x);
    }
  }

  /** The case `FilterIdempotent` leaves out happens: with the named window
      and a golfer who has no row, the first pass returns an empty table and
      the second pass raises, as `min` of no dates does. */
  lemma SecondWindowPassRaises(h: Hole)
    ensures var p := FilterParams(Some(LastTwentyRounds), None, Some([h.row.golfer + "?"]), None);
            && FilterDf([h], p) == Success([])
            && FilterDf([], p) == Failure(EmptyWindow)
  {
  }

  /** Filtering the output of `filter_df` again with the same parameters
      returns it unchanged, except that the named window raises on an empty
      table. */
  lemma FilterIdempotent(holes: seq<Hole>, p: FilterParams)
    requires FilterDf(holes, p).Success?
    requires p.dates != Some(LastTwentyRounds) || |FilterDf(holes, p).value| > 0
    ensures FilterDf(FilterDf(holes, p).value, p) == FilterDf(holes, p)
  {
    var out := FilterDf(holes, p).value;
    FilterSelectsAdmitted(holes, p);
    if p.dates == Some(LastTwentyRounds) {
      RecentWindowKeeps(holes, p);
      WindowKeepsRecentRows(holes, p, out);
    }
    var range' := ResolveRange(out, p).value;
    assert forall h :: h in out ==> Admits(range', p, h);
    FilterIsConjunctive(out, p);
    SelectAll(out, AdmitsAll(range', p));
  }
}
