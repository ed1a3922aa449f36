/** The three stages chained as the dashboard calls them: the enriched
    table is filtered with the user's selections and then summarised. */
module Pipeline {
  import opened Wrappers
  import opened Dates
  import opened Records
  import opened Sequences
  import opened Enrichment
  import opened Filtering
  import opened Aggregation

  /** `get_scores(filter_df(df, ...))` on the table `parse_data_file` builds. */
  function RoundsFor(scores: seq<ScoreRow>, courses: seq<CourseRow>, p: FilterParams): Result<seq<Round>, FilterError>
  {
    var holes := ParseDataFile(scores, courses);
    var filtered :- FilterDf(holes, p);
    Success(GetScores(filtered))
  }

  /** Every round shown belongs to a selected golfer and course, lies within
      the resolved date range, and was played according to the Scores sheet. */
  lemma RoundsRespectFilters(scores: seq<ScoreRow>, courses: seq<CourseRow>, p: FilterParams)
    requires RoundsFor(scores, courses, p).Success?
    ensures var holes := ParseDataFile(scores, courses);
            var range := ResolveRange(holes, p).value;
            forall r :: r in RoundsFor(scores, courses, p).value ==>
              && (range.None? || InRange(r.key.date, range.value))
              && (!Active(p.golfers) || r.key.golfer in p.golfers.value)
              && (!Active(p.courses) || r.key.course in p.courses.value)
              && exists s :: s in scores && s.golfer == r.key.golfer && s.date == r.key.date
                             && s.course == r.key.course && s.tee == r.key.tee
  {
    var holes := ParseDataFile(scores, courses);
    var filtered := FilterDf(holes, p).value;
    FilterSelectsAdmitted(holes, p);
    EnrichedRows(scores, courses);
    var rounds := GetScores(filtered);
    forall r | r in rounds
      ensures exists h :: h in filtered && KeyOf(h) == r.key
    {
      var i :| 0 <= i < |rounds| && rounds[i] == r;
      assert r.key in HoleKeys(filtered);
    }
  }

  const ExampleScores: seq<ScoreRow> := [
    ScoreRow("A", Date(2023, 1, 1), "X", "Blue", 1, 5, 2, Some("H"), None),
    ScoreRow("A", Date(2023, 1, 1), "X", "Blue", 2, 4, 1, None, None)]

  const ExampleCourses: seq<CourseRow> := [CourseRow("X", "Blue", 1, 4), CourseRow("X", "Blue", 2, 3)]

  const ExampleKey: RoundKey := RoundKey("A", Date(2023, 1, 1), "X", "Blue")

  /** The worked example, enriched: two holes of one round, a par 4 with the
      fairway hit and a par 3. */
  lemma WorkedExampleHoles()
    ensures var holes := ParseDataFile(ExampleScores, ExampleCourses);
            && |holes| == 2
            && holes[0].row == ExampleScores[0] && holes[1].row == ExampleScores[1]
            && holes[0].scoreToPar == Some(1) && !holes[0].gir && holes[0].fir == Some(true)
            && holes[1].scoreToPar == Some(1) && !holes[1].gir && holes[1].fir == None
            && holes[0].puttsToPar == 0 && holes[1].puttsToPar == -1
  {
    EnrichKeepsRows(ExampleScores, ExampleCourses);
    assert LookupPar(ExampleCourses, ScoreKey(ExampleScores[0])) == Some(4);
    assert LookupPar(ExampleCourses, ScoreKey(ExampleScores[1])) == Some(3);
  }

  /** The worked example, summarised: one round of 9 strokes (+2), 3 putts,
      no green and the one tracked fairway hit. */
  lemma WorkedExampleRound()
    ensures GetScores(ParseDataFile(ExampleScores, ExampleCourses))
            == [Round(ExampleKey, 9, 2, 3, -1, 2, 0, 1, 1)]
  {
    WorkedExampleHoles();
    ExampleSummary(ParseDataFile(ExampleScores, ExampleCourses));
  }

  /** The summary of any table enriched as the worked example is. */
  lemma ExampleSummary(holes: seq<Hole>)
    requires |holes| == 2
    requires holes[0].row == ExampleScores[0] && holes[1].row == ExampleScores[1]
    requires holes[0].scoreToPar == Some(1) && !holes[0].gir && holes[0].fir == Some(true)
    requires holes[1].scoreToPar == Some(1) && !holes[1].gir && holes[1].fir == None
    requires holes[0].puttsToPar == 0 && holes[1].puttsToPar == -1
    ensures GetScores(holes) == [Round(ExampleKey, 9, 2, 3, -1, 2, 0, 1, 1)]
  {
    var h0, h1 := holes[0], holes[1];
    assert holes == [h0, h1];
    SingleRound(holes, ExampleKey);
    PairRound(ExampleKey, h0, h1);
  }

  /** Two holes are summarised into one row holding their sums and counts. */
  lemma PairRound(key: RoundKey, h0: Hole, h1: Hole)
    ensures Summarize(key, [h0, h1]) == Round(key,
      h0.row.score + h1.row.score,
      h0.scoreToPar.GetOr(0) + h1.scoreToPar.GetOr(0),
      h0.row.putts + h1.row.putts,
      h0.puttsToPar + h1.puttsToPar,
      2,
      (if h0.gir then 1 else 0) + (if h1.gir then 1 else 0),
      (if h0.fir.Some? then 1 else 0) + (if h1.fir.Some? then 1 else 0),
      (if h0.fir == Some(true) then 1 else 0) + (if h1.fir == Some(true) then 1 else 0))
  {
    PairTotals(h0, h1);
    var r := Summarize(key, [h0, h1]);
    assert Aggregates(r, key, [h0, h1]);
    assert r == Round(r.key, r.score, r.scoreToPar, r.putts, r.puttsToPar,
                      r.numHoles, r.greensHit, r.numFairways, r.fairwaysHit);
  }

  lemma SumOfPair(h0: Hole, h1: Hole, f: Hole -> int)
    ensures SumOf([h0, h1], f) == f(h0) + f(h1)
  {
    assert [h0, h1][1..] == [h1] && [h1][1..] == [];
    assert SumOf([h1], f) == f(h1) + SumOf([], f);
  }

  lemma CountOfPair(h0: Hole, h1: Hole, p: Hole -> bool)
    ensures CountOf([h0, h1], p) == (if p(h0) then 1 else 0) + (if p(h1) then 1 else 0)
  {
    assert [h0, h1][1..] == [h1] && [h1][1..] == [];
  }

  lemma PairTotals(h0: Hole, h1: Hole)
    ensures SumOf([h0, h1], HoleScore) == h0.row.score + h1.row.score
    ensures SumOf([h0, h1], HoleScoreToPar) == h0.scoreToPar.GetOr(0) + h1.scoreToPar.GetOr(0)
    ensures SumOf([h0, h1], HolePutts) == h0.row.putts + h1.row.putts
    ensures SumOf([h0, h1], HolePuttsToPar) == h0.puttsToPar + h1.puttsToPar
    ensures CountOf([h0, h1], GreenHit) == (if h0.gir then 1 else 0) + (if h1.gir then 1 else 0)
    ensures CountOf([h0, h1], FairwayTracked) == (if h0.fir.Some? then 1 else 0) + (if h1.fir.Some? then 1 else 0)
    ensures CountOf([h0, h1], FairwayHit) == (if h0.fir == Some(true) then 1 else 0) + (if h1.fir == Some(true) then 1 else 0)
  {
    SumOfPair(h0, h1, HoleScore);
    SumOfPair(h0, h1, HoleScoreToPar);
    SumOfPair(h0, h1, HolePutts);
    SumOfPair(h0, h1, HolePuttsToPar);
    CountOfPair(h0, h1, GreenHit);
    CountOfPair(h0, h1, FairwayTracked);
    CountOfPair(h0, h1, FairwayHit);
  }
}
