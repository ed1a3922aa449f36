/** The derivation half of `parse_data_file`: the left join of the Scores
    sheet to the Courses sheet and the derived columns `ScoreToPar`,
    `PuttsToPar`, `GIR` and `FIR`. */
module Enrichment {
  import opened Wrappers
  import opened Records
  import Sequences

  /** Putts expected on every hole. */
  const ExpectedPutts: int := 2

  /** The par below which no fairway is aimed at. */
  const FairwayMinPar: int := 3

  /** The tee-accuracy code for a fairway hit. */
  const FairwayHitCode: string := "H"

  // ------------------------------------------------- pandas NaN semantics

  /** Column subtraction: NaN in, NaN out. */
  function Minus(a: Option<int>, b: Option<int>): (r: Option<int>)
    ensures r.Some? <==> a.Some? && b.Some?
    ensures r.Some? ==> r.value + b.value == a.value
  {
    match (a, b)
    case (Some(x), Some(y)) => Some(x - y)
    case _ => None
  }

  /** Column `<=`: any comparison with NaN is False. */
  predicate LessEq(a: Option<int>, b: Option<int>)
  {
    match (a, b)
    case (Some(x), Some(y)) => x <= y
    case _ => false
  }

  /** Column `>`: any comparison with NaN is False. */
  predicate Greater(a: Option<int>, b: Option<int>)
  {
    match (a, b)
    case (Some(x), Some(y)) => x > y
    case _ => false
  }

  // ------------------------------------------------------------ left join

  /** The pars of the Courses rows whose key is `key`, in sheet order. */
  function ParsFor(courses: seq<CourseRow>, key: HoleKey): (pars: seq<int>)
    ensures forall p :: p in pars ==> exists c :: c in courses && CourseKey(c) == key && c.par == p
    ensures forall c :: c in courses && CourseKey(c) == key ==> c.par in pars
  {
    if |courses| == 0 then []
    else
      var rest := ParsFor(courses[1..], key);
      assert forall c :: c in courses ==> c == courses[0] || c in courses[1..];
      (if CourseKey(courses[0]) == key then [courses[0].par] else []) + rest
  }

  /** The par of the first Courses row with key `key`, if any. */
  function LookupPar(courses: seq<CourseRow>, key: HoleKey): (par: Option<int>)
    ensures par.None? <==> forall c :: c in courses ==> CourseKey(c) != key
    ensures par.Some? ==> exists c :: c in courses && CourseKey(c) == key && c.par == par.value
  {
    if |courses| == 0 then None
    else if CourseKey(courses[0]) == key then Some(courses[0].par)
    else
      assert forall c :: c in courses ==> c == courses[0] || c in courses[1..];
      LookupPar(courses[1..], key)
  }

  /** Whether a Courses row has key `key`. */
  function HasCourseKey(key: HoleKey): CourseRow -> bool {
    (c: CourseRow) => CourseKey(c) == key
  }

  /** One par is collected per matching Courses row. */
  lemma {:induction false} ParsForCount(courses: seq<CourseRow>, key: HoleKey)
    ensures |ParsFor(courses, key)| == Sequences.CountOf(courses, HasCourseKey(key))
    decreases |courses|
  {
    if |courses| > 0 {
      ParsForCount(courses[1..], key);
    }
  }

  /** Pars are collected in sheet order: those of an earlier stretch of the
      Courses sheet come before those of a later one. */
  lemma {:induction false} ParsForAppend(a: seq<CourseRow>, b: seq<CourseRow>, key: HoleKey)
    ensures ParsFor(a + b, key) == ParsFor(a, key) + ParsFor(b, key)
    decreases |a|
  {
    if |a| == 0 {
      assert a + b == b;
    } else {
      assert (a + b)[1..] == a[1..] + b;
      ParsForAppend(a[1..], b, key);
    }
  }

  /** No two Courses rows share a (Course, Tee, Hole) key. */
  predicate UniqueKeys(courses: seq<CourseRow>) {
    forall i, j :: 0 <= i < j < |courses| ==> CourseKey(courses[i]) != CourseKey(courses[j])
  }

  /** The joined rows one Scores row contributes: one per matching Courses
      row, or one with a missing par when nothing matches. */
  function JoinRow(r: ScoreRow, courses: seq<CourseRow>): seq<(ScoreRow, Option<int>)>
  {
    var pars := ParsFor(courses, ScoreKey(r));
    if |pars| == 0 then [(r, None)]
    else seq(|pars|, i requires 0 <= i < |pars| => (r, Some(pars[i])))
  }

  /** `scores.merge(courses, how="left", on=["Course", "Tee", "Hole"])`,
      with `Par` as the only column the Courses sheet adds. */
  function LeftJoin(scores: seq<ScoreRow>, courses: seq<CourseRow>): (joined: seq<(ScoreRow, Option<int>)>)
    ensures |joined| >= |scores|
    ensures forall x :: x in joined ==> x.0 in scores
    ensures forall x :: x in joined && x.1.None? ==>
              forall c :: c in courses ==> CourseKey(c) != ScoreKey(x.0)
    ensures forall x :: x in joined && x.1.Some? ==>
              exists c :: c in courses && CourseKey(c) == ScoreKey(x.0) && c.par == x.1.value
  {
    if |scores| == 0 then []
    else
      var head := JoinRow(scores[0], courses);
      var rest := LeftJoin(scores[1..], courses);
      assert forall x :: x in head ==> x.0 == scores[0];
      assert forall x :: x in rest ==> x.0 in scores;
      assert forall x :: x in head && x.1.Some? ==> x.1.value in ParsFor(courses, ScoreKey(scores[0]));
      head + rest
  }

  /** A left join drops no Scores row: each one appears in some joined row. */
  lemma {:induction false} LeftJoinCoversScores(scores: seq<ScoreRow>, courses: seq<CourseRow>)
    ensures forall r :: r in scores ==> exists x :: x in LeftJoin(scores, courses) && x.0 == r
    decreases |scores|
  {
    if |scores| > 0 {
      LeftJoinCoversScores(scores[1..], courses);
      var head := JoinRow(scores[0], courses);
      var rest := LeftJoin(scores[1..], courses);
      assert LeftJoin(scores, courses) == head + rest;
      assert head[0] in head + rest;
      forall r | r in scores ensures exists x :: x in head + rest && x.0 == r {
        if r != scores[0] {
          assert r in scores[1..];
          var x :| x in rest && x.0 == r;
          assert x in head + rest;
        }
      }
    }
  }

  /** The join works row by row: the joined rows of each Scores row form one
      block, and the blocks follow the order of the Scores sheet. */
  lemma {:induction false} LeftJoinAppend(a: seq<ScoreRow>, b: seq<ScoreRow>, courses: seq<CourseRow>)
    ensures LeftJoin(a + b, courses) == LeftJoin(a, courses) + LeftJoin(b, courses)
    decreases |a|
  {
    if |a| == 0 {
      assert a + b == b;
    } else {
      assert (a + b)[1..] == a[1..] + b;
      LeftJoinAppend(a[1..], b, courses);
    }
  }

  /** One Scores row joins to one row per matching Courses row, in sheet
      order, or to a single row with a missing par when none matches. */
  lemma LeftJoinRow(r: ScoreRow, courses: seq<CourseRow>)
    ensures var pars := ParsFor(courses, ScoreKey(r));
            var rows := LeftJoin([r], courses);
            && |rows| == (if |pars| == 0 then 1 else |pars|)
            && (|pars| == 0 ==> rows == [(r, None)])
            && (forall i :: 0 <= i < |pars| ==> rows[i] == (r, Some(pars[i])))
  {
  }

  /** With unique keys at most one Courses row matches, and it is the one
      `LookupPar` finds. */
  lemma {:induction false} UniqueParsFor(courses: seq<CourseRow>, key: HoleKey)
    requires UniqueKeys(courses)
    ensures ParsFor(courses, key) == if LookupPar(courses, key).Some? then [LookupPar(courses, key).value] else []
    decreases |courses|
  {
    if |courses| > 0 {
      assert UniqueKeys(courses[1..]);
      UniqueParsFor(courses[1..], key);
      if CourseKey(courses[0]) == key {
        assert forall c :: c in courses[1..] ==> CourseKey(c) != key;
      }
    }
  }

  /** With unique course keys the left join keeps every Scores row once, in
      order, next to the par of its matching Courses row. */
  lemma {:induction false} LeftJoinKeepsRows(scores: seq<ScoreRow>, courses: seq<CourseRow>)
    requires UniqueKeys(courses)
    ensures |LeftJoin(scores, courses)| == |scores|
    ensures forall i :: 0 <= i < |scores| ==>
              LeftJoin(scores, courses)[i] == (scores[i], LookupPar(courses, ScoreKey(scores[i])))
    decreases |scores|
  {
    if |scores| > 0 {
      UniqueParsFor(courses, ScoreKey(scores[0]));
      LeftJoinKeepsRows(scores[1..], courses);
      assert JoinRow(scores[0], courses) == [(scores[0], LookupPar(courses, ScoreKey(scores[0])))];
    }
  }

  /** With unique course keys, the par found is that of the matching row. */
  lemma UniqueLookup(courses: seq<CourseRow>, c: CourseRow)
    requires UniqueKeys(courses)
    requires c in courses
    ensures LookupPar(courses, CourseKey(c)) == Some(c.par)
  {
    UniqueParsFor(courses, CourseKey(c));
  }

  // ------------------------------------------------------ derived columns

  /** `fir_func`: a real classification only when par is above 3 (a NaN par
      compares False); then hit exactly when the tee accuracy code is "H". */
  function Fir(par: Option<int>, teeAccuracy: Option<string>): (r: Option<bool>)
    ensures r.None? <==> par.None? || par.value <= FairwayMinPar
    ensures r.Some? ==> (r.value <==> teeAccuracy == Some(FairwayHitCode))
  {
    if Greater(par, Some(FairwayMinPar)) then
      if teeAccuracy == Some(FairwayHitCode) then Some(true) else Some(false)
    else None
  }

  /** The derivation rules, stated on values: `h` is row `r` with par
      `par`, and its derived columns follow pandas' rules for a missing par. */
  predicate Derived(h: Hole, r: ScoreRow, par: Option<int>) {
    && h.row == r && h.par == par
    && (par.Some? ==> h.scoreToPar == Some(r.score - par.value))
    && (par.None? ==> h.scoreToPar.None?)
    && h.puttsToPar == r.putts - ExpectedPutts
    && (h.gir <==> par.Some? && r.score - r.putts <= par.value - ExpectedPutts)
    && (h.fir.None? <==> par.None? || par.value <= FairwayMinPar)
    && (h.fir.Some? ==> (h.fir.value <==> r.teeAccuracy == Some(FairwayHitCode)))
  }

  /** The derived columns of one joined row, in pandas column arithmetic. */
  function Derive(r: ScoreRow, par: Option<int>): (h: Hole)
    ensures Derived(h, r, par)
  {
    var score := Some(r.score);
    var putts := Some(r.putts);
    Hole(
      r,
      par,
      Minus(score, par),
      r.putts - ExpectedPutts,
      LessEq(Minus(score, putts), Minus(par, Some(ExpectedPutts))),
      Fir(par, r.teeAccuracy))
  }

  /** `parse_data_file` after the sheets are read. */
  function ParseDataFile(scores: seq<ScoreRow>, courses: seq<CourseRow>): (holes: seq<Hole>)
    ensures |holes| >= |scores|
  {
    var joined := LeftJoin(scores, courses);
    seq(|joined|, i requires 0 <= i < |joined| => Derive(joined[i].0, joined[i].1))
  }

  /** What an enriched row satisfies: it carries a Scores row and a par
      consistent with the Courses sheet, and `ScoreToPar`, `PuttsToPar`,
      `GIR` and `FIR` follow from them. */
  predicate WellEnriched(h: Hole, scores: seq<ScoreRow>, courses: seq<CourseRow>) {
    && h.row in scores
    && (h.par.None? ==> forall c :: c in courses ==> CourseKey(c) != ScoreKey(h.row))
    && (h.par.Some? ==> exists c :: c in courses && CourseKey(c) == ScoreKey(h.row) && c.par == h.par.value)
    && Derived(h, h.row, h.par)
  }

  /** The row at position `i` of the enriched table is well enriched. */
  lemma EnrichedRowAt(scores: seq<ScoreRow>, courses: seq<CourseRow>, i: nat)
    requires i < |ParseDataFile(scores, courses)|
    ensures WellEnriched(ParseDataFile(scores, courses)[i], scores, courses)
  {
    var joined := LeftJoin(scores, courses);
    assert joined[i] in joined;
  }

  /** Every enriched row is well enriched, whether or not course keys are
      unique. */
  lemma EnrichedRows(scores: seq<ScoreRow>, courses: seq<CourseRow>)
    ensures forall h :: h in ParseDataFile(scores, courses) ==> WellEnriched(h, scores, courses)
  {
    var holes := ParseDataFile(scores, courses);
    forall h | h in holes
      ensures WellEnriched(h, scores, courses)
    {
      var i :| 0 <= i < |holes| && holes[i] == h;
      EnrichedRowAt(scores, courses, i);
    }
  }

  /** With unique course keys the enriched table has exactly one row per
      Scores row, in order, with `Par` looked up by (Course, Tee, Hole). */
  lemma EnrichKeepsRows(scores: seq<ScoreRow>, courses: seq<CourseRow>)
    requires UniqueKeys(courses)
    ensures |ParseDataFile(scores, courses)| == |scores|
    ensures forall i :: 0 <= i < |scores| ==>
              && ParseDataFile(scores, courses)[i].row == scores[i]
              && ParseDataFile(scores, courses)[i].par == LookupPar(courses, ScoreKey(scores[i]))
  {
    LeftJoinKeepsRows(scores, courses);
  }
}
