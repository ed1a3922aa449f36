/** `get_scores`: the enriched per-hole table grouped by (Golfer, Date,
    Course, Tee) in key order, each group folded into one round summary. */
module Aggregation {
  import opened Wrappers
  import opened Dates
  import opened Records
  import opened Sequences
  import opened Ordering

  /** The grouping columns. */
  datatype RoundKey = RoundKey(golfer: string, date: Date, course: string, tee: string)

  function KeyOf(h: Hole): RoundKey {
    RoundKey(h.row.golfer, h.row.date, h.row.course, h.row.tee)
  }

  /** The order `groupby` sorts keys in: tuple order, strings by code point
      and dates chronologically. */
  predicate KeyLt(a: RoundKey, b: RoundKey) {
    || StrLt(a.golfer, b.golfer)
    || (a.golfer == b.golfer && Before(a.date, b.date))
    || (a.golfer == b.golfer && a.date == b.date && StrLt(a.course, b.course))
    || (a.golfer == b.golfer && a.date == b.date && a.course == b.course && StrLt(a.tee, b.tee))
  }

  lemma KeyLtIsStrictTotalOrder()
    ensures StrictTotalOrder(KeyLt)
  {
    StrLtIsStrictTotalOrder();
    BeforeIsStrictTotalOrder();
  }

  /** One row of the `get_scores` result. The `GIR` and `FIR` means are the
      ratios `greensHit / numHoles` and `fairwaysHit / numFairways`. */
  datatype Round = Round(
    key: RoundKey,
    score: int,
    scoreToPar: int,
    putts: int,
    puttsToPar: int,
    numHoles: nat,
    greensHit: nat,
    numFairways: nat,
    fairwaysHit: nat)

  // ------------------------------------------------ the aggregated columns

  function HoleScore(h: Hole): int { h.row.score }

  /** `sum` skips NaN, so a hole without a par adds nothing to `ScoreToPar`. */
  function HoleScoreToPar(h: Hole): int { h.scoreToPar.GetOr(0) }

  function HolePutts(h: Hole): int { h.row.putts }

  function HolePuttsToPar(h: Hole): int { h.puttsToPar }

  function Counted(h: Hole): int { 1 }

  predicate GreenHit(h: Hole) { h.gir }

  /** `count` on `FIR` counts the non-null entries. */
  predicate FairwayTracked(h: Hole) { h.fir.Some? }

  predicate FairwayHit(h: Hole) { h.fir == Some(true) }

  /** What a round summary of `group` holds, column by column. */
  predicate Aggregates(r: Round, key: RoundKey, group: seq<Hole>) {
    && r.key == key
    && r.numHoles == |group|
    && r.score == SumOf(group, HoleScore)
    && r.scoreToPar == SumOf(group, HoleScoreToPar)
    && r.putts == SumOf(group, HolePutts)
    && r.puttsToPar == SumOf(group, HolePuttsToPar)
    && r.greensHit == CountOf(group, GreenHit)
    && r.numFairways == CountOf(group, FairwayTracked)
    && r.fairwaysHit == CountOf(group, FairwayHit)
  }

  // -------------------------------------------------------------- the fold

  function EmptyRound(key: RoundKey): Round {
    Round(key, 0, 0, 0, 0, 0, 0, 0, 0)
  }

  /** Adds one hole to the running aggregates of its round. */
  function Accumulate(r: Round, h: Hole): Round {
    r.(score := r.score + h.row.score,
       scoreToPar := r.scoreToPar + h.scoreToPar.GetOr(0),
       putts := r.putts + h.row.putts,
       puttsToPar := r.puttsToPar + h.puttsToPar,
       numHoles := r.numHoles + 1,
       greensHit := r.greensHit + (if h.gir then 1 else 0),
       numFairways := r.numFairways + (if h.fir.Some? then 1 else 0),
       fairwaysHit := r.fairwaysHit + (if h.fir == Some(true) then 1 else 0))
  }

  /** The `.agg(...)` of one group: its holes folded in order. */
  function Summarize(key: RoundKey, group: seq<Hole>): (r: Round)
    ensures Aggregates(r, key, group)
    ensures r.greensHit <= r.numHoles
    ensures r.fairwaysHit <= r.numFairways <= r.numHoles
  {
    if |group| == 0 then EmptyRound(key)
    else
      var init := group[..|group| - 1];
      var last := group[|group| - 1];
      assert group == init + [last];
      SumOfAppend(init, [last], HoleScore);
      SumOfAppend(init, [last], HoleScoreToPar);
      SumOfAppend(init, [last], HolePutts);
      SumOfAppend(init, [last], HolePuttsToPar);
      CountOfAppend(init, [last], GreenHit);
      CountOfAppend(init, [last], FairwayTracked);
      CountOfAppend(init, [last], FairwayHit);
      CountOfMonotone(group, FairwayHit, FairwayTracked);
      Accumulate(Summarize(key, init), last)
  }

  // ------------------------------------------------------------- grouping

  function HasKey(key: RoundKey): Hole -> bool {
    (h: Hole) => KeyOf(h) == key
  }

  /** The rows of one group, in table order. */
  function GroupOf(holes: seq<Hole>, key: RoundKey): (group: seq<Hole>)
    ensures forall h :: h in group <==> h in holes && KeyOf(h) == key
  {
    Select(holes, HasKey(key))
  }

  /** The distinct group keys of a table. */
  function HoleKeys(holes: seq<Hole>): set<RoundKey> {
    set h | h in holes :: KeyOf(h)
  }

  /** The distinct group keys in `groupby` order. */
  function SortedKeys(holes: seq<Hole>): (keys: seq<RoundKey>)
    ensures StrictlySorted(keys, KeyLt)
    ensures forall k :: k in keys <==> k in HoleKeys(holes)
  {
    KeyLtIsStrictTotalOrder();
    var all := seq(|holes|, i requires 0 <= i < |holes| => KeyOf(holes[i]));
    assert forall h :: h in holes ==> KeyOf(h) in all by {
      forall h | h in holes ensures KeyOf(h) in all {
        var i :| 0 <= i < |holes| && holes[i] == h;
        assert all[i] == KeyOf(h);
      }
    }
    SortedDistinct(all, KeyLt)
  }

  /** Every key of the table has a non-empty group. */
  lemma GroupsNonEmpty(holes: seq<Hole>, keys: seq<RoundKey>)
    requires forall k :: k in keys ==> k in HoleKeys(holes)
    ensures forall i :: 0 <= i < |keys| ==> |GroupOf(holes, keys[i])| > 0
  {
    forall i | 0 <= i < |keys| ensures |GroupOf(holes, keys[i])| > 0 {
      assert keys[i] in keys;
      var h :| h in holes && KeyOf(h) == keys[i];
      assert h in GroupOf(holes, keys[i]);
    }
  }

  /** One summary per key of `keys`, in that order. */
  function Rounds(holes: seq<Hole>, keys: seq<RoundKey>): (rounds: seq<Round>)
    requires forall k :: k in keys ==> k in HoleKeys(holes)
    ensures |rounds| == |keys|
    ensures forall i :: 0 <= i < |keys| ==>
              && rounds[i].key == keys[i]
              && Aggregates(rounds[i], keys[i], GroupOf(holes, keys[i]))
              && 0 < rounds[i].numHoles
              && rounds[i].greensHit <= rounds[i].numHoles
              && rounds[i].fairwaysHit <= rounds[i].numFairways
  {
    GroupsNonEmpty(holes, keys);
    seq(|keys|, i requires 0 <= i < |keys| => Summarize(keys[i], GroupOf(holes, keys[i])))
  }

  /** Positions of `rounds` carry exactly the keys of `keys`. */
  lemma KeysAtPositions(keys: seq<RoundKey>, rounds: seq<Round>, all: set<RoundKey>)
    requires |rounds| == |keys|
    requires forall i :: 0 <= i < |keys| ==> rounds[i].key == keys[i]
    requires forall k :: k in keys <==> k in all
    ensures forall k :: k in all <==> exists i :: 0 <= i < |rounds| && rounds[i].key == k
  {
    forall k | k in all ensures exists i :: 0 <= i < |rounds| && rounds[i].key == k {
      var i :| 0 <= i < |keys| && keys[i] == k;
      assert rounds[i].key == k;
    }
  }

  /** `get_scores(df)`: one summary per distinct key, in key order. */
  function GetScores(holes: seq<Hole>): (rounds: seq<Round>)
    ensures forall i, j :: 0 <= i < j < |rounds| ==> KeyLt(rounds[i].key, rounds[j].key)
    ensures forall k :: k in HoleKeys(holes) <==> exists i :: 0 <= i < |rounds| && rounds[i].key == k
    ensures forall i :: 0 <= i < |rounds| ==>
              && Aggregates(rounds[i], rounds[i].key, GroupOf(holes, rounds[i].key))
              && 0 < rounds[i].numHoles
              && rounds[i].greensHit <= rounds[i].numHoles
              && rounds[i].fairwaysHit <= rounds[i].numFairways
  {
    var keys := SortedKeys(holes);
    var rounds := Rounds(holes, keys);
    KeysAtPositions(keys, rounds, HoleKeys(holes));
    rounds
  }

  // ------------------------------------------------------------ properties

  /** There is exactly one summary per distinct (Golfer, Date, Course, Tee). */
  lemma OneRoundPerKey(holes: seq<Hole>)
    ensures |GetScores(holes)| == |HoleKeys(holes)|
  {
    KeyLtIsStrictTotalOrder();
    var keys := SortedKeys(holes);
    assert HoleKeys(holes) == set k | k in keys;
    SortedCardinality(keys, KeyLt);
  }

  /** A table holding a single round aggregates to that one round, whose
      `NumHoles` is the number of rows. */
  lemma SingleRound(holes: seq<Hole>, key: RoundKey)
    requires |holes| > 0
    requires forall h :: h in holes ==> KeyOf(h) == key
    ensures GetScores(holes) == [Summarize(key, holes)]
    ensures GetScores(holes)[0].numHoles == |holes|
  {
    KeyLtIsStrictTotalOrder();
    var keys := SortedKeys(holes);
    assert holes[0] in holes;
    assert HoleKeys(holes) == {key};
    OneRoundPerKey(holes);
    assert keys[0] == key;
    SelectAll(holes, HasKey(key));
  }

  /** The sum of `f` over the groups of `keys`, group by group. */
  function GroupTotal(holes: seq<Hole>, keys: seq<RoundKey>, f: Hole -> int): int
  {
    if |keys| == 0 then 0
    else SumOf(GroupOf(holes, keys[0]), f) + GroupTotal(holes, keys[1..], f)
  }

  /** `v` counted once for each occurrence of `k` in `keys`. */
  function PerOccurrence(keys: seq<RoundKey>, k: RoundKey, v: int): int
  {
    if |keys| == 0 then 0
    else (if keys[0] == k then v else 0) + PerOccurrence(keys[1..], k, v)
  }

  lemma {:induction false} DistinctOccurrence(keys: seq<RoundKey>, k: RoundKey, v: int)
    requires forall i, j :: 0 <= i < j < |keys| ==> keys[i] != keys[j]
    requires k in keys
    ensures PerOccurrence(keys, k, v) == v
    decreases |keys|
  {
    if keys[0] == k {
      OccurrencesAbsent(keys[1..], k, v);
    } else {
      DistinctOccurrence(keys[1..], k, v);
    }
  }

  lemma {:induction false} OccurrencesAbsent(keys: seq<RoundKey>, k: RoundKey, v: int)
    requires k !in keys
    ensures PerOccurrence(keys, k, v) == 0
    decreases |keys|
  {
    if |keys| > 0 {
      OccurrencesAbsent(keys[1..], k, v);
    }
  }

  /** The group of `key` in a table, split at its first row. */
  lemma GroupOfFirst(holes: seq<Hole>, key: RoundKey)
    requires |holes| > 0
    ensures GroupOf(holes, key)
            == (if KeyOf(holes[0]) == key then [holes[0]] else []) + GroupOf(holes[1..], key)
  {
  }

  /** Peeling the first row off the table takes its value out of the one
      group per occurrence of its key. */
  lemma {:induction false} GroupTotalFirst(holes: seq<Hole>, keys: seq<RoundKey>, f: Hole -> int)
    requires |holes| > 0
    ensures GroupTotal(holes, keys, f)
            == PerOccurrence(keys, KeyOf(holes[0]), f(holes[0])) + GroupTotal(holes[1..], keys, f)
    decreases |keys|
  {
    if |keys| > 0 {
      GroupTotalFirst(holes, keys[1..], f);
      var g' := GroupOf(holes[1..], keys[0]);
      GroupOfFirst(holes, keys[0]);
      if KeyOf(holes[0]) == keys[0] {
        SumOfAppend([holes[0]], g', f);
      } else {
        assert GroupOf(holes, keys[0]) == g';
      }
    }
  }

  /** Grouping by pairwise-distinct keys covering every row partitions the
      table, so the group totals add up to the table total. */
  lemma {:induction false} GroupTotalPartition(holes: seq<Hole>, keys: seq<RoundKey>, f: Hole -> int)
    requires forall i, j :: 0 <= i < j < |keys| ==> keys[i] != keys[j]
    requires forall h :: h in holes ==> KeyOf(h) in keys
    ensures GroupTotal(holes, keys, f) == SumOf(holes, f)
    decreases |holes|
  {
    if |holes| == 0 {
      GroupTotalEmpty(holes, keys, f);
    } else {
      assert holes[0] in holes;
      assert forall h :: h in holes[1..] ==> h in holes;
      GroupTotalPartition(holes[1..], keys, f);
      GroupTotalFirst(holes, keys, f);
      DistinctOccurrence(keys, KeyOf(holes[0]), f(holes[0]));
    }
  }

  lemma {:induction false} GroupTotalEmpty(holes: seq<Hole>, keys: seq<RoundKey>, f: Hole -> int)
    requires |holes| == 0
    ensures GroupTotal(holes, keys, f) == 0
    decreases |keys|
  {
    if |keys| > 0 {
      GroupTotalEmpty(holes, keys[1..], f);
    }
  }

  function RoundHoles(r: Round): int { r.numHoles }

  function RoundScore(r: Round): int { r.score }

  function RoundScoreToPar(r: Round): int { r.scoreToPar }

  function RoundPutts(r: Round): int { r.putts }

  /** Summing a round column over `Rounds` is summing the hole column over
      the groups, when the round column is the group sum of the hole column. */
  lemma {:induction false} RoundsTotal(holes: seq<Hole>, keys: seq<RoundKey>, g: Round -> int, f: Hole -> int)
    requires forall k :: k in keys ==> k in HoleKeys(holes)
    requires forall i :: 0 <= i < |keys| ==> g(Rounds(holes, keys)[i]) == SumOf(GroupOf(holes, keys[i]), f)
    ensures SumOf(Rounds(holes, keys), g) == GroupTotal(holes, keys, f)
    decreases |keys|
  {
    if |keys| > 0 {
      var rest := keys[1..];
      assert Rounds(holes, keys)[1..] == Rounds(holes, rest);
      assert forall i :: 0 <= i < |rest| ==> Rounds(holes, rest)[i] == Rounds(holes, keys)[i + 1];
      RoundsTotal(holes, rest, g, f);
    }
  }

  lemma {:induction false} SumOfCounted(xs: seq<Hole>)
    ensures SumOf(xs, Counted) == |xs|
    decreases |xs|
  {
    if |xs| > 0 {
      SumOfCounted(xs[1..]);
    }
  }

  /** A round column that is the group sum of a hole column adds up, over
      the result of `get_scores`, to the column total of the table. */
  lemma ColumnConserved(holes: seq<Hole>, g: Round -> int, f: Hole -> int)
    requires forall i :: 0 <= i < |SortedKeys(holes)| ==>
               g(Rounds(holes, SortedKeys(holes))[i]) == SumOf(GroupOf(holes, SortedKeys(holes)[i]), f)
    ensures SumOf(GetScores(holes), g) == SumOf(holes, f)
  {
    KeyLtIsStrictTotalOrder();
    var keys := SortedKeys(holes);
    forall i, j | 0 <= i < j < |keys| ensures keys[i] != keys[j] {
      SortedPositions(keys, KeyLt, i, j);
    }
    assert forall h :: h in holes ==> KeyOf(h) in keys;
    RoundsTotal(holes, keys, g, f);
    GroupTotalPartition(holes, keys, f);
  }

  /** Grouping loses and duplicates nothing: the rounds' holes, strokes,
      strokes to par and putts add up to the table's. */
  lemma TotalsConserved(holes: seq<Hole>)
    ensures SumOf(GetScores(holes), RoundHoles) == |holes|
    ensures SumOf(GetScores(holes), RoundScore) == SumOf(holes, HoleScore)
    ensures SumOf(GetScores(holes), RoundScoreToPar) == SumOf(holes, HoleScoreToPar)
    ensures SumOf(GetScores(holes), RoundPutts) == SumOf(holes, HolePutts)
  {
    var keys := SortedKeys(holes);
    var rounds := Rounds(holes, keys);
    forall i | 0 <= i < |keys| ensures RoundHoles(rounds[i]) == SumOf(GroupOf(holes, keys[i]), Counted) {
      SumOfCounted(GroupOf(holes, keys[i]));
    }
    ColumnConserved(holes, RoundHoles, Counted);
    SumOfCounted(holes);
    ColumnConserved(holes, RoundScore, HoleScore);
    ColumnConserved(holes, RoundScoreToPar, HoleScoreToPar);
    ColumnConserved(holes, RoundPutts, HolePutts);
  }
}
