/** The rows of the two input sheets and of the enriched per-hole table. */
module Records {
  import opened Wrappers
  import opened Dates

  /** One row of the "Scores" sheet: one hole played in one round. The
      accuracy codes are "L", "H" or "R" in practice, and may be missing. */
  datatype ScoreRow = ScoreRow(
    golfer: string,
    date: Date,
    course: string,
    tee: string,
    hole: int,
    score: int,
    putts: int,
    teeAccuracy: Option<string>,
    approachAccuracy: Option<string>)

  /** One row of the "Courses" sheet: the par of one hole of one tee set. */
  datatype CourseRow = CourseRow(course: string, tee: string, hole: int, par: int)

  /** The columns the two sheets are joined on. */
  datatype HoleKey = HoleKey(course: string, tee: string, hole: int)

  function ScoreKey(r: ScoreRow): HoleKey {
    HoleKey(r.course, r.tee, r.hole)
  }

  function CourseKey(c: CourseRow): HoleKey {
    HoleKey(c.course, c.tee, c.hole)
  }

  /** A row of the enriched table: the Scores row, the joined `Par` (missing
      when no Courses row matched) and the derived columns. */
  datatype Hole = Hole(
    row: ScoreRow,
    par: Option<int>,
    scoreToPar: Option<int>,
    puttsToPar: int,
    gir: bool,
    fir: Option<bool>)
}
