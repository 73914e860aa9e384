/** The score history (`<user>_stats.json`) and the statistics shown from it. */
module Stats {
  import opened Wrappers

  /** One saved quiz result; the date is the day the result was saved. */
  datatype ScoreRecord = ScoreRecord(score: int, total: int, date: string)

  /** The history after `save_stats`: the stored one with the record at its end,
      or a one-record history when nothing was stored yet. */
  function Appended(stored: Option<seq<ScoreRecord>>, record: ScoreRecord): (history: seq<ScoreRecord>)
    ensures |history| >= 1 && history[|history| - 1] == record
    ensures stored.Some? ==> history[..|history| - 1] == stored.value
    ensures stored.None? ==> history == [record]
  {
    match stored
    case Some(existing) => existing + [record]
    case None => [record]
  }

  /** `sum(entry['score'] for entry in stats)` */
  function Sum(history: seq<ScoreRecord>): (total: int)
    ensures (forall i :: 0 <= i < |history| ==> history[i].score >= 0) ==> total >= 0
  {
    if history == [] then 0 else history[0].score + Sum(history[1..])
  }

  /** Appending a record adds its score to the sum. */
  lemma {:induction false} SumAppend(history: seq<ScoreRecord>, record: ScoreRecord)
    ensures Sum(history + [record]) == Sum(history) + record.score
  {
    if history != [] {
      assert (history + [record])[1..] == history[1..] + [record];
      SumAppend(history[1..], record);
    }
  }

  /** An exact fraction `num / den`; the average is kept exact rather than as a float. */
  datatype Ratio = Ratio(num: int, den: nat)

  /** What the statistics dialog reports: the number of quizzes and the average score. */
  datatype Summary = Summary(count: nat, average: Ratio)

  /** `show_stats`: the count is the length of the history; the average is the sum of the
      scores over the count, and 0 for an empty history instead of a division by zero. */
  function Summarize(history: seq<ScoreRecord>): (s: Summary)
    ensures s.count == |history|
    ensures s.average.den > 0
    ensures s.average.num * |history| == Sum(history) * s.average.den
    ensures |history| == 0 ==> s.average.num == 0
  {
    if |history| > 0 then Summary(|history|, Ratio(Sum(history), |history|))
    else Summary(0, Ratio(0, 1))
  }

  /** Saving a score adds one quiz to the count and its score to the sum behind the average. */
  lemma SummaryAfterSave(stored: Option<seq<ScoreRecord>>, record: ScoreRecord)
    ensures Summarize(Appended(stored, record)).count ==
      (if stored.Some? then |stored.value| + 1 else 1)
    ensures Sum(Appended(stored, record)) ==
      (if stored.Some? then Sum(stored.value) else 0) + record.score
  {
    match stored
    case Some(existing) => SumAppend(existing, record);
    case None => assert Sum([record]) == record.score + Sum([]);
  }

  /** An empty history reports no quizzes and an average of 0. */
  lemma EmptySummary()
    ensures Summarize([]) == Summary(0, Ratio(0, 1))
  {
  }

  /** Scores 3 and 5 out of 5 give two quizzes with an average of 4. */
  lemma SummaryExample()
    ensures Summarize([ScoreRecord(3, 5, "2024-01-01"), ScoreRecord(5, 5, "2024-01-02")]).count == 2
    ensures Summarize([ScoreRecord(3, 5, "2024-01-01"), ScoreRecord(5, 5, "2024-01-02")]).average == Ratio(8, 2)
  {
  }
}
