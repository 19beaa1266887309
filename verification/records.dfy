/** The value types the statistics service stores. */
module Records {

  /** A stand-in for Foundation's `Date`, the time a round ended. The model never
      inspects it (the whole-second field is not Foundation's `Double`); it only
      travels inside a record. */
  datatype Date = Date(secondsSinceReferenceDate: int)

  /** The outcome of one finished round: how many answers were correct,
      out of how many questions, and when the round ended. */
  datatype GameRecord = GameRecord(correct: int, total: int, date: Date)

  /** A record that a round can actually produce: no more correct answers than questions. */
  predicate Plausible(r: GameRecord)
  {
    0 <= r.correct <= r.total
  }
}
