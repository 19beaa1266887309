# MovieQuiz statistics service, modelled in Dafny

MovieQuiz is a single-screen iOS movie-trivia quiz. After each ten-question
round, it stores a `GameRecord` (correct answers, questions, date) through its
statistics service, `StatisticServiceImplementation`. The results screen then
reads three values from that service: the number of games played, the best game
and the overall accuracy.

This project models that service:

- `records.dfy` defines `GameRecord` and `Date`, a stand-in for Foundation's timestamp that the model never inspects.
- `statistics.dfy` holds the pure computations over the record list:
  - `Reduce`, Swift's left fold `reduce(0, …)`, with the two sums `TotalCorrect` and `TotalPlayed`;
  - `MaxBy`, Swift's `max(by: { $0.correct < $1.correct })`, built from the running result `MaxFrom`;
  - `Accuracy`, the guarded ratio, in exact `real` arithmetic;
  - the lemmas about all three.
- `statistic_service.dfy` holds the stateful part:
  - `UserDefaults` is a class over a `map` from keys to stored values;
  - the injected JSON decoder and encoder are function-valued constants that may fail;
  - `StatisticServiceImplementation` has the `storedRecords` getter and setter, `store`, and the three derived values.

A failed read gives the empty list. This happens when the key is missing, when the
value is not bytes, or when the bytes do not decode. A failed encoding drops the
write and leaves the preference store exactly as it was.

The best game is the first record with the largest `correct`. `max(by:)` replaces
its running result only when `result.correct < next.correct`, so on a tie the
earlier record stays. `IsFirstMax` states this independently of the fold.
`MaxFromIsFirstMax` and `BestGameIsFirstMax` connect the two, in both directions.

Accuracy is 0 whenever the summed `total` is not positive. The source's guard is
`totalPlayed > 0`, so this covers a negative sum as well as zero. Otherwise
accuracy × total-sum equals correct-sum × 100. It lies in [0, 100] whenever every
record has 0 ≤ correct ≤ total.

## Model

| member | source | states |
|---|---|---|
| `Statistics.Reduce` | MovieQuiz/Services/StaticService.swift:38-39 | the left fold `reduce(acc, …)`: it is `acc` on the empty list and never below `acc` when every folded value is non-negative |
| `Statistics.TotalPlayed` | MovieQuiz/Services/StaticService.swift:38 | the fold of `total` from 0: 0 for the empty list, non-negative when every `total` is |
| `Statistics.TotalCorrect` | MovieQuiz/Services/StaticService.swift:39 | the fold of `correct` from 0: 0 for the empty list, non-negative when every `correct` is |
| `Statistics.MaxFrom` | MovieQuiz/Services/StaticService.swift:34 | the running result of `max(by:)`: it is the start record or one of the rest, and its `correct` is at least the start's and every later record's |
| `Statistics.ReduceAppend` | MovieQuiz/Services/StaticService.swift:38-39 | the `reduce` fold over a list with one more record at the end is the old fold plus that record's value |
| `Statistics.SumsAfterAppend` | MovieQuiz/Services/StaticService.swift:38-39 | appending a record grows the correct-sum by exactly its `correct` and the total-sum by exactly its `total` |
| `Statistics.SumsBounded` | MovieQuiz/Services/StaticService.swift:38-39 | if every record has 0 ≤ correct ≤ total, then 0 ≤ correct-sum ≤ total-sum |
| `Statistics.Accuracy` | MovieQuiz/Services/StaticService.swift:37-44 | accuracy is 0 for the empty list and whenever the total-sum is ≤ 0; otherwise accuracy × total-sum = correct-sum × 100 |
| `Statistics.AccuracyInRange` | MovieQuiz/Services/StaticService.swift:37-44 | with plausible records (0 ≤ correct ≤ total), the accuracy lies in [0, 100] |
| `Statistics.MaxFromIsFirstMax` | MovieQuiz/Services/StaticService.swift:34 | the running result of `max(by:)` ends on a record with the greatest `correct`; every earlier record has a strictly smaller `correct` |
| `Statistics.MaxBy` | MovieQuiz/Services/StaticService.swift:33-35 | the best game is absent iff the list is empty; when present, it is a list element with the greatest `correct`, and the earliest such element |
| `Statistics.BestGameIsFirstMax` | MovieQuiz/Services/StaticService.swift:34 | conversely, whichever record is the earliest with the greatest `correct` is the one `max(by:)` returns |
| `Statistics.TieKeepsEarliest` | MovieQuiz/Services/StaticService.swift:34 | of two games with equal `correct`, the first is the best game |
| `Statistics.ThreeGames` | MovieQuiz/Services/StaticService.swift:29-44 | games 5/10, 7/10, 10/10 give the 10/10 game as best and an accuracy of 220/3 percent |
| `StatisticService.UserDefaults.Set` | MovieQuiz/Services/StaticService.swift:25 | writing data under a key replaces that key's value and leaves every other key as it was |
| `StatisticService.StatisticServiceImplementation.constructor` | MovieQuiz/Services/StaticService.swift:46-50 | the service keeps the preference store, decoder and encoder it is given |
| `StatisticService.StatisticServiceImplementation.HasStoredRecords` | MovieQuiz/Services/StaticService.swift:17-18 | the getter's guard: it fails when the `game_records` key is missing, and when it holds the value is bytes (the `as? Data` cast) that decode |
| `StatisticService.StatisticServiceImplementation.StoredRecords` | MovieQuiz/Services/StaticService.swift:15-22 | the stored list is the decoded bytes under `game_records`; it is empty when the key is missing, the value is not bytes, or decoding fails |
| `StatisticService.StatisticServiceImplementation.SetStoredRecords` | MovieQuiz/Services/StaticService.swift:23-26 | when the list encodes, its bytes replace the `game_records` value; when encoding fails, the preference store is unchanged |
| `StatisticService.StatisticServiceImplementation.GamesCount` | MovieQuiz/Services/StaticService.swift:29-31 | the games count is the length of the stored list, and 0 when nothing decodable is stored |
| `StatisticService.StatisticServiceImplementation.BestGame` | MovieQuiz/Services/StaticService.swift:33-35 | absent iff no game is stored; otherwise a stored game with the greatest `correct`, the earliest on a tie |
| `StatisticService.StatisticServiceImplementation.TotalAccuracy` | MovieQuiz/Services/StaticService.swift:37-44 | 0 unless the summed `total` is positive; otherwise correct-sum / total-sum × 100; within [0, 100] for plausible records |
| `StatisticService.StatisticServiceImplementation.Store` | MovieQuiz/Services/StaticService.swift:52-57 | read-modify-write. A failed encoding leaves the store and the list unchanged. Otherwise the new list bytes are written. With a round-tripping codec, the list becomes the old list plus `(correct, total, now)` at the end, the count grows by 1, and the sums grow by exactly `correct` and `total` |

## Left out

- Floating point: `totalAccuracy` is a Swift `Double`. The model computes it in exact `real` arithmetic and says nothing about rounding.
- Integer width: Swift's `Int` is 64-bit, and the sums in `reduce` trap on overflow. The model's integers are unbounded.
- `JSONEncoder` and `JSONDecoder` are foreign code. They appear as arbitrary functions that may fail, supplied at construction.
- Round-trips: that decoding gives back what was encoded is not assumed. `Store` states "the list grows by one record" only under the `RoundTrips` condition.
- `Date()`: the clock is nondeterministic, so `Store` takes the timestamp as the parameter `now`. `Date` is a stand-in with a whole-second field, not Foundation's `Double`; nothing in the model reads it.
- The `GameRecord` struct's own declaration is not part of this model. Its fields are taken from their uses in `StaticService.swift`.
- The `StatisticService` protocol (lines 3-8) has no behaviour of its own. Its members are modelled on the implementing class.
- The view controller is presentation only: outlets, alerts, border highlighting and the loading indicator.
- The quiz session (question index, correct-answer counter, restart) lives in `MovieQuizPresenter`, and `MovieQuizPresenter` is not part of this model.
- The question-loading delegate protocol and the view-model structs carry no logic.
- Interleaving: `store` reads the shared preference store (line 54) and writes it back (line 56) as two steps, and `totalAccuracy` reads the stored list twice (lines 38 and 39). `Store` and `TotalAccuracy` assume nothing changes the store in between; the app runs them on one thread.
