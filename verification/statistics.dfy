/** The values the statistics service derives from its list of game records:
    the best game (Swift's `max(by:)`) and the overall accuracy (two `reduce`
    folds and a guarded ratio). Everything here is a pure function of the list. */
module Statistics {

  import opened Wrappers
  import opened Records

  // ---------------------------------------------------------------------------
  // Sums: Swift's `reduce(0, { $0 + f($1) })`, a left fold
  // ---------------------------------------------------------------------------

  /** Adding only non-negative values never takes the fold below its start. */
  function Reduce(acc: int, rs: seq<GameRecord>, f: GameRecord -> int): (sum: int)
    ensures rs == [] ==> sum == acc
    ensures (forall r <- rs :: f(r) >= 0) ==> sum >= acc
    decreases |rs|
  {
    if rs == [] then acc else Reduce(acc + f(rs[0]), rs[1..], f)
  }

  function CorrectOf(r: GameRecord): int { r.correct }

  function TotalOf(r: GameRecord): int { r.total }

  /** The number of questions answered over all stored games. */
  function TotalPlayed(rs: seq<GameRecord>): (played: int)
    ensures rs == [] ==> played == 0
    ensures (forall r <- rs :: r.total >= 0) ==> played >= 0
  {
    Reduce(0, rs, TotalOf)
  }

  /** The number of correct answers over all stored games. */
  function TotalCorrect(rs: seq<GameRecord>): (correct: int)
    ensures rs == [] ==> correct == 0
    ensures (forall r <- rs :: r.correct >= 0) ==> correct >= 0
  {
    Reduce(0, rs, CorrectOf)
  }

  /** Folding over one more record at the end adds exactly that record's value. */
  lemma {:induction false} ReduceAppend(acc: int, rs: seq<GameRecord>, r: GameRecord, f: GameRecord -> int)
    ensures Reduce(acc, rs + [r], f) == Reduce(acc, rs, f) + f(r)
    decreases |rs|
  {
    if rs == [] {
      assert rs + [r] == [r];
      assert [r][1..] == [];
    } else {
      assert (rs + [r])[1..] == rs[1..] + [r];
      ReduceAppend(acc + f(rs[0]), rs[1..], r, f);
    }
  }

  /** Appending a record grows the correct-sum by its `correct` and the
      total-sum by its `total`, and changes nothing else. */
  lemma SumsAfterAppend(rs: seq<GameRecord>, r: GameRecord)
    ensures TotalCorrect(rs + [r]) == TotalCorrect(rs) + r.correct
    ensures TotalPlayed(rs + [r]) == TotalPlayed(rs) + r.total
  {
    ReduceAppend(0, rs, r, CorrectOf);
    ReduceAppend(0, rs, r, TotalOf);
  }

  /** When every record has 0 <= correct <= total, the sums keep that order. */
  lemma {:induction false} SumsBounded(rs: seq<GameRecord>)
    requires forall r <- rs :: Plausible(r)
    ensures 0 <= TotalCorrect(rs) <= TotalPlayed(rs)
    decreases |rs|
  {
    if rs != [] {
      var init, last := rs[..|rs| - 1], rs[|rs| - 1];
      assert rs == init + [last];
      assert last in rs;
      SumsBounded(init);
      SumsAfterAppend(init, last);
    }
  }

  // ---------------------------------------------------------------------------
  // Accuracy
  // ---------------------------------------------------------------------------

  /** `totalAccuracy`: correct answers as a percentage of all answers, in exact
      arithmetic; 0 when no question has been played (the guard `totalPlayed > 0`). */
  function Accuracy(rs: seq<GameRecord>): (a: real)
    ensures rs == [] ==> a == 0.0
    ensures TotalPlayed(rs) <= 0 ==> a == 0.0
    ensures TotalPlayed(rs) > 0 ==> a * TotalPlayed(rs) as real == TotalCorrect(rs) as real * 100.0
  {
    var played := TotalPlayed(rs) as real;
    var correct := TotalCorrect(rs) as real;
    if played > 0.0 then correct / played * 100.0 else 0.0
  }

  /** With plausible records the accuracy is a percentage. */
  lemma AccuracyInRange(rs: seq<GameRecord>)
    requires forall r <- rs :: Plausible(r)
    ensures 0.0 <= Accuracy(rs) <= 100.0
  {
    SumsBounded(rs);
  }

  // ---------------------------------------------------------------------------
  // Best game: Swift's `max(by: { $0.correct < $1.correct })`
  // ---------------------------------------------------------------------------

  /** Record `rs[i]` has the largest `correct`, and every record before it has a
      strictly smaller one: it is the earliest of the best games. */
  predicate IsFirstMax(rs: seq<GameRecord>, i: int)
  {
    0 <= i < |rs| &&
    (forall j :: 0 <= j < |rs| ==> rs[j].correct <= rs[i].correct) &&
    (forall j :: 0 <= j < i ==> rs[j].correct < rs[i].correct)
  }

  /** The running result of `max(by:)`: it is replaced by the next element only
      when the comparison `result.correct < next.correct` holds. */
  function MaxFrom(result: GameRecord, rest: seq<GameRecord>): (m: GameRecord)
    ensures m == result || m in rest
    ensures result.correct <= m.correct
    ensures forall r <- rest :: r.correct <= m.correct
    decreases |rest|
  {
    if rest == [] then result
    else MaxFrom(if result.correct < rest[0].correct then rest[0] else result, rest[1..])
  }

  /** The running result ends on the earliest maximal record of `[result] + rest`. */
  lemma {:induction false} MaxFromIsFirstMax(result: GameRecord, rest: seq<GameRecord>)
    ensures exists i :: IsFirstMax([result] + rest, i) && MaxFrom(result, rest) == ([result] + rest)[i]
    decreases |rest|
  {
    var s := [result] + rest;
    if rest == [] {
      assert IsFirstMax(s, 0);
    } else {
      var replaced := result.correct < rest[0].correct;
      var next := if replaced then rest[0] else result;
      var s' := [next] + rest[1..];
      MaxFromIsFirstMax(next, rest[1..]);
      var k :| IsFirstMax(s', k) && MaxFrom(next, rest[1..]) == s'[k];
      assert forall j :: 1 <= j < |s'| ==> s'[j] == s[j + 1];
      var i := if k > 0 then k + 1 else if replaced then 1 else 0;
      assert s[i] == s'[k];
      // next beats both result and rest[0], so each of s[0], s[1] is at most s'[0]
      assert s[0].correct <= s'[0].correct && s[1].correct <= s'[0].correct;
      forall j | 0 <= j < |s|
        ensures s[j].correct <= s[i].correct
      {
        if j >= 2 { assert s[j] == s'[j - 1]; }
      }
      forall j | 0 <= j < i
        ensures s[j].correct < s[i].correct
      {
        if j >= 2 { assert s[j] == s'[j - 1]; }
        else if k > 0 { assert s'[0].correct < s'[k].correct; }
      }
    }
  }

  /** `gameRecord`: no best game exactly when there is no game; otherwise the
      best game is a stored record with the largest `correct`, and the earliest such. */
  function MaxBy(rs: seq<GameRecord>): (m: Option<GameRecord>)
    ensures m.None? <==> rs == []
    ensures m.Some? ==> exists i :: IsFirstMax(rs, i) && m.value == rs[i]
  {
    if rs == [] then None
    else
      MaxFromIsFirstMax(rs[0], rs[1..]);
      assert [rs[0]] + rs[1..] == rs;
      Some(MaxFrom(rs[0], rs[1..]))
  }

  /** There is only one earliest maximal record, so it determines the best game. */
  lemma BestGameIsFirstMax(rs: seq<GameRecord>, i: int)
    requires IsFirstMax(rs, i)
    ensures MaxBy(rs) == Some(rs[i])
  {
    var m := MaxBy(rs);
    assert m.Some?;
    var k :| IsFirstMax(rs, k) && m.value == rs[k];
    if k < i {
      assert rs[k].correct < rs[i].correct;
    }
  }

  /** On a tie the first of the tied games is kept. */
  lemma TieKeepsEarliest(a: GameRecord, b: GameRecord)
    requires a.correct == b.correct
    ensures MaxBy([a, b]) == Some(a)
  {
    BestGameIsFirstMax([a, b], 0);
  }

  /** Three stored games (5/10, 7/10, 10/10): the best is the last one, and
      22 of 30 answers were correct, an accuracy of 220/3 percent. */
  lemma ThreeGames(d1: Date, d2: Date, d3: Date)
    ensures var rs := [GameRecord(5, 10, d1), GameRecord(7, 10, d2), GameRecord(10, 10, d3)];
            && MaxBy(rs) == Some(GameRecord(10, 10, d3))
            && Accuracy(rs) == 220.0 / 3.0
  {
    var a, b, c := GameRecord(5, 10, d1), GameRecord(7, 10, d2), GameRecord(10, 10, d3);
    var rs := [a, b, c];
    BestGameIsFirstMax(rs, 2);
    SumsAfterAppend([], a);
    assert [] + [a] == [a];
    SumsAfterAppend([a], b);
    assert [a] + [b] == [a, b];
    SumsAfterAppend([a, b], c);
    assert [a, b] + [c] == rs;
  }
}
