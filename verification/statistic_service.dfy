/** The statistics service of the quiz: a list of game records kept under one
    key of the device's preference store, written back whole after each round,
    and the three values the results screen shows. */
module StatisticService {

  import opened Wrappers
  import opened Records
  import opened Statistics

  /** Raw bytes, as the JSON encoder produces and the decoder consumes them. */
  type Data = seq<bv8>

  /** What the preference store holds under a key: bytes, or some other property-list value. */
  datatype StoredValue = DataValue(bytes: Data) | OtherValue

  /** The preference key the records live under. */
  const GameRecordsKey: string := "game_records"

  /** The device's key-value preference store (Foundation's `UserDefaults`). */
  class UserDefaults {
    var entries: map<string, StoredValue>

    constructor(entries: map<string, StoredValue>)
      ensures this.entries == entries
    {
      this.entries := entries;
    }

    /** `set(_:forKey:)`: the key now maps to the data, and every other key is as it was. */
    method Set(data: Data, key: string)
      modifies this
      ensures entries == old(entries)[key := DataValue(data)]
    {
      entries := entries[key := DataValue(data)];
    }
  }

  class StatisticServiceImplementation {
    const userDefaults: UserDefaults
    /** The injected `JSONDecoder`, fixed to `[GameRecord]`: `None` when the bytes do not decode. */
    const decoder: Data -> Option<seq<GameRecord>>
    /** The injected `JSONEncoder`: `None` when encoding throws. */
    const encoder: seq<GameRecord> -> Option<Data>

    constructor(userDefaults: UserDefaults,
                decoder: Data -> Option<seq<GameRecord>>,
                encoder: seq<GameRecord> -> Option<Data>)
      ensures this.userDefaults == userDefaults
      ensures this.decoder == decoder && this.encoder == encoder
    {
      this.userDefaults := userDefaults;
      this.decoder := decoder;
      this.encoder := encoder;
    }

    /** The stored key holds bytes that decode to a list of records. */
    predicate HasStoredRecords(): (decodable: bool)
      reads userDefaults
      ensures GameRecordsKey !in userDefaults.entries ==> !decodable
      ensures decodable ==> userDefaults.entries[GameRecordsKey].DataValue? &&
                            decoder(userDefaults.entries[GameRecordsKey].bytes).Some?
    {
      GameRecordsKey in userDefaults.entries &&
      userDefaults.entries[GameRecordsKey].DataValue? &&
      decoder(userDefaults.entries[GameRecordsKey].bytes).Some?
    }

    /** The getter of `storedRecords`: the decoded list, and the empty list when
        nothing is stored, the stored value is not bytes, or the bytes do not decode. */
    function StoredRecords(): (rs: seq<GameRecord>)
      reads userDefaults
      ensures !HasStoredRecords() ==> rs == []
      ensures HasStoredRecords() ==> Some(rs) == decoder(userDefaults.entries[GameRecordsKey].bytes)
    {
      if GameRecordsKey in userDefaults.entries then
        match userDefaults.entries[GameRecordsKey]
        case DataValue(bytes) =>
          (match decoder(bytes)
           case Some(records) => records
           case None => [])
        case OtherValue => []
      else []
    }

    /** The setter of `storedRecords`: when the list encodes, its bytes replace the
        stored value; when encoding fails, the preference store is left exactly as it was. */
    method SetStoredRecords(newValue: seq<GameRecord>)
      modifies userDefaults
      ensures encoder(newValue).None? ==> userDefaults.entries == old(userDefaults.entries)
      ensures encoder(newValue).Some? ==>
                userDefaults.entries == old(userDefaults.entries)[GameRecordsKey := DataValue(encoder(newValue).value)]
    {
      match encoder(newValue)
      case None =>
      case Some(data) =>
        userDefaults.Set(data, GameRecordsKey);
    }

    /** The codec gives back the list it encoded (expected of `JSONEncoder`/`JSONDecoder`
        on `[GameRecord]`, which the model does not see). */
    predicate RoundTrips(value: seq<GameRecord>)
    {
      encoder(value).Some? ==> decoder(encoder(value).value) == Some(value)
    }

    /** `gamesCount`: the number of stored games; 0 when nothing is stored or it does not decode. */
    function GamesCount(): (n: nat)
      reads userDefaults
      ensures n == |StoredRecords()|
      ensures !HasStoredRecords() ==> n == 0
    {
      |StoredRecords()|
    }

    /** `gameRecord`: absent exactly when no game is stored; otherwise a stored
        game with the most correct answers, the earliest of them on a tie. */
    function BestGame(): (best: Option<GameRecord>)
      reads userDefaults
      ensures best.None? <==> StoredRecords() == []
      ensures best.Some? ==> exists i :: IsFirstMax(StoredRecords(), i) && best.value == StoredRecords()[i]
    {
      MaxBy(StoredRecords())
    }

    /** `totalAccuracy`: 0 unless some question was played; otherwise the
        percentage of correct answers over all stored games, which lies in
        [0, 100] when every game has no more correct answers than questions. */
    function TotalAccuracy(): (a: real)
      reads userDefaults
      ensures TotalPlayed(StoredRecords()) <= 0 ==> a == 0.0
      ensures TotalPlayed(StoredRecords()) > 0 ==>
                a * TotalPlayed(StoredRecords()) as real == TotalCorrect(StoredRecords()) as real * 100.0
      ensures (forall r <- StoredRecords() :: Plausible(r)) ==> 0.0 <= a <= 100.0
    {
      var rs := StoredRecords();
      if forall r <- rs :: Plausible(r) then AccuracyInRange(rs); Accuracy(rs)
      else Accuracy(rs)
    }

    /** `store(correct:total:)`: read the stored list, append one record stamped
        `now`, and write the whole list back. A failed encoding drops the write.
        When the write goes through and the codec round-trips, the list is the old
        list with the new record at the end, one more game is counted, and the sums
        behind the accuracy grow by exactly `correct` and `total`. */
    method Store(correct: int, total: int, now: Date)
      modifies userDefaults
      ensures var newValue := old(StoredRecords()) + [GameRecord(correct, total, now)];
              encoder(newValue).None? ==>
                userDefaults.entries == old(userDefaults.entries) && StoredRecords() == old(StoredRecords())
      ensures var newValue := old(StoredRecords()) + [GameRecord(correct, total, now)];
              encoder(newValue).Some? ==>
                userDefaults.entries == old(userDefaults.entries)[GameRecordsKey := DataValue(encoder(newValue).value)]
      ensures var newValue := old(StoredRecords()) + [GameRecord(correct, total, now)];
              encoder(newValue).Some? && RoundTrips(newValue) ==>
                && StoredRecords() == newValue
                && GamesCount() == old(GamesCount()) + 1
                && TotalCorrect(StoredRecords()) == TotalCorrect(old(StoredRecords())) + correct
                && TotalPlayed(StoredRecords()) == TotalPlayed(old(StoredRecords())) + total
    {
      var record := GameRecord(correct, total, now);
      var records := StoredRecords();
      records := records + [record];
      SumsAfterAppend(StoredRecords(), record);
      SetStoredRecords(records);
    }
  }
}
