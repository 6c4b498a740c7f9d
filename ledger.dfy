/** The expiry ledger: the records built from a fruit name and a clock reading,
    the whole-array store they are appended to, and retrieval of the latest one. */
module Ledger {
  import opened ShelfLife

  /** The clock is read in microseconds; stored timestamps keep whole seconds. */
  const MicrosPerSecond := 1_000_000
  const SecondsPerDay := 86_400

  /** One stored expiry record; timestamps are in whole seconds. */
  datatype Record = Record(fruit: string, addedAt: int, expiryAt: int, expiryDays: int)

  /** A clock reading as the stored timestamp shows it: the sub-second part is dropped. */
  function Stamp(reading: int): int {
    reading / MicrosPerSecond
  }

  /** Shifting a reading by whole seconds shifts its timestamp by as many seconds. */
  lemma StampShift(reading: int, seconds: int)
    ensures Stamp(reading + seconds * MicrosPerSecond) == Stamp(reading) + seconds
  {
  }

  /** A record is consistent when its shelf life follows the policy and its
      expiry lies exactly that many days after the time it was added. */
  predicate WellFormed(r: Record) {
    && r.expiryDays == ExpiryDays(r.fruit)
    && r.expiryAt == r.addedAt + r.expiryDays * SecondsPerDay
  }

  /** The record as the source builds it, from two separate clock readings:
      one for the added time and one for the expiry time. */
  function RecordFromReadings(fruitName: string, addedReading: int, expiryReading: int): (r: Record)
    ensures r.fruit == fruitName && r.expiryDays == ExpiryDays(fruitName)
    ensures r.addedAt == Stamp(addedReading)
    ensures r.expiryAt == Stamp(expiryReading) + r.expiryDays * SecondsPerDay
  {
    var days := ExpiryDays(fruitName);
    StampShift(expiryReading, days * SecondsPerDay);
    Record(fruitName, Stamp(addedReading), Stamp(expiryReading + days * SecondsPerDay * MicrosPerSecond), days)
  }

  /** Two readings give a consistent record exactly when they fall in the same second. */
  lemma ReadingsSkew(fruitName: string, addedReading: int, expiryReading: int)
    ensures WellFormed(RecordFromReadings(fruitName, addedReading, expiryReading))
            <==> Stamp(addedReading) == Stamp(expiryReading)
  {
  }

  /** When the second changes between the two readings, the stored expiry is one
      second later than the added time plus the shelf life. */
  lemma ReadingsSkewExample()
    ensures var r := RecordFromReadings("banana", 999_999, 1_000_000);
            r.addedAt == 0 && r.expiryDays == 3 && r.expiryAt == 3 * SecondsPerDay + 1 && !WellFormed(r)
  {
    ExpiryDaysOfListedFruit("banana");
    ReadingsSkew("banana", 999_999, 1_000_000);
  }

  /** The record built from a single clock reading `now`. */
  function MakeRecord(fruitName: string, now: int): (r: Record)
    ensures r.fruit == fruitName && r.addedAt == Stamp(now)
    ensures WellFormed(r)
  {
    RecordFromReadings(fruitName, now, now)
  }

  /** The persisted array: absent, present but not readable as a list, or a list of records. */
  datatype StoreFile = Missing | Unreadable | Stored(records: seq<Record>)

  /** What an append starts from: the stored list, or none when it cannot be read. */
  function Loaded(s: StoreFile): seq<Record> {
    if s.Stored? then s.records else []
  }

  /** The store after loading, appending `r` and rewriting the whole list. */
  function Appended(s: StoreFile, r: Record): (s': StoreFile)
    ensures s'.Stored? && |s'.records| == |Loaded(s)| + 1
    ensures forall i :: 0 <= i < |Loaded(s)| ==> s'.records[i] == Loaded(s)[i]
    ensures s'.records[|Loaded(s)|] == r
  {
    Stored(Loaded(s) + [r])
  }

  /** The store after a sequence of appends, one after another. */
  function AppendedAll(s: StoreFile, rs: seq<Record>): StoreFile
    decreases |rs|
  {
    if rs == [] then s else AppendedAll(Appended(s, rs[0]), rs[1..])
  }

  /** What the latest-record endpoint answers. */
  datatype LatestReply = NoData | NoRecords | Found(record: Record) | ReadFailure

  /** The latest record: the last element of the stored list. */
  function LatestRecord(s: StoreFile): (reply: LatestReply)
    ensures reply == NoData <==> s.Missing?
    ensures reply == ReadFailure <==> s.Unreadable?
    ensures reply == NoRecords <==> s == Stored([])
    ensures reply.Found? <==> s.Stored? && s.records != []
    ensures reply.Found? ==> reply.record == s.records[|s.records| - 1]
  {
    match s
    case Missing => NoData
    case Unreadable => ReadFailure
    case Stored(records) => if |records| == 0 then NoRecords else Found(records[|records| - 1])
  }

  /** Right after an append, the latest record is the one appended. */
  lemma LatestAfterAppend(s: StoreFile, r: Record)
    ensures LatestRecord(Appended(s, r)) == Found(r)
  {
  }

  /** Appending to a missing or unreadable store leaves exactly the new record. */
  lemma AppendToUnloadable(s: StoreFile, r: Record)
    requires !s.Stored?
    ensures Appended(s, r) == Stored([r])
  {
  }

  /** Sequential appends keep every earlier record and add the new ones in order. */
  lemma {:induction false} AppendedAllExtends(s: StoreFile, rs: seq<Record>)
    requires rs != []
    ensures AppendedAll(s, rs) == Stored(Loaded(s) + rs)
    decreases |rs|
  {
    if |rs| == 1 {
      assert AppendedAll(Appended(s, rs[0]), rs[1..]) == Appended(s, rs[0]);
      assert rs == [rs[0]];
    } else {
      var s1 := Appended(s, rs[0]);
      AppendedAllExtends(s1, rs[1..]);
      assert Loaded(s1) == Loaded(s) + [rs[0]];
      assert Loaded(s) + [rs[0]] + rs[1..] == Loaded(s) + rs;
    }
  }

  /** Every record in the list is consistent. */
  predicate AllWellFormed(rs: seq<Record>) {
    forall i :: 0 <= i < |rs| ==> WellFormed(rs[i])
  }

  /** The records were added in non-decreasing time order. */
  predicate Chronological(rs: seq<Record>) {
    forall i, j :: 0 <= i < j < |rs| ==> rs[i].addedAt <= rs[j].addedAt
  }

  /** Saving a single-reading record keeps a consistent ledger consistent. */
  lemma AppendKeepsWellFormed(s: StoreFile, fruitName: string, now: int)
    requires AllWellFormed(Loaded(s))
    ensures AllWellFormed(Loaded(Appended(s, MakeRecord(fruitName, now))))
  {
  }

  /** With a clock that does not run backwards, saving keeps the ledger in time order. */
  lemma AppendKeepsChronological(s: StoreFile, fruitName: string, now: int)
    requires Chronological(Loaded(s))
    requires forall i :: 0 <= i < |Loaded(s)| ==> Loaded(s)[i].addedAt <= Stamp(now)
    ensures Chronological(Loaded(Appended(s, MakeRecord(fruitName, now))))
  {
  }

  /** The persisted ledger file, rewritten whole on every save. */
  class ExpiryLedger {
    var store: StoreFile

    constructor (initial: StoreFile)
      ensures store == initial
    {
      store := initial;
    }

    /** Builds the record for `fruitName` at clock reading `now`, loads the stored
        list (an empty one when it is missing or unreadable), appends the record
        and rewrites the store. */
    method SaveRecord(fruitName: string, now: int)
      modifies this
      ensures store == Appended(old(store), MakeRecord(fruitName, now))
      ensures LatestRecord(store) == Found(MakeRecord(fruitName, now))
    {
      var record := MakeRecord(fruitName, now);
      var data: seq<Record>;
      match store {
        case Stored(records) => data := records;
        case _ => data := [];
      }
      data := data + [record];
      store := Stored(data);
    }
  }
}
