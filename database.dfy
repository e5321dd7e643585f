/**
 * The verification store of Psyduck/database.py: one row per announcement
 * message, keyed by the Discord message id, upserted by store_verification,
 * read back by get_verification and wiped by cleanup_all_records.
 *
 * The SQLite table is a map from message id to row. The winning numbers are
 * kept as the JSON text the program writes, with its decoder; the Reddit
 * information is kept as the value json.loads gives back.
 */
module Database {
  import opened Text
  import Reddit

  // ---------------------------------------------------------------------
  // The numbers column: json.dumps and json.loads of a list of integers

  /** `json.dumps(numbers)`: "[1, 2, 3]". */
  function NumbersJson(numbers: seq<int>): string
  {
    "[" + Join(MapSeq(IntToString, numbers), ", ") + "]"
  }

  /** `json.loads` of a list of integers as this store writes them; None where it would raise. */
  function ParseIntList(t: string): Option<seq<int>>
  {
    if |t| < 2 || t[0] != '[' || t[|t| - 1] != ']' then None
    else
      var inner := t[1..|t| - 1];
      if inner == [] then Some([]) else ParseAll(Split(inner, ','))
  }

  /** The numbers column round-trips: `json.loads(json.dumps(numbers)) == numbers`. */
  lemma NumbersRoundTrip(numbers: seq<int>)
    ensures ParseIntList(NumbersJson(numbers)) == Some(numbers)
  {
    var t := NumbersJson(numbers);
    var inner := Join(MapSeq(IntToString, numbers), ", ");
    assert t[1..|t| - 1] == inner;
    if numbers != [] {
      CommaListReadBack(numbers);
    }
  }

  // ---------------------------------------------------------------------
  // The reddit_info column

  /**
   * The post information as json.loads gives it back: the same fields, but the
   * spot numbers, integer keys when stored, come back as their decimal text.
   */
  datatype StoredPostInfo = StoredPostInfo(
    title: string,
    author: string,
    authorUrl: string,
    url: string,
    imageUrl: Option<string>,
    subreddit: string,
    spotAssignments: map<string, string>)

  /** `json.loads(json.dumps(reddit_info))`. */
  function JsonCopy(info: Reddit.PostInfo): (r: StoredPostInfo)
    ensures r.title == info.title && r.author == info.author && r.authorUrl == info.authorUrl
    ensures r.url == info.url && r.imageUrl == info.imageUrl && r.subreddit == info.subreddit
    ensures forall k :: k in info.spotAssignments ==>
      NatToString(k) in r.spotAssignments && r.spotAssignments[NatToString(k)] == info.spotAssignments[k]
    ensures forall s :: s in r.spotAssignments ==> exists k :: k in info.spotAssignments && s == NatToString(k)
  {
    var m := info.spotAssignments;
    var copy := map k | k in m :: NatToString(k) := m[k];
    StoredPostInfo(info.title, info.author, info.authorUrl, info.url, info.imageUrl, info.subreddit, copy)
  }

  // ---------------------------------------------------------------------
  // The table

  /** One row of verification_data, as stored. */
  datatype Row = Row(
    verificationRandom: string,
    signature: string,
    numbers: string,
    redditInfo: Option<StoredPostInfo>,
    timestamp: Option<string>,
    totalSpots: Option<int>,
    callerName: Option<string>)

  /** What get_verification returns for a row. */
  datatype Verification = Verification(
    verificationRandom: string,
    signature: string,
    numbers: seq<int>,
    redditInfo: Option<StoredPostInfo>,
    timestamp: Option<string>,
    totalSpots: Option<int>,
    callerName: Option<string>)

  /** The row store_verification writes. A missing (falsy) reddit_info goes in as NULL. */
  function RowFor(verificationRandom: string, signature: string, numbers: seq<int>,
                  redditInfo: Option<Reddit.PostInfo>, timestamp: Option<string>,
                  totalSpots: Option<int>, callerName: Option<string>): (r: Row)
    ensures r.redditInfo.None? <==> redditInfo.None?
    ensures r.numbers == NumbersJson(numbers)
  {
    Row(verificationRandom, signature, NumbersJson(numbers),
        if redditInfo.Some? then Some(JsonCopy(redditInfo.value)) else None,
        timestamp, totalSpots, callerName)
  }

  /** get_verification's reading of a row; None when the numbers text does not decode (json.loads raises, the error is logged). */
  function Decode(row: Row): Option<Verification>
  {
    match ParseIntList(row.numbers)
    case None => None
    case Some(ns) =>
      Some(Verification(row.verificationRandom, row.signature, ns, row.redditInfo,
                        row.timestamp, row.totalSpots, row.callerName))
  }

  /** get_verification on a table: None for an unknown message id. */
  function Lookup(rows: map<int, Row>, messageId: int): (r: Option<Verification>)
    ensures messageId !in rows ==> r.None?
  {
    if messageId in rows then Decode(rows[messageId]) else None
  }

  /** Reading a stored row gives back every argument; the Reddit information as json.loads returns it. */
  lemma StoreThenGet(rows: map<int, Row>, messageId: int, verificationRandom: string, signature: string,
                     numbers: seq<int>, redditInfo: Option<Reddit.PostInfo>, timestamp: Option<string>,
                     totalSpots: Option<int>, callerName: Option<string>)
    ensures Lookup(rows[messageId := RowFor(verificationRandom, signature, numbers, redditInfo, timestamp, totalSpots, callerName)], messageId) ==
      Some(Verification(verificationRandom, signature, numbers,
                        if redditInfo.Some? then Some(JsonCopy(redditInfo.value)) else None,
                        timestamp, totalSpots, callerName))
  {
    NumbersRoundTrip(numbers);
  }

  class VerificationDatabase {
    var rows: map<int, Row>

    /** Opening the database keeps the rows already in its file. */
    constructor (existing: map<int, Row>)
      ensures rows == existing
    {
      rows := existing;
    }

    /**
     * store_verification: INSERT OR REPLACE on the message id. `dbError` says
     * that SQLite raised; the method catches and logs that itself, so the
     * caller carries on and the table stays as it was.
     */
    method StoreVerification(messageId: int, verificationRandom: string, signature: string,
                             numbers: seq<int>, redditInfo: Option<Reddit.PostInfo>, timestamp: Option<string>,
                             totalSpots: Option<int>, callerName: Option<string>, dbError: bool)
      modifies this
      ensures dbError ==> rows == old(rows)
      ensures !dbError ==>
        rows == old(rows)[messageId := RowFor(verificationRandom, signature, numbers, redditInfo, timestamp, totalSpots, callerName)]
      ensures forall id :: id != messageId ==> Lookup(rows, id) == Lookup(old(rows), id)
    {
      if !dbError {
        rows := rows[messageId := RowFor(verificationRandom, signature, numbers, redditInfo, timestamp, totalSpots, callerName)];
      }
    }

    /** get_verification. */
    method GetVerification(messageId: int) returns (r: Option<Verification>)
      ensures r == Lookup(rows, messageId)
    {
      if messageId in rows {
        r := Decode(rows[messageId]);
      } else {
        r := None;
      }
    }

    /** cleanup_all_records: the number of rows there were, and none left. */
    method CleanupAllRecords() returns (count: nat)
      modifies this
      ensures count == |old(rows)| && rows == map[]
    {
      count := |rows|;
      rows := map[];
    }
  }
}
