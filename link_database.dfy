/**
 * The link store of Psyduck/link_database.py: Reddit names (lower-cased) to
 * Discord ids, announcement messages to the Reddit names that won there, and
 * the retry decorator every operation is wrapped in.
 *
 * The two SQLite tables are maps. The table operations themselves do not fail
 * here; what a failing database does to a call is the business of Retry, which
 * takes the results the wrapped call would give on each attempt.
 */
module LinkStore {
  import opened Text

  // ---------------------------------------------------------------------
  // retry_on_db_error

  /** What one call of the wrapped operation does. */
  datatype CallResult<T> =
    | Ok(value: T)
    | OperationalError(message: string)  // sqlite3.OperationalError: retried
    | OtherError(message: string)        // any other exception: re-raised at once

  /** What the wrapper does in the end. */
  datatype RetryOutcome<T> =
    | Returned(value: T)
    | Reraised(error: string)
    /** Every attempt hit an OperationalError and the last one is raised; with no attempt
        at all there is none, and Python's `raise None` fails with a TypeError. */
    | Exhausted(last: Option<string>)

  /** The number of leading OperationalErrors: the attempt at which the wrapper stops, if any. */
  function FirstStop<T>(results: seq<CallResult<T>>): (k: nat)
    ensures k <= |results|
    ensures k < |results| ==> !results[k].OperationalError?
    ensures forall j :: 0 <= j < k ==> results[j].OperationalError?
  {
    if results == [] || !results[0].OperationalError? then 0 else 1 + FirstStop(results[1..])
  }

  /** The wrapper's outcome over the first maxRetries attempts. */
  function Outcome<T>(results: seq<CallResult<T>>, maxRetries: nat): (r: RetryOutcome<T>)
    requires maxRetries <= |results|
    ensures r.Exhausted? <==> forall j :: 0 <= j < maxRetries ==> results[j].OperationalError?
    ensures r.Exhausted? ==> r.last == if maxRetries == 0 then None else Some(results[maxRetries - 1].message)
    ensures r.Returned? ==> exists k :: 0 <= k < maxRetries && results[k] == Ok(r.value)
  {
    var tried := results[..maxRetries];
    var k := FirstStop(tried);
    if k < maxRetries then
      match results[k]
      case Ok(v) => Returned(v)
      case OtherError(e) => Reraised(e)
    else if maxRetries == 0 then Exhausted(None)
    else Exhausted(Some(results[maxRetries - 1].message))
  }

  /** How many times the wrapped operation is called: up to and including the first non-OperationalError. */
  function CallsMade<T>(results: seq<CallResult<T>>, maxRetries: nat): (n: nat)
    requires maxRetries <= |results|
    ensures n <= maxRetries
    ensures n < maxRetries ==> 0 < n && !results[n - 1].OperationalError?
    ensures forall j :: 0 <= j < n - 1 ==> results[j].OperationalError?
  {
    var k := FirstStop(results[..maxRetries]);
    if k < maxRetries then k + 1 else maxRetries
  }

  /** How many sleeps happen: one after each failed attempt except the last permitted one. */
  function SleepsTaken<T>(results: seq<CallResult<T>>, maxRetries: nat): (n: nat)
    requires maxRetries <= |results|
    ensures n < maxRetries || n == 0
    ensures n <= CallsMade(results, maxRetries)
  {
    var k := FirstStop(results[..maxRetries]);
    if k < maxRetries then k else if maxRetries == 0 then 0 else maxRetries - 1
  }

  /** The waits after failed attempts 0, 1, ..., n-1: delay, 2·delay, ..., n·delay. */
  function Backoff(delay: nat, n: nat): (r: seq<nat>)
    ensures |r| == n && forall i :: 0 <= i < n ==> r[i] == delay * (i + 1)
  {
    seq(n, i requires 0 <= i < n => delay * (i + 1))
  }

  /** The number of sleeps after `attempt` failed attempts, when no more than maxRetries are allowed. */
  function Slept(attempt: nat, maxRetries: nat): nat
  {
    if attempt == maxRetries && attempt > 0 then attempt - 1 else attempt
  }

  /**
   * The decorator's wrapper: results[i] is what the wrapped call gives on
   * attempt i, delay is the base delay (in whatever unit the caller uses) and
   * sleeps are the waits, in order.
   */
  method Retry<T>(maxRetries: nat, delay: nat, results: seq<CallResult<T>>)
    returns (outcome: RetryOutcome<T>, calls: nat, sleeps: seq<nat>)
    requires maxRetries <= |results|
    ensures outcome == Outcome(results, maxRetries)
    ensures calls == CallsMade(results, maxRetries)
    ensures sleeps == Backoff(delay, SleepsTaken(results, maxRetries))
  {
    ghost var tried := results[..maxRetries];
    var last: Option<string> := None;
    sleeps := [];
    calls := 0;
    var attempt := 0;
    while attempt < maxRetries
      invariant attempt <= FirstStop(tried) && attempt <= maxRetries
      invariant calls == attempt
      invariant sleeps == Backoff(delay, Slept(attempt, maxRetries))
      invariant last == if attempt == 0 then None else Some(results[attempt - 1].message)
    {
      calls := calls + 1;
      match results[attempt] {
        case Ok(v) =>
          assert FirstStop(tried) == attempt by { assert !tried[attempt].OperationalError?; }
          outcome := Returned(v);
          return;
        case OtherError(e) =>
          assert FirstStop(tried) == attempt by { assert !tried[attempt].OperationalError?; }
          outcome := Reraised(e);
          return;
        case OperationalError(e) =>
          assert FirstStop(tried) != attempt by { assert tried[attempt].OperationalError?; }
          last := Some(e);
          if attempt < maxRetries - 1 {
            sleeps := sleeps + [delay * (attempt + 1)];
          }
      }
      attempt := attempt + 1;
    }
    outcome := Exhausted(last);
  }

  /** The wrapper never calls more than maxRetries times, and it returns the first success. */
  lemma RetryReturnsFirstSuccess<T>(results: seq<CallResult<T>>, maxRetries: nat, k: nat)
    requires maxRetries <= |results|
    requires k < maxRetries && results[k].Ok?
    requires forall j :: 0 <= j < k ==> results[j].OperationalError?
    ensures Outcome(results, maxRetries) == Returned(results[k].value)
    ensures CallsMade(results, maxRetries) == k + 1
    ensures SleepsTaken(results, maxRetries) == k
  {
    var tried := results[..maxRetries];
    assert tried[k] == results[k];
    assert forall j :: 0 <= j < k ==> tried[j] == results[j];
  }

  /** An error other than OperationalError is raised without another attempt or a sleep after it. */
  lemma RetryReraisesAtOnce<T>(results: seq<CallResult<T>>, maxRetries: nat, k: nat)
    requires maxRetries <= |results|
    requires k < maxRetries && results[k].OtherError?
    requires forall j :: 0 <= j < k ==> results[j].OperationalError?
    ensures Outcome(results, maxRetries) == Reraised(results[k].message)
    ensures CallsMade(results, maxRetries) == k + 1
    ensures SleepsTaken(results, maxRetries) == k
  {
    var tried := results[..maxRetries];
    assert tried[k] == results[k];
    assert forall j :: 0 <= j < k ==> tried[j] == results[j];
  }

  /** When every permitted attempt hits an OperationalError, all of them are made and the last is not followed by a sleep. */
  lemma RetryGivesUp<T>(results: seq<CallResult<T>>, maxRetries: nat)
    requires 0 < maxRetries <= |results|
    requires forall j :: 0 <= j < maxRetries ==> results[j].OperationalError?
    ensures Outcome(results, maxRetries) == Exhausted(Some(results[maxRetries - 1].message))
    ensures CallsMade(results, maxRetries) == maxRetries
    ensures SleepsTaken(results, maxRetries) == maxRetries - 1
  {
    var tried := results[..maxRetries];
    assert forall j :: 0 <= j < maxRetries ==> tried[j] == results[j];
  }

  // ---------------------------------------------------------------------
  // The tables

  /** One row of reddit_discord_links, keyed by the lower-cased Reddit name. */
  datatype Link = Link(discordUserId: string, linkedBy: Option<string>)

  /** One row of message_winners, keyed by the message id. */
  datatype MessageMapping = MessageMapping(channelId: int, redditUsernames: seq<string>)

  /** get_discord_id on a table. */
  function DiscordIdOf(links: map<string, Link>, redditUsername: string): (r: Option<string>)
    ensures r.Some? <==> ToLower(redditUsername) in links
  {
    var key := ToLower(redditUsername);
    if key in links then Some(links[key].discordUserId) else None
  }

  /** The Reddit names linked to a Discord id. */
  function LinkedNames(links: map<string, Link>, discordUserId: string): set<string>
  {
    set name | name in links && links[name].discordUserId == discordUserId
  }

  predicate AllLowerCase(links: map<string, Link>)
  {
    forall name :: name in links ==> ToLower(name) == name
  }

  /** A name added in one letter case is found in any other. */
  lemma AddThenFind(links: map<string, Link>, redditUsername: string, discordUserId: string,
                    linkedBy: Option<string>, lookedUp: string)
    requires ToLower(lookedUp) == ToLower(redditUsername)
    ensures DiscordIdOf(links[ToLower(redditUsername) := Link(discordUserId, linkedBy)], lookedUp) == Some(discordUserId)
  {
  }

  /** Adding or removing one name leaves the lookup of every other name alone. */
  lemma OtherNamesUnchanged(links: map<string, Link>, redditUsername: string, link: Link, other: string)
    requires ToLower(other) != ToLower(redditUsername)
    ensures DiscordIdOf(links[ToLower(redditUsername) := link], other) == DiscordIdOf(links, other)
    ensures DiscordIdOf(links - {ToLower(redditUsername)}, other) == DiscordIdOf(links, other)
  {
  }

  /** After removing a name it is not found in any letter case. */
  lemma RemoveThenFind(links: map<string, Link>, redditUsername: string, lookedUp: string)
    requires ToLower(lookedUp) == ToLower(redditUsername)
    ensures DiscordIdOf(links - {ToLower(redditUsername)}, lookedUp) == None
  {
  }

  class LinkDatabase {
    var links: map<string, Link>
    var messages: map<int, MessageMapping>

    /** Opening the database keeps both tables as they are in the file. */
    constructor (existingLinks: map<string, Link>, existingMessages: map<int, MessageMapping>)
      ensures links == existingLinks && messages == existingMessages
    {
      links := existingLinks;
      messages := existingMessages;
    }

    /** add_link: INSERT OR REPLACE under the lower-cased name. */
    method AddLink(redditUsername: string, discordUserId: string, linkedBy: Option<string>) returns (ok: bool)
      modifies this
      ensures ok
      ensures links == old(links)[ToLower(redditUsername) := Link(discordUserId, linkedBy)]
      ensures messages == old(messages)
      ensures AllLowerCase(old(links)) ==> AllLowerCase(links)
    {
      var key := ToLower(redditUsername);
      assert ToLower(key) == key;
      links := links[key := Link(discordUserId, linkedBy)];
      ok := true;
    }

    /** get_discord_id. */
    method GetDiscordId(redditUsername: string) returns (r: Option<string>)
      ensures r == DiscordIdOf(links, redditUsername)
    {
      var key := ToLower(redditUsername);
      if key in links {
        r := Some(links[key].discordUserId);
      } else {
        r := None;
      }
    }

    /** get_reddit_usernames: every name linked to the id, each once, in the order the rows come. */
    method GetRedditUsernames(discordUserId: string) returns (names: seq<string>)
      ensures forall name :: name in names <==> name in LinkedNames(links, discordUserId)
      ensures forall i, j :: 0 <= i < j < |names| ==> names[i] != names[j]
    {
      names := [];
      var rows := links.Keys;
      while rows != {}
        invariant rows <= links.Keys
        invariant forall name :: name in names <==> name in LinkedNames(links, discordUserId) && name !in rows
        invariant forall i, j :: 0 <= i < j < |names| ==> names[i] != names[j]
        decreases rows
      {
        var name :| name in rows;
        if links[name].discordUserId == discordUserId {
          names := names + [name];
        }
        rows := rows - {name};
      }
    }

    /** remove_link: DELETE under the lower-cased name; True whether or not it was there. */
    method RemoveLink(redditUsername: string) returns (ok: bool)
      modifies this
      ensures ok
      ensures links == old(links) - {ToLower(redditUsername)}
      ensures messages == old(messages)
    {
      links := links - {ToLower(redditUsername)};
      ok := true;
    }

    /** store_message_mapping: INSERT OR REPLACE on the message id. */
    method StoreMessageMapping(messageId: int, channelId: int, redditUsernames: seq<string>)
      modifies this
      ensures messages == old(messages)[messageId := MessageMapping(channelId, redditUsernames)]
      ensures links == old(links)
    {
      messages := messages[messageId := MessageMapping(channelId, redditUsernames)];
    }

    /** get_message_mapping. */
    method GetMessageMapping(messageId: int) returns (r: Option<MessageMapping>)
      ensures messageId in messages ==> r == Some(messages[messageId])
      ensures messageId !in messages ==> r.None?
    {
      if messageId in messages {
        r := Some(messages[messageId]);
      } else {
        r := None;
      }
    }
  }
}
