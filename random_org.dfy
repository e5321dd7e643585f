/**
 * The Random.org client of Psyduck/random_org.py: round-robin rotation over
 * the API keys, per-key request counters zeroed once a day at the reset hour,
 * the retry loop of generate_random_numbers, and the verification payload.
 *
 * Time is an integer count of seconds since the Unix epoch in UTC; the HTTP
 * round trip of each attempt is an input (an `Attempt`).
 */
module RandomOrg {
  import opened Text

  /** Constants of Psyduck/config.py. */
  const ApiRequestLimit: nat := 4000
  const ApiRetryDelay: nat := 300
  const ResetHourUtc: nat := 9
  const SecondsPerDay: nat := 86400

  // ---------------------------------------------------------------------
  // The daily reset

  /** `now.replace(hour=9, minute=0, second=0, microsecond=0)`: 09:00:00 UTC of the day of `now`. */
  function ResetTime(now: int): (t: int)
    ensures t % SecondsPerDay == ResetHourUtc * 3600
    ensures t / SecondsPerDay == now / SecondsPerDay
  {
    now - now % SecondsPerDay + ResetHourUtc * 3600
  }

  /** The condition of _check_reset_needed. */
  predicate ResetDue(lastReset: int, now: int)
  {
    now >= ResetTime(now) && lastReset < ResetTime(now)
  }

  /** `{key: 0 for key in api_keys}`. */
  function ZeroCounts(keys: seq<string>): (m: map<string, nat>)
    ensures m.Keys == set k | k in keys
    ensures forall k :: k in m ==> m[k] == 0
  {
    map k | k in keys :: 0
  }

  /** The request counters and the time of the last reset. */
  datatype Counters = Counters(counts: map<string, nat>, lastReset: int)

  /** The state _check_reset_needed leaves behind when it runs at `now`. */
  function AfterCheck(keys: seq<string>, c: Counters, now: int): (r: Counters)
    ensures ResetDue(c.lastReset, now) ==> r == Counters(ZeroCounts(keys), now)
    ensures !ResetDue(c.lastReset, now) ==> r == c
  {
    if ResetDue(c.lastReset, now) then Counters(ZeroCounts(keys), now) else c
  }

  /** Days agree exactly when the reset instants agree. */
  lemma SameDayReset(a: int, b: int)
    requires a / SecondsPerDay == b / SecondsPerDay
    ensures ResetTime(a) == ResetTime(b)
  {
    assert a - a % SecondsPerDay == SecondsPerDay * (a / SecondsPerDay);
    assert b - b % SecondsPerDay == SecondsPerDay * (b / SecondsPerDay);
  }

  /** Once a check has run at or after the reset hour, a later check on the same day changes nothing. */
  lemma ResetOncePerDay(keys: seq<string>, c: Counters, now: int, later: int)
    requires now >= ResetTime(now) && now <= later && later / SecondsPerDay == now / SecondsPerDay
    ensures AfterCheck(keys, AfterCheck(keys, c, now), later) == AfterCheck(keys, c, now)
  {
    SameDayReset(now, later);
  }

  /** Before the reset hour the counters are never zeroed. */
  lemma NoResetBeforeHour(keys: seq<string>, c: Counters, now: int)
    requires now % SecondsPerDay < ResetHourUtc * 3600
    ensures AfterCheck(keys, c, now) == c
  {
  }

  /** A check on a later day than the last reset, at or after the reset hour, zeroes the counters. */
  lemma ResetOnNewDay(keys: seq<string>, c: Counters, now: int)
    requires c.lastReset / SecondsPerDay < now / SecondsPerDay
    requires now % SecondsPerDay >= ResetHourUtc * 3600
    ensures AfterCheck(keys, c, now) == Counters(ZeroCounts(keys), now)
  {
    var d := now / SecondsPerDay;
    assert ResetTime(now) == SecondsPerDay * d + ResetHourUtc * 3600;
    assert c.lastReset < SecondsPerDay * d;
  }

  // ---------------------------------------------------------------------
  // Counters

  /** `sum(request_counts.values())`, over the keys in the dictionary's order. */
  function SumOver(keys: seq<string>, m: map<string, nat>): nat
    requires forall k :: k in keys ==> k in m
    decreases |keys|
  {
    if keys == [] then 0 else m[keys[0]] + SumOver(keys[1..], m)
  }

  /** `request_counts[api_key] = request_counts.get(api_key, 0) + 1`. */
  function Bump(m: map<string, nat>, key: string): (r: map<string, nat>)
    ensures r.Keys == m.Keys + {key}
    ensures r[key] == (if key in m then m[key] else 0) + 1
    ensures forall k :: k in m && k != key ==> r[k] == m[k]
  {
    m[key := (if key in m then m[key] else 0) + 1]
  }

  lemma {:induction false} SumOverUntouched(keys: seq<string>, m: map<string, nat>, key: string, v: nat)
    requires forall k :: k in keys ==> k in m
    requires key !in keys
    ensures SumOver(keys, m[key := v]) == SumOver(keys, m)
    decreases |keys|
  {
    if keys != [] {
      assert forall k :: k in keys[1..] ==> k in keys;
      SumOverUntouched(keys[1..], m, key, v);
    }
  }

  /** Raising one counter of a key listed once raises the total by one. */
  lemma {:induction false} SumOverBump(keys: seq<string>, m: map<string, nat>, key: string)
    requires forall k :: k in keys ==> k in m
    requires forall i, j :: 0 <= i < j < |keys| ==> keys[i] != keys[j]
    requires key in keys
    ensures SumOver(keys, Bump(m, key)) == SumOver(keys, m) + 1
    decreases |keys|
  {
    var rest := keys[1..];
    assert forall k :: k in rest ==> k in keys;
    assert forall i, j :: 0 <= i < j < |rest| ==> rest[i] != rest[j] by {
      forall i, j | 0 <= i < j < |rest| ensures rest[i] != rest[j] {
        assert rest[i] == keys[i + 1] && rest[j] == keys[j + 1];
      }
    }
    if keys[0] == key {
      assert key !in rest by {
        forall i | 0 <= i < |rest| ensures rest[i] != key {
          assert rest[i] == keys[i + 1];
        }
      }
      SumOverUntouched(rest, m, key, m[key] + 1);
    } else {
      SumOverBump(rest, m, key);
    }
  }

  lemma {:induction false} SumOverZero(keys: seq<string>, all: seq<string>)
    requires forall k :: k in keys ==> k in all
    ensures SumOver(keys, ZeroCounts(all)) == 0
    decreases |keys|
  {
    if keys != [] {
      assert forall k :: k in keys[1..] ==> k in keys;
      SumOverZero(keys[1..], all);
    }
  }

  /** The total of get_total_requests: the sum over the distinct keys. */
  function Total(keys: seq<string>, m: map<string, nat>): nat
    requires forall k :: k in keys ==> k in m
  {
    SumOver(Dedup(keys), m)
  }

  /** Right after a reset the total is zero. */
  lemma TotalAfterReset(keys: seq<string>)
    ensures Total(keys, ZeroCounts(keys)) == 0
  {
    SumOverZero(Dedup(keys), keys);
  }

  /** A successful request raises the total by exactly one. */
  lemma TotalBump(keys: seq<string>, m: map<string, nat>, key: string)
    requires forall k :: k in keys ==> k in m
    requires key in keys
    ensures Total(keys, Bump(m, key)) == Total(keys, m) + 1
  {
    SumOverBump(Dedup(keys), m, key);
  }

  // ---------------------------------------------------------------------
  // Requests and replies

  datatype Params = Params(apiKey: string, n: int, min: int, max: int, replacement: bool)

  /** A JSON-RPC request object (section 4 of the JSON-RPC 2.0 specification). */
  datatype RpcRequest = RpcRequest(jsonrpc: string, methodName: string, params: Params, id: string)

  /** Section 4 of JSON-RPC 2.0: the version member is exactly "2.0" and method names starting with "rpc." are reserved. */
  predicate IsJsonRpcRequest(r: RpcRequest)
  {
    r.jsonrpc == "2.0" && r.methodName != [] && !(|r.methodName| >= 4 && r.methodName[..4] == "rpc.")
  }

  const DrawMethod: string := "generateSignedIntegers"

  /** The request one attempt sends: `count` distinct integers from 1 to `maxValue`. */
  function RequestFor(key: string, count: int, maxValue: int, id: string): (r: RpcRequest)
    ensures IsJsonRpcRequest(r) && r.methodName == DrawMethod && r.id == id
    ensures r.params == Params(key, count, 1, maxValue, false)
  {
    assert DrawMethod[..4] != "rpc." by { assert DrawMethod[0] == 'g'; }
    RpcRequest("2.0", DrawMethod, Params(key, count, 1, maxValue, false), id)
  }

  /** The `random` part of a signed reply. */
  datatype RandomData = RandomData(
    hashedApiKey: string, n: int, min: int, max: int, replacement: bool,
    base: int, data: seq<int>, completionTime: string, serialNumber: int)

  /** The `result` member of a reply. */
  datatype SignedResult = SignedResult(random: RandomData, signature: string)

  /** What the HTTP round trip of one attempt gave. `Answered(None)` is a reply that is empty or has no `result`. */
  datatype Reply =
    | Answered(result: Option<SignedResult>)
    | Timeout
    | ConnectionError
    | Failure(error: string)

  /** One attempt: the clock when it starts, the request id it draws, and its reply. */
  datatype Attempt = Attempt(now: int, id: string, reply: Reply)

  predicate Succeeded(a: Attempt)
  {
    a.reply.Answered? && a.reply.result.Some?
  }

  /** Index of the first successful attempt, or `|attempts|` when none succeeds. */
  function FirstSuccess(attempts: seq<Attempt>): (k: nat)
    ensures k <= |attempts| && (k < |attempts| ==> Succeeded(attempts[k]))
    ensures forall j :: 0 <= j < k ==> !Succeeded(attempts[j])
    decreases |attempts|
  {
    if attempts == [] then 0
    else if Succeeded(attempts[0]) then 0
    else 1 + FirstSuccess(attempts[1..])
  }

  /** How many attempts the loop makes: up to and including the first success. */
  function AttemptsUsed(attempts: seq<Attempt>): (n: nat)
    ensures n <= |attempts|
    ensures n == |attempts| || (n == FirstSuccess(attempts) + 1 && Succeeded(attempts[n - 1]))
  {
    if FirstSuccess(attempts) < |attempts| then FirstSuccess(attempts) + 1 else |attempts|
  }

  /** The result of the first successful attempt, or StillRetrying when none succeeds. */
  function OutcomeOf(attempts: seq<Attempt>): (r: DrawOutcome)
    ensures r.StillRetrying? <==> forall j :: 0 <= j < |attempts| ==> !Succeeded(attempts[j])
    ensures r.Drawn? ==>
      0 < r.attempts <= |attempts| && Succeeded(attempts[r.attempts - 1]) &&
      r.result == attempts[r.attempts - 1].reply.result.value
  {
    var k := FirstSuccess(attempts);
    if k < |attempts| then Drawn(attempts[k].reply.result.value, k + 1) else StillRetrying
  }

  /** The rotation index after `j` attempts from `start`: each attempt moves it on by one, wrapping at `n`. */
  function IndexAfter(start: nat, j: nat, n: nat): (k: nat)
    requires start < n
    ensures k < n
    decreases j
  {
    if j == 0 then start else (IndexAfter(start, j - 1, n) + 1) % n
  }

  /** After `j` attempts the index is `(start + j) mod n`. */
  lemma {:induction false} IndexAfterMod(start: nat, j: nat, n: nat)
    requires start < n
    ensures IndexAfter(start, j, n) == (start + j) % n
    decreases j
  {
    if j == 0 {
      ModUnique(start, n, 0, start);
    } else {
      IndexAfterMod(start, j - 1, n);
      ModSum(1, start + (j - 1), n);
    }
  }

  /** The key used by the `j`-th attempt when rotation starts at index `start`. */
  function KeyAt(keys: seq<string>, start: nat, j: nat): string
    requires start < |keys|
  {
    keys[IndexAfter(start, j, |keys|)]
  }

  /** Within any `|keys|` consecutive attempts every key is used. */
  lemma RotationCoversKeys(keys: seq<string>, start: nat, key: string)
    requires key in keys && start < |keys|
    ensures var j := (FirstIndex(keys, key) - start) % |keys|; j < |keys| && KeyAt(keys, start, j) == key
  {
    var n := |keys|;
    var f := FirstIndex(keys, key);
    var j := (f - start) % n;
    IndexAfterMod(start, j, n);
    ModSum(start, f - start, n);
    ModUnique(f, n, 0, f);
  }

  lemma MulBound(k: int, n: int)
    requires n > 0 && -n < k * n < n
    ensures k == 0
  {
  }

  lemma ModUnique(a: int, n: int, q: int, r: int)
    requires n > 0 && 0 <= r < n && a == q * n + r
    ensures a % n == r && a / n == q
  {
    var q0 := a / n;
    var r0 := a % n;
    assert a == q0 * n + r0;
    assert (q - q0) * n == r0 - r;
    MulBound(q - q0, n);
  }

  lemma ModSum(a: int, b: int, n: int)
    requires n > 0
    ensures (a + b % n) % n == (a + b) % n
  {
    var x := a + b;
    var y := a + b % n;
    assert b == (b / n) * n + b % n;
    assert x == y + (b / n) * n;
    var q := y / n;
    assert y == q * n + y % n;
    assert x == (q + b / n) * n + y % n;
    ModUnique(x, n, q + b / n, y % n);
  }

  /** The rotation repeats with period `|keys|`. */
  lemma RotationPeriodic(keys: seq<string>, start: nat, j: nat)
    requires start < |keys|
    ensures KeyAt(keys, start, j + |keys|) == KeyAt(keys, start, j)
  {
    IndexAfterMod(start, j, |keys|);
    IndexAfterMod(start, j + |keys|, |keys|);
    ModUnique(|keys|, |keys|, 1, 0);
    ModSum(start + j, |keys|, |keys|);
  }

  /** The requests a run of attempts sends, one per attempt, with the keys in rotation from index `start`. */
  function SentRequests(keys: seq<string>, start: nat, count: int, maxValue: int, attempts: seq<Attempt>): (r: seq<RpcRequest>)
    requires start < |keys|
    ensures |r| == |attempts|
    decreases |attempts|
  {
    if attempts == [] then []
    else
      var n := |attempts| - 1;
      SentRequests(keys, start, count, maxValue, attempts[..n]) + [RequestFor(KeyAt(keys, start, n), count, maxValue, attempts[n].id)]
  }

  /** The `j`-th request goes out with the `j`-th key of the rotation and asks for `count` numbers from 1 to `maxValue`. */
  lemma {:induction false} SentRequestsAt(keys: seq<string>, start: nat, count: int, maxValue: int, attempts: seq<Attempt>, j: nat)
    requires start < |keys| && j < |attempts|
    ensures SentRequests(keys, start, count, maxValue, attempts)[j] ==
      RequestFor(KeyAt(keys, start, j), count, maxValue, attempts[j].id)
    decreases |attempts|
  {
    var n := |attempts| - 1;
    if j < n {
      SentRequestsAt(keys, start, count, maxValue, attempts[..n], j);
    }
  }

  /** The counters after one attempt: the reset check, then one more request for `key` when the attempt succeeded. */
  function Step(keys: seq<string>, c: Counters, a: Attempt, key: string): (r: Counters)
    ensures var checked := AfterCheck(keys, c, a.now);
      r.lastReset == checked.lastReset &&
      (Succeeded(a) ==> r.counts == Bump(checked.counts, key)) &&
      (!Succeeded(a) ==> r.counts == checked.counts)
  {
    var checked := AfterCheck(keys, c, a.now);
    if Succeeded(a) then Counters(Bump(checked.counts, key), checked.lastReset) else checked
  }

  /** The counters after a run of attempts starting at rotation index `start`. */
  function Replay(keys: seq<string>, start: nat, c: Counters, attempts: seq<Attempt>): Counters
    requires start < |keys|
    decreases |attempts|
  {
    if attempts == [] then c
    else
      var n := |attempts| - 1;
      Step(keys, Replay(keys, start, c, attempts[..n]), attempts[n], KeyAt(keys, start, n))
  }

  lemma ReplayExtend(keys: seq<string>, start: nat, c: Counters, attempts: seq<Attempt>, i: nat)
    requires start < |keys| && i < |attempts|
    ensures Replay(keys, start, c, attempts[..i + 1]) ==
      Step(keys, Replay(keys, start, c, attempts[..i]), attempts[i], KeyAt(keys, start, i))
  {
    assert attempts[..i + 1][..i] == attempts[..i];
  }

  lemma SentExtend(keys: seq<string>, start: nat, count: int, maxValue: int, attempts: seq<Attempt>, i: nat)
    requires start < |keys| && i < |attempts|
    ensures SentRequests(keys, start, count, maxValue, attempts[..i + 1]) ==
      SentRequests(keys, start, count, maxValue, attempts[..i]) + [RequestFor(KeyAt(keys, start, i), count, maxValue, attempts[i].id)]
  {
    assert attempts[..i + 1][..i] == attempts[..i];
  }

  /** Failed attempts change no counter: only a reset can. */
  lemma {:induction false} FailuresKeepCounts(keys: seq<string>, start: nat, c: Counters, attempts: seq<Attempt>)
    requires start < |keys|
    requires forall j :: 0 <= j < |attempts| ==> !Succeeded(attempts[j])
    requires forall j :: 0 <= j < |attempts| ==> !ResetDue(c.lastReset, attempts[j].now)
    ensures Replay(keys, start, c, attempts) == c
    decreases |attempts|
  {
    if attempts != [] {
      var n := |attempts| - 1;
      FailuresKeepCounts(keys, start, c, attempts[..n]);
    }
  }

  /** A successful attempt without a reset raises the total by exactly one. */
  lemma SuccessRaisesTotal(keys: seq<string>, c: Counters, a: Attempt, key: string)
    requires forall k :: k in keys ==> k in c.counts
    requires key in keys && Succeeded(a) && !ResetDue(c.lastReset, a.now)
    ensures Total(keys, Step(keys, c, a, key).counts) == Total(keys, c.counts) + 1
  {
    TotalBump(keys, c.counts, key);
  }

  // ---------------------------------------------------------------------
  // The manager

  /** What generate_random_numbers returns; `StillRetrying` when the attempts given ran out. */
  datatype DrawOutcome = Drawn(result: SignedResult, attempts: nat) | StillRetrying

  class RandomOrgManager {
    var apiKeys: seq<string>
    var currentKeyIndex: nat
    var requestCounts: map<string, nat>
    var lastReset: int

    ghost predicate Valid()
      reads this
    {
      |apiKeys| > 0 && currentKeyIndex < |apiKeys| &&
      requestCounts.Keys == set k | k in apiKeys
    }

    /** The keys come in non-empty: bot.py exits when no key is configured. */
    constructor (keys: seq<string>, now: int)
      requires |keys| > 0
      ensures Valid()
      ensures apiKeys == keys && currentKeyIndex == 0
      ensures requestCounts == ZeroCounts(keys) && lastReset == now
    {
      apiKeys := keys;
      currentKeyIndex := 0;
      requestCounts := ZeroCounts(keys);
      lastReset := now;
    }

    /** _check_reset_needed at time `now`. */
    method CheckResetNeeded(now: int)
      requires Valid()
      modifies this
      ensures Valid()
      ensures apiKeys == old(apiKeys) && currentKeyIndex == old(currentKeyIndex)
      ensures Counters(requestCounts, lastReset) == AfterCheck(apiKeys, Counters(old(requestCounts), old(lastReset)), now)
    {
      var reset := ResetTime(now);
      if now >= reset && lastReset < reset {
        requestCounts := ZeroCounts(apiKeys);
        lastReset := now;
      }
    }

    /** _get_next_api_key: the key at the current index; the index moves on cyclically. */
    method NextApiKey(now: int) returns (key: string)
      requires Valid()
      modifies this
      ensures Valid()
      ensures key == old(apiKeys)[old(currentKeyIndex)]
      ensures apiKeys == old(apiKeys) && currentKeyIndex == (old(currentKeyIndex) + 1) % |apiKeys|
      ensures Counters(requestCounts, lastReset) == AfterCheck(apiKeys, Counters(old(requestCounts), old(lastReset)), now)
    {
      CheckResetNeeded(now);
      key := apiKeys[currentKeyIndex];
      currentKeyIndex := (currentKeyIndex + 1) % |apiKeys|;
    }

    /** get_total_requests: the requests made since the last reset, and the daily limit per key. */
    method GetTotalRequests(now: int) returns (total: nat, limit: nat)
      requires Valid()
      modifies this
      ensures Valid()
      ensures apiKeys == old(apiKeys) && currentKeyIndex == old(currentKeyIndex)
      ensures Counters(requestCounts, lastReset) == AfterCheck(apiKeys, Counters(old(requestCounts), old(lastReset)), now)
      ensures total == Total(apiKeys, requestCounts) && limit == ApiRequestLimit
    {
      CheckResetNeeded(now);
      total := SumOver(Dedup(apiKeys), requestCounts);
      limit := ApiRequestLimit;
    }

    /** One pass of the loop of generate_random_numbers: take the next key, send the request, count it when the reply has a result. */
    method TryOnce(a: Attempt, count: int, maxValue: int) returns (request: RpcRequest, success: bool)
      requires Valid()
      modifies this
      ensures Valid() && apiKeys == old(apiKeys)
      ensures success == Succeeded(a)
      ensures request == RequestFor(old(apiKeys)[old(currentKeyIndex)], count, maxValue, a.id)
      ensures currentKeyIndex == (old(currentKeyIndex) + 1) % |apiKeys|
      ensures Counters(requestCounts, lastReset) ==
        Step(apiKeys, Counters(old(requestCounts), old(lastReset)), a, old(apiKeys)[old(currentKeyIndex)])
    {
      var key := NextApiKey(a.now);
      request := RequestFor(key, count, maxValue, a.id);
      success := Succeeded(a);
      if success {
        requestCounts := Bump(requestCounts, key);
      }
    }

    /**
     * generate_random_numbers: one request per attempt, each with the next
     * key, until one reply carries a result; every failed attempt is followed
     * by a wait of ApiRetryDelay seconds.
     */
    method GenerateRandomNumbers(count: int, maxValue: int, attempts: seq<Attempt>)
      returns (outcome: DrawOutcome, sent: seq<RpcRequest>, waited: nat)
      requires Valid()
      modifies this
      ensures Valid() && apiKeys == old(apiKeys)
      ensures outcome == OutcomeOf(attempts) && |sent| == AttemptsUsed(attempts)
      ensures waited == ApiRetryDelay * FirstSuccess(attempts)
      ensures sent == SentRequests(apiKeys, old(currentKeyIndex), count, maxValue, attempts[..|sent|])
      ensures currentKeyIndex == IndexAfter(old(currentKeyIndex), |sent|, |apiKeys|)
      ensures Counters(requestCounts, lastReset) ==
        Replay(apiKeys, old(currentKeyIndex), Counters(old(requestCounts), old(lastReset)), attempts[..|sent|])
    {
      var start := currentKeyIndex;
      ghost var c0 := Counters(requestCounts, lastReset);
      var i := 0;
      sent := [];
      waited := 0;
      outcome := StillRetrying;
      while i < |attempts|
        invariant 0 <= i <= |attempts|
        invariant Valid() && apiKeys == old(apiKeys)
        invariant currentKeyIndex == IndexAfter(start, i, |apiKeys|)
        invariant sent == SentRequests(apiKeys, start, count, maxValue, attempts[..i])
        invariant i <= FirstSuccess(attempts)
        invariant waited == ApiRetryDelay * i
        invariant Counters(requestCounts, lastReset) == Replay(apiKeys, start, c0, attempts[..i])
        decreases |attempts| - i
      {
        var request, success := TryOnce(attempts[i], count, maxValue);
        assert request == RequestFor(KeyAt(apiKeys, start, i), count, maxValue, attempts[i].id);
        assert currentKeyIndex == IndexAfter(start, i + 1, |apiKeys|);
        sent := sent + [request];
        ReplayExtend(apiKeys, start, c0, attempts, i);
        SentExtend(apiKeys, start, count, maxValue, attempts, i);
        if success {
          outcome := Drawn(attempts[i].reply.result.value, i + 1);
          assert FirstSuccess(attempts) == i;
          break;
        }
        assert FirstSuccess(attempts) != i by { assert !Succeeded(attempts[i]); }
        waited := waited + ApiRetryDelay;
        i := i + 1;
      }
      if outcome.StillRetrying? {
        assert attempts[..i] == attempts;
        assert FirstSuccess(attempts) == |attempts|;
      }
    }
  }

  // ---------------------------------------------------------------------
  // format_verification_data: json.dumps(..., indent=2)

  /** The JSON values the payload holds. */
  datatype Json = JStr(s: string) | JInt(i: int) | JBool(b: bool) | JIntList(items: seq<int>)

  /** The payload's keys, in the order the program writes them. */
  const VerificationKeys: seq<string> := [
    "method", "hashedApiKey", "n", "min", "max", "replacement",
    "base", "data", "completionTime", "serialNumber"]

  function Keys(fields: seq<(string, Json)>): (r: seq<string>)
    ensures |r| == |fields| && forall i :: 0 <= i < |r| ==> r[i] == fields[i].0
    decreases |fields|
  {
    if fields == [] then [] else [fields[0].0] + Keys(fields[1..])
  }

  /** The dictionary format_verification_data dumps: the method name fixed, everything else taken from the reply's `random` part. */
  function VerificationFields(d: RandomData): (fields: seq<(string, Json)>)
    ensures Keys(fields) == VerificationKeys
    ensures fields[0].1 == JStr(DrawMethod)
    ensures fields[1].1 == JStr(d.hashedApiKey) && fields[2].1 == JInt(d.n)
    ensures fields[3].1 == JInt(d.min) && fields[4].1 == JInt(d.max) && fields[5].1 == JBool(d.replacement)
    ensures fields[6].1 == JInt(d.base) && fields[7].1 == JIntList(d.data)
    ensures fields[8].1 == JStr(d.completionTime) && fields[9].1 == JInt(d.serialNumber)
  {
    [("method", JStr(DrawMethod)),
     ("hashedApiKey", JStr(d.hashedApiKey)),
     ("n", JInt(d.n)),
     ("min", JInt(d.min)),
     ("max", JInt(d.max)),
     ("replacement", JBool(d.replacement)),
     ("base", JInt(d.base)),
     ("data", JIntList(d.data)),
     ("completionTime", JStr(d.completionTime)),
     ("serialNumber", JInt(d.serialNumber))]
  }

  const HexDigits: string := "0123456789abcdef"

  /** Four lower-case hexadecimal digits of a 16-bit unit. */
  function Hex4(u: nat): (r: string)
    requires u < 0x10000
    ensures |r| == 4 && forall i :: 0 <= i < 4 ==> r[i] in HexDigits
  {
    [HexDigits[u / 4096], HexDigits[u / 256 % 16], HexDigits[u / 16 % 16], HexDigits[u % 16]]
  }

  /** A character json.dumps writes as itself: printable ASCII other than the quote and the backslash. */
  predicate IsPlainChar(c: char)
  {
    ' ' <= c <= '~' && c != '"' && c != '\\'
  }

  /** The two-character escapes json.dumps uses: the letter after the backslash. */
  function ShortEscape(c: char): (r: Option<char>)
    ensures r.Some? ==> r.value in "\"\\/bfnrt"
  {
    if c == '"' then Some('"')
    else if c == '\\' then Some('\\')
    else if c == '\n' then Some('n')
    else if c == '\r' then Some('r')
    else if c == '\t' then Some('t')
    else if c == '\U{8}' then Some('b')
    else if c == '\U{C}' then Some('f')
    else None
  }

  /** `\\u` and four hexadecimal digits. */
  function UnitEscape(u: nat): string
    requires u < 0x10000
  {
    "\\u" + Hex4(u)
  }

  /** The UTF-16 surrogate pair of a character above the Basic Multilingual Plane. */
  function HighSurrogate(c: char): (u: nat)
    requires (c as int) >= 0x10000
    ensures 0xD800 <= u < 0xDC00
  {
    0xD800 + ((c as int) - 0x10000) / 1024
  }

  function LowSurrogate(c: char): (u: nat)
    requires (c as int) >= 0x10000
    ensures 0xDC00 <= u < 0xE000
  {
    0xDC00 + ((c as int) - 0x10000) % 1024
  }

  /** `\\uXXXX`, or a surrogate pair of them above the Basic Multilingual Plane. */
  function UnicodeEscape(c: char): string
  {
    if (c as int) < 0x10000 then UnitEscape(c as int)
    else UnitEscape(HighSurrogate(c)) + UnitEscape(LowSurrogate(c))
  }

  /** How json.dumps (with ensure_ascii) writes one character inside a string. */
  function EscapeChar(c: char): string
  {
    match ShortEscape(c)
    case Some(e) => ['\\', e]
    case None => if IsPlainChar(c) then [c] else UnicodeEscape(c)
  }

  function Escape(s: string): string
    decreases |s|
  {
    if s == [] then [] else EscapeChar(s[0]) + Escape(s[1..])
  }

  /** A JSON string token: a quote, the escaped text, a quote. */
  function Quote(s: string): string
  {
    "\"" + Escape(s) + "\""
  }

  /** The body of a JSON string (section 7 of RFC 8259): unescaped printable characters, two-character escapes and \\u escapes. */
  predicate IsStringBody(t: string)
    decreases |t|
  {
    if t == [] then true
    else if IsPlainChar(t[0]) then IsStringBody(t[1..])
    else if t[0] != '\\' || |t| < 2 then false
    else if t[1] in "\"\\/bfnrt" then IsStringBody(t[2..])
    else t[1] == 'u' && |t| >= 6 && (forall i :: 2 <= i < 6 ==> t[i] in HexDigits) && IsStringBody(t[6..])
  }

  lemma StringBodyConcatPlain(c: char, rest: string)
    requires IsPlainChar(c) && IsStringBody(rest)
    ensures IsStringBody([c] + rest)
  {
    assert ([c] + rest)[1..] == rest;
  }

  lemma StringBodyConcatShort(c: char, rest: string)
    requires c in "\"\\/bfnrt" && IsStringBody(rest)
    ensures IsStringBody(['\\', c] + rest)
  {
    assert (['\\', c] + rest)[2..] == rest;
  }

  lemma StringBodyConcatUnicode(u: nat, rest: string)
    requires u < 0x10000 && IsStringBody(rest)
    ensures IsStringBody(UnitEscape(u) + rest)
  {
    var h := Hex4(u);
    var t := UnitEscape(u) + rest;
    assert t[6..] == rest;
    assert forall i :: 2 <= i < 6 ==> t[i] == h[i - 2];
  }

  lemma PairBody(u1: nat, u2: nat, rest: string)
    requires u1 < 0x10000 && u2 < 0x10000 && IsStringBody(rest)
    ensures IsStringBody(UnitEscape(u1) + UnitEscape(u2) + rest)
  {
    StringBodyConcatUnicode(u2, rest);
    StringBodyConcatUnicode(u1, UnitEscape(u2) + rest);
    assert UnitEscape(u1) + (UnitEscape(u2) + rest) == UnitEscape(u1) + UnitEscape(u2) + rest;
  }

  lemma UnicodeEscapeBody(c: char, rest: string)
    requires IsStringBody(rest)
    ensures IsStringBody(UnicodeEscape(c) + rest)
  {
    if (c as int) < 0x10000 {
      StringBodyConcatUnicode(c as int, rest);
    } else {
      PairBody(HighSurrogate(c), LowSurrogate(c), rest);
    }
  }

  /** Every character's escape, put in front of a string body, is again a string body. */
  lemma EscapeCharBody(c: char, rest: string)
    requires IsStringBody(rest)
    ensures IsStringBody(EscapeChar(c) + rest)
  {
    match ShortEscape(c)
    case Some(e) => StringBodyConcatShort(e, rest);
    case None =>
      if IsPlainChar(c) { StringBodyConcatPlain(c, rest); } else { UnicodeEscapeBody(c, rest); }
  }

  /** json.dumps always writes a well-formed string token: the escaped text is a JSON string body. */
  lemma {:induction false} EscapeIsStringBody(s: string)
    ensures IsStringBody(Escape(s))
    decreases |s|
  {
    if s != [] {
      EscapeIsStringBody(s[1..]);
      EscapeCharBody(s[0], Escape(s[1..]));
    }
  }

  /** Text of plain characters is written unchanged. */
  lemma {:induction false} EscapePlain(s: string)
    requires forall i :: 0 <= i < |s| ==> IsPlainChar(s[i])
    ensures Escape(s) == s
    decreases |s|
  {
    if s != [] {
      EscapePlain(s[1..]);
      assert s == [s[0]] + s[1..];
    }
  }

  function RenderItem(x: int): string
  {
    "    " + IntToString(x)
  }

  /** A value at the first level of an object dumped with indent 2. */
  function RenderValue(v: Json): string
  {
    match v
    case JStr(s) => Quote(s)
    case JInt(i) => IntToString(i)
    case JBool(b) => if b then "true" else "false"
    case JIntList(items) =>
      if items == [] then "[]" else "[\n" + Join(MapSeq(RenderItem, items), ",\n") + "\n  ]"
  }

  function RenderField(f: (string, Json)): string
  {
    "  " + Quote(f.0) + ": " + RenderValue(f.1)
  }

  /** The members of an object, each on its own line, separated by "," at the line's end. */
  function RenderMembers(fields: seq<(string, Json)>): string
    decreases |fields|
  {
    if |fields| == 0 then []
    else if |fields| == 1 then RenderField(fields[0])
    else RenderField(fields[0]) + ",\n" + RenderMembers(fields[1..])
  }

  /** An object dumped with indent 2. */
  function RenderObject(fields: seq<(string, Json)>): string
  {
    if fields == [] then "{}" else "{\n" + RenderMembers(fields) + "\n}"
  }

  /** format_verification_data. */
  function FormatVerificationData(d: RandomData): string
  {
    RenderObject(VerificationFields(d))
  }

  predicate AllPlain(s: string) { forall i :: 0 <= i < |s| ==> IsPlainChar(s[i]) }

  /** A member whose key and string value need no escaping: both appear verbatim between quotes. */
  function PlainMember(key: string, value: string): string
  {
    "  \"" + key + "\": \"" + value + "\""
  }

  lemma PlainMemberRendered(key: string, value: string)
    requires AllPlain(key) && AllPlain(value)
    ensures RenderField((key, JStr(value))) == PlainMember(key, value)
  {
    EscapePlain(key);
    EscapePlain(value);
    assert "  " + ("\"" + key + "\"") + ": " + ("\"" + value + "\"") == "  \"" + key + "\": \"" + value + "\"";
  }

  /** The first member of the payload, as rendered. */
  const MethodMember: string := PlainMember("method", DrawMethod)

  lemma MethodMemberRendered()
    ensures RenderField(("method", JStr(DrawMethod))) == MethodMember
  {
    assert AllPlain("method") && AllPlain(DrawMethod);
    PlainMemberRendered("method", DrawMethod);
  }

  lemma Regroup(a: string, b: string, c: string, d: string, e: string)
    ensures a + (b + c + d) + e == (a + b + c) + d + e
  {
  }

  lemma Ends(h: string, m: string, t: string)
    ensures (h + m + t)[..|h|] == h && (h + m + t)[|h| + |m|..] == t
  {
  }

  // ---------------------------------------------------------------------
  // With ensure_ascii, the payload is plain ASCII

  lemma UnitEscapeAscii(u: nat)
    requires u < 0x10000
    ensures IsAscii(UnitEscape(u))
  {
    var h := Hex4(u);
    forall i | 0 <= i < 4 ensures (h[i] as int) < 128 {
      var k :| 0 <= k < |HexDigits| && HexDigits[k] == h[i];
    }
    AsciiConcat("\\u", h);
  }

  lemma EscapeCharAscii(c: char)
    ensures IsAscii(EscapeChar(c))
  {
    if ShortEscape(c).None? && !IsPlainChar(c) {
      if (c as int) < 0x10000 {
        UnitEscapeAscii(c as int);
      } else {
        UnitEscapeAscii(HighSurrogate(c));
        UnitEscapeAscii(LowSurrogate(c));
        AsciiConcat(UnitEscape(HighSurrogate(c)), UnitEscape(LowSurrogate(c)));
      }
    }
  }

  /** json.dumps with ensure_ascii writes every string as ASCII. */
  lemma {:induction false} EscapeAscii(s: string)
    ensures IsAscii(Escape(s))
    decreases |s|
  {
    if s != [] {
      EscapeCharAscii(s[0]);
      EscapeAscii(s[1..]);
      AsciiConcat(EscapeChar(s[0]), Escape(s[1..]));
    }
  }

  lemma QuoteAscii(s: string)
    ensures IsAscii(Quote(s))
  {
    EscapeAscii(s);
    AsciiConcat("\"", Escape(s));
    AsciiConcat("\"" + Escape(s), "\"");
  }

  lemma IntToStringAscii(i: int)
    ensures IsAscii(IntToString(i))
  {
    if i < 0 {
      AsciiConcat("-", NatToString(-i));
    }
  }

  lemma {:induction false} JoinAscii(parts: seq<string>, sep: string)
    requires forall k :: 0 <= k < |parts| ==> IsAscii(parts[k])
    requires IsAscii(sep)
    ensures IsAscii(Join(parts, sep))
    decreases |parts|
  {
    if |parts| > 1 {
      JoinAscii(parts[1..], sep);
      AsciiConcat(parts[0], sep);
      AsciiConcat(parts[0] + sep, Join(parts[1..], sep));
    }
  }

  lemma RenderValueAscii(v: Json)
    ensures IsAscii(RenderValue(v))
  {
    match v
    case JStr(s) => QuoteAscii(s);
    case JInt(i) => IntToStringAscii(i);
    case JBool(b) =>
    case JIntList(items) => if items != [] { ItemsAscii(items); }
  }

  lemma ItemsAscii(items: seq<int>)
    requires items != []
    ensures IsAscii("[\n" + Join(MapSeq(RenderItem, items), ",\n") + "\n  ]")
  {
    var parts := MapSeq(RenderItem, items);
    forall k | 0 <= k < |parts| ensures IsAscii(parts[k]) {
      IntToStringAscii(items[k]);
      AsciiConcat("    ", IntToString(items[k]));
    }
    JoinAscii(parts, ",\n");
    var j := Join(parts, ",\n");
    AsciiConcat("[\n", j);
    AsciiConcat("[\n" + j, "\n  ]");
  }

  lemma RenderFieldAscii(f: (string, Json))
    ensures IsAscii(RenderField(f))
  {
    QuoteAscii(f.0);
    RenderValueAscii(f.1);
    AsciiConcat("  ", Quote(f.0));
    AsciiConcat("  " + Quote(f.0), ": ");
    AsciiConcat("  " + Quote(f.0) + ": ", RenderValue(f.1));
  }

  lemma {:induction false} RenderMembersAscii(fields: seq<(string, Json)>)
    ensures IsAscii(RenderMembers(fields))
    decreases |fields|
  {
    if |fields| > 0 {
      RenderFieldAscii(fields[0]);
      if |fields| > 1 {
        RenderMembersAscii(fields[1..]);
        AsciiConcat(RenderField(fields[0]), ",\n");
        AsciiConcat(RenderField(fields[0]) + ",\n", RenderMembers(fields[1..]));
      }
    }
  }

  lemma RenderObjectAscii(fields: seq<(string, Json)>)
    ensures IsAscii(RenderObject(fields))
  {
    if fields != [] {
      var m := RenderMembers(fields);
      RenderMembersAscii(fields);
      AsciiConcat("{\n", m);
      AsciiConcat("{\n" + m, "\n}");
    }
  }

  /** format_verification_data writes only ASCII characters, whatever the reply holds. */
  lemma PayloadAscii(d: RandomData)
    ensures IsAscii(FormatVerificationData(d))
  {
    RenderObjectAscii(VerificationFields(d));
  }

  /** The payload opens with the fixed method on its own first line and closes the object on its last. */
  lemma PayloadFraming(d: RandomData)
    ensures var p := FormatVerificationData(d);
      var head := "{\n" + MethodMember + ",\n";
      |head| + 2 <= |p| && p[..|head|] == head && p[|p| - 2..] == "\n}"
  {
    var fields := VerificationFields(d);
    var rest := RenderMembers(fields[1..]);
    MethodMemberRendered();
    assert RenderMembers(fields) == MethodMember + ",\n" + rest;
    Regroup("{\n", MethodMember, ",\n", rest, "\n}");
    Ends("{\n" + MethodMember + ",\n", rest, "\n}");
  }
}