/**
 * The Redis-backed MatchmakingQueue and RateLimiter of src/lib/redis.ts.
 * The Redis keyspace each one uses is a field: lists keyed by name for
 * the queue (index 0 is the head, where LPUSH adds; RPOP takes from the
 * tail) and sorted sets of timestamps for the limiter, each kept as a
 * strictly ascending sequence because every member is its own score.
 * As in Redis, a key whose list or set becomes empty no longer exists.
 * Each method is one Redis command or one Lua script, so it is atomic.
 */
module Redis {
  import opened Wrappers
  import opened Decimal

  /** The JSON payload joinQueue stores; it is parsed back unchanged. */
  datatype QueueEntry = QueueEntry(userId: string, entryAmount: int, leverage: int, timestamp: int)

  datatype MatchedPair = MatchedPair(player1: QueueEntry, player2: QueueEntry)

  /** `queue:${entryAmount}` */
  function QueueKey(entryAmount: int): string {
    "queue:" + IntToString(entryAmount)
  }

  /** Different stakes never share a pool. */
  lemma QueueKeyInjective(a: int, b: int)
    requires QueueKey(a) == QueueKey(b)
    ensures a == b
  {
    var prefix := "queue:";
    assert QueueKey(a)[|prefix|..] == IntToString(a);
    assert QueueKey(b)[|prefix|..] == IntToString(b);
    IntToStringInjective(a, b);
  }

  /** The position of the first entry, from the head, belonging to `userId`. */
  function FirstIndexOf(p: seq<QueueEntry>, userId: string): (r: Option<nat>)
    ensures r.Some? ==> r.value < |p| && p[r.value].userId == userId
    ensures r.Some? ==> forall j | 0 <= j < r.value :: p[j].userId != userId
    ensures r.None? ==> forall j | 0 <= j < |p| :: p[j].userId != userId
  {
    if p == [] then None
    else if p[0].userId == userId then Some(0)
    else match FirstIndexOf(p[1..], userId)
      case None => None
      case Some(i) => Some(i + 1)
  }

  /** The pool reached from `p` as the entries of `es` join in order. */
  function JoinAll(p: seq<QueueEntry>, es: seq<QueueEntry>): (q: seq<QueueEntry>)
    ensures |q| == |p| + |es|
    decreases |es|
  {
    if es == [] then p else JoinAll([es[0]] + p, es[1..])
  }

  function Reverse<T>(s: seq<T>): (r: seq<T>)
    ensures |r| == |s|
  {
    if s == [] then [] else Reverse(s[1..]) + [s[0]]
  }

  /** Joining prepends: the pool keeps what it held, behind the joiners newest first. */
  lemma {:induction false} JoinAllIsReverse(p: seq<QueueEntry>, es: seq<QueueEntry>)
    ensures JoinAll(p, es) == Reverse(es) + p
    decreases |es|
  {
    if es != [] {
      JoinAllIsReverse([es[0]] + p, es[1..]);
      assert Reverse(es[1..]) + ([es[0]] + p) == (Reverse(es[1..]) + [es[0]]) + p;
    }
  }

  /**
   * First in, first out: after entries join an empty pool in order, the
   * tail holds the two earliest, oldest last, and what remains once they
   * are popped is the pool the later joiners alone would have made.
   */
  lemma OldestTwoAtTail(es: seq<QueueEntry>)
    requires |es| >= 2
    ensures var q := JoinAll([], es);
      && q[|q| - 1] == es[0] && q[|q| - 2] == es[1]
      && q[..|q| - 2] == JoinAll([], es[2..])
  {
    JoinAllIsReverse([], es);
    JoinAllIsReverse([], es[2..]);
    assert es[1..][1..] == es[2..];
    assert Reverse(es) == Reverse(es[2..]) + [es[1]] + [es[0]];
  }

  class MatchmakingQueue {
    /** The Redis lists, by key; a key that is absent holds the empty list. */
    var lists: map<string, seq<QueueEntry>>

    /** No key holds an empty list. */
    ghost predicate Valid()
      reads this
    {
      forall k | k in lists :: lists[k] != []
    }

    /** LRANGE key 0 -1 */
    function Pool(key: string): seq<QueueEntry>
      reads this
    {
      if key in lists then lists[key] else []
    }

    constructor()
      ensures Valid() && lists == map[]
    {
      lists := map[];
    }

    /** Writes `p` back under `key`, deleting the key when `p` is empty. */
    method Store(key: string, p: seq<QueueEntry>)
      requires Valid()
      modifies this
      ensures Valid()
      ensures lists == if p == [] then old(lists) - {key} else old(lists)[key := p]
      ensures Pool(key) == p
      ensures forall k | k != key :: Pool(k) == old(Pool(k))
    {
      if p == [] {
        lists := lists - {key};
      } else {
        lists := lists[key := p];
      }
    }

    /** LPUSH of the payload; `now` stands for Date.now(). */
    method JoinQueue(entryAmount: int, userId: string, leverage: int, now: int)
      requires Valid()
      modifies this
      ensures Valid()
      ensures Pool(QueueKey(entryAmount)) == [QueueEntry(userId, entryAmount, leverage, now)] + old(Pool(QueueKey(entryAmount)))
      ensures forall k | k != QueueKey(entryAmount) :: Pool(k) == old(Pool(k))
    {
      var key := QueueKey(entryAmount);
      var payload := QueueEntry(userId, entryAmount, leverage, now);
      Store(key, [payload] + Pool(key));
    }

    /** Scans the pool from the head and removes the first entry of `userId` (LREM count 1 of that payload). */
    method LeaveQueue(entryAmount: int, userId: string) returns (removed: bool)
      requires Valid()
      modifies this
      ensures Valid()
      ensures var p := old(Pool(QueueKey(entryAmount)));
        && (removed <==> FirstIndexOf(p, userId).Some?)
        && (removed ==> var i := FirstIndexOf(p, userId).value;
              Pool(QueueKey(entryAmount)) == p[..i] + p[i + 1..])
        && (!removed ==> Pool(QueueKey(entryAmount)) == p)
      ensures forall k | k != QueueKey(entryAmount) :: Pool(k) == old(Pool(k))
    {
      var key := QueueKey(entryAmount);
      var queueLength := |Pool(key)|;
      if queueLength == 0 {
        return false;
      }
      var items := Pool(key);
      var i := 0;
      while i < |items|
        invariant 0 <= i <= |items|
        invariant forall j | 0 <= j < i :: items[j].userId != userId
        invariant lists == old(lists)
      {
        if items[i].userId == userId {
          assert FirstIndexOf(items, userId) == Some(i);
          Store(key, items[..i] + items[i + 1..]);
          return true;
        }
        i := i + 1;
      }
      return false;
    }

    /** The Lua script: below two entries nothing happens; otherwise RPOP twice. */
    method FindMatch(entryAmount: int) returns (r: Option<MatchedPair>)
      requires Valid()
      modifies this
      ensures Valid()
      ensures var p := old(Pool(QueueKey(entryAmount)));
        && (r.None? <==> |p| < 2)
        && (r.None? ==> Pool(QueueKey(entryAmount)) == p)
        && (r.Some? ==> r.value == MatchedPair(p[|p| - 1], p[|p| - 2])
                        && Pool(QueueKey(entryAmount)) == p[..|p| - 2])
      ensures forall k | k != QueueKey(entryAmount) :: Pool(k) == old(Pool(k))
    {
      var key := QueueKey(entryAmount);
      var p := Pool(key);
      if |p| < 2 {
        return None;
      }
      var player1 := p[|p| - 1];
      var player2 := p[|p| - 2];
      Store(key, p[..|p| - 2]);
      return Some(MatchedPair(player1, player2));
    }

    /** LLEN */
    method GetQueueLength(entryAmount: int) returns (n: int)
      ensures n == |Pool(QueueKey(entryAmount))|
    {
      n := |Pool(QueueKey(entryAmount))|;
    }

    /** DEL */
    method ClearQueue(entryAmount: int)
      requires Valid()
      modifies this
      ensures Valid()
      ensures QueueKey(entryAmount) !in lists && Pool(QueueKey(entryAmount)) == []
      ensures forall k | k != QueueKey(entryAmount) :: Pool(k) == old(Pool(k))
    {
      Store(QueueKey(entryAmount), []);
    }
  }

  /** Scores of a sorted set whose members are their own scores: no score twice. */
  predicate Ascending(s: seq<int>) {
    forall i, j | 0 <= i < j < |s| :: s[i] < s[j]
  }

  /** Scores of a sorted set whose members are distinct from their scores: a score may repeat. */
  predicate Sorted(s: seq<int>) {
    forall i, j | 0 <= i < j < |s| :: s[i] <= s[j]
  }

  /** An ascending sequence stays ascending under a smaller head. */
  lemma ConsAscending(a: int, s: seq<int>)
    requires Ascending(s)
    requires forall x | x in s :: a < x
    ensures Ascending([a] + s)
  {
    var r := [a] + s;
    forall i, j | 0 <= i < j < |r|
      ensures r[i] < r[j]
    {
      assert r[j] == s[j - 1] && s[j - 1] in s;
      if i > 0 {
        assert r[i] == s[i - 1];
      }
    }
  }

  lemma TailAbove(s: seq<int>)
    requires Ascending(s) && s != []
    ensures Ascending(s[1..])
    ensures forall x | x in s[1..] :: s[0] < x
  {
    forall x | x in s[1..]
      ensures s[0] < x
    {
      var k :| 0 <= k < |s[1..]| && s[1..][k] == x;
      assert s[k + 1] == x;
    }
  }

  /** A sorted sequence stays sorted under a head no larger than its elements. */
  lemma ConsSorted(a: int, s: seq<int>)
    requires Sorted(s)
    requires forall x | x in s :: a <= x
    ensures Sorted([a] + s)
  {
    var r := [a] + s;
    forall i, j | 0 <= i < j < |r|
      ensures r[i] <= r[j]
    {
      assert r[j] == s[j - 1] && s[j - 1] in s;
      if i > 0 {
        assert r[i] == s[i - 1];
      }
    }
  }

  lemma TailSorted(s: seq<int>)
    requires Sorted(s) && s != []
    ensures Sorted(s[1..])
    ensures forall x | x in s[1..] :: s[0] <= x
  {
    forall x | x in s[1..]
      ensures s[0] <= x
    {
      var k :| 0 <= k < |s[1..]| && s[1..][k] == x;
      assert s[k + 1] == x;
    }
  }

  /** `rate_limit:${action}:${userId}` */
  function RateLimitKey(action: string, userId: string): string {
    "rate_limit:" + action + ":" + userId
  }

  /** ZREMRANGEBYSCORE key 0 windowStart: drops every score in [0, windowStart]. */
  function Prune(s: seq<int>, windowStart: int): (kept: seq<int>)
    ensures forall x :: x in kept <==> x in s && !(0 <= x <= windowStart)
    ensures Ascending(s) ==> Ascending(kept)
    ensures Sorted(s) ==> Sorted(kept)
    ensures |kept| <= |s|
  {
    if s == [] then []
    else
      var rest := Prune(s[1..], windowStart);
      assert forall x :: x in s <==> x == s[0] || x in s[1..];
      if 0 <= s[0] <= windowStart then rest
      else
        assert Ascending(s) ==> Ascending([s[0]] + rest) by {
          if Ascending(s) {
            TailAbove(s);
            ConsAscending(s[0], rest);
          }
        }
        assert Sorted(s) ==> Sorted([s[0]] + rest) by {
          if Sorted(s) {
            TailSorted(s);
            ConsSorted(s[0], rest);
          }
        }
        [s[0]] + rest
  }

  /** Pruning removes every copy of a score in [0, windowStart] and keeps every copy of any other score. */
  lemma {:induction false} PruneCounts(s: seq<int>, windowStart: int)
    ensures forall x :: multiset(Prune(s, windowStart))[x] == if 0 <= x <= windowStart then 0 else multiset(s)[x]
  {
    if s != [] {
      PruneCounts(s[1..], windowStart);
      assert s == [s[0]] + s[1..];
      assert multiset(s) == multiset{s[0]} + multiset(s[1..]);
    }
  }

  /** Scores after the window start all survive the pruning. */
  lemma {:induction false} PruneKeepsRecent(s: seq<int>, windowStart: int)
    requires forall x | x in s :: windowStart < x
    ensures Prune(s, windowStart) == s
  {
    if s != [] {
      assert s[0] in s && forall x | x in s[1..] :: x in s;
      PruneKeepsRecent(s[1..], windowStart);
      assert Prune(s, windowStart) == [s[0]] + Prune(s[1..], windowStart);
      assert [s[0]] + s[1..] == s;
    }
  }

  /** ZADD key t t: the member goes in at its score's place; an existing member stays once. */
  function Insert(s: seq<int>, t: int): (r: seq<int>)
    requires Ascending(s)
    ensures Ascending(r)
    ensures forall x :: x in r <==> x in s || x == t
    ensures |r| == if t in s then |s| else |s| + 1
  {
    if s == [] then [t]
    else if t < s[0] then TailAbove(s); ConsAscending(t, s); [t] + s
    else if t == s[0] then s
    else
      TailAbove(s);
      var rest := Insert(s[1..], t);
      assert forall x :: x in s <==> x == s[0] || x in s[1..];
      ConsAscending(s[0], rest);
      [s[0]] + rest
  }

  /** ZADD of a new member with score t: it goes in behind every score up to t, and the set grows by one. */
  function InsertScore(s: seq<int>, t: int): (r: seq<int>)
    requires Sorted(s)
    ensures Sorted(r)
    ensures forall x :: x in r <==> x in s || x == t
    ensures multiset(r) == multiset(s) + multiset{t}
    ensures |r| == |s| + 1
  {
    if s == [] then [t]
    else if t < s[0] then TailSorted(s); ConsSorted(t, s); [t] + s
    else
      TailSorted(s);
      var rest := InsertScore(s[1..], t);
      assert forall x :: x in s <==> x == s[0] || x in s[1..];
      assert multiset(s) == multiset{s[0]} + multiset(s[1..]) by {
        assert s == [s[0]] + s[1..];
      }
      ConsSorted(s[0], rest);
      [s[0]] + rest
  }

  datatype RateLimitResult = RateLimitResult(allowed: bool, remaining: int, resetTime: int)

  /**
   * The script's reply once the set has been pruned to `kept`: admitted
   * exactly when fewer than `limit` timestamps remain; a refusal resets
   * when the oldest remaining timestamp leaves the window.
   */
  function Reply(kept: seq<int>, limit: int, windowMs: int, now: int): (r: RateLimitResult)
    requires Sorted(kept)
    ensures r.allowed <==> |kept| < limit
    ensures r.allowed ==> r.remaining == limit - |kept| - 1 && r.remaining >= 0 && r.resetTime == now + windowMs
    ensures !r.allowed ==> r.remaining == 0
    ensures !r.allowed && kept == [] ==> r.resetTime == now + windowMs
    ensures !r.allowed && kept != [] ==>
      && r.resetTime - windowMs in kept
      && forall x | x in kept :: r.resetTime <= x + windowMs
  {
    if |kept| < limit then RateLimitResult(true, limit - |kept| - 1, now + windowMs)
    else
      assert kept != [] ==> kept[0] in kept;
      RateLimitResult(false, 0, if kept == [] then now + windowMs else kept[0] + windowMs)
  }

  /** The script's reply and the set it leaves behind. */
  datatype RateStep = RateStep(result: RateLimitResult, window: seq<int>)

  /**
   * The Lua script of checkRateLimit as written: the member it adds is the
   * timestamp itself, so a second call in the same millisecond is admitted
   * without growing the set.
   */
  function RateLimitStep(window: seq<int>, limit: int, windowMs: int, now: int): (step: RateStep)
    requires Ascending(window)
    ensures Ascending(step.window)
    ensures var kept := Prune(window, now - windowMs);
      && step.result == Reply(kept, limit, windowMs, now)
      && (forall x :: x in step.window <==> x in kept || (step.result.allowed && x == now))
      && |step.window| == if step.result.allowed && now !in kept then |kept| + 1 else |kept|
  {
    var kept := Prune(window, now - windowMs);
    var r := Reply(kept, limit, windowMs, now);
    if r.allowed then RateStep(r, Insert(kept, now)) else RateStep(r, kept)
  }

  /**
   * The script with a member of its own for every call, scored by its
   * timestamp: every admitted call adds exactly one entry.
   */
  function DistinctRateLimitStep(window: seq<int>, limit: int, windowMs: int, now: int): (step: RateStep)
    requires Sorted(window)
    ensures Sorted(step.window)
    ensures var kept := Prune(window, now - windowMs);
      && step.result == Reply(kept, limit, windowMs, now)
      && (forall x :: x in step.window <==> x in kept || (step.result.allowed && x == now))
      && |step.window| == if step.result.allowed then |kept| + 1 else |kept|
    ensures multiset(step.window) ==
      multiset(Prune(window, now - windowMs)) + if step.result.allowed then multiset{now} else multiset{}
  {
    var kept := Prune(window, now - windowMs);
    var r := Reply(kept, limit, windowMs, now);
    if r.allowed then RateStep(r, InsertScore(kept, now)) else RateStep(r, kept)
  }

  /** How many of the calls at `times`, made in order on one key, the script as written admits. */
  function AdmittedCalls(window: seq<int>, times: seq<int>, limit: int, windowMs: int): nat
    requires Ascending(window)
    decreases |times|
  {
    if times == [] then 0
    else
      var step := RateLimitStep(window, limit, windowMs, times[0]);
      (if step.result.allowed then 1 else 0) + AdmittedCalls(step.window, times[1..], limit, windowMs)
  }

  /** How many of the calls at `times`, made in order on one key, the distinct-member script admits. */
  function DistinctAdmittedCalls(window: seq<int>, times: seq<int>, limit: int, windowMs: int): nat
    requires Sorted(window)
    decreases |times|
  {
    if times == [] then 0
    else
      var step := DistinctRateLimitStep(window, limit, windowMs, times[0]);
      (if step.result.allowed then 1 else 0) + DistinctAdmittedCalls(step.window, times[1..], limit, windowMs)
  }

  /**
   * Three calls in one millisecond, all inside one window, under a limit
   * of two: the script as written admits all three.
   */
  lemma SameMillisecondBurstOverAdmits()
    ensures AdmittedCalls([], [1000, 1000, 1000], 2, 60000) == 3
  {
    var s1 := RateLimitStep([], 2, 60000, 1000);
    assert Prune([], 1000 - 60000) == [];
    assert s1.window == [1000];
    var s2 := RateLimitStep([1000], 2, 60000, 1000);
    assert Prune([1000], 1000 - 60000) == [1000] by {
      PruneKeepsRecent([1000], 1000 - 60000);
    }
    assert s2.result.allowed && s2.window == [1000];
    assert [1000, 1000, 1000][1..] == [1000, 1000];
    assert [1000, 1000][1..] == [1000];
    assert [1000][1..] == [];
  }

  /** When the set and the call lie inside one window, the call prunes nothing. */
  lemma PruneInsideWindow(window: seq<int>, windowMs: int, now: int, t0: int)
    requires forall x | x in window :: t0 <= x < t0 + windowMs
    requires t0 <= now < t0 + windowMs
    ensures Prune(window, now - windowMs) == window
  {
    var ws := now - windowMs;
    forall x | x in window
      ensures ws < x
    {
    }
    PruneKeepsRecent(window, ws);
  }

  /** A call whose window start lies before the whole set runs on the set as it is. */
  lemma DistinctStepUnpruned(window: seq<int>, limit: int, windowMs: int, now: int)
    requires Sorted(window) && Prune(window, now - windowMs) == window
    ensures var step := DistinctRateLimitStep(window, limit, windowMs, now);
      && (step.result.allowed <==> |window| < limit)
      && step.window == if step.result.allowed then InsertScore(window, now) else window
  {
  }

  /** One call inside the window the set already lies in: nothing is pruned, and only an admission adds an entry. */
  lemma DistinctStepInside(window: seq<int>, limit: int, windowMs: int, now: int, t0: int)
    requires Sorted(window)
    requires forall x | x in window :: t0 <= x < t0 + windowMs
    requires t0 <= now < t0 + windowMs
    ensures var step := DistinctRateLimitStep(window, limit, windowMs, now);
      && (step.result.allowed <==> |window| < limit)
      && step.window == if step.result.allowed then InsertScore(window, now) else window
  {
    PruneInsideWindow(window, windowMs, now, t0);
    DistinctStepUnpruned(window, limit, windowMs, now);
  }

  /**
   * With distinct members, calls that all fall inside one window are
   * admitted only while the set holds fewer than `limit` entries.
   */
  lemma {:induction false} DistinctAdmitsWithinLimit(window: seq<int>, times: seq<int>, limit: int, windowMs: int, t0: int)
    requires Sorted(window)
    requires forall x | x in window :: t0 <= x < t0 + windowMs
    requires forall i | 0 <= i < |times| :: t0 <= times[i] < t0 + windowMs
    ensures |window| + DistinctAdmittedCalls(window, times, limit, windowMs) <= if |window| > limit then |window| else limit
    decreases |times|
  {
    if times != [] {
      DistinctStepInside(window, limit, windowMs, times[0], t0);
      var step := DistinctRateLimitStep(window, limit, windowMs, times[0]);
      assert forall x | x in step.window :: x in window || x == times[0];
      var rest := times[1..];
      assert forall i | 0 <= i < |rest| :: rest[i] == times[i + 1];
      DistinctAdmitsWithinLimit(step.window, rest, limit, windowMs, t0);
    }
  }

  /** From an empty set, at most `limit` of the calls inside one window are admitted. */
  lemma DistinctLimitHoldsPerWindow(times: seq<int>, limit: int, windowMs: int, t0: int)
    requires limit >= 0
    requires forall i | 0 <= i < |times| :: t0 <= times[i] < t0 + windowMs
    ensures DistinctAdmittedCalls([], times, limit, windowMs) <= limit
  {
    DistinctAdmitsWithinLimit([], times, limit, windowMs, t0);
  }

  /** The rate limiter as written: members are their own scores. */
  class RateLimiter {
    /** The sorted sets, by key; a key that is absent holds the empty set. */
    var zsets: map<string, seq<int>>

    ghost predicate Valid()
      reads this
    {
      forall k | k in zsets :: Ascending(zsets[k]) && zsets[k] != []
    }

    function Window(key: string): seq<int>
      reads this
    {
      if key in zsets then zsets[key] else []
    }

    constructor()
      ensures Valid() && zsets == map[]
    {
      zsets := map[];
    }

    /** checkRateLimit, with `now` standing for Date.now(); the script runs atomically. */
    method CheckRateLimit(userId: string, action: string, limit: int, windowMs: int, now: int)
      returns (r: RateLimitResult)
      requires Valid()
      modifies this
      ensures Valid()
      ensures var key := RateLimitKey(action, userId);
        var step := RateLimitStep(old(Window(key)), limit, windowMs, now);
        r == step.result && Window(key) == step.window
      ensures forall k | k != RateLimitKey(action, userId) :: Window(k) == old(Window(k))
    {
      var key := RateLimitKey(action, userId);
      var step := RateLimitStep(Window(key), limit, windowMs, now);
      if step.window == [] {
        zsets := zsets - {key};
      } else {
        zsets := zsets[key := step.window];
      }
      r := step.result;
    }
  }

  /** The rate limiter with a member of its own for every admitted call. */
  class DistinctMemberRateLimiter {
    /** The scores of each sorted set, by key; a key that is absent holds the empty set. */
    var zsets: map<string, seq<int>>

    ghost predicate Valid()
      reads this
    {
      forall k | k in zsets :: Sorted(zsets[k]) && zsets[k] != []
    }

    function Window(key: string): seq<int>
      reads this
    {
      if key in zsets then zsets[key] else []
    }

    constructor()
      ensures Valid() && zsets == map[]
    {
      zsets := map[];
    }

    method CheckRateLimit(userId: string, action: string, limit: int, windowMs: int, now: int)
      returns (r: RateLimitResult)
      requires Valid()
      modifies this
      ensures Valid()
      ensures var key := RateLimitKey(action, userId);
        var step := DistinctRateLimitStep(old(Window(key)), limit, windowMs, now);
        r == step.result && Window(key) == step.window
      ensures forall k | k != RateLimitKey(action, userId) :: Window(k) == old(Window(k))
    {
      var key := RateLimitKey(action, userId);
      var step := DistinctRateLimitStep(Window(key), limit, windowMs, now);
      if step.window == [] {
        zsets := zsets - {key};
      } else {
        zsets := zsets[key := step.window];
      }
      r := step.result;
    }
  }
}
