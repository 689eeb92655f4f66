/** The in-memory fallback of the rate limiter: a counter per key and window, with expired
    entries pruned when there are many. */
module RateLimiter {

  datatype Entry = Entry(hits: int, expiresAt: int)

  datatype Answer = Answer(totalHits: int, timeToExpire: int, isBlocked: bool, timeToBlockExpire: int)

  /** A request that is counted: the clock, and the rule it is counted under. */
  datatype Call = Call(now: int, key: string, ttl: int, limit: int, blockDuration: int)

  type Counters = map<string, Entry>

  const PRUNE_ABOVE: nat := 5000

  function Max(a: int, b: int): int { if a < b then b else a }

  // ---------- the specification: a limiter that never prunes ----------

  predicate Live(m: Counters, key: string, now: int) { key in m && m[key].expiresAt > now }

  function Count(m: Counters, c: Call): Counters {
    if Live(m, c.key, c.now) then m[c.key := m[c.key].(hits := m[c.key].hits + 1)]
    else m[c.key := Entry(1, c.now + c.ttl)]
  }

  function Reply(m: Counters, c: Call): Answer {
    if Live(m, c.key, c.now) then
      var hits := m[c.key].hits + 1;
      Answer(hits, m[c.key].expiresAt - c.now, hits > c.limit,
             if hits > c.limit && c.blockDuration > 0 then c.blockDuration else 0)
    else Answer(1, c.ttl, false, 0)
  }

  // ---------- the code ----------

  function Pruned(m: Counters, keys: set<string>, now: int): Counters {
    map k | k in m && (k in keys ==> m[k].expiresAt > now) :: m[k]
  }

  function PrunedWhenLarge(m: Counters, now: int): Counters {
    if |m| > PRUNE_ABOVE then Pruned(m, m.Keys, now) else m
  }

  class ThrottlerStorage {
    var memoryFallback: Counters

    constructor ()
      ensures memoryFallback == map[]
    {
      memoryFallback := map[];
    }

    method IncrementInMemory(c: Call) returns (r: Answer)
      modifies this
      ensures memoryFallback == Count(PrunedWhenLarge(old(memoryFallback), c.now), c)
      ensures r == Reply(PrunedWhenLarge(old(memoryFallback), c.now), c)
      ensures forall k :: k in memoryFallback <==>
                            || k == c.key
                            || (k in old(memoryFallback)
                                && (|old(memoryFallback)| > 5000 ==> old(memoryFallback)[k].expiresAt > c.now))
    {
      if |memoryFallback| > PRUNE_ABOVE {
        ghost var all := memoryFallback;
        var keys := memoryFallback.Keys;
        while keys != {}
          invariant keys <= all.Keys && keys <= memoryFallback.Keys
          invariant memoryFallback == Pruned(all, all.Keys - keys, c.now)
        {
          var key :| key in keys;
          keys := keys - {key};
          if memoryFallback[key].expiresAt <= c.now { memoryFallback := memoryFallback - {key}; }
        }
        assert all.Keys - keys == all.Keys;
      }
      if c.key !in memoryFallback || memoryFallback[c.key].expiresAt <= c.now {
        memoryFallback := memoryFallback[c.key := Entry(1, c.now + c.ttl)];
        return Answer(1, c.ttl, false, 0);
      }
      var entry := memoryFallback[c.key];
      entry := entry.(hits := entry.hits + 1);
      memoryFallback := memoryFallback[c.key := entry];
      var isBlocked := entry.hits > c.limit;
      return Answer(entry.hits, Max(entry.expiresAt - c.now, 0), isBlocked,
                    if isBlocked && c.blockDuration > 0 then c.blockDuration else 0);
    }
  }

  // ---------- runs ----------

  /** The answers to a list of calls, from some counters on. */
  function Answers(m: Counters, calls: seq<Call>): (r: seq<Answer>)
    ensures |r| == |calls|
    decreases |calls|
  {
    if calls == [] then []
    else
      var pruned := PrunedWhenLarge(m, calls[0].now);
      [Reply(pruned, calls[0])] + Answers(Count(pruned, calls[0]), calls[1..])
  }

  /** The answers of the limiter that never prunes. */
  function AnswersUnpruned(m: Counters, calls: seq<Call>): (r: seq<Answer>)
    ensures |r| == |calls|
    decreases |calls|
  {
    if calls == [] then []
    else [Reply(m, calls[0])] + AnswersUnpruned(Count(m, calls[0]), calls[1..])
  }

  ghost predicate Chronological(calls: seq<Call>) {
    forall i, j :: 0 <= i < j < |calls| ==> calls[i].now <= calls[j].now
  }

  // ---------- pruning cannot be observed ----------

  /** The two limiters agree on every entry that has not expired. */
  ghost predicate SameLive(m: Counters, n: Counters, now: int) {
    forall k :: (Live(m, k, now) <==> Live(n, k, now)) && (Live(m, k, now) ==> m[k] == n[k])
  }

  /** For every run on a clock that does not go back, pruning changes no answer. */
  lemma PruningIsInvisible(calls: seq<Call>)
    requires Chronological(calls)
    ensures Answers(map[], calls) == AnswersUnpruned(map[], calls)
  {
    if calls != [] {
      SameAnswers(map[], map[], calls);
    }
  }

  lemma {:induction false} SameAnswers(m: Counters, n: Counters, calls: seq<Call>)
    requires Chronological(calls)
    requires calls != [] ==> SameLive(m, n, calls[0].now)
    ensures Answers(m, calls) == AnswersUnpruned(n, calls)
    decreases |calls|
  {
    if calls != [] {
      var c := calls[0];
      var pruned := PrunedWhenLarge(m, c.now);
      SameReply(m, n, c);
      if |calls| > 1 {
        SameLiveLater(Count(pruned, c), Count(n, c), c.now, calls[1].now);
      }
      SameAnswers(Count(pruned, c), Count(n, c), calls[1..]);
    }
  }

  lemma SameReply(m: Counters, n: Counters, c: Call)
    requires SameLive(m, n, c.now)
    ensures var pruned := PrunedWhenLarge(m, c.now);
            Reply(pruned, c) == Reply(n, c) && SameLive(Count(pruned, c), Count(n, c), c.now)
  {
    assert SameLive(PrunedWhenLarge(m, c.now), n, c.now);
  }

  lemma SameLiveLater(m: Counters, n: Counters, now: int, later: int)
    requires SameLive(m, n, now) && now <= later
    ensures SameLive(m, n, later)
  {
    forall k ensures (Live(m, k, later) <==> Live(n, k, later)) && (Live(m, k, later) ==> m[k] == n[k]) {
      assert Live(m, k, later) ==> Live(m, k, now);
      assert Live(n, k, later) ==> Live(n, k, now);
    }
  }

  // ---------- how much gets through ----------

  /** How many calls for a key at lo <= now < hi were answered as not blocked. */
  function Passed(calls: seq<Call>, answers: seq<Answer>, key: string, lo: int, hi: int): nat
    requires |calls| == |answers|
  {
    if calls == [] then 0
    else
      (if calls[0].key == key && lo <= calls[0].now < hi && !answers[0].isBlocked then 1 else 0)
      + Passed(calls[1..], answers[1..], key, lo, hi)
  }

  /** One rule per key. */
  ghost predicate Uniform(calls: seq<Call>, key: string, ttl: int, limit: int) {
    forall i :: 0 <= i < |calls| && calls[i].key == key ==> calls[i].ttl == ttl && calls[i].limit == limit
  }

  function Min(a: int, b: int): int { if a < b then a else b }

  /** How many answers of a window can pass: the first always does. */
  function Allowance(limit: int): int { Max(1, limit) }

  /** What has passed in [lo, lo + ttl) so far, given the window the key is in: a window from
      before lo can have passed an allowance but for its first call, and one that began
      since a whole allowance more. */
  ghost predicate WithinBound(m: Counters, key: string, ttl: int, limit: int, lo: int, now: int, passed: int) {
    if key !in m then passed == 0
    else
      var start, hits := m[key].expiresAt - ttl, m[key].hits;
      && start <= now && hits >= 1
      && (start < lo ==> passed <= Min(hits, Allowance(limit)) - 1 && (now < lo ==> passed == 0))
      && (lo <= start < lo + ttl ==> passed <= Allowance(limit) - 1 + Min(hits, Allowance(limit)))
      && (lo + ttl <= start ==> passed <= 2 * Allowance(limit) - 1)
  }

  lemma WithinBoundStep(m: Counters, c: Call, key: string, ttl: int, limit: int, lo: int, now: int, passed: int)
    requires ttl > 0 && now <= c.now && (c.key == key ==> c.ttl == ttl && c.limit == limit)
    requires WithinBound(m, key, ttl, limit, lo, now, passed)
    ensures var p := if c.key == key && lo <= c.now < lo + ttl && !Reply(m, c).isBlocked then 1 else 0;
            WithinBound(Count(m, c), key, ttl, limit, lo, c.now, passed + p)
  {
  }

  lemma {:induction false} PassedFrom(
    m: Counters, calls: seq<Call>, key: string, ttl: int, limit: int, lo: int, now: int, passed: int)
    requires ttl > 0 && Chronological(calls) && Uniform(calls, key, ttl, limit)
    requires calls != [] ==> now <= calls[0].now
    requires WithinBound(m, key, ttl, limit, lo, now, passed)
    ensures passed + Passed(calls, AnswersUnpruned(m, calls), key, lo, lo + ttl) <= 2 * Allowance(limit) - 1
    decreases |calls|
  {
    if calls != [] {
      var c := calls[0];
      var p := if c.key == key && lo <= c.now < lo + ttl && !Reply(m, c).isBlocked then 1 else 0;
      WithinBoundStep(m, c, key, ttl, limit, lo, now, passed);
      PassedFrom(Count(m, c), calls[1..], key, ttl, limit, lo, c.now, passed + p);
      assert AnswersUnpruned(m, calls)[1..] == AnswersUnpruned(Count(m, c), calls[1..]);
    }
  }

  /** In every run, any span as long as the window lets fewer than two allowances of a key through. */
  lemma LessThanTwiceTheLimit(calls: seq<Call>, key: string, ttl: int, limit: int, lo: int)
    requires ttl > 0 && Chronological(calls) && Uniform(calls, key, ttl, limit)
    ensures Passed(calls, Answers(map[], calls), key, lo, lo + ttl) <= 2 * Allowance(limit) - 1
  {
    PruningIsInvisible(calls);
    if calls != [] {
      PassedFrom(map[], calls, key, ttl, limit, lo, calls[0].now, 0);
    }
  }

  /** What has passed since the window that began at lo: one allowance at most. */
  ghost predicate WithinWindow(m: Counters, key: string, ttl: int, limit: int, lo: int, now: int, passed: int) {
    && key in m && m[key].hits >= 1 && m[key].expiresAt - ttl <= now
    && (m[key].expiresAt == lo + ttl || m[key].expiresAt >= lo + ttl + ttl)
    && passed <= if m[key].expiresAt == lo + ttl then Min(m[key].hits, Allowance(limit)) else Allowance(limit)
  }

  lemma {:induction false} PassedInWindow(
    m: Counters, calls: seq<Call>, key: string, ttl: int, limit: int, lo: int, now: int, passed: int)
    requires ttl > 0 && Chronological(calls) && Uniform(calls, key, ttl, limit)
    requires lo <= now && (calls != [] ==> now <= calls[0].now)
    requires WithinWindow(m, key, ttl, limit, lo, now, passed)
    ensures passed + Passed(calls, AnswersUnpruned(m, calls), key, lo, lo + ttl) <= Allowance(limit)
    decreases |calls|
  {
    if calls != [] {
      var c := calls[0];
      var p := if c.key == key && lo <= c.now < lo + ttl && !Reply(m, c).isBlocked then 1 else 0;
      assert WithinWindow(Count(m, c), key, ttl, limit, lo, c.now, passed + p);
      PassedInWindow(Count(m, c), calls[1..], key, ttl, limit, lo, c.now, passed + p);
      assert AnswersUnpruned(m, calls)[1..] == AnswersUnpruned(Count(m, c), calls[1..]);
    }
  }

  /** A call that opens a window is followed, in that window, by no more than the allowance. */
  lemma AtMostTheLimitPerWindow(m: Counters, calls: seq<Call>, key: string, ttl: int, limit: int)
    requires ttl > 0 && Chronological(calls) && Uniform(calls, key, ttl, limit)
    requires calls != [] && calls[0].key == key && !Live(m, key, calls[0].now)
    ensures Passed(calls, Answers(m, calls), key, calls[0].now, calls[0].now + ttl) <= Allowance(limit)
  {
    var c := calls[0];
    SameAnswers(m, m, calls);
    PassedInWindow(Count(m, c), calls[1..], key, ttl, limit, c.now, c.now, 1);
    assert AnswersUnpruned(m, calls)[1..] == AnswersUnpruned(Count(m, c), calls[1..]);
  }

  // ---------- the answers within a window ----------

  /** How many of the first n calls are for a key. */
  function CallsFor(calls: seq<Call>, key: string, n: nat): nat
    requires n <= |calls|
  {
    if n == 0 then 0 else CallsFor(calls, key, n - 1) + if calls[n - 1].key == key then 1 else 0
  }

  lemma {:induction false} CallsForRest(calls: seq<Call>, key: string, n: nat)
    requires 0 < n <= |calls|
    ensures CallsFor(calls, key, n) == (if calls[0].key == key then 1 else 0) + CallsFor(calls[1..], key, n - 1)
  {
    if n > 1 { CallsForRest(calls, key, n - 1); }
  }

  /** The n-th call for a key in its window is answered as the n-th, with the time the window has
      left, and is blocked, for the block duration if there is one, when n exceeds its limit. */
  ghost predicate AnswersCall(r: Answer, c: Call, n: nat, windowEnd: int) {
    && r.totalHits == n
    && r.timeToExpire == windowEnd - c.now
    && (r.isBlocked <==> n > 1 && n > c.limit)
    && r.timeToBlockExpire == if r.isBlocked && c.blockDuration > 0 then c.blockDuration else 0
  }

  lemma {:induction false} AnswersFrom(m: Counters, calls: seq<Call>, key: string, hits: nat, windowEnd: int, j: nat)
    requires Chronological(calls) && j < |calls| && calls[j].key == key && calls[j].now < windowEnd
    requires key in m && m[key] == Entry(hits, windowEnd) && hits >= 1
    ensures AnswersCall(AnswersUnpruned(m, calls)[j], calls[j], hits + CallsFor(calls, key, j + 1), windowEnd)
    decreases j
  {
    var c := calls[0];
    var next := Count(m, c);
    assert AnswersUnpruned(m, calls) == [Reply(m, c)] + AnswersUnpruned(next, calls[1..]);
    if j > 0 {
      CallsForRest(calls, key, j + 1);
      AnswersFrom(next, calls[1..], key, if c.key == key then hits + 1 else hits, windowEnd, j - 1);
    }
  }

  /** In every run, from the call that opens a window to the end of the window: each call for
      the key is answered by its number in the window. */
  lemma AnswersInWindow(m: Counters, calls: seq<Call>, j: nat)
    requires Chronological(calls) && j < |calls| && !Live(m, calls[0].key, calls[0].now)
    requires calls[j].key == calls[0].key && calls[j].now < calls[0].now + calls[0].ttl
    ensures var windowEnd := calls[0].now + calls[0].ttl;
            AnswersCall(Answers(m, calls)[j], calls[j], CallsFor(calls, calls[0].key, j + 1), windowEnd)
  {
    var c := calls[0];
    SameAnswers(m, m, calls);
    assert AnswersUnpruned(m, calls) == [Reply(m, c)] + AnswersUnpruned(Count(m, c), calls[1..]);
    CallsForRest(calls, c.key, j + 1);
    if j > 0 {
      AnswersFrom(Count(m, c), calls[1..], c.key, 1, c.now + c.ttl, j - 1);
    }
  }

  // ---------- the bound is reached ----------

  /** One call at time 0, then limit - 1 at the end of its window and limit in the next one. */
  function Burst(key: string, ttl: int, limit: nat): seq<Call> {
    [Call(0, key, ttl, limit, 0)] + Repeat(Call(ttl - 1, key, ttl, limit, 0), Max(limit - 1, 0))
    + Repeat(Call(ttl, key, ttl, limit, 0), limit)
  }

  function Repeat(c: Call, n: nat): seq<Call> { if n == 0 then [] else [c] + Repeat(c, n - 1) }

  /** The counters after n more hits on a key. */
  function Hits(m: Counters, key: string, n: int): Counters
    requires key in m
  {
    m[key := m[key].(hits := m[key].hits + n)]
  }

  /** Calls that all still fit in the current window all pass. */
  lemma {:induction false} RepeatedCallsPass(m: Counters, c: Call, n: nat, rest: seq<Call>, lo: int, hi: int)
    requires Live(m, c.key, c.now) && m[c.key].hits + n <= c.limit && lo <= c.now < hi
    ensures var calls := Repeat(c, n) + rest;
            Passed(calls, AnswersUnpruned(m, calls), c.key, lo, hi)
            == n + Passed(rest, AnswersUnpruned(Hits(m, c.key, n), rest), c.key, lo, hi)
    decreases n
  {
    if n == 0 {
      assert Repeat(c, n) + rest == rest && Hits(m, c.key, n) == m;
    } else {
      var calls := Repeat(c, n) + rest;
      var next := Count(m, c);
      assert calls[1..] == Repeat(c, n - 1) + rest;
      RepeatedCallsPass(next, c, n - 1, rest, lo, hi);
      assert Hits(next, c.key, n - 1) == Hits(m, c.key, n);
      assert AnswersUnpruned(m, calls)[1..] == AnswersUnpruned(next, calls[1..]);
    }
  }

  lemma {:induction false} RepeatKeepsRule(c: Call, n: nat)
    ensures |Repeat(c, n)| == n && forall i :: 0 <= i < n ==> Repeat(c, n)[i] == c
  {
    if n > 0 { RepeatKeepsRule(c, n - 1); }
  }

  lemma BurstShape(key: string, ttl: int, limit: nat)
    requires limit >= 1
    ensures var calls := Burst(key, ttl, limit);
            && |calls| == 2 * limit
            && forall i :: 0 <= i < |calls| ==>
                 calls[i] == Call(if i == 0 then 0 else if i < limit then ttl - 1 else ttl, key, ttl, limit, 0)
  {
    RepeatKeepsRule(Call(ttl - 1, key, ttl, limit, 0), limit - 1);
    RepeatKeepsRule(Call(ttl, key, ttl, limit, 0), limit);
  }

  /** A first call before the span opens the window and is not counted. */
  lemma FirstCallBefore(first: Call, rest: seq<Call>, lo: int, hi: int)
    requires first.now < lo
    ensures var m := map[first.key := Entry(1, first.now + first.ttl)];
            Passed([first] + rest, AnswersUnpruned(map[], [first] + rest), first.key, lo, hi)
            == Passed(rest, AnswersUnpruned(m, rest), first.key, lo, hi)
  {
    var calls := [first] + rest;
    assert calls[1..] == rest;
    assert AnswersUnpruned(map[], calls)[1..] == AnswersUnpruned(Count(map[], first), calls[1..]);
  }

  lemma BurstPasses(key: string, ttl: int, limit: nat)
    requires ttl >= 2 && limit >= 1
    ensures var calls := Burst(key, ttl, limit);
            Passed(calls, AnswersUnpruned(map[], calls), key, 1, 1 + ttl) == 2 * limit - 1
  {
    var first := Call(0, key, ttl, limit, 0);
    var late, next := Call(ttl - 1, key, ttl, limit, 0), Call(ttl, key, ttl, limit, 0);
    var m := map[key := Entry(1, ttl)];
    var rest := Repeat(late, limit - 1) + Repeat(next, limit);
    assert Burst(key, ttl, limit) == [first] + rest;
    FirstCallBefore(first, rest, 1, 1 + ttl);
    RepeatedCallsPass(m, late, limit - 1, Repeat(next, limit), 1, 1 + ttl);
    NewWindowPasses(Hits(m, key, limit - 1), next, 1, 1 + ttl);
  }

  /** The bound cannot be lowered. */
  lemma BoundIsReached(key: string, ttl: int, limit: nat)
    requires ttl >= 2 && limit >= 1
    ensures Chronological(Burst(key, ttl, limit)) && Uniform(Burst(key, ttl, limit), key, ttl, limit)
    ensures Passed(Burst(key, ttl, limit), Answers(map[], Burst(key, ttl, limit)), key, 1, 1 + ttl) == 2 * limit - 1
  {
    BurstShape(key, ttl, limit);
    PruningIsInvisible(Burst(key, ttl, limit));
    BurstPasses(key, ttl, limit);
  }

  lemma NewWindowPasses(m: Counters, c: Call, lo: int, hi: int)
    requires !Live(m, c.key, c.now) && c.ttl > 0 && c.limit >= 1 && lo <= c.now < hi
    ensures var calls := Repeat(c, c.limit);
            Passed(calls, AnswersUnpruned(m, calls), c.key, lo, hi) == c.limit
  {
    var calls := Repeat(c, c.limit);
    RepeatedCallsPass(Count(m, c), c, c.limit - 1, [], lo, hi);
    assert calls[1..] == Repeat(c, c.limit - 1) + [];
    assert AnswersUnpruned(m, calls)[1..] == AnswersUnpruned(Count(m, c), calls[1..]);
  }

  /** Under a limit of zero or less the first call of a window passes, and only that one. */
  lemma FirstCallAlwaysPasses(key: string, ttl: int, limit: int)
    requires ttl > 0 && limit <= 0
    ensures var c := Call(0, key, ttl, limit, 0);
            Answers(map[], [c, c]) == [Answer(1, ttl, false, 0), Answer(2, ttl, true, 0)]
  {
    var c := Call(0, key, ttl, limit, 0);
    var calls := [c, c];
    PruningIsInvisible(calls);
    assert calls[1..] == [c] && calls[1..][1..] == [];
    assert AnswersUnpruned(Count(map[], c), [c]) == [Answer(2, ttl, true, 0)];
  }
}
