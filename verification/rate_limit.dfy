/**
 * Fixed-window request counters (`src/lib/auth/rate-limit.ts`). The
 * in-memory path keeps one entry per key in a map that is updated in place;
 * a window opens at the first hit of a key and lasts `windowMs`. The
 * distributed (Redis) path is outside the model: its outcome for a call is
 * an input.
 */
module RateLimit {
  import opened Wrappers

  datatype CounterEntry = CounterEntry(count: nat, resetAt: int)

  datatype RateLimitResult = RateLimitResult(allowed: bool, count: nat, limit: int, retryAfterMs: int)

  /** What the distributed counter did for one call. */
  datatype DistributedOutcome =
    | NotConfigured          // no Redis URL and token
    | Failed                 // the Redis call threw
    | Counted(count: nat)    // `INCR` on the window key returned `count`

  /** `getBucket`: the index of the wall-clock window that contains `now`. */
  function GetBucket(now: int, windowMs: int): (b: int)
    requires windowMs > 0
    ensures b * windowMs <= now < (b + 1) * windowMs
  {
    now / windowMs
  }

  /** The entry `memoryIncrement` leaves for a key whose entry was `existing`. */
  function NextEntry(existing: Option<CounterEntry>, now: int, windowMs: int): (e: CounterEntry)
    ensures e.count >= 1
    ensures existing.None? || existing.value.resetAt <= now ==> e == CounterEntry(1, now + windowMs)
    ensures existing.Some? && existing.value.resetAt > now ==>
      e.count == existing.value.count + 1 && e.resetAt == existing.value.resetAt
  {
    if existing.None? || existing.value.resetAt <= now then CounterEntry(1, now + windowMs)
    else CounterEntry(existing.value.count + 1, existing.value.resetAt)
  }

  /** The result `checkRateLimit` reports for an entry. */
  function ResultFor(entry: CounterEntry, limit: int, now: int): (r: RateLimitResult)
    ensures r.allowed <==> entry.count <= limit
    ensures r.count == entry.count && r.limit == limit
    ensures r.retryAfterMs >= 0
    ensures r.retryAfterMs == 0 <==> entry.resetAt <= now
  {
    var retryAfterMs := if entry.resetAt - now > 0 then entry.resetAt - now else 0;
    RateLimitResult(entry.count <= limit, entry.count, limit, retryAfterMs)
  }

  /** The entry recorded for `key` in a counter map, if any. */
  function EntryIn(counters: map<string, CounterEntry>, key: string): (e: Option<CounterEntry>)
    ensures e.Some? <==> key in counters
  {
    if key in counters then Some(counters[key]) else None
  }

  /** The entry one `checkRateLimit` call counts with, given the counters before it. */
  function CountedEntry(counters: map<string, CounterEntry>, key: string, now: int, windowMs: int,
                        distributed: DistributedOutcome): CounterEntry
  {
    if distributed.Counted? then CounterEntry(distributed.count, now + windowMs)
    else NextEntry(EntryIn(counters, key), now, windowMs)
  }

  /** The counters after one `checkRateLimit` call: only `key` changes, and only on the in-memory path. */
  function CountersAfter(counters: map<string, CounterEntry>, key: string, now: int, windowMs: int,
                         distributed: DistributedOutcome): (after: map<string, CounterEntry>)
    ensures after.Keys == counters.Keys + (if distributed.Counted? then {} else {key})
    ensures forall k | k in counters && k != key :: after[k] == counters[k]
  {
    if distributed.Counted? then counters
    else counters[key := NextEntry(EntryIn(counters, key), now, windowMs)]
  }

  /** The result one `checkRateLimit` call reports, given the counters before it. */
  function CheckResult(counters: map<string, CounterEntry>, key: string, limit: int, windowMs: int, now: int,
                       distributed: DistributedOutcome): (r: RateLimitResult)
    ensures r.limit == limit && r.retryAfterMs >= 0
    ensures r.allowed <==> r.count <= limit
  {
    ResultFor(CountedEntry(counters, key, now, windowMs, distributed), limit, now)
  }

  class MemoryCounters {
    /** `memoryCounters`: the current window of every key seen so far. */
    var counters: map<string, CounterEntry>

    constructor()
      ensures counters == map[]
    {
      counters := map[];
    }

    /** The entry recorded for `key`, if any. */
    function Lookup(key: string): Option<CounterEntry>
      reads this
    {
      EntryIn(counters, key)
    }

    /**
     * `memoryIncrement`: open a new window for the key when it has none or
     * its window has ended, otherwise count one more hit; no other key changes.
     */
    method MemoryIncrement(key: string, now: int, windowMs: int) returns (entry: CounterEntry)
      modifies this
      ensures entry == NextEntry(old(Lookup(key)), now, windowMs)
      ensures counters == old(counters)[key := entry]
    {
      if key !in counters || counters[key].resetAt <= now {
        entry := CounterEntry(1, now + windowMs);
        counters := counters[key := entry];
        return;
      }
      var existing := counters[key];
      entry := CounterEntry(existing.count + 1, existing.resetAt);
      counters := counters[key := entry];
    }

    /**
     * `checkRateLimit`: count the call on the distributed counter when it is
     * configured and answers, otherwise (and on any error) on the in-memory
     * counter; the call is allowed while the count is at most `limit`.
     */
    method CheckRateLimit(key: string, limit: int, windowMs: int, now: int, distributed: DistributedOutcome)
      returns (r: RateLimitResult)
      modifies this
      ensures r.limit == limit && r.retryAfterMs >= 0
      ensures r.allowed <==> r.count <= limit
      ensures distributed.Counted? ==>
        r == ResultFor(CounterEntry(distributed.count, now + windowMs), limit, now) && counters == old(counters)
      ensures !distributed.Counted? ==>
        && r == ResultFor(NextEntry(old(Lookup(key)), now, windowMs), limit, now)
        && counters == old(counters)[key := NextEntry(old(Lookup(key)), now, windowMs)]
      ensures r == CheckResult(old(counters), key, limit, windowMs, now, distributed)
      ensures counters == CountersAfter(old(counters), key, now, windowMs, distributed)
    {
      var entry: CounterEntry;
      if distributed.Counted? {
        entry := CounterEntry(distributed.count, now + windowMs);
      } else {
        entry := MemoryIncrement(key, now, windowMs);
      }
      r := ResultFor(entry, limit, now);
    }
  }

  /** The entry after a run of in-memory hits on one key at the given times. */
  function Replay(existing: Option<CounterEntry>, times: seq<int>, windowMs: int): (e: Option<CounterEntry>)
    ensures |times| > 0 ==> e.Some? && e.value.count >= 1
    ensures |times| == 0 ==> e == existing
    decreases |times|
  {
    if |times| == 0 then existing
    else Replay(Some(NextEntry(existing, times[0], windowMs)), times[1..], windowMs)
  }

  /**
   * Hits that fall inside the window opened by the first of them are counted
   * one by one: after `n` hits the count is `n` and the window end is unchanged.
   */
  lemma {:induction false} ReplayWithinWindow(start: int, count: nat, times: seq<int>, windowMs: int)
    requires forall i | 0 <= i < |times| :: times[i] < start + windowMs
    ensures Replay(Some(CounterEntry(count, start + windowMs)), times, windowMs)
      == Some(CounterEntry(count + |times|, start + windowMs))
    decreases |times|
  {
    if |times| > 0 {
      ReplayWithinWindow(start, count + 1, times[1..], windowMs);
    }
  }

  /**
   * Within one window that a first hit opens, hits 1..limit are allowed and
   * every later one is rejected.
   */
  lemma WindowAllowsExactlyLimit(existing: Option<CounterEntry>, first: int, later: seq<int>, windowMs: int, limit: int)
    requires existing.None? || existing.value.resetAt <= first
    requires forall i | 0 <= i < |later| :: later[i] < first + windowMs
    ensures Replay(existing, [first] + later, windowMs) == Some(CounterEntry(1 + |later|, first + windowMs))
    ensures ResultFor(Replay(existing, [first] + later, windowMs).value, limit, first).allowed <==> 1 + |later| <= limit
  {
    assert ([first] + later)[1..] == later;
    ReplayWithinWindow(first, 1, later, windowMs);
  }

  /**
   * With a clock that does not run backwards, an entry never ends more than
   * one window after `now`, so the advertised retry delay is at most `windowMs`.
   */
  lemma RetryAfterAtMostWindow(existing: Option<CounterEntry>, now: int, windowMs: int, limit: int)
    requires windowMs > 0
    requires existing.Some? ==> existing.value.resetAt <= now + windowMs
    ensures NextEntry(existing, now, windowMs).resetAt <= now + windowMs
    ensures ResultFor(NextEntry(existing, now, windowMs), limit, now).retryAfterMs <= windowMs
  {
  }
}
