/** The in-memory time-window structures: sliding-window limiter, cooldown and replay set.
    Times are monotone-clock readings and durations, both in nanoseconds. */
module RateLimit {
  import opened Prelude

  type Rate = map<string, seq<nat>>
  type Seen = map<string, nat>

  const MAX_KEYS: nat := 50_000
  const SECOND: nat := 1_000_000_000

  // `now.duration_since(t)`, which is zero when t is later.
  function Since(now: nat, t: nat): nat {
    if t <= now then now - t else 0
  }

  predicate Recent(t: nat, now: nat, window: nat) {
    Since(now, t) < window
  }

  function Retain(hits: seq<nat>, now: nat, window: nat): (r: seq<nat>)
    ensures |r| <= |hits|
  {
    if hits == [] then []
    else
      Retain(hits[..|hits| - 1], now, window)
      + if Recent(hits[|hits| - 1], now, window) then [hits[|hits| - 1]] else []
  }

  predicate AnyRecent(hits: seq<nat>, now: nat, window: nat) {
    exists i :: 0 <= i < |hits| && Recent(hits[i], now, window)
  }

  function HitsOf(rate: Rate, key: string): seq<nat> {
    if key in rate then rate[key] else []
  }

  function BucketKey(bucket: string, who: string): string {
    bucket + ":" + who
  }

  function Cleanup(rate: Rate, now: nat, window: nat): Rate {
    map k | k in rate && AnyRecent(rate[k], now, window) :: rate[k]
  }

  // `allow`: prune this key, refuse at the ceiling, else record the call; a map grown past
  // the limit is then swept with this call's own window.
  function Allows(rate: Rate, key: string, max: nat, window: nat, now: nat): bool {
    |Retain(HitsOf(rate, key), now, window)| < max
  }

  function AfterAllow(rate: Rate, key: string, max: nat, window: nat, now: nat): Rate {
    var hits := Retain(HitsOf(rate, key), now, window);
    if |hits| >= max then rate[key := hits]
    else
      var pushed := rate[key := hits + [now]];
      if |pushed| > MAX_KEYS then Cleanup(pushed, now, window) else pushed
  }

  function CoolingDown(rate: Rate, key: string, window: nat, now: nat): bool {
    Retain(HitsOf(rate, key), now, window) != []
  }

  function AfterCooldown(rate: Rate, key: string, window: nat, now: nat): Rate {
    if key in rate then rate[key := Retain(rate[key], now, window)] else rate
  }

  function AfterRecord(rate: Rate, key: string, now: nat): Rate {
    rate[key := HitsOf(rate, key) + [now]]
  }

  // `auth_max_age_secs as u64 + 5` seconds; a release build wraps the addition.
  function ReplayWindow(maxAge: i64): nat {
    ((ToU64(maxAge) + 5) % TWO64) * SECOND
  }

  function Unforgotten(seen: Seen, window: nat, now: nat): Seen {
    map id | id in seen && Recent(seen[id], now, window) :: seen[id]
  }

  function FirstUse(seen: Seen, id: string, window: nat, now: nat): bool {
    id !in Unforgotten(seen, window, now)
  }

  function AfterAuth(seen: Seen, id: string, window: nat, now: nat): Seen {
    if FirstUse(seen, id, window, now) then Unforgotten(seen, window, now)[id := now]
    else Unforgotten(seen, window, now)
  }

  /** The two maps of the running process. */
  class Limiter {
    var rate: Rate
    var seen: Seen

    constructor ()
      ensures rate == map[] && seen == map[]
    {
      rate, seen := map[], map[];
    }

    // Vec::retain.
    method RetainHits(hits: seq<nat>, now: nat, window: nat) returns (kept: seq<nat>)
      ensures kept == Retain(hits, now, window)
      ensures forall i :: 0 <= i < |kept| ==> kept[i] in hits && Recent(kept[i], now, window)
    {
      kept := [];
      var i := 0;
      while i < |hits|
        invariant 0 <= i <= |hits|
        invariant kept == Retain(hits[..i], now, window)
        invariant forall j :: 0 <= j < |kept| ==> kept[j] in hits && Recent(kept[j], now, window)
      {
        assert hits[..i + 1][..i] == hits[..i];
        if Recent(hits[i], now, window) {
          kept := kept + [hits[i]];
        }
        i := i + 1;
      }
      assert hits[..i] == hits;
    }

    method AuthEventFresh(id: string, maxAge: i64, now: nat) returns (fresh_: bool)
      modifies this`seen
      ensures fresh_ == FirstUse(old(seen), id, ReplayWindow(maxAge), now)
      ensures seen == AfterAuth(old(seen), id, ReplayWindow(maxAge), now)
      ensures id in seen
    {
      var window := ReplayWindow(maxAge);
      seen := map k | k in seen && Recent(seen[k], now, window) :: seen[k];
      if id in seen {
        return false;
      }
      seen := seen[id := now];
      return true;
    }

    method CooldownActive(bucket: string, key: string, window: nat, now: nat) returns (active: bool)
      modifies this`rate
      ensures active == CoolingDown(old(rate), BucketKey(bucket, key), window, now)
      ensures rate == AfterCooldown(old(rate), BucketKey(bucket, key), window, now)
    {
      var k := BucketKey(bucket, key);
      if k in rate {
        var hits := RetainHits(rate[k], now, window);
        rate := rate[k := hits];
        return hits != [];
      }
      return false;
    }

    method RecordOp(bucket: string, key: string, now: nat)
      modifies this`rate
      ensures rate == AfterRecord(old(rate), BucketKey(bucket, key), now)
    {
      var k := BucketKey(bucket, key);
      if k !in rate {
        rate := rate[k := []];
      }
      rate := rate[k := rate[k] + [now]];
    }

    method Allow(bucket: string, ip: string, max: nat, window: nat, now: nat) returns (ok: bool)
      modifies this`rate
      ensures ok == Allows(old(rate), BucketKey(bucket, ip), max, window, now)
      ensures rate == AfterAllow(old(rate), BucketKey(bucket, ip), max, window, now)
    {
      hide Retain, AnyRecent, BucketKey;
      var k := BucketKey(bucket, ip);
      ghost var before := rate;
      if k !in rate {
        rate := rate[k := []];
      }
      assert rate[k] == HitsOf(before, k);
      var hits := RetainHits(rate[k], now, window);
      rate := rate[k := hits];
      assert rate == before[k := hits];
      if |hits| >= max {
        return false;
      }
      rate := rate[k := hits + [now]];
      assert rate == before[k := hits + [now]];
      if |rate| > MAX_KEYS {
        rate := map key | key in rate && AnyRecent(rate[key], now, window) :: rate[key];
      }
      return true;
    }
  }

  // ---------------------------------------------------------------- bucket keys

  // With colon-free bucket names a key determines its bucket and its client, whatever the
  // client string contains.
  lemma BucketKeyInjective(b1: string, w1: string, b2: string, w2: string)
    requires ':' !in b1 && ':' !in b2
    requires BucketKey(b1, w1) == BucketKey(b2, w2)
    ensures b1 == b2 && w1 == w2
  {
    var k := BucketKey(b1, w1);
    assert k[|b1|] == ':' && k[|b2|] == ':';
    assert forall i :: 0 <= i < |b1| ==> k[i] == b1[i] && k[i] != ':';
    assert forall i :: 0 <= i < |b2| ==> k[i] == b2[i] && k[i] != ':';
    assert b1 == k[..|b1|] && b2 == k[..|b2|];
    assert w1 == k[|b1| + 1..] && w2 == k[|b2| + 1..];
  }
}
