/** The pruning structures against full histories that never forget. */
module RateHistory {
  import opened RateLimit

  // ---------------------------------------------------------------- retain

  function CountRecent(hits: seq<nat>, now: nat, window: nat): nat {
    if hits == [] then 0
    else CountRecent(hits[..|hits| - 1], now, window) + if Recent(hits[|hits| - 1], now, window) then 1 else 0
  }

  lemma {:induction false} RetainCounts(hits: seq<nat>, now: nat, window: nat)
    ensures |Retain(hits, now, window)| == CountRecent(hits, now, window)
  {
    if hits != [] {
      RetainCounts(hits[..|hits| - 1], now, window);
    }
  }

  lemma {:induction false} RetainAppend(a: seq<nat>, b: seq<nat>, now: nat, window: nat)
    ensures Retain(a + b, now, window) == Retain(a, now, window) + Retain(b, now, window)
  {
    if b == [] {
      assert a + b == a;
    } else {
      assert (a + b)[..|a + b| - 1] == a + b[..|b| - 1];
      RetainAppend(a, b[..|b| - 1], now, window);
    }
  }

  // Pruning early and then again later is pruning later.
  lemma {:induction false} RetainTwice(hits: seq<nat>, n1: nat, n2: nat, window: nat)
    requires n1 <= n2
    ensures Retain(Retain(hits, n1, window), n2, window) == Retain(hits, n2, window)
  {
    if hits != [] {
      var rest, h := hits[..|hits| - 1], hits[|hits| - 1];
      RetainTwice(rest, n1, n2, window);
      RetainAppend(Retain(rest, n1, window), if Recent(h, n1, window) then [h] else [], n2, window);
    }
  }

  lemma {:induction false} RetainNothing(hits: seq<nat>, now: nat, window: nat)
    ensures Retain(hits, now, window) == [] <==> !AnyRecent(hits, now, window)
  {
    if hits != [] {
      var rest := hits[..|hits| - 1];
      RetainNothing(rest, now, window);
      assert forall i :: 0 <= i < |rest| ==> rest[i] == hits[i];
    }
  }

  // ---------------------------------------------------------------- runs of calls on the rate map

  datatype Call =
    | AllowCall(key: string, max: nat, window: nat, now: nat)
    | CooldownCall(key: string, window: nat, now: nat)
    | RecordCall(key: string, now: nat)

  function Answer(rate: Rate, c: Call): bool {
    match c
    case AllowCall(key, max, window, now) => Allows(rate, key, max, window, now)
    case CooldownCall(key, window, now) => CoolingDown(rate, key, window, now)
    case RecordCall(_, _) => true
  }

  function AfterCall(rate: Rate, c: Call): Rate {
    match c
    case AllowCall(key, max, window, now) => AfterAllow(rate, key, max, window, now)
    case CooldownCall(key, window, now) => AfterCooldown(rate, key, window, now)
    case RecordCall(key, now) => AfterRecord(rate, key, now)
  }

  function RunCalls(calls: seq<Call>): Rate {
    if calls == [] then map[] else AfterCall(RunCalls(calls[..|calls| - 1]), calls[|calls| - 1])
  }

  // The same answers from a history of one key: every admission and every recorded
  // operation, nothing ever dropped.
  predicate HistoryAnswer(hist: seq<nat>, max: nat, window: nat, c: Call) {
    match c
    case AllowCall(_, _, _, now) => CountRecent(hist, now, window) < max
    case CooldownCall(_, _, now) => CountRecent(hist, now, window) > 0
    case RecordCall(_, _) => true
  }

  function History(calls: seq<Call>, key: string, max: nat, window: nat): seq<nat> {
    if calls == [] then []
    else
      var hist := History(calls[..|calls| - 1], key, max, window);
      var c := calls[|calls| - 1];
      if c.key == key && !c.CooldownCall? && HistoryAnswer(hist, max, window, c) then hist + [c.now] else hist
  }

  predicate InOrder(calls: seq<Call>) {
    forall i, j :: 0 <= i < j < |calls| ==> calls[i].now <= calls[j].now
  }

  // All calls on the key use its bucket's ceiling and window.
  predicate OneSetting(calls: seq<Call>, key: string, max: nat, window: nat) {
    forall i :: 0 <= i < |calls| && calls[i].key == key ==>
      (calls[i].AllowCall? ==> calls[i].max == max && calls[i].window == window)
      && (calls[i].CooldownCall? ==> calls[i].window == window)
  }

  // The call sweeps the whole map.
  predicate Sweeps(rate: Rate, c: Call) {
    c.AllowCall? && Answer(rate, c) && |rate.Keys + {c.key}| > MAX_KEYS
  }

  // The call is on another key, and its sweep takes from this key hits it still counts.
  predicate ForgetsKey(rate: Rate, key: string, window: nat, c: Call) {
    && c.AllowCall? && c.key != key && Sweeps(rate, c)
    && AnyRecent(HitsOf(rate, key), c.now, window)
    && !AnyRecent(HitsOf(rate, key), c.now, c.window)
  }

  // A sweep with a window at least the key's, and any call on a map that is not full,
  // takes nothing.
  lemma LongWindowSpares(rate: Rate, key: string, window: nat, c: Call)
    requires c.AllowCall? && c.window >= window
    ensures !ForgetsKey(rate, key, window, c)
  {
    hide Sweeps;
  }

  lemma SmallMapSpares(rate: Rate, key: string, window: nat, c: Call)
    requires |rate| < 50_000
    ensures !ForgetsKey(rate, key, window, c)
  {
    hide AnyRecent, Answer;
    if c.AllowCall? {
      if c.key in rate {
        assert rate.Keys + {c.key} == rate.Keys;
      }
      assert |rate.Keys| == |rate|;
    }
  }

  ghost predicate NothingForgotten(calls: seq<Call>, key: string, window: nat) {
    forall i :: 0 <= i < |calls| ==> !ForgetsKey(RunCalls(calls[..i]), key, window, calls[i])
  }

  ghost predicate Agree(rate: Rate, hist: seq<nat>, key: string, window: nat, now: nat) {
    Retain(HitsOf(rate, key), now, window) == Retain(hist, now, window)
  }

  lemma AgreeLater(rate: Rate, hist: seq<nat>, key: string, window: nat, n1: nat, n2: nat)
    requires n1 <= n2 && Agree(rate, hist, key, window, n1)
    ensures Agree(rate, hist, key, window, n2)
  {
    RetainTwice(HitsOf(rate, key), n1, n2, window);
    RetainTwice(hist, n1, n2, window);
  }

  lemma AllowHits(rate: Rate, c: Call, key: string)
    requires c.AllowCall?
    ensures HitsOf(AfterCall(rate, c), key)
            == if Sweeps(rate, c) && !AnyRecent(HitsAfterPush(rate, c, key), c.now, c.window) then []
               else HitsAfterPush(rate, c, key)
  {
    hide Retain, AnyRecent;
    var pruned := Retain(HitsOf(rate, c.key), c.now, c.window);
    assert rate[c.key := pruned + [c.now]].Keys == rate.Keys + {c.key};
    assert |rate[c.key := pruned + [c.now]]| == |rate[c.key := pruned + [c.now]].Keys|;
    if key !in rate && key != c.key {
      NoHitsNoneRecent(c.now, c.window);
    }
  }

  lemma NoHitsNoneRecent(now: nat, window: nat)
    ensures !AnyRecent([], now, window)
  {
  }

  // This key's hits after an `allow` call, before any sweep.
  function HitsAfterPush(rate: Rate, c: Call, key: string): seq<nat>
    requires c.AllowCall?
  {
    var pruned := Retain(HitsOf(rate, c.key), c.now, c.window);
    if key != c.key then HitsOf(rate, key)
    else if |pruned| >= c.max then pruned
    else pruned + [c.now]
  }

  lemma AgreeStep(rate: Rate, hist: seq<nat>, key: string, max: nat, window: nat, c: Call)
    requires Agree(rate, hist, key, window, c.now)
    requires OneSetting([c], key, max, window)
    requires !ForgetsKey(rate, key, window, c)
    ensures c.key == key ==> Answer(rate, c) == HistoryAnswer(hist, max, window, c)
    ensures var counts := c.key == key && !c.CooldownCall? && HistoryAnswer(hist, max, window, c);
            var hist' := if counts then hist + [c.now] else hist;
            Agree(AfterCall(rate, c), hist', key, window, c.now)
  {
    assert [c][0] == c;
    RetainCounts(HitsOf(rate, key), c.now, window);
    RetainCounts(hist, c.now, window);
    RetainAppend(hist, [c.now], c.now, window);
    RetainTwice(HitsOf(rate, key), c.now, c.now, window);
    match c {
      case CooldownCall(_, _, _) =>
      case RecordCall(_, _) => RetainAppend(HitsOf(rate, key), [c.now], c.now, window);
      case AllowCall(_, _, _, _) => AllowAgrees(rate, hist, key, max, window, c);
    }
  }

  lemma AllowAgrees(rate: Rate, hist: seq<nat>, key: string, max: nat, window: nat, c: Call)
    requires c.AllowCall? && Agree(rate, hist, key, window, c.now)
    requires OneSetting([c], key, max, window)
    requires !ForgetsKey(rate, key, window, c)
    ensures var hist' := if c.key == key && HistoryAnswer(hist, max, window, c) then hist + [c.now] else hist;
            Agree(AfterCall(rate, c), hist', key, window, c.now)
  {
    hide AfterCall, Sweeps, Recent;
    assert [c][0] == c;
    var pushed := HitsAfterPush(rate, c, key);
    var hist' := if c.key == key && HistoryAnswer(hist, max, window, c) then hist + [c.now] else hist;
    RetainCounts(hist, c.now, window);
    assert Retain(pushed, c.now, window) == Retain(hist', c.now, window) by {
      RetainTwice(HitsOf(rate, key), c.now, c.now, window);
      RetainAppend(hist, [c.now], c.now, window);
      RetainAppend(Retain(HitsOf(rate, key), c.now, window), [c.now], c.now, window);
    }
    AllowHits(rate, c, key);
    RetainNothing(pushed, c.now, window);
  }

  lemma PrefixUnforgotten(calls: seq<Call>, n: nat, key: string, window: nat)
    requires n <= |calls| && NothingForgotten(calls, key, window)
    ensures NothingForgotten(calls[..n], key, window)
  {
    hide AfterCall, ForgetsKey;
    assert forall i :: 0 <= i < n ==> calls[..n][..i] == calls[..i] && calls[..n][i] == calls[i];
  }

  lemma {:induction false} RunAgrees(calls: seq<Call>, key: string, max: nat, window: nat, now: nat)
    requires InOrder(calls) && OneSetting(calls, key, max, window) && NothingForgotten(calls, key, window)
    requires forall i :: 0 <= i < |calls| ==> calls[i].now <= now
    ensures Agree(RunCalls(calls), History(calls, key, max, window), key, window, now)
  {
    hide ForgetsKey, Agree, AfterCall, HistoryAnswer;
    if calls == [] {
      EmptyAgrees(key, window, now);
    } else {
      var n := |calls| - 1;
      var prefix, c := calls[..n], calls[n];
      PrefixUnforgotten(calls, n, key, window);
      RunAgrees(prefix, key, max, window, c.now);
      AgreeStep(RunCalls(prefix), History(prefix, key, max, window), key, max, window, c);
      AgreeLater(RunCalls(calls), History(calls, key, max, window), key, window, c.now, now);
    }
  }

  lemma EmptyAgrees(key: string, window: nat, now: nat)
    ensures Agree(map[], [], key, window, now)
  {
  }

  // Every answer the pruning map gives on a key, in any run of mixed calls on any keys, is
  // the answer of the full history, as long as no sweep takes a hit the key still counts.
  lemma LimiterRefinesHistory(calls: seq<Call>, key: string, max: nat, window: nat, i: nat)
    requires InOrder(calls) && OneSetting(calls, key, max, window) && NothingForgotten(calls, key, window)
    requires i < |calls| && calls[i].key == key
    ensures Answer(RunCalls(calls[..i]), calls[i])
            == HistoryAnswer(History(calls[..i], key, max, window), max, window, calls[i])
  {
    hide ForgetsKey, Answer, HistoryAnswer, AfterCall;
    var prefix := calls[..i];
    PrefixUnforgotten(calls, i, key, window);
    RunAgrees(prefix, key, max, window, calls[i].now);
    AgreeStep(RunCalls(prefix), History(prefix, key, max, window), key, max, window, calls[i]);
  }

  // After the call at `i` the map remembers of the key what the full history does.
  ghost predicate AgreesAfter(calls: seq<Call>, key: string, max: nat, window: nat, i: nat)
    requires i < |calls|
  {
    Agree(RunCalls(calls[..i + 1]), History(calls[..i + 1], key, max, window), key, window, calls[i].now)
  }

  ghost predicate ForgetsAt(calls: seq<Call>, key: string, window: nat, i: nat)
    requires i < |calls|
  {
    ForgetsKey(RunCalls(calls[..i]), key, window, calls[i])
  }

  lemma UnforgottenAgrees(calls: seq<Call>, key: string, max: nat, window: nat, i: nat)
    requires InOrder(calls) && OneSetting(calls, key, max, window) && NothingForgotten(calls, key, window)
    requires i < |calls|
    ensures AgreesAfter(calls, key, max, window, i)
  {
    hide ForgetsKey, Agree, RunCalls, History;
    PrefixUnforgotten(calls, i + 1, key, window);
    RunAgrees(calls[..i + 1], key, max, window, calls[i].now);
  }

  lemma AgreesBefore(calls: seq<Call>, key: string, max: nat, window: nat, i: nat)
    requires InOrder(calls) && i < |calls| && (i > 0 ==> AgreesAfter(calls, key, max, window, i - 1))
    ensures Agree(RunCalls(calls[..i]), History(calls[..i], key, max, window), key, window, calls[i].now)
  {
    hide Agree, AfterCall, HistoryAnswer;
    if i == 0 {
      EmptyAgrees(key, window, calls[0].now);
    } else {
      assert calls[..(i - 1) + 1] == calls[..i];
      AgreeLater(RunCalls(calls[..i]), History(calls[..i], key, max, window), key, window, calls[i - 1].now,
                 calls[i].now);
    }
  }

  lemma ForgettingIsSeen(rate: Rate, hist: seq<nat>, key: string, window: nat, c: Call)
    requires Agree(rate, hist, key, window, c.now) && ForgetsKey(rate, key, window, c)
    ensures c.key != key && !Agree(AfterCall(rate, c), hist, key, window, c.now)
  {
    hide AfterCall, Sweeps, Recent, AnyRecent;
    AllowHits(rate, c, key);
    RetainNothing(HitsOf(rate, key), c.now, window);
  }

  lemma AgreedIsUnforgotten(calls: seq<Call>, key: string, max: nat, window: nat, i: nat)
    requires InOrder(calls) && i < |calls| && (i > 0 ==> AgreesAfter(calls, key, max, window, i - 1))
    requires AgreesAfter(calls, key, max, window, i)
    ensures !ForgetsAt(calls, key, window, i)
  {
    hide ForgetsKey, Agree, AfterCall, HistoryAnswer;
    AgreesBefore(calls, key, max, window, i);
    if ForgetsAt(calls, key, window, i) {
      assert calls[..i + 1][..i] == calls[..i] && calls[..i + 1][i] == calls[i];
      ForgettingIsSeen(RunCalls(calls[..i]), History(calls[..i], key, max, window), key, window, calls[i]);
    }
  }

  // Throughout a run the map remembers of the key what the full history does, exactly when
  // no sweep in the run takes a hit the key still counts.
  lemma MemoryIsExactIff(calls: seq<Call>, key: string, max: nat, window: nat)
    requires InOrder(calls) && OneSetting(calls, key, max, window)
    ensures (forall i :: 0 <= i < |calls| ==> AgreesAfter(calls, key, max, window, i))
        <==> NothingForgotten(calls, key, window)
  {
    hide AgreesAfter, ForgetsKey, RunCalls;
    if NothingForgotten(calls, key, window) {
      forall i | 0 <= i < |calls| ensures AgreesAfter(calls, key, max, window, i) {
        UnforgottenAgrees(calls, key, max, window, i);
      }
    }
    if forall i :: 0 <= i < |calls| ==> AgreesAfter(calls, key, max, window, i) {
      forall i | 0 <= i < |calls| ensures !ForgetsAt(calls, key, window, i) {
        AgreedIsUnforgotten(calls, key, max, window, i);
      }
      assert forall i :: 0 <= i < |calls| ==> !ForgetsAt(calls, key, window, i) ==>
          !ForgetsKey(RunCalls(calls[..i]), key, window, calls[i]);
    }
  }

  function CountWithin(hits: seq<nat>, from: nat, window: nat): nat {
    if hits == [] then 0
    else CountWithin(hits[..|hits| - 1], from, window) + if from <= hits[|hits| - 1] < from + window then 1 else 0
  }

  lemma {:induction false} WithinIsRecent(hits: seq<nat>, from: nat, window: nat, now: nat)
    requires from <= now < from + window
    ensures CountWithin(hits, from, window) <= CountRecent(hits, now, window)
  {
    if hits != [] {
      WithinIsRecent(hits[..|hits| - 1], from, window, now);
    }
  }

  // A limited key admits at most `max` calls in any half-open interval of one window,
  // wherever the interval starts.
  lemma {:induction false} AtMostMaxPerWindow(calls: seq<Call>, key: string, max: nat, window: nat, from: nat)
    requires forall i :: 0 <= i < |calls| && calls[i].key == key ==> !calls[i].RecordCall?
    ensures CountWithin(History(calls, key, max, window), from, window) <= max
  {
    if calls != [] {
      var prefix, c := calls[..|calls| - 1], calls[|calls| - 1];
      AtMostMaxPerWindow(prefix, key, max, window, from);
      var hist := History(prefix, key, max, window);
      if History(calls, key, max, window) != hist {
        assert History(calls, key, max, window)[..|hist|] == hist;
        if from <= c.now < from + window {
          WithinIsRecent(hist, from, window, c.now);
        }
      }
    }
  }

  // ---------------------------------------------------------------- when a sweep is seen

  // A call on another key changes what this key remembers exactly when it sweeps, the key
  // has a hit inside its own window, and none inside the sweeping call's window.
  lemma SweepSeenIff(rate: Rate, key: string, window: nat, c: Call)
    requires c.AllowCall? && c.key != key
    ensures Retain(HitsOf(AfterCall(rate, c), key), c.now, window) != Retain(HitsOf(rate, key), c.now, window)
            <==> ForgetsKey(rate, key, window, c)
  {
    hide Sweeps, AfterCall, Recent, AnyRecent;
    AllowHits(rate, c, key);
    RetainNothing(HitsOf(rate, key), c.now, window);
  }

  function Repeat(c: char, n: nat): (s: string)
    ensures |s| == n && forall i :: 0 <= i < n ==> s[i] == c
  {
    if n == 0 then "" else [c] + Repeat(c, n - 1)
  }

  // All that is remembered happened at instant 0.
  predicate AllAtZero(rate: Rate) {
    forall k :: k in rate ==> rate[k] == [0]
  }

  // A new client's call at instant 0 is remembered beside everything else, sweep or not.
  lemma NewClientAtZero(rate: Rate, key: string, max: nat, window: nat)
    requires AllAtZero(rate) && key !in rate && max >= 1 && window >= 1
    ensures Allows(rate, key, max, window, 0)
    ensures AfterAllow(rate, key, max, window, 0) == rate[key := [0]]
    ensures AllAtZero(rate[key := [0]]) && |rate[key := [0]]| == |rate| + 1
  {
    var pushed := rate[key := [0]];
    assert pushed.Keys == rate.Keys + {key};
    assert |pushed| == |pushed.Keys| && |rate| == |rate.Keys|;
    assert [] + [0] == [0];
    forall k | k in pushed ensures AnyRecent(pushed[k], 0, window) {
      assert Recent(pushed[k][0], 0, window);
    }
    assert Cleanup(pushed, 0, window) == pushed;
  }

  // A new client's call, one window later, on a full map wipes everything else out.
  lemma LateClientSweeps(rate: Rate, key: string, max: nat, window: nat)
    requires AllAtZero(rate) && key !in rate && max >= 1 && window >= 1 && |rate| >= MAX_KEYS
    ensures Allows(rate, key, max, window, window)
    ensures AfterAllow(rate, key, max, window, window) == map[key := [window]]
  {
    var pushed := rate[key := [window]];
    assert pushed.Keys == rate.Keys + {key};
    assert |pushed| == |pushed.Keys| && |rate| == |rate.Keys|;
    assert [] + [window] == [window];
    assert Recent(pushed[key][0], window, window);
    assert forall k :: k in rate ==> !AnyRecent(pushed[k], window, window);
    assert Cleanup(pushed, window, window) == map[key := [window]];
  }

  // One name change and then `n` reads by as many clients, all at instant 0.
  function CrowdCalls(n: nat): seq<Call> {
    if n == 0 then [RecordCall(BucketKey("namechange", "k"), 0)]
    else CrowdCalls(n - 1) + [AllowCall(BucketKey("read", Repeat('x', n)), 120, 60 * SECOND, 0)]
  }

  ghost predicate Crowded(rate: Rate, n: nat) {
    && AllAtZero(rate) && |rate| == n + 1
    && BucketKey("namechange", "k") in rate
    && forall who: string :: |who| > n ==> BucketKey("read", who) !in rate
  }

  lemma CrowdGrows(rate: Rate, n: nat)
    requires Crowded(rate, n)
    ensures Crowded(AfterAllow(rate, BucketKey("read", Repeat('x', n + 1)), 120, 60 * SECOND, 0), n + 1)
  {
    hide BucketKey, AfterAllow, Allows;
    var key := BucketKey("read", Repeat('x', n + 1));
    NewClientAtZero(rate, key, 120, 60 * SECOND);
    forall who: string | |who| > n + 1 ensures BucketKey("read", who) != key {
      if BucketKey("read", who) == key { BucketKeyInjective("read", who, "read", Repeat('x', n + 1)); }
    }
  }

  lemma CrowdStarts()
    ensures Crowded(AfterRecord(map[], BucketKey("namechange", "k"), 0), 0)
  {
    hide BucketKey;
    assert [] + [0] == [0];
    forall who: string ensures BucketKey("read", who) != BucketKey("namechange", "k") {
      if BucketKey("read", who) == BucketKey("namechange", "k") { BucketKeyInjective("read", who, "namechange", "k"); }
    }
  }

  lemma {:induction false} CrowdRate(n: nat)
    ensures |CrowdCalls(n)| == n + 1 && forall i :: 0 <= i < |CrowdCalls(n)| ==> CrowdCalls(n)[i].now == 0
    ensures Crowded(RunCalls(CrowdCalls(n)), n)
  {
    hide BucketKey, AfterAllow, AfterRecord, Crowded;
    var calls := CrowdCalls(n);
    if n == 0 {
      assert calls[..0] == [];
      CrowdStarts();
    } else {
      CrowdRate(n - 1);
      assert calls[..|calls| - 1] == CrowdCalls(n - 1);
      CrowdGrows(RunCalls(CrowdCalls(n - 1)), n - 1);
    }
  }

  // Two ways to be on the safe side throughout a run.
  lemma SafeRuns(calls: seq<Call>, key: string, max: nat, window: nat)
    requires InOrder(calls) && OneSetting(calls, key, max, window)
    requires || (forall i :: 0 <= i < |calls| && calls[i].AllowCall? ==> calls[i].window >= window)
             || (forall i :: 0 <= i < |calls| ==> |RunCalls(calls[..i])| < 50_000)
    ensures forall i :: 0 <= i < |calls| ==> AgreesAfter(calls, key, max, window, i)
  {
    hide AgreesAfter, ForgetsKey, RunCalls, OneSetting;
    forall i | 0 <= i < |calls| ensures !ForgetsKey(RunCalls(calls[..i]), key, window, calls[i]) {
      if |RunCalls(calls[..i])| < 50_000 {
        SmallMapSpares(RunCalls(calls[..i]), key, window, calls[i]);
      } else if calls[i].AllowCall? {
        LongWindowSpares(RunCalls(calls[..i]), key, window, calls[i]);
      } else {
        OnlyAllowForgets(RunCalls(calls[..i]), key, window, calls[i]);
      }
    }
    MemoryIsExactIff(calls, key, max, window);
  }

  lemma OnlyAllowForgets(rate: Rate, key: string, window: nat, c: Call)
    requires !c.AllowCall?
    ensures !ForgetsKey(rate, key, window, c)
  {
  }

  // With the default windows a sweep does get noticed: in this run of 50,001 calls the
  // last one, an admitted read by a new client a minute after the name change, makes the
  // 10-minute cooldown disappear.
  lemma SweepForgetsCooldown() returns (calls: seq<Call>, n: nat)
    ensures InOrder(calls) && n == 50_000 && |calls| == n + 1
    ensures calls[n].AllowCall? && calls[n].window == 60 * SECOND && Answer(RunCalls(calls[..n]), calls[n])
    ensures CoolingDown(RunCalls(calls[..n]), BucketKey("namechange", "k"), 600 * SECOND, calls[n].now)
    ensures !CoolingDown(RunCalls(calls), BucketKey("namechange", "k"), 600 * SECOND, calls[n].now)
  {
    hide BucketKey, AfterAllow, Allows, CrowdCalls;
    var early := CrowdCalls(MAX_KEYS - 1);
    n := |early|;
    CrowdRate(MAX_KEYS - 1);
    var key := BucketKey("read", Repeat('x', MAX_KEYS));
    var last := AllowCall(key, 120, 60 * SECOND, 60 * SECOND);
    calls := early + [last];
    assert calls[..n] == early;
    LateClientSweeps(RunCalls(early), key, 120, 60 * SECOND);
    assert Retain([0], 60 * SECOND, 600 * SECOND) == [0];
  }
}
