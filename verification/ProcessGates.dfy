/** The rate limiter and the replay set as the whole process sees them, over serialized runs. */
module ProcessGates {
  import opened Prelude
  import opened Auth
  import opened RateLimit
  import opened RateHistory
  import opened Replay
  import opened Api
  import opened Protocol
  import opened Serialized
  import opened AntiChurn

  // The limiter's clock does not run backwards.
  predicate MonoForward(turns: seq<Turn>) {
    forall i, j :: 0 <= i < j < |turns| ==> turns[i].env.limitAt <= turns[j].env.limitAt
  }

  // ---------------------------------------------------------------- request ceilings

  // The route is limited together with `like` for one client: same bucket, same address.
  predicate SameBudget(t: Turn, like: Target, ip: string) {
    BucketOf(t.req.target) == BucketOf(like) && t.req.ip == ip
  }

  predicate PassesLimit(cfg: Config, s: AppState, t: Turn) {
    Gate(cfg, s, t.req, t.env).verdict != Err(RateLimited)
  }

  // When the requests on this budget that got past the limiter were made.
  ghost function Admissions(cfg: Config, turns: seq<Turn>, like: Target, ip: string): seq<nat> {
    if turns == [] then []
    else
      var prefix, t := turns[..|turns| - 1], turns[|turns| - 1];
      Admissions(cfg, prefix, like, ip)
      + if SameBudget(t, like, ip) && PassesLimit(cfg, Run(cfg, Boot, prefix), t) then [t.env.limitAt] else []
  }

  // The request's sweep takes nothing this budget still counts.
  ghost predicate SparesBudget(cfg: Config, turns: seq<Turn>, like: Target, ip: string, i: nat)
    requires i < |turns|
  {
    !ForgetsKey(Run(cfg, Boot, turns[..i]).rate, BucketKey(BucketOf(like), ip), WindowOf(cfg, like),
                LimitCall(cfg, turns[i]))
  }

  ghost predicate BudgetSpared(cfg: Config, turns: seq<Turn>, like: Target, ip: string) {
    forall i :: 0 <= i < |turns| ==> SparesBudget(cfg, turns, like, ip, i)
  }

  lemma PassesIffAllowed(cfg: Config, s: AppState, t: Turn)
    ensures PassesLimit(cfg, s, t) <==> Answer(s.rate, LimitCall(cfg, t))
  {
    hide VerifyNip98, BucketKey, AfterAllow, Retain;
  }

  // The calls a request makes after the limiter touch cooldown keys only.
  lemma OtherKeysKept(cfg: Config, s: AppState, t: Turn, like: Target, ip: string)
    ensures var key := BucketKey(BucketOf(like), ip);
            HitsOf(Serve(cfg, s, t.req, t.env).state.rate, key) == HitsOf(AfterCall(s.rate, LimitCall(cfg, t)), key)
  {
    hide BucketKey, AfterAllow, Gate, Complete, Begin;
    forall k: string ensures BucketKey(BucketOf(like), ip) != BucketKey("namechange", k) {
      BucketsApart(like, ip, k);
    }
    GateKeepsOthers(cfg, s, t, like, ip);
  }

  lemma GateKeepsOthers(cfg: Config, s: AppState, t: Turn, like: Target, ip: string)
    ensures var key := BucketKey(BucketOf(like), ip);
            HitsOf(Gate(cfg, s, t.req, t.env).rate, key) == HitsOf(AfterCall(s.rate, LimitCall(cfg, t)), key)
  {
    hide VerifyNip98, BucketKey, AfterAllow, Allows, Retain, AfterAuth, FirstUse, ReplayWindow, CoolingDown;
    forall k: string ensures BucketKey(BucketOf(like), ip) != BucketKey("namechange", k) {
      BucketsApart(like, ip, k);
    }
  }

  lemma TurnAgrees(cfg: Config, s: AppState, t: Turn, hist: seq<nat>, like: Target, ip: string)
    requires Agree(s.rate, hist, BucketKey(BucketOf(like), ip), WindowOf(cfg, like), t.env.limitAt)
    requires !ForgetsKey(s.rate, BucketKey(BucketOf(like), ip), WindowOf(cfg, like), LimitCall(cfg, t))
    ensures SameBudget(t, like, ip) ==>
              (PassesLimit(cfg, s, t) <==> CountRecent(hist, t.env.limitAt, WindowOf(cfg, like)) < MaxOf(cfg, like))
    ensures var hist' := hist + if SameBudget(t, like, ip) && PassesLimit(cfg, s, t) then [t.env.limitAt] else [];
            Agree(Serve(cfg, s, t.req, t.env).state.rate, hist', BucketKey(BucketOf(like), ip), WindowOf(cfg, like),
                  t.env.limitAt)
  {
    hide ForgetsKey, Serve, BucketKey, PassesLimit, AfterCall, Answer;
    var key, c := BucketKey(BucketOf(like), ip), LimitCall(cfg, t);
    if c.key == key {
      SameKeySameBudget(t, like, ip);
    }
    AgreeStep(s.rate, hist, key, MaxOf(cfg, like), WindowOf(cfg, like), c);
    PassesIffAllowed(cfg, s, t);
    OtherKeysKept(cfg, s, t, like, ip);
    assert hist + [] == hist;
  }

  lemma SameKeySameBudget(t: Turn, like: Target, ip: string)
    requires BucketKey(BucketOf(t.req.target), t.req.ip) == BucketKey(BucketOf(like), ip)
    ensures SameBudget(t, like, ip) && IsRead(t.req.target) == IsRead(like)
  {
    BucketKeyInjective(BucketOf(t.req.target), t.req.ip, BucketOf(like), ip);
    assert "read"[2] == 'a' && "reg"[2] == 'g' && "unreg"[0] == 'u' && "transfer"[0] == 't';
  }

  lemma PrefixSpared(cfg: Config, turns: seq<Turn>, n: nat, like: Target, ip: string)
    requires n <= |turns| && BudgetSpared(cfg, turns, like, ip)
    ensures BudgetSpared(cfg, turns[..n], like, ip)
  {
    hide Run, ForgetsKey;
    forall i | 0 <= i < n ensures SparesBudget(cfg, turns[..n], like, ip, i) {
      assert turns[..n][..i] == turns[..i] && turns[..n][i] == turns[i];
      assert SparesBudget(cfg, turns, like, ip, i);
    }
  }

  lemma {:induction false} ProcessAgrees(cfg: Config, turns: seq<Turn>, like: Target, ip: string, now: nat)
    requires MonoForward(turns) && BudgetSpared(cfg, turns, like, ip)
    requires forall i :: 0 <= i < |turns| ==> turns[i].env.limitAt <= now
    ensures Remembers(cfg, turns, like, ip, now)
  {
    hide Serve, ForgetsKey, Agree, BucketKey, PassesLimit;
    var key := BucketKey(BucketOf(like), ip);
    if turns == [] {
      EmptyAgrees(key, WindowOf(cfg, like), now);
    } else {
      var n := |turns| - 1;
      var prefix, t := turns[..n], turns[n];
      PrefixSpared(cfg, turns, n, like, ip);
      ProcessAgrees(cfg, prefix, like, ip, t.env.limitAt);
      assert SparesBudget(cfg, turns, like, ip, n);
      TurnAgrees(cfg, Run(cfg, Boot, prefix), t, Admissions(cfg, prefix, like, ip), like, ip);
      AgreeLater(Run(cfg, Boot, turns).rate, Admissions(cfg, turns, like, ip), key, WindowOf(cfg, like), t.env.limitAt,
                 now);
    }
  }

  // What the process remembers of a budget is what its full history of admissions says.
  ghost predicate Remembers(cfg: Config, turns: seq<Turn>, like: Target, ip: string, now: nat) {
    Agree(Run(cfg, Boot, turns).rate, Admissions(cfg, turns, like, ip), BucketKey(BucketOf(like), ip),
          WindowOf(cfg, like), now)
  }

  ghost predicate RemembersAfter(cfg: Config, turns: seq<Turn>, like: Target, ip: string, i: nat)
    requires i < |turns|
  {
    Remembers(cfg, turns[..i + 1], like, ip, turns[i].env.limitAt)
  }

  lemma RemembersBefore(cfg: Config, turns: seq<Turn>, like: Target, ip: string, i: nat)
    requires MonoForward(turns) && i < |turns| && (i > 0 ==> RemembersAfter(cfg, turns, like, ip, i - 1))
    ensures Remembers(cfg, turns[..i], like, ip, turns[i].env.limitAt)
  {
    hide Agree, Serve, BucketKey, PassesLimit;
    var key := BucketKey(BucketOf(like), ip);
    if i == 0 {
      EmptyAgrees(key, WindowOf(cfg, like), turns[0].env.limitAt);
    } else {
      assert turns[..(i - 1) + 1] == turns[..i];
      AgreeLater(Run(cfg, Boot, turns[..i]).rate, Admissions(cfg, turns[..i], like, ip), key, WindowOf(cfg, like),
                 turns[i - 1].env.limitAt, turns[i].env.limitAt);
    }
  }

  lemma RememberedIsSpared(cfg: Config, turns: seq<Turn>, like: Target, ip: string, i: nat)
    requires MonoForward(turns) && i < |turns| && (i > 0 ==> RemembersAfter(cfg, turns, like, ip, i - 1))
    requires RemembersAfter(cfg, turns, like, ip, i)
    ensures SparesBudget(cfg, turns, like, ip, i)
  {
    hide Agree, Serve, BucketKey, PassesLimit, ForgetsKey, AfterCall;
    RemembersBefore(cfg, turns, like, ip, i);
    if !SparesBudget(cfg, turns, like, ip, i) {
      var s, t := Run(cfg, Boot, turns[..i]), turns[i];
      var hist := Admissions(cfg, turns[..i], like, ip);
      assert turns[..i + 1][..i] == turns[..i] && turns[..i + 1][i] == t;
      ForgettingIsSeen(s.rate, hist, BucketKey(BucketOf(like), ip), WindowOf(cfg, like), LimitCall(cfg, t));
      assert hist + [] == hist;
      OtherKeysKept(cfg, s, t, like, ip);
      SameHitsAgree(Serve(cfg, s, t.req, t.env).state.rate, AfterCall(s.rate, LimitCall(cfg, t)), hist,
                    BucketKey(BucketOf(like), ip), WindowOf(cfg, like), t.env.limitAt);
    }
  }

  lemma SameHitsAgree(a: Rate, b: Rate, hist: seq<nat>, key: string, window: nat, now: nat)
    requires HitsOf(a, key) == HitsOf(b, key)
    ensures Agree(a, hist, key, window, now) <==> Agree(b, hist, key, window, now)
  {
  }

  // Throughout a run the process remembers a client's budget exactly, if and only if no
  // request's sweep takes an admission the budget still counts.
  lemma BudgetIsExactIff(cfg: Config, turns: seq<Turn>, like: Target, ip: string)
    requires MonoForward(turns)
    ensures (forall i :: 0 <= i < |turns| ==> RemembersAfter(cfg, turns, like, ip, i))
        <==> BudgetSpared(cfg, turns, like, ip)
  {
    hide Remembers, SparesBudget;
    if BudgetSpared(cfg, turns, like, ip) {
      forall i | 0 <= i < |turns| ensures RemembersAfter(cfg, turns, like, ip, i) {
        PrefixSpared(cfg, turns, i + 1, like, ip);
        ProcessAgrees(cfg, turns[..i + 1], like, ip, turns[i].env.limitAt);
      }
    }
    if forall i :: 0 <= i < |turns| ==> RemembersAfter(cfg, turns, like, ip, i) {
      forall i | 0 <= i < |turns| ensures SparesBudget(cfg, turns, like, ip, i) {
        RememberedIsSpared(cfg, turns, like, ip, i);
      }
    }
  }

  // As long as nothing the client's budget counts is swept away, each of its requests gets
  // past the limiter exactly when fewer than the ceiling of its earlier admitted requests
  // on the bucket fall inside the window.
  lemma LimiterIsExact(cfg: Config, turns: seq<Turn>, t: Turn)
    requires MonoForward(turns + [t]) && BudgetSpared(cfg, turns, t.req.target, t.req.ip)
    ensures PassesLimit(cfg, Run(cfg, Boot, turns), t)
            <==> CountRecent(Admissions(cfg, turns, t.req.target, t.req.ip), t.env.limitAt, WindowOf(cfg, t.req.target))
                 < MaxOf(cfg, t.req.target)
  {
    hide Serve, Sweeps, PassesLimit, BucketKey, Agree, SparesBudget;
    var all := turns + [t];
    assert all[..|turns|] == turns && all[|turns|] == t;
    assert forall i :: 0 <= i < |turns| ==> turns[i] == all[i];
    ProcessAgrees(cfg, turns, t.req.target, t.req.ip, t.env.limitAt);
    OwnSweepSpares(cfg, Run(cfg, Boot, turns), t);
    TurnAgrees(cfg, Run(cfg, Boot, turns), t, Admissions(cfg, turns, t.req.target, t.req.ip), t.req.target, t.req.ip);
  }

  lemma OwnSweepSpares(cfg: Config, s: AppState, t: Turn)
    ensures !ForgetsKey(s.rate, BucketKey(BucketOf(t.req.target), t.req.ip), WindowOf(cfg, t.req.target),
                        LimitCall(cfg, t))
  {
  }

  // So no client gets more than the ceiling through in any half-open interval of a window.
  lemma {:induction false} CeilingHolds(cfg: Config, turns: seq<Turn>, like: Target, ip: string, from: nat)
    requires MonoForward(turns) && BudgetSpared(cfg, turns, like, ip)
    ensures CountWithin(Admissions(cfg, turns, like, ip), from, WindowOf(cfg, like)) <= MaxOf(cfg, like)
  {
    hide Serve, ForgetsKey, PassesLimit, BucketKey, Agree, CountWithin, CountRecent, Run;
    if turns == [] {
      NothingWithin(from, WindowOf(cfg, like));
    } else {
      var n := |turns| - 1;
      var prefix, t := turns[..n], turns[n];
      PrefixSpared(cfg, turns, n, like, ip);
      CeilingHolds(cfg, prefix, like, ip, from);
      var hist := Admissions(cfg, prefix, like, ip);
      ProcessAgrees(cfg, prefix, like, ip, t.env.limitAt);
      assert SparesBudget(cfg, turns, like, ip, n);
      TurnAgrees(cfg, Run(cfg, Boot, prefix), t, hist, like, ip);
      OneMoreWithin(hist, t.env.limitAt, from, WindowOf(cfg, like), MaxOf(cfg, like),
                    SameBudget(t, like, ip) && PassesLimit(cfg, Run(cfg, Boot, prefix), t));
    }
  }

  // What an operator can check: if no bucket has a shorter window than this one, its
  // ceiling holds in every run.
  lemma ShortestWindowCeiling(cfg: Config, turns: seq<Turn>, like: Target, ip: string, from: nat)
    requires MonoForward(turns)
    requires WindowOf(cfg, like) <= cfg.readRateWindow && WindowOf(cfg, like) <= cfg.writeRateWindow
    ensures CountWithin(Admissions(cfg, turns, like, ip), from, WindowOf(cfg, like)) <= MaxOf(cfg, like)
  {
    hide Admissions, CountWithin, BucketKey, Run, ForgetsKey;
    forall i | 0 <= i < |turns| ensures SparesBudget(cfg, turns, like, ip, i) {
      LongWindowSpares(Run(cfg, Boot, turns[..i]).rate, BucketKey(BucketOf(like), ip), WindowOf(cfg, like),
                       LimitCall(cfg, turns[i]));
    }
    CeilingHolds(cfg, turns, like, ip, from);
  }

  // Likewise as long as the map stays below 50,000 keys.
  lemma SmallMapCeiling(cfg: Config, turns: seq<Turn>, like: Target, ip: string, from: nat)
    requires MonoForward(turns) && forall i :: 0 <= i < |turns| ==> |Run(cfg, Boot, turns[..i]).rate| < 50_000
    ensures CountWithin(Admissions(cfg, turns, like, ip), from, WindowOf(cfg, like)) <= MaxOf(cfg, like)
  {
    hide Admissions, CountWithin, BucketKey, Run, ForgetsKey;
    forall i | 0 <= i < |turns| ensures SparesBudget(cfg, turns, like, ip, i) {
      SmallMapSpares(Run(cfg, Boot, turns[..i]).rate, BucketKey(BucketOf(like), ip), WindowOf(cfg, like),
                     LimitCall(cfg, turns[i]));
    }
    CeilingHolds(cfg, turns, like, ip, from);
  }

  lemma NothingWithin(from: nat, window: nat)
    ensures CountWithin([], from, window) == 0
  {
  }

  lemma OneMoreWithin(hist: seq<nat>, now: nat, from: nat, window: nat, max: nat, admitted: bool)
    requires CountWithin(hist, from, window) <= max
    requires admitted ==> CountRecent(hist, now, window) < max
    ensures CountWithin(hist + if admitted then [now] else [], from, window) <= max
  {
    if admitted {
      assert (hist + [now])[..|hist|] == hist;
      if from <= now < from + window {
        WithinIsRecent(hist, from, window, now);
      }
    } else {
      assert hist + [] == hist;
    }
  }

  // ---------------------------------------------------------------- one use per auth event

  // The request presented this event and its use was recorded.
  predicate UsedEvent(cfg: Config, s: AppState, t: Turn, e: AuthEvent) {
    && !IsRead(t.req.target) && t.req.auth == Some(e)
    && PassesLimit(cfg, s, t)
    && Verified(cfg, t)
    && FirstUse(s.seen, e.id, ReplayWindow(cfg.authMaxAge), t.env.usedAt)
  }

  predicate Verified(cfg: Config, t: Turn) {
    VerifyNip98(cfg.lib, t.req.auth, VerbOf(t.req.target), cfg.baseUrl + PathOf(t.req.target), SignedBody(t.req),
                cfg.authMaxAge, t.env.authWall).Ok?
  }

  lemma VerifiedIsFresh(cfg: Config, t: Turn)
    requires Verified(cfg, t)
    ensures t.req.auth.Some? && FreshAge(Age(t.env.authWall, t.req.auth.value.createdAt), cfg.authMaxAge)
    ensures VerifyNip98(cfg.lib, t.req.auth, VerbOf(t.req.target), cfg.baseUrl + PathOf(t.req.target),
                        SignedBody(t.req), cfg.authMaxAge, t.env.authWall).value.eventId
            == t.req.auth.value.id
  {
    hide Last, UrlOk, MethodOk;
  }

  lemma UseIsRecorded(cfg: Config, s: AppState, t: Turn, e: AuthEvent)
    requires UsedEvent(cfg, s, t, e)
    ensures var seen := Serve(cfg, s, t.req, t.env).state.seen; e.id in seen && seen[e.id] == t.env.usedAt
  {
    VerifiedIsFresh(cfg, t);
    hide VerifyNip98, BucketKey, AfterAllow, AfterCooldown, CoolingDown, Complete, Begin, ReplayWindow, Retain;
  }

  lemma TurnKeepsId(cfg: Config, s: AppState, t: Turn, id: string, at: nat)
    requires id in s.seen && at <= s.seen[id] && 0 <= t.env.usedAt - at < ReplayWindow(cfg.authMaxAge)
    ensures var seen := Serve(cfg, s, t.req, t.env).state.seen; id in seen && at <= seen[id]
  {
    hide VerifyNip98, BucketKey, AfterAllow, AfterCooldown, CoolingDown, Complete, Begin, ReplayWindow, Retain;
  }

  lemma {:induction false} RunKeepsId(cfg: Config, s: AppState, turns: seq<Turn>, id: string, at: nat, until: nat)
    requires id in s.seen && at <= s.seen[id] && until - at < ReplayWindow(cfg.authMaxAge)
    requires forall i :: 0 <= i < |turns| ==> at <= turns[i].env.usedAt <= until
    ensures id in Run(cfg, s, turns).seen && at <= Run(cfg, s, turns).seen[id]
  {
    hide Serve, ReplayWindow;
    if turns != [] {
      RunKeepsId(cfg, s, turns[..|turns| - 1], id, at, until);
      TurnKeepsId(cfg, Run(cfg, s, turns[..|turns| - 1]), turns[|turns| - 1], id, at);
    }
  }

  // The request's age test read the wall clock at monotone instant `c`, and it came to
  // the replay set at most `slack` nanoseconds later.
  predicate TestedAt(t: Turn, offset: int, slack: nat, c: nat) {
    t.env.authWall == WallSeconds(c, offset) && c <= t.env.usedAt <= c + slack
  }

  // With the two clocks in step, an auth event whose use was recorded late enough, no more
  // than four seconds ahead of its stamp with the slack taken off, is good for one
  // request: whatever is served in between, every later request that presents it is refused.
  lemma AuthEventWorksOnce(cfg: Config, s: AppState, first: Turn, more: seq<Turn>, again: Turn, e: AuthEvent,
                           offset: int, slack: nat, c: nat)
    requires UsedEvent(cfg, s, first, e)
    requires first.env.usedAt + offset >= (ToI64(e.createdAt) - 4) * SECOND + slack
    requires forall i :: 0 <= i < |more| ==> first.env.usedAt <= more[i].env.usedAt <= again.env.usedAt
    requires first.env.usedAt <= again.env.usedAt && TestedAt(again, offset, slack, c)
    requires !IsRead(again.req.target) && again.req.auth == Some(e)
    ensures Gate(cfg, Run(cfg, Serve(cfg, s, first.req, first.env).state, more), again.req, again.env).verdict.Err?
  {
    hide Serve, Run, BucketKey, AfterAllow, Allows, AfterCooldown, CoolingDown, WallSeconds, ReplayWindow, VerifyNip98;
    var start := Serve(cfg, s, first.req, first.env).state;
    UseIsRecorded(cfg, s, first, e);
    VerifiedIsFresh(cfg, first);
    WindowInSeconds(cfg.authMaxAge);
    if again.env.usedAt - first.env.usedAt < ReplayWindow(cfg.authMaxAge) {
      RunKeepsId(cfg, start, more, e.id, first.env.usedAt, again.env.usedAt);
    } else {
      LastInstantOf(c + offset, ToI64(e.createdAt) + cfg.authMaxAge);
      assert again.env.authWall == (c + offset) / SECOND by { InStep(again, offset, slack, c); }
    }
    if Verified(cfg, again) {
      VerifiedIsFresh(cfg, again);
    }
  }

  lemma InStep(t: Turn, offset: int, slack: nat, c: nat)
    requires TestedAt(t, offset, slack, c)
    ensures t.env.authWall == (c + offset) / SECOND
  {
  }

  // ---------------------------------------------------------------- and when it works twice

  lemma LongestKey(keys: set<string>) returns (n: nat)
    ensures forall k :: k in keys ==> |k| <= n
  {
    n := 0;
    var rest := keys;
    while rest != {}
      invariant rest <= keys
      invariant forall k :: k in keys && k !in rest ==> |k| <= n
    {
      var k :| k in rest;
      if |k| > n { n := |k|; }
      rest := rest - {k};
    }
  }

  // There is always a client the limiter has never met.
  lemma NewClient(rate: Rate, bucket: string) returns (ip: string)
    ensures BucketKey(bucket, ip) !in rate
  {
    var n := LongestKey(rate.Keys);
    ip := Repeat('x', n);
    assert |BucketKey(bucket, ip)| > n;
  }

  lemma NewClientPasses(cfg: Config, s: AppState, t: Turn)
    requires BucketKey(BucketOf(t.req.target), t.req.ip) !in s.rate && MaxOf(cfg, t.req.target) >= 1
    ensures PassesLimit(cfg, s, t)
  {
    hide BucketKey, VerifyNip98, AfterAllow;
  }

  lemma PassedMeansSome(cfg: Config, s: AppState, t: Turn)
    requires PassesLimit(cfg, s, t)
    ensures MaxOf(cfg, t.req.target) >= 1
  {
    hide BucketKey, VerifyNip98, AfterAllow;
  }

  // Only the age test depends on the clock.
  lemma VerifiedLater(cfg: Config, first: Turn, again: Turn)
    requires Verified(cfg, first) && again.req.(ip := first.req.ip) == first.req
    requires FreshAge(Age(again.env.authWall, first.req.auth.value.createdAt), cfg.authMaxAge)
    ensures Verified(cfg, again)
  {
    hide Last, UrlOk, MethodOk, Age;
  }

  // The same request, sent again after the first was answered, perhaps from another address.
  predicate SentAgain(first: Turn, again: Turn) {
    again.req.(ip := first.req.ip) == first.req && Within(again.env, first.env.armAt, again.env.armAt)
  }

  ghost predicate UsedTwice(cfg: Config, s: AppState, first: Turn, again: Turn, e: AuthEvent, offset: int, slack: nat,
                            c: nat) {
    && SentAgain(first, again) && again.env.limitAt <= c && TestedAt(again, offset, slack, c)
    && UsedEvent(cfg, Serve(cfg, s, first.req, first.env).state, again, e)
  }

  // The first use came more than four seconds, less the slack, ahead of the stamp, and was
  // answered while the event was still fresh.
  predicate Reusable(cfg: Config, first: Turn, e: AuthEvent, offset: int, slack: nat) {
    && first.env.usedAt + offset < (ToI64(e.createdAt) - 4) * SECOND + slack
    && first.env.armAt + offset < (ToI64(e.createdAt) + cfg.authMaxAge + 1) * SECOND
  }

  // The bound is sharp: an event used that early, and no other, can be used a second time.
  lemma AuthEventReusableIff(cfg: Config, s: AppState, first: Turn, e: AuthEvent, offset: int, slack: nat)
    requires UsedEvent(cfg, s, first, e) && Within(first.env, 0, first.env.armAt)
    ensures (exists again, c :: UsedTwice(cfg, s, first, again, e, offset, slack, c))
            <==> Reusable(cfg, first, e, offset, slack)
  {
    hide Serve, UsedEvent, TestedAt, Reusable;
    if again, c :| UsedTwice(cfg, s, first, again, e, offset, slack, c) {
      UsedTwiceIsEarly(cfg, s, first, again, e, offset, slack, c);
    }
    if Reusable(cfg, first, e, offset, slack) {
      var again, c := EarlyIsUsedTwice(cfg, s, first, e, offset, slack);
    }
  }

  lemma UsedTwiceIsEarly(cfg: Config, s: AppState, first: Turn, again: Turn, e: AuthEvent, offset: int, slack: nat,
                         c: nat)
    requires UsedEvent(cfg, s, first, e) && Within(first.env, 0, first.env.armAt)
    requires UsedTwice(cfg, s, first, again, e, offset, slack, c)
    ensures Reusable(cfg, first, e, offset, slack)
  {
    hide Serve, BucketKey, AfterAllow, Allows, WallSeconds, ReplayWindow, VerifyNip98, PassesLimit;
    UseIsRecorded(cfg, s, first, e);
    VerifiedIsFresh(cfg, first);
    VerifiedIsFresh(cfg, again);
    WindowInSeconds(cfg.authMaxAge);
    InStep(again, offset, slack, c);
    LastInstantOf(c + offset, ToI64(e.createdAt) + cfg.authMaxAge);
  }

  lemma EarlyIsUsedTwice(cfg: Config, s: AppState, first: Turn, e: AuthEvent, offset: int, slack: nat)
    returns (again: Turn, c: nat)
    requires UsedEvent(cfg, s, first, e) && Reusable(cfg, first, e, offset, slack)
    ensures UsedTwice(cfg, s, first, again, e, offset, slack, c)
  {
    hide Serve, BucketKey, AfterAllow, Allows, ReplayWindow, VerifyNip98, PassesLimit;
    var created, maxAge := ToI64(e.createdAt), cfg.authMaxAge;
    UseIsRecorded(cfg, s, first, e);
    VerifiedIsFresh(cfg, first);
    WindowInSeconds(maxAge);
    var start := Serve(cfg, s, first.req, first.env).state;
    var ip := NewClient(start.rate, BucketOf(first.req.target));
    c := (created + maxAge + 1) * SECOND - 1 - offset;
    var u: nat := if c > first.env.usedAt + (maxAge + 5) * SECOND then c else first.env.usedAt + (maxAge + 5) * SECOND;
    LastInstantOf(c + offset, created + maxAge);
    again := Turn(first.req.(ip := ip), Env(c, WallSeconds(c, offset), u, u, first.env.inp, u));
    VerifiedLater(cfg, first, again);
    PassedMeansSome(cfg, s, first);
    NewClientPasses(cfg, start, again);
  }
}
