/** Where the program does less than it says: a sweep that ends a cooldown early, prices that
    can be lodged and never claimed, and the exact lodging window of an offer. */
module Shortfalls {
  import opened Prelude
  import opened Names
  import opened Proof
  import opened Auth
  import opened RateLimit
  import opened RateHistory
  import opened Tables
  import opened Api
  import opened Protocol
  import opened Interleaving
  import opened Serialized
  import opened Solo
  import opened Effects
  import opened SerialRuns
  import opened AntiChurn
  import opened Runs

  // ---------------------------------------------------------------- prices

  // Any well-formed offer with a price of 2^63 or more is lodged in some run; by
  // AnyRun.HugePriceNeverClaimed nobody can ever buy it.
  lemma HugePriceIsLodged(cfg: Config, name: string, seller: string, e: OfferEvent, inp: Input)
    returns (acts: seq<Action>)
    requires GoodName(cfg, name) && ValidPubkeyHex(seller)
    requires var built := RowFromEvent(cfg, seller, Some(e), inp.now); built.Ok? && built.value.name == name
    requires SignedPrice(cfg, e).Some? && SignedPrice(cfg, e).value >= TWO63
    ensures var offers := Exec(cfg, Start, acts).db.offers;
            e.id in offers && offers[e.id].event == e && offers[e.id].status == Live && offers[e.id].price < 0
  {
    hide GoodName, Exec, RowFromEvent, SignedPrice;
    EmptyRun(cfg);
    NobodyHasName(seller);
    acts := RegisterNow(cfg, [], name, seller, inp);
    acts := LodgeAlone(cfg, acts, seller, e, inp);
    PriceOfEvent(cfg, seller, e, inp.now);
    RowOfEvent(cfg, seller, e, inp.now);
  }

  lemma PriceOfEvent(cfg: Config, seller: string, e: OfferEvent, now: int)
    requires RowFromEvent(cfg, seller, Some(e), now).Ok? && SignedPrice(cfg, e).Some?
    ensures var row := RowFromEvent(cfg, seller, Some(e), now).value;
            row.event == e && row.price == ToI64(SignedPrice(cfg, e).value)
  {
    hide OfferTagsOf;
  }

  // ---------------------------------------------------------------- expiry at lodging

  // An event that makes a good offer at some time makes one exactly while its expiration
  // is strictly ahead and at most the maximum time to live away.
  lemma LodgingWindow(cfg: Config, seller: string, e: OfferEvent, sometime: int, now: int)
    requires RowFromEvent(cfg, seller, Some(e), sometime).Ok?
    ensures var row := RowFromEvent(cfg, seller, Some(e), sometime).value;
            RowFromEvent(cfg, seller, Some(e), now)
            == if now < row.expiration <= now + cfg.transferMaxOfferTtl then Ok(row.(createdAt := now))
               else Err(InvalidOffer)
  {
    hide OfferTagsOf, ValidName, ValidPubkeyHex, DecodeGrinAddress, NormalizeGrinAddress;
  }

  // So an offer expiring this very second is refused, and one second later is taken.
  lemma ExpiryThisSecondRefused(cfg: Config, seller: string, e: OfferEvent, sometime: int)
    requires RowFromEvent(cfg, seller, Some(e), sometime).Ok? && cfg.transferMaxOfferTtl >= 1
    ensures var x := RowFromEvent(cfg, seller, Some(e), sometime).value.expiration;
            && RowFromEvent(cfg, seller, Some(e), x) == Err(InvalidOffer)
            && RowFromEvent(cfg, seller, Some(e), x - 1).Ok?
  {
    hide RowFromEvent;
    var x: int := RowFromEvent(cfg, seller, Some(e), sometime).value.expiration;
    LodgingWindow(cfg, seller, e, sometime, x);
    LodgingWindow(cfg, seller, e, sometime, x - 1);
  }

  // ---------------------------------------------------------------- a sweep against the cooldown

  // A correctly signed auth event for a request.
  function Signed(cfg: Config, id: string, key: string, at: u64, r: Request): AuthEvent {
    AuthEvent(id, key, HTTP_AUTH_KIND, true, at,
              [["u", cfg.baseUrl + PathOf(r.target)], ["method", VerbOf(r.target)],
               ["payload", cfg.lib.sha256Hex(SignedBody(r))]])
  }

  // A request whose clock readings all fall at one instant, a whole second.
  function TurnAt(cfg: Config, ip: string, id: string, key: string, body: seq<byte>, target: Target, second: nat): Turn
    requires second < TWO63
  {
    var bare := Request(ip, None, body, target);
    var at := second * SECOND;
    Turn(bare.(auth := Some(Signed(cfg, id, key, second, bare))),
         Env(at, second, at, at, Input(second, None, None, false), at))
  }

  lemma SignedVerifies(cfg: Config, ip: string, id: string, key: string, body: seq<byte>, target: Target, second: nat)
    requires second < TWO63 && cfg.authMaxAge >= 0
    ensures var t := TurnAt(cfg, ip, id, key, body, target, second);
            VerifyNip98(cfg.lib, t.req.auth, VerbOf(target), cfg.baseUrl + PathOf(target), SignedBody(t.req),
                        cfg.authMaxAge, second)
            == Ok(Identity(key, id))
  {
    var tags := TurnAt(cfg, ip, id, key, body, target, second).req.auth.value.tags;
    LastTagWins(tags, "u", true, 0);
    LastTagWins(tags, "method", true, 1);
    LastTagWins(tags, "payload", false, 2);
  }

  // Past the limiter, authenticated, first use: the gate opens, up to the cooldown.
  lemma GateOpens(cfg: Config, s: AppState, ip: string, id: string, key: string, body: seq<byte>, target: Target,
                  second: nat)
    requires second < TWO63 && cfg.authMaxAge >= 0 && !IsRead(target) && id !in s.seen
    requires Allows(s.rate, BucketKey(BucketOf(target), ip), cfg.writeRateMax, cfg.writeRateWindow, second * SECOND)
    ensures var t := TurnAt(cfg, ip, id, key, body, target, second);
            var rate := AfterAllow(s.rate, BucketKey(BucketOf(target), ip), cfg.writeRateMax, cfg.writeRateWindow,
                                   second * SECOND);
            var g := Gate(cfg, s, t.req, t.env);
            && g.seen.Keys <= s.seen.Keys + {id}
            && (ChurnKey(key) !in rate || !target.ToRegister? ==> g.verdict == Ok(key) && g.rate == rate)
  {
    hide AfterAllow, Allows, BucketKey, VerifyNip98, ReplayWindow;
    SignedVerifies(cfg, ip, id, key, body, target, second);
  }

  // A read leaves everything but the limiter's map alone.
  lemma ReadServed(cfg: Config, s: AppState, t: Turn)
    requires t.req.target.ToAvailability?
    ensures Serve(cfg, s, t.req, t.env).state == s.(rate := AfterCall(s.rate, LimitCall(cfg, t)))
  {
    hide AfterAllow, Allows, BucketKey, VerifyNip98, Complete, ValidName, IsReserved;
    var f := Begin(cfg, "", t.req.target, t.env.inp.now);
    if f.Done? { DoneStays(cfg, s.db, f, t.env.inp); }
    AvailabilityEffect(cfg, s.db, Lower(t.req.target.name), t.env.inp);
  }

  // The default windows, and rate limits that let anything through at all.
  predicate Defaults(cfg: Config) {
    && cfg.readRateWindow == 60 * SECOND && cfg.nameChangeCooldown == 600 * SECOND
        && cfg.writeRateWindow == 3600 * SECOND
    && cfg.readRateMax >= 1 && cfg.writeRateMax >= 1 && cfg.authMaxAge >= 0
  }

  // The key has released its only name, everything so far happened at instant 0, and no
  // client with a longer address than `n` has read anything yet.
  ghost predicate Cooling(s: AppState, key: string, n: nat) {
    && AllAtZero(s.rate) && |s.rate| >= n && ChurnKey(key) in s.rate
    && (forall who: string :: |who| > n ==> BucketKey("read", who) !in s.rate)
    && (forall name :: !Active(s.db.names, name))
  }

  lemma NeverRead(who: string, bucket: string, other: string)
    requires bucket == "reg" || bucket == "unreg" || bucket == "namechange"
    ensures BucketKey("read", who) != BucketKey(bucket, other)
  {
    assert "reg"[2] == 'g' && "unreg"[0] == 'u' && "namechange"[0] == 'n' && "read"[2] == 'a' && "read"[0] == 'r';
    if BucketKey("read", who) == BucketKey(bucket, other) {
      BucketKeyInjective("read", who, bucket, other);
    }
  }

  lemma RegisterAtBoot(cfg: Config, name: string, key: string, id: string, body: seq<byte>)
    requires Defaults(cfg) && GoodName(cfg, name) && ValidPubkeyHex(key)
    ensures var t := TurnAt(cfg, "", id, key, body, ToRegister(Some(RegisterBody(name, key))), 0);
            var s := Serve(cfg, Boot, t.req, t.env).state;
            && s.db.names == map[name := NameRow(key, 0, None)]
            && s.rate == map[BucketKey("reg", "") := [0]] && s.seen.Keys <= {id}
  {
    hide GoodName, ValidPubkeyHex, Begin, Complete, Gate, AfterAllow, Allows, BucketKey, HasName;
    var target := ToRegister(Some(RegisterBody(name, key)));
    NewClientAtZero(map[], BucketKey("reg", ""), cfg.writeRateMax, cfg.writeRateWindow);
    GateOpens(cfg, Boot, "", id, key, body, target, 0);
    BucketsApart(target, "", key);
    BeginRegister(cfg, name, key, 0);
    NobodyHasName(key);
    RegisterEffect(cfg, EmptyDb, name, key, key, Input(0, None, None, false));
  }

  lemma ReleaseNext(cfg: Config, s: AppState, name: string, key: string, id: string)
    requires Defaults(cfg) && GoodName(cfg, name) && id !in s.seen
    requires s.db.names == map[name := NameRow(key, 0, None)] && s.rate == map[BucketKey("reg", "") := [0]]
    ensures var t := TurnAt(cfg, "", id, key, [], ToUnregister(name), 0);
            && Arms(cfg, s, t) == Some(key)
            && Cooling(Serve(cfg, s, t.req, t.env).state, key, 0)
            && Serve(cfg, s, t.req, t.env).state.seen.Keys <= s.seen.Keys + {id}
  {
    hide GoodName, Begin, Complete, Gate, AfterAllow, Allows, BucketKey, ChurnKey, Cooling, AfterRecord;
    var k := BucketKey("unreg", "");
    RegKeysApart(key);
    NewClientAtZero(s.rate, k, cfg.writeRateMax, cfg.writeRateWindow);
    GateOpens(cfg, s, "", id, key, [], ToUnregister(name), 0);
    BeginUnregister(cfg, name, key, 0);
    UnregisterEffect(cfg, s.db, name, key, Input(0, None, None, false));
    var t := TurnAt(cfg, "", id, key, [], ToUnregister(name), 0);
    ReleasedIsCooling(Serve(cfg, s, t.req, t.env).state, s.rate[k := [0]], s.db.names, name, key);
  }

  lemma ReleasedIsCooling(s: AppState, rate: Rate, names: map<string, NameRow>, name: string, key: string)
    requires names == map[name := NameRow(key, 0, None)] && s.db.names == ReleaseName(names, name, 0)
    requires rate == map[BucketKey("reg", "") := [0], BucketKey("unreg", "") := [0]]
    requires s.rate == AfterRecord(rate, BucketKey("namechange", key), 0)
    ensures Cooling(s, key, 0)
  {
    hide BucketKey;
    RegKeysApart(key);
    assert [] + [0] == [0];
    assert s.rate == rate[ChurnKey(key) := [0]];
    NoReadKeys(s.rate, key);
  }

  lemma NoReadKeys(rate: Rate, key: string)
    requires rate.Keys == {BucketKey("reg", ""), BucketKey("unreg", ""), BucketKey("namechange", key)}
    ensures forall who: string :: BucketKey("read", who) !in rate
  {
    hide BucketKey;
    forall who: string ensures BucketKey("read", who) !in rate {
      NeverRead(who, "reg", "");
      NeverRead(who, "unreg", "");
      NeverRead(who, "namechange", key);
    }
  }

  lemma RegKeysApart(key: string)
    ensures BucketKey("unreg", "") != BucketKey("reg", "")
    ensures ChurnKey(key) != BucketKey("reg", "") && ChurnKey(key) != BucketKey("unreg", "")
  {
    BucketsApart(ToRegister(None), "", key);
    BucketsApart(ToUnregister(""), "", key);
    assert BucketKey("unreg", "")[0] == 'u' && BucketKey("reg", "")[0] == 'r';
  }

  // A read by the client whose address is `n` times the letter x.
  function ReadBy(cfg: Config, n: nat, second: nat): Turn
    requires second < TWO63
  {
    TurnAt(cfg, Repeat('x', n), "", "", [], ToAvailability(""), second)
  }

  function Reads(cfg: Config, n: nat): (r: seq<Turn>)
    ensures |r| == n
    ensures forall i :: 0 <= i < n ==> Within(r[i].env, 0, 0)
  {
    if n == 0 then [] else Reads(cfg, n - 1) + [ReadBy(cfg, n, 0)]
  }

  lemma OneMoreReader(cfg: Config, s: AppState, key: string, n: nat)
    requires Defaults(cfg) && Cooling(s, key, n)
    ensures var t := ReadBy(cfg, n + 1, 0);
            var s' := Serve(cfg, s, t.req, t.env).state;
            Cooling(s', key, n + 1) && s'.seen == s.seen && s'.db == s.db
  {
    hide BucketKey, AfterAllow, Allows, Serve, Cooling, AllAtZero, Repeat;
    ReadServed(cfg, s, ReadBy(cfg, n + 1, 0));
    CoolingCrowd(s, key, n);
    NewClientAtZero(s.rate, BucketKey("read", Repeat('x', n + 1)), cfg.readRateMax, cfg.readRateWindow);
    CoolingGrows(s, key, n);
  }

  lemma CoolingGrows(s: AppState, key: string, n: nat)
    requires Cooling(s, key, n) && AllAtZero(s.rate[BucketKey("read", Repeat('x', n + 1)) := [0]])
    requires |s.rate[BucketKey("read", Repeat('x', n + 1)) := [0]]| == |s.rate| + 1
    ensures Cooling(s.(rate := s.rate[BucketKey("read", Repeat('x', n + 1)) := [0]]), key, n + 1)
  {
    hide BucketKey, AllAtZero, ChurnKey, Active;
    var k := BucketKey("read", Repeat('x', n + 1));
    forall who: string | |who| > n + 1 ensures BucketKey("read", who) != k {
      if BucketKey("read", who) == k { BucketKeyInjective("read", who, "read", Repeat('x', n + 1)); }
    }
  }

  lemma {:induction false} ManyReaders(cfg: Config, s: AppState, key: string, n: nat)
    requires Defaults(cfg) && Cooling(s, key, 0)
    ensures var s' := Run(cfg, s, Reads(cfg, n)); Cooling(s', key, n) && s'.seen == s.seen && s'.db == s.db
  {
    hide Cooling, Serve, ReadBy, Defaults;
    if n > 0 {
      ManyReaders(cfg, s, key, n - 1);
      assert Reads(cfg, n)[..n - 1] == Reads(cfg, n - 1);
      OneMoreReader(cfg, Run(cfg, s, Reads(cfg, n - 1)), key, n - 1);
    }
  }

  // A minute later one more reader comes, and the cooldown is gone.
  lemma LateReader(cfg: Config, s: AppState, key: string, n: nat)
    requires Defaults(cfg) && Cooling(s, key, n) && n >= MAX_KEYS
    ensures var t := ReadBy(cfg, n + 1, 60);
            Serve(cfg, s, t.req, t.env).state == s.(rate := map[BucketKey("read", Repeat('x', n + 1)) := [60 * SECOND]])
  {
    hide BucketKey, AfterAllow, Allows, Serve, Cooling, AllAtZero, Repeat;
    ReadServed(cfg, s, ReadBy(cfg, n + 1, 60));
    CoolingCrowd(s, key, n);
    LateClientSweeps(s.rate, BucketKey("read", Repeat('x', n + 1)), cfg.readRateMax, cfg.readRateWindow);
  }

  lemma CoolingCrowd(s: AppState, key: string, n: nat)
    requires Cooling(s, key, n)
    ensures AllAtZero(s.rate) && |s.rate| >= n && BucketKey("read", Repeat('x', n + 1)) !in s.rate
    ensures forall name :: !Active(s.db.names, name)
  {
    hide BucketKey, AllAtZero;
  }

  lemma RegisterSwept(cfg: Config, s: AppState, name: string, key: string, id: string, body: seq<byte>, who: string)
    requires Defaults(cfg) && GoodName(cfg, name) && ValidPubkeyHex(key) && id !in s.seen
    requires s.rate == map[BucketKey("read", who) := [60 * SECOND]] && forall n :: !Active(s.db.names, n)
    ensures var t := TurnAt(cfg, "", id, key, body, ToRegister(Some(RegisterBody(name, key))), 60);
            Serve(cfg, s, t.req, t.env).reply == Registered(true, name)
  {
    hide GoodName, ValidPubkeyHex, Begin, Complete, Gate, BucketKey, ChurnKey, Allows, AfterAllow, HasName;
    var target := ToRegister(Some(RegisterBody(name, key)));
    SweptMapPasses(s.rate, key, who, cfg.writeRateMax, cfg.writeRateWindow, 60 * SECOND);
    NobodyNamed(s.db.names, key);
    GateOpens(cfg, s, "", id, key, body, target, 60);
    BeginRegister(cfg, name, key, 60);
    RegisterEffect(cfg, s.db, name, key, key, Input(60, None, None, false));
  }

  // On a map with a read in it and nothing else, a registration meets no cooldown.
  lemma SweptMapPasses(rate: Rate, key: string, who: string, max: nat, window: nat, now: nat)
    requires rate.Keys == {BucketKey("read", who)} && max >= 1
    ensures Allows(rate, BucketKey("reg", ""), max, window, now)
    ensures ChurnKey(key) !in AfterAllow(rate, BucketKey("reg", ""), max, window, now)
  {
    hide BucketKey, Retain, AnyRecent;
    NeverRead(who, "reg", "");
    NeverRead(who, "namechange", key);
    RegKeysApart(key);
    NothingRetained(now, window);
  }

  lemma NothingRetained(now: nat, window: nat)
    ensures Retain([], now, window) == []
  {
  }

  lemma NobodyNamed(names: map<string, NameRow>, key: string)
    requires forall n :: !Active(names, n)
    ensures !HasName(names, key)
  {
  }

  // The times of it all: release and reads at once, the last read and the registration a
  // minute later.
  lemma NineMinutesEarly(cfg: Config, name: string, other: string, key: string, id1: string, id2: string,
                         body: seq<byte>, n: nat)
    requires Defaults(cfg)
    ensures TriesAgain(cfg, TurnAt(cfg, "", id1, key, [], ToUnregister(name), 0),
                       Reads(cfg, n) + [ReadBy(cfg, n + 1, 60)],
                       TurnAt(cfg, "", id2, key, body, ToRegister(Some(RegisterBody(other, key))), 60), key)
  {
    hide Reads, Repeat;
    var more := Reads(cfg, n) + [ReadBy(cfg, n + 1, 60)];
    forall i | 0 <= i < |more| ensures Within(more[i].env, 0, 60 * SECOND) {
      if i < n { assert more[i] == Reads(cfg, n)[i]; }
    }
  }

  // The cooldown promise fails with the default windows: one key registers a name and
  // releases it, 50,000 clients read something, and a minute later one more read sweeps the
  // cooldown away, so that the key's next registration creates a name nine minutes early.
  lemma SweepLetsChurnThrough(cfg: Config, key: string, name: string, other: string, ids: (string, string, string),
                              body1: seq<byte>, body2: seq<byte>)
    returns (before: seq<Turn>, giveUp: Turn, more: seq<Turn>, again: Turn)
    requires Defaults(cfg) && GoodName(cfg, name) && GoodName(cfg, other) && ValidPubkeyHex(key)
    requires ids.0 != ids.1 && ids.0 != ids.2 && ids.1 != ids.2
    ensures Arms(cfg, Run(cfg, Boot, before), giveUp) == Some(key) && TriesAgain(cfg, giveUp, more, again, key)
    ensures var s := Run(cfg, Boot, before + [giveUp] + more);
            Serve(cfg, s, again.req, again.env).reply == Registered(true, other)
  {
    hide GoodName, ValidPubkeyHex, Serve, Cooling, BucketKey, Arms, Run, Reads, Repeat, Signed, TriesAgain;
    var first := TurnAt(cfg, "", ids.0, key, body1, ToRegister(Some(RegisterBody(name, key))), 0);
    before := [first];
    RegisterAtBoot(cfg, name, key, ids.0, body1);
    OneTurn(cfg, Boot, first);
    var s1 := Run(cfg, Boot, before);
    giveUp := TurnAt(cfg, "", ids.1, key, [], ToUnregister(name), 0);
    ReleaseNext(cfg, s1, name, key, ids.1);
    LastTurn(cfg, Boot, before, giveUp);
    var s2 := Run(cfg, Boot, before + [giveUp]);
    ManyReaders(cfg, s2, key, MAX_KEYS);
    var s3 := Run(cfg, s2, Reads(cfg, MAX_KEYS));
    var late := ReadBy(cfg, MAX_KEYS + 1, 60);
    more := Reads(cfg, MAX_KEYS) + [late];
    LateReader(cfg, s3, key, MAX_KEYS);
    LastTurn(cfg, s2, Reads(cfg, MAX_KEYS), late);
    RunConcat(cfg, Boot, before + [giveUp], more);
    again := TurnAt(cfg, "", ids.2, key, body2, ToRegister(Some(RegisterBody(other, key))), 60);
    NineMinutesEarly(cfg, name, other, key, ids.1, ids.2, body2, MAX_KEYS);
    CoolingCrowd(s3, key, MAX_KEYS);
    RegisterSwept(cfg, Run(cfg, s2, more), other, key, ids.2, body2, Repeat('x', MAX_KEYS + 1));
  }

  lemma OneTurn(cfg: Config, s: AppState, t: Turn)
    ensures Run(cfg, s, [t]) == Serve(cfg, s, t.req, t.env).state
  {
    assert [t][..0] == [];
  }
}
