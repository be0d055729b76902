/** The name-change cooldown over serialized runs, and what availability promises. */
module AntiChurn {
  import opened Prelude
  import opened Names
  import opened Auth
  import opened RateLimit
  import opened RateHistory
  import opened Tables
  import opened Api
  import opened Protocol
  import opened Interleaving
  import opened Serialized
  import opened Solo
  import opened Effects
  import opened SerialRuns

  function ChurnKey(key: string): string {
    BucketKey("namechange", key)
  }

  // The bucket names of the handlers hold no colon, so no client string, whatever it
  // contains, can reach another bucket's keys.
  lemma BucketsApart(t: Target, ip: string, key: string)
    ensures BucketKey(BucketOf(t), ip) != ChurnKey(key)
  {
    if BucketKey(BucketOf(t), ip) == ChurnKey(key) {
      BucketKeyInjective(BucketOf(t), ip, "namechange", key);
    }
  }

  // The limiter call a request begins with.
  function LimitCall(cfg: Config, t: Turn): Call {
    AllowCall(BucketKey(BucketOf(t.req.target), t.req.ip), MaxOf(cfg, t.req.target), WindowOf(cfg, t.req.target),
              t.env.limitAt)
  }

  // The request's sweep, if it makes one, takes no hit of the key's running cooldown.
  predicate Spares(cfg: Config, s: AppState, t: Turn, key: string) {
    !ForgetsKey(s.rate, ChurnKey(key), cfg.nameChangeCooldown, LimitCall(cfg, t))
  }

  ghost predicate AllSpare(cfg: Config, s: AppState, turns: seq<Turn>, key: string) {
    forall i :: 0 <= i < |turns| ==> Spares(cfg, Run(cfg, s, turns[..i]), turns[i], key)
  }

  // No request of the run arms the key's cooldown anew.
  ghost predicate NotRearmed(cfg: Config, s: AppState, turns: seq<Turn>, key: string) {
    forall i :: 0 <= i < |turns| ==> Arms(cfg, Run(cfg, s, turns[..i]), turns[i]) != Some(key)
  }

  ghost function Arms(cfg: Config, s: AppState, t: Turn): Option<string> {
    Serve(cfg, s, t.req, t.env).armed
  }

  ghost predicate HasHit(rate: Rate, key: string, at: nat) {
    key in rate && at in rate[key]
  }

  lemma {:induction false} RetainKeeps(hits: seq<nat>, now: nat, window: nat, at: nat)
    requires at in hits && Recent(at, now, window)
    ensures at in Retain(hits, now, window)
  {
    var n := |hits| - 1;
    if hits[n] != at {
      assert at in hits[..n];
      RetainKeeps(hits[..n], now, window, at);
    }
  }

  lemma AllowKeepsHit(cfg: Config, s: AppState, t: Turn, key: string, at: nat)
    requires HasHit(s.rate, ChurnKey(key), at) && Spares(cfg, s, t, key)
    requires at <= t.env.limitAt < at + cfg.nameChangeCooldown
    ensures HasHit(AfterCall(s.rate, LimitCall(cfg, t)), ChurnKey(key), at)
  {
    hide BucketKey, Retain, Sweeps;
    BucketsApart(t.req.target, t.req.ip, key);
    var c := LimitCall(cfg, t);
    AllowHits(s.rate, c, ChurnKey(key));
    var hits := s.rate[ChurnKey(key)];
    var i :| 0 <= i < |hits| && hits[i] == at;
    assert Recent(hits[i], c.now, cfg.nameChangeCooldown);
  }

  // While the cooldown runs, a request that spares the key keeps the hit.
  lemma TurnKeepsHit(cfg: Config, s: AppState, t: Turn, key: string, at: nat)
    requires HasHit(s.rate, ChurnKey(key), at) && Spares(cfg, s, t, key)
    requires at <= t.env.limitAt < at + cfg.nameChangeCooldown
    requires at <= t.env.cooldownAt < at + cfg.nameChangeCooldown
    ensures HasHit(Serve(cfg, s, t.req, t.env).state.rate, ChurnKey(key), at)
  {
    hide BucketKey, Complete, Gate, Begin, Spares;
    GateKeepsHit(cfg, s, t, key, at);
  }

  lemma GateKeepsHit(cfg: Config, s: AppState, t: Turn, key: string, at: nat)
    requires HasHit(s.rate, ChurnKey(key), at) && Spares(cfg, s, t, key)
    requires at <= t.env.limitAt < at + cfg.nameChangeCooldown
    requires at <= t.env.cooldownAt < at + cfg.nameChangeCooldown
    ensures HasHit(Gate(cfg, s, t.req, t.env).rate, ChurnKey(key), at)
  {
    hide BucketKey, VerifyNip98, AfterAllow, Spares, AfterAuth, FirstUse, Retain, ReplayWindow;
    AllowKeepsHit(cfg, s, t, key, at);
    var rate := AfterCall(s.rate, LimitCall(cfg, t));
    RetainKeeps(rate[ChurnKey(key)], t.env.cooldownAt, cfg.nameChangeCooldown, at);
  }

  lemma {:induction false} RunKeepsHit(cfg: Config, s: AppState, turns: seq<Turn>, key: string, at: nat, until: nat)
    requires HasHit(s.rate, ChurnKey(key), at) && AllSpare(cfg, s, turns, key)
    requires forall i :: 0 <= i < |turns| ==> Within(turns[i].env, at, until)
    requires until < at + cfg.nameChangeCooldown
    ensures HasHit(Run(cfg, s, turns).rate, ChurnKey(key), at)
  {
    hide Serve, Spares, HasHit, BucketKey;
    if turns != [] {
      var prefix := turns[..|turns| - 1];
      assert forall i :: 0 <= i < |prefix| ==> prefix[..i] == turns[..i];
      RunKeepsHit(cfg, s, prefix, key, at, until);
      TurnKeepsHit(cfg, Run(cfg, s, prefix), turns[|turns| - 1], key, at);
    }
  }

  // A request that does not arm the key's cooldown leaves it empty if it was, or if the
  // request's sweep takes its hits.
  lemma TurnLeavesEmpty(cfg: Config, s: AppState, t: Turn, key: string)
    requires Arms(cfg, s, t) != Some(key)
    requires HitsOf(s.rate, ChurnKey(key)) == [] || !Spares(cfg, s, t, key)
    ensures HitsOf(Serve(cfg, s, t.req, t.env).state.rate, ChurnKey(key)) == []
  {
    hide BucketKey, Complete, VerifyNip98, AfterAllow, Begin, Spares;
    SweptEmpty(cfg, s, t, key);
    forall other: string | other != key ensures BucketKey("namechange", other) != BucketKey("namechange", key) {
      if BucketKey("namechange", other) == BucketKey("namechange", key) {
        BucketKeyInjective("namechange", other, "namechange", key);
      }
    }
    assert HitsOf(Gate(cfg, s, t.req, t.env).rate, BucketKey("namechange", key)) == [] by {
      assert Retain([], t.env.cooldownAt, cfg.nameChangeCooldown) == [];
    }
  }

  lemma SweptEmpty(cfg: Config, s: AppState, t: Turn, key: string)
    requires HitsOf(s.rate, ChurnKey(key)) == [] || !Spares(cfg, s, t, key)
    ensures HitsOf(AfterCall(s.rate, LimitCall(cfg, t)), ChurnKey(key)) == []
  {
    hide BucketKey, AfterCall, AnyRecent;
    BucketsApart(t.req.target, t.req.ip, key);
    AllowHits(s.rate, LimitCall(cfg, t), ChurnKey(key));
  }

  lemma {:induction false} RunForgets(cfg: Config, s: AppState, turns: seq<Turn>, key: string)
    requires NotRearmed(cfg, s, turns, key) && !AllSpare(cfg, s, turns, key)
    ensures HitsOf(Run(cfg, s, turns).rate, ChurnKey(key)) == []
  {
    hide Serve, Arms, Spares, BucketKey, ChurnKey, HitsOf;
    var n := |turns| - 1;
    var prefix := turns[..n];
    forall i | 0 <= i < n ensures prefix[..i] == turns[..i] && prefix[i] == turns[i] {
    }
    if !AllSpare(cfg, s, prefix, key) {
      RunForgets(cfg, s, prefix, key);
    }
    TurnLeavesEmpty(cfg, Run(cfg, s, prefix), turns[n], key);
  }

  // A request arms the cooldown of exactly the key that loses its name by it: the
  // releasing owner, or the seller of a completed claim.
  lemma ArmedIffNameLost(cfg: Config, s: AppState, t: Turn, key: string)
    requires DbGood(cfg, s.db)
    ensures var after := Serve(cfg, s, t.req, t.env);
            after.armed == Some(key) <==> HasName(s.db.names, key) && !HasName(after.state.db.names, key)
    ensures var after := Serve(cfg, s, t.req, t.env);
            after.armed == Some(key) ==> HasHit(after.state.rate, ChurnKey(key), t.env.armAt)
  {
    hide DbGood, Gate, Complete, BucketKey, IsReserved, ValidName, RowFromEvent, Settled, TipForColumn;
    hide Entitled, HasName, SaleOutcome, ReplayPoint;
    var g := Gate(cfg, s, t.req, t.env);
    if g.verdict.Ok? {
      var auth, inp := g.verdict.value, t.env.inp;
      var f := Begin(cfg, auth, t.req.target, inp.now);
      if f.Done? {
        DoneStays(cfg, s.db, f, inp);
      } else {
        match t.req.target {
          case ToAvailability(_) => AvailabilityEffect(cfg, s.db, f.name, inp);
          case ToRegister(_) =>
            RegisterEffect(cfg, s.db, f.name, f.pubkey, f.auth, inp);
            if Complete(cfg, s.db, f, inp).flight.reply == Registered(true, f.name) {
              NewNameKeepsOthers(s.db.names, f.name, NameRow(f.pubkey, inp.now, None), key);
            }
          case ToUnregister(_) =>
            UnregisterEffect(cfg, s.db, f.name, auth, inp);
            GoodUnique(cfg, s.db);
            if Holds(s.db.names, f.name, auth) { ReleaseFrees(s.db.names, f.name, inp.now, key); }
          case ToLodge(_) => LodgeEffect(cfg, s.db, f.row, inp);
          case ToRead(id) =>
            GoodIds(cfg, s.db, id);
            ReadEffect(cfg, s.db, id, inp);
          case ToRevoke(id) =>
            GoodIds(cfg, s.db, id);
            RevokeEffect(cfg, s.db, id, auth, inp);
          case ToClaim(_) =>
            GoodIds(cfg, s.db, f.id);
            ClaimArms(cfg, s.db, f.id, auth, f.proof, inp, key);
        }
      }
    }
  }

  lemma GoodUnique(cfg: Config, db: Db)
    requires DbGood(cfg, db)
    ensures OneNamePerKey(db.names) && KeyedById(db.offers)
  {
  }

  lemma NewNameKeepsOthers(names: map<string, NameRow>, name: string, row: NameRow, key: string)
    requires !Active(names, name)
    ensures HasName(names, key) ==> HasName(names[name := row], key)
  {
    if HasName(names, key) {
      var n :| n in names && Holds(names, n, key);
      assert Holds(names[name := row], n, key);
    }
  }

  lemma ReleaseFrees(names: map<string, NameRow>, name: string, now: int, key: string)
    requires OneNamePerKey(names) && Active(names, name)
    ensures HasName(names, key) && !HasName(ReleaseName(names, name, now), key) <==> key == names[name].pubkey
  {
    assert Holds(names, name, names[name].pubkey);
    forall n, k | Holds(names, n, k) && n != name ensures Holds(ReleaseName(names, name, now), n, k) {
    }
  }

  lemma SaleFrees(names: map<string, NameRow>, name: string, buyer: string, now: int, key: string)
    requires OneNamePerKey(names) && Active(names, name) && !HasName(names, buyer)
    ensures HasName(names, key) && !HasName(names[name := NameRow(buyer, now, None)], key)
        <==> key == names[name].pubkey
  {
    var after := names[name := NameRow(buyer, now, None)];
    assert Holds(names, name, names[name].pubkey);
    forall n, k | Holds(names, n, k) && n != name ensures Holds(after, n, k) {
    }
    assert Holds(after, name, buyer);
  }

  lemma ClaimArms(cfg: Config, db: Db, id: string, auth: string, proof: Proof.PaymentProof, inp: Input, key: string)
    requires DbGood(cfg, db)
    ensures var out := Complete(cfg, db, ClaimGet(id, auth, proof), inp);
            && out.flight.Done?
            && (out.flight.arms == Some(key) <==> HasName(db.names, key) && !HasName(out.db.names, key))
  {
    hide DbGood, Complete, Settled, HasName;
    GoodUnique(cfg, db);
    ClaimEffect(cfg, db, id, auth, proof, inp);
    if id in db.offers {
      SettledRow(db.offers, id, inp);
      var mid := db.(offers := Settled(db.offers, id, inp));
      var row := mid.offers[id];
      if db.offers[id].status != Consumed && Entitled(cfg, mid, row, auth, proof, inp) {
        SaleFrees(db.names, row.name, row.buyer, inp.now, key);
      }
    }
  }

  // `again` is a registration by the key, made while the cooldown `giveUp` started is
  // still running; the requests of `more` come in between.
  ghost predicate TriesAgain(cfg: Config, giveUp: Turn, more: seq<Turn>, again: Turn, key: string) {
    && (forall i :: 0 <= i < |more| ==> Within(more[i].env, giveUp.env.armAt, again.env.limitAt))
    && giveUp.env.armAt <= again.env.limitAt <= again.env.cooldownAt < giveUp.env.armAt + cfg.nameChangeCooldown
    && again.req.target.ToRegister? && again.req.auth.Some? && again.req.auth.value.pubkey == key
  }

  // After a key gives up its name, by release or by sale, no registration by that key
  // passes before the cooldown has elapsed, as long as no sweep takes it: the request is
  // refused and no table changes; once past rate limit, auth and replay set, the refusal
  // is the cooldown.
  lemma NoChurn(cfg: Config, s: AppState, giveUp: Turn, more: seq<Turn>, again: Turn, key: string)
    requires Arms(cfg, s, giveUp) == Some(key) && DbGood(cfg, s.db)
    requires TriesAgain(cfg, giveUp, more, again, key)
    requires var start := Serve(cfg, s, giveUp.req, giveUp.env).state;
             AllSpare(cfg, start, more, key) && Spares(cfg, Run(cfg, start, more), again, key)
    ensures var s' := Run(cfg, Serve(cfg, s, giveUp.req, giveUp.env).state, more);
            var reply := Serve(cfg, s', again.req, again.env);
            && reply.state.db == s'.db && reply.reply.Refused?
            && (|| reply.reply.why == CooldownActive || reply.reply.why == RateLimited || reply.reply.why == Replayed
                || reply.reply.why.Unauthorized?)
  {
    hide DbGood, Complete, Begin, BucketKey, Run, Spares;
    ArmedIffNameLost(cfg, s, giveUp, key);
    var start := Serve(cfg, s, giveUp.req, giveUp.env).state;
    RunKeepsHit(cfg, start, more, key, giveUp.env.armAt, again.env.limitAt);
    CoolingKeyRefused(cfg, Run(cfg, start, more), again, key, giveUp.env.armAt);
  }

  // What an operator can check: with both windows at least the cooldown, it holds whatever
  // is served in between.
  lemma NoChurnByConfiguration(cfg: Config, s: AppState, giveUp: Turn, more: seq<Turn>, again: Turn, key: string)
    requires Arms(cfg, s, giveUp) == Some(key) && DbGood(cfg, s.db)
    requires TriesAgain(cfg, giveUp, more, again, key)
    requires cfg.readRateWindow >= cfg.nameChangeCooldown && cfg.writeRateWindow >= cfg.nameChangeCooldown
    ensures var s' := Run(cfg, Serve(cfg, s, giveUp.req, giveUp.env).state, more);
            var reply := Serve(cfg, s', again.req, again.env);
            && reply.state.db == s'.db && reply.reply.Refused?
            && (|| reply.reply.why == CooldownActive || reply.reply.why == RateLimited || reply.reply.why == Replayed
                || reply.reply.why.Unauthorized?)
  {
    hide DbGood, Serve, Arms, TriesAgain, Run, Spares;
    forall x: AppState, t: Turn ensures Spares(cfg, x, t, key) {
      WideWindowSpares(cfg, x, t, key);
    }
    NoChurn(cfg, s, giveUp, more, again, key);
  }

  lemma WideWindowSpares(cfg: Config, s: AppState, t: Turn, key: string)
    requires WindowOf(cfg, t.req.target) >= cfg.nameChangeCooldown
    ensures Spares(cfg, s, t, key)
  {
    hide BucketKey, ForgetsKey;
    LongWindowSpares(s.rate, ChurnKey(key), cfg.nameChangeCooldown, LimitCall(cfg, t));
  }

  // And it holds in any configuration as long as the map stays below 50,000 keys.
  lemma NoChurnOnSmallMap(cfg: Config, s: AppState, giveUp: Turn, more: seq<Turn>, again: Turn, key: string)
    requires Arms(cfg, s, giveUp) == Some(key) && DbGood(cfg, s.db)
    requires TriesAgain(cfg, giveUp, more, again, key)
    requires forall i :: 0 <= i <= |more| ==>
               |Run(cfg, Serve(cfg, s, giveUp.req, giveUp.env).state, more[..i]).rate| < 50_000
    ensures var s' := Run(cfg, Serve(cfg, s, giveUp.req, giveUp.env).state, more);
            var reply := Serve(cfg, s', again.req, again.env);
            && reply.state.db == s'.db && reply.reply.Refused?
            && (|| reply.reply.why == CooldownActive || reply.reply.why == RateLimited || reply.reply.why == Replayed
                || reply.reply.why.Unauthorized?)
  {
    hide DbGood, Serve, Arms, TriesAgain, Run, Spares;
    assert more[..|more|] == more;
    forall x: AppState, t: Turn | |x.rate| < 50_000 ensures Spares(cfg, x, t, key) {
      FewKeysSpare(cfg, x, t, key);
    }
    NoChurn(cfg, s, giveUp, more, again, key);
  }

  lemma FewKeysSpare(cfg: Config, s: AppState, t: Turn, key: string)
    requires |s.rate| < 50_000
    ensures Spares(cfg, s, t, key)
  {
    hide BucketKey, ForgetsKey;
    SmallMapSpares(s.rate, ChurnKey(key), cfg.nameChangeCooldown, LimitCall(cfg, t));
  }

  lemma CoolingKeyRefused(cfg: Config, s: AppState, t: Turn, key: string, at: nat)
    requires HasHit(s.rate, ChurnKey(key), at) && Spares(cfg, s, t, key)
    requires at <= t.env.limitAt <= t.env.cooldownAt < at + cfg.nameChangeCooldown
    requires t.req.target.ToRegister? && t.req.auth.Some? && t.req.auth.value.pubkey == key
    ensures var v := Gate(cfg, s, t.req, t.env).verdict;
            v.Err? && (v.error == CooldownActive || v.error == RateLimited || v.error == Replayed
                       || v.error.Unauthorized?)
  {
    hide BucketKey, AfterAllow, Allows, Spares;
    AllowKeepsHit(cfg, s, t, key, at);
    var rate := AfterCall(s.rate, LimitCall(cfg, t));
    RetainKeeps(rate[ChurnKey(key)], t.env.cooldownAt, cfg.nameChangeCooldown, at);
    IdentityKey(cfg, t);
  }

  lemma EmptyKeyPasses(cfg: Config, s: AppState, t: Turn, key: string)
    requires HitsOf(s.rate, ChurnKey(key)) == [] || !Spares(cfg, s, t, key)
    requires t.req.target.ToRegister? && t.req.auth.Some? && t.req.auth.value.pubkey == key
    ensures Gate(cfg, s, t.req, t.env).verdict != Err(CooldownActive)
  {
    hide BucketKey, AfterAllow, Allows, Spares;
    SweptEmpty(cfg, s, t, key);
    IdentityKey(cfg, t);
  }

  // The exact reach of the cooldown: a registration that gets as far as the cooldown check
  // is stopped by it exactly when every sweep since the name was given up, its own
  // included, spared the key.
  lemma NoChurnIff(cfg: Config, s: AppState, giveUp: Turn, more: seq<Turn>, again: Turn, key: string)
    requires Arms(cfg, s, giveUp) == Some(key) && DbGood(cfg, s.db)
    requires TriesAgain(cfg, giveUp, more, again, key)
    requires var start := Serve(cfg, s, giveUp.req, giveUp.env).state;
             var v := Gate(cfg, Run(cfg, start, more), again.req, again.env).verdict;
             NotRearmed(cfg, start, more, key) && (v == Err(CooldownActive) || v == Ok(key))
    ensures var start := Serve(cfg, s, giveUp.req, giveUp.env).state;
            Gate(cfg, Run(cfg, start, more), again.req, again.env).verdict == Err(CooldownActive)
            <==> AllSpare(cfg, start, more, key) && Spares(cfg, Run(cfg, start, more), again, key)
  {
    hide DbGood, Complete, Begin, BucketKey, Run, Spares, AllSpare, NotRearmed, Gate, HitsOf;
    var start := Serve(cfg, s, giveUp.req, giveUp.env).state;
    var s' := Run(cfg, start, more);
    if AllSpare(cfg, start, more, key) && Spares(cfg, s', again, key) {
      ArmedIffNameLost(cfg, s, giveUp, key);
      RunKeepsHit(cfg, start, more, key, giveUp.env.armAt, again.env.limitAt);
      CoolingKeyRefused(cfg, s', again, key, giveUp.env.armAt);
    } else {
      if !AllSpare(cfg, start, more, key) { RunForgets(cfg, start, more, key); }
      EmptyKeyPasses(cfg, s', again, key);
    }
  }

  lemma IdentityKey(cfg: Config, t: Turn)
    requires t.req.auth.Some?
    ensures var who := VerifyNip98(cfg.lib, t.req.auth, VerbOf(t.req.target), cfg.baseUrl + PathOf(t.req.target),
                                   SignedBody(t.req), cfg.authMaxAge, t.env.authWall);
            who.Ok? ==> who.value.pubkey == t.req.auth.value.pubkey
  {
    hide Last, UrlOk, MethodOk, FreshAge;
  }

  // The gate of a claim looks at one rate key only.
  lemma ClaimGateLocal(cfg: Config, s: AppState, rate: Rate, t: Turn)
    requires t.req.target.ToClaim?
    requires HitsOf(rate, BucketKey("transfer", t.req.ip)) == HitsOf(s.rate, BucketKey("transfer", t.req.ip))
    ensures var a, b := Gate(cfg, s, t.req, t.env), Gate(cfg, s.(rate := rate), t.req, t.env);
            a.verdict == b.verdict && a.seen == b.seen
  {
    hide VerifyNip98, BucketKey, AfterAllow, AfterAuth, FirstUse, Retain, ReplayWindow;
  }

  // Buying is exempt: whatever cooldowns are running, a claim is answered the same.
  lemma ClaimIgnoresCooldowns(cfg: Config, s: AppState, rate: Rate, t: Turn)
    requires t.req.target.ToClaim?
    requires HitsOf(rate, BucketKey("transfer", t.req.ip)) == HitsOf(s.rate, BucketKey("transfer", t.req.ip))
    ensures var a, b := Serve(cfg, s, t.req, t.env), Serve(cfg, s.(rate := rate), t.req, t.env);
            a.reply == b.reply && a.state.db == b.state.db && a.state.seen == b.state.seen && a.log == b.log
  {
    hide Gate, Complete, Begin, BucketKey, HitsOf;
    ClaimGateLocal(cfg, s, rate, t);
  }

  // ---------------------------------------------------------------- availability

  // A name reported available can be registered right then, and a name reported otherwise
  // cannot: for any key without a name whose registration is admitted, the registration
  // creates the name exactly when availability says so.
  lemma AvailabilityIsExact(cfg: Config, s: AppState, ask: Turn, take: Turn, name: string, pubkey: string)
    requires ask.req.target == ToAvailability(name) && Gate(cfg, s, ask.req, ask.env).verdict.Ok?
    requires take.req.target == ToRegister(Some(RegisterBody(name, pubkey)))
    requires Gate(cfg, s, take.req, take.env).verdict == Ok(Lower(pubkey)) && ValidPubkeyHex(Lower(pubkey))
    requires !HasName(s.db.names, Lower(pubkey))
    ensures Serve(cfg, s, ask.req, ask.env).reply == Availability(Lower(name), Available)
            <==> Serve(cfg, s, take.req, take.env).reply == Registered(true, Lower(name))
    ensures Serve(cfg, s, ask.req, ask.env).state.db == s.db
  {
    hide Gate, Complete, IsReserved, ValidName, ValidPubkeyHex, HasName;
    var n := Lower(name);
    var ask0 := Begin(cfg, Gate(cfg, s, ask.req, ask.env).verdict.value, ask.req.target, ask.env.inp.now);
    var take0 := Begin(cfg, Lower(pubkey), take.req.target, take.env.inp.now);
    if ask0.Done? { DoneStays(cfg, s.db, ask0, ask.env.inp); }
    if take0.Done? { DoneStays(cfg, s.db, take0, take.env.inp); }
    AvailabilityEffect(cfg, s.db, n, ask.env.inp);
    RegisterEffect(cfg, s.db, n, Lower(pubkey), Lower(pubkey), take.env.inp);
  }
}
