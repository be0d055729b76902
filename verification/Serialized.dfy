/** Requests served one at a time: the gates of the process (rate limit, authentication,
    replay set, cooldown) followed by the handler's program run to its end. */
module Serialized {
  import opened Prelude
  import opened Auth
  import opened RateLimit
  import opened Tables
  import opened Api
  import opened Protocol
  import opened Interleaving
  import opened AnyRun

  datatype AppState = AppState(db: Db, rate: Rate, seen: Seen)

  datatype Request = Request(ip: string, auth: Option<AuthEvent>, body: seq<byte>, target: Target)

  // The clock readings of one request, each taken where the source takes it: the limiter,
  // the age test on the wall clock, the replay set, the cooldown check, the handler's own
  // wall clock (in `inp`), and the arming of a cooldown.
  datatype Env = Env(limitAt: nat, authWall: int, usedAt: nat, cooldownAt: nat, inp: Input, armAt: nat)

  // A request's monotone readings come in this order, none before `from` or after `to`.
  predicate Within(env: Env, from: nat, to: nat) {
    from <= env.limitAt <= env.usedAt <= env.cooldownAt <= env.armAt <= to
  }

  datatype Turn = Turn(req: Request, env: Env)

  // `armed` is the key whose name-change cooldown the request started, if any.
  datatype Served = Served(state: AppState, reply: Reply, armed: Option<string>, log: seq<Commit>)

  const Boot := AppState(EmptyDb, map[], map[])

  // ---------------------------------------------------------------- routing

  function BucketOf(t: Target): string {
    match t
    case ToAvailability(_) => "read"
    case ToRead(_) => "read"
    case ToRegister(_) => "reg"
    case ToUnregister(_) => "unreg"
    case _ => "transfer"
  }

  predicate IsRead(t: Target) {
    t.ToAvailability? || t.ToRead?
  }

  function MaxOf(cfg: Config, t: Target): nat {
    if IsRead(t) then cfg.readRateMax else cfg.writeRateMax
  }

  function WindowOf(cfg: Config, t: Target): nat {
    if IsRead(t) then cfg.readRateWindow else cfg.writeRateWindow
  }

  function VerbOf(t: Target): string {
    if t.ToUnregister? || t.ToRevoke? then "DELETE" else "POST"
  }

  function PathOf(t: Target): string {
    match t
    case ToRegister(_) => "/api/v1/register"
    case ToUnregister(name) => "/api/v1/register/" + Lower(name)
    case ToLodge(_) => "/api/v1/transfer/offer"
    case ToRevoke(id) => "/api/v1/transfer/offer/" + id
    case ToClaim(_) => "/api/v1/transfer/claim"
    case _ => ""
  }

  // DELETE handlers authenticate an empty body.
  function SignedBody(r: Request): seq<byte> {
    if VerbOf(r.target) == "DELETE" then [] else r.body
  }

  // ---------------------------------------------------------------- gates

  datatype Gated = Gated(rate: Rate, seen: Seen, verdict: Result<string, Refusal>)

  // The authenticated key, or the refusal; reads need no authentication.
  function Gate(cfg: Config, s: AppState, r: Request, env: Env): Gated {
    var key := BucketKey(BucketOf(r.target), r.ip);
    var rate := AfterAllow(s.rate, key, MaxOf(cfg, r.target), WindowOf(cfg, r.target), env.limitAt);
    if !Allows(s.rate, key, MaxOf(cfg, r.target), WindowOf(cfg, r.target), env.limitAt) then
      Gated(rate, s.seen, Err(RateLimited))
    else if IsRead(r.target) then Gated(rate, s.seen, Ok(""))
    else
      match VerifyNip98(cfg.lib, r.auth, VerbOf(r.target), cfg.baseUrl + PathOf(r.target), SignedBody(r),
                        cfg.authMaxAge, env.authWall)
      case Err(why) => Gated(rate, s.seen, Err(Unauthorized(why)))
      case Ok(who) => ReplayGate(cfg, rate, s.seen, who, r.target, env)
  }

  function ReplayGate(cfg: Config, rate: Rate, seen: Seen, who: Identity, target: Target, env: Env): Gated {
    var seen' := AfterAuth(seen, who.eventId, ReplayWindow(cfg.authMaxAge), env.usedAt);
    if !FirstUse(seen, who.eventId, ReplayWindow(cfg.authMaxAge), env.usedAt) then Gated(rate, seen', Err(Replayed))
    else if !target.ToRegister? then Gated(rate, seen', Ok(who.pubkey))
    else
      var key := BucketKey("namechange", who.pubkey);
      Gated(AfterCooldown(rate, key, cfg.nameChangeCooldown, env.cooldownAt), seen',
            if CoolingDown(rate, key, cfg.nameChangeCooldown, env.cooldownAt) then Err(CooldownActive)
            else Ok(who.pubkey))
  }

  // ---------------------------------------------------------------- handlers to their end

  ghost function Complete(cfg: Config, db: Db, f: Flight, inp: Input): Outcome
    decreases StepsLeft(f)
  {
    if f.Done? then Outcome(db, f, [])
    else
      StepsCountDown(cfg, db, f, inp);
      var out := Next(cfg, db, f, inp);
      var rest := Complete(cfg, out.db, out.flight, inp);
      Outcome(rest.db, rest.flight, out.log + rest.log)
  }

  lemma {:induction false} CompleteIsDone(cfg: Config, db: Db, f: Flight, inp: Input)
    ensures Complete(cfg, db, f, inp).flight.Done?
    decreases StepsLeft(f)
  {
    hide Next;
    if !f.Done? {
      StepsCountDown(cfg, db, f, inp);
      var out := Next(cfg, db, f, inp);
      CompleteIsDone(cfg, out.db, out.flight, inp);
    }
  }

  ghost function Serve(cfg: Config, s: AppState, r: Request, env: Env): Served {
    var g := Gate(cfg, s, r, env);
    match g.verdict
    case Err(why) => Served(AppState(s.db, g.rate, g.seen), Refused(why), None, [])
    case Ok(auth) =>
      var out := Complete(cfg, s.db, Begin(cfg, auth, r.target, env.inp.now), env.inp);
      CompleteIsDone(cfg, s.db, Begin(cfg, auth, r.target, env.inp.now), env.inp);
      Served(AppState(out.db, Armed(g.rate, out.flight.arms, env.armAt), g.seen), out.flight.reply, out.flight.arms,
             out.log)
  }

  // A release or a completed sale arms the name-change cooldown of the key that gave the name up.
  function Armed(rate: Rate, arms: Option<string>, now: nat): Rate {
    match arms
    case None => rate
    case Some(key) => AfterRecord(rate, BucketKey("namechange", key), now)
  }

  ghost function Run(cfg: Config, s: AppState, turns: seq<Turn>): AppState {
    if turns == [] then s
    else
      var t := turns[|turns| - 1];
      Serve(cfg, Run(cfg, s, turns[..|turns| - 1]), t.req, t.env).state
  }

  ghost function RunLog(cfg: Config, s: AppState, turns: seq<Turn>): seq<Commit> {
    if turns == [] then []
    else
      var t := turns[|turns| - 1];
      RunLog(cfg, s, turns[..|turns| - 1]) + Serve(cfg, Run(cfg, s, turns[..|turns| - 1]), t.req, t.env).log
  }

  // ---------------------------------------------------------------- serialized runs are interleavings

  lemma ExecAppend(cfg: Config, w: World, acts: seq<Action>, a: Action)
    ensures Exec(cfg, w, acts + [a]) == Do(cfg, Exec(cfg, w, acts), a)
  {
    assert (acts + [a])[..|acts|] == acts;
  }

  // Advancing one flight and no other runs it to its end.
  lemma {:induction false} AdvanceToEnd(cfg: Config, start: World, acts: seq<Action>, who: nat, inp: Input)
    returns (more: seq<Action>)
    requires who < |Exec(cfg, start, acts).flights|
    ensures acts <= more
    ensures var w, w' := Exec(cfg, start, acts), Exec(cfg, start, more);
            var out := Complete(cfg, w.db, w.flights[who], inp);
            w' == World(out.db, w.flights[who := out.flight], w.log + out.log)
    decreases StepsLeft(Exec(cfg, start, acts).flights[who])
  {
    hide Next, Exec;
    var w := Exec(cfg, start, acts);
    var f := w.flights[who];
    if f.Done? {
      more := acts;
      assert w.log + [] == w.log && w.flights[who := f] == w.flights;
    } else {
      StepsCountDown(cfg, w.db, f, inp);
      var out := Next(cfg, w.db, f, inp);
      ExecAppend(cfg, start, acts, Advance(who, inp));
      more := AdvanceToEnd(cfg, start, acts + [Advance(who, inp)], who, inp);
      var rest := Complete(cfg, out.db, out.flight, inp);
      assert (w.log + out.log) + rest.log == w.log + (out.log + rest.log);
      assert w.flights[who := out.flight][who := rest.flight] == w.flights[who := rest.flight];
    }
  }

  // Every serialized run leaves the tables and the log that some interleaved run leaves,
  // so whatever holds after every interleaving holds after every serialized run.
  lemma {:induction false} SerializedIsInterleaved(cfg: Config, turns: seq<Turn>) returns (acts: seq<Action>)
    ensures Exec(cfg, Start, acts).db == Run(cfg, Boot, turns).db
    ensures Exec(cfg, Start, acts).log == RunLog(cfg, Boot, turns)
  {
    if turns == [] {
      acts := [];
    } else {
      hide Exec, Gate, Complete, Begin;
      var prefix, t := turns[..|turns| - 1], turns[|turns| - 1];
      var s := Run(cfg, Boot, prefix);
      var before := SerializedIsInterleaved(cfg, prefix);
      match Gate(cfg, s, t.req, t.env).verdict {
        case Err(_) =>
          acts := before;
          assert RunLog(cfg, Boot, prefix) + [] == RunLog(cfg, Boot, prefix);
        case Ok(auth) =>
          var w := Exec(cfg, Start, before);
          var arrive := Arrive(auth, t.req.target, t.env.inp.now);
          ExecAppend(cfg, Start, before, arrive);
          acts := AdvanceToEnd(cfg, Start, before + [arrive], |w.flights|, t.env.inp);
      }
    }
  }

  lemma SerializedDbGood(cfg: Config, turns: seq<Turn>)
    ensures DbGood(cfg, Run(cfg, Boot, turns).db)
  {
    hide DbGood, FlightGood, LogLawful, Run;
    var acts := SerializedIsInterleaved(cfg, turns);
    EveryRunIsSound(cfg, acts);
  }
}
