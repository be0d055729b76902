/** Theorems over serialized runs: late-claim safety, lazy expiry, status progress, exclusive
    offers, all-or-nothing claims and idempotent retries. */
module SerialRuns {
  import opened Prelude
  import opened Names
  import opened Proof
  import opened Node
  import opened Tables
  import opened Api
  import opened Protocol
  import opened Interleaving
  import opened AnyRun
  import opened Payments
  import opened Serialized
  import opened Solo
  import opened Effects

  // ---------------------------------------------------------------- what one request can do

  datatype Effect =
    | NamesOnly
    | NewOffer(row: OfferRow)
    | Settling(id: string)
    | Revoking(id: string)
    | Selling(id: string, auth: string, proof: PaymentProof)

  ghost predicate Does(cfg: Config, db: Db, e: Effect, inp: Input, after: Db) {
    match e
    case NamesOnly => after.offers == db.offers && after.transfers == db.transfers
    case NewOffer(row) =>
      && after == db.(offers := db.offers[row.offerId := row])
      && row == row.Lodged() && row.createdAt == inp.now && row.expiration > inp.now
      && row.offerId !in db.offers
      && !LiveOfferForName(db.offers, row.name, inp.now) && !LiveOfferBinding(db.offers, row.proofAddress, inp.now)
    case Settling(id) => id in db.offers && after == db.(offers := Settled(db.offers, id, inp))
    case Revoking(id) =>
      && id in db.offers && db.offers[id].status != Consumed
      && after == db.(offers := db.offers[id := RevokedRow(db.offers[id], inp)])
    case Selling(id, auth, proof) =>
      && id in db.offers && db.offers[id].status != Consumed
      && var mid := db.(offers := Settled(db.offers, id, inp));
      && id in mid.offers && Entitled(cfg, mid, mid.offers[id], auth, proof, inp)
      && after == SaleOutcome(mid, mid.offers[id], proof, inp).db
  }

  // Which request is behind which effect.
  ghost predicate Explains(cfg: Config, s: AppState, r: Request, env: Env, e: Effect) {
    var g := Gate(cfg, s, r, env);
    match e
    case NamesOnly => true
    case NewOffer(row) => r.target.ToLodge?
        && Serve(cfg, s, r, env).reply == Lodged(row.offerId, row.name, row.expiration)
    case Settling(id) => ClaimsOrReads(r.target, id)
    case Revoking(id) => id in s.db.offers && r.target == ToRevoke(id) && g.verdict == Ok(s.db.offers[id].seller)
    case Selling(id, auth, proof) =>
      && id in s.db.offers && ClaimsFor(r.target, id, proof) && g.verdict == Ok(auth)
      && Serve(cfg, s, r, env).reply == Claimed(true, s.db.offers[id].name, s.db.offers[id].buyer)
  }

  predicate ClaimsFor(t: Target, id: string, proof: PaymentProof) {
    && t.ToClaim? && t.claim.Some? && t.claim.value.proof.GivenProof?
    && Lower(t.claim.value.offerId) == id && ParsePaymentProof(t.claim.value.proof.raw) == proof
  }

  predicate ClaimsOrReads(t: Target, id: string) {
    t == ToRead(id) || (t.ToClaim? && t.claim.Some? && Lower(t.claim.value.offerId) == id)
  }

  lemma GoodIds(cfg: Config, db: Db, id: string)
    requires DbGood(cfg, db)
    ensures id in db.offers ==> db.offers[id].offerId == id
  {
  }

  lemma LodgedRow(cfg: Config, auth: string, offer: Option<OfferEvent>, now: int)
    ensures var built := RowFromEvent(cfg, auth, offer, now);
            built.Ok? ==>
              built.value == built.value.Lodged() && built.value.createdAt == now && built.value.expiration > now
  {
  }

  // The effect is what the request did to the tables, and its request is the kind that
  // has such an effect.
  ghost predicate HasEffect(cfg: Config, s: AppState, r: Request, env: Env, e: Effect) {
    var served := Serve(cfg, s, r, env);
    && Does(cfg, s.db, e, env.inp, served.state.db)
    && Explains(cfg, s, r, env, e)
    && (served.reply.Claimed? && served.reply.created ==> e.Selling?)
    && (served.reply.Lodged? ==> e.NewOffer?)
  }

  // Every served request has an effect.
  lemma EffectOf(cfg: Config, s: AppState, r: Request, env: Env) returns (e: Effect)
    requires DbGood(cfg, s.db)
    ensures Does(cfg, s.db, e, env.inp, Serve(cfg, s, r, env).state.db)
    ensures Explains(cfg, s, r, env, e)
    ensures Serve(cfg, s, r, env).reply.Claimed? && Serve(cfg, s, r, env).reply.created ==> e.Selling?
    ensures Serve(cfg, s, r, env).reply.Lodged? ==> e.NewOffer?
  {
    hide Gate, Serve, DbGood, Does, Explains, Begin;
    if Gate(cfg, s, r, env).verdict.Err?
        || Begin(cfg, Gate(cfg, s, r, env).verdict.value, r.target, env.inp.now).Done? {
      e := RefusedEffect(cfg, s, r, env);
    } else {
      match r.target {
        case ToLodge(_) => e := LodgingEffect(cfg, s, r, env);
        case ToRead(id) => e := ReadingEffect(cfg, s, r, env);
        case ToRevoke(id) => e := RevokingEffect(cfg, s, r, env);
        case ToClaim(_) => e := ClaimingEffect(cfg, s, r, env);
        case _ => e := RegistryEffect(cfg, s, r, env);
      }
    }
  }

  lemma RefusedEffect(cfg: Config, s: AppState, r: Request, env: Env) returns (e: Effect)
    requires var v := Gate(cfg, s, r, env).verdict; v.Err? || Begin(cfg, v.value, r.target, env.inp.now).Done?
    ensures HasEffect(cfg, s, r, env, e)
  {
    hide Gate, Complete, RowFromEvent, ParsePaymentProof, IsReserved, ValidName;
    e := NamesOnly;
    var v := Gate(cfg, s, r, env).verdict;
    if v.Ok? { DoneStays(cfg, s.db, Begin(cfg, v.value, r.target, env.inp.now), env.inp); }
  }

  lemma RegistryEffect(cfg: Config, s: AppState, r: Request, env: Env) returns (e: Effect)
    requires r.target.ToAvailability? || r.target.ToRegister? || r.target.ToUnregister?
    requires var v := Gate(cfg, s, r, env).verdict; v.Ok? && !Begin(cfg, v.value, r.target, env.inp.now).Done?
    ensures HasEffect(cfg, s, r, env, e)
  {
    hide Gate, Complete, IsReserved, ValidName, ValidPubkeyHex, HasName, Lower;
    e := NamesOnly;
    var auth, inp := Gate(cfg, s, r, env).verdict.value, env.inp;
    var f := Begin(cfg, auth, r.target, inp.now);
    if r.target.ToAvailability? {
      AvailabilityEffect(cfg, s.db, f.name, inp);
    } else if r.target.ToRegister? {
      RegisterEffect(cfg, s.db, f.name, f.pubkey, f.auth, inp);
    } else {
      UnregisterEffect(cfg, s.db, f.name, auth, inp);
    }
  }

  lemma LodgingEffect(cfg: Config, s: AppState, r: Request, env: Env) returns (e: Effect)
    requires r.target.ToLodge?
    requires var v := Gate(cfg, s, r, env).verdict; v.Ok? && !Begin(cfg, v.value, r.target, env.inp.now).Done?
    ensures HasEffect(cfg, s, r, env, e)
  {
    hide Gate, Complete, RowFromEvent, LiveOfferForName, LiveOfferBinding;
    var auth := Gate(cfg, s, r, env).verdict.value;
    var f := Begin(cfg, auth, r.target, env.inp.now);
    LodgedRow(cfg, auth, r.target.offer, env.inp.now);
    LodgeEffect(cfg, s.db, f.row, env.inp);
    e := LodgeEffectOf(cfg, s.db, f.row, env.inp);
  }

  lemma ReadingEffect(cfg: Config, s: AppState, r: Request, env: Env) returns (e: Effect)
    requires DbGood(cfg, s.db) && r.target.ToRead? && Gate(cfg, s, r, env).verdict.Ok?
    ensures HasEffect(cfg, s, r, env, e)
  {
    hide Gate, Complete, DbGood, Settled;
    GoodIds(cfg, s.db, r.target.offerId);
    ReadEffect(cfg, s.db, r.target.offerId, env.inp);
    e := if r.target.offerId in s.db.offers then Settling(r.target.offerId) else NamesOnly;
  }

  lemma RevokingEffect(cfg: Config, s: AppState, r: Request, env: Env) returns (e: Effect)
    requires DbGood(cfg, s.db) && r.target.ToRevoke? && Gate(cfg, s, r, env).verdict.Ok?
    ensures HasEffect(cfg, s, r, env, e)
  {
    hide Gate, Complete, DbGood, RevokedRow;
    var id, auth := r.target.offerId, Gate(cfg, s, r, env).verdict.value;
    GoodIds(cfg, s.db, id);
    RevokeEffect(cfg, s.db, id, auth, env.inp);
    e := NamesOnly;
    if id in s.db.offers && s.db.offers[id].status != Consumed && auth == s.db.offers[id].seller {
      e := Revoking(id);
    }
  }

  lemma ClaimingEffect(cfg: Config, s: AppState, r: Request, env: Env) returns (e: Effect)
    requires DbGood(cfg, s.db) && r.target.ToClaim?
    requires var v := Gate(cfg, s, r, env).verdict; v.Ok? && !Begin(cfg, v.value, r.target, env.inp.now).Done?
    ensures HasEffect(cfg, s, r, env, e)
  {
    hide Gate, Complete, DbGood, Entitled, SaleOutcome, Settled, ParsePaymentProof, Lower, ValidOfferId;
    var auth := Gate(cfg, s, r, env).verdict.value;
    var f := Begin(cfg, auth, r.target, env.inp.now);
    GoodIds(cfg, s.db, f.id);
    e := ClaimEffectOf(cfg, s.db, f.id, auth, f.proof, env.inp);
  }

  lemma LodgeEffectOf(cfg: Config, db: Db, row: OfferRow, inp: Input) returns (e: Effect)
    requires row == row.Lodged() && row.createdAt == inp.now && row.expiration > inp.now
    ensures var out := Complete(cfg, db, LodgeLookup(row), inp);
            && Does(cfg, db, e, inp, out.db)
            && e == (if out.flight.Done? && out.flight.reply.Lodged? then NewOffer(row) else NamesOnly)
            && (e.NewOffer? ==> out.flight.reply == Lodged(row.offerId, row.name, row.expiration))
  {
    hide Complete, LiveOfferForName, LiveOfferBinding;
    LodgeEffect(cfg, db, row, inp);
    e := if Complete(cfg, db, LodgeLookup(row), inp).flight.reply.Lodged? then NewOffer(row) else NamesOnly;
  }

  lemma ClaimEffectOf(cfg: Config, db: Db, id: string, auth: string, proof: PaymentProof, inp: Input)
    returns (e: Effect)
    requires id in db.offers ==> db.offers[id].offerId == id
    ensures var out := Complete(cfg, db, ClaimGet(id, auth, proof), inp);
            && out.flight.Done? && Does(cfg, db, e, inp, out.db)
            && (e == NamesOnly || e == Settling(id) || e == Selling(id, auth, proof))
            && (e.Selling? <==> out.flight.reply.Claimed? && out.flight.reply.created)
            && !out.flight.reply.Lodged?
            && (e.Selling? ==> out.flight.reply == Claimed(true, db.offers[id].name, db.offers[id].buyer))
  {
    hide Complete, Entitled, Settled;
    CompleteIsDone(cfg, db, ClaimGet(id, auth, proof), inp);
    ClaimEffect(cfg, db, id, auth, proof, inp);
    e := NamesOnly;
    if id in db.offers && db.offers[id].status != Consumed {
      var mid := db.(offers := Settled(db.offers, id, inp));
      SettledRow(db.offers, id, inp);
      assert mid.offers[id].Lodged().name == db.offers[id].Lodged().name;
      assert mid.offers[id].Lodged().buyer == db.offers[id].Lodged().buyer;
      e := if Entitled(cfg, mid, mid.offers[id], auth, proof, inp) then Selling(id, auth, proof) else Settling(id);
    }
  }

  lemma LastTurn(cfg: Config, s: AppState, turns: seq<Turn>, t: Turn)
    ensures Run(cfg, s, turns + [t]) == Serve(cfg, Run(cfg, s, turns), t.req, t.env).state
  {
    assert (turns + [t])[..|turns|] == turns;
  }

  lemma {:induction false} RunConcat(cfg: Config, s: AppState, a: seq<Turn>, b: seq<Turn>)
    ensures Run(cfg, s, a + b) == Run(cfg, Run(cfg, s, a), b)
  {
    hide Serve;
    if b == [] {
      assert a + b == a;
    } else {
      assert (a + b)[..|a + b| - 1] == a + b[..|b| - 1];
      RunConcat(cfg, s, a, b[..|b| - 1]);
    }
  }

  // ---------------------------------------------------------------- late claims

  // A sale made while the offer had no death record happened by its expiration; a sale of
  // a dead offer happened within the grace time on a payment mined by the height of death.
  predicate Timely(cfg: Config, o: OfferRow, t: TransferRow) {
    if o.stateChangedAt.None? then t.claimedAt <= o.expiration
    else
      && o.endHeight.Some? && t.kernelHeight.Some? && t.kernelHeight.value <= o.endHeight.value
      && t.claimedAt - o.stateChangedAt.value <= cfg.transferClaimGrace
  }

  // A receipt exists exactly for the consumed offers, and every sale was timely.
  ghost predicate SalesGood(cfg: Config, db: Db) {
    && (forall id :: id in db.transfers ==>
          id in db.offers && db.offers[id].status == Consumed && Timely(cfg, db.offers[id], db.transfers[id]))
    && (forall id :: id in db.offers && db.offers[id].status == Consumed ==> id in db.transfers)
  }

  lemma SaleIsTimely(cfg: Config, db: Db, row: OfferRow, auth: string, proof: PaymentProof, inp: Input)
    requires Entitled(cfg, db, row, auth, proof, inp) && row.status != Consumed
    requires RecordOk(row) && (row.status == Live ==> row.expiration >= inp.now)
    ensures Timely(cfg, row.(status := Consumed),
                   ReceiptOf(row, proof.excessHex, HeightForColumn(Kernel(inp.kernelNode.value).value), inp.now))
  {
    hide ProofRefusal, Confirmed, HeightForColumn, Kernel, HasName, ExcessUsed;
  }

  lemma SettledRecord(cfg: Config, db: Db, id: string, inp: Input)
    requires DbGood(cfg, db) && id in db.offers
    ensures id in Settled(db.offers, id, inp) && RecordOk(Settled(db.offers, id, inp)[id])
    ensures Settled(db.offers, id, inp)[id].offerId == id
  {
    hide Genuine, GoodName, TipForColumn;
  }

  lemma SalesStep(cfg: Config, db: Db, e: Effect, inp: Input, after: Db)
    requires DbGood(cfg, db) && SalesGood(cfg, db) && Does(cfg, db, e, inp, after)
    ensures SalesGood(cfg, after)
  {
    hide DbGood, Timely, TipForColumn, LiveOfferForName, LiveOfferBinding, Entitled, RecordOk;
    match e {
      case Settling(id) =>
        hide SaleOutcome;
        SettledRow(db.offers, id, inp);
      case Selling(id, auth, proof) =>
        hide SalesGood, SaleOutcome;
        SaleStep(cfg, db, id, auth, proof, inp);
      case _ => hide SaleOutcome;
    }
  }

  lemma SaleStep(cfg: Config, db: Db, id: string, auth: string, proof: PaymentProof, inp: Input)
    requires DbGood(cfg, db) && SalesGood(cfg, db) && id in db.offers && db.offers[id].status != Consumed
    requires id in Settled(db.offers, id, inp)
    requires Entitled(cfg, db.(offers := Settled(db.offers, id, inp)), Settled(db.offers, id, inp)[id], auth, proof,
                      inp)
    ensures var mid := db.(offers := Settled(db.offers, id, inp));
            SalesGood(cfg, SaleOutcome(mid, mid.offers[id], proof, inp).db)
  {
    hide DbGood, Timely, TipForColumn, Entitled, RecordOk;
    SettledRow(db.offers, id, inp);
    SettledRecord(cfg, db, id, inp);
    hide Settled;
    var mid := db.(offers := Settled(db.offers, id, inp));
    SaleIsTimely(cfg, mid, mid.offers[id], auth, proof, inp);
  }

  lemma {:induction false} SalesInEveryRun(cfg: Config, turns: seq<Turn>)
    ensures SalesGood(cfg, Run(cfg, Boot, turns).db)
  {
    hide SalesGood, Serve, Does, DbGood, Explains;
    if turns == [] {
      NoSalesAtBoot(cfg);
    } else {
      var prefix, t := turns[..|turns| - 1], turns[|turns| - 1];
      var s := Run(cfg, Boot, prefix);
      SalesInEveryRun(cfg, prefix);
      SerializedDbGood(cfg, prefix);
      var e := EffectOf(cfg, s, t.req, t.env);
      SalesStep(cfg, s.db, e, t.env.inp, Serve(cfg, s, t.req, t.env).state.db);
    }
  }

  lemma NoSalesAtBoot(cfg: Config)
    ensures SalesGood(cfg, EmptyDb)
  {
  }

  // Every sale was made by the expiration of an offer that never died, or within the grace
  // time of a death at a known height, on a kernel that the first endpoint to answer had at
  // or below that height.
  lemma LateClaimSafety(cfg: Config, turns: seq<Turn>, id: string) returns (view: seq<Endpoint>)
    requires id in Run(cfg, Boot, turns).db.transfers
    ensures var db := Run(cfg, Boot, turns).db;
            && id in db.offers
            && var o, t := db.offers[id], db.transfers[id];
            && KernelReported(view, cfg.transferMinConf, t.kernelHeight)
            && (o.stateChangedAt.None? ==> t.claimedAt <= o.expiration)
            && (o.stateChangedAt.Some? ==>
                  && o.endHeight.Some? && t.kernelHeight.Some? && t.kernelHeight.value <= o.endHeight.value
                  && MinedBy(view, cfg.transferMinConf, o.endHeight.value)
                  && t.claimedAt - o.stateChangedAt.value <= cfg.transferClaimGrace)
  {
    hide Run, Exec, KernelReported, MinedBy, InTime, Signed, Lower;
    SalesInEveryRun(cfg, turns);
    var acts := SerializedIsInterleaved(cfg, turns);
    var proof;
    proof, view := PaymentWitness(cfg, acts, id);
    var db := Run(cfg, Boot, turns).db;
    if db.offers[id].stateChangedAt.Some? {
      ReportedIsMined(view, cfg.transferMinConf, db.transfers[id].kernelHeight, db.offers[id].endHeight.value);
    }
  }

  // ---------------------------------------------------------------- lazy expiry

  // The status an offer has at a given moment, whether or not anyone has looked yet.
  function Effective(o: OfferRow, now: int): Status {
    if o.status == Live && o.expiration < now then Expired else o.status
  }

  // Writing an expiry down changes no offer's effective status, then or later.
  lemma SettlementInvisible(offers: map<string, OfferRow>, id: string, inp: Input, other: string, later: int)
    requires other in offers && inp.now <= later
    ensures other in Settled(offers, id, inp)
    ensures Effective(Settled(offers, id, inp)[other], later) == Effective(offers[other], later)
  {
    hide TipForColumn;
  }

  // A public read reports the effective status.
  lemma ReadReportsEffective(cfg: Config, s: AppState, r: Request, env: Env, id: string)
    requires DbGood(cfg, s.db) && r.target == ToRead(id) && id in s.db.offers
    requires Gate(cfg, s, r, env).verdict.Ok?
    ensures Serve(cfg, s, r, env).reply == OfferView(s.db.offers[id].event, Effective(s.db.offers[id], env.inp.now))
  {
    hide Gate, Complete, DbGood, TipForColumn;
    GoodIds(cfg, s.db, id);
    ReadEffect(cfg, s.db, id, env.inp);
  }

  // The two lodge checks count the effectively live offers.
  lemma LodgeCountsEffective(offers: map<string, OfferRow>, name: string, address: string, now: int)
    ensures LiveOfferForName(offers, name, now)
            <==> exists id :: id in offers && offers[id].name == name && Effective(offers[id], now) == Live
    ensures LiveOfferBinding(offers, address, now)
            <==> exists id :: id in offers && offers[id].proofAddress == address && Effective(offers[id], now) == Live
  {
    assert forall id :: id in offers ==> (LiveAt(offers[id], now) <==> Effective(offers[id], now) == Live);
  }

  // Each request is a step of the automaton over effective status: a new offer starts
  // live; an existing one moves only when its seller revokes it while live or expired, or
  // when a claim on it succeeds while it is not consumed. Expiry itself is no request's doing.
  lemma AutomatonStep(cfg: Config, s: AppState, r: Request, env: Env, id: string)
    requires DbGood(cfg, s.db)
    ensures var after := Serve(cfg, s, r, env);
            var now := env.inp.now;
            && (id !in s.db.offers && id in after.state.db.offers ==>
                  after.reply.Lodged? && Effective(after.state.db.offers[id], now) == Live)
            && (id in s.db.offers ==> id in after.state.db.offers)
            && (id in s.db.offers && Effective(after.state.db.offers[id], now) != Effective(s.db.offers[id], now) ==>
                  || (&& r.target == ToRevoke(id) && Gate(cfg, s, r, env).verdict == Ok(s.db.offers[id].seller)
                      && Effective(s.db.offers[id], now) in {Live, Expired}
                      && Effective(after.state.db.offers[id], now) == Revoked)
                  || (&& r.target.ToClaim? && after.reply == Claimed(true, s.db.offers[id].name, s.db.offers[id].buyer)
                      && Effective(s.db.offers[id], now) != Consumed
                      && Effective(after.state.db.offers[id], now) == Consumed))
  {
    hide Gate, Complete, Serve, DbGood, TipForColumn, LiveOfferForName, LiveOfferBinding, Entitled;
    var e := EffectOf(cfg, s, r, env);
    match e {
      case Settling(other) => SettledRow(s.db.offers, other, env.inp);
      case Selling(other, auth, proof) =>
        GoodIds(cfg, s.db, other);
        SettledRow(s.db.offers, other, env.inp);
      case _ =>
    }
  }

  // ---------------------------------------------------------------- one live offer

  predicate ClockForward(turns: seq<Turn>) {
    forall i, j :: 0 <= i < j < |turns| ==> turns[i].env.inp.now <= turns[j].env.inp.now
  }

  ghost predicate Exclusive(offers: map<string, OfferRow>, now: int) {
    forall a, b | a in offers && b in offers && LiveAt(offers[a], now) && LiveAt(offers[b], now) && a != b ::
      offers[a].name != offers[b].name && offers[a].proofAddress != offers[b].proofAddress
  }

  lemma ExclusiveLater(offers: map<string, OfferRow>, t1: int, t2: int)
    requires Exclusive(offers, t1) && t1 <= t2
    ensures Exclusive(offers, t2)
  {
    assert forall id :: id in offers && LiveAt(offers[id], t2) ==> LiveAt(offers[id], t1);
  }

  // Offers stay apart if no row comes to life.
  lemma ExclusiveShrinks(before: map<string, OfferRow>, after: map<string, OfferRow>, now: int)
    requires Exclusive(before, now)
    requires forall id :: id in after && LiveAt(after[id], now) ==> id in before && after[id] == before[id]
    ensures Exclusive(after, now)
  {
  }

  lemma ExclusiveGrows(offers: map<string, OfferRow>, row: OfferRow, now: int)
    requires Exclusive(offers, now) && row.offerId !in offers
    requires !LiveOfferForName(offers, row.name, now) && !LiveOfferBinding(offers, row.proofAddress, now)
    ensures Exclusive(offers[row.offerId := row], now)
  {
  }

  lemma ExclusiveStep(cfg: Config, db: Db, e: Effect, inp: Input, after: Db)
    requires Exclusive(db.offers, inp.now) && Does(cfg, db, e, inp, after)
    ensures Exclusive(after.offers, inp.now)
  {
    hide TipForColumn, Entitled, Exclusive, LiveOfferForName, LiveOfferBinding;
    match e {
      case NamesOnly =>
      case NewOffer(row) => ExclusiveGrows(db.offers, row, inp.now);
      case _ => ExclusiveShrinks(db.offers, after.offers, inp.now);
    }
  }

  // With a clock that does not run backwards, at any moment from the last request on, no
  // two effectively live offers share a name or a proof address.
  lemma {:induction false} OneEffectivelyLiveOffer(cfg: Config, turns: seq<Turn>, now: int)
    requires ClockForward(turns) && forall i :: 0 <= i < |turns| ==> turns[i].env.inp.now <= now
    ensures Exclusive(Run(cfg, Boot, turns).db.offers, now)
  {
    hide Serve, Does, DbGood, Explains, Exclusive;
    if turns == [] {
      ExclusiveAtBoot(now);
    } else {
      var prefix, t := turns[..|turns| - 1], turns[|turns| - 1];
      var s := Run(cfg, Boot, prefix);
      OneEffectivelyLiveOffer(cfg, prefix, t.env.inp.now);
      SerializedDbGood(cfg, prefix);
      var e := EffectOf(cfg, s, t.req, t.env);
      ExclusiveStep(cfg, s.db, e, t.env.inp, Serve(cfg, s, t.req, t.env).state.db);
      ExclusiveLater(Run(cfg, Boot, turns).db.offers, t.env.inp.now, now);
    }
  }

  lemma ExclusiveAtBoot(now: int)
    ensures Exclusive(map[], now)
  {
  }

  // ---------------------------------------------------------------- status progress

  function Rank(st: Status): nat {
    match st
    case Live => 3
    case Expired => 2
    case Revoked => 1
    case Consumed => 0
  }

  lemma EffectDescends(cfg: Config, db: Db, e: Effect, inp: Input, after: Db, id: string)
    requires Does(cfg, db, e, inp, after) && id in db.offers
    requires e.Selling? ==> forall x :: x in db.offers ==> db.offers[x].offerId == x
    ensures id in after.offers
    ensures after.offers[id].status == db.offers[id].status
        || Rank(after.offers[id].status) < Rank(db.offers[id].status)
    ensures db.offers[id].status == Consumed ==> after.offers[id] == db.offers[id]
  {
    hide TipForColumn, LiveOfferForName, LiveOfferBinding, Entitled;
    match e {
      case Settling(other) => SettledRow(db.offers, other, inp);
      case Selling(other, auth, proof) => SettledRow(db.offers, other, inp);
      case _ =>
    }
  }

  // Stored status only moves down: live, expired, revoked, consumed, perhaps skipping.
  lemma StatusOnlyDescends(cfg: Config, s: AppState, r: Request, env: Env, id: string)
    requires DbGood(cfg, s.db) && id in s.db.offers
    ensures var after := Serve(cfg, s, r, env).state.db.offers;
            && id in after
            && (after[id].status == s.db.offers[id].status || Rank(after[id].status) < Rank(s.db.offers[id].status))
            && (s.db.offers[id].status == Consumed ==> after[id] == s.db.offers[id])
  {
    hide Serve, DbGood, Explains, Does;
    var e := EffectOf(cfg, s, r, env);
    forall x | x in s.db.offers ensures s.db.offers[x].offerId == x {
      GoodIds(cfg, s.db, x);
    }
    EffectDescends(cfg, s.db, e, env.inp, Serve(cfg, s, r, env).state.db, id);
  }

  ghost function StatusOf(cfg: Config, turns: seq<Turn>, id: string): Option<Status> {
    var offers := Run(cfg, Boot, turns).db.offers;
    if id in offers then Some(offers[id].status) else None
  }

  // Status changes of one offer along a run, not counting its lodging.
  ghost function Changes(cfg: Config, turns: seq<Turn>, id: string): nat {
    if turns == [] then 0
    else
      var before, after := StatusOf(cfg, turns[..|turns| - 1], id), StatusOf(cfg, turns, id);
      Changes(cfg, turns[..|turns| - 1], id) + if before.Some? && before != after then 1 else 0
  }

  lemma {:induction false} AtMostThreeChanges(cfg: Config, turns: seq<Turn>, id: string)
    ensures StatusOf(cfg, turns, id).None? ==> Changes(cfg, turns, id) == 0
    ensures StatusOf(cfg, turns, id).Some? ==> Changes(cfg, turns, id) + Rank(StatusOf(cfg, turns, id).value) <= 3
  {
    hide Serve, DbGood;
    if turns != [] {
      var prefix, t := turns[..|turns| - 1], turns[|turns| - 1];
      AtMostThreeChanges(cfg, prefix, id);
      if StatusOf(cfg, prefix, id).Some? {
        SerializedDbGood(cfg, prefix);
        StatusOnlyDescends(cfg, Run(cfg, Boot, prefix), t.req, t.env, id);
      }
    }
  }

  // Consumed is final, and an offer is consumed exactly when its receipt exists.
  lemma {:induction false} ConsumedExactlyWhenSold(cfg: Config, turns: seq<Turn>, id: string)
    requires id in Run(cfg, Boot, turns).db.offers
    ensures Run(cfg, Boot, turns).db.offers[id].status == Consumed <==> id in Run(cfg, Boot, turns).db.transfers
  {
    hide Run;
    SalesInEveryRun(cfg, turns);
  }

  lemma {:induction false} ConsumedIsFinal(cfg: Config, turns: seq<Turn>, more: seq<Turn>, id: string)
    requires id in Run(cfg, Boot, turns).db.transfers
    ensures var db, later := Run(cfg, Boot, turns).db, Run(cfg, Boot, turns + more).db;
            && id in db.offers && id in later.offers && later.offers[id] == db.offers[id]
            && id in later.transfers && later.transfers[id] == db.transfers[id]
  {
    hide Serve, DbGood, Does, Explains;
    if more == [] {
      assert turns + more == turns;
      SalesInEveryRun(cfg, turns);
    } else {
      var t := more[|more| - 1];
      var prefix := turns + more[..|more| - 1];
      assert (turns + more)[..|turns + more| - 1] == prefix && (turns + more)[|turns + more| - 1] == t;
      ConsumedIsFinal(cfg, turns, more[..|more| - 1], id);
      SalesInEveryRun(cfg, turns);
      SerializedDbGood(cfg, prefix);
      var s := Run(cfg, Boot, prefix);
      StatusOnlyDescends(cfg, s, t.req, t.env, id);
      var e := EffectOf(cfg, s, t.req, t.env);
      ReceiptsKept(cfg, s.db, e, t.env.inp, Serve(cfg, s, t.req, t.env).state.db, id);
    }
  }

  lemma ReceiptsKept(cfg: Config, db: Db, e: Effect, inp: Input, after: Db, id: string)
    requires Does(cfg, db, e, inp, after) && id in db.transfers
    ensures id in after.transfers && after.transfers[id] == db.transfers[id]
  {
    hide TipForColumn, LiveOfferForName, LiveOfferBinding;
  }
}
