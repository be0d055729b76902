/** The running process: shared state and the seven handlers as methods on it. */
module Handlers {
  import opened Prelude
  import opened Names
  import opened Proof
  import opened Auth
  import opened Node
  import opened RateLimit
  import opened Tables
  import opened Stores
  import opened Api
  import opened Protocol
  import opened Serialized
  import opened Solo
  import opened Effects

  lemma BuiltNow(cfg: Config, auth: string, offer: Option<OfferEvent>, now: int)
    ensures var built := RowFromEvent(cfg, auth, offer, now);
            built.Ok? ==> built.value.createdAt == now
  {
  }

  lemma StoredUnderId(db: Db, id: string)
    requires Constraints(db) && id in db.offers
    ensures db.offers[id].offerId == id
  {
  }

  class Authority {
    const cfg: Config
    const store: Store
    const limiter: Limiter

    ghost function State(): AppState
      reads store, limiter
    {
      AppState(store.Snapshot(), limiter.rate, limiter.seen)
    }

    ghost predicate Valid()
      reads store
    {
      store.Valid()
    }

    // The request was answered, and the state left, as the serialized specification says.
    ghost predicate Answers(before: AppState, r: Request, env: Env, after: AppState, reply: Reply) {
      var served := Serve(cfg, before, r, env);
      served.state == after && served.reply == reply
    }

    constructor (cfg: Config)
      ensures Valid() && State() == Boot && this.cfg == cfg
      ensures fresh(store) && fresh(limiter)
    {
      this.cfg := cfg;
      store := new Store();
      limiter := new Limiter();
    }

    // Rate limit, authentication, replay set and, for registrations, the cooldown.
    method Admit(r: Request, env: Env) returns (v: Result<string, Refusal>)
      modifies limiter
      ensures Gate(cfg, old(State()), r, env) == Gated(limiter.rate, limiter.seen, v)
    {
      var ok := limiter.Allow(BucketOf(r.target), r.ip, MaxOf(cfg, r.target), WindowOf(cfg, r.target), env.limitAt);
      if !ok {
        return Err(RateLimited);
      }
      if IsRead(r.target) {
        return Ok("");
      }
      var who := CheckNip98(cfg.lib, r.auth, VerbOf(r.target), cfg.baseUrl + PathOf(r.target), SignedBody(r),
                            cfg.authMaxAge, env.authWall);
      if who.Err? {
        return Err(Unauthorized(who.error));
      }
      var firstUse := limiter.AuthEventFresh(who.value.eventId, cfg.authMaxAge, env.usedAt);
      if !firstUse {
        return Err(Replayed);
      }
      if r.target.ToRegister? {
        var cooling := limiter.CooldownActive("namechange", who.value.pubkey, cfg.nameChangeCooldown, env.cooldownAt);
        if cooling {
          return Err(CooldownActive);
        }
      }
      return Ok(who.value.pubkey);
    }

    method Availability(r: Request, env: Env) returns (reply: Reply)
      requires Valid() && r.target.ToAvailability?
      modifies limiter
      ensures Valid() && Answers(old(State()), r, env, State(), reply)
    {
      hide Gate, Complete, IsReserved, ValidName;
      var v := Admit(r, env);
      if v.Err? {
        return Refused(v.error);
      }
      var name := Lower(r.target.name);
      ghost var f := Begin(cfg, v.value, r.target, env.inp.now);
      if f.Done? { DoneStays(cfg, store.Snapshot(), f, env.inp); }
      AvailabilityEffect(cfg, store.Snapshot(), name, env.inp);
      if !ValidName(name, cfg.nameMin, cfg.nameMax) {
        return Reply.Availability(name, Malformed);
      }
      if IsReserved(name, RESERVED, cfg.extraReserved) {
        return Reply.Availability(name, ReservedTerm);
      }
      if Lookup(store.names, name).Some? {
        return Reply.Availability(name, Taken);
      }
      return Reply.Availability(name, Available);
    }

    method Register(r: Request, env: Env) returns (reply: Reply)
      requires Valid() && r.target.ToRegister?
      modifies store, limiter
      ensures Valid() && Answers(old(State()), r, env, State(), reply)
    {
      hide Gate, Complete, IsReserved, ValidName, ValidPubkeyHex, Next, Constraints;
      var v := Admit(r, env);
      if v.Err? {
        return Refused(v.error);
      }
      ghost var db0 := store.Snapshot();
      ghost var f0 := Begin(cfg, v.value, r.target, env.inp.now);
      if f0.Done? { DoneStays(cfg, db0, f0, env.inp); }
      if r.target.body.None? {
        return Refused(InvalidBody);
      }
      var name, pubkey := Lower(r.target.body.value.name), Lower(r.target.body.value.pubkey);
      if !ValidPubkeyHex(pubkey) {
        return Refused(InvalidPubkey);
      }
      if pubkey != v.value {
        return Refused(KeyMismatch);
      }
      if !ValidName(name, cfg.nameMin, cfg.nameMax) {
        return Refused(InvalidName);
      }
      if IsReserved(name, RESERVED, cfg.extraReserved) {
        return Refused(NameReserved);
      }
      reply := RegisterValid(name, pubkey, env);
    }

    // The registration proper: two lookups and the guarded upsert.
    method RegisterValid(name: string, pubkey: string, env: Env) returns (reply: Reply)
      requires Valid()
      modifies store`names
      ensures Valid()
      ensures var out := Complete(cfg, old(store.Snapshot()), RegLookup(name, pubkey, pubkey), env.inp);
              out.db == store.Snapshot() && out.flight == Finish(reply)
    {
      hide Complete, HasName, Constraints;
      ghost var db := store.Snapshot();
      RegLookupAlone(cfg, db, name, pubkey, pubkey, env.inp);
      var owner := Lookup(store.names, name);
      if owner.Some? {
        return if owner.value == pubkey then Registered(false, name) else Refused(NameTaken);
      }
      RegNameOfAlone(cfg, db, name, pubkey, pubkey, env.inp);
      var existing := store.FindName(pubkey);
      if existing.Some? {
        return Refused(KeyHasName(existing));
      }
      RegUpsertAlone(cfg, db, name, pubkey, pubkey, env.inp);
      var result := store.Upsert(name, pubkey, env.inp.now, env.inp.indexFirst);
      match result {
        case NoRow => return Refused(NameTaken);
        case ConstraintError => return Refused(KeyHasName(None));
        case Written => return Registered(true, name);
      }
    }

    method Unregister(r: Request, env: Env) returns (reply: Reply)
      requires Valid() && r.target.ToUnregister?
      modifies store, limiter
      ensures Valid() && Answers(old(State()), r, env, State(), reply)
    {
      hide Gate, Complete, Constraints;
      var v := Admit(r, env);
      if v.Err? {
        return Refused(v.error);
      }
      var name, auth := Lower(r.target.name), v.value;
      ghost var db := store.Snapshot();
      UnregLookupAlone(cfg, db, name, auth, env.inp);
      var owner := Lookup(store.names, name);
      if owner.None? {
        return Refused(NameNotFound);
      }
      if owner.value != auth {
        return Refused(NotTheOwner);
      }
      UnregUpdateAlone(cfg, db, name, auth, env.inp);
      store.Release(name, env.inp.now);
      limiter.RecordOp("namechange", auth, env.armAt);
      return Reply.Released(name);
    }

    method BuildRow(auth: string, offer: Option<OfferEvent>, now: int) returns (r: Result<OfferRow, Refusal>)
      ensures r == RowFromEvent(cfg, auth, offer, now)
    {
      hide OfferTagsOf, RowFromTags;
      if offer.None? {
        return Err(InvalidOffer);
      }
      var event := offer.value;
      if !event.signed {
        return Err(InvalidOffer);
      }
      if event.kind != OFFER_KIND {
        return Err(InvalidOffer);
      }
      if event.pubkey != auth {
        return Err(KeyMismatch);
      }
      var tags := ExtractOfferTags(event.tags);
      if tags.None? {
        return Err(InvalidOffer);
      }
      return RowFromTags(cfg, event, tags.value, now);
    }

    method LodgeOffer(r: Request, env: Env) returns (reply: Reply)
      requires Valid() && r.target.ToLodge?
      modifies store, limiter
      ensures Valid() && Answers(old(State()), r, env, State(), reply)
    {
      hide Gate, Complete, RowFromEvent, Constraints;
      var v := Admit(r, env);
      if v.Err? {
        return Refused(v.error);
      }
      ghost var db := store.Snapshot();
      ghost var f := Begin(cfg, v.value, r.target, env.inp.now);
      if f.Done? { DoneStays(cfg, db, f, env.inp); }
      var built := BuildRow(v.value, r.target.offer, env.inp.now);
      if built.Err? {
        return Refused(built.error);
      }
      BuiltNow(cfg, v.value, r.target.offer, env.inp.now);
      reply := LodgeRow(built.value, env.inp);
    }

    // The lodging proper: owner check, the two live-offer checks and the insert.
    method LodgeRow(row: OfferRow, inp: Input) returns (reply: Reply)
      requires Valid() && row.createdAt == inp.now
      modifies store`offers
      ensures Valid()
      ensures var out := Complete(cfg, old(store.Snapshot()), LodgeLookup(row), inp);
              out.db == store.Snapshot() && out.flight == Finish(reply)
    {
      hide Complete, Constraints, LiveOfferForName, LiveOfferBinding;
      ghost var db := store.Snapshot();
      LodgeLookupAlone(cfg, db, row, inp);
      if Lookup(store.names, row.name) != Some(row.seller) {
        return Refused(NotTheOwner);
      }
      LodgeByNameAlone(cfg, db, row, inp);
      if LiveOfferForName(store.offers, row.name, inp.now) {
        return Refused(OfferExists);
      }
      LodgeByAddressAlone(cfg, db, row, inp);
      if LiveOfferBinding(store.offers, row.proofAddress, inp.now) {
        return Refused(OfferAmbiguous);
      }
      var inserted := store.Insert(row);
      if !inserted {
        return Refused(OfferExists);
      }
      return Lodged(row.offerId, row.name, row.expiration);
    }

    // The tip for a death record: a missing node or a failed query leaves it unknown.
    method AskTip(node: Option<seq<Endpoint>>) returns (height: Option<i64>)
      ensures height == TipForColumn(node)
    {
      if node.None? {
        return None;
      }
      var tip := QueryTip(node.value);
      return if tip.Ok? then Some(ToI64(tip.value)) else None;
    }

    // Writes down the expiry of an overdue row, and returns the row as it now stands.
    method SettleExpiry(row: OfferRow, inp: Input) returns (current: OfferRow)
      requires Valid() && row.offerId in store.offers && store.offers[row.offerId] == row
      modifies store`offers
      ensures Valid() && store.offers == Settled(old(store.offers), row.offerId, inp)
      ensures row.offerId in store.offers && current == store.offers[row.offerId]
    {
      if row.status != Live || row.expiration >= inp.now {
        return row;
      }
      var endHeight := AskTip(inp.tipNode);
      store.MarkDead(row.offerId, Expired, endHeight, inp.now);
      var again := store.GetOffer(row.offerId);
      return again.GetOr(row);
    }

    method ReadOffer(r: Request, env: Env) returns (reply: Reply)
      requires Valid() && r.target.ToRead?
      modifies store, limiter
      ensures Valid() && Answers(old(State()), r, env, State(), reply)
    {
      hide Gate, Complete, Settled, OneNamePerKey, OneTransferPerExcess;
      var v := Admit(r, env);
      if v.Err? {
        return Refused(v.error);
      }
      ReadEffect(cfg, store.Snapshot(), r.target.offerId, env.inp);
      var found := store.GetOffer(r.target.offerId);
      if found.None? {
        return Refused(OfferNotFound);
      }
      var row := SettleExpiry(found.value, env.inp);
      return OfferView(row.event, row.status);
    }

    method RevokeOffer(r: Request, env: Env) returns (reply: Reply)
      requires Valid() && r.target.ToRevoke?
      modifies store, limiter
      ensures Valid() && Answers(old(State()), r, env, State(), reply)
    {
      hide Gate, Complete, Constraints;
      var v := Admit(r, env);
      if v.Err? {
        return Refused(v.error);
      }
      reply := RevokeBy(r.target.offerId, v.value, env.inp);
    }

    method RevokeBy(id: string, auth: string, inp: Input) returns (reply: Reply)
      requires Valid()
      modifies store`offers
      ensures Valid()
      ensures var out := Complete(cfg, old(store.Snapshot()), RevokeGet(id, auth), inp);
              out.db == store.Snapshot() && out.flight == Finish(reply)
    {
      hide Complete, Constraints, TipForColumn, MarkOfferDead, SetStatus;
      ghost var db := store.Snapshot();
      if id in db.offers { StoredUnderId(db, id); }
      RevokeGetAlone(cfg, db, id, auth, inp);
      ghost var next := RevokePoint(db.offers, id, auth, inp.now);
      if next.Done? { DoneStays(cfg, db, next, inp); }
      var found := store.GetOffer(id);
      if found.None? {
        return Refused(OfferNotFound);
      }
      var row := found.value;
      if auth != row.seller {
        return Refused(NotTheOwner);
      }
      if row.status == Consumed {
        return Refused(OfferConsumed);
      }
      if row.status == Revoked {
        return RevokedOffer(id);
      }
      if row.status == Live {
        RevokeTipAlone(cfg, db, row, inp.now, inp);
        var endHeight := AskTip(inp.tipNode);
        store.MarkDead(id, Revoked, endHeight, inp.now);
      } else {
        RevokeFlipAlone(cfg, db, row, inp);
        store.FlipToRevoked(id);
      }
      return RevokedOffer(id);
    }

    method Claim(r: Request, env: Env) returns (reply: Reply)
      requires Valid() && r.target.ToClaim?
      modifies store, limiter
      ensures Valid() && Answers(old(State()), r, env, State(), reply)
    {
      hide Gate, Complete, Constraints, ParsePaymentProof, ValidOfferId;
      var v := Admit(r, env);
      if v.Err? {
        return Refused(v.error);
      }
      ghost var f := Begin(cfg, v.value, r.target, env.inp.now);
      if f.Done? { DoneStays(cfg, store.Snapshot(), f, env.inp); }
      if r.target.claim.None? {
        return Refused(InvalidBody);
      }
      var body := r.target.claim.value;
      if !ValidOfferId(body.offerId) || body.proof.MissingProof? {
        return Refused(InvalidBody);
      }
      if body.proof.UnreadableProof? {
        return Refused(InvalidProof);
      }
      var arms;
      reply, arms := ClaimOffer(Lower(body.offerId), v.value, ParsePaymentProof(body.proof.raw), env.inp);
      // Arm the seller's name-change cooldown, as a release does.
      if arms.Some? {
        limiter.RecordOp("namechange", arms.value, env.armAt);
      }
    }

    method ClaimOffer(id: string, auth: string, proof: PaymentProof, inp: Input)
      returns (reply: Reply, arms: Option<string>)
      requires Valid()
      modifies store
      ensures Valid()
      ensures var out := Complete(cfg, old(store.Snapshot()), ClaimGet(id, auth, proof), inp);
              out.db == store.Snapshot() && out.flight == Done(reply, arms)
    {
      hide Complete, Settled, AfterSettle, Settle, OneNamePerKey, OneTransferPerExcess;
      ghost var db := store.Snapshot();
      ClaimGetAlone(cfg, db, id, auth, proof, inp);
      var found := store.GetOffer(id);
      if found.None? {
        DoneStays(cfg, db, Refuse(OfferNotFound), inp);
        return Refused(OfferNotFound), None;
      }
      SettleEffect(cfg, db, ClaimAsks(auth, proof), id, inp);
      var row := SettleExpiry(found.value, inp);
      reply, arms := ClaimSettled(row, auth, proof, inp);
    }

    // The claim from the settled row on, check by check in the source's order.
    method ClaimSettled(row: OfferRow, auth: string, proof: PaymentProof, inp: Input)
      returns (reply: Reply, arms: Option<string>)
      requires Valid()
      modifies store
      ensures Valid()
      ensures var out := Complete(cfg, old(store.Snapshot()), AfterSettle(cfg, ClaimAsks(auth, proof), row, inp.now),
                                  inp);
              out.db == store.Snapshot() && out.flight == Done(reply, arms)
    {
      hide Complete, ProofRefusal, Constraints;
      ghost var db := store.Snapshot();
      arms := None;
      if row.status == Consumed {
        ClaimReplayAlone(cfg, db, row, proof, inp);
        if row.offerId in store.transfers {
          var done := store.transfers[row.offerId];
          if done.excess == proof.excessHex {
            return Claimed(false, done.name, done.buyer), None;
          }
        }
        return Refused(OfferConsumed), None;
      }
      ghost var start := AfterSettle(cfg, ClaimAsks(auth, proof), row, inp.now);
      if start.Done? { DoneStays(cfg, db, start, inp); }
      var deadEnd: Option<i64> := None;
      if row.status == Revoked || row.status == Expired {
        var changed := row.stateChangedAt.GetOr(inp.now);
        if inp.now - changed > cfg.transferClaimGrace {
          return Refused(OfferGone(row.status)), None;
        }
        if row.endHeight.None? {
          return Refused(OfferGone(row.status)), None;
        }
        deadEnd := row.endHeight;
      }
      if auth != row.buyer {
        return Refused(NotTheBuyer), None;
      }
      reply, arms := ClaimOwned(ClaimCtx(row, proof, inp.now, deadEnd), inp);
    }

    // Owner, proof, kernel, excess and buyer checks, then the transaction.
    method ClaimOwned(c: ClaimCtx, inp: Input) returns (reply: Reply, arms: Option<string>)
      requires Valid()
      modifies store
      ensures Valid()
      ensures var out := Complete(cfg, old(store.Snapshot()), ClaimOwner(c), inp);
              out.db == store.Snapshot() && out.flight == Done(reply, arms)
    {
      hide Complete, VerifySignatures, NormalizeGrinAddress, Constraints, Kernel, HeightForColumn;
      ghost var db := store.Snapshot();
      var row, proof := c.offer, c.proof;
      ClaimOwnerAlone(cfg, db, c, inp);
      if Lookup(store.names, row.name) != Some(row.seller) {
        return Refused(OwnerHasChanged), None;
      }
      if !VerifySignatures(cfg.lib, proof) {
        return Refused(InvalidProof), None;
      }
      if NormalizeGrinAddress(cfg.lib, proof.recipientAddress) != row.proofAddress {
        return Refused(AddressMismatch), None;
      }
      if row.price < 0 || proof.amount != ToU64(row.price) {
        return Refused(AmountMismatch), None;
      }
      ClaimKernelAlone(cfg, db, c, inp);
      if inp.kernelNode.None? {
        return Refused(PaymentUnconfirmed), None;
      }
      var kernel := QueryKernel(inp.kernelNode.value);
      if kernel.Err? {
        return Refused(PaymentUnconfirmed), None;
      }
      if !kernel.value.found || kernel.value.confirmations < cfg.transferMinConf {
        return Refused(PaymentUnconfirmed), None;
      }
      var kernelHeight := HeightForColumn(kernel.value);
      if c.deadEnd.Some? && !(kernelHeight.Some? && kernelHeight.value <= c.deadEnd.value) {
        return Refused(OfferGone(row.status)), None;
      }
      reply, arms := ClaimPaid(c, inp.kernelNode.value, kernelHeight, inp);
    }

    method ClaimPaid(c: ClaimCtx, ghost view: seq<Endpoint>, kernelHeight: Option<i64>, inp: Input)
      returns (reply: Reply, arms: Option<string>)
      requires Valid()
      modifies store
      ensures Valid()
      ensures var out := Complete(cfg, old(store.Snapshot()), ClaimExcess(c, view, kernelHeight), inp);
              out.db == store.Snapshot() && out.flight == Done(reply, arms)
    {
      hide Complete, Constraints, ExcessUsed, HasName, ClaimResult, ClaimTxn;
      ghost var db := store.Snapshot();
      var row := c.offer;
      ClaimExcessAlone(cfg, db, c, view, kernelHeight, inp);
      if ExcessUsed(store.transfers, c.proof.excessHex) {
        return Refused(ProofReused), None;
      }
      ClaimNameOfAlone(cfg, db, c, view, kernelHeight, inp);
      var existing := store.FindName(row.buyer);
      if existing.Some? {
        return Refused(KeyHasName(existing)), None;
      }
      var result := store.RunClaimTxn(row, c.proof.excessHex, kernelHeight, c.now);
      match result {
        case OwnerChanged => return Refused(OwnerHasChanged), None;
        case BuyerHasName => return Refused(KeyHasName(None)), None;
        case Reused => return Refused(ProofReused), None;
        case Committed => return Claimed(true, row.name, row.buyer), Some(row.seller);
      }
    }
  }
}
