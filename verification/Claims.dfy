/** Claims over serialized runs: all or nothing, and idempotent retries. */
module Claims {
  import opened Prelude
  import opened Proof
  import opened Tables
  import opened Api
  import opened Protocol
  import opened Interleaving
  import opened Serialized
  import opened Solo
  import opened Effects
  import opened SerialRuns

  // One name from seller to buyer, one receipt, one offer consumed, and nothing else.
  ghost predicate OneSale(db: Db, after: Db, id: string, row: OfferRow) {
    && id in db.offers && id in after.offers && row.Lodged() == db.offers[id].Lodged()
    && Holds(db.names, row.name, row.seller) && Holds(after.names, row.name, row.buyer)
    && after.names == db.names[row.name := after.names[row.name]]
    && |Owners(after.names)| == |Owners(db.names)|
    && id !in db.transfers && id in after.transfers && after.transfers == db.transfers[id := after.transfers[id]]
    && ReceiptFits(after.transfers[id], row)
    && db.offers[id].status != Consumed && after.offers[id].status == Consumed
    && after.offers == db.offers[id := after.offers[id]]
  }

  lemma EntitledFacts(cfg: Config, db: Db, row: OfferRow, auth: string, proof: PaymentProof, inp: Input)
    requires Entitled(cfg, db, row, auth, proof, inp)
    ensures Holds(db.names, row.name, row.seller) && row.offerId !in db.transfers && auth == row.buyer
  {
  }

  lemma SaleIsOneSale(cfg: Config, db: Db, id: string, auth: string, proof: PaymentProof, inp: Input, after: Db)
    requires id in db.offers && db.offers[id].offerId == id
    requires Does(cfg, db, Selling(id, auth, proof), inp, after)
    ensures id in Settled(db.offers, id, inp) && OneSale(db, after, id, Settled(db.offers, id, inp)[id])
  {
    hide Entitled, Settled;
    SettledRow(db.offers, id, inp);
    var mid := db.(offers := Settled(db.offers, id, inp));
    var row := mid.offers[id];
    EntitledFacts(cfg, mid, row, auth, proof, inp);
    SaleSwap(db.names, row.name, row.buyer, inp.now);
    assert after.offers == db.offers[id := after.offers[id]];
    hide Owners;
  }

  // A successful claim is exactly one sale: it hands one name from the seller to the
  // authenticated buyer, adds one receipt, consumes one offer, and keeps the number of
  // active names.
  lemma ClaimMovesOneName(cfg: Config, s: AppState, r: Request, env: Env) returns (id: string, row: OfferRow)
    requires DbGood(cfg, s.db)
    requires Serve(cfg, s, r, env).reply.Claimed? && Serve(cfg, s, r, env).reply.created
    ensures OneSale(s.db, Serve(cfg, s, r, env).state.db, id, row)
    ensures Gate(cfg, s, r, env).verdict == Ok(row.buyer)
  {
    hide DbGood, Gate, Serve, Settled, OneSale, Entitled, SaleOutcome;
    var e := EffectOf(cfg, s, r, env);
    id := e.id;
    GoodIds(cfg, s.db, id);
    SaleIsOneSale(cfg, s.db, id, e.auth, e.proof, env.inp, Serve(cfg, s, r, env).state.db);
    row := Settled(s.db.offers, id, env.inp)[id];
    EntitledFacts(cfg, s.db.(offers := Settled(s.db.offers, id, env.inp)), row, e.auth, e.proof, env.inp);
  }

  lemma SaleSwap(names: map<string, NameRow>, name: string, buyer: string, now: int)
    requires Active(names, name)
    ensures |Owners(names[name := NameRow(buyer, now, None)])| == |Owners(names)|
  {
    assert Owners(names[name := NameRow(buyer, now, None)]).Keys == Owners(names).Keys;
  }

  // Any other answer to a claim leaves the tables as they were, apart from writing down
  // the expiry of the claimed offer.
  lemma FailedClaimChangesNothing(cfg: Config, s: AppState, r: Request, env: Env)
    requires DbGood(cfg, s.db) && r.target.ToClaim?
    requires !(Serve(cfg, s, r, env).reply.Claimed? && Serve(cfg, s, r, env).reply.created)
    ensures var db, after := s.db, Serve(cfg, s, r, env).state.db;
            || after == db
            || (r.target.claim.Some?
                && after == db.(offers := Settled(db.offers, Lower(r.target.claim.value.offerId), env.inp)))
  {
    hide DbGood, Gate, Complete, TipForColumn, Settled, Entitled, ReplayPoint;
    var g := Gate(cfg, s, r, env);
    if g.verdict.Ok? {
      var f := Begin(cfg, g.verdict.value, r.target, env.inp.now);
      if f.Done? {
        DoneStays(cfg, s.db, f, env.inp);
      } else {
        GoodIds(cfg, s.db, f.id);
        var e := ClaimEffectOf(cfg, s.db, f.id, g.verdict.value, f.proof, env.inp);
        ClaimEffect(cfg, s.db, f.id, g.verdict.value, f.proof, env.inp);
      }
    }
  }

  // Once a claim of an offer has succeeded, every later admitted claim of that offer is
  // answered from the receipt: the same success body for the same excess, a conflict for
  // any other, and in both cases no table moves, whoever owns the name by then.
  lemma IdempotentRetry(cfg: Config, turns: seq<Turn>, sale: Turn, more: seq<Turn>, retry: Turn,
                        id: string, proof: PaymentProof, proof': PaymentProof)
    requires ClaimsFor(sale.req.target, id, proof) && ClaimsFor(retry.req.target, id, proof')
    requires var sold := Serve(cfg, Run(cfg, Boot, turns), sale.req, sale.env).reply; sold.Claimed? && sold.created
    requires Gate(cfg, Run(cfg, Boot, turns + [sale] + more), retry.req, retry.env).verdict.Ok?
    requires retry.req.target.claim.Some? && Names.ValidOfferId(retry.req.target.claim.value.offerId)
    ensures var s := Run(cfg, Boot, turns + [sale] + more);
            var sold := Serve(cfg, Run(cfg, Boot, turns), sale.req, sale.env).reply;
            var again := Serve(cfg, s, retry.req, retry.env);
            && again.state.db == s.db && again.log == [] && again.armed.None?
            && again.reply == if proof'.excessHex == proof.excessHex then Claimed(false, sold.name, sold.buyer)
                              else Refused(OfferConsumed)
  {
    hide DbGood, Gate, Complete, Serve, Run, Entitled;
    var s0 := Run(cfg, Boot, turns);
    var soldAt := turns + [sale];
    SerializedDbGood(cfg, turns);
    ReceiptOfSale(cfg, s0, sale, id, proof);
    LastTurn(cfg, Boot, turns, sale);
    ConsumedIsFinal(cfg, soldAt, more, id);
    ConsumedExactlyWhenSold(cfg, soldAt, id);
    SerializedDbGood(cfg, soldAt + more);
    RetryAnswer(cfg, Run(cfg, Boot, soldAt + more), retry, id, proof');
  }

  lemma ReceiptOfSale(cfg: Config, s: AppState, sale: Turn, id: string, proof: PaymentProof)
    requires DbGood(cfg, s.db) && ClaimsFor(sale.req.target, id, proof)
    requires var sold := Serve(cfg, s, sale.req, sale.env).reply; sold.Claimed? && sold.created
    ensures var sold := Serve(cfg, s, sale.req, sale.env);
            && id in sold.state.db.transfers
            && sold.state.db.transfers[id].excess == proof.excessHex
            && sold.reply == Claimed(true, sold.state.db.transfers[id].name, sold.state.db.transfers[id].buyer)
  {
    hide DbGood, Serve, Entitled, TipForColumn, Settled;
    var e := EffectOf(cfg, s, sale.req, sale.env);
    GoodIds(cfg, s.db, id);
    SettledRow(s.db.offers, id, sale.env.inp);
    assert Settled(s.db.offers, id, sale.env.inp)[id].Lodged().name == s.db.offers[id].Lodged().name;
    assert Settled(s.db.offers, id, sale.env.inp)[id].Lodged().buyer == s.db.offers[id].Lodged().buyer;
  }

  lemma RetryAnswer(cfg: Config, s: AppState, retry: Turn, id: string, proof: PaymentProof)
    requires DbGood(cfg, s.db) && ClaimsFor(retry.req.target, id, proof)
    requires id in s.db.offers && s.db.offers[id].status == Consumed && id in s.db.transfers
    requires Gate(cfg, s, retry.req, retry.env).verdict.Ok? && Names.ValidOfferId(retry.req.target.claim.value.offerId)
    ensures var again := Serve(cfg, s, retry.req, retry.env);
            && again.state.db == s.db && again.log == [] && again.armed.None?
            && again.reply == if proof.excessHex == s.db.transfers[id].excess
                              then Claimed(false, s.db.transfers[id].name, s.db.transfers[id].buyer)
                                  else Refused(OfferConsumed)
  {
    hide DbGood, Gate, Complete, Entitled, Settled, ParsePaymentProof;
    GoodIds(cfg, s.db, id);
    var auth := Gate(cfg, s, retry.req, retry.env).verdict.value;
    ClaimEffect(cfg, s.db, id, auth, proof, retry.env.inp);
  }
}
