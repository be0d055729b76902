/** What each handler does to the tables when nothing interferes with it. */
module Effects {
  import opened Prelude
  import opened Proof
  import opened Node
  import opened Tables
  import opened Api
  import opened Protocol
  import opened Serialized
  import opened Solo

  // ---------------------------------------------------------------- registry

  lemma AvailabilityEffect(cfg: Config, db: Db, name: string, inp: Input)
    ensures Complete(cfg, db, AvailLookup(name), inp)
            == Outcome(db, Finish(Availability(name, if Active(db.names, name) then Taken else Available)), [])
  {
    hide Complete, LodgingNext, RevocationNext, SettlementNext, ClaimNext;
    OneStep(cfg, db, AvailLookup(name), inp);
  }

  // Registering succeeds exactly for a name nobody holds and a key that holds none.
  lemma RegisterEffect(cfg: Config, db: Db, name: string, pubkey: string, auth: string, inp: Input)
    ensures var out := Complete(cfg, db, RegLookup(name, pubkey, auth), inp);
            && out.flight.Done? && out.flight.arms.None?
            && (out.flight.reply == Registered(true, name) <==> !Active(db.names, name) && !HasName(db.names, pubkey))
            && (out.flight.reply == Registered(true, name) ==>
                  out.db == db.(names := db.names[name := NameRow(pubkey, inp.now, None)]))
            && (out.flight.reply != Registered(true, name) ==> out.db == db && out.log == [])
            && (out.flight.reply.Registered? || out.flight.reply.Refused?)
  {
    hide Complete, HasName;
    RegLookupAlone(cfg, db, name, pubkey, auth, inp);
    if Active(db.names, name) {
    } else {
      RegNameOfAlone(cfg, db, name, pubkey, auth, inp);
      if NameOf(db.names, pubkey).None? {
        RegUpsertAlone(cfg, db, name, pubkey, auth, inp);
        FreshKeyNowhere(db.names, name, pubkey);
      }
    }
  }

  lemma FreshKeyNowhere(names: map<string, NameRow>, name: string, pubkey: string)
    requires !HasName(names, pubkey)
    ensures !KeyElsewhere(names, name, pubkey)
  {
  }

  // A serialized release ends the current owner's hold and nothing else.
  lemma UnregisterEffect(cfg: Config, db: Db, name: string, auth: string, inp: Input)
    ensures var out := Complete(cfg, db, UnregLookup(name, auth), inp);
            && out.flight.Done?
            && (out.flight.reply == Released(name) <==> Holds(db.names, name, auth))
            && (out.flight.reply == Released(name) ==>
                  out.db == db.(names := ReleaseName(db.names, name, inp.now)) && out.flight.arms == Some(auth))
            && (out.flight.reply != Released(name) ==>
                out.db == db && out.flight.arms.None? && out.flight.reply.Refused?)
  {
    hide Complete;
    UnregLookupAlone(cfg, db, name, auth, inp);
    if Holds(db.names, name, auth) {
      UnregUpdateAlone(cfg, db, name, auth, inp);
    }
  }

  // ---------------------------------------------------------------- offers

  // An offer is taken in exactly when the seller owns the name, no offer for the name or
  // the address is live now, and the id is new.
  lemma LodgeEffect(cfg: Config, db: Db, row: OfferRow, inp: Input)
    ensures var out := Complete(cfg, db, LodgeLookup(row), inp);
            && out.flight.Done? && out.flight.arms.None?
            && (out.flight.reply.Lodged? <==>
                  Holds(db.names, row.name, row.seller)
                  && !LiveOfferForName(db.offers, row.name, row.createdAt)
                  && !LiveOfferBinding(db.offers, row.proofAddress, row.createdAt)
                  && row.offerId !in db.offers)
            && (out.flight.reply.Lodged? ==>
                  out.db == db.(offers := db.offers[row.offerId := row])
                  && out.flight.reply == Lodged(row.offerId, row.name, row.expiration))
            && (!out.flight.reply.Lodged? ==> out.db == db && out.flight.reply.Refused?)
  {
    hide Complete, LiveOfferForName, LiveOfferBinding;
    LodgeLookupAlone(cfg, db, row, inp);
    LodgeByNameAlone(cfg, db, row, inp);
    LodgeByAddressAlone(cfg, db, row, inp);
  }

  predicate Overdue(o: OfferRow, now: int) {
    o.status == Live && o.expiration < now
  }

  // Lazy settlement of one offer.
  function Settled(offers: map<string, OfferRow>, id: string, inp: Input): map<string, OfferRow> {
    if id in offers && Overdue(offers[id], inp.now)
    then MarkOfferDead(offers, id, Expired, TipForColumn(inp.tipNode), inp.now)
    else offers
  }

  lemma SettleEffect(cfg: Config, db: Db, asker: Asker, id: string, inp: Input)
    requires id in db.offers && db.offers[id].offerId == id
    ensures var offers := Settled(db.offers, id, inp);
            Complete(cfg, db, Settle(cfg, asker, db.offers[id], inp.now), inp)
            == Complete(cfg, db.(offers := offers), AfterSettle(cfg, asker, offers[id], inp.now), inp)
  {
    hide Complete, AfterSettle, TipForColumn;
    if Overdue(db.offers[id], inp.now) {
      SettleTipAlone(cfg, db, asker, db.offers[id], inp.now, inp);
    }
  }

  lemma ReadEffect(cfg: Config, db: Db, id: string, inp: Input)
    requires id in db.offers ==> db.offers[id].offerId == id
    ensures Complete(cfg, db, ReadGet(id), inp)
            == if id !in db.offers then Outcome(db, Refuse(OfferNotFound), [])
               else
                 var offers := Settled(db.offers, id, inp);
                 Outcome(db.(offers := offers), Finish(OfferView(offers[id].event, offers[id].status)), [])
  {
    hide Complete, Settle, Settled, AfterSettle;
    ReadGetAlone(cfg, db, id, inp);
    if id in db.offers {
      SettledRow(db.offers, id, inp);
      SettleEffect(cfg, db, ReadAsks, id, inp);
      ReadAnswer(cfg, Settled(db.offers, id, inp)[id], inp.now);
      DoneStays(cfg, db.(offers := Settled(db.offers, id, inp)),
                AfterSettle(cfg, ReadAsks, Settled(db.offers, id, inp)[id], inp.now), inp);
    }
  }

  lemma ReadAnswer(cfg: Config, row: OfferRow, now: int)
    ensures AfterSettle(cfg, ReadAsks, row, now) == Finish(OfferView(row.event, row.status))
  {
  }

  function RevokedRow(row: OfferRow, inp: Input): OfferRow {
    match row.status
    case Live => row.(status := Revoked, endHeight := TipForColumn(inp.tipNode), stateChangedAt := Some(inp.now))
    case Expired => row.(status := Revoked)
    case _ => row
  }

  // A revocation touches only the seller's own live or expired offer; an expired one
  // keeps the death record it has.
  lemma RevokeEffect(cfg: Config, db: Db, id: string, auth: string, inp: Input)
    requires id in db.offers ==> db.offers[id].offerId == id
    ensures var out := Complete(cfg, db, RevokeGet(id, auth), inp);
            && out.flight.Done? && out.flight.arms.None? && out.log == []
            && (out.flight.reply == RevokedOffer(id)
                <==> id in db.offers && auth == db.offers[id].seller && db.offers[id].status != Consumed)
            && (out.flight.reply != RevokedOffer(id) ==> out.db == db && out.flight.reply.Refused?)
            && (out.flight.reply == RevokedOffer(id) ==>
                  out.db.names == db.names && out.db.transfers == db.transfers
                  && out.db.offers == db.offers[id := RevokedRow(db.offers[id], inp)])
  {
    hide Complete, TipForColumn;
    RevokeGetAlone(cfg, db, id, auth, inp);
    var next := RevokePoint(db.offers, id, auth, inp.now);
    if next.RevokeTip? {
      RevokeTipAlone(cfg, db, next.row, inp.now, inp);
    } else if next.RevokeFlip? {
      RevokeFlipAlone(cfg, db, next.row, inp);
    } else {
      DoneStays(cfg, db, next, inp);
      assert id in db.offers ==> db.offers[id := db.offers[id]] == db.offers;
    }
  }

  // ---------------------------------------------------------------- claims

  // Everything a claim must show once its offer is settled and not consumed.
  ghost predicate Entitled(cfg: Config, db: Db, row: OfferRow, auth: string, proof: PaymentProof, inp: Input)
    ensures Entitled(cfg, db, row, auth, proof, inp) ==> inp.kernelNode.Some? && Kernel(inp.kernelNode.value).Ok?
  {
    && DeathGate(cfg, row, inp.now).Ok?
    && auth == row.buyer
    && Holds(db.names, row.name, row.seller)
    && ProofRefusal(cfg, row, proof).None?
    && inp.kernelNode.Some? && Confirmed(cfg, inp.kernelNode.value)
    && BeforeDeath(DeathGate(cfg, row, inp.now).value, HeightForColumn(Kernel(inp.kernelNode.value).value))
    && !ExcessUsed(db.transfers, proof.excessHex)
    && !HasName(db.names, row.buyer)
    && row.offerId !in db.transfers
  }

  ghost function SaleOutcome(db: Db, row: OfferRow, proof: PaymentProof, inp: Input): Outcome
    requires inp.kernelNode.Some? && Kernel(inp.kernelNode.value).Ok?
  {
    var height := HeightForColumn(Kernel(inp.kernelNode.value).value);
    var receipt := ReceiptOf(row, proof.excessHex, height, inp.now);
    Outcome(Db(db.names[row.name := NameRow(row.buyer, inp.now, None)],
               SetStatus(db.offers, row.offerId, Consumed),
               db.transfers[row.offerId := receipt]),
            Done(Claimed(true, row.name, row.buyer), Some(row.seller)),
            [DidTransfer(row.offerId, receipt, proof, inp.kernelNode.value)])
  }

  lemma ClaimTail(cfg: Config, db: Db, row: OfferRow, auth: string, proof: PaymentProof, inp: Input)
    requires row.status != Consumed
    ensures var out := Complete(cfg, db, AfterSettle(cfg, ClaimAsks(auth, proof), row, inp.now), inp);
            if Entitled(cfg, db, row, auth, proof, inp) then out == SaleOutcome(db, row, proof, inp)
            else RefusedUnchanged(db, out)
  {
    hide Complete, ProofRefusal, Confirmed, HeightForColumn, HasName, ExcessUsed, BeforeDeath, DeathGate;
    hide Kernel, SaleOutcome;
    var gate := DeathGate(cfg, row, inp.now);
    var start := AfterSettle(cfg, ClaimAsks(auth, proof), row, inp.now);
    if gate.Err? || auth != row.buyer {
      DoneStays(cfg, db, start, inp);
    } else {
      var c := ClaimCtx(row, proof, inp.now, gate.value);
      assert start == ClaimOwner(c);
      ClaimFromOwner(cfg, db, c, inp);
    }
  }

  // The last checks and the transaction.
  lemma ClaimFromExcess(cfg: Config, db: Db, c: ClaimCtx, view: seq<Endpoint>, h: Option<i64>, inp: Input)
    requires Holds(db.names, c.offer.name, c.offer.seller)
    ensures var out := Complete(cfg, db, ClaimExcess(c, view, h), inp);
            if !ExcessUsed(db.transfers, c.proof.excessHex) && !HasName(db.names, c.offer.buyer)
                && c.offer.offerId !in db.transfers
            then out == Outcome(Db(db.names[c.offer.name := NameRow(c.offer.buyer, c.now, None)],
                                   SetStatus(db.offers, c.offer.offerId, Consumed),
                                   db.transfers[c.offer.offerId := ReceiptOf(c.offer, c.proof.excessHex, h, c.now)]),
                                Done(Claimed(true, c.offer.name, c.offer.buyer), Some(c.offer.seller)),
                                [DidTransfer(c.offer.offerId, ReceiptOf(c.offer, c.proof.excessHex, h, c.now), c.proof,
                                             view)])
            else RefusedUnchanged(db, out)
  {
    hide Complete, HasName, ExcessUsed, ClaimTxn, ClaimResult;
    ClaimExcessAlone(cfg, db, c, view, h, inp);
    ClaimNameOfAlone(cfg, db, c, view, h, inp);
    if !ExcessUsed(db.transfers, c.proof.excessHex) && !HasName(db.names, c.offer.buyer) {
      CommitVerdict(db, c.offer, c.proof.excessHex, h, c.now);
    }
  }

  predicate RefusedUnchanged(db: Db, out: Outcome) {
    out.db == db && out.log == [] && out.flight.Done? && out.flight.arms.None? && out.flight.reply.Refused?
  }

  // The rest of the claim: owner, proof, kernel, excess, buyer, transaction.
  lemma ClaimFromOwner(cfg: Config, db: Db, c: ClaimCtx, inp: Input)
    requires c.now == inp.now
    ensures var out := Complete(cfg, db, ClaimOwner(c), inp);
            if Payable(cfg, db, c, inp) then out == SaleOutcome(db, c.offer, c.proof, inp)
            else RefusedUnchanged(db, out)
  {
    hide Complete, ProofRefusal, Confirmed, HeightForColumn, HasName, ExcessUsed, BeforeDeath, Kernel;
    ClaimOwnerAlone(cfg, db, c, inp);
    if Holds(db.names, c.offer.name, c.offer.seller) && ProofRefusal(cfg, c.offer, c.proof).None? {
      ClaimKernelAlone(cfg, db, c, inp);
      if inp.kernelNode.Some? && Confirmed(cfg, inp.kernelNode.value) {
        ConfirmedIsOk(cfg, inp.kernelNode.value);
        ClaimFromExcess(cfg, db, c, inp.kernelNode.value, HeightForColumn(Kernel(inp.kernelNode.value).value), inp);
      }
    }
  }

  ghost predicate Payable(cfg: Config, db: Db, c: ClaimCtx, inp: Input)
    ensures Payable(cfg, db, c, inp) ==> inp.kernelNode.Some? && Kernel(inp.kernelNode.value).Ok?
  {
    && Holds(db.names, c.offer.name, c.offer.seller)
    && ProofRefusal(cfg, c.offer, c.proof).None?
    && inp.kernelNode.Some? && Confirmed(cfg, inp.kernelNode.value)
    && BeforeDeath(c.deadEnd, HeightForColumn(Kernel(inp.kernelNode.value).value))
    && !ExcessUsed(db.transfers, c.proof.excessHex)
    && !HasName(db.names, c.offer.buyer)
    && c.offer.offerId !in db.transfers
  }

  lemma CommitVerdict(db: Db, o: OfferRow, excess: string, h: Option<i64>, now: int)
    requires Holds(db.names, o.name, o.seller) && !HasName(db.names, o.buyer) && !ExcessUsed(db.transfers, excess)
    ensures ClaimResult(db, o, excess) == if o.offerId in db.transfers then Reused else Committed
    ensures o.offerId !in db.transfers ==>
              ClaimTxn(db, o, excess, h, now)
              == Db(db.names[o.name := NameRow(o.buyer, now, None)], SetStatus(db.offers, o.offerId, Consumed),
                    db.transfers[o.offerId := ReceiptOf(o, excess, h, now)])
  {
    FreshKeyNowhere(db.names, o.name, o.buyer);
  }

  // A claim as a whole: settle, then either the recorded answer for a consumed offer, or a
  // sale exactly for an entitled claim, or a refusal that changes nothing further.
  lemma ClaimEffect(cfg: Config, db: Db, id: string, auth: string, proof: PaymentProof, inp: Input)
    requires id in db.offers ==> db.offers[id].offerId == id
    ensures var out := Complete(cfg, db, ClaimGet(id, auth, proof), inp);
            var mid := db.(offers := Settled(db.offers, id, inp));
            && (id !in db.offers ==> out == Outcome(db, Refuse(OfferNotFound), []))
            && (id in db.offers && db.offers[id].status == Consumed ==>
                  out == Outcome(db, ReplayPoint(db.transfers, id, proof.excessHex), []))
            && (id in db.offers && db.offers[id].status != Consumed ==>
                  id in mid.offers
                  && if Entitled(cfg, mid, mid.offers[id], auth, proof, inp) then
                       out == SaleOutcome(mid, mid.offers[id], proof, inp)
                     else RefusedUnchanged(mid, out))
  {
    hide Complete, Settle, AfterSettle, Entitled, SaleOutcome, ReplayPoint;
    ClaimGetAlone(cfg, db, id, auth, proof, inp);
    if id in db.offers {
      var asker := ClaimAsks(auth, proof);
      SettleEffect(cfg, db, asker, id, inp);
      var mid := db.(offers := Settled(db.offers, id, inp));
      var row := mid.offers[id];
      SettledRow(db.offers, id, inp);
      if db.offers[id].status == Consumed {
        assert mid == db;
        ReplayRoute(cfg, asker, row, inp.now);
        ClaimReplayAlone(cfg, db, row, proof, inp);
        ReplayEnds(db.transfers, id, proof.excessHex);
      } else {
        ClaimTail(cfg, mid, row, auth, proof, inp);
      }
    } else {
      DoneStays(cfg, db, Refuse(OfferNotFound), inp);
    }
  }

  lemma ReplayRoute(cfg: Config, asker: Asker, row: OfferRow, now: int)
    requires row.status == Consumed && asker.ClaimAsks?
    ensures AfterSettle(cfg, asker, row, now) == ClaimReplay(row, asker.proof)
  {
  }

  lemma ReplayEnds(transfers: map<string, TransferRow>, id: string, excess: string)
    ensures ReplayPoint(transfers, id, excess).Done?
  {
  }

  lemma SettledRow(offers: map<string, OfferRow>, id: string, inp: Input)
    requires id in offers
    ensures id in Settled(offers, id, inp)
    ensures var row := Settled(offers, id, inp)[id];
            && row.Lodged() == offers[id].Lodged() && row.offerId == offers[id].offerId
            && (offers[id].status != Live ==> Settled(offers, id, inp) == offers)
            && (row.status == Consumed <==> offers[id].status == Consumed)
            && (row.status == Live ==> row.expiration >= inp.now)
    ensures Settled(offers, id, inp).Keys == offers.Keys
    ensures forall other :: other in offers && other != id ==> Settled(offers, id, inp)[other] == offers[other]
  {
    hide TipForColumn;
    if Overdue(offers[id], inp.now) {
      var row := Settled(offers, id, inp)[id];
      assert row.Lodged() == offers[id].Lodged();
    }
  }
}
