/** A request running alone, one program point at a time. */
module Solo {
  import opened Prelude
  import opened Proof
  import opened Node
  import opened Tables
  import opened Api
  import opened Protocol
  import opened Serialized

  lemma OneStep(cfg: Config, db: Db, f: Flight, inp: Input)
    requires !f.Done?
    ensures var out := Next(cfg, db, f, inp);
            && (out.log == [] ==> Complete(cfg, db, f, inp) == Complete(cfg, out.db, out.flight, inp))
            && (out.flight.Done? ==> Complete(cfg, db, f, inp) == out)
  {
    hide Next;
    var out := Next(cfg, db, f, inp);
    StepsCountDown(cfg, db, f, inp);
    var rest := Complete(cfg, out.db, out.flight, inp);
    if out.log == [] {
      assert out.log + rest.log == rest.log;
    }
    if out.flight.Done? {
      assert out.log + [] == out.log;
    }
  }

  lemma DoneStays(cfg: Config, db: Db, f: Flight, inp: Input)
    requires f.Done?
    ensures Complete(cfg, db, f, inp) == Outcome(db, f, [])
  {
  }

  // ---------------------------------------------------------------- registry

  lemma RegLookupAlone(cfg: Config, db: Db, name: string, pubkey: string, auth: string, inp: Input)
    ensures Complete(cfg, db, RegLookup(name, pubkey, auth), inp)
            == match Lookup(db.names, name)
               case Some(owner) =>
                 Outcome(db, if owner == pubkey then Finish(Registered(false, name)) else Refuse(NameTaken), [])
               case None => Complete(cfg, db, RegNameOf(name, pubkey, auth), inp)
  {
    hide Complete, LodgingNext, RevocationNext, SettlementNext, ClaimNext;
    OneStep(cfg, db, RegLookup(name, pubkey, auth), inp);
  }

  lemma RegNameOfAlone(cfg: Config, db: Db, name: string, pubkey: string, auth: string, inp: Input)
    ensures Complete(cfg, db, RegNameOf(name, pubkey, auth), inp)
            == if NameOf(db.names, pubkey).Some? then Outcome(db, Refuse(KeyHasName(NameOf(db.names, pubkey))), [])
               else Complete(cfg, db, RegUpsert(name, pubkey, auth), inp)
  {
    hide Complete, LodgingNext, RevocationNext, SettlementNext, ClaimNext, HasName;
    OneStep(cfg, db, RegNameOf(name, pubkey, auth), inp);
  }

  lemma RegUpsertAlone(cfg: Config, db: Db, name: string, pubkey: string, auth: string, inp: Input)
    ensures Complete(cfg, db, RegUpsert(name, pubkey, auth), inp) == UpsertPoint(db, name, pubkey, auth, inp)
  {
    hide Complete, LodgingNext, RevocationNext, SettlementNext, ClaimNext, UpsertResultOf, UpsertName;
    OneStep(cfg, db, RegUpsert(name, pubkey, auth), inp);
  }

  lemma UnregLookupAlone(cfg: Config, db: Db, name: string, auth: string, inp: Input)
    ensures Complete(cfg, db, UnregLookup(name, auth), inp)
            == match Lookup(db.names, name)
               case None => Outcome(db, Refuse(NameNotFound), [])
               case Some(owner) =>
                 if owner == auth then Complete(cfg, db, UnregUpdate(name, auth), inp)
                 else Outcome(db, Refuse(NotTheOwner), [])
  {
    hide Complete, LodgingNext, RevocationNext, SettlementNext, ClaimNext;
    OneStep(cfg, db, UnregLookup(name, auth), inp);
  }

  lemma UnregUpdateAlone(cfg: Config, db: Db, name: string, auth: string, inp: Input)
    ensures Complete(cfg, db, UnregUpdate(name, auth), inp) == ReleasePoint(db, name, auth, inp)
  {
    hide Complete, LodgingNext, RevocationNext, SettlementNext, ClaimNext, ReleaseName;
    OneStep(cfg, db, UnregUpdate(name, auth), inp);
  }

  // ---------------------------------------------------------------- lodging

  lemma LodgeLookupAlone(cfg: Config, db: Db, row: OfferRow, inp: Input)
    ensures Complete(cfg, db, LodgeLookup(row), inp)
            == if Lookup(db.names, row.name) == Some(row.seller) then Complete(cfg, db, LodgeByName(row), inp)
               else Outcome(db, Refuse(NotTheOwner), [])
  {
    hide Complete, RegistryNext, RevocationNext, SettlementNext, ClaimNext;
    OneStep(cfg, db, LodgeLookup(row), inp);
  }

  lemma LodgeByNameAlone(cfg: Config, db: Db, row: OfferRow, inp: Input)
    ensures Complete(cfg, db, LodgeByName(row), inp)
            == if LiveOfferForName(db.offers, row.name, row.createdAt) then Outcome(db, Refuse(OfferExists), [])
               else Complete(cfg, db, LodgeByAddress(row), inp)
  {
    hide Complete, RegistryNext, RevocationNext, SettlementNext, ClaimNext, LiveOfferForName;
    OneStep(cfg, db, LodgeByName(row), inp);
  }

  lemma LodgeByAddressAlone(cfg: Config, db: Db, row: OfferRow, inp: Input)
    ensures Complete(cfg, db, LodgeByAddress(row), inp)
            == if LiveOfferBinding(db.offers, row.proofAddress, row.createdAt) then
                 Outcome(db, Refuse(OfferAmbiguous), [])
               else InsertPoint(db, row)
  {
    hide Complete, RegistryNext, RevocationNext, SettlementNext, ClaimNext, LiveOfferBinding, InsertOffer;
    OneStep(cfg, db, LodgeByAddress(row), inp);
    OneStep(cfg, db, LodgeInsert(row), inp);
  }

  // ---------------------------------------------------------------- revocation

  lemma RevokeGetAlone(cfg: Config, db: Db, id: string, auth: string, inp: Input)
    ensures Complete(cfg, db, RevokeGet(id, auth), inp)
            == Complete(cfg, db, RevokePoint(db.offers, id, auth, inp.now), inp)
  {
    hide Complete, RegistryNext, LodgingNext, SettlementNext, ClaimNext, RevokePoint;
    OneStep(cfg, db, RevokeGet(id, auth), inp);
  }

  lemma RevokeTipAlone(cfg: Config, db: Db, row: OfferRow, now: int, inp: Input)
    ensures Complete(cfg, db, RevokeTip(row, now), inp)
            == Outcome(db.(offers := MarkOfferDead(db.offers, row.offerId, Revoked, TipForColumn(inp.tipNode), now)),
                       Finish(RevokedOffer(row.offerId)), [])
  {
    hide Complete, RegistryNext, LodgingNext, SettlementNext, ClaimNext, TipForColumn, MarkOfferDead;
    OneStep(cfg, db, RevokeTip(row, now), inp);
    OneStep(cfg, db, RevokeMark(row, TipForColumn(inp.tipNode), now), inp);
  }

  lemma RevokeFlipAlone(cfg: Config, db: Db, row: OfferRow, inp: Input)
    ensures Complete(cfg, db, RevokeFlip(row), inp)
            == Outcome(db.(offers := SetStatus(db.offers, row.offerId, Revoked)), Finish(RevokedOffer(row.offerId)), [])
  {
    hide Complete, RegistryNext, LodgingNext, SettlementNext, ClaimNext, SetStatus;
    OneStep(cfg, db, RevokeFlip(row), inp);
  }

  // ---------------------------------------------------------------- settlement

  lemma ReadGetAlone(cfg: Config, db: Db, id: string, inp: Input)
    ensures Complete(cfg, db, ReadGet(id), inp)
            == if id in db.offers then Complete(cfg, db, Settle(cfg, ReadAsks, db.offers[id], inp.now), inp)
               else Outcome(db, Refuse(OfferNotFound), [])
  {
    hide Complete, RegistryNext, LodgingNext, RevocationNext, ClaimNext, Settle;
    OneStep(cfg, db, ReadGet(id), inp);
  }

  lemma ClaimGetAlone(cfg: Config, db: Db, id: string, auth: string, proof: PaymentProof, inp: Input)
    ensures Complete(cfg, db, ClaimGet(id, auth, proof), inp)
            == if id in db.offers then
                 Complete(cfg, db, Settle(cfg, ClaimAsks(auth, proof), db.offers[id], inp.now), inp)
               else Outcome(db, Refuse(OfferNotFound), [])
  {
    hide Complete, RegistryNext, LodgingNext, RevocationNext, ClaimNext, Settle;
    OneStep(cfg, db, ClaimGet(id, auth, proof), inp);
  }

  lemma SettleTipAlone(cfg: Config, db: Db, asker: Asker, row: OfferRow, now: int, inp: Input)
    ensures var offers := MarkOfferDead(db.offers, row.offerId, Expired, TipForColumn(inp.tipNode), now);
            Complete(cfg, db, SettleTip(asker, row, now), inp)
            == Complete(cfg, db.(offers := offers),
                        AfterSettle(cfg, asker, if row.offerId in offers then offers[row.offerId] else row, now), inp)
  {
    hide Complete, RegistryNext, LodgingNext, RevocationNext, ClaimNext, TipForColumn, MarkOfferDead, AfterSettle;
    var end := TipForColumn(inp.tipNode);
    OneStep(cfg, db, SettleTip(asker, row, now), inp);
    OneStep(cfg, db, SettleMark(asker, row, end, now), inp);
    OneStep(cfg, db.(offers := MarkOfferDead(db.offers, row.offerId, Expired, end, now)), SettleGet(asker, row, now),
            inp);
  }

  // ---------------------------------------------------------------- claims

  lemma ClaimReplayAlone(cfg: Config, db: Db, row: OfferRow, proof: PaymentProof, inp: Input)
    ensures Complete(cfg, db, ClaimReplay(row, proof), inp)
            == Outcome(db, ReplayPoint(db.transfers, row.offerId, proof.excessHex), [])
  {
    hide Complete, RegistryNext, LodgingNext, RevocationNext, SettlementNext;
    OneStep(cfg, db, ClaimReplay(row, proof), inp);
  }

  lemma ClaimOwnerAlone(cfg: Config, db: Db, c: ClaimCtx, inp: Input)
    ensures Complete(cfg, db, ClaimOwner(c), inp)
            == if Lookup(db.names, c.offer.name) != Some(c.offer.seller) then Outcome(db, Refuse(OwnerHasChanged), [])
               else
                 match ProofRefusal(cfg, c.offer, c.proof)
                 case Some(why) => Outcome(db, Refuse(why), [])
                 case None => Complete(cfg, db, ClaimKernel(c), inp)
  {
    hide Complete, RegistryNext, LodgingNext, RevocationNext, SettlementNext, ProofRefusal;
    OneStep(cfg, db, ClaimOwner(c), inp);
  }

  lemma ClaimKernelAlone(cfg: Config, db: Db, c: ClaimCtx, inp: Input)
    ensures Complete(cfg, db, ClaimKernel(c), inp)
            == if inp.kernelNode.None? || !Confirmed(cfg, inp.kernelNode.value) then
                 Outcome(db, Refuse(PaymentUnconfirmed), [])
               else
                 var view := inp.kernelNode.value;
                 var h := HeightForColumn(Kernel(view).value);
                 if BeforeDeath(c.deadEnd, h) then Complete(cfg, db, ClaimExcess(c, view, h), inp)
                 else Outcome(db, Refuse(OfferGone(c.offer.status)), [])
  {
    hide Complete, RegistryNext, LodgingNext, RevocationNext, SettlementNext, HeightForColumn, BeforeDeath, Kernel;
    OneStep(cfg, db, ClaimKernel(c), inp);
  }

  lemma ClaimExcessAlone(cfg: Config, db: Db, c: ClaimCtx, view: seq<Endpoint>, h: Option<i64>, inp: Input)
    ensures Complete(cfg, db, ClaimExcess(c, view, h), inp)
            == if ExcessUsed(db.transfers, c.proof.excessHex) then Outcome(db, Refuse(ProofReused), [])
               else Complete(cfg, db, ClaimNameOf(c, view, h), inp)
  {
    hide Complete, RegistryNext, LodgingNext, RevocationNext, SettlementNext, ExcessUsed;
    OneStep(cfg, db, ClaimExcess(c, view, h), inp);
  }

  lemma ClaimNameOfAlone(cfg: Config, db: Db, c: ClaimCtx, view: seq<Endpoint>, h: Option<i64>, inp: Input)
    ensures Complete(cfg, db, ClaimNameOf(c, view, h), inp)
            == if NameOf(db.names, c.offer.buyer).Some? then
                 Outcome(db, Refuse(KeyHasName(NameOf(db.names, c.offer.buyer))), [])
               else CommitPoint(db, c, view, h)
  {
    hide Complete, RegistryNext, LodgingNext, RevocationNext, SettlementNext, HasName, ClaimResult, ClaimTxn;
    OneStep(cfg, db, ClaimNameOf(c, view, h), inp);
    OneStep(cfg, db, ClaimCommit(c, view, h), inp);
  }
}
