/** The requests as decision tables: for each, every answer with the condition that leads to
    it, in order, and the tables it leaves. The handlers' step programs are proved to decide
    just so when nothing interferes. */
module Decisions {
  import opened Prelude
  import opened Names
  import opened Proof
  import opened Auth
  import opened Node
  import opened RateLimit
  import opened RateHistory
  import opened Replay
  import opened Tables
  import opened Api
  import opened Protocol
  import opened Interleaving
  import opened Serialized
  import opened Solo
  import opened Effects
  import opened Spelling
  import opened Credentials
  import opened Listings
  import opened Payments
  import opened AntiChurn

  // ---------------------------------------------------------------- the tables, read plainly

  predicate Owned(db: Db, name: string, key: string) {
    name in db.names && db.names[name].releasedAt.None? && db.names[name].pubkey == key
  }

  predicate IsTaken(db: Db, name: string) {
    name in db.names && db.names[name].releasedAt.None?
  }

  ghost predicate Nameless(db: Db, key: string) {
    forall n :: !Owned(db, n, key)
  }

  // The name reads like a reserved term.
  ghost predicate LooksReserved(cfg: Config, name: string) {
    exists term :: (term in RESERVED || term in cfg.extraReserved) && Fold(term) == Fold(name)
  }

  lemma LooksReservedIff(cfg: Config, name: string)
    ensures IsReserved(name, RESERVED, cfg.extraReserved) <==> LooksReserved(cfg, name)
  {
    hide Fold;
    ReservedIsFoldClass(name, RESERVED, cfg.extraReserved);
  }

  predicate Dead(row: OfferRow) {
    row.status == Expired || row.status == Revoked
  }

  predicate OnSale(o: OfferRow, now: int) {
    o.status == Live && o.expiration >= now
  }

  // ---------------------------------------------------------------- availability

  ghost predicate DecidesAvailability(cfg: Config, db: Db, name: string, reply: Reply) {
    if !IsName(name, cfg.nameMin, cfg.nameMax) then reply == Availability(name, Malformed)
    else if LooksReserved(cfg, name) then reply == Availability(name, ReservedTerm)
    else if IsTaken(db, name) then reply == Availability(name, Taken)
    else reply == Availability(name, Available)
  }

  lemma AvailabilityDecided(cfg: Config, db: Db, key: string, name: string, inp: Input)
    ensures var out := Complete(cfg, db, Begin(cfg, key, ToAvailability(name), inp.now), inp);
            && out.db == db && out.flight.Done? && out.flight.arms.None?
            && DecidesAvailability(cfg, db, Lower(name), out.flight.reply)
  {
    hide Complete, ValidName, IsName, IsReserved, LooksReserved, Lower;
    var n := Lower(name);
    ValidNameIff(n, cfg.nameMin, cfg.nameMax);
    LooksReservedIff(cfg, n);
    var f := Begin(cfg, key, ToAvailability(name), inp.now);
    if f.Done? { DoneStays(cfg, db, f, inp); }
    AvailabilityEffect(cfg, db, n, inp);
  }

  // ---------------------------------------------------------------- registration

  ghost predicate DecidesRegister(cfg: Config, db: Db, key: string, body: Option<RegisterBody>, now: int, after: Db,
                                  reply: Reply)
  {
    if body.None? then after == db && reply == Refused(InvalidBody)
    else
      var name, pubkey := Lower(body.value.name), Lower(body.value.pubkey);
      if !Hex64Small(pubkey) then after == db && reply == Refused(InvalidPubkey)
      else if pubkey != key then after == db && reply == Refused(KeyMismatch)
      else if !IsName(name, cfg.nameMin, cfg.nameMax) then after == db && reply == Refused(InvalidName)
      else if LooksReserved(cfg, name) then after == db && reply == Refused(NameReserved)
      else if Owned(db, name, key) then after == db && reply == Registered(false, name)
      else if IsTaken(db, name) then after == db && reply == Refused(NameTaken)
      else if !Nameless(db, key) then
        after == db && exists n :: Owned(db, n, key) && reply == Refused(KeyHasName(Some(n)))
      else
        && after == db.(names := db.names[name := NameRow(key, now, None)])
        && reply == Registered(true, name)
  }

  lemma RegisterDecided(cfg: Config, db: Db, key: string, body: Option<RegisterBody>, inp: Input)
    ensures var out := Complete(cfg, db, Begin(cfg, key, ToRegister(body), inp.now), inp);
            && out.flight.Done? && out.flight.arms.None?
            && DecidesRegister(cfg, db, key, body, inp.now, out.db, out.flight.reply)
  {
    hide Complete, ValidName, IsName, IsReserved, LooksReserved, Lower, ValidPubkeyHex, Hex64Small, UpsertName;
    var f := Begin(cfg, key, ToRegister(body), inp.now);
    if f.Done? { DoneStays(cfg, db, f, inp); }
    if body.Some? {
      var name, pubkey := Lower(body.value.name), Lower(body.value.pubkey);
      Hex64Iff(pubkey);
      ValidNameIff(name, cfg.nameMin, cfg.nameMax);
      LooksReservedIff(cfg, name);
      RegistrationDecided(cfg, db, name, key, inp);
    }
  }

  lemma NamelessIff(db: Db, key: string)
    ensures Nameless(db, key) <==> !HasName(db.names, key)
    ensures NameOf(db.names, key).Some? ==> Owned(db, NameOf(db.names, key).value, key)
  {
    assert forall n :: Owned(db, n, key) <==> n in db.names && Holds(db.names, n, key);
  }

  lemma RegistrationDecided(cfg: Config, db: Db, name: string, key: string, inp: Input)
    ensures var out := Complete(cfg, db, RegLookup(name, key, key), inp);
            && out.flight.Done? && out.flight.arms.None?
            && if Owned(db, name, key) then out.db == db && out.flight.reply == Registered(false, name)
               else if IsTaken(db, name) then out.db == db && out.flight.reply == Refused(NameTaken)
               else if !Nameless(db, key) then
                 out.db == db && exists n :: Owned(db, n, key) && out.flight.reply == Refused(KeyHasName(Some(n)))
               else
                 out.db == db.(names := db.names[name := NameRow(key, inp.now, None)])
                 && out.flight.reply == Registered(true, name)
  {
    hide Complete, HasName, Nameless;
    NamelessIff(db, key);
    RegLookupAlone(cfg, db, name, key, key, inp);
    RegNameOfAlone(cfg, db, name, key, key, inp);
    RegUpsertAlone(cfg, db, name, key, key, inp);
    if Nameless(db, key) {
      FreshKeyNowhere(db.names, name, key);
    }
  }

  // ---------------------------------------------------------------- release

  ghost predicate DecidesUnregister(db: Db, key: string, name: string, now: int, after: Db, reply: Reply,
                                    armed: Option<string>)
  {
    if !IsTaken(db, name) then after == db && reply == Refused(NameNotFound) && armed.None?
    else if !Owned(db, name, key) then after == db && reply == Refused(NotTheOwner) && armed.None?
    else
      && after == db.(names := db.names[name := NameRow(key, db.names[name].createdAt, Some(now))])
      && reply == Released(name) && armed == Some(key)
  }

  lemma UnregisterDecided(cfg: Config, db: Db, key: string, name: string, inp: Input)
    ensures var out := Complete(cfg, db, Begin(cfg, key, ToUnregister(name), inp.now), inp);
            && out.flight.Done?
            && DecidesUnregister(db, key, Lower(name), inp.now, out.db, out.flight.reply, out.flight.arms)
  {
    hide Complete, Lower;
    UnregLookupAlone(cfg, db, Lower(name), key, inp);
    UnregUpdateAlone(cfg, db, Lower(name), key, inp);
  }

  // ---------------------------------------------------------------- lodging

  ghost predicate DecidesListed(db: Db, row: OfferRow, now: int, after: Db, reply: Reply) {
    if !Owned(db, row.name, row.seller) then after == db && reply == Refused(NotTheOwner)
    else if exists id :: id in db.offers && db.offers[id].name == row.name && OnSale(db.offers[id], now) then
      after == db && reply == Refused(OfferExists)
    else if exists id :: id in db.offers && db.offers[id].proofAddress == row.proofAddress
                         && OnSale(db.offers[id], now) then
      after == db && reply == Refused(OfferAmbiguous)
    else if row.offerId in db.offers then after == db && reply == Refused(OfferExists)
    else
      && after == db.(offers := db.offers[row.offerId := row])
      && reply == Reply.Lodged(row.offerId, row.name, row.expiration)
  }

  ghost predicate DecidesLodge(cfg: Config, db: Db, key: string, offer: Option<OfferEvent>, now: int, after: Db,
                               reply: Reply)
  {
    if offer.None? || !offer.value.signed || offer.value.kind != 3402 then
      after == db && reply == Refused(InvalidOffer)
    else if offer.value.pubkey != key then after == db && reply == Refused(KeyMismatch)
    else if forall row :: !Lists(cfg, offer.value, now, row) then after == db && reply == Refused(InvalidOffer)
    else exists row :: Lists(cfg, offer.value, now, row) && DecidesListed(db, row, now, after, reply)
  }

  lemma LodgeDecided(cfg: Config, db: Db, key: string, offer: Option<OfferEvent>, inp: Input)
    ensures var out := Complete(cfg, db, Begin(cfg, key, ToLodge(offer), inp.now), inp);
            && out.flight.Done? && out.flight.arms.None?
            && DecidesLodge(cfg, db, key, offer, inp.now, out.db, out.flight.reply)
  {
    hide Complete, RowFromEvent, Lists, DecidesListed;
    var f := Begin(cfg, key, ToLodge(offer), inp.now);
    var built := RowFromEvent(cfg, key, offer, inp.now);
    if f.Done? { DoneStays(cfg, db, f, inp); }
    UnlistedBecause(cfg, key, offer, inp.now);
    if offer.Some? {
      forall row ensures built == Ok(row) <==> offer.value.pubkey == key && Lists(cfg, offer.value, inp.now, row) {
        ListedIff(cfg, key, offer.value, inp.now, row);
      }
    }
    if built.Ok? {
      ListsSigned(cfg, offer.value, inp.now, built.value);
      ListedDecided(cfg, db, built.value, inp);
    }
  }

  lemma ListsSigned(cfg: Config, e: OfferEvent, now: int, row: OfferRow)
    requires Lists(cfg, e, now, row)
    ensures e.signed && e.kind == 3402 && row.createdAt == now
  {
  }

  lemma ListedDecided(cfg: Config, db: Db, row: OfferRow, inp: Input)
    requires row.createdAt == inp.now
    ensures var out := Complete(cfg, db, LodgeLookup(row), inp);
            && out.flight.Done? && out.flight.arms.None?
            && DecidesListed(db, row, inp.now, out.db, out.flight.reply)
  {
    hide Complete;
    LodgeLookupAlone(cfg, db, row, inp);
    LodgeByNameAlone(cfg, db, row, inp);
    LodgeByAddressAlone(cfg, db, row, inp);
  }

  // ---------------------------------------------------------------- settlement, reading, revoking

  // The row after settlement: an overdue one is expired, as of now, at the tip the node named.
  predicate SettledTo(row: OfferRow, inp: Input, settled: OfferRow) {
    if row.status == Live && row.expiration < inp.now then
      && settled == row.(status := Expired, endHeight := settled.endHeight, stateChangedAt := Some(inp.now))
      && TipColumn(inp.tipNode, settled.endHeight)
    else settled == row
  }

  lemma SettlementDecided(offers: map<string, OfferRow>, id: string, inp: Input)
    requires id in offers
    ensures id in Settled(offers, id, inp) && SettledTo(offers[id], inp, Settled(offers, id, inp)[id])
    ensures Settled(offers, id, inp) == offers[id := Settled(offers, id, inp)[id]]
  {
    hide TipForColumn, TipColumn;
    TipColumnIff(inp.tipNode, TipForColumn(inp.tipNode));
  }

  ghost predicate DecidesRead(db: Db, id: string, inp: Input, after: Db, reply: Reply) {
    if id !in db.offers then after == db && reply == Refused(OfferNotFound)
    else
      exists row :: SettledTo(db.offers[id], inp, row)
                    && after == db.(offers := db.offers[id := row]) && reply == OfferView(row.event, row.status)
  }

  lemma ReadDecided(cfg: Config, db: Db, key: string, id: string, inp: Input)
    requires id in db.offers ==> db.offers[id].offerId == id
    ensures var out := Complete(cfg, db, Begin(cfg, key, ToRead(id), inp.now), inp);
            && out.flight.Done? && out.flight.arms.None?
            && DecidesRead(db, id, inp, out.db, out.flight.reply)
  {
    hide Complete, Settled, SettledTo;
    ReadEffect(cfg, db, id, inp);
    if id in db.offers { SettlementDecided(db.offers, id, inp); }
  }

  ghost predicate DecidesRevoke(db: Db, key: string, id: string, inp: Input, after: Db, reply: Reply) {
    if id !in db.offers then after == db && reply == Refused(OfferNotFound)
    else
      var row := db.offers[id];
      if key != row.seller then after == db && reply == Refused(NotTheOwner)
      else if row.status == Consumed then after == db && reply == Refused(OfferConsumed)
      else if row.status == Revoked then after == db && reply == RevokedOffer(id)
      else
        && reply == RevokedOffer(id)
        && exists gone :: after == db.(offers := db.offers[id := gone]) && RevokedTo(row, inp, gone)
  }

  // A live row gets the time and the tip; an expired one keeps the record it has.
  predicate RevokedTo(row: OfferRow, inp: Input, gone: OfferRow) {
    if row.status == Live then
      && gone == row.(status := Revoked, endHeight := gone.endHeight, stateChangedAt := Some(inp.now))
      && TipColumn(inp.tipNode, gone.endHeight)
    else gone == row.(status := Revoked)
  }

  lemma RevokeDecided(cfg: Config, db: Db, key: string, id: string, inp: Input)
    requires id in db.offers ==> db.offers[id].offerId == id
    ensures var out := Complete(cfg, db, Begin(cfg, key, ToRevoke(id), inp.now), inp);
            && out.flight.Done? && out.flight.arms.None?
            && DecidesRevoke(db, key, id, inp, out.db, out.flight.reply)
  {
    hide Complete, TipForColumn, TipColumn;
    TipColumnIff(inp.tipNode, TipForColumn(inp.tipNode));
    RevokeGetAlone(cfg, db, id, key, inp);
    var next := RevokePoint(db.offers, id, key, inp.now);
    if next.RevokeTip? {
      RevokeTipAlone(cfg, db, next.row, inp.now, inp);
      assert RevokedTo(next.row, inp, MarkOfferDead(db.offers, id, Revoked, TipForColumn(inp.tipNode), inp.now)[id]);
    } else if next.RevokeFlip? {
      RevokeFlipAlone(cfg, db, next.row, inp);
      assert RevokedTo(next.row, inp, SetStatus(db.offers, id, Revoked)[id]);
    } else {
      DoneStays(cfg, db, next, inp);
    }
  }

  // ---------------------------------------------------------------- claims

  // The proof as handed in, excess and signatures in lower case.
  function Handed(raw: RawProof): PaymentProof {
    PaymentProof(raw.amount, Lower(raw.excess), raw.recipientAddress, Lower(raw.recipientSig), raw.senderAddress,
                 Lower(raw.senderSig))
  }

  // The last checks and the sale, given the height for the receipt.
  ghost predicate DecidesSale(db: Db, row: OfferRow, excess: string, column: Option<i64>, now: int, after: Db,
                              reply: Reply, armed: Option<string>)
  {
    if exists id :: id in db.transfers && db.transfers[id].excess == excess then
      after == db && reply == Refused(ProofReused) && armed.None?
    else if !Nameless(db, row.buyer) then
      after == db && armed.None? && exists n :: Owned(db, n, row.buyer) && reply == Refused(KeyHasName(Some(n)))
    else if row.offerId in db.transfers then after == db && reply == Refused(ProofReused) && armed.None?
    else
      && after.names == db.names[row.name := NameRow(row.buyer, now, None)]
      && after.offers == db.offers[row.offerId := row.(status := Consumed)]
      && after.transfers == db.transfers[row.offerId :=
           TransferRow(row.name, row.seller, row.buyer, row.price, excess, column, now)]
      && reply == Claimed(true, row.name, row.buyer) && armed == Some(row.seller)
  }

  lemma SaleDecided(cfg: Config, db: Db, c: ClaimCtx, view: seq<Endpoint>, h: Option<i64>, inp: Input)
    requires c.offer.offerId in db.offers && db.offers[c.offer.offerId] == c.offer
    requires Owned(db, c.offer.name, c.offer.seller)
    ensures var out := Complete(cfg, db, ClaimExcess(c, view, h), inp);
            && out.flight.Done?
            && DecidesSale(db, c.offer, c.proof.excessHex, h, c.now, out.db, out.flight.reply, out.flight.arms)
  {
    hide Complete, HasName, Nameless, ClaimTxn, ClaimResult;
    NamelessIff(db, c.offer.buyer);
    ClaimExcessAlone(cfg, db, c, view, h, inp);
    ClaimNameOfAlone(cfg, db, c, view, h, inp);
    if !ExcessUsed(db.transfers, c.proof.excessHex) && Nameless(db, c.offer.buyer) {
      CommitVerdict(db, c.offer, c.proof.excessHex, h, c.now);
    }
  }

  // The node's part: an unconfirmed kernel, one mined after the offer died, or on to the sale.
  ghost predicate DecidesKernel(cfg: Config, db: Db, row: OfferRow, excess: string, inp: Input, after: Db, reply: Reply,
                                armed: Option<string>)
  {
    if inp.kernelNode.None?
        || forall column: Option<i64> :: !KernelReported(inp.kernelNode.value, cfg.transferMinConf, column) then
      after == db && reply == Refused(PaymentUnconfirmed) && armed.None?
    else
      exists column: Option<i64> :: KernelReported(inp.kernelNode.value, cfg.transferMinConf, column)
        && if Dead(row) && !(column.Some? && row.endHeight.Some? && column.value <= row.endHeight.value) then
             after == db && reply == Refused(OfferGone(row.status)) && armed.None?
           else DecidesSale(db, row, excess, column, inp.now, after, reply, armed)
  }

  lemma KernelDecided(cfg: Config, db: Db, c: ClaimCtx, inp: Input)
    requires c.offer.offerId in db.offers && db.offers[c.offer.offerId] == c.offer && c.now == inp.now
    requires Owned(db, c.offer.name, c.offer.seller)
    requires if Dead(c.offer) then c.deadEnd == c.offer.endHeight && c.deadEnd.Some? else c.deadEnd.None?
    ensures var out := Complete(cfg, db, ClaimKernel(c), inp);
            && out.flight.Done?
            && DecidesKernel(cfg, db, c.offer, c.proof.excessHex, inp, out.db, out.flight.reply, out.flight.arms)
  {
    hide Complete, Confirmed, HeightForColumn, Kernel, KernelReported, DecidesSale;
    ClaimKernelAlone(cfg, db, c, inp);
    if inp.kernelNode.Some? {
      var view := inp.kernelNode.value;
      forall column: Option<i64> ensures KernelReported(view, cfg.transferMinConf, column) ==> Confirmed(cfg, view) {
        ConfirmedIff(cfg, view, column);
      }
      if Confirmed(cfg, view) {
        ConfirmedIsOk(cfg, view);
        var h := HeightForColumn(Kernel(view).value);
        ConfirmedIff(cfg, view, h);
        assert KernelReported(view, cfg.transferMinConf, h);
        SaleDecided(cfg, db, c, view, h, inp);
      }
    }
  }

  ghost predicate DecidesPayment(cfg: Config, db: Db, row: OfferRow, proof: PaymentProof, inp: Input, after: Db,
                                 reply: Reply, armed: Option<string>)
  {
    if !Owned(db, row.name, row.seller) then after == db && reply == Refused(OwnerHasChanged) && armed.None?
    else if !Signed(cfg.lib, proof) then after == db && reply == Refused(InvalidProof) && armed.None?
    else if Lower(cfg.lib.trim(proof.recipientAddress)) != row.proofAddress then
      after == db && reply == Refused(AddressMismatch) && armed.None?
    else if proof.amount != row.price then after == db && reply == Refused(AmountMismatch) && armed.None?
    else DecidesKernel(cfg, db, row, proof.excessHex, inp, after, reply, armed)
  }

  lemma PaymentDecided(cfg: Config, db: Db, c: ClaimCtx, inp: Input)
    requires c.offer.offerId in db.offers && db.offers[c.offer.offerId] == c.offer && c.now == inp.now
    requires if Dead(c.offer) then c.deadEnd == c.offer.endHeight && c.deadEnd.Some? else c.deadEnd.None?
    ensures var out := Complete(cfg, db, ClaimOwner(c), inp);
            && out.flight.Done?
            && DecidesPayment(cfg, db, c.offer, c.proof, inp, out.db, out.flight.reply, out.flight.arms)
  {
    hide Complete, Signed, VerifySignatures, DecidesKernel, Lower;
    ClaimOwnerAlone(cfg, db, c, inp);
    SignedIff(cfg.lib, c.proof);
    if Owned(db, c.offer.name, c.offer.seller) && ProofRefusal(cfg, c.offer, c.proof).None? {
      KernelDecided(cfg, db, c, inp);
    }
  }

  ghost predicate DecidesSettled(cfg: Config, db: Db, key: string, row: OfferRow, proof: PaymentProof, inp: Input,
                                 after: Db, reply: Reply, armed: Option<string>)
  {
    if row.status == Consumed then
      && after == db && armed.None?
      && reply == if row.offerId in db.transfers && db.transfers[row.offerId].excess == proof.excessHex
                  then Claimed(false, db.transfers[row.offerId].name, db.transfers[row.offerId].buyer)
                  else Refused(OfferConsumed)
    else if Dead(row) && (row.endHeight.None? || row.stateChangedAt.None?
                          || inp.now - row.stateChangedAt.value > cfg.transferClaimGrace) then
      after == db && reply == Refused(OfferGone(row.status)) && armed.None?
    else if key != row.buyer then after == db && reply == Refused(NotTheBuyer) && armed.None?
    else DecidesPayment(cfg, db, row, proof, inp, after, reply, armed)
  }

  lemma SettledDecided(cfg: Config, db: Db, key: string, row: OfferRow, proof: PaymentProof, inp: Input)
    requires row.offerId in db.offers && db.offers[row.offerId] == row && RecordOk(row)
    ensures var out := Complete(cfg, db, AfterSettle(cfg, ClaimAsks(key, proof), row, inp.now), inp);
            && out.flight.Done?
            && DecidesSettled(cfg, db, key, row, proof, inp, out.db, out.flight.reply, out.flight.arms)
  {
    hide Complete, DecidesPayment;
    var f := AfterSettle(cfg, ClaimAsks(key, proof), row, inp.now);
    if f.Done? { DoneStays(cfg, db, f, inp); }
    if f.ClaimReplay? { ClaimReplayAlone(cfg, db, row, proof, inp); }
    if f.ClaimOwner? { PaymentDecided(cfg, db, f.ctx, inp); }
  }

  ghost predicate DecidesClaim(cfg: Config, db: Db, key: string, claim: Option<ClaimBody>, inp: Input, after: Db,
                               reply: Reply, armed: Option<string>)
  {
    if claim.None? || !Hex64(claim.value.offerId) || claim.value.proof.MissingProof? then
      after == db && reply == Refused(InvalidBody) && armed.None?
    else if claim.value.proof.UnreadableProof? then after == db && reply == Refused(InvalidProof) && armed.None?
    else
      var id := Lower(claim.value.offerId);
      if id !in db.offers then after == db && reply == Refused(OfferNotFound) && armed.None?
      else
        exists row :: SettledTo(db.offers[id], inp, row)
          && DecidesSettled(cfg, db.(offers := db.offers[id := row]), key, row, Handed(claim.value.proof.raw), inp,
                            after, reply, armed)
  }

  lemma ClaimDecided(cfg: Config, db: Db, key: string, claim: Option<ClaimBody>, inp: Input)
    requires forall id :: id in db.offers ==> db.offers[id].offerId == id && RecordOk(db.offers[id])
    ensures var out := Complete(cfg, db, Begin(cfg, key, ToClaim(claim), inp.now), inp);
            && out.flight.Done?
            && DecidesClaim(cfg, db, key, claim, inp, out.db, out.flight.reply, out.flight.arms)
  {
    hide Complete, Settle, AfterSettle, Settled, SettledTo, DecidesSettled, Lower, ValidOfferId, Hex64, RecordOk;
    var f := Begin(cfg, key, ToClaim(claim), inp.now);
    if f.Done? { DoneStays(cfg, db, f, inp); }
    if claim.Some? {
      Hex64Iff(claim.value.offerId);
      if f.ClaimGet? {
        ClaimGetAlone(cfg, db, f.id, key, f.proof, inp);
        if f.id in db.offers {
          SettleEffect(cfg, db, ClaimAsks(key, f.proof), f.id, inp);
          SettlementDecided(db.offers, f.id, inp);
          SettledRow(db.offers, f.id, inp);
          SettledRecordOk(db.offers, f.id, inp);
          var row := Settled(db.offers, f.id, inp)[f.id];
          SettledDecided(cfg, db.(offers := Settled(db.offers, f.id, inp)), key, row, f.proof, inp);
        }
      }
    }
  }

  lemma SettledRecordOk(offers: map<string, OfferRow>, id: string, inp: Input)
    requires id in offers && RecordOk(offers[id])
    ensures id in Settled(offers, id, inp) && RecordOk(Settled(offers, id, inp)[id])
  {
    hide TipForColumn;
  }

  // ---------------------------------------------------------------- the gate

  ghost predicate Shows(cfg: Config, r: Request, env: Env, verb: string, path: string, body: seq<byte>) {
    r.auth.Some? && Presents(cfg.lib, r.auth.value, verb, cfg.baseUrl + path, body, cfg.authMaxAge, env.authWall)
  }

  // The header fits the route: verb, path and, where there is one, the body.
  ghost predicate Authenticated(cfg: Config, r: Request, env: Env) {
    match r.target
    case ToRegister(_) => Shows(cfg, r, env, "POST", "/api/v1/register", r.body)
    case ToUnregister(name) => Shows(cfg, r, env, "DELETE", "/api/v1/register/" + Lower(name), [])
    case ToLodge(_) => Shows(cfg, r, env, "POST", "/api/v1/transfer/offer", r.body)
    case ToRevoke(id) => Shows(cfg, r, env, "DELETE", "/api/v1/transfer/offer/" + id, [])
    case ToClaim(_) => Shows(cfg, r, env, "POST", "/api/v1/transfer/claim", r.body)
    case _ => true
  }

  predicate Spent(s: AppState, bucket: string, ip: string, max: nat, window: nat, now: nat) {
    CountRecent(HitsOf(s.rate, bucket + ":" + ip), now, window) >= max
  }

  // The client has used up the route's budget.
  predicate OverBudget(cfg: Config, s: AppState, r: Request, now: nat) {
    match r.target
    case ToAvailability(_) => Spent(s, "read", r.ip, cfg.readRateMax, cfg.readRateWindow, now)
    case ToRead(_) => Spent(s, "read", r.ip, cfg.readRateMax, cfg.readRateWindow, now)
    case ToRegister(_) => Spent(s, "reg", r.ip, cfg.writeRateMax, cfg.writeRateWindow, now)
    case ToUnregister(_) => Spent(s, "unreg", r.ip, cfg.writeRateMax, cfg.writeRateWindow, now)
    case _ => Spent(s, "transfer", r.ip, cfg.writeRateMax, cfg.writeRateWindow, now)
  }

  // The event id was used less than the maximum age plus five seconds ago.
  predicate UsedLately(s: AppState, id: string, maxAge: int, now: nat) {
    id in s.seen && (if s.seen[id] <= now then now - s.seen[id] else 0) < (maxAge + 5) * 1_000_000_000
  }

  // After the limiter's call, a name change of the key less than the cooldown ago is on record.
  predicate Cools(cfg: Config, s: AppState, r: Request, env: Env, key: string) {
    exists i | 0 <= i < |HitsOf(AfterCall(s.rate, LimitCall(cfg, Turn(r, env))), "namechange:" + key)| ::
      var hit := HitsOf(AfterCall(s.rate, LimitCall(cfg, Turn(r, env))), "namechange:" + key)[i];
      (if hit <= env.cooldownAt then env.cooldownAt - hit else 0) < cfg.nameChangeCooldown
  }

  ghost predicate DecidesGate(cfg: Config, s: AppState, r: Request, env: Env, verdict: Result<string, Refusal>) {
    if OverBudget(cfg, s, r, env.limitAt) then verdict == Err(RateLimited)
    else if r.target.ToAvailability? || r.target.ToRead? then verdict == Ok("")
    else if !Authenticated(cfg, r, env) then verdict.Err? && verdict.error.Unauthorized?
    else
      && r.auth.Some?
      && if UsedLately(s, r.auth.value.id, cfg.authMaxAge, env.usedAt) then verdict == Err(Replayed)
         else if r.target.ToRegister? && Cools(cfg, s, r, env, r.auth.value.pubkey) then verdict == Err(CooldownActive)
         else verdict == Ok(r.auth.value.pubkey)
  }

  lemma OverBudgetIff(cfg: Config, s: AppState, r: Request, env: Env)
    ensures OverBudget(cfg, s, r, env.limitAt)
            <==> !Allows(s.rate, BucketKey(BucketOf(r.target), r.ip), MaxOf(cfg, r.target), WindowOf(cfg, r.target),
                         env.limitAt)
  {
    hide Retain, CountRecent;
    RetainCounts(HitsOf(s.rate, BucketKey(BucketOf(r.target), r.ip)), env.limitAt, WindowOf(cfg, r.target));
  }

  ghost function Verified(cfg: Config, r: Request, env: Env): Result<Identity, AuthError> {
    VerifyNip98(cfg.lib, r.auth, VerbOf(r.target), cfg.baseUrl + PathOf(r.target), SignedBody(r), cfg.authMaxAge,
                env.authWall)
  }

  lemma AuthenticatedIff(cfg: Config, r: Request, env: Env)
    requires !r.target.ToAvailability? && !r.target.ToRead?
    ensures Authenticated(cfg, r, env) <==> Verified(cfg, r, env).Ok?
    ensures Verified(cfg, r, env).Ok? ==>
              r.auth.Some? && cfg.authMaxAge >= -5
              && Verified(cfg, r, env) == Ok(Identity(r.auth.value.pubkey, r.auth.value.id))
  {
    hide VerifyNip98, Presents;
    forall key, id ensures Verified(cfg, r, env) == Ok(Identity(key, id))
                           <==> Authenticated(cfg, r, env) && r.auth.value.pubkey == key && r.auth.value.id == id {
      AcceptedIff(cfg.lib, r.auth, VerbOf(r.target), cfg.baseUrl + PathOf(r.target), SignedBody(r), cfg.authMaxAge,
                  env.authWall, key, id);
    }
    if Verified(cfg, r, env).Ok? {
      var who := Verified(cfg, r, env).value;
      assert Verified(cfg, r, env) == Ok(Identity(who.pubkey, who.eventId));
      AcceptedInSeason(cfg, r, env);
    }
    if Authenticated(cfg, r, env) {
      assert Verified(cfg, r, env) == Ok(Identity(r.auth.value.pubkey, r.auth.value.id));
    }
  }

  lemma AcceptedInSeason(cfg: Config, r: Request, env: Env)
    requires r.auth.Some?
        && Presents(cfg.lib, r.auth.value, VerbOf(r.target), cfg.baseUrl + PathOf(r.target), SignedBody(r),
                                      cfg.authMaxAge, env.authWall)
    ensures cfg.authMaxAge >= -5
  {
    hide UrlTag, MethodTag, PayloadTag;
  }

  lemma UsedLatelyIff(cfg: Config, s: AppState, id: string, now: nat)
    requires cfg.authMaxAge >= -5
    ensures UsedLately(s, id, cfg.authMaxAge, now) <==> !FirstUse(s.seen, id, ReplayWindow(cfg.authMaxAge), now)
  {
    WindowInSeconds(cfg.authMaxAge);
  }

  lemma CoolsIff(cfg: Config, s: AppState, r: Request, env: Env, key: string)
    ensures Cools(cfg, s, r, env, key)
            <==> CoolingDown(AfterCall(s.rate, LimitCall(cfg, Turn(r, env))), BucketKey("namechange", key),
                             cfg.nameChangeCooldown, env.cooldownAt)
  {
    hide AfterCall, Retain;
    assert BucketKey("namechange", key) == "namechange:" + key;
    RetainNothing(HitsOf(AfterCall(s.rate, LimitCall(cfg, Turn(r, env))), "namechange:" + key), env.cooldownAt,
                  cfg.nameChangeCooldown);
  }

  // The gate decides by the table.
  lemma GateDecided(cfg: Config, s: AppState, r: Request, env: Env)
    ensures DecidesGate(cfg, s, r, env, Gate(cfg, s, r, env).verdict)
  {
    hide Allows, AfterAllow, BucketKey, VerifyNip98, OverBudget, Authenticated, UsedLately, Cools, FirstUse, AfterAuth;
    hide CoolingDown, AfterCooldown, ReplayWindow;
    OverBudgetIff(cfg, s, r, env);
    if !IsRead(r.target) {
      AuthenticatedIff(cfg, r, env);
      if Verified(cfg, r, env).Ok? {
        UsedLatelyIff(cfg, s, r.auth.value.id, env.usedAt);
        CoolsIff(cfg, s, r, env, r.auth.value.pubkey);
      }
    }
  }

  // The replay set afterwards: untouched unless the request authenticated; then it forgets
  // what is too old and has this event's id, stamped now if it is a first use.
  ghost predicate DecidesSeen(cfg: Config, s: AppState, r: Request, env: Env, seen: Seen) {
    if OverBudget(cfg, s, r, env.limitAt) || r.target.ToAvailability? || r.target.ToRead?
        || !Authenticated(cfg, r, env) then
      seen == s.seen
    else
      && r.auth.Some?
      && (forall x :: x in seen <==> UsedLately(s, x, cfg.authMaxAge, env.usedAt) || x == r.auth.value.id)
      && (forall x :: x in seen ==>
            seen[x] == if UsedLately(s, x, cfg.authMaxAge, env.usedAt) then s.seen[x] else env.usedAt)
  }

  lemma SeenDecided(cfg: Config, s: AppState, r: Request, env: Env)
    ensures DecidesSeen(cfg, s, r, env, Gate(cfg, s, r, env).seen)
  {
    hide Allows, AfterAllow, BucketKey, VerifyNip98, OverBudget, Authenticated, CoolingDown, AfterCooldown;
    hide ReplayWindow;
    OverBudgetIff(cfg, s, r, env);
    if !IsRead(r.target) {
      AuthenticatedIff(cfg, r, env);
      if Verified(cfg, r, env).Ok? { WindowInSeconds(cfg.authMaxAge); }
    }
  }

  // ---------------------------------------------------------------- statements that race

  // The guarded upsert met by any table: nothing is written on a taken name or for a key
  // that holds another; with both, either refusal may come.
  lemma UpsertDecided(db: Db, name: string, key: string, inp: Input)
    ensures var out := UpsertPoint(db, name, key, key, inp);
            if IsTaken(db, name) then
              && out.db == db
              && (out.flight == Refuse(NameTaken) || (out.flight == Refuse(KeyHasName(None)) && !Nameless(db, key)))
            else if exists n :: n != name && Owned(db, n, key) then
              out.db == db && out.flight == Refuse(KeyHasName(None))
            else
              && out.db == db.(names := db.names[name := NameRow(key, inp.now, None)])
              && out.flight == Finish(Registered(true, name))
  {
    assert forall n :: Owned(db, n, key) <==> n in db.names && Holds(db.names, n, key);
  }

  // The claim transaction met by any table: first the owner, then the buyer, then the
  // receipt's two keys; otherwise the sale and nothing else.
  lemma CommitDecided(db: Db, c: ClaimCtx, view: seq<Endpoint>, column: Option<i64>)
    ensures var out, o := CommitPoint(db, c, view, column), c.offer;
            if !Owned(db, o.name, o.seller) then out.db == db && out.flight == Refuse(OwnerHasChanged)
            else if exists n :: n != o.name && Owned(db, n, o.buyer) then
              out.db == db && out.flight == Refuse(KeyHasName(None))
            else if o.offerId in db.transfers
                    || exists id :: id in db.transfers && db.transfers[id].excess == c.proof.excessHex then
              out.db == db && out.flight == Refuse(ProofReused)
            else
              && out.db.names == db.names[o.name := NameRow(o.buyer, c.now, None)]
              && out.db.offers == (if o.offerId in db.offers
                                   then db.offers[o.offerId := db.offers[o.offerId].(status := Consumed)]
                                   else db.offers)
              && out.db.transfers == db.transfers[o.offerId :=
                   TransferRow(o.name, o.seller, o.buyer, o.price, c.proof.excessHex, column, c.now)]
              && out.flight == Done(Claimed(true, o.name, o.buyer), Some(o.seller))
  {
    assert forall n :: Owned(db, n, c.offer.buyer) <==> n in db.names && Holds(db.names, n, c.offer.buyer);
  }

  // ---------------------------------------------------------------- whole requests

  ghost predicate Decides(cfg: Config, db: Db, key: string, target: Target, inp: Input, after: Db, reply: Reply,
                          armed: Option<string>)
  {
    match target
    case ToAvailability(name) => after == db && armed.None? && DecidesAvailability(cfg, db, Lower(name), reply)
    case ToRegister(body) => armed.None? && DecidesRegister(cfg, db, key, body, inp.now, after, reply)
    case ToUnregister(name) => DecidesUnregister(db, key, Lower(name), inp.now, after, reply, armed)
    case ToLodge(offer) => armed.None? && DecidesLodge(cfg, db, key, offer, inp.now, after, reply)
    case ToRead(id) => armed.None? && DecidesRead(db, id, inp, after, reply)
    case ToRevoke(id) => armed.None? && DecidesRevoke(db, key, id, inp, after, reply)
    case ToClaim(claim) => DecidesClaim(cfg, db, key, claim, inp, after, reply, armed)
  }

  lemma RowsRecorded(cfg: Config, db: Db)
    requires DbGood(cfg, db)
    ensures forall id :: id in db.offers ==> db.offers[id].offerId == id && RecordOk(db.offers[id])
  {
  }

  lemma ArmedAt(rate: Rate, key: string, now: nat)
    ensures var after := Armed(rate, Some(key), now);
            var k := "namechange:" + key;
            k in after && |after[k]| > 0 && after[k][|after[k]| - 1] == now
  {
    assert BucketKey("namechange", key) == "namechange:" + key;
  }

  // Every request is answered, and leaves the tables and the armed cooldown, as its table says.
  lemma EveryRequestDecided(cfg: Config, s: AppState, r: Request, env: Env)
    requires DbGood(cfg, s.db)
    ensures var served := Serve(cfg, s, r, env);
            var verdict := Gate(cfg, s, r, env).verdict;
            && DecidesGate(cfg, s, r, env, verdict) && DecidesSeen(cfg, s, r, env, served.state.seen)
            && (verdict.Err? ==>
                served.reply == Refused(verdict.error) && served.state.db == s.db && served.armed.None?)
            && (verdict.Ok? ==>
                  Decides(cfg, s.db, verdict.value, r.target, env.inp, served.state.db, served.reply, served.armed))
            && (served.armed.Some? ==>
                  var k := "namechange:" + served.armed.value;
                  k in served.state.rate && |served.state.rate[k]| > 0
                  && served.state.rate[k][|served.state.rate[k]| - 1] == env.armAt)
  {
    hide DecidesGate, Gate, Complete, DbGood, Begin, DecidesAvailability, DecidesRegister, DecidesUnregister;
    hide DecidesLodge, DecidesRead, DecidesRevoke, DecidesClaim, DecidesSeen, Lower, RecordOk, Armed;
    GateDecided(cfg, s, r, env);
    SeenDecided(cfg, s, r, env);
    RowsRecorded(cfg, s.db);
    if Gate(cfg, s, r, env).verdict.Ok? {
      var key := Gate(cfg, s, r, env).verdict.value;
      match r.target {
        case ToAvailability(name) => AvailabilityDecided(cfg, s.db, key, name, env.inp);
        case ToRegister(body) => RegisterDecided(cfg, s.db, key, body, env.inp);
        case ToUnregister(name) => UnregisterDecided(cfg, s.db, key, name, env.inp);
        case ToLodge(offer) => LodgeDecided(cfg, s.db, key, offer, env.inp);
        case ToRead(id) => ReadDecided(cfg, s.db, key, id, env.inp);
        case ToRevoke(id) => RevokeDecided(cfg, s.db, key, id, env.inp);
        case ToClaim(claim) => ClaimDecided(cfg, s.db, key, claim, env.inp);
      }
      var armed := Serve(cfg, s, r, env).armed;
      if armed.Some? { ArmedAt(Gate(cfg, s, r, env).rate, armed.value, env.armAt); }
    }
  }

  // Nobody is authorized but by a signed event of kind 27235, in season, for this very
  // request, by the key the handler then acts for.
  lemma OnlyTheSigner(cfg: Config, s: AppState, r: Request, env: Env, key: string)
    requires !r.target.ToAvailability? && !r.target.ToRead? && Gate(cfg, s, r, env).verdict == Ok(key)
    ensures r.auth.Some? && Authenticated(cfg, r, env)
    ensures var e := r.auth.value;
            e.signed && e.kind == 27235 && e.pubkey == key && InSeason(e, cfg.authMaxAge, env.authWall)
  {
    hide Gate, OverBudget, UsedLately, Cools, UrlTag, MethodTag, PayloadTag, Lower;
    GateDecided(cfg, s, r, env);
  }

  lemma OnlyRegistrationsRegister(cfg: Config, db: Db, key: string, target: Target, inp: Input, after: Db, reply: Reply,
                                  armed: Option<string>)
    requires Decides(cfg, db, key, target, inp, after, reply, armed) && reply.Registered?
    ensures target.ToRegister?
  {
    hide Lists, SettledTo, RevokedTo, KernelReported, Signed, Nameless, LooksReserved, IsName, Lower, Hex64, Hex64Small;
  }

  // A key registers for itself only: the name goes to the key that authenticated, and no
  // other key comes by a name.
  lemma RegisteredForSelf(cfg: Config, s: AppState, r: Request, env: Env, name: string)
    requires Serve(cfg, s, r, env).reply == Registered(true, name) && DbGood(cfg, s.db)
    ensures var after := Serve(cfg, s, r, env).state.db;
            && Gate(cfg, s, r, env).verdict.Ok?
            && var key := Gate(cfg, s, r, env).verdict.value;
               && Nameless(s.db, key) && !IsTaken(s.db, name)
               && after == s.db.(names := s.db.names[name := NameRow(key, env.inp.now, None)])
               && forall n, other :: Owned(after, n, other) && other != key ==> Owned(s.db, n, other)
  {
    hide Gate, Serve, DbGood, IsName, LooksReserved, Hex64Small, Lower, DecidesGate, DecidesClaim, DecidesLodge;
    EveryRequestDecided(cfg, s, r, env);
    var served := Serve(cfg, s, r, env);
    OnlyRegistrationsRegister(cfg, s.db, Gate(cfg, s, r, env).verdict.value, r.target, env.inp, served.state.db,
                              served.reply, served.armed);
  }
}
