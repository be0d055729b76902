/** What interleaving breaks: three guarantees of serialized runs that fail when requests
    overlap, each with the run that breaks it, for every choice of names, keys and offers. */
module Races {
  import opened Prelude
  import opened Names
  import opened Proof
  import opened Node
  import opened Tables
  import opened Api
  import opened Protocol
  import opened Interleaving
  import opened Serialized
  import opened Effects
  import opened AnyRun
  import opened Runs
  import opened Provenance

  // ---------------------------------------------------------------- release by a past owner

  // The release checks the owner and updates without looking again. Key `a` starts to
  // release its name; before the update runs, `a` releases it by another request and `b`
  // registers it; the update then takes the name from `b`.
  lemma {:induction false} StaleReleaseTakesName(cfg: Config, name: string, a: string, b: string, inp: Input)
    returns (acts: seq<Action>, who: nat)
    requires GoodName(cfg, name) && ValidPubkeyHex(a) && ValidPubkeyHex(b) && a != b
    ensures who < |Exec(cfg, Start, acts).flights| && Exec(cfg, Start, acts).flights[who] == UnregUpdate(name, a)
    ensures Holds(Exec(cfg, Start, acts).db.names, name, b)
    ensures !Active(Exec(cfg, Start, acts + [Advance(who, inp)]).db.names, name)
  {
    hide LodgingNext, RevocationNext, SettlementNext, ClaimNext, UpsertPoint, ValidPubkeyHex;
    hide Begin, Complete, GoodName, HasName, Exec;
    assert Exec(cfg, Start, []) == Start by { EmptyRun(cfg); }
    NobodyHasName(a);
    acts := RegisterNow(cfg, [], name, a, inp);
    who := 1;
    BeginUnregister(cfg, name, a, inp.now);
    acts := StartOnly(cfg, acts, a, ToUnregister(name), inp);
    assert Exec(cfg, Start, acts).flights[who] == UnregUpdate(name, a);
    UnregisterEffect(cfg, Exec(cfg, Start, acts).db, name, a, inp);
    acts := ServeWhole(cfg, acts, a, ToUnregister(name), inp);
    var released := Exec(cfg, Start, acts).db.names;
    assert released == map[name := NameRow(a, inp.now, Some(inp.now))];
    OnlyReleased(released, name, b);
    acts := RegisterNow(cfg, acts, name, b, inp);
    var last := StepOf(cfg, acts, who, inp);
  }

  // ---------------------------------------------------------------- two live offers for one name

  // The lodge checks and the insert are separate steps: two lodgings for one name, each
  // past its checks before the other inserts, both end up live.
  lemma TwoLiveOffers(cfg: Config, name: string, seller: string, e1: OfferEvent, e2: OfferEvent, inp: Input)
    returns (acts: seq<Action>)
    requires GoodName(cfg, name) && ValidPubkeyHex(seller) && e1.id != e2.id
    requires var r1 := RowFromEvent(cfg, seller, Some(e1), inp.now); r1.Ok? && r1.value.name == name
    requires var r2 := RowFromEvent(cfg, seller, Some(e2), inp.now); r2.Ok? && r2.value.name == name
    ensures var offers := Exec(cfg, Start, acts).db.offers;
            && e1.id in offers && e2.id in offers
            && offers[e1.id].name == name && offers[e2.id].name == name
            && LiveAt(offers[e1.id], inp.now) && LiveAt(offers[e2.id], inp.now)
  {
    hide RegistryNext, RevocationNext, SettlementNext, ClaimNext;
    hide Complete, GoodName, HasName, Exec, RowFromEvent, LiveOfferForName, LiveOfferBinding;
    EmptyRun(cfg);
    NobodyHasName(seller);
    acts := RegisterNow(cfg, [], name, seller, inp);
    RowOfEvent(cfg, seller, e1, inp.now);
    RowOfEvent(cfg, seller, e2, inp.now);
    acts := LodgeChecked(cfg, acts, seller, e1, inp);
    acts := LodgeChecked(cfg, acts, seller, e2, inp);
    acts := StepOf(cfg, acts, 1, inp);
    acts := StepOf(cfg, acts, 2, inp);
  }

  // With no offer lodged yet, the owner's lodging passes its checks and stands before the insert.
  lemma LodgeChecked(cfg: Config, acts: seq<Action>, seller: string, e: OfferEvent, inp: Input)
    returns (more: seq<Action>)
    requires RowFromEvent(cfg, seller, Some(e), inp.now).Ok?
    requires var row := RowFromEvent(cfg, seller, Some(e), inp.now).value;
             Exec(cfg, Start, acts).db.offers == map[] && Holds(Exec(cfg, Start, acts).db.names, row.name, seller)
    ensures var w, w' := Exec(cfg, Start, acts), Exec(cfg, Start, more);
            w'.db == w.db && w'.flights == w.flights + [LodgeInsert(RowFromEvent(cfg, seller, Some(e), inp.now).value)]
  {
    hide RegistryNext, RevocationNext, SettlementNext, ClaimNext;
    hide Exec, RowFromEvent, LiveOfferForName, LiveOfferBinding;
    var row := RowFromEvent(cfg, seller, Some(e), inp.now).value;
    var who := |Exec(cfg, Start, acts).flights|;
    RowOfEvent(cfg, seller, e, inp.now);
    NoOffers(row.name, row.proofAddress, inp.now);
    more := StartOnly(cfg, acts, seller, ToLodge(Some(e)), inp);
    more := StepOf(cfg, more, who, inp);
    more := StepOf(cfg, more, who, inp);
  }

  // ---------------------------------------------------------------- revoked over consumed

  // What the buyer brings: a proof the offer accepts and a confirmed kernel mined by the
  // tip the authority recorded when it noticed the expiry.
  ghost predicate GoodPayment(cfg: Config, row: OfferRow, proof: PaymentProof, inp: Input) {
    && ProofRefusal(cfg, row, proof).None?
    && inp.kernelNode.Some? && Confirmed(cfg, inp.kernelNode.value)
    && TipForColumn(inp.tipNode).Some?
    && BeforeDeath(TipForColumn(inp.tipNode), HeightForColumn(Kernel(inp.kernelNode.value).value))
  }

  // A revocation that saw the offer expired flips the status by id alone. If a late claim
  // commits in between, the consumed offer ends up revoked, while its receipt stays.
  lemma RevokedOverConsumed(cfg: Config, name: string, seller: string, e: OfferEvent, raw: RawProof,
                            lodgedAt: Input, inp: Input) returns (acts: seq<Action>)
    requires GoodName(cfg, name) && ValidPubkeyHex(seller) && cfg.transferClaimGrace >= 0 && ValidOfferId(e.id)
        && Lower(e.id) == e.id
    requires var built := RowFromEvent(cfg, seller, Some(e), lodgedAt.now);
             && built.Ok? && built.value.name == name && built.value.buyer != seller
             && built.value.expiration < inp.now
             && GoodPayment(cfg, built.value, ParsePaymentProof(raw), inp)
    ensures var db := Exec(cfg, Start, acts).db;
            && e.id in db.offers && db.offers[e.id].status == Revoked
            && e.id in db.transfers && Holds(db.names, name, db.offers[e.id].buyer)
  {
    hide RegistryNext, LodgingNext, RevocationNext, SettlementNext, ClaimNext;
    hide Complete, Begin, GoodName, HasName, Exec, RowFromEvent, LiveOfferForName, LiveOfferBinding;
    hide ProofRefusal, Confirmed;
    hide Kernel, TipForColumn, HeightForColumn, GoodPayment, ParsePaymentProof, Entitled, Lower;
    EmptyRun(cfg);
    NobodyHasName(seller);
    acts := RegisterNow(cfg, [], name, seller, lodgedAt);
    var row := RowFromEvent(cfg, seller, Some(e), lodgedAt.now).value;
    acts := LodgeAlone(cfg, acts, seller, e, lodgedAt);
    acts := ReadOverdue(cfg, acts, e.id, inp);
    var dead := Exec(cfg, Start, acts).db.offers[e.id];
    acts := StartRevoke(cfg, acts, seller, e.id, inp);
    var who := |Exec(cfg, Start, acts).flights| - 1;
    assert Exec(cfg, Start, acts).flights[who] == RevokeFlip(dead);
    acts := ClaimDead(cfg, acts, row, dead, raw, inp);
    acts := FlipNow(cfg, acts, who, inp);
  }

  // The pending flip runs.
  lemma FlipNow(cfg: Config, acts: seq<Action>, who: nat, inp: Input) returns (more: seq<Action>)
    requires who < |Exec(cfg, Start, acts).flights| && Exec(cfg, Start, acts).flights[who].RevokeFlip?
    ensures acts <= more
    ensures var w, w' := Exec(cfg, Start, acts), Exec(cfg, Start, more);
            var id := w.flights[who].row.offerId;
            && w'.db == w.db.(offers := SetStatus(w.db.offers, id, Revoked))
            && w'.flights == w.flights[who := Finish(RevokedOffer(id))]
  {
    hide Exec, SetStatus, RegistryNext, LodgingNext, SettlementNext, ClaimNext;
    more := StepOf(cfg, acts, who, inp);
  }

  // ---------------------------------------------------------------- four status changes

  lemma {:induction false} ChangesGrow(cfg: Config, acts: seq<Action>, more: seq<Action>, id: string)
    requires acts <= more && id in Exec(cfg, Start, acts).db.offers
    ensures id in Exec(cfg, Start, more).db.offers
    ensures var before, after := Exec(cfg, Start, acts).db.offers[id], Exec(cfg, Start, more).db.offers[id];
            StatusChanges(cfg, more, id)
            >= StatusChanges(cfg, acts, id) + if after.status != before.status then 1 else 0
  {
    hide Sound, Do;
    if acts != more {
      var prefix := more[..|more| - 1];
      ChangesGrow(cfg, acts, prefix, id);
      EveryRunIsSound(cfg, prefix);
      DoSound(cfg, Exec(cfg, Start, prefix), more[|more| - 1]);
      assert id in Exec(cfg, Start, prefix).db.offers;
    }
  }

  // The bound of Provenance.AtMostFourChanges is met: an offer expires, two revocations
  // read it so, one flips it, a late claim consumes it, and the other flips it again.
  lemma FourChangesHappen(cfg: Config, name: string, seller: string, e: OfferEvent, raw: RawProof,
                          lodgedAt: Input, inp: Input) returns (acts: seq<Action>)
    requires GoodName(cfg, name) && ValidPubkeyHex(seller) && cfg.transferClaimGrace >= 0 && ValidOfferId(e.id)
        && Lower(e.id) == e.id
    requires var built := RowFromEvent(cfg, seller, Some(e), lodgedAt.now);
             && built.Ok? && built.value.name == name && built.value.buyer != seller
             && built.value.expiration < inp.now
             && GoodPayment(cfg, built.value, ParsePaymentProof(raw), inp)
    ensures StatusChanges(cfg, acts, e.id) == 4
  {
    hide RegistryNext, LodgingNext, RevocationNext, SettlementNext, ClaimNext;
    hide Complete, Begin, GoodName, HasName, Exec, RowFromEvent, LiveOfferForName, LiveOfferBinding;
    hide ProofRefusal, Confirmed, StatusChanges, ValidPubkeyHex, ValidOfferId;
    hide Kernel, TipForColumn, HeightForColumn, GoodPayment, ParsePaymentProof, Entitled, Lower;
    EmptyRun(cfg);
    NobodyHasName(seller);
    var named := RegisterNow(cfg, [], name, seller, lodgedAt);
    var row := RowFromEvent(cfg, seller, Some(e), lodgedAt.now).value;
    var live := LodgeAlone(cfg, named, seller, e, lodgedAt);
    var expired := ReadOverdue(cfg, live, e.id, inp);
    var dead := Exec(cfg, Start, expired).db.offers[e.id];
    var who := |Exec(cfg, Start, expired).flights|;
    var first := StartRevoke(cfg, expired, seller, e.id, inp);
    var both := StartRevoke(cfg, first, seller, e.id, inp);
    assert Exec(cfg, Start, both).flights[who] == Exec(cfg, Start, both).flights[who + 1] == RevokeFlip(dead);
    var revoked := FlipNow(cfg, both, who, inp);
    assert Exec(cfg, Start, revoked).flights[who + 1] == RevokeFlip(dead);
    var sold := ClaimDead(cfg, revoked, row, dead.(status := Revoked), raw, inp);
    assert Exec(cfg, Start, sold).flights[who + 1] == RevokeFlip(dead);
    acts := FlipNow(cfg, sold, who + 1, inp);
    ChangesGrow(cfg, live, expired, e.id);
    ChangesGrow(cfg, expired, revoked, e.id);
    ChangesGrow(cfg, revoked, sold, e.id);
    ChangesGrow(cfg, sold, acts, e.id);
    AtMostFourChanges(cfg, acts, e.id);
  }

  lemma ReadOverdue(cfg: Config, acts: seq<Action>, id: string, inp: Input) returns (more: seq<Action>)
    requires id in Exec(cfg, Start, acts).db.offers && Exec(cfg, Start, acts).db.offers[id].offerId == id
    requires Overdue(Exec(cfg, Start, acts).db.offers[id], inp.now)
    ensures acts <= more
    ensures var db := Exec(cfg, Start, acts).db;
            Exec(cfg, Start, more).db == db.(offers := db.offers[id := db.offers[id].(
                status := Expired, endHeight := TipForColumn(inp.tipNode), stateChangedAt := Some(inp.now))])
  {
    hide RegistryNext, LodgingNext, RevocationNext, SettlementNext, ClaimNext;
    hide Complete, Exec, TipForColumn;
    more := ServeWhole(cfg, acts, "", ToRead(id), inp);
    ReadEffect(cfg, Exec(cfg, Start, acts).db, id, inp);
  }

  lemma StartRevoke(cfg: Config, acts: seq<Action>, seller: string, id: string, inp: Input) returns (more: seq<Action>)
    requires id in Exec(cfg, Start, acts).db.offers
    requires Exec(cfg, Start, acts).db.offers[id].status == Expired
        && Exec(cfg, Start, acts).db.offers[id].seller == seller
    ensures acts <= more
    ensures var w, w' := Exec(cfg, Start, acts), Exec(cfg, Start, more);
            w'.db == w.db && w'.flights == w.flights + [RevokeFlip(w.db.offers[id])]
  {
    hide RegistryNext, LodgingNext, SettlementNext, ClaimNext;
    hide Exec;
    more := StartOnly(cfg, acts, seller, ToRevoke(id), inp);
  }

  // The late claim: the offer died at this very instant, the payment is good, the seller
  // still owns the name and the buyer has none.
  lemma ClaimDead(cfg: Config, acts: seq<Action>, row: OfferRow, dead: OfferRow, raw: RawProof, inp: Input)
    returns (more: seq<Action>)
    requires GoodPayment(cfg, row, ParsePaymentProof(raw), inp) && cfg.transferClaimGrace >= 0
    requires dead.status == Expired || dead.status == Revoked
    requires dead
        == row.(status := dead.status, endHeight := TipForColumn(inp.tipNode), stateChangedAt := Some(inp.now))
    requires ValidOfferId(row.offerId) && Lower(row.offerId) == row.offerId && row.buyer != row.seller
    requires var db := Exec(cfg, Start, acts).db;
             && db.offers == map[row.offerId := dead] && db.transfers == map[]
             && db.names.Keys == {row.name} && Holds(db.names, row.name, row.seller)
    ensures acts <= more
    ensures var w, w' := Exec(cfg, Start, acts), Exec(cfg, Start, more);
            && w'.db.offers == map[row.offerId := dead.(status := Consumed)]
            && row.offerId in w'.db.transfers && Holds(w'.db.names, row.name, row.buyer)
            && |w'.flights| == |w.flights| + 1 && w'.flights[..|w.flights|] == w.flights
  {
    hide RegistryNext, LodgingNext, RevocationNext, SettlementNext, ClaimNext;
    hide Complete, Exec, TipForColumn, ValidOfferId, ParsePaymentProof, Lower, Kernel, HeightForColumn;
    hide Confirmed, VerifySignatures, NormalizeGrinAddress;
    var db := Exec(cfg, Start, acts).db;
    var id, proof := row.offerId, ParsePaymentProof(raw);
    more := ServeWhole(cfg, acts, row.buyer, ToClaim(Some(ClaimBody(id, GivenProof(raw)))), inp);
    OneHolder(db.names, row.name, row.seller, row.buyer);
    ClaimEffect(cfg, db, id, row.buyer, proof, inp);
    assert Settled(db.offers, id, inp) == db.offers;
    assert db.(offers := db.offers) == db;
    assert Entitled(cfg, db, dead, row.buyer, proof, inp);
  }
}
