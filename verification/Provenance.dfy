/** Rows in hand, transfers and releases traced back to the moments of the run they come from. */
module Provenance {
  import opened Prelude
  import opened Names
  import opened Proof
  import opened Tables
  import opened Api
  import opened Protocol
  import opened Interleaving
  import opened AnyRun
  import opened Payments
  import opened Node

  // ---------------------------------------------------------------- rows in hand

  // The offer row, read from the table, that a request holds.
  function RowInHand(f: Flight): Option<OfferRow> {
    match f
    case RevokeTip(row, _) => Some(row)
    case RevokeMark(row, _, _) => Some(row)
    case RevokeFlip(row) => Some(row)
    case SettleTip(_, row, _) => Some(row)
    case SettleMark(_, row, _, _) => Some(row)
    case SettleGet(_, row, _) => Some(row)
    case ClaimReplay(row, _) => Some(row)
    case ClaimOwner(c) => Some(c.offer)
    case ClaimKernel(c) => Some(c.offer)
    case ClaimExcess(c, _, _) => Some(c.offer)
    case ClaimNameOf(c, _, _) => Some(c.offer)
    case ClaimCommit(c, _, _) => Some(c.offer)
    case _ => None
  }

  predicate Stored(db: Db, row: OfferRow) {
    row.offerId in db.offers && db.offers[row.offerId] == row
  }

  lemma SettledInHand(cfg: Config, asker: Asker, row: OfferRow, now: int)
    ensures RowInHand(AfterSettle(cfg, asker, row, now)).Some? ==>
        RowInHand(AfterSettle(cfg, asker, row, now)) == Some(row)
    ensures RowInHand(Settle(cfg, asker, row, now)).Some? ==> RowInHand(Settle(cfg, asker, row, now)) == Some(row)
  {
    hide DeathGate;
  }

  lemma ClaimKeepsRow(cfg: Config, db: Db, f: Flight, inp: Input)
    requires InClaim(f)
    ensures RowInHand(ClaimNext(cfg, db, f, inp).flight).Some? ==>
        RowInHand(ClaimNext(cfg, db, f, inp).flight) == RowInHand(f)
  {
    hide ProofRefusal, Confirmed, HeightForColumn, ClaimResult, ClaimTxn, ExcessUsed, HasName, BeforeDeath;
  }

  lemma SettlementKeepsOrReads(cfg: Config, db: Db, f: Flight, inp: Input)
    requires KeyedById(db.offers) && InSettlement(f)
    ensures var row := RowInHand(SettlementNext(cfg, db, f, inp).flight);
            row.Some? ==> row == RowInHand(f) || Stored(db, row.value)
  {
    hide TipForColumn, Settle, AfterSettle, MarkOfferDead;
    match f {
      case ReadGet(id) => if id in db.offers { SettledInHand(cfg, ReadAsks, db.offers[id], inp.now); }
      case ClaimGet(id, auth, proof) =>
        if id in db.offers { SettledInHand(cfg, ClaimAsks(auth, proof), db.offers[id], inp.now); }
      case SettleGet(asker, row, now) =>
        SettledInHand(cfg, asker, if row.offerId in db.offers then db.offers[row.offerId] else row, now);
      case _ =>
    }
  }

  lemma RevocationKeepsOrReads(db: Db, f: Flight, inp: Input)
    requires KeyedById(db.offers) && InRevocation(f)
    ensures var row := RowInHand(RevocationNext(db, f, inp).flight);
            row.Some? ==> row == RowInHand(f) || Stored(db, row.value)
  {
    hide TipForColumn, MarkOfferDead, SetStatus;
  }

  lemma OthersHoldNone(cfg: Config, db: Db, f: Flight, inp: Input)
    requires InRegistry(f) || InLodging(f) || f.Done?
    ensures RowInHand(Next(cfg, db, f, inp).flight).None?
  {
    hide RevocationNext, SettlementNext, ClaimNext;
    hide UpsertResultOf, UpsertName, ReleaseName, LiveOfferForName, LiveOfferBinding, HasName, InsertOffer;
  }

  // A step keeps the row it holds, or takes one from the table as it stands.
  lemma RowIsKeptOrRead(cfg: Config, db: Db, f: Flight, inp: Input)
    requires KeyedById(db.offers)
    ensures var row := RowInHand(Next(cfg, db, f, inp).flight);
            row.Some? ==> row == RowInHand(f) || Stored(db, row.value)
  {
    hide RegistryNext, LodgingNext, RevocationNext, SettlementNext, ClaimNext, RowInHand, Stored;
    if InClaim(f) {
      ClaimKeepsRow(cfg, db, f, inp);
    } else if InSettlement(f) {
      SettlementKeepsOrReads(cfg, db, f, inp);
    } else if InRevocation(f) {
      RevocationKeepsOrReads(db, f, inp);
    } else {
      OthersHoldNone(cfg, db, f, inp);
    }
  }

  lemma BeginsEmptyHanded(cfg: Config, auth: string, target: Target, now: int)
    ensures RowInHand(Begin(cfg, auth, target, now)).None? && !Begin(cfg, auth, target, now).UnregUpdate?
  {
    hide RowFromEvent, ValidName, IsReserved, ValidPubkeyHex, ValidOfferId, Lower, ParsePaymentProof;
  }

  // Every row a request holds is the stored row, whole, of some moment of the run.
  lemma {:induction false} RowInHandWasStored(cfg: Config, acts: seq<Action>, i: nat) returns (n: nat)
    requires i < |Exec(cfg, Start, acts).flights| && RowInHand(Exec(cfg, Start, acts).flights[i]).Some?
    ensures n <= |acts|
    ensures Stored(Exec(cfg, Start, acts[..n]).db, RowInHand(Exec(cfg, Start, acts).flights[i]).value)
  {
    hide Next, RowInHand, Stored, Begin;
    if acts == [] {
      assert false;
    } else {
      var m := |acts| - 1;
      var prefix, a := acts[..m], acts[m];
      var w, w' := Exec(cfg, Start, prefix), Exec(cfg, Start, acts);
      EveryRunIsSound(cfg, prefix);
      SoundIsKeyed(cfg, w);
      if a.Arrive? {
        BeginsEmptyHanded(cfg, a.auth, a.target, a.now);
      } else if a.who < |w.flights| {
        RowIsKeptOrRead(cfg, w.db, w.flights[a.who], a.inp);
      }
      if i < |w.flights| && RowInHand(w'.flights[i]) == RowInHand(w.flights[i]) {
        n := RowInHandWasStored(cfg, prefix, i);
        assert prefix[..n] == acts[..n];
      } else {
        n := m;
      }
    }
  }

  lemma SoundIsKeyed(cfg: Config, w: World)
    requires Sound(cfg, w)
    ensures KeyedById(w.db.offers)
  {
    hide OffersGood, NamesGood, ReceiptsGood, FlightGood, LogLawful;
  }

  // ---------------------------------------------------------------- the row a claim was judged on

  // The claim was made in time on this row: by its expiration if it was live, else within
  // the grace time of a recorded death whose height is not below the payment's.
  predicate PassedOn(cfg: Config, o: OfferRow, t: TransferRow) {
    if o.status == Live then t.claimedAt <= o.expiration
    else
      && o.status != Consumed
      && o.stateChangedAt.Some? && o.endHeight.Some? && t.kernelHeight.Some?
      && t.kernelHeight.value <= o.endHeight.value
      && t.claimedAt - o.stateChangedAt.value <= cfg.transferClaimGrace
  }

  // Only a committing claim adds a receipt, from the row in its hands.
  lemma NewReceipt(cfg: Config, db: Db, f: Flight, inp: Input, id: string)
    requires id !in db.transfers && id in Next(cfg, db, f, inp).db.transfers
    ensures f.ClaimCommit? && f.ctx.offer.offerId == id
    ensures Next(cfg, db, f, inp).db.transfers[id]
            == ReceiptOf(f.ctx.offer, f.ctx.proof.excessHex, f.kernelHeight, f.ctx.now)
  {
    hide TipForColumn, UpsertResultOf, UpsertName, ReleaseName, LiveOfferForName, LiveOfferBinding, HasName;
    hide OwnerPoint, KernelPoint, ReplayPoint, Settle, AfterSettle, MarkOfferDead, SetStatus, InsertOffer, ClaimResult;
    hide RevokePoint, ExcessUsed;
    if InClaim(f) {
      hide RegistryNext, LodgingNext, SettlementNext, RevocationNext;
    } else if InSettlement(f) {
      hide RegistryNext, LodgingNext, ClaimNext, RevocationNext;
    } else {
      hide SettlementNext, ClaimNext;
    }
  }

  lemma CommitPassedGate(cfg: Config, offers: map<string, OfferRow>, f: Flight)
    requires f.ClaimCommit? && FlightGood(cfg, offers, f)
    ensures PassedOn(cfg, f.ctx.offer, ReceiptOf(f.ctx.offer, f.ctx.proof.excessHex, f.kernelHeight, f.ctx.now))
  {
    hide ProofAccepted, KernelSeen;
  }

  lemma SoundFlight(cfg: Config, w: World, i: nat)
    requires Sound(cfg, w) && i < |w.flights|
    ensures FlightGood(cfg, w.db.offers, w.flights[i])
  {
    hide FlightGood, DbGood, LogLawful;
  }

  // The transfer a step adds was judged on a row stored at some moment up to then.
  lemma FreshReceipt(cfg: Config, prefix: seq<Action>, a: Action, id: string) returns (n: nat)
    requires id !in Exec(cfg, Start, prefix).db.transfers
    requires id in Do(cfg, Exec(cfg, Start, prefix), a).db.transfers
    ensures n <= |prefix| && id in Exec(cfg, Start, prefix[..n]).db.offers
    ensures PassedOn(cfg, Exec(cfg, Start, prefix[..n]).db.offers[id],
                     Do(cfg, Exec(cfg, Start, prefix), a).db.transfers[id])
  {
    hide Next, PassedOn, FlightGood, Sound, Exec;
    var w := Exec(cfg, Start, prefix);
    var f := w.flights[a.who];
    EveryRunIsSound(cfg, prefix);
    NewReceipt(cfg, w.db, f, a.inp, id);
    SoundFlight(cfg, w, a.who);
    CommitPassedGate(cfg, w.db.offers, f);
    n := RowInHandWasStored(cfg, prefix, a.who);
  }

  // Every transfer was committed by some action `k` of the run, and judged on the offer
  // row as it was stored at some moment `n` before that.
  lemma {:induction false} ClaimWasJudgedOnStoredRow(cfg: Config, acts: seq<Action>, id: string)
    returns (n: nat, k: nat)
    requires id in Exec(cfg, Start, acts).db.transfers
    ensures n <= k < |acts|
    ensures id !in Exec(cfg, Start, acts[..k]).db.transfers && id in Exec(cfg, Start, acts[..k + 1]).db.transfers
    ensures id in Exec(cfg, Start, acts[..n]).db.offers
    ensures PassedOn(cfg, Exec(cfg, Start, acts[..n]).db.offers[id], Exec(cfg, Start, acts).db.transfers[id])
  {
    hide Do, PassedOn, Sound;
    if acts == [] {
      assert false;
    } else {
      var m := |acts| - 1;
      var prefix := acts[..m];
      assert acts[..m + 1] == acts;
      if id in Exec(cfg, Start, prefix).db.transfers {
        n, k := ClaimWasJudgedOnStoredRow(cfg, prefix, id);
        assert prefix[..n] == acts[..n] && prefix[..k] == acts[..k] && prefix[..k + 1] == acts[..k + 1];
        EveryRunIsSound(cfg, prefix);
        ReceiptStays(cfg, Exec(cfg, Start, prefix), acts[m], id);
      } else {
        k := m;
        n := FreshReceipt(cfg, prefix, acts[m], id);
        assert prefix[..n] == acts[..n];
      }
    }
  }

  // The same with the node's answer spelled out: a transfer judged on a dead row rests on a
  // kernel that the first endpoint to answer had at or below the height of that death.
  lemma ClaimWasMinedInTime(cfg: Config, acts: seq<Action>, id: string) returns (n: nat, view: seq<Endpoint>)
    requires id in Exec(cfg, Start, acts).db.transfers
    ensures n < |acts| && id in Exec(cfg, Start, acts[..n]).db.offers
    ensures var o, t := Exec(cfg, Start, acts[..n]).db.offers[id], Exec(cfg, Start, acts).db.transfers[id];
            && KernelReported(view, cfg.transferMinConf, t.kernelHeight)
            && if o.status == Live then t.claimedAt <= o.expiration
               else
                 && o.status != Consumed && o.stateChangedAt.Some? && o.endHeight.Some?
                 && MinedBy(view, cfg.transferMinConf, o.endHeight.value)
                 && t.claimedAt - o.stateChangedAt.value <= cfg.transferClaimGrace
  {
    hide Exec, KernelReported, MinedBy;
    var k;
    n, k := ClaimWasJudgedOnStoredRow(cfg, acts, id);
    view := LateClaimInEveryRun(cfg, acts, id);
    var o, t := Exec(cfg, Start, acts[..n]).db.offers[id], Exec(cfg, Start, acts).db.transfers[id];
    if o.status != Live { ReportedIsMined(view, cfg.transferMinConf, t.kernelHeight, o.endHeight.value); }
  }

  // ---------------------------------------------------------------- answers of the node

  // The step at `k` was given this node view for its kernel query.
  predicate KernelGiven(acts: seq<Action>, k: int, view: seq<Endpoint>) {
    0 <= k < |acts| && acts[k].Advance? && acts[k].inp.kernelNode == Some(view)
  }

  // The step at `k` was given a node whose first tip is this one.
  predicate TipGiven(acts: seq<Action>, k: int, column: Option<i64>) {
    0 <= k < |acts| && acts[k].Advance? && TipColumn(acts[k].inp.tipNode, column)
  }

  function ViewInHand(f: Flight): Option<seq<Endpoint>> {
    match f
    case ClaimExcess(_, view, _) => Some(view)
    case ClaimNameOf(_, view, _) => Some(view)
    case ClaimCommit(_, view, _) => Some(view)
    case _ => None
  }

  lemma ClaimViewKept(cfg: Config, db: Db, f: Flight, inp: Input)
    requires InClaim(f)
    ensures var view := ViewInHand(ClaimNext(cfg, db, f, inp).flight);
            view.Some? ==> view == ViewInHand(f) || view == inp.kernelNode
  {
    hide ProofRefusal, Confirmed, HeightForColumn, ClaimResult, ClaimTxn, ExcessUsed, HasName, BeforeDeath;
  }

  lemma NoViewOutsideClaims(cfg: Config, db: Db, f: Flight, inp: Input)
    requires !InClaim(f) && !InSettlement(f)
    ensures ViewInHand(Next(cfg, db, f, inp).flight).None?
  {
    hide SettlementNext, ClaimNext, TipForColumn, UpsertResultOf, UpsertName, ReleaseName, LiveOfferForName;
    hide LiveOfferBinding, HasName, InsertOffer, MarkOfferDead, SetStatus;
  }

  lemma NoViewInSettlement(cfg: Config, db: Db, f: Flight, inp: Input)
    requires InSettlement(f)
    ensures ViewInHand(SettlementNext(cfg, db, f, inp).flight).None?
  {
    hide TipForColumn, DeathGate, MarkOfferDead;
  }

  // A step keeps the node view it holds, or takes the one it is given.
  lemma ViewKeptOrGiven(cfg: Config, db: Db, f: Flight, inp: Input)
    ensures var view := ViewInHand(Next(cfg, db, f, inp).flight);
            view.Some? ==> view == ViewInHand(f) || view == inp.kernelNode
  {
    hide RegistryNext, LodgingNext, RevocationNext, SettlementNext, ClaimNext, ViewInHand;
    if InClaim(f) {
      ClaimViewKept(cfg, db, f, inp);
    } else if InSettlement(f) {
      NoViewInSettlement(cfg, db, f, inp);
    } else {
      NoViewOutsideClaims(cfg, db, f, inp);
    }
  }

  lemma BeginsWithoutView(cfg: Config, auth: string, target: Target, now: int)
    ensures ViewInHand(Begin(cfg, auth, target, now)).None?
  {
    hide RowFromEvent, ValidName, IsReserved, ValidPubkeyHex, ValidOfferId, Lower, ParsePaymentProof;
  }

  lemma {:induction false} ViewWasGiven(cfg: Config, acts: seq<Action>, i: nat) returns (k: nat)
    requires i < |Exec(cfg, Start, acts).flights| && ViewInHand(Exec(cfg, Start, acts).flights[i]).Some?
    ensures KernelGiven(acts, k, ViewInHand(Exec(cfg, Start, acts).flights[i]).value)
  {
    hide Next, ViewInHand, Begin;
    if acts == [] {
      assert false;
    } else {
      var m := |acts| - 1;
      var prefix, a := acts[..m], acts[m];
      var w, w' := Exec(cfg, Start, prefix), Exec(cfg, Start, acts);
      if a.Arrive? {
        BeginsWithoutView(cfg, a.auth, a.target, a.now);
      } else if a.who < |w.flights| {
        ViewKeptOrGiven(cfg, w.db, w.flights[a.who], a.inp);
      }
      if i < |w.flights| && ViewInHand(w'.flights[i]) == ViewInHand(w.flights[i]) {
        k := ViewWasGiven(cfg, prefix, i);
      } else {
        k := m;
      }
    }
  }

  // Only a committing claim logs a transfer, with the view it holds.
  lemma TransferLog(cfg: Config, db: Db, f: Flight, inp: Input)
    ensures var log := Next(cfg, db, f, inp).log;
            |log| <= 1 && (|log| == 1 && log[0].DidTransfer? ==> ViewInHand(f) == Some(log[0].view))
  {
    hide TipForColumn, UpsertResultOf, UpsertName, ReleaseName, LiveOfferForName, LiveOfferBinding, HasName;
    hide OwnerPoint, KernelPoint, ReplayPoint, RevokePoint, MarkOfferDead, SetStatus, InsertOffer, ClaimResult;
    hide ClaimTxn;
    hide Settle, AfterSettle, ExcessUsed;
    if InClaim(f) {
      hide RegistryNext, LodgingNext, SettlementNext, RevocationNext;
    } else if InSettlement(f) {
      hide RegistryNext, LodgingNext, ClaimNext, RevocationNext;
    } else {
      hide SettlementNext, ClaimNext;
    }
  }

  // The node view behind a logged transfer is one that some step of the run was given.
  lemma {:induction false} TransferViewWasGiven(cfg: Config, acts: seq<Action>, j: nat) returns (k: nat)
    requires j < |Exec(cfg, Start, acts).log| && Exec(cfg, Start, acts).log[j].DidTransfer?
    ensures KernelGiven(acts, k, Exec(cfg, Start, acts).log[j].view)
  {
    hide Next, ViewInHand, Begin;
    if acts == [] {
      assert false;
    } else {
      var prefix, a := acts[..|acts| - 1], acts[|acts| - 1];
      var w := Exec(cfg, Start, prefix);
      if j < |w.log| {
        k := TransferViewWasGiven(cfg, prefix, j);
      } else {
        TransferLog(cfg, w.db, w.flights[a.who], a.inp);
        k := ViewWasGiven(cfg, prefix, a.who);
      }
    }
  }

  // ---------------------------------------------------------------- heights of death

  // The end height a request is about to write.
  function EndInHand(f: Flight): Option<i64> {
    match f
    case RevokeMark(_, end, _) => end
    case SettleMark(_, _, end, _) => end
    case _ => None
  }

  lemma NoEndInClaim(cfg: Config, db: Db, f: Flight, inp: Input)
    requires InClaim(f)
    ensures EndInHand(ClaimNext(cfg, db, f, inp).flight).None?
  {
    hide ProofRefusal, Confirmed, HeightForColumn, ClaimResult, ClaimTxn, ExcessUsed, HasName, BeforeDeath;
  }

  lemma EndGivenInSettlement(cfg: Config, db: Db, f: Flight, inp: Input)
    requires InSettlement(f)
    ensures var end := EndInHand(SettlementNext(cfg, db, f, inp).flight);
            end.Some? ==> end == TipForColumn(inp.tipNode)
  {
    hide TipForColumn, DeathGate, MarkOfferDead;
  }

  lemma EndGivenElsewhere(cfg: Config, db: Db, f: Flight, inp: Input)
    requires !InClaim(f) && !InSettlement(f)
    ensures var end := EndInHand(Next(cfg, db, f, inp).flight);
            end.Some? ==> end == TipForColumn(inp.tipNode)
  {
    hide SettlementNext, ClaimNext, TipForColumn, UpsertResultOf, UpsertName, ReleaseName, LiveOfferForName;
    hide LiveOfferBinding, HasName, InsertOffer, MarkOfferDead, SetStatus;
  }

  lemma EndIsGiven(cfg: Config, db: Db, f: Flight, inp: Input)
    ensures var end := EndInHand(Next(cfg, db, f, inp).flight);
            end.Some? ==> TipColumn(inp.tipNode, end)
  {
    hide RegistryNext, LodgingNext, RevocationNext, SettlementNext, ClaimNext, EndInHand, TipForColumn, TipColumn;
    TipColumnIff(inp.tipNode, TipForColumn(inp.tipNode));
    if InClaim(f) {
      NoEndInClaim(cfg, db, f, inp);
    } else if InSettlement(f) {
      EndGivenInSettlement(cfg, db, f, inp);
    } else {
      EndGivenElsewhere(cfg, db, f, inp);
    }
  }

  lemma BeginsWithoutEnd(cfg: Config, auth: string, target: Target, now: int)
    ensures EndInHand(Begin(cfg, auth, target, now)).None?
  {
    hide RowFromEvent, ValidName, IsReserved, ValidPubkeyHex, ValidOfferId, Lower, ParsePaymentProof;
  }

  lemma {:induction false} EndWasGiven(cfg: Config, acts: seq<Action>, i: nat) returns (k: nat)
    requires i < |Exec(cfg, Start, acts).flights| && EndInHand(Exec(cfg, Start, acts).flights[i]).Some?
    ensures TipGiven(acts, k, EndInHand(Exec(cfg, Start, acts).flights[i]))
  {
    hide Next, EndInHand, Begin, TipColumn;
    if acts == [] {
      assert false;
    } else {
      var m := |acts| - 1;
      var prefix, a := acts[..m], acts[m];
      var w, w' := Exec(cfg, Start, prefix), Exec(cfg, Start, acts);
      if a.Arrive? {
        BeginsWithoutEnd(cfg, a.auth, a.target, a.now);
      } else if a.who < |w.flights| {
        EndIsGiven(cfg, w.db, w.flights[a.who], a.inp);
      }
      if i < |w.flights| && !(a.Advance? && a.who == i) {
        k := EndWasGiven(cfg, prefix, i);
      } else {
        k := m;
      }
    }
  }

  // The end height stored for this offer, if any, was there before or is the one in hand.
  predicate EndKeptOrInHand(db: Db, f: Flight, after: Db, id: string) {
    id in after.offers && after.offers[id].endHeight.Some? ==>
      (id in db.offers && db.offers[id].endHeight == after.offers[id].endHeight)
      || EndInHand(f) == after.offers[id].endHeight
  }

  lemma ClaimKeepsEnds(cfg: Config, db: Db, f: Flight, inp: Input, id: string)
    requires InClaim(f)
    ensures EndKeptOrInHand(db, f, ClaimNext(cfg, db, f, inp).db, id)
  {
    hide OwnerPoint, KernelPoint, ReplayPoint, ClaimResult, ExcessUsed, HasName, EndInHand;
  }

  lemma SettlementWritesEnd(cfg: Config, db: Db, f: Flight, inp: Input, id: string)
    requires InSettlement(f)
    ensures EndKeptOrInHand(db, f, SettlementNext(cfg, db, f, inp).db, id)
  {
    hide TipForColumn, Settle, AfterSettle;
  }

  lemma RevocationWritesEnd(db: Db, f: Flight, inp: Input, id: string)
    requires InRevocation(f)
    ensures EndKeptOrInHand(db, f, RevocationNext(db, f, inp).db, id)
  {
    hide TipForColumn, RevokePoint;
  }

  lemma OthersKeepEnds(cfg: Config, db: Db, f: Flight, inp: Input, id: string)
    requires InRegistry(f) || InLodging(f) || f.Done?
    requires f.LodgeInsert? ==> f.row.endHeight.None?
    ensures EndKeptOrInHand(db, f, Next(cfg, db, f, inp).db, id)
  {
    hide RevocationNext, SettlementNext, ClaimNext, UpsertResultOf, UpsertName, ReleaseName, HasName;
    hide LiveOfferForName, LiveOfferBinding, EndInHand;
  }

  // A step that changes a stored end height writes the one in hand.
  lemma EndComesFromHand(cfg: Config, db: Db, f: Flight, inp: Input, id: string)
    requires f.LodgeInsert? ==> f.row.endHeight.None?
    ensures EndKeptOrInHand(db, f, Next(cfg, db, f, inp).db, id)
  {
    hide RegistryNext, LodgingNext, RevocationNext, SettlementNext, ClaimNext, EndKeptOrInHand;
    if InClaim(f) {
      ClaimKeepsEnds(cfg, db, f, inp, id);
    } else if InSettlement(f) {
      SettlementWritesEnd(cfg, db, f, inp, id);
    } else if InRevocation(f) {
      RevocationWritesEnd(db, f, inp, id);
    } else {
      OthersKeepEnds(cfg, db, f, inp, id);
    }
  }

  lemma FreshRowHasNoEnd(cfg: Config, w: World, i: nat)
    requires Sound(cfg, w) && i < |w.flights| && w.flights[i].LodgeInsert?
    ensures w.flights[i].row.endHeight.None?
  {
    hide DbGood, LogLawful, Genuine, Owners, ReplayOwners, ReplayReceipts;
    assert FlightGood(cfg, w.db.offers, w.flights[i]);
    assert w.flights[i].row.Lodged().endHeight.None?;
  }

  // Every stored end height is the tip that the first endpoint to name one named to some
  // step of the run.
  lemma {:induction false} EndHeightWasReported(cfg: Config, acts: seq<Action>, id: string) returns (k: nat)
    requires id in Exec(cfg, Start, acts).db.offers && Exec(cfg, Start, acts).db.offers[id].endHeight.Some?
    ensures TipGiven(acts, k, Exec(cfg, Start, acts).db.offers[id].endHeight)
  {
    hide Next, EndInHand, Begin, TipColumn, Sound;
    if acts == [] {
      assert false;
    } else {
      var prefix, a := acts[..|acts| - 1], acts[|acts| - 1];
      var w, w' := Exec(cfg, Start, prefix), Exec(cfg, Start, acts);
      if id in w.db.offers && w.db.offers[id].endHeight == w'.db.offers[id].endHeight {
        k := EndHeightWasReported(cfg, prefix, id);
      } else {
        EveryRunIsSound(cfg, prefix);
        if w.flights[a.who].LodgeInsert? { FreshRowHasNoEnd(cfg, w, a.who); }
        EndComesFromHand(cfg, w.db, w.flights[a.who], a.inp, id);
        k := EndWasGiven(cfg, prefix, a.who);
      }
    }
  }

  lemma ReceiptStays(cfg: Config, w: World, a: Action, id: string)
    requires Sound(cfg, w) && id in w.db.transfers
    ensures id in Do(cfg, w, a).db.transfers && Do(cfg, w, a).db.transfers[id] == w.db.transfers[id]
  {
    hide Sound, Do, OffersLater, StandingsFall;
    DoSound(cfg, w, a);
  }

  // ---------------------------------------------------------------- status changes

  // Changes of one offer's status along the run, not counting its lodging.
  ghost function StatusChanges(cfg: Config, acts: seq<Action>, id: string): nat {
    if acts == [] then 0
    else
      var before, after := Exec(cfg, Start, acts[..|acts| - 1]).db.offers, Exec(cfg, Start, acts).db.offers;
      StatusChanges(cfg, acts[..|acts| - 1], id)
      + if id in before && id in after && after[id].status != before[id].status then 1 else 0
  }

  // However requests interleave, an offer's standing pays for every change of its status,
  // so there are at most four.
  lemma {:induction false} AtMostFourChanges(cfg: Config, acts: seq<Action>, id: string)
    ensures var db := Exec(cfg, Start, acts).db;
            if id in db.offers then StatusChanges(cfg, acts, id) + StandingIn(db, id) <= 4
            else StatusChanges(cfg, acts, id) == 0
  {
    hide Sound, Do;
    if acts != [] {
      var prefix, a := acts[..|acts| - 1], acts[|acts| - 1];
      AtMostFourChanges(cfg, prefix, id);
      EveryRunIsSound(cfg, prefix);
      DoSound(cfg, Exec(cfg, Start, prefix), a);
      assert id in Exec(cfg, Start, prefix).db.offers ==> id in Exec(cfg, Start, acts).db.offers;
    }
  }

  // The automaton behind it: what an offer's status can be at any later moment.
  lemma StatusAutomaton(cfg: Config, acts: seq<Action>, more: seq<Action>, id: string)
    requires id in Exec(cfg, Start, acts).db.offers
    ensures id in Exec(cfg, Exec(cfg, Start, acts), more).db.offers
    ensures var a, b := Exec(cfg, Start, acts).db, Exec(cfg, Exec(cfg, Start, acts), more).db;
            && (b.offers[id].status == Live ==> a.offers[id].status == Live)
            && (b.offers[id].status == Expired ==> a.offers[id].status == Live || a.offers[id].status == Expired)
            && (id in a.transfers ==>
                  && (a.offers[id].status == Consumed || a.offers[id].status == Revoked)
                  && (b.offers[id].status == Consumed || b.offers[id].status == Revoked)
                  && (a.offers[id].status == Revoked ==> b.offers[id].status == Revoked))
  {
    hide OffersGood, NamesGood, FlightGood, LogLawful, Exec, Constraints;
    var w := Exec(cfg, Start, acts);
    EveryRunIsSound(cfg, acts);
    ExecSound(cfg, w, more);
    assert Later(w.db.offers[id], Exec(cfg, w, more).db.offers[id]);
  }

  // ---------------------------------------------------------------- releases

  // The key owned the name when `k` changes had been committed.
  ghost predicate OwnedAt(log: seq<Commit>, k: nat, name: string, key: string) {
    k <= |log| && name in ReplayOwners(log[..k]) && ReplayOwners(log[..k])[name] == key
  }

  lemma OwnedStays(log: seq<Commit>, more: seq<Commit>, k: nat, name: string, key: string)
    requires OwnedAt(log, k, name, key)
    ensures OwnedAt(log + more, k, name, key)
  {
    assert (log + more)[..k] == log[..k];
  }

  // A request gets to the release only by having found its own key to be the owner.
  lemma ReleaseFollowsLookup(cfg: Config, db: Db, f: Flight, inp: Input)
    requires Next(cfg, db, f, inp).flight.UnregUpdate?
    ensures var next := Next(cfg, db, f, inp).flight;
            Holds(db.names, next.name, next.auth) && Next(cfg, db, f, inp).log == []
  {
    hide TipForColumn, UpsertResultOf, UpsertName, ReleaseName, LiveOfferForName, LiveOfferBinding, HasName;
    hide ProofRefusal, Confirmed, HeightForColumn, ClaimResult, ClaimTxn, ExcessUsed, BeforeDeath;
    hide MarkOfferDead, SetStatus, InsertOffer, DeathGate;
    if InClaim(f) {
      hide RegistryNext, LodgingNext, SettlementNext, RevocationNext;
    } else if InSettlement(f) {
      hide RegistryNext, LodgingNext, ClaimNext, RevocationNext;
    } else {
      hide SettlementNext, ClaimNext;
    }
  }

  lemma SoundOwners(cfg: Config, w: World, name: string, key: string)
    requires Sound(cfg, w) && Holds(w.db.names, name, key)
    ensures OwnedAt(w.log, |w.log|, name, key)
  {
    hide DbGood, FlightGood, LogLawful;
    assert w.log[..|w.log|] == w.log;
  }

  lemma {:induction false} ReleaserOwned(cfg: Config, acts: seq<Action>, i: nat) returns (k: nat)
    requires i < |Exec(cfg, Start, acts).flights| && Exec(cfg, Start, acts).flights[i].UnregUpdate?
    ensures var w := Exec(cfg, Start, acts); OwnedAt(w.log, k, w.flights[i].name, w.flights[i].auth)
  {
    hide Next, OwnedAt, Begin, Sound;
    if acts == [] {
      assert false;
    } else {
      var prefix, a := acts[..|acts| - 1], acts[|acts| - 1];
      var w, w' := Exec(cfg, Start, prefix), Exec(cfg, Start, acts);
      if a.Arrive? {
        BeginsEmptyHanded(cfg, a.auth, a.target, a.now);
      }
      if a.Advance? && a.who == i && i < |w.flights| {
        EveryRunIsSound(cfg, prefix);
        ReleaseFollowsLookup(cfg, w.db, w.flights[i], a.inp);
        SoundOwners(cfg, w, w'.flights[i].name, w'.flights[i].auth);
        k := |w.log|;
        assert w.log + [] == w.log;
      } else {
        k := ReleaserOwned(cfg, prefix, i);
        if a.Advance? && a.who < |w.flights| {
          OwnedStays(w.log, Next(cfg, w.db, w.flights[a.who], a.inp).log, k, w.flights[i].name, w.flights[i].auth);
        }
      }
    }
  }

  // What a step adds to the log.
  lemma StepLog(cfg: Config, db: Db, f: Flight, inp: Input)
    ensures var log := Next(cfg, db, f, inp).log;
            |log| <= 1 && (|log| == 1 && log[0].DidRelease? ==> f == UnregUpdate(log[0].name, log[0].releaser))
  {
    hide TipForColumn, UpsertResultOf, UpsertName, ReleaseName, LiveOfferForName, LiveOfferBinding, HasName;
    hide OwnerPoint, KernelPoint, ReplayPoint, RevokePoint, MarkOfferDead, SetStatus, InsertOffer, ClaimResult;
    hide ClaimTxn;
    hide Settle, AfterSettle, ExcessUsed;
    if InClaim(f) {
      hide RegistryNext, LodgingNext, SettlementNext, RevocationNext;
    } else if InSettlement(f) {
      hide RegistryNext, LodgingNext, ClaimNext, RevocationNext;
    } else {
      hide SettlementNext, ClaimNext;
    }
  }

  // In every run, each release was made by a key that owned the name at some earlier moment.
  lemma {:induction false} ReleaseByPastOwner(cfg: Config, acts: seq<Action>, j: nat) returns (k: nat)
    requires j < |Exec(cfg, Start, acts).log| && Exec(cfg, Start, acts).log[j].DidRelease?
    ensures var log := Exec(cfg, Start, acts).log; k <= j && OwnedAt(log, k, log[j].name, log[j].releaser)
  {
    hide Next, OwnedAt, Begin;
    if acts == [] {
      assert false;
    } else {
      var prefix, a := acts[..|acts| - 1], acts[|acts| - 1];
      var w, w' := Exec(cfg, Start, prefix), Exec(cfg, Start, acts);
      if a.Advance? && a.who < |w.flights| {
        var more := Next(cfg, w.db, w.flights[a.who], a.inp).log;
        StepLog(cfg, w.db, w.flights[a.who], a.inp);
        if j < |w.log| {
          k := ReleaseByPastOwner(cfg, prefix, j);
        } else {
          k := ReleaserOwned(cfg, prefix, a.who);
          OwnedInLog(w.log, k, w'.log[j].name, w'.log[j].releaser);
        }
        OwnedStays(w.log, more, k, w'.log[j].name, w'.log[j].releaser);
      } else {
        k := ReleaseByPastOwner(cfg, prefix, j);
      }
    }
  }

  lemma OwnedInLog(log: seq<Commit>, k: nat, name: string, key: string)
    requires OwnedAt(log, k, name, key)
    ensures k <= |log|
  {
  }

  // And if it met another owner than that key, then since that moment the name had been
  // released, or sold to the owner it met.
  lemma ReleaseOfOthersName(cfg: Config, acts: seq<Action>, j: nat) returns (k: nat)
    requires j < |Exec(cfg, Start, acts).log| && Exec(cfg, Start, acts).log[j].DidRelease?
    ensures var w := Exec(cfg, Start, acts);
            var name, owners := w.log[j].name, ReplayOwners(w.log[..j]);
            && k <= j && OwnedAt(w.log, k, name, w.log[j].releaser)
            && name in owners
            && (owners[name] != w.log[j].releaser ==>
                  exists m :: k <= m < j && (Frees(w.log[m], name) || Handover(w, m, name, owners[name])))
  {
    hide Exec, Handover, LogLawful, FlightGood, DbGood;
    var w := Exec(cfg, Start, acts);
    k := ReleaseByPastOwner(cfg, acts, j);
    var name := w.log[j].name;
    EveryRunIsSound(cfg, acts);
    LogPrefixLawful(cfg, w.db.offers, w.log, j);
    if forall m :: k <= m < j ==> !Frees(w.log[m], name) {
      OwnershipChain(cfg, acts, k, j, name);
    }
  }

  // ---------------------------------------------------------------- registrations

  // Request `k` asked for this name with this key, for itself.
  predicate Asked(acts: seq<Action>, k: int, name: string, key: string) {
    && 0 <= k < |acts| && acts[k].Arrive? && acts[k].auth == key
    && acts[k].target.ToRegister? && acts[k].target.body.Some?
    && Lower(acts[k].target.body.value.name) == name && Lower(acts[k].target.body.value.pubkey) == key
  }

  // The name a registration in flight is after, and the key that asked.
  function Registrant(f: Flight): Option<(string, string)> {
    match f
    case RegLookup(name, _, auth) => Some((name, auth))
    case RegNameOf(name, _, auth) => Some((name, auth))
    case RegUpsert(name, _, auth) => Some((name, auth))
    case _ => None
  }

  lemma RegistrationBegins(cfg: Config, auth: string, target: Target, now: int)
    ensures var r := Registrant(Begin(cfg, auth, target, now));
            r.Some? ==>
              && r.value.1 == auth && target.ToRegister? && target.body.Some?
              && Lower(target.body.value.name) == r.value.0 && Lower(target.body.value.pubkey) == auth
  {
    hide RowFromEvent, ValidName, IsReserved, ValidPubkeyHex, ValidOfferId, Lower, ParsePaymentProof;
  }

  lemma NoRegistrantElsewhere(cfg: Config, db: Db, f: Flight, inp: Input)
    requires InClaim(f) || InSettlement(f) || InRevocation(f)
    ensures Registrant(Next(cfg, db, f, inp).flight).None?
  {
    hide RegistryNext, LodgingNext, TipForColumn, ProofRefusal, Confirmed, HeightForColumn, ClaimResult, ClaimTxn;
    hide ExcessUsed, HasName, BeforeDeath, DeathGate, MarkOfferDead, SetStatus;
    if InClaim(f) {
      hide SettlementNext, RevocationNext;
    } else if InSettlement(f) {
      hide ClaimNext, RevocationNext;
    } else {
      hide ClaimNext, SettlementNext;
    }
  }

  lemma RegistrantInRegistry(db: Db, f: Flight, inp: Input)
    requires InRegistry(f)
    ensures var next := RegistryNext(db, f, inp).flight;
            Registrant(next).Some? ==> Registrant(next) == Registrant(f)
  {
    hide UpsertResultOf, UpsertName, ReleaseName, HasName;
  }

  lemma NoRegistrantInLodging(db: Db, f: Flight)
    requires InLodging(f)
    ensures Registrant(LodgingNext(db, f).flight).None?
  {
    hide LiveOfferForName, LiveOfferBinding, InsertOffer;
  }

  lemma RegistrantKept(cfg: Config, db: Db, f: Flight, inp: Input)
    ensures var next := Next(cfg, db, f, inp).flight;
            Registrant(next).Some? ==> Registrant(next) == Registrant(f)
  {
    hide RegistryNext, LodgingNext, RevocationNext, SettlementNext, ClaimNext, Registrant;
    if InRegistry(f) {
      RegistrantInRegistry(db, f, inp);
    } else if InLodging(f) {
      NoRegistrantInLodging(db, f);
    } else if !f.Done? {
      NoRegistrantElsewhere(cfg, db, f, inp);
    }
  }

  lemma RegisterLog(cfg: Config, db: Db, f: Flight, inp: Input)
    ensures var log := Next(cfg, db, f, inp).log;
            |log| <= 1 && (|log| == 1 && log[0].DidRegister? ==>
                           Registrant(f) == Some((log[0].name, log[0].registrant)))
  {
    hide TipForColumn, UpsertResultOf, UpsertName, ReleaseName, LiveOfferForName, LiveOfferBinding, HasName;
    hide OwnerPoint, KernelPoint, ReplayPoint, RevokePoint, MarkOfferDead, SetStatus, InsertOffer, ClaimResult;
    hide ClaimTxn;
    hide Settle, AfterSettle, ExcessUsed;
    if InClaim(f) {
      hide RegistryNext, LodgingNext, SettlementNext, RevocationNext;
    } else if InSettlement(f) {
      hide RegistryNext, LodgingNext, ClaimNext, RevocationNext;
    } else {
      hide SettlementNext, ClaimNext;
    }
  }

  lemma {:induction false} RegistrantAsked(cfg: Config, acts: seq<Action>, i: nat) returns (k: nat)
    requires i < |Exec(cfg, Start, acts).flights| && Registrant(Exec(cfg, Start, acts).flights[i]).Some?
    ensures var r := Registrant(Exec(cfg, Start, acts).flights[i]).value; Asked(acts, k, r.0, r.1)
  {
    hide Next, Registrant, Begin, Lower;
    if acts == [] {
      assert false;
    } else {
      var m := |acts| - 1;
      var prefix, a := acts[..m], acts[m];
      var w, w' := Exec(cfg, Start, prefix), Exec(cfg, Start, acts);
      if a.Arrive? {
        RegistrationBegins(cfg, a.auth, a.target, a.now);
      } else if a.who < |w.flights| {
        RegistrantKept(cfg, w.db, w.flights[a.who], a.inp);
      }
      if i < |w.flights| {
        k := RegistrantAsked(cfg, prefix, i);
      } else {
        k := m;
      }
    }
  }

  // In every run, a registration puts down the key that asked for it, and that request
  // named this key and this name.
  lemma {:induction false} RegisteredByAsker(cfg: Config, acts: seq<Action>, j: nat) returns (k: nat)
    requires j < |Exec(cfg, Start, acts).log| && Exec(cfg, Start, acts).log[j].DidRegister?
    ensures var e := Exec(cfg, Start, acts).log[j]; e.registrant == e.pubkey && Asked(acts, k, e.name, e.pubkey)
  {
    hide Next, Registrant, Begin, Lower, Asked, DbGood, FlightGood;
    EveryRunIsSound(cfg, acts);
    RegisteredSelf(cfg, Exec(cfg, Start, acts), j);
    if acts == [] {
      assert false;
    } else {
      var prefix, a := acts[..|acts| - 1], acts[|acts| - 1];
      var w := Exec(cfg, Start, prefix);
      if j < |w.log| {
        k := RegisteredByAsker(cfg, prefix, j);
      } else {
        RegisterLog(cfg, w.db, w.flights[a.who], a.inp);
        k := RegistrantAsked(cfg, prefix, a.who);
      }
      assert acts == prefix + [a];
      AskedStays(prefix, a, k, Exec(cfg, Start, acts).log[j].name, Exec(cfg, Start, acts).log[j].pubkey);
    }
  }

  lemma AskedStays(acts: seq<Action>, a: Action, k: nat, name: string, key: string)
    requires Asked(acts, k, name, key)
    ensures Asked(acts + [a], k, name, key)
  {
  }

  lemma RegisteredSelf(cfg: Config, w: World, j: nat)
    requires Sound(cfg, w) && j < |w.log| && w.log[j].DidRegister?
    ensures w.log[j].registrant == w.log[j].pubkey
  {
    hide DbGood, FlightGood, GoodName, Backed;
    LogPrefixLawful(cfg, w.db.offers, w.log, j);
  }
}
