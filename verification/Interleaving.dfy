/** All interleavings of any number of requests, and what survives in every one of them.
    Rate limits, authentication and replay checks only refuse requests, so leaving them out
    here only adds runs; the wall clock may jump either way between steps. */
module Interleaving {
  import opened Prelude
  import opened Names
  import opened Proof
  import opened Node
  import opened Tables
  import opened Api
  import opened Protocol

  // The tables, every request that ever arrived, and the log of committed name changes.
  datatype World = World(db: Db, flights: seq<Flight>, log: seq<Commit>)

  datatype Action = Arrive(auth: string, target: Target, now: int) | Advance(who: nat, inp: Input)

  const Start := World(EmptyDb, [], [])

  ghost function Do(cfg: Config, w: World, a: Action): World {
    match a
    case Arrive(auth, target, now) => w.(flights := w.flights + [Begin(cfg, auth, target, now)])
    case Advance(who, inp) =>
      if who >= |w.flights| then w
      else
        var out := Next(cfg, w.db, w.flights[who], inp);
        World(out.db, w.flights[who := out.flight], w.log + out.log)
  }

  ghost function Exec(cfg: Config, w: World, acts: seq<Action>): World {
    if acts == [] then w else Do(cfg, Exec(cfg, w, acts[..|acts| - 1]), acts[|acts| - 1])
  }

  // ---------------------------------------------------------------- rows over time

  // A row carries a death record from the moment it leaves `live` by expiry or revocation.
  predicate RecordOk(o: OfferRow) {
    && (o.status == Live ==> o.endHeight.None? && o.stateChangedAt.None?)
    && (o.status == Expired || o.status == Revoked ==> o.stateChangedAt.Some?)
    && (o.endHeight.Some? ==> o.stateChangedAt.Some?)
  }

  // `b` is a possible later state of `a`: same terms, never live again, expired only from
  // live, and the death record frozen once the row has left `live`.
  predicate Later(a: OfferRow, b: OfferRow) {
    && a.Lodged() == b.Lodged()
    && (a.status != Live ==> b.status != Live && b.endHeight == a.endHeight && b.stateChangedAt == a.stateChangedAt)
    && (b.status == Expired ==> a.status == Live || a.status == Expired)
  }

  ghost predicate OffersLater(before: map<string, OfferRow>, after: map<string, OfferRow>) {
    forall id :: id in before ==> id in after && Later(before[id], after[id])
  }

  ghost predicate ReceiptsLater(before: map<string, TransferRow>, after: map<string, TransferRow>) {
    forall id :: id in before ==> id in after && after[id] == before[id]
  }

  // How far an offer has still to go; a sold offer that is revoked has reached the end.
  function Standing(status: Status, sold: bool): nat {
    match status
    case Live => 4
    case Expired => 3
    case Revoked => if sold then 0 else 2
    case Consumed => 1
  }

  function StandingIn(db: Db, id: string): nat
    requires id in db.offers
  {
    Standing(db.offers[id].status, id in db.transfers)
  }

  // No offer's standing rises, and every change of status lowers it.
  ghost predicate StandingsFall(before: Db, after: Db) {
    forall id :: id in before.offers ==>
      && id in after.offers && StandingIn(after, id) <= StandingIn(before, id)
      && (after.offers[id].status != before.offers[id].status ==> StandingIn(after, id) < StandingIn(before, id))
  }

  ghost predicate DbLater(before: Db, after: Db) {
    && OffersLater(before.offers, after.offers)
    && ReceiptsLater(before.transfers, after.transfers)
    && StandingsFall(before, after)
  }

  // ---------------------------------------------------------------- the invariant on tables

  // The row's columns are what its signed event says.
  predicate Genuine(cfg: Config, o: OfferRow) {
    RowFromEvent(cfg, o.seller, Some(o.event), o.createdAt) == Ok(o.Lodged())
  }

  ghost predicate NamesGood(cfg: Config, names: map<string, NameRow>) {
    forall n :: n in names ==> GoodName(cfg, n)
  }

  ghost predicate OffersGood(cfg: Config, offers: map<string, OfferRow>) {
    forall id :: id in offers ==> RecordOk(offers[id]) && Genuine(cfg, offers[id])
  }

  predicate ReceiptFits(t: TransferRow, o: OfferRow) {
    t.name == o.name && t.seller == o.seller && t.buyer == o.buyer && t.price == o.price
  }

  ghost predicate ReceiptsGood(db: Db) {
    && (forall id :: id in db.transfers ==>
          && id in db.offers && ReceiptFits(db.transfers[id], db.offers[id])
          && (db.offers[id].status == Consumed || db.offers[id].status == Revoked))
    && (forall id :: id in db.offers && db.offers[id].status == Consumed ==> id in db.transfers)
  }

  ghost predicate DbGood(cfg: Config, db: Db) {
    && Constraints(db)
    && NamesGood(cfg, db.names)
    && OffersGood(cfg, db.offers)
    && ReceiptsGood(db)
  }

  // ---------------------------------------------------------------- the invariant on flights

  // A captured row can have become the stored one.
  ghost predicate Captured(offers: map<string, OfferRow>, row: OfferRow) {
    row.offerId in offers && Later(row, offers[row.offerId]) && RecordOk(row)
  }

  // Every proof a handler holds went through the parser, which lower-cases the excess.
  predicate Parsed(proof: PaymentProof) {
    Lower(proof.excessHex) == proof.excessHex
  }

  predicate AskerGood(asker: Asker) {
    asker.ClaimAsks? ==> Parsed(asker.proof)
  }

  predicate ProofAccepted(cfg: Config, row: OfferRow, proof: PaymentProof) {
    Parsed(proof) && ProofRefusal(cfg, row, proof).None?
  }

  predicate KernelSeen(cfg: Config, view: seq<Endpoint>, kernelHeight: Option<i64>) {
    Confirmed(cfg, view) && kernelHeight == HeightForColumn(Kernel(view).value)
  }

  // A claim past the death gate judged a row that was live in time, or dead with a record
  // that lets the claim through.
  predicate GatePassed(cfg: Config, c: ClaimCtx) {
    && c.offer.status != Consumed
    && DeathGate(cfg, c.offer, c.now) == Ok(c.deadEnd)
    && (c.offer.status == Live ==> c.now <= c.offer.expiration)
  }

  ghost predicate FlightGood(cfg: Config, offers: map<string, OfferRow>, f: Flight) {
    match f
    case RegLookup(name, pubkey, auth) => GoodName(cfg, name) && auth == pubkey
    case RegNameOf(name, pubkey, auth) => GoodName(cfg, name) && auth == pubkey
    case RegUpsert(name, pubkey, auth) => GoodName(cfg, name) && auth == pubkey
    case LodgeLookup(row) => row == row.Lodged() && Genuine(cfg, row)
    case LodgeByName(row) => row == row.Lodged() && Genuine(cfg, row)
    case LodgeByAddress(row) => row == row.Lodged() && Genuine(cfg, row)
    case LodgeInsert(row) => row == row.Lodged() && Genuine(cfg, row)
    case RevokeTip(row, _) => Captured(offers, row)
    case RevokeMark(row, _, _) => Captured(offers, row)
    case RevokeFlip(row) => Captured(offers, row) && row.status == Expired
    case SettleTip(asker, row, _) => Captured(offers, row) && AskerGood(asker)
    case SettleMark(asker, row, _, _) => Captured(offers, row) && AskerGood(asker)
    case SettleGet(asker, row, _) =>
      Captured(offers, row) && AskerGood(asker) && offers[row.offerId].status != Live
    case ClaimGet(_, _, proof) => Parsed(proof)
    case ClaimReplay(row, _) => Captured(offers, row) && row.status == Consumed
    case ClaimOwner(c) => Captured(offers, c.offer) && GatePassed(cfg, c) && Parsed(c.proof)
    case ClaimKernel(c) => Captured(offers, c.offer) && GatePassed(cfg, c) && ProofAccepted(cfg, c.offer, c.proof)
    case ClaimExcess(c, view, h) => PaidGood(cfg, offers, c, view, h)
    case ClaimNameOf(c, view, h) => PaidGood(cfg, offers, c, view, h)
    case ClaimCommit(c, view, h) => PaidGood(cfg, offers, c, view, h)
    case _ => true
  }

  // A claim past its payment checks.
  ghost predicate PaidGood(cfg: Config, offers: map<string, OfferRow>, c: ClaimCtx, view: seq<Endpoint>,
                           h: Option<i64>) {
    && Captured(offers, c.offer) && GatePassed(cfg, c)
    && ProofAccepted(cfg, c.offer, c.proof) && KernelSeen(cfg, view, h) && BeforeDeath(c.deadEnd, h)
  }

  // ---------------------------------------------------------------- the log

  function Owners(names: map<string, NameRow>): map<string, string> {
    map n | n in names && Active(names, n) :: names[n].pubkey
  }

  function ApplyOwner(owners: map<string, string>, e: Commit): map<string, string> {
    match e
    case DidRegister(name, pubkey, _) => owners[name := pubkey]
    case DidRelease(name, _) => owners - {name}
    case DidTransfer(_, t, _, _) => owners[t.name := t.buyer]
  }

  function ApplyReceipt(receipts: map<string, TransferRow>, e: Commit): map<string, TransferRow> {
    match e
    case DidTransfer(id, t, _, _) => receipts[id := t]
    case _ => receipts
  }

  function ReplayOwners(log: seq<Commit>): map<string, string> {
    if log == [] then map[] else ApplyOwner(ReplayOwners(log[..|log| - 1]), log[|log| - 1])
  }

  function ReplayReceipts(log: seq<Commit>): map<string, TransferRow> {
    if log == [] then map[] else ApplyReceipt(ReplayReceipts(log[..|log| - 1]), log[|log| - 1])
  }

  // The claim was decided by the offer's expiration, or within the grace time after a
  // death whose recorded height is not below the payment's.
  predicate InTime(cfg: Config, o: OfferRow, t: TransferRow) {
    || t.claimedAt <= o.expiration
    || (&& o.status != Live && o.stateChangedAt.Some? && o.endHeight.Some? && t.kernelHeight.Some?
        && t.kernelHeight.value <= o.endHeight.value
        && t.claimedAt - o.stateChangedAt.value <= cfg.transferClaimGrace)
  }

  // What is behind a receipt: a proof with both signatures, paid to the offer's address,
  // for its price, in time, with a kernel the node confirmed.
  predicate Backed(cfg: Config, o: OfferRow, t: TransferRow, proof: PaymentProof, view: seq<Endpoint>) {
    && ReceiptFits(t, o)
    && t.excess == proof.excessHex
    && ProofAccepted(cfg, o, proof)
    && KernelSeen(cfg, view, t.kernelHeight)
    && InTime(cfg, o, t)
  }

  // What a committed change found when it was made.
  ghost predicate Lawful(cfg: Config, offers: map<string, OfferRow>, owners: map<string, string>,
                         receipts: map<string, TransferRow>, e: Commit)
  {
    match e
    case DidRegister(name, pubkey, registrant) =>
      name !in owners && pubkey !in owners.Values && GoodName(cfg, name) && registrant == pubkey
    case DidRelease(name, _) => name in owners
    case DidTransfer(id, t, proof, view) =>
      && t.name in owners && owners[t.name] == t.seller
      && (forall n :: n in owners && n != t.name ==> owners[n] != t.buyer)
      && id !in receipts
      && (forall other :: other in receipts ==> receipts[other].excess != t.excess)
      && id in offers && Backed(cfg, offers[id], t, proof, view)
  }

  ghost predicate LogLawful(cfg: Config, offers: map<string, OfferRow>, log: seq<Commit>) {
    log == [] ||
    var before := log[..|log| - 1];
    LogLawful(cfg, offers, before)
    && Lawful(cfg, offers, ReplayOwners(before), ReplayReceipts(before), log[|log| - 1])
  }

  // ---------------------------------------------------------------- the invariant

  ghost predicate Sound(cfg: Config, w: World) {
    && DbGood(cfg, w.db)
    && (forall i :: 0 <= i < |w.flights| ==> FlightGood(cfg, w.db.offers, w.flights[i]))
    && LogLawful(cfg, w.db.offers, w.log)
    && ReplayOwners(w.log) == Owners(w.db.names)
    && ReplayReceipts(w.log) == w.db.transfers
  }

  // What one step owes: good tables, a good flight, monotone rows, and a log entry that
  // is lawful and replays to exactly the change made.
  ghost predicate StepGood(cfg: Config, db: Db, out: Outcome) {
    && DbGood(cfg, out.db)
    && DbLater(db, out.db)
    && FlightGood(cfg, out.db.offers, out.flight)
    && |out.log| <= 1
    && (out.log == [] ==> Owners(out.db.names) == Owners(db.names) && out.db.transfers == db.transfers)
    && (out.log != [] ==>
          && Lawful(cfg, db.offers, Owners(db.names), db.transfers, out.log[0])
          && Owners(out.db.names) == ApplyOwner(Owners(db.names), out.log[0])
          && out.db.transfers == ApplyReceipt(db.transfers, out.log[0]))
  }

  lemma BeginGood(cfg: Config, offers: map<string, OfferRow>, auth: string, target: Target, now: int)
    ensures FlightGood(cfg, offers, Begin(cfg, auth, target, now))
  {
    hide BeginAvailability, BeginRegistration, BeginLodging, BeginClaim, FlightGood;
    match target {
      case ToAvailability(name) => BeginAvailabilityGood(cfg, offers, Lower(name));
      case ToRegister(Some(body)) => BeginRegistrationGood(cfg, offers, auth, Lower(body.name), Lower(body.pubkey));
      case ToLodge(offer) => BeginLodgingGood(cfg, offers, auth, offer, now);
      case ToClaim(Some(body)) => BeginClaimGood(cfg, offers, auth, body);
      case _ => BeginOtherGood(cfg, offers, auth, target, now);
    }
  }

  lemma BeginAvailabilityGood(cfg: Config, offers: map<string, OfferRow>, name: string)
    ensures FlightGood(cfg, offers, BeginAvailability(cfg, name))
  {
    hide ValidName, IsReserved;
  }

  lemma BeginRegistrationGood(cfg: Config, offers: map<string, OfferRow>, auth: string, name: string, pubkey: string)
    ensures FlightGood(cfg, offers, BeginRegistration(cfg, auth, name, pubkey))
  {
    hide ValidName, IsReserved, ValidPubkeyHex;
  }

  lemma BeginLodgingGood(cfg: Config, offers: map<string, OfferRow>, auth: string, offer: Option<OfferEvent>, now: int)
    ensures FlightGood(cfg, offers, BeginLodging(cfg, auth, offer, now))
  {
    hide Genuine, RowFromEvent;
    BuiltRow(cfg, auth, offer, now);
  }

  lemma BeginClaimGood(cfg: Config, offers: map<string, OfferRow>, auth: string, body: ClaimBody)
    ensures FlightGood(cfg, offers, BeginClaim(auth, body))
  {
    hide ValidOfferId, Lower;
    if body.proof.GivenProof? { LowerIdempotent(body.proof.raw.excess); }
  }

  lemma BeginOtherGood(cfg: Config, offers: map<string, OfferRow>, auth: string, target: Target, now: int)
    requires target.ToUnregister? || target.ToRead? || target.ToRevoke? || target == ToRegister(None)
        || target == ToClaim(None)
    ensures FlightGood(cfg, offers, Begin(cfg, auth, target, now))
  {
  }

  lemma BuiltRow(cfg: Config, auth: string, offer: Option<OfferEvent>, now: int)
    ensures var built := RowFromEvent(cfg, auth, offer, now);
            built.Ok? ==> built.value == built.value.Lodged() && Genuine(cfg, built.value)
  {
    hide OfferTagsOf, ValidName, ValidPubkeyHex, DecodeGrinAddress, NormalizeGrinAddress;
    var built := RowFromEvent(cfg, auth, offer, now);
    if built.Ok? {
      assert built.value.seller == auth && Some(built.value.event) == offer && built.value.createdAt == now;
    }
  }

  lemma UpsertStep(cfg: Config, db: Db, name: string, pubkey: string, auth: string, inp: Input)
    requires DbGood(cfg, db) && GoodName(cfg, name) && auth == pubkey
    ensures StepGood(cfg, db, UpsertPoint(db, name, pubkey, auth, inp))
  {
    hide OffersGood, GoodName, Constraints, Owners, DbLater;
    NameStatementsKeepConstraints(db, name, pubkey, inp.now);
    NothingMoves(db);
    OffersUnmoved(db, UpsertName(db.names, name, pubkey, inp.now));
    if UpsertResultOf(db.names, name, pubkey, inp.indexFirst) == Written {
      OwnersAfterUpsert(db.names, name, pubkey, inp.now);
    }
  }

  // Writing names moves no offer and no receipt.
  lemma OffersUnmoved(db: Db, names: map<string, NameRow>)
    ensures DbLater(db, db.(names := names))
  {
  }

  lemma OwnersAfterUpsert(names: map<string, NameRow>, name: string, pubkey: string, now: int)
    requires !Active(names, name) && !KeyElsewhere(names, name, pubkey)
    ensures name !in Owners(names) && pubkey !in Owners(names).Values
    ensures Owners(UpsertName(names, name, pubkey, now)) == Owners(names)[name := pubkey]
  {
    if pubkey in Owners(names).Values {
      var n :| n in Owners(names) && Owners(names)[n] == pubkey;
      assert Holds(names, n, pubkey) && n != name;
    }
  }

  lemma ReleaseStep(cfg: Config, db: Db, name: string, auth: string, inp: Input)
    requires DbGood(cfg, db)
    ensures StepGood(cfg, db, ReleasePoint(db, name, auth, inp))
  {
    hide OffersGood, GoodName, Constraints, Owners, DbLater;
    NameStatementsKeepConstraints(db, name, auth, inp.now);
    OffersUnmoved(db, ReleaseName(db.names, name, inp.now));
    OwnersAfterRelease(db.names, name, inp.now);
  }

  lemma OwnersAfterRelease(names: map<string, NameRow>, name: string, now: int)
    ensures Owners(ReleaseName(names, name, now)) == Owners(names) - {name}
    ensures !Active(names, name) ==> ReleaseName(names, name, now) == names
    ensures Active(names, name) <==> name in Owners(names)
  {
  }

  lemma InsertStep(cfg: Config, db: Db, row: OfferRow)
    requires DbGood(cfg, db) && row == row.Lodged() && Genuine(cfg, row)
    ensures StepGood(cfg, db, InsertPoint(db, row))
  {
    hide OffersGood, Genuine, NamesGood, Constraints, Owners, Lawful, ReceiptFits, DbLater;
    InsertKeepsConstraints(db, row);
    InsertedLater(db, row);
    InsertedGood(cfg, db.offers, row);
  }

  lemma InsertedLater(db: Db, row: OfferRow)
    ensures DbLater(db, db.(offers := InsertOffer(db.offers, row)))
  {
  }

  lemma InsertedGood(cfg: Config, offers: map<string, OfferRow>, row: OfferRow)
    requires OffersGood(cfg, offers) && row == row.Lodged() && Genuine(cfg, row)
    ensures OffersGood(cfg, InsertOffer(offers, row))
  {
    hide Genuine;
    assert row.Lodged().status == Live && row.Lodged().endHeight == None && row.Lodged().stateChangedAt == None;
  }

  // Only the terms matter to being genuine.
  lemma GenuineStays(cfg: Config, a: OfferRow, b: OfferRow)
    requires Genuine(cfg, a) && a.Lodged() == b.Lodged()
    ensures Genuine(cfg, b)
  {
    hide RowFromEvent;
    assert a.Lodged().seller == a.seller && a.Lodged().event == a.event && a.Lodged().createdAt == a.createdAt;
  }

  // A write to one offer that moves its row to a later, well-recorded state.
  lemma RowWriteGood(cfg: Config, db: Db, id: string, row: OfferRow)
    requires DbGood(cfg, db) && id in db.offers
    requires Later(db.offers[id], row) && RecordOk(row) && (row.status == Expired || row.status == Revoked)
    requires id in db.transfers ==> row.status == Revoked
    requires row.status != db.offers[id].status ==> Standing(row.status, id in db.transfers) < StandingIn(db, id)
    ensures DbGood(cfg, db.(offers := db.offers[id := row]))
    ensures DbLater(db, db.(offers := db.offers[id := row]))
  {
    hide Genuine, GoodName, NamesGood, OneNamePerKey, OneTransferPerExcess, DbLater;
    GenuineStays(cfg, db.offers[id], row);
    OneOfferMoves(db, id, row);
  }

  lemma OneOfferMoves(db: Db, id: string, row: OfferRow)
    requires id in db.offers && Later(db.offers[id], row)
    requires row.status != db.offers[id].status ==> Standing(row.status, id in db.transfers) < StandingIn(db, id)
    ensures DbLater(db, db.(offers := db.offers[id := row]))
  {
  }

  // Both guarded deaths: the row must still be live.
  lemma MarkDeadGood(cfg: Config, db: Db, id: string, status: Status, endHeight: Option<i64>, now: int)
    requires DbGood(cfg, db) && (status == Expired || status == Revoked)
    ensures DbGood(cfg, db.(offers := MarkOfferDead(db.offers, id, status, endHeight, now)))
    ensures DbLater(db, db.(offers := MarkOfferDead(db.offers, id, status, endHeight, now)))
  {
    hide Genuine, GoodName;
    if id in db.offers && db.offers[id].status == Live {
      RowWriteGood(cfg, db, id, MarkOfferDead(db.offers, id, status, endHeight, now)[id]);
    } else {
      NothingMoves(db);
    }
  }

  lemma NothingMoves(db: Db)
    ensures DbLater(db, db)
  {
  }

  // The unguarded flip, made only by a request that saw the row expired.
  lemma FlipGood(cfg: Config, db: Db, row: OfferRow)
    requires DbGood(cfg, db) && Captured(db.offers, row) && row.status == Expired
    ensures DbGood(cfg, db.(offers := SetStatus(db.offers, row.offerId, Revoked)))
    ensures DbLater(db, db.(offers := SetStatus(db.offers, row.offerId, Revoked)))
  {
    hide Genuine, GoodName;
    RowWriteGood(cfg, db, row.offerId, db.offers[row.offerId].(status := Revoked));
  }

  lemma CapturedIsStored(offers: map<string, OfferRow>, row: OfferRow)
    requires Captured(offers, row)
    ensures row.offerId in offers
  {
  }

  // Once a row has been written down as expired, or was past that, it is not live.
  lemma MarkedIsDead(offers: map<string, OfferRow>, id: string, endHeight: Option<i64>, now: int)
    requires id in offers
    ensures id in MarkOfferDead(offers, id, Expired, endHeight, now)
    ensures MarkOfferDead(offers, id, Expired, endHeight, now)[id].status != Live
  {
  }

  // A row in hand stays an earlier state of the stored row as the table moves on.
  lemma CapturedStays(before: map<string, OfferRow>, after: map<string, OfferRow>, row: OfferRow)
    requires Captured(before, row) && OffersLater(before, after)
    ensures Captured(after, row)
  {
    assert Later(before[row.offerId], after[row.offerId]);
  }

  lemma FlightStays(cfg: Config, before: map<string, OfferRow>, after: map<string, OfferRow>, f: Flight)
    requires FlightGood(cfg, before, f) && OffersLater(before, after)
    ensures FlightGood(cfg, after, f)
  {
    hide Genuine, GoodName, ProofAccepted, KernelSeen, Parsed, GatePassed, BeforeDeath;
    forall row | Captured(before, row) ensures Captured(after, row) {
      CapturedStays(before, after, row);
    }
  }

  lemma SettleGood(cfg: Config, offers: map<string, OfferRow>, asker: Asker, row: OfferRow, now: int)
    requires Captured(offers, row) && AskerGood(asker)
    ensures (row.status == Live ==> now <= row.expiration) ==>
        FlightGood(cfg, offers, AfterSettle(cfg, asker, row, now))
    ensures FlightGood(cfg, offers, Settle(cfg, asker, row, now))
  {
    hide Captured, Parsed;
  }

  lemma CommitStep(cfg: Config, db: Db, c: ClaimCtx, view: seq<Endpoint>, h: Option<i64>)
    requires DbGood(cfg, db) && FlightGood(cfg, db.offers, ClaimCommit(c, view, h))
    ensures StepGood(cfg, db, CommitPoint(db, c, view, h))
  {
    if ClaimResult(db, c.offer, c.proof.excessHex) == Committed {
      hide *;
      CommittedStep(cfg, db, c, view, h);
    } else {
      hide DbGood, DbLater, Owners, Lawful, PaidGood, ClaimResult, ClaimTxn;
      NothingMoves(db);
    }
  }

  lemma CommittedStep(cfg: Config, db: Db, c: ClaimCtx, view: seq<Endpoint>, h: Option<i64>)
    requires DbGood(cfg, db) && FlightGood(cfg, db.offers, ClaimCommit(c, view, h))
    requires ClaimResult(db, c.offer, c.proof.excessHex) == Committed
    ensures StepGood(cfg, db, CommitPoint(db, c, view, h))
  {
    hide DbGood, DbLater, Owners, Captured, KernelSeen, Backed, ProofAccepted, ClaimTxn, FlightGood;
    hide ClaimResult, InTime;
    var o, excess := c.offer, c.proof.excessHex;
    var after := ClaimTxn(db, o, excess, h, c.now);
    CommitFacts(cfg, db.offers, c, view, h);
    GateMeansInTime(cfg, c, db.offers[o.offerId], ReceiptOf(o, excess, h, c.now));
    BackedByStored(cfg, c.proof, view, o, db.offers[o.offerId], ReceiptOf(o, excess, h, c.now));
    CommitDbGood(cfg, db, o, excess, h, c.now);
    CommitEffects(cfg, db, o, excess, h, c.now);
    TrivialFlight(cfg, after.offers, Claimed(true, o.name, o.buyer), Some(o.seller));
  }

  lemma CommitFacts(cfg: Config, offers: map<string, OfferRow>, c: ClaimCtx, view: seq<Endpoint>, h: Option<i64>)
    requires FlightGood(cfg, offers, ClaimCommit(c, view, h))
    ensures c.offer.offerId in offers && c.offer.Lodged() == offers[c.offer.offerId].Lodged()
    ensures Captured(offers, c.offer) && ProofAccepted(cfg, c.offer, c.proof) && KernelSeen(cfg, view, h)
    ensures GatePassed(cfg, c) && BeforeDeath(c.deadEnd, h) && RecordOk(c.offer)
        && Later(c.offer, offers[c.offer.offerId])
  {
    hide ProofAccepted, KernelSeen;
  }

  // The gate judged an earlier state of the stored row, whose record has not changed since.
  lemma GateMeansInTime(cfg: Config, c: ClaimCtx, stored: OfferRow, t: TransferRow)
    requires GatePassed(cfg, c) && BeforeDeath(c.deadEnd, t.kernelHeight) && t.claimedAt == c.now
    requires RecordOk(c.offer) && Later(c.offer, stored)
    ensures InTime(cfg, stored, t)
  {
    assert c.offer.Lodged().expiration == c.offer.expiration;
  }

  lemma TrivialFlight(cfg: Config, offers: map<string, OfferRow>, reply: Reply, arms: Option<string>)
    ensures FlightGood(cfg, offers, Done(reply, arms))
  {
  }

  lemma BackedByStored(cfg: Config, proof: PaymentProof, view: seq<Endpoint>, row: OfferRow, stored: OfferRow,
                       t: TransferRow)
    requires row.Lodged() == stored.Lodged() && ProofAccepted(cfg, row, proof)
    requires ReceiptFits(t, row) && t.excess == proof.excessHex && KernelSeen(cfg, view, t.kernelHeight)
    requires InTime(cfg, stored, t)
    ensures Backed(cfg, stored, t, proof, view)
  {
    hide KernelSeen, VerifySignatures, NormalizeGrinAddress, InTime;
    assert row.Lodged().price == row.price && row.Lodged().proofAddress == row.proofAddress;
  }

  lemma CommitEffects(cfg: Config, db: Db, o: OfferRow, excess: string, h: Option<i64>, now: int)
    requires DbGood(cfg, db) && ClaimResult(db, o, excess) == Committed
    ensures o.name in Owners(db.names) && Owners(db.names)[o.name] == o.seller
    ensures forall n :: n in Owners(db.names) && n != o.name ==> Owners(db.names)[n] != o.buyer
    ensures o.offerId !in db.transfers
    ensures forall other :: other in db.transfers ==> db.transfers[other].excess != excess
    ensures Owners(ClaimTxn(db, o, excess, h, now).names) == Owners(db.names)[o.name := o.buyer]
    ensures ClaimTxn(db, o, excess, h, now).transfers == db.transfers[o.offerId := ReceiptOf(o, excess, h, now)]
  {
    hide Genuine, GoodName;
    OwnersAfterClaim(db, o, excess, h, now);
  }

  lemma OwnersAfterClaim(db: Db, o: OfferRow, excess: string, h: Option<i64>, now: int)
    requires Constraints(db) && ClaimResult(db, o, excess) == Committed
    ensures o.name in Owners(db.names) && Owners(db.names)[o.name] == o.seller
    ensures Owners(ClaimTxn(db, o, excess, h, now).names) == Owners(db.names)[o.name := o.buyer]
    ensures forall n :: n in Owners(db.names) && n != o.name ==> Owners(db.names)[n] != o.buyer
  {
    forall n | n in Owners(db.names) && n != o.name ensures Owners(db.names)[n] != o.buyer {
      assert Owners(db.names)[n] == o.buyer ==> Holds(db.names, n, o.buyer);
    }
  }

  lemma CommitDbGood(cfg: Config, db: Db, o: OfferRow, excess: string, h: Option<i64>, now: int)
    requires DbGood(cfg, db) && Captured(db.offers, o) && ClaimResult(db, o, excess) == Committed
    ensures DbGood(cfg, ClaimTxn(db, o, excess, h, now))
    ensures DbLater(db, ClaimTxn(db, o, excess, h, now))
  {
    hide OffersGood, GoodName, Constraints, ReceiptsGood, DbLater;
    ClaimKeepsConstraints(db, o, excess, h, now);
    CommitOffers(cfg, db, o);
    CommitReceipts(db, o, excess, h, now);
  }

  lemma CommitOffers(cfg: Config, db: Db, o: OfferRow)
    requires OffersGood(cfg, db.offers) && o.offerId in db.offers
    ensures OffersGood(cfg, SetStatus(db.offers, o.offerId, Consumed))
    ensures OffersLater(db.offers, SetStatus(db.offers, o.offerId, Consumed))
  {
    hide Genuine;
    var stored := db.offers[o.offerId];
    GenuineStays(cfg, stored, stored.(status := Consumed));
  }

  lemma CommitReceipts(db: Db, o: OfferRow, excess: string, h: Option<i64>, now: int)
    requires ReceiptsGood(db) && Captured(db.offers, o) && ClaimResult(db, o, excess) == Committed
    ensures ReceiptsGood(ClaimTxn(db, o, excess, h, now))
    ensures OffersLater(db.offers, ClaimTxn(db, o, excess, h, now).offers) ==>
              DbLater(db, ClaimTxn(db, o, excess, h, now))
    ensures o.name in db.names
  {
    hide OffersLater;
    var stored := db.offers[o.offerId];
    assert o.Lodged().name == stored.name && o.Lodged().seller == stored.seller;
    assert o.Lodged().buyer == stored.buyer && o.Lodged().price == stored.price;
  }

  // A step that only reads owes a good flight and nothing else.
  lemma QuietStep(cfg: Config, db: Db, f: Flight)
    requires DbGood(cfg, db) && FlightGood(cfg, db.offers, f)
    ensures StepGood(cfg, db, Reads(db, f))
  {
    hide DbGood, Owners, DbLater, FlightGood, Lawful;
    NothingMoves(db);
  }

  lemma NextGood(cfg: Config, db: Db, f: Flight, inp: Input)
    requires DbGood(cfg, db) && FlightGood(cfg, db.offers, f)
    ensures StepGood(cfg, db, Next(cfg, db, f, inp))
  {
    hide DbGood, FlightGood, StepGood, RegistryNext, LodgingNext, RevocationNext, SettlementNext, ClaimNext;
    if InRegistry(f) {
      RegistryStep(cfg, db, f, inp);
    } else if InLodging(f) {
      LodgingStep(cfg, db, f);
    } else if InRevocation(f) {
      RevocationStep(cfg, db, f, inp);
    } else if InSettlement(f) {
      SettlementStep(cfg, db, f, inp);
    } else if InClaim(f) {
      ClaimStep(cfg, db, f, inp);
    } else {
      QuietStep(cfg, db, f);
    }
  }

  lemma RegistryStep(cfg: Config, db: Db, f: Flight, inp: Input)
    requires DbGood(cfg, db) && FlightGood(cfg, db.offers, f) && InRegistry(f)
    ensures StepGood(cfg, db, RegistryNext(db, f, inp))
  {
    hide DbGood, StepGood, GoodName, UpsertPoint, ReleasePoint, HasName;
    if f.RegUpsert? {
      UpsertStep(cfg, db, f.name, f.pubkey, f.auth, inp);
    } else if f.UnregUpdate? {
      ReleaseStep(cfg, db, f.name, f.auth, inp);
    } else {
      QuietStep(cfg, db, RegistryNext(db, f, inp).flight);
    }
  }

  lemma LodgingStep(cfg: Config, db: Db, f: Flight)
    requires DbGood(cfg, db) && FlightGood(cfg, db.offers, f) && InLodging(f)
    ensures StepGood(cfg, db, LodgingNext(db, f))
  {
    hide DbGood, StepGood, Genuine, InsertPoint, LiveOfferForName, LiveOfferBinding;
    if f.LodgeInsert? {
      InsertStep(cfg, db, f.row);
    } else {
      QuietStep(cfg, db, LodgingNext(db, f).flight);
    }
  }

  lemma OffersRecorded(cfg: Config, db: Db)
    requires DbGood(cfg, db)
    ensures forall id :: id in db.offers ==>
              Captured(db.offers, db.offers[id]) && db.offers[id].offerId == id && RecordOk(db.offers[id])
  {
    hide Genuine, GoodName;
  }

  lemma RevocationStep(cfg: Config, db: Db, f: Flight, inp: Input)
    requires DbGood(cfg, db) && FlightGood(cfg, db.offers, f) && InRevocation(f)
    ensures StepGood(cfg, db, RevocationNext(db, f, inp))
  {
    hide DbGood, StepGood, Captured, TipForColumn, MarkOfferDead, SetStatus, RecordOk;
    if f.RevokeMark? {
      MarkDeadGood(cfg, db, f.row.offerId, Revoked, f.endHeight, f.now);
      OfferWriteStep(cfg, db, RevocationNext(db, f, inp));
    } else if f.RevokeFlip? {
      FlipGood(cfg, db, f.row);
      OfferWriteStep(cfg, db, RevocationNext(db, f, inp));
    } else {
      OffersRecorded(cfg, db);
      QuietStep(cfg, db, RevocationNext(db, f, inp).flight);
    }
  }

  // A step that writes to the offers table alone.
  lemma OfferWriteStep(cfg: Config, db: Db, out: Outcome)
    requires out.log == [] && out.db == db.(offers := out.db.offers)
    requires DbGood(cfg, out.db) && DbLater(db, out.db) && FlightGood(cfg, out.db.offers, out.flight)
    ensures StepGood(cfg, db, out)
  {
    hide DbGood, DbLater, FlightGood, Owners, Lawful;
  }

  lemma SettlementStep(cfg: Config, db: Db, f: Flight, inp: Input)
    requires DbGood(cfg, db) && FlightGood(cfg, db.offers, f) && InSettlement(f)
    ensures StepGood(cfg, db, SettlementNext(cfg, db, f, inp))
  {
    hide DbGood, StepGood, Captured, TipForColumn, MarkOfferDead, AfterSettle, Settle, RecordOk, Parsed;
    OffersRecorded(cfg, db);
    if f.SettleMark? {
      MarkDeadGood(cfg, db, f.row.offerId, Expired, f.endHeight, f.now);
      MarkedInHand(db, f.row, f.endHeight, f.now);
      OfferWriteStep(cfg, db, SettlementNext(cfg, db, f, inp));
    } else {
      if f.SettleGet? {
        CapturedIsStored(db.offers, f.row);
        SettleGood(cfg, db.offers, f.asker, db.offers[f.row.offerId], f.now);
      } else if f.ReadGet? && f.id in db.offers {
        SettleGood(cfg, db.offers, ReadAsks, db.offers[f.id], inp.now);
      } else if f.ClaimGet? && f.id in db.offers {
        SettleGood(cfg, db.offers, ClaimAsks(f.auth, f.proof), db.offers[f.id], inp.now);
      }
      QuietStep(cfg, db, SettlementNext(cfg, db, f, inp).flight);
    }
  }

  lemma MarkedInHand(db: Db, row: OfferRow, endHeight: Option<i64>, now: int)
    requires Captured(db.offers, row)
    requires DbLater(db, db.(offers := MarkOfferDead(db.offers, row.offerId, Expired, endHeight, now)))
    ensures var offers := MarkOfferDead(db.offers, row.offerId, Expired, endHeight, now);
            Captured(offers, row) && row.offerId in offers && offers[row.offerId].status != Live
  {
    hide Captured, StandingsFall, ReceiptsLater, MarkOfferDead;
    CapturedIsStored(db.offers, row);
    CapturedStays(db.offers, MarkOfferDead(db.offers, row.offerId, Expired, endHeight, now), row);
    MarkedIsDead(db.offers, row.offerId, endHeight, now);
  }

  lemma ClaimStep(cfg: Config, db: Db, f: Flight, inp: Input)
    requires DbGood(cfg, db) && FlightGood(cfg, db.offers, f) && InClaim(f)
    ensures StepGood(cfg, db, ClaimNext(cfg, db, f, inp))
  {
    hide DbGood, StepGood, Captured, GatePassed, Parsed, CommitPoint, ExcessUsed, HasName, OwnerPoint, KernelPoint;
    hide ReplayPoint, ProofAccepted, KernelSeen, BeforeDeath;
    if f.ClaimCommit? {
      CommitStep(cfg, db, f.ctx, f.view, f.kernelHeight);
    } else {
      if f.ClaimReplay? {
        ReplayEndsGood(cfg, db.offers, db.transfers, f.row.offerId, f.proof.excessHex);
      } else if f.ClaimOwner? {
        OwnerGood(cfg, db.offers, db.names, f.ctx);
      } else if f.ClaimKernel? {
        KernelGood(cfg, db.offers, f.ctx, inp.kernelNode);
      }
      QuietStep(cfg, db, ClaimNext(cfg, db, f, inp).flight);
    }
  }

  lemma ReplayEndsGood(cfg: Config, offers: map<string, OfferRow>, transfers: map<string, TransferRow>, id: string,
                       x: string)
    ensures FlightGood(cfg, offers, ReplayPoint(transfers, id, x))
  {
  }

  lemma OwnerGood(cfg: Config, offers: map<string, OfferRow>, names: map<string, NameRow>, c: ClaimCtx)
    requires Captured(offers, c.offer) && GatePassed(cfg, c) && Parsed(c.proof)
    ensures FlightGood(cfg, offers, OwnerPoint(cfg, names, c))
  {
    hide Captured, GatePassed, Parsed, ProofRefusal;
  }

  lemma KernelGood(cfg: Config, offers: map<string, OfferRow>, c: ClaimCtx, node: Option<seq<Endpoint>>)
    requires Captured(offers, c.offer) && GatePassed(cfg, c) && ProofAccepted(cfg, c.offer, c.proof)
    ensures FlightGood(cfg, offers, KernelPoint(cfg, c, node))
  {
    hide Captured, GatePassed, ProofAccepted, Confirmed, HeightForColumn, BeforeDeath;
    if node.Some? && Confirmed(cfg, node.value) { ConfirmedIsOk(cfg, node.value); }
  }
}
