/** The handlers as programs of atomic steps. A request in flight is a Flight: its program
    point with the locals captured so far. Every lock acquisition is one step, every await
    on the chain node is one step, and the claim transaction is one step. */
module Protocol {
  import opened Prelude
  import opened Names
  import opened Proof
  import opened Node
  import opened Tables
  import opened Api

  // What the outside supplies to a step: the wall clock, the node's answers, and which
  // constraint SQLite reports first. Without a configured node both views are None.
  datatype Input = Input(now: int, tipNode: Option<seq<Endpoint>>, kernelNode: Option<seq<Endpoint>>, indexFirst: bool)

  // Who asked for the settlement of an overdue offer.
  datatype Asker = ReadAsks | ClaimAsks(auth: string, proof: PaymentProof)

  // Locals of a claim past the death gate.
  datatype ClaimCtx = ClaimCtx(offer: OfferRow, proof: PaymentProof, now: int, deadEnd: Option<i64>)

  datatype Flight =
    | AvailLookup(name: string)
    | RegLookup(name: string, pubkey: string, auth: string)
    | RegNameOf(name: string, pubkey: string, auth: string)
    | RegUpsert(name: string, pubkey: string, auth: string)
    | UnregLookup(name: string, auth: string)
    | UnregUpdate(name: string, auth: string)
    | LodgeLookup(row: OfferRow)
    | LodgeByName(row: OfferRow)
    | LodgeByAddress(row: OfferRow)
    | LodgeInsert(row: OfferRow)
    | ReadGet(id: string)
    | RevokeGet(id: string, auth: string)
    | RevokeTip(row: OfferRow, now: int)
    | RevokeMark(row: OfferRow, endHeight: Option<i64>, now: int)
    | RevokeFlip(row: OfferRow)
    | ClaimGet(id: string, auth: string, proof: PaymentProof)
    | SettleTip(asker: Asker, row: OfferRow, now: int)
    | SettleMark(asker: Asker, row: OfferRow, endHeight: Option<i64>, now: int)
    | SettleGet(asker: Asker, row: OfferRow, now: int)
    | ClaimReplay(row: OfferRow, proof: PaymentProof)
    | ClaimOwner(ctx: ClaimCtx)
    | ClaimKernel(ctx: ClaimCtx)
    | ClaimExcess(ctx: ClaimCtx, view: seq<Endpoint>, kernelHeight: Option<i64>)
    | ClaimNameOf(ctx: ClaimCtx, view: seq<Endpoint>, kernelHeight: Option<i64>)
    | ClaimCommit(ctx: ClaimCtx, view: seq<Endpoint>, kernelHeight: Option<i64>)
    | Done(reply: Reply, arms: Option<string>)

  // The committed statements that touched the names table.
  datatype Commit =
    | DidRegister(name: string, pubkey: string, registrant: string)
    | DidRelease(name: string, releaser: string)
    | DidTransfer(offerId: string, receipt: TransferRow, proof: PaymentProof, view: seq<Endpoint>)

  datatype Outcome = Outcome(db: Db, flight: Flight, log: seq<Commit>)

  function Refuse(why: Refusal): Flight {
    Done(Refused(why), None)
  }

  function Finish(reply: Reply): Flight {
    Done(reply, None)
  }

  // The validations a handler makes before its first lock.

  function BeginAvailability(cfg: Config, name: string): Flight {
    if !ValidName(name, cfg.nameMin, cfg.nameMax) then Finish(Availability(name, Malformed))
    else if IsReserved(name, RESERVED, cfg.extraReserved) then Finish(Availability(name, ReservedTerm))
    else AvailLookup(name)
  }

  function BeginRegistration(cfg: Config, auth: string, name: string, pubkey: string): Flight {
    if !ValidPubkeyHex(pubkey) then Refuse(InvalidPubkey)
    else if pubkey != auth then Refuse(KeyMismatch)
    else if !ValidName(name, cfg.nameMin, cfg.nameMax) then Refuse(InvalidName)
    else if IsReserved(name, RESERVED, cfg.extraReserved) then Refuse(NameReserved)
    else RegLookup(name, pubkey, auth)
  }

  function BeginLodging(cfg: Config, auth: string, offer: Option<OfferEvent>, now: int): Flight {
    match RowFromEvent(cfg, auth, offer, now)
    case Err(why) => Refuse(why)
    case Ok(row) => LodgeLookup(row)
  }

  function BeginClaim(auth: string, body: ClaimBody): Flight {
    if !ValidOfferId(body.offerId) || body.proof.MissingProof? then Refuse(InvalidBody)
    else if body.proof.UnreadableProof? then Refuse(InvalidProof)
    else ClaimGet(Lower(body.offerId), auth, ParsePaymentProof(body.proof.raw))
  }

  function Begin(cfg: Config, auth: string, target: Target, now: int): Flight {
    match target
    case ToAvailability(name) => BeginAvailability(cfg, Lower(name))
    case ToRegister(None) => Refuse(InvalidBody)
    case ToRegister(Some(body)) => BeginRegistration(cfg, auth, Lower(body.name), Lower(body.pubkey))
    case ToUnregister(name) => UnregLookup(Lower(name), auth)
    case ToLodge(offer) => BeginLodging(cfg, auth, offer, now)
    case ToRead(id) => ReadGet(id)
    case ToRevoke(id) => RevokeGet(id, auth)
    case ToClaim(None) => Refuse(InvalidBody)
    case ToClaim(Some(body)) => BeginClaim(auth, body)
  }

  // The tip as the end_height column stores it; None when the node cannot say.
  function TipForColumn(node: Option<seq<Endpoint>>): Option<i64> {
    match node
    case None => None
    case Some(endpoints) =>
      match TipHeight(endpoints)
      case Err(_) => None
      case Ok(h) => Some(ToI64(h))
  }

  function HeightForColumn(k: KernelResult): Option<i64> {
    match k.height
    case None => None
    case Some(h) => Some(ToI64(h))
  }

  function Settle(cfg: Config, asker: Asker, row: OfferRow, now: int): Flight {
    if row.status != Live || row.expiration >= now then AfterSettle(cfg, asker, row, now)
    else SettleTip(asker, row, now)
  }

  // The claim's grace and death-height gate on the row at hand.
  function DeathGate(cfg: Config, row: OfferRow, now: int): Result<Option<i64>, Refusal> {
    if row.status == Revoked || row.status == Expired then
      if now - row.stateChangedAt.GetOr(now) > cfg.transferClaimGrace || row.endHeight.None? then
        Err(OfferGone(row.status))
      else Ok(row.endHeight)
    else Ok(None)
  }

  function AfterSettle(cfg: Config, asker: Asker, row: OfferRow, now: int): Flight {
    match asker
    case ReadAsks => Finish(OfferView(row.event, row.status))
    case ClaimAsks(auth, proof) =>
      if row.status == Consumed then ClaimReplay(row, proof)
      else
        match DeathGate(cfg, row, now)
        case Err(why) => Refuse(why)
        case Ok(deadEnd) =>
          if auth != row.buyer then Refuse(NotTheBuyer)
          else ClaimOwner(ClaimCtx(row, proof, now, deadEnd))
  }

  // The claim's checks between the owner lookup and the node.
  function ProofRefusal(cfg: Config, row: OfferRow, proof: PaymentProof): Option<Refusal> {
    if !VerifySignatures(cfg.lib, proof) then Some(InvalidProof)
    else if NormalizeGrinAddress(cfg.lib, proof.recipientAddress) != row.proofAddress then Some(AddressMismatch)
    else if row.price < 0 || proof.amount != ToU64(row.price) then Some(AmountMismatch)
    else None
  }

  predicate Confirmed(cfg: Config, view: seq<Endpoint>) {
    && Kernel(view).Ok?
    && Kernel(view).value.found
    && Kernel(view).value.confirmations >= cfg.transferMinConf
  }

  lemma ConfirmedIsOk(cfg: Config, view: seq<Endpoint>)
    requires Confirmed(cfg, view)
    ensures Kernel(view).Ok?
  {
  }

  predicate BeforeDeath(deadEnd: Option<i64>, kernelHeight: Option<i64>) {
    deadEnd.Some? ==> kernelHeight.Some? && kernelHeight.value <= deadEnd.value
  }

  // ------------------------------------------------ the steps, one function a program point

  function UpsertPoint(db: Db, name: string, pubkey: string, auth: string, inp: Input): Outcome {
    match UpsertResultOf(db.names, name, pubkey, inp.indexFirst)
    case NoRow => Outcome(db, Refuse(NameTaken), [])
    case ConstraintError => Outcome(db, Refuse(KeyHasName(None)), [])
    case Written =>
      Outcome(db.(names := UpsertName(db.names, name, pubkey, inp.now)), Finish(Registered(true, name)),
              [DidRegister(name, pubkey, auth)])
  }

  function ReleasePoint(db: Db, name: string, auth: string, inp: Input): Outcome {
    Outcome(db.(names := ReleaseName(db.names, name, inp.now)), Done(Released(name), Some(auth)),
            if Active(db.names, name) then [DidRelease(name, auth)] else [])
  }

  function InsertPoint(db: Db, row: OfferRow): Outcome {
    Outcome(db.(offers := InsertOffer(db.offers, row)),
            if row.offerId in db.offers then Refuse(OfferExists)
            else Finish(Lodged(row.offerId, row.name, row.expiration)), [])
  }

  function RevokePoint(offers: map<string, OfferRow>, id: string, auth: string, now: int): Flight {
    if id !in offers then Refuse(OfferNotFound)
    else if auth != offers[id].seller then Refuse(NotTheOwner)
    else
      match offers[id].status
      case Consumed => Refuse(OfferConsumed)
      case Revoked => Finish(RevokedOffer(id))
      case Live => RevokeTip(offers[id], now)
      case Expired => RevokeFlip(offers[id])
  }

  function ReplayPoint(transfers: map<string, TransferRow>, id: string, excess: string): Flight {
    if id in transfers && transfers[id].excess == excess
    then Finish(Claimed(false, transfers[id].name, transfers[id].buyer))
    else Refuse(OfferConsumed)
  }

  function OwnerPoint(cfg: Config, names: map<string, NameRow>, c: ClaimCtx): Flight {
    if Lookup(names, c.offer.name) != Some(c.offer.seller) then Refuse(OwnerHasChanged)
    else
      match ProofRefusal(cfg, c.offer, c.proof)
      case Some(why) => Refuse(why)
      case None => ClaimKernel(c)
  }

  function KernelPoint(cfg: Config, c: ClaimCtx, node: Option<seq<Endpoint>>): Flight {
    if node.None? || !Confirmed(cfg, node.value) then Refuse(PaymentUnconfirmed)
    else
      var kernelHeight := HeightForColumn(Kernel(node.value).value);
      if BeforeDeath(c.deadEnd, kernelHeight) then ClaimExcess(c, node.value, kernelHeight)
      else Refuse(OfferGone(c.offer.status))
  }

  function CommitPoint(db: Db, c: ClaimCtx, view: seq<Endpoint>, kernelHeight: Option<i64>): Outcome {
    match ClaimResult(db, c.offer, c.proof.excessHex)
    case OwnerChanged => Outcome(db, Refuse(OwnerHasChanged), [])
    case BuyerHasName => Outcome(db, Refuse(KeyHasName(None)), [])
    case Reused => Outcome(db, Refuse(ProofReused), [])
    case Committed =>
      Outcome(ClaimTxn(db, c.offer, c.proof.excessHex, kernelHeight, c.now),
              Done(Claimed(true, c.offer.name, c.offer.buyer), Some(c.offer.seller)),
              [DidTransfer(c.offer.offerId, ReceiptOf(c.offer, c.proof.excessHex, kernelHeight, c.now), c.proof, view)])
  }

  // A step that reads and moves on.
  function Reads(db: Db, f: Flight): Outcome {
    Outcome(db, f, [])
  }

  predicate InRegistry(f: Flight) {
    f.AvailLookup? || f.RegLookup? || f.RegNameOf? || f.RegUpsert? || f.UnregLookup? || f.UnregUpdate?
  }

  ghost function RegistryNext(db: Db, f: Flight, inp: Input): Outcome
    requires InRegistry(f)
  {
    match f
    case AvailLookup(name) =>
      Reads(db, Finish(Availability(name, if Lookup(db.names, name).Some? then Taken else Available)))
    case RegLookup(name, pubkey, auth) =>
      Reads(db, match Lookup(db.names, name)
                case Some(owner) => if owner == pubkey then Finish(Registered(false, name)) else Refuse(NameTaken)
                case None => RegNameOf(name, pubkey, auth))
    case RegNameOf(name, pubkey, auth) =>
      Reads(db, if NameOf(db.names, pubkey).Some? then Refuse(KeyHasName(NameOf(db.names, pubkey)))
                else RegUpsert(name, pubkey, auth))
    case RegUpsert(name, pubkey, auth) => UpsertPoint(db, name, pubkey, auth, inp)
    case UnregLookup(name, auth) =>
      Reads(db, match Lookup(db.names, name)
                case None => Refuse(NameNotFound)
                case Some(owner) => if owner == auth then UnregUpdate(name, auth) else Refuse(NotTheOwner))
    case UnregUpdate(name, auth) => ReleasePoint(db, name, auth, inp)
  }

  predicate InLodging(f: Flight) {
    f.LodgeLookup? || f.LodgeByName? || f.LodgeByAddress? || f.LodgeInsert?
  }

  ghost function LodgingNext(db: Db, f: Flight): Outcome
    requires InLodging(f)
  {
    match f
    case LodgeLookup(row) =>
      Reads(db, if Lookup(db.names, row.name) == Some(row.seller) then LodgeByName(row) else Refuse(NotTheOwner))
    case LodgeByName(row) =>
      Reads(db, if LiveOfferForName(db.offers, row.name, row.createdAt) then Refuse(OfferExists)
                else LodgeByAddress(row))
    case LodgeByAddress(row) =>
      Reads(db, if LiveOfferBinding(db.offers, row.proofAddress, row.createdAt) then Refuse(OfferAmbiguous)
                else LodgeInsert(row))
    case LodgeInsert(row) => InsertPoint(db, row)
  }

  predicate InRevocation(f: Flight) {
    f.RevokeGet? || f.RevokeTip? || f.RevokeMark? || f.RevokeFlip?
  }

  ghost function RevocationNext(db: Db, f: Flight, inp: Input): Outcome
    requires InRevocation(f)
  {
    match f
    case RevokeGet(id, auth) => Reads(db, RevokePoint(db.offers, id, auth, inp.now))
    case RevokeTip(row, now) => Reads(db, RevokeMark(row, TipForColumn(inp.tipNode), now))
    case RevokeMark(row, endHeight, now) =>
      Outcome(db.(offers := MarkOfferDead(db.offers, row.offerId, Revoked, endHeight, now)),
              Finish(RevokedOffer(row.offerId)), [])
    case RevokeFlip(row) =>
      Outcome(db.(offers := SetStatus(db.offers, row.offerId, Revoked)), Finish(RevokedOffer(row.offerId)), [])
  }

  predicate InSettlement(f: Flight) {
    f.ReadGet? || f.ClaimGet? || f.SettleTip? || f.SettleMark? || f.SettleGet?
  }

  ghost function SettlementNext(cfg: Config, db: Db, f: Flight, inp: Input): Outcome
    requires InSettlement(f)
  {
    match f
    case ReadGet(id) =>
      Reads(db, if id in db.offers then Settle(cfg, ReadAsks, db.offers[id], inp.now) else Refuse(OfferNotFound))
    case ClaimGet(id, auth, proof) =>
      Reads(db, if id in db.offers then Settle(cfg, ClaimAsks(auth, proof), db.offers[id], inp.now)
                else Refuse(OfferNotFound))
    case SettleTip(asker, row, now) => Reads(db, SettleMark(asker, row, TipForColumn(inp.tipNode), now))
    case SettleMark(asker, row, endHeight, now) =>
      Outcome(db.(offers := MarkOfferDead(db.offers, row.offerId, Expired, endHeight, now)), SettleGet(asker, row, now),
              [])
    case SettleGet(asker, row, now) =>
      Reads(db, AfterSettle(cfg, asker, if row.offerId in db.offers then db.offers[row.offerId] else row, now))
  }

  predicate InClaim(f: Flight) {
    f.ClaimReplay? || f.ClaimOwner? || f.ClaimKernel? || f.ClaimExcess? || f.ClaimNameOf? || f.ClaimCommit?
  }

  ghost function ClaimNext(cfg: Config, db: Db, f: Flight, inp: Input): Outcome
    requires InClaim(f)
  {
    match f
    case ClaimReplay(row, proof) => Reads(db, ReplayPoint(db.transfers, row.offerId, proof.excessHex))
    case ClaimOwner(c) => Reads(db, OwnerPoint(cfg, db.names, c))
    case ClaimKernel(c) => Reads(db, KernelPoint(cfg, c, inp.kernelNode))
    case ClaimExcess(c, view, kernelHeight) =>
      Reads(db, if ExcessUsed(db.transfers, c.proof.excessHex) then Refuse(ProofReused)
                else ClaimNameOf(c, view, kernelHeight))
    case ClaimNameOf(c, view, kernelHeight) =>
      Reads(db, if NameOf(db.names, c.offer.buyer).Some? then Refuse(KeyHasName(NameOf(db.names, c.offer.buyer)))
                else ClaimCommit(c, view, kernelHeight))
    case ClaimCommit(c, view, kernelHeight) => CommitPoint(db, c, view, kernelHeight)
  }

  // One step of a request, whichever handler it is in.
  ghost function Next(cfg: Config, db: Db, f: Flight, inp: Input): Outcome {
    if InRegistry(f) then RegistryNext(db, f, inp)
    else if InLodging(f) then LodgingNext(db, f)
    else if InRevocation(f) then RevocationNext(db, f, inp)
    else if InSettlement(f) then SettlementNext(cfg, db, f, inp)
    else if InClaim(f) then ClaimNext(cfg, db, f, inp)
    else Reads(db, f)
  }

  // Steps still ahead of a flight, at most.
  function StepsLeft(f: Flight): nat {
    match f
    case Done(_, _) => 0
    case AvailLookup(_) => 1
    case RegLookup(_, _, _) => 3
    case RegNameOf(_, _, _) => 2
    case RegUpsert(_, _, _) => 1
    case UnregLookup(_, _) => 2
    case UnregUpdate(_, _) => 1
    case LodgeLookup(_) => 4
    case LodgeByName(_) => 3
    case LodgeByAddress(_) => 2
    case LodgeInsert(_) => 1
    case ReadGet(_) => 9
    case RevokeGet(_, _) => 3
    case RevokeTip(_, _) => 2
    case RevokeMark(_, _, _) => 1
    case RevokeFlip(_) => 1
    case ClaimGet(_, _, _) => 9
    case SettleTip(_, _, _) => 8
    case SettleMark(_, _, _, _) => 7
    case SettleGet(_, _, _) => 6
    case ClaimReplay(_, _) => 1
    case ClaimOwner(_) => 5
    case ClaimKernel(_) => 4
    case ClaimExcess(_, _, _) => 3
    case ClaimNameOf(_, _, _) => 2
    case ClaimCommit(_, _, _) => 1
  }

  lemma SettlingCountsDown(cfg: Config, asker: Asker, row: OfferRow, now: int)
    ensures StepsLeft(AfterSettle(cfg, asker, row, now)) <= 5
    ensures StepsLeft(Settle(cfg, asker, row, now)) <= 8
  {
    hide DeathGate;
  }

  lemma ClaimCountsDown(cfg: Config, db: Db, f: Flight, inp: Input)
    requires InClaim(f)
    ensures StepsLeft(ClaimNext(cfg, db, f, inp).flight) < StepsLeft(f)
  {
    hide ProofRefusal, Confirmed, HeightForColumn, ClaimResult, ExcessUsed, HasName, BeforeDeath, ClaimTxn;
  }

  lemma SettlementCountsDown(cfg: Config, db: Db, f: Flight, inp: Input)
    requires InSettlement(f)
    ensures StepsLeft(SettlementNext(cfg, db, f, inp).flight) < StepsLeft(f)
  {
    hide TipForColumn, AfterSettle, Settle, MarkOfferDead;
    match f {
      case ReadGet(id) => if id in db.offers { SettlingCountsDown(cfg, ReadAsks, db.offers[id], inp.now); }
      case ClaimGet(id, auth, proof) =>
        if id in db.offers { SettlingCountsDown(cfg, ClaimAsks(auth, proof), db.offers[id], inp.now); }
      case SettleGet(asker, row, now) =>
        SettlingCountsDown(cfg, asker, if row.offerId in db.offers then db.offers[row.offerId] else row, now);
      case _ =>
    }
  }

  lemma RegistryCountsDown(db: Db, f: Flight, inp: Input)
    requires InRegistry(f)
    ensures StepsLeft(RegistryNext(db, f, inp).flight) < StepsLeft(f)
  {
    hide UpsertResultOf, UpsertName, HasName, ReleaseName;
  }

  lemma LodgingCountsDown(db: Db, f: Flight)
    requires InLodging(f)
    ensures StepsLeft(LodgingNext(db, f).flight) < StepsLeft(f)
  {
    hide LiveOfferForName, LiveOfferBinding, InsertOffer;
  }

  lemma RevocationCountsDown(db: Db, f: Flight, inp: Input)
    requires InRevocation(f)
    ensures StepsLeft(RevocationNext(db, f, inp).flight) < StepsLeft(f)
  {
    hide TipForColumn, MarkOfferDead, SetStatus;
  }

  lemma StepsCountDown(cfg: Config, db: Db, f: Flight, inp: Input)
    requires !f.Done?
    ensures StepsLeft(Next(cfg, db, f, inp).flight) < StepsLeft(f)
  {
    hide RegistryNext, LodgingNext, RevocationNext, SettlementNext, ClaimNext, StepsLeft;
    if InRegistry(f) {
      RegistryCountsDown(db, f, inp);
    } else if InLodging(f) {
      LodgingCountsDown(db, f);
    } else if InRevocation(f) {
      RevocationCountsDown(db, f, inp);
    } else if InSettlement(f) {
      SettlementCountsDown(cfg, db, f, inp);
    } else {
      ClaimCountsDown(cfg, db, f, inp);
    }
  }
}
