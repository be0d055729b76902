/** Theorems over every interleaving: what holds after any sequence of actions. */
module AnyRun {
  import opened Prelude
  import opened Names
  import Domain
  import opened Proof
  import opened Node
  import opened Tables
  import opened Api
  import opened Protocol
  import opened Interleaving
  import opened Listings
  import opened Payments

  // ---------------------------------------------------------------- soundness of every run

  lemma ReplayAppend(log: seq<Commit>, e: Commit)
    ensures ReplayOwners(log + [e]) == ApplyOwner(ReplayOwners(log), e)
    ensures ReplayReceipts(log + [e]) == ApplyReceipt(ReplayReceipts(log), e)
  {
    assert (log + [e])[..|log|] == log;
  }

  lemma LawfulStays(cfg: Config, before: map<string, OfferRow>, after: map<string, OfferRow>,
                    owners: map<string, string>, receipts: map<string, TransferRow>, e: Commit)
    requires Lawful(cfg, before, owners, receipts, e) && OffersLater(before, after)
    ensures Lawful(cfg, after, owners, receipts, e)
  {
    hide GoodName;
    if e.DidTransfer? {
      BackedStays(cfg, before[e.offerId], after[e.offerId], e.receipt, e.proof, e.view);
    }
  }

  lemma BackedStays(cfg: Config, a: OfferRow, b: OfferRow, t: TransferRow, proof: PaymentProof, view: seq<Endpoint>)
    requires Backed(cfg, a, t, proof, view) && Later(a, b)
    ensures Backed(cfg, b, t, proof, view)
  {
    hide KernelSeen, VerifySignatures, NormalizeGrinAddress, Parsed;
    assert a.Lodged().expiration == a.expiration;
    assert a.Lodged().price == a.price && a.Lodged().proofAddress == a.proofAddress;
    assert a.Lodged().name == a.name && a.Lodged().seller == a.seller && a.Lodged().buyer == a.buyer;
  }

  lemma {:induction false} LogStays(cfg: Config, before: map<string, OfferRow>, after: map<string, OfferRow>,
                                    log: seq<Commit>)
    requires LogLawful(cfg, before, log) && OffersLater(before, after)
    ensures LogLawful(cfg, after, log)
  {
    hide Lawful, OffersLater;
    if log != [] {
      var prefix := log[..|log| - 1];
      LogStays(cfg, before, after, prefix);
      LawfulStays(cfg, before, after, ReplayOwners(prefix), ReplayReceipts(prefix), log[|log| - 1]);
    }
  }

  lemma StartSound(cfg: Config)
    ensures Sound(cfg, Start)
  {
  }

  lemma ArriveSound(cfg: Config, w: World, auth: string, target: Target, now: int)
    requires Sound(cfg, w)
    ensures Sound(cfg, Do(cfg, w, Arrive(auth, target, now)))
  {
    hide DbGood, FlightGood, LogLawful, Begin;
    BeginGood(cfg, w.db.offers, auth, target, now);
  }

  lemma AdvanceSound(cfg: Config, w: World, who: nat, inp: Input)
    requires Sound(cfg, w) && who < |w.flights|
    ensures Sound(cfg, Do(cfg, w, Advance(who, inp)))
    ensures DbLater(w.db, Do(cfg, w, Advance(who, inp)).db)
  {
    hide DbGood, FlightGood, Next, Lawful, OffersLater, Owners;
    var out := Next(cfg, w.db, w.flights[who], inp);
    NextGood(cfg, w.db, w.flights[who], inp);
    forall i | 0 <= i < |w.flights| ensures FlightGood(cfg, out.db.offers, w.flights[i]) {
      FlightStays(cfg, w.db.offers, out.db.offers, w.flights[i]);
    }
    LogStays(cfg, w.db.offers, out.db.offers, w.log);
    if out.log == [] {
      assert w.log + out.log == w.log;
    } else {
      assert out.log == [out.log[0]];
      LawfulStays(cfg, w.db.offers, out.db.offers, Owners(w.db.names), w.db.transfers, out.log[0]);
      ReplayAppend(w.log, out.log[0]);
      assert (w.log + out.log)[..|w.log|] == w.log;
    }
  }

  lemma DoSound(cfg: Config, w: World, a: Action)
    requires Sound(cfg, w)
    ensures Sound(cfg, Do(cfg, w, a)) && DbLater(w.db, Do(cfg, w, a).db)
  {
    hide Sound;
    match a {
      case Arrive(auth, target, now) => ArriveSound(cfg, w, auth, target, now);
      case Advance(who, inp) =>
        if who < |w.flights| { AdvanceSound(cfg, w, who, inp); }
    }
  }

  lemma {:induction false} ExecSound(cfg: Config, w: World, acts: seq<Action>)
    requires Sound(cfg, w)
    ensures Sound(cfg, Exec(cfg, w, acts)) && DbLater(w.db, Exec(cfg, w, acts).db)
  {
    hide Sound, Do;
    if acts != [] {
      var before := Exec(cfg, w, acts[..|acts| - 1]);
      ExecSound(cfg, w, acts[..|acts| - 1]);
      DoSound(cfg, before, acts[|acts| - 1]);
      LaterTransitive(w.db, before.db, Exec(cfg, w, acts).db);
    }
  }

  lemma LaterTransitive(a: Db, b: Db, c: Db)
    requires DbLater(a, b) && DbLater(b, c)
    ensures DbLater(a, c)
  {
    forall id | id in a.offers ensures id in c.offers && Later(a.offers[id], c.offers[id]) {
      assert Later(a.offers[id], b.offers[id]) && Later(b.offers[id], c.offers[id]);
    }
    assert forall id :: id in a.offers ==> id in b.offers;
  }

  lemma EveryRunIsSound(cfg: Config, acts: seq<Action>)
    ensures Sound(cfg, Exec(cfg, Start, acts))
  {
    StartSound(cfg);
    ExecSound(cfg, Start, acts);
  }

  // ---------------------------------------------------------------- the log explains the names table

  lemma {:induction false} LogPrefixLawful(cfg: Config, offers: map<string, OfferRow>, log: seq<Commit>, i: nat)
    requires LogLawful(cfg, offers, log) && i <= |log|
    ensures LogLawful(cfg, offers, log[..i])
    ensures i < |log| ==> Lawful(cfg, offers, ReplayOwners(log[..i]), ReplayReceipts(log[..i]), log[i])
    ensures i < |log| ==> ReplayOwners(log[..i + 1]) == ApplyOwner(ReplayOwners(log[..i]), log[i])
    ensures i < |log| ==> ReplayReceipts(log[..i + 1]) == ApplyReceipt(ReplayReceipts(log[..i]), log[i])
  {
    hide Lawful, ApplyOwner, ApplyReceipt;
    if i == |log| {
      assert log[..i] == log;
    } else if i == |log| - 1 {
      assert log[..i + 1] == log;
    } else {
      var prefix := log[..|log| - 1];
      LogPrefixLawful(cfg, offers, prefix, i);
      assert prefix[..i] == log[..i] && prefix[..i + 1] == log[..i + 1] && prefix[i] == log[i];
    }
  }

  // The names table is the replay of the committed changes.
  lemma LogRebuildsNames(cfg: Config, acts: seq<Action>, name: string)
    ensures var w := Exec(cfg, Start, acts);
            Lookup(w.db.names, name) == if name in ReplayOwners(w.log) then Some(ReplayOwners(w.log)[name]) else None
  {
    hide DbGood, FlightGood, LogLawful;
    EveryRunIsSound(cfg, acts);
  }

  predicate Frees(e: Commit, name: string) {
    e.DidRelease? && e.name == name
  }

  // One entry of the log: ownership starts by a registration, ends by a release, and
  // moves only by a claim whose stored, genuine offer names both sides.
  lemma OwnerStep(cfg: Config, acts: seq<Action>, i: nat, name: string)
    requires i < |Exec(cfg, Start, acts).log|
    ensures var w := Exec(cfg, Start, acts);
            var before, after := ReplayOwners(w.log[..i]), ReplayOwners(w.log[..i + 1]);
            && (name !in before && name in after ==> w.log[i] == DidRegister(name, after[name], after[name]))
            && (name in before && name !in after ==> Frees(w.log[i], name))
            && (name in before && name in after && before[name] != after[name] ==>
                  && w.log[i].DidTransfer? && w.log[i].offerId in w.db.offers
                  && var o := w.db.offers[w.log[i].offerId];
                     o.name == name && o.seller == before[name] && o.buyer == after[name] && Genuine(cfg, o))
  {
    hide Genuine, GoodName, FlightGood, Constraints, RecordOk, ProofAccepted, KernelSeen;
    var w := Exec(cfg, Start, acts);
    EveryRunIsSound(cfg, acts);
    LogPrefixLawful(cfg, w.db.offers, w.log, i);
  }

  // Across any stretch of the log without a release of the name: the owner at the end is
  // the owner at the start, or bought the name in the stretch from whoever owned it then.
  lemma {:induction false} OwnershipChain(cfg: Config, acts: seq<Action>, i: nat, j: nat, name: string)
    requires i <= j <= |Exec(cfg, Start, acts).log|
    requires name in ReplayOwners(Exec(cfg, Start, acts).log[..i])
    requires forall k :: i <= k < j ==> !Frees(Exec(cfg, Start, acts).log[k], name)
    ensures var w := Exec(cfg, Start, acts);
            var before, after := ReplayOwners(w.log[..i]), ReplayOwners(w.log[..j]);
            && name in after
            && (after[name] != before[name] ==>
                  exists k :: i <= k < j && Handover(w, k, name, after[name]))
    decreases j
  {
    hide Sound, Exec, Genuine, ReplayOwners;
    if i < j {
      var w := Exec(cfg, Start, acts);
      OwnershipChain(cfg, acts, i, j - 1, name);
      OwnerStep(cfg, acts, j - 1, name);
      var mid, after := ReplayOwners(w.log[..j - 1]), ReplayOwners(w.log[..j]);
      if after[name] != mid[name] {
        assert Handover(w, j - 1, name, after[name]);
      }
    }
  }

  // Entry k is a claim of a stored offer that moved the name from its owner then to `buyer`.
  ghost predicate Handover(w: World, k: nat, name: string, buyer: string) {
    && k < |w.log| && w.log[k].DidTransfer? && w.log[k].offerId in w.db.offers
    && var o := w.db.offers[w.log[k].offerId];
       && o.name == name && o.buyer == buyer
       && name in ReplayOwners(w.log[..k]) && o.seller == ReplayOwners(w.log[..k])[name]
  }

  function Registrations(log: seq<Commit>): nat {
    if log == [] then 0 else Registrations(log[..|log| - 1]) + if log[|log| - 1].DidRegister? then 1 else 0
  }

  function Releases(log: seq<Commit>): nat {
    if log == [] then 0 else Releases(log[..|log| - 1]) + if log[|log| - 1].DidRelease? then 1 else 0
  }

  // Names are conserved: the active ones are the registrations less the releases, and
  // transfers neither make nor lose one.
  lemma {:induction false} ActiveNamesConserved(cfg: Config, acts: seq<Action>)
    ensures var w := Exec(cfg, Start, acts);
            |Owners(w.db.names)| == Registrations(w.log) - Releases(w.log)
  {
    hide DbGood, FlightGood, LogLawful;
    var w := Exec(cfg, Start, acts);
    EveryRunIsSound(cfg, acts);
    CountOwners(cfg, w.db.offers, w.log);
  }

  lemma {:induction false} CountOwners(cfg: Config, offers: map<string, OfferRow>, log: seq<Commit>)
    requires LogLawful(cfg, offers, log)
    ensures |ReplayOwners(log)| == Registrations(log) - Releases(log)
  {
    hide GoodName, Backed;
    if log != [] {
      var prefix, e := log[..|log| - 1], log[|log| - 1];
      CountOwners(cfg, offers, prefix);
      var owners := ReplayOwners(prefix);
      match e {
        case DidRegister(name, pubkey, _) => assert ReplayOwners(log).Keys == owners.Keys + {name};
        case DidRelease(name, _) => assert ReplayOwners(log).Keys == owners.Keys - {name};
        case DidTransfer(_, t, _, _) => assert ReplayOwners(log).Keys == owners.Keys;
      }
    }
  }

  // ---------------------------------------------------------------- durable single use

  lemma DurableSingleUse(cfg: Config, acts: seq<Action>, a: string, b: string)
    requires a in Exec(cfg, Start, acts).db.transfers && b in Exec(cfg, Start, acts).db.transfers
    ensures var db := Exec(cfg, Start, acts).db;
            && (db.transfers[a].excess == db.transfers[b].excess ==> a == b)
            && (HexDecode(db.transfers[a].excess) == HexDecode(db.transfers[b].excess) ==> a == b)
            && a in db.offers && ReceiptFits(db.transfers[a], db.offers[a])
  {
    hide Genuine, GoodName, FlightGood, RecordOk;
    var w := Exec(cfg, Start, acts);
    EveryRunIsSound(cfg, acts);
    var ka := ReceiptEntry(cfg, w.db.offers, w.log, a);
    var kb := ReceiptEntry(cfg, w.db.offers, w.log, b);
    if HexDecode(w.db.transfers[a].excess) == HexDecode(w.db.transfers[b].excess) {
      AcceptedExcess(cfg, w.db.offers[a], w.log[ka].proof);
      LowerHexInjective(w.db.transfers[a].excess, w.db.transfers[b].excess);
    }
  }

  lemma AcceptedExcess(cfg: Config, o: OfferRow, proof: PaymentProof)
    requires ProofAccepted(cfg, o, proof)
    ensures Lower(proof.excessHex) == proof.excessHex && HexDecode(proof.excessHex).Some?
  {
  }

  // A consumed offer has its receipt, whatever happens to the offer's status afterwards.
  lemma ConsumedHasReceipt(cfg: Config, acts: seq<Action>, more: seq<Action>, id: string)
    requires id in Exec(cfg, Start, acts).db.offers && Exec(cfg, Start, acts).db.offers[id].status == Consumed
    ensures var w := Exec(cfg, Start, acts);
            var later := Exec(cfg, w, more);
            id in w.db.transfers && id in later.db.transfers && later.db.transfers[id] == w.db.transfers[id]
  {
    hide OffersGood, NamesGood, FlightGood, LogLawful;
    EveryRunIsSound(cfg, acts);
    ExecSound(cfg, Exec(cfg, Start, acts), more);
  }

  // Each receipt was written by exactly one entry of the log.
  lemma {:induction false} ReceiptEntry(cfg: Config, offers: map<string, OfferRow>, log: seq<Commit>, id: string)
    returns (k: nat)
    requires LogLawful(cfg, offers, log) && id in ReplayReceipts(log)
    ensures k < |log| && log[k].DidTransfer? && log[k].offerId == id && log[k].receipt == ReplayReceipts(log)[id]
    ensures id in offers && Backed(cfg, offers[id], log[k].receipt, log[k].proof, log[k].view)
    ensures forall i :: 0 <= i < |log| && log[i].DidTransfer? && log[i].offerId == id ==> i == k
  {
    hide GoodName, Backed;
    var n := |log| - 1;
    var prefix := log[..n];
    if id in ReplayReceipts(prefix) {
      k := ReceiptEntry(cfg, offers, prefix, id);
      assert forall i :: 0 <= i < n ==> prefix[i] == log[i];
    } else {
      k := n;
      NoEntry(prefix, id);
      assert forall i :: 0 <= i < n ==> prefix[i] == log[i];
    }
  }

  lemma {:induction false} NoEntry(log: seq<Commit>, id: string)
    requires id !in ReplayReceipts(log)
    ensures forall i :: 0 <= i < |log| && log[i].DidTransfer? ==> log[i].offerId != id
  {
    if log != [] {
      var prefix := log[..|log| - 1];
      NoEntry(prefix, id);
      assert forall i :: 0 <= i < |prefix| ==> prefix[i] == log[i];
    }
  }

  // ---------------------------------------------------------------- the payment behind a receipt

  // What a receipt rests on, in terms of the offer's own tags, the proof's own fields and
  // the node's own answers.
  ghost predicate PaidFor(cfg: Config, o: OfferRow, t: TransferRow, proof: PaymentProof, view: seq<Endpoint>) {
    && Signed(cfg.lib, proof)
    && Lower(cfg.lib.trim(proof.recipientAddress)) == o.proofAddress
    && proof.excessHex == t.excess && Lower(t.excess) == t.excess
    && SignedAt(cfg, o.event, proof.amount) && proof.amount < TWO63 && o.price == proof.amount
    && KernelReported(view, cfg.transferMinConf, t.kernelHeight)
  }

  // Every receipt rests on a proof that recipient and sender both signed, over one message
  // of amount, excess and sender, paid to the offer's address for exactly the price the
  // seller signed, which is below 2^63; and on a kernel that the first endpoint to answer
  // reported at the recorded height, with the required number of blocks up to its tip.
  lemma {:induction false} PaymentWitness(cfg: Config, acts: seq<Action>, id: string)
    returns (proof: PaymentProof, view: seq<Endpoint>)
    requires id in Exec(cfg, Start, acts).db.transfers
    ensures var db := Exec(cfg, Start, acts).db;
            id in db.offers && PaidFor(cfg, db.offers[id], db.transfers[id], proof, view)
  {
    hide FlightGood, Constraints, PaidFor, Backed, DbGood, Lawful, Genuine;
    var w := Exec(cfg, Start, acts);
    EveryRunIsSound(cfg, acts);
    var k := ReceiptEntry(cfg, w.db.offers, w.log, id);
    proof, view := w.log[k].proof, w.log[k].view;
    StoredGenuine(cfg, w.db, id);
    BackedIsPaid(cfg, w.db.offers[id], w.db.transfers[id], proof, view);
  }

  lemma StoredGenuine(cfg: Config, db: Db, id: string)
    requires DbGood(cfg, db) && id in db.offers
    ensures Genuine(cfg, db.offers[id]) && RecordOk(db.offers[id])
  {
    hide Genuine, GoodName;
  }

  lemma BackedIsPaid(cfg: Config, o: OfferRow, t: TransferRow, proof: PaymentProof, view: seq<Endpoint>)
    requires Backed(cfg, o, t, proof, view) && Genuine(cfg, o)
    ensures PaidFor(cfg, o, t, proof, view)
  {
    hide Genuine, Signed, VerifySignatures, Lower, Confirmed, HeightForColumn, KernelReported, SignedAt;
    hide SignedPrice, InTime;
    StoredPrice(cfg, o);
    SignedPriceIff(cfg, o.event, SignedPrice(cfg, o.event).value);
    PriceRoundTrip(SignedPrice(cfg, o.event).value, proof.amount);
    SignedIff(cfg.lib, proof);
    ConfirmedIff(cfg, view, t.kernelHeight);
  }

  // Every stored offer is what the tags of its signed event say, column by column.
  lemma OffersList(cfg: Config, acts: seq<Action>, id: string)
    requires id in Exec(cfg, Start, acts).db.offers
    ensures var o := Exec(cfg, Start, acts).db.offers[id];
            o.offerId == id && Lists(cfg, o.event, o.createdAt, o.Lodged())
  {
    hide Genuine, FlightGood, LogLawful, Exec, DbGood, Lists;
    var w := Exec(cfg, Start, acts);
    EveryRunIsSound(cfg, acts);
    StoredGenuine(cfg, w.db, id);
    StoredById(cfg, w.db, id);
    GenuineLists(cfg, w.db.offers[id]);
  }

  lemma StoredById(cfg: Config, db: Db, id: string)
    requires DbGood(cfg, db) && id in db.offers
    ensures db.offers[id].offerId == id
  {
    hide Genuine, GoodName;
  }

  lemma GenuineLists(cfg: Config, o: OfferRow)
    requires Genuine(cfg, o)
    ensures Lists(cfg, o.event, o.createdAt, o.Lodged())
  {
    hide RowFromEvent, Lists;
    ListedIff(cfg, o.seller, o.event, o.createdAt, o.Lodged());
  }

  lemma StoredPrice(cfg: Config, o: OfferRow)
    requires Genuine(cfg, o)
    ensures SignedPrice(cfg, o.event).Some? && o.price == ToI64(SignedPrice(cfg, o.event).value)
  {
    assert o.Lodged().price == o.price;
  }

  // An offer priced at 2^63 or more can be lodged, and is never claimed.
  lemma HugePriceNeverClaimed(cfg: Config, acts: seq<Action>, id: string)
    requires id in Exec(cfg, Start, acts).db.offers
    requires SignedPrice(cfg, Exec(cfg, Start, acts).db.offers[id].event).Some?
    requires SignedPrice(cfg, Exec(cfg, Start, acts).db.offers[id].event).value >= TWO63
    ensures id !in Exec(cfg, Start, acts).db.transfers
    ensures Exec(cfg, Start, acts).db.offers[id].status != Consumed
  {
    hide SignedPrice, Exec, SignedAt;
    if id in Exec(cfg, Start, acts).db.transfers {
      var proof, view := PaymentWitness(cfg, acts, id);
      var e := Exec(cfg, Start, acts).db.offers[id].event;
      SignedPriceIff(cfg, e, SignedPrice(cfg, e).value);
      OnePrice(cfg, e, SignedPrice(cfg, e).value, proof.amount);
    }
    if Exec(cfg, Start, acts).db.offers[id].status == Consumed {
      ConsumedHasReceipt(cfg, acts, [], id);
    }
  }

  // ---------------------------------------------------------------- the death record

  // Terms never change, no row comes back to life, and the death record is written at
  // most once: empty while live, set for every expired or revoked row, then frozen.
  lemma WriteOnceDeathRecord(cfg: Config, acts: seq<Action>, more: seq<Action>, id: string)
    requires id in Exec(cfg, Start, acts).db.offers
    ensures id in Exec(cfg, Exec(cfg, Start, acts), more).db.offers
    ensures var a, b := Exec(cfg, Start, acts).db.offers[id], Exec(cfg, Exec(cfg, Start, acts), more).db.offers[id];
            && RecordOk(a) && RecordOk(b) && Genuine(cfg, a)
            && a.Lodged() == b.Lodged()
            && (b.status == Live ==> a == b)
            && (a.status != Live ==> b.stateChangedAt == a.stateChangedAt && b.endHeight == a.endHeight)
            && (a.stateChangedAt.Some? ==> b.stateChangedAt == a.stateChangedAt && b.endHeight == a.endHeight)
  {
    hide Genuine, NamesGood, FlightGood, LogLawful, Constraints, ReceiptsGood;
    EveryRunIsSound(cfg, acts);
    ExecSound(cfg, Exec(cfg, Start, acts), more);
  }

  // The row this step would judge, if it gets that far: the one read, or read back after
  // its settlement.
  function Judged(db: Db, f: Flight, now: int): Option<OfferRow> {
    match f
    case ReadGet(id) => JudgedAtOnce(db, id, now)
    case ClaimGet(id, _, _) => JudgedAtOnce(db, id, now)
    case SettleGet(_, row, _) => Some(if row.offerId in db.offers then db.offers[row.offerId] else row)
    case _ => None
  }

  function JudgedAtOnce(db: Db, id: string, now: int): Option<OfferRow> {
    if id in db.offers && (db.offers[id].status != Live || db.offers[id].expiration >= now) then Some(db.offers[id])
    else None
  }

  function AskerOf(f: Flight): Asker {
    match f
    case ClaimGet(_, auth, proof) => ClaimAsks(auth, proof)
    case SettleGet(asker, _, _) => asker
    case _ => ReadAsks
  }

  function ClockOf(f: Flight, inp: Input): int {
    if f.SettleGet? then f.now else inp.now
  }

  // The death gate with the fallback to `now` replaced by anything at all.
  function GateWithFallback(cfg: Config, row: OfferRow, now: int, fallback: int): Result<Option<i64>, Refusal> {
    if row.status == Revoked || row.status == Expired then
      if now - row.stateChangedAt.GetOr(fallback) > cfg.transferClaimGrace || row.endHeight.None? then
        Err(OfferGone(row.status))
      else Ok(row.endHeight)
    else Ok(None)
  }

  // Whatever row a step of a reachable world judges has its death time if it is dead, so
  // the gate's verdict does not depend on the fallback.
  lemma DeathTimeAlwaysKnown(cfg: Config, acts: seq<Action>, i: nat, inp: Input, fallback: int)
    requires i < |Exec(cfg, Start, acts).flights|
    ensures var w := Exec(cfg, Start, acts);
            var f := w.flights[i];
            var judged := Judged(w.db, f, inp.now);
            judged.Some? ==>
              && Next(cfg, w.db, f, inp).flight == AfterSettle(cfg, AskerOf(f), judged.value, ClockOf(f, inp))
              && (judged.value.status == Expired || judged.value.status == Revoked ==>
                  judged.value.stateChangedAt.Some?)
              && DeathGate(cfg, judged.value, ClockOf(f, inp))
                  == GateWithFallback(cfg, judged.value, ClockOf(f, inp), fallback)
  {
    hide Genuine, NamesGood, LogLawful, Constraints, ReceiptsGood, Exec, AfterSettle;
    EveryRunIsSound(cfg, acts);
    var w := Exec(cfg, Start, acts);
    assert FlightGood(cfg, w.db.offers, w.flights[i]);
  }

  // In every run: a transfer was claimed by the offer's expiration, or the offer has left
  // `live` with a known height, the claim was made within the grace time of that, and the
  // first endpoint to answer had the kernel at or below that height.
  lemma LateClaimInEveryRun(cfg: Config, acts: seq<Action>, id: string) returns (view: seq<Endpoint>)
    requires id in Exec(cfg, Start, acts).db.transfers
    ensures id in Exec(cfg, Start, acts).db.offers
    ensures var o, t := Exec(cfg, Start, acts).db.offers[id], Exec(cfg, Start, acts).db.transfers[id];
            && KernelReported(view, cfg.transferMinConf, t.kernelHeight)
            && (|| t.claimedAt <= o.expiration
                || (&& o.status != Live && o.stateChangedAt.Some? && o.endHeight.Some? && t.kernelHeight.Some?
                    && t.kernelHeight.value <= o.endHeight.value
                    && MinedBy(view, cfg.transferMinConf, o.endHeight.value)
                    && t.claimedAt - o.stateChangedAt.value <= cfg.transferClaimGrace))
  {
    hide DbGood, FlightGood, Exec, ProofAccepted, KernelSeen, KernelReported, MinedBy;
    var w := Exec(cfg, Start, acts);
    EveryRunIsSound(cfg, acts);
    var k := ReceiptEntry(cfg, w.db.offers, w.log, id);
    view := w.log[k].view;
    var t := w.db.transfers[id];
    SeenIsReported(cfg, view, t.kernelHeight);
    if t.kernelHeight.Some? && w.db.offers[id].endHeight.Some?
        && t.kernelHeight.value <= w.db.offers[id].endHeight.value {
      ReportedIsMined(view, cfg.transferMinConf, t.kernelHeight, w.db.offers[id].endHeight.value);
    }
  }

  lemma SeenIsReported(cfg: Config, view: seq<Endpoint>, column: Option<i64>)
    requires KernelSeen(cfg, view, column)
    ensures KernelReported(view, cfg.transferMinConf, column)
  {
    hide Confirmed, HeightForColumn, Kernel, KernelReported;
    ConfirmedIff(cfg, view, column);
  }

  // ---------------------------------------------------------------- names

  // The name index and the key index always agree, in both directions.
  lemma IndexAgreement(cfg: Config, acts: seq<Action>, name: string, pubkey: string)
    ensures var names := Exec(cfg, Start, acts).db.names;
            Lookup(names, name) == Some(pubkey) <==> NameOf(names, pubkey) == Some(name)
  {
    hide OffersGood, NamesGood, FlightGood, LogLawful, ReceiptsGood;
    EveryRunIsSound(cfg, acts);
    LookupInvertsNameOf(Exec(cfg, Start, acts).db.names, name, pubkey);
  }

  // No name in the table, active or released, is invalid or looks like a reserved term.
  lemma {:induction false} TableNamesAreGood(cfg: Config, acts: seq<Action>, name: string)
    requires name in Exec(cfg, Start, acts).db.names
    ensures GoodName(cfg, name)
  {
    hide OffersGood, GoodName, FlightGood, LogLawful, ReceiptsGood, Constraints;
    EveryRunIsSound(cfg, acts);
  }

  // With the operator's labels among the extra reserved terms, no name the authority ever
  // hands out reads like one of them.
  lemma {:induction false} BrandNeverHandedOut(cfg: Config, acts: seq<Action>, more: seq<string>, brand: string,
                                               name: string)
    requires cfg.extraReserved == Domain.DomainReserved(cfg.lib.trim, cfg.domain) + more
    requires brand in Domain.DomainReserved(cfg.lib.trim, cfg.domain)
    requires name in Exec(cfg, Start, acts).db.names
    ensures Fold(name) != Fold(brand)
  {
    TableNamesAreGood(cfg, acts, name);
    if Fold(name) == Fold(brand) {
      Domain.BrandIsReserved(cfg.lib.trim, cfg.domain, RESERVED, more, brand, name);
    }
  }
}
