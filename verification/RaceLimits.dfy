/** How far the races reach: exactly when a consumed offer can still be overwritten, and what
    must have happened for a release to hit somebody else's name. */
module RaceLimits {
  import opened Prelude
  import opened Tables
  import opened Api
  import opened Protocol
  import opened Interleaving
  import opened AnyRun
  import opened SerialRuns
  import opened AntiChurn

  // A revocation that saw this offer expired is about to flip its status.
  ghost predicate FlipPending(w: World, id: string) {
    exists i :: 0 <= i < |w.flights| && Flips(w.flights[i], id)
  }

  predicate Flips(f: Flight, id: string) {
    f.RevokeFlip? && f.row.offerId == id
  }

  ghost predicate IsConsumed(w: World, id: string) {
    id in w.db.offers && w.db.offers[id].status == Consumed
  }

  // Only a revocation reading an expired row moves to the flip.
  lemma FlipComesFromExpired(cfg: Config, db: Db, f: Flight, inp: Input, id: string)
    requires KeyedById(db.offers) && id in db.offers && db.offers[id].status == Consumed
    ensures !Flips(Next(cfg, db, f, inp).flight, id)
  {
    hide RegistryNext, LodgingNext, RevocationNext, SettlementNext, ClaimNext, Flips;
    if InRevocation(f) {
      NoFlipOfConsumed(db, f, inp, id);
    } else {
      NoFlipElsewhere(cfg, db, f, inp, id);
    }
  }

  lemma NoFlipOfConsumed(db: Db, f: Flight, inp: Input, id: string)
    requires KeyedById(db.offers) && id in db.offers && db.offers[id].status == Consumed && InRevocation(f)
    ensures !Flips(RevocationNext(db, f, inp).flight, id)
  {
    hide TipForColumn, MarkOfferDead, SetStatus;
  }

  lemma NoFlipElsewhere(cfg: Config, db: Db, f: Flight, inp: Input, id: string)
    requires !InRevocation(f)
    ensures !Flips(Next(cfg, db, f, inp).flight, id)
  {
    hide RegistryNext, LodgingNext, RevocationNext, SettlementNext, ClaimNext;
    if InClaim(f) {
      NoFlipInClaim(cfg, db, f, inp);
    } else if InSettlement(f) {
      NoFlipInSettlement(cfg, db, f, inp);
    } else if InRegistry(f) || InLodging(f) {
      NoFlipInRegistry(cfg, db, f, inp);
    }
  }

  lemma NoFlipInClaim(cfg: Config, db: Db, f: Flight, inp: Input)
    requires InClaim(f)
    ensures !ClaimNext(cfg, db, f, inp).flight.RevokeFlip?
  {
    hide HasName, ExcessUsed, Confirmed, ProofRefusal, HeightForColumn, BeforeDeath, ClaimTxn, ClaimResult;
  }

  lemma NoFlipInSettlement(cfg: Config, db: Db, f: Flight, inp: Input)
    requires InSettlement(f)
    ensures !SettlementNext(cfg, db, f, inp).flight.RevokeFlip?
  {
    hide TipForColumn, DeathGate, MarkOfferDead;
  }

  lemma NoFlipInRegistry(cfg: Config, db: Db, f: Flight, inp: Input)
    requires InRegistry(f) || InLodging(f)
    ensures !Next(cfg, db, f, inp).flight.RevokeFlip?
  {
    hide RevocationNext, SettlementNext, ClaimNext, UpsertResultOf, UpsertName, ReleaseName, HasName;
    hide LiveOfferForName, LiveOfferBinding, InsertOffer;
  }

  // No other step takes an offer out of `consumed`.
  lemma OnlyFlipsOverwrite(cfg: Config, db: Db, f: Flight, inp: Input, id: string)
    requires id in db.offers && db.offers[id].status == Consumed && !Flips(f, id)
    ensures id in Next(cfg, db, f, inp).db.offers && Next(cfg, db, f, inp).db.offers[id].status == Consumed
  {
    hide RegistryNext, LodgingNext, RevocationNext, SettlementNext, ClaimNext, Flips;
    if InRegistry(f) || InLodging(f) {
      RegistryKeepsConsumed(cfg, db, f, inp, id);
    } else if InRevocation(f) {
      RevocationKeepsConsumed(db, f, inp, id);
    } else if InSettlement(f) {
      SettlementKeepsConsumed(cfg, db, f, inp, id);
    } else if InClaim(f) {
      ClaimKeepsConsumed(cfg, db, f, inp, id);
    }
  }

  lemma RegistryKeepsConsumed(cfg: Config, db: Db, f: Flight, inp: Input, id: string)
    requires id in db.offers && db.offers[id].status == Consumed && (InRegistry(f) || InLodging(f))
    ensures id in Next(cfg, db, f, inp).db.offers && Next(cfg, db, f, inp).db.offers[id].status == Consumed
  {
    hide RevocationNext, SettlementNext, ClaimNext, UpsertResultOf, UpsertName, ReleaseName, HasName;
    hide LiveOfferForName, LiveOfferBinding;
  }

  lemma RevocationKeepsConsumed(db: Db, f: Flight, inp: Input, id: string)
    requires id in db.offers && db.offers[id].status == Consumed && InRevocation(f) && !Flips(f, id)
    ensures id in RevocationNext(db, f, inp).db.offers
    ensures RevocationNext(db, f, inp).db.offers[id].status == Consumed
  {
    hide TipForColumn, RevokePoint;
  }

  lemma SettlementKeepsConsumed(cfg: Config, db: Db, f: Flight, inp: Input, id: string)
    requires id in db.offers && db.offers[id].status == Consumed && InSettlement(f)
    ensures id in SettlementNext(cfg, db, f, inp).db.offers
    ensures SettlementNext(cfg, db, f, inp).db.offers[id].status == Consumed
  {
    hide TipForColumn, Settle, AfterSettle;
  }

  lemma ClaimKeepsConsumed(cfg: Config, db: Db, f: Flight, inp: Input, id: string)
    requires id in db.offers && db.offers[id].status == Consumed && InClaim(f)
    ensures id in ClaimNext(cfg, db, f, inp).db.offers && ClaimNext(cfg, db, f, inp).db.offers[id].status == Consumed
  {
    hide HasName, ExcessUsed, OwnerPoint, KernelPoint, ReplayPoint, ClaimResult;
  }

  lemma BeginsWithoutFlip(cfg: Config, auth: string, target: Target, now: int)
    ensures !Begin(cfg, auth, target, now).RevokeFlip?
  {
    hide RowFromEvent;
  }

  lemma StaysConsumedStep(cfg: Config, w: World, a: Action, id: string)
    requires Sound(cfg, w) && IsConsumed(w, id) && !FlipPending(w, id)
    ensures IsConsumed(Do(cfg, w, a), id) && !FlipPending(Do(cfg, w, a), id)
  {
    hide OffersGood, NamesGood, ReceiptsGood, FlightGood, LogLawful, Next, Begin;
    match a {
      case Arrive(auth, target, now) => BeginsWithoutFlip(cfg, auth, target, now);
      case Advance(who, inp) =>
        if who < |w.flights| {
          FlipComesFromExpired(cfg, w.db, w.flights[who], inp, id);
          OnlyFlipsOverwrite(cfg, w.db, w.flights[who], inp, id);
        }
    }
  }

  lemma {:induction false} StaysConsumed(cfg: Config, w: World, more: seq<Action>, id: string)
    requires Sound(cfg, w) && IsConsumed(w, id) && !FlipPending(w, id)
    ensures IsConsumed(Exec(cfg, w, more), id) && !FlipPending(Exec(cfg, w, more), id)
  {
    hide Sound, IsConsumed, FlipPending, Do;
    if more != [] {
      StaysConsumed(cfg, w, more[..|more| - 1], id);
      ExecSound(cfg, w, more[..|more| - 1]);
      StaysConsumedStep(cfg, Exec(cfg, w, more[..|more| - 1]), more[|more| - 1], id);
    }
  }

  ghost predicate Overwritten(cfg: Config, w: World, more: seq<Action>, id: string) {
    !IsConsumed(Exec(cfg, w, more), id)
  }

  // `consumed` is final in every continuation unless, at that moment, a revocation that
  // saw the offer expired is still in flight; and if one is, it can be overwritten.
  lemma ConsumedIsFinalIff(cfg: Config, acts: seq<Action>, id: string)
    requires IsConsumed(Exec(cfg, Start, acts), id)
    ensures var w := Exec(cfg, Start, acts);
            (exists more: seq<Action> :: Overwritten(cfg, w, more, id)) <==> FlipPending(w, id)
  {
    hide Sound, Do;
    var w := Exec(cfg, Start, acts);
    EveryRunIsSound(cfg, acts);
    if !FlipPending(w, id) {
      forall more: seq<Action> ensures !Overwritten(cfg, w, more, id) {
        StaysConsumed(cfg, w, more, id);
      }
    } else {
      var who: nat :| who < |w.flights| && Flips(w.flights[who], id);
      var more := [Advance(who, Input(0, None, None, false))];
      FlipOverwrites(cfg, w, who, id);
      assert more[..0] == [];
      assert Exec(cfg, w, more) == Do(cfg, w, more[0]);
      assert Overwritten(cfg, w, more, id);
    }
  }

  lemma FlipOverwrites(cfg: Config, w: World, who: nat, id: string)
    requires who < |w.flights| && Flips(w.flights[who], id) && id in w.db.offers
    ensures !IsConsumed(Do(cfg, w, Advance(who, Input(0, None, None, false))), id)
  {
  }

  // ---------------------------------------------------------------- releases

  lemma LogGrowsStep(cfg: Config, w: World, a: Action)
    ensures w.log <= Do(cfg, w, a).log
  {
    hide Next, Begin;
  }

  lemma {:induction false} LogGrows(cfg: Config, w: World, acts: seq<Action>)
    ensures w.log <= Exec(cfg, w, acts).log
  {
    hide Do;
    if acts != [] {
      LogGrows(cfg, w, acts[..|acts| - 1]);
      LogGrowsStep(cfg, Exec(cfg, w, acts[..|acts| - 1]), acts[|acts| - 1]);
    }
  }

  lemma {:induction false} ExecConcat(cfg: Config, w: World, a: seq<Action>, b: seq<Action>)
    ensures Exec(cfg, w, a + b) == Exec(cfg, Exec(cfg, w, a), b)
  {
    hide Do;
    if b == [] {
      assert a + b == a;
    } else {
      assert (a + b)[..|a + b| - 1] == a + b[..|b| - 1];
      ExecConcat(cfg, w, a, b[..|b| - 1]);
    }
  }

  // If key `a` owned the name when its release was checked, and somebody else owns it when
  // the update runs, then in between the name was released, or `a` or a later owner sold it
  // to the present one.
  lemma StaleReleaseNeedsHandover(cfg: Config, acts: seq<Action>, more: seq<Action>, name: string, a: string, b: string)
    requires Lookup(Exec(cfg, Start, acts).db.names, name) == Some(a)
    requires Lookup(Exec(cfg, Start, acts + more).db.names, name) == Some(b) && a != b
    ensures var w, w' := Exec(cfg, Start, acts), Exec(cfg, Start, acts + more);
            w.log <= w'.log
            && exists k :: |w.log| <= k < |w'.log| && (Frees(w'.log[k], name) || Handover(w', k, name, b))
  {
    hide Exec, ReplayOwners, Handover, Lookup;
    var w, w' := Exec(cfg, Start, acts), Exec(cfg, Start, acts + more);
    ExecConcat(cfg, Start, acts, more);
    LogGrows(cfg, w, more);
    LogRebuildsNames(cfg, acts, name);
    LogRebuildsNames(cfg, acts + more, name);
    assert w'.log[..|w.log|] == w.log && w'.log[..|w'.log|] == w'.log;
    if forall k :: |w.log| <= k < |w'.log| ==> !Frees(w'.log[k], name) {
      OwnershipChain(cfg, acts + more, |w.log|, |w'.log|, name);
    }
  }

  // The update frees a name held by another key exactly when the owner has changed since the check.
  lemma ReleaseHitsOtherIff(cfg: Config, db: Db, name: string, auth: string, b: string, inp: Input)
    requires Constraints(db) && b != auth
    ensures Holds(db.names, name, b)
            <==> HasName(db.names, b) && !HasName(Next(cfg, db, UnregUpdate(name, auth), inp).db.names, b)
  {
    hide HasName;
    if Active(db.names, name) {
      ReleaseFrees(db.names, name, inp.now, b);
      if Holds(db.names, name, b) { HoldsIsHas(db.names, name, b); }
    }
  }

  lemma HoldsIsHas(names: map<string, NameRow>, name: string, key: string)
    requires Holds(names, name, key)
    ensures HasName(names, key)
  {
  }

  // ---------------------------------------------------------------- lodging

  // Made at the moment of the insert, the two lodge checks are exactly what keeps live
  // offers apart; made earlier, they are not enough.
  lemma InsertKeepsExclusiveIff(offers: map<string, OfferRow>, row: OfferRow, now: int)
    requires Exclusive(offers, now) && LiveAt(row, now) && row.offerId !in offers
    ensures Exclusive(InsertOffer(offers, row), now)
            <==> !LiveOfferForName(offers, row.name, now) && !LiveOfferBinding(offers, row.proofAddress, now)
  {
    var after := InsertOffer(offers, row);
    assert row.offerId in after && after[row.offerId] == row;
    forall id | id in offers && LiveAt(offers[id], now)
        && (offers[id].name == row.name || offers[id].proofAddress == row.proofAddress)
      ensures !Exclusive(after, now)
    {
      assert id in after && after[id] == offers[id] && id != row.offerId;
    }
  }
}
