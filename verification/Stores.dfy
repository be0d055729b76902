/** The database connection: the tables as mutable fields, one method a statement. */
module Stores {
  import opened Prelude
  import opened Tables

  class Store {
    var names: map<string, NameRow>
    var offers: map<string, OfferRow>
    var transfers: map<string, TransferRow>

    ghost function Snapshot(): Db
      reads this
    {
      Db(names, offers, transfers)
    }

    ghost predicate Valid()
      reads this
    {
      Constraints(Snapshot())
    }

    constructor ()
      ensures Valid() && Snapshot() == EmptyDb
    {
      names, offers, transfers := map[], map[], map[];
    }

    method FindName(pubkey: string) returns (r: Option<string>)
      requires Valid()
      ensures r == NameOf(names, pubkey)
    {
      if exists n :: n in names && Holds(names, n, pubkey) {
        var n :| n in names && Holds(names, n, pubkey);
        r := Some(n);
      } else {
        r := None;
      }
    }

    method GetOffer(id: string) returns (r: Option<OfferRow>)
      ensures r == if id in offers then Some(offers[id]) else None
    {
      r := if id in offers then Some(offers[id]) else None;
    }

    method Upsert(name: string, pubkey: string, now: int, indexFirst: bool) returns (r: UpsertResult)
      requires Valid()
      modifies this`names
      ensures Valid()
      ensures names == UpsertName(old(names), name, pubkey, now)
      ensures r == UpsertResultOf(old(names), name, pubkey, indexFirst)
      ensures r == Written <==> names != old(names)
    {
      if Active(names, name) {
        return if indexFirst && HasName(names, pubkey) then ConstraintError else NoRow;
      }
      if KeyElsewhere(names, name, pubkey) {
        return ConstraintError;
      }
      names := names[name := NameRow(pubkey, now, None)];
      assert Active(names, name);
      return Written;
    }

    method Release(name: string, now: int)
      requires Valid()
      modifies this`names
      ensures Valid() && names == ReleaseName(old(names), name, now)
    {
      hide Constraints;
      NameStatementsKeepConstraints(Snapshot(), name, "", now);
      if Active(names, name) {
        names := names[name := names[name].(releasedAt := Some(now))];
      }
    }

    method Insert(o: OfferRow) returns (ok: bool)
      requires Valid()
      modifies this`offers
      ensures Valid() && offers == InsertOffer(old(offers), o)
      ensures ok <==> o.offerId !in old(offers)
    {
      hide Constraints;
      InsertKeepsConstraints(Snapshot(), o);
      ok := o.offerId !in offers;
      if ok {
        offers := offers[o.offerId := o];
      }
    }

    method MarkDead(id: string, status: Status, endHeight: Option<i64>, changedAt: int)
      requires Valid()
      modifies this`offers
      ensures Valid() && offers == MarkOfferDead(old(offers), id, status, endHeight, changedAt)
    {
      hide Constraints;
      OfferUpdatesKeepConstraints(Snapshot(), id, status, endHeight, changedAt);
      if id in offers && offers[id].status == Live {
        offers := offers[id := offers[id].(status := status, endHeight := endHeight,
                                           stateChangedAt := Some(changedAt))];
      }
    }

    method FlipToRevoked(id: string)
      requires Valid()
      modifies this`offers
      ensures Valid() && offers == SetStatus(old(offers), id, Revoked)
    {
      hide Constraints;
      OfferUpdatesKeepConstraints(Snapshot(), id, Revoked, None, 0);
      if id in offers {
        offers := offers[id := offers[id].(status := Revoked)];
      }
    }

    // Three statements in one transaction: each may fail, and a failure puts the
    // tables back as they were at BEGIN.
    method RunClaimTxn(o: OfferRow, excess: string, kernelHeight: Option<i64>, now: int) returns (r: TxResult)
      requires Valid()
      modifies this
      ensures Valid()
      ensures Snapshot() == ClaimTxn(old(Snapshot()), o, excess, kernelHeight, now)
      ensures r == ClaimResult(old(Snapshot()), o, excess)
      ensures r != Committed ==> Snapshot() == old(Snapshot())
    {
      var atBegin := (names, offers, transfers);
      ClaimKeepsConstraints(Snapshot(), o, excess, kernelHeight, now);
      var updated := 0;
      if Holds(names, o.name, o.seller) {
        if KeyElsewhere(names, o.name, o.buyer) {
          return BuyerHasName;
        }
        names := names[o.name := names[o.name].(pubkey := o.buyer, createdAt := now)];
        updated := 1;
      }
      if updated != 1 {
        return OwnerChanged;
      }
      if o.offerId in transfers || ExcessUsed(transfers, excess) {
        names, offers, transfers := atBegin.0, atBegin.1, atBegin.2;
        return Reused;
      }
      transfers := transfers[o.offerId := ReceiptOf(o, excess, kernelHeight, now)];
      if o.offerId in offers {
        offers := offers[o.offerId := offers[o.offerId].(status := Consumed)];
      }
      return Committed;
    }
  }
}
