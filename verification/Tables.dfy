/** The three SQL tables and the effect of every statement the handlers run on them. */
module Tables {
  import opened Prelude

  // A signed kind-3402 event; `signed` says whether id and signature verify.
  datatype OfferEvent = OfferEvent(id: string, pubkey: string, kind: nat, signed: bool, tags: seq<seq<string>>)

  datatype NameRow = NameRow(pubkey: string, createdAt: int, releasedAt: Option<int>)

  datatype Status = Live | Expired | Revoked | Consumed

  datatype OfferRow = OfferRow(
    offerId: string, event: OfferEvent, name: string, seller: string, buyer: string,
    price: i64, proofAddress: string, expiration: i64, createdAt: int,
    status: Status, endHeight: Option<i64>, stateChangedAt: Option<int>)
  {
    // The row as it was inserted: the columns no statement ever rewrites.
    function Lodged(): OfferRow {
      this.(status := Live, endHeight := None, stateChangedAt := None)
    }
  }

  datatype TransferRow = TransferRow(
    name: string, seller: string, buyer: string, price: i64,
    excess: string, kernelHeight: Option<i64>, claimedAt: int)

  // Primary keys are the map keys: name, offer id, offer id.
  datatype Db = Db(names: map<string, NameRow>, offers: map<string, OfferRow>, transfers: map<string, TransferRow>)

  const EmptyDb := Db(map[], map[], map[])

  predicate Active(names: map<string, NameRow>, name: string) {
    name in names && names[name].releasedAt.None?
  }

  predicate Holds(names: map<string, NameRow>, name: string, pubkey: string) {
    Active(names, name) && names[name].pubkey == pubkey
  }

  // The partial unique index: one active name a key.
  ghost predicate OneNamePerKey(names: map<string, NameRow>) {
    forall a, b :: Active(names, a) && Active(names, b) && names[a].pubkey == names[b].pubkey ==> a == b
  }

  // UNIQUE(kernel_excess).
  ghost predicate OneTransferPerExcess(transfers: map<string, TransferRow>) {
    forall a, b :: a in transfers && b in transfers && transfers[a].excess == transfers[b].excess ==> a == b
  }

  ghost predicate KeyedById(offers: map<string, OfferRow>) {
    forall id :: id in offers ==> offers[id].offerId == id
  }

  // What the schema itself enforces.
  ghost predicate Constraints(db: Db) {
    OneNamePerKey(db.names) && OneTransferPerExcess(db.transfers) && KeyedById(db.offers)
  }

  // SELECT pubkey ... WHERE name = ? AND released_at IS NULL
  function Lookup(names: map<string, NameRow>, name: string): Option<string> {
    if Active(names, name) then Some(names[name].pubkey) else None
  }

  predicate HasName(names: map<string, NameRow>, pubkey: string) {
    exists n :: n in names && Holds(names, n, pubkey)
  }

  // SELECT name ... WHERE pubkey = ? AND released_at IS NULL
  ghost function NameOf(names: map<string, NameRow>, pubkey: string): (r: Option<string>)
    ensures r.Some? <==> HasName(names, pubkey)
    ensures r.Some? ==> Holds(names, r.value, pubkey)
  {
    if HasName(names, pubkey) then
      var n :| n in names && Holds(names, n, pubkey);
      Some(n)
    else None
  }

  // Under the partial unique index the two lookups are inverse to each other.
  lemma LookupInvertsNameOf(names: map<string, NameRow>, name: string, pubkey: string)
    requires OneNamePerKey(names)
    ensures Lookup(names, name) == Some(pubkey) <==> NameOf(names, pubkey) == Some(name)
  {
    if Lookup(names, name) == Some(pubkey) {
      assert Holds(names, name, pubkey);
      assert HasName(names, pubkey);
    }
  }

  // Offers that count for the two lodge checks.
  predicate LiveAt(o: OfferRow, now: int) {
    o.status == Live && o.expiration >= now
  }

  predicate LiveOfferForName(offers: map<string, OfferRow>, name: string, now: int) {
    exists id :: id in offers && offers[id].name == name && LiveAt(offers[id], now)
  }

  predicate LiveOfferBinding(offers: map<string, OfferRow>, address: string, now: int) {
    exists id :: id in offers && offers[id].proofAddress == address && LiveAt(offers[id], now)
  }

  predicate ExcessUsed(transfers: map<string, TransferRow>, excess: string) {
    exists id :: id in transfers && transfers[id].excess == excess
  }

  // Another active row than `name` holds the key, so writing it there breaks the index.
  predicate KeyElsewhere(names: map<string, NameRow>, name: string, pubkey: string) {
    exists n :: n in names && n != name && Holds(names, n, pubkey)
  }

  datatype UpsertResult = Written | NoRow | ConstraintError

  // The register upsert. On an active name it writes nothing; if the key is also taken,
  // either refusal may be reported (`indexFirst` picks), and neither changes a row.
  function UpsertResultOf(names: map<string, NameRow>, name: string, pubkey: string, indexFirst: bool): UpsertResult {
    if Active(names, name) then
      if indexFirst && HasName(names, pubkey) then ConstraintError else NoRow
    else if KeyElsewhere(names, name, pubkey) then ConstraintError
    else Written
  }

  function UpsertName(names: map<string, NameRow>, name: string, pubkey: string, now: int): map<string, NameRow> {
    if Active(names, name) || KeyElsewhere(names, name, pubkey) then names
    else names[name := NameRow(pubkey, now, None)]
  }

  // UPDATE names SET released_at = ? WHERE name = ? AND released_at IS NULL
  function ReleaseName(names: map<string, NameRow>, name: string, now: int): map<string, NameRow> {
    if Active(names, name) then names[name := names[name].(releasedAt := Some(now))] else names
  }

  // INSERT INTO offers; a primary-key clash leaves the table as it is.
  function InsertOffer(offers: map<string, OfferRow>, o: OfferRow): map<string, OfferRow> {
    if o.offerId in offers then offers else offers[o.offerId := o]
  }

  // UPDATE offers SET status, end_height, state_changed_at WHERE offer_id = ? AND status = 'live'
  function MarkOfferDead(offers: map<string, OfferRow>, id: string, status: Status,
                         endHeight: Option<i64>, changedAt: int): map<string, OfferRow>
  {
    if id in offers && offers[id].status == Live then
      offers[id := offers[id].(status := status, endHeight := endHeight, stateChangedAt := Some(changedAt))]
    else offers
  }

  // UPDATE offers SET status = ? WHERE offer_id = ?: no guard on the old status.
  function SetStatus(offers: map<string, OfferRow>, id: string, status: Status): map<string, OfferRow> {
    if id in offers then offers[id := offers[id].(status := status)] else offers
  }

  datatype TxResult = Committed | OwnerChanged | BuyerHasName | Reused

  function ReceiptOf(o: OfferRow, excess: string, kernelHeight: Option<i64>, now: int): TransferRow {
    TransferRow(o.name, o.seller, o.buyer, o.price, excess, kernelHeight, now)
  }

  // The claim transaction's verdict: owner guard, then the index, then the receipt's keys.
  function ClaimResult(db: Db, o: OfferRow, excess: string): TxResult {
    if !Holds(db.names, o.name, o.seller) then OwnerChanged
    else if KeyElsewhere(db.names, o.name, o.buyer) then BuyerHasName
    else if o.offerId in db.transfers || ExcessUsed(db.transfers, excess) then Reused
    else Committed
  }

  // All three writes or none.
  function ClaimTxn(db: Db, o: OfferRow, excess: string, kernelHeight: Option<i64>, now: int): Db {
    if ClaimResult(db, o, excess) != Committed then db
    else Db(db.names[o.name := NameRow(o.buyer, now, None)],
            SetStatus(db.offers, o.offerId, Consumed),
            db.transfers[o.offerId := ReceiptOf(o, excess, kernelHeight, now)])
  }

  // Every statement keeps the schema's constraints.
  lemma NameStatementsKeepConstraints(db: Db, name: string, pubkey: string, t: int)
    requires Constraints(db)
    ensures Constraints(db.(names := UpsertName(db.names, name, pubkey, t)))
    ensures Constraints(db.(names := ReleaseName(db.names, name, t)))
  {
  }

  lemma InsertKeepsConstraints(db: Db, o: OfferRow)
    requires Constraints(db)
    ensures Constraints(db.(offers := InsertOffer(db.offers, o)))
  {
  }

  lemma OfferUpdatesKeepConstraints(db: Db, id: string, st: Status, h: Option<i64>, t: int)
    requires Constraints(db)
    ensures Constraints(db.(offers := MarkOfferDead(db.offers, id, st, h, t)))
    ensures Constraints(db.(offers := SetStatus(db.offers, id, st)))
  {
  }

  lemma ClaimKeepsConstraints(db: Db, o: OfferRow, excess: string, h: Option<i64>, t: int)
    requires Constraints(db)
    ensures Constraints(ClaimTxn(db, o, excess, h, t))
  {
    var names := ClaimTxn(db, o, excess, h, t).names;
    forall a, b | Active(names, a) && Active(names, b) && names[a].pubkey == names[b].pubkey
      ensures a == b
    {
      assert a != o.name ==> Holds(db.names, a, names[a].pubkey);
      assert b != o.name ==> Holds(db.names, b, names[b].pubkey);
    }
  }
}
