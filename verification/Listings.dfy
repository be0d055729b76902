/** What a lodged offer row says of the signed event it comes from, tag by tag. */
module Listings {
  import opened Prelude
  import opened Names
  import opened Proof
  import opened Auth
  import opened Tables
  import opened Api
  import opened Spelling
  import opened Credentials

  // The column a signed 64-bit cast leaves.
  function Signed64(x: u64): int {
    if x < 0x8000_0000_0000_0000 then x else x - 0x1_0000_0000_0000_0000
  }

  // A mainnet or floonet address with its 32-byte key, read without regard to case or
  // surrounding space.
  predicate AddressKey(lib: Library, address: string, key: seq<byte>) {
    && |key| == 32
    && (|| lib.bech32(Lower(lib.trim(address))) == Some(("grin", key))
        || lib.bech32(Lower(lib.trim(address))) == Some(("tgrin", key)))
  }

  lemma AddressKeyIff(lib: Library, address: string, key: seq<byte>)
    ensures DecodeGrinAddress(lib, address) == Some(key) <==> AddressKey(lib, address, key)
  {
  }

  ghost predicate IsAddress(lib: Library, address: string) {
    exists key :: AddressKey(lib, address, key)
  }

  lemma IsAddressIff(lib: Library, address: string)
    ensures DecodeGrinAddress(lib, address).Some? <==> IsAddress(lib, address)
  {
    hide DecodeGrinAddress, AddressKey;
    forall key ensures DecodeGrinAddress(lib, address) == Some(key) <==> AddressKey(lib, address, key) {
      AddressKeyIff(lib, address, key);
    }
    if DecodeGrinAddress(lib, address).Some? {
      assert AddressKey(lib, address, DecodeGrinAddress(lib, address).value);
    }
  }

  // The last tag with this key, whether or not it has a value, carries this value.
  ghost predicate Tag(e: OfferEvent, key: string, v: string) {
    Says(e.tags, key, false, v)
  }

  ghost predicate NameAndDomain(cfg: Config, e: OfferEvent, row: OfferRow) {
    && Tag(e, "name", row.name) && IsName(row.name, cfg.nameMin, cfg.nameMax)
    && Tag(e, "domain", cfg.domain)
  }

  ghost predicate BuyerColumn(e: OfferEvent, buyer: string) {
    && (exists v :: Tag(e, "p", v) && buyer == Lower(v))
    && Hex64Small(buyer)
  }

  ghost predicate SignedAt(cfg: Config, e: OfferEvent, price: u64) {
    exists v :: Tag(e, "price", v) && cfg.lib.parseU64(cfg.lib.trim(v)) == Some(price)
  }

  ghost predicate PriceColumn(cfg: Config, e: OfferEvent, column: int) {
    exists price :: SignedAt(cfg, e, price) && column == Signed64(price)
  }

  ghost predicate AddressColumn(cfg: Config, e: OfferEvent, address: string) {
    && (exists v :: Tag(e, "proof_address", v) && address == Lower(cfg.lib.trim(v)))
    && IsAddress(cfg.lib, address)
  }

  ghost predicate ExpirationColumn(cfg: Config, e: OfferEvent, expiration: i64) {
    exists v :: Tag(e, "expiration", v) && cfg.lib.parseI64(cfg.lib.trim(v)) == Some(expiration)
  }

  // A fresh row with every column as the event's own tags have it, at a time within the
  // lodging window.
  ghost predicate Lists(cfg: Config, e: OfferEvent, now: int, row: OfferRow) {
    && e.signed && e.kind == 3402
    && row.offerId == e.id && row.event == e && row.seller == e.pubkey && row.createdAt == now
    && NameAndDomain(cfg, e, row) && BuyerColumn(e, row.buyer) && PriceColumn(cfg, e, row.price)
    && AddressColumn(cfg, e, row.proofAddress) && ExpirationColumn(cfg, e, row.expiration)
    && now < row.expiration && row.expiration <= now + cfg.transferMaxOfferTtl
    && row.status == Live && row.endHeight.None? && row.stateChangedAt.None?
  }

  lemma TagIff(e: OfferEvent, key: string)
    ensures forall v :: Last(e.tags, key, false) == Some(v) <==> Tag(e, key, v)
  {
    hide Last, Says;
    forall v ensures Last(e.tags, key, false) == Some(v) <==> Tag(e, key, v) {
      SaysIff(e.tags, key, false, v);
    }
  }

  // All six tags have values.
  ghost predicate AllTags(e: OfferEvent, tags: OfferTags) {
    && Tag(e, "name", tags.name) && Tag(e, "domain", tags.domain) && Tag(e, "p", tags.buyer)
    && Tag(e, "price", tags.price) && Tag(e, "proof_address", tags.proofAddress)
    && Tag(e, "expiration", tags.expiration)
  }

  lemma AllTagsIff(e: OfferEvent, tags: OfferTags)
    ensures OfferTagsOf(e.tags) == Some(tags) <==> AllTags(e, tags)
  {
    hide Last, Tag;
    TagIff(e, "name");
    TagIff(e, "domain");
    TagIff(e, "p");
    TagIff(e, "price");
    TagIff(e, "proof_address");
    TagIff(e, "expiration");
  }

  lemma OneValue(e: OfferEvent, key: string, v: string, w: string)
    requires Tag(e, key, v) && Tag(e, key, w)
    ensures v == w
  {
  }

  lemma BuiltLists(cfg: Config, e: OfferEvent, tags: OfferTags, now: int)
    requires e.signed && e.kind == 3402 && AllTags(e, tags) && RowFromTags(cfg, e, tags, now).Ok?
    ensures Lists(cfg, e, now, RowFromTags(cfg, e, tags, now).value)
  {
    hide Tag, Lower, ValidName, IsName, ValidPubkeyHex, Hex64Small, DecodeGrinAddress, IsAddress;
    var row := RowFromTags(cfg, e, tags, now).value;
    ValidNameIff(tags.name, cfg.nameMin, cfg.nameMax);
    Hex64Iff(Lower(tags.buyer));
    IsAddressIff(cfg.lib, Lower(cfg.lib.trim(tags.proofAddress)));
    var price := cfg.lib.parseU64(cfg.lib.trim(tags.price)).value;
    assert SignedAt(cfg, e, price);
    assert PriceColumn(cfg, e, row.price);
    assert BuyerColumn(e, row.buyer);
    assert AddressColumn(cfg, e, row.proofAddress);
    assert ExpirationColumn(cfg, e, row.expiration);
  }

  lemma ListedIsBuilt(cfg: Config, e: OfferEvent, tags: OfferTags, now: int, row: OfferRow)
    requires AllTags(e, tags) && Lists(cfg, e, now, row)
    ensures RowFromTags(cfg, e, tags, now) == Ok(row)
  {
    hide Tag, Lower, ValidName, IsName, ValidPubkeyHex, Hex64Small, DecodeGrinAddress, IsAddress;
    ValidNameIff(tags.name, cfg.nameMin, cfg.nameMax);
    Hex64Iff(Lower(tags.buyer));
    IsAddressIff(cfg.lib, Lower(cfg.lib.trim(tags.proofAddress)));
    OneValue(e, "name", tags.name, row.name);
    OneValue(e, "domain", tags.domain, cfg.domain);
    var buyer :| Tag(e, "p", buyer) && row.buyer == Lower(buyer);
    OneValue(e, "p", tags.buyer, buyer);
    var amount: u64 :| SignedAt(cfg, e, amount) && row.price == Signed64(amount);
    var price :| Tag(e, "price", price) && cfg.lib.parseU64(cfg.lib.trim(price)) == Some(amount);
    OneValue(e, "price", tags.price, price);
    var address :| Tag(e, "proof_address", address) && row.proofAddress == Lower(cfg.lib.trim(address));
    OneValue(e, "proof_address", tags.proofAddress, address);
    var expiration :| Tag(e, "expiration", expiration)
        && cfg.lib.parseI64(cfg.lib.trim(expiration)) == Some(row.expiration);
    OneValue(e, "expiration", tags.expiration, expiration);
  }

  // The event checks accept exactly the signed offers of the key that asks whose tags make
  // up such a row, and build that row.
  lemma ListedIff(cfg: Config, auth: string, e: OfferEvent, now: int, row: OfferRow)
    ensures RowFromEvent(cfg, auth, Some(e), now) == Ok(row) <==> e.pubkey == auth && Lists(cfg, e, now, row)
  {
    hide RowFromTags, OfferTagsOf, AllTags;
    if OfferTagsOf(e.tags).Some? {
      var tags := OfferTagsOf(e.tags).value;
      AllTagsIff(e, tags);
      if e.signed && e.kind == 3402 && RowFromTags(cfg, e, tags, now).Ok? {
        BuiltLists(cfg, e, tags, now);
      }
      if Lists(cfg, e, now, row) {
        ListedIsBuilt(cfg, e, tags, now, row);
      }
    } else if Lists(cfg, e, now, row) {
      var tags := TagsOfListing(cfg, e, now, row);
      AllTagsIff(e, tags);
    }
  }

  lemma TagsOfListing(cfg: Config, e: OfferEvent, now: int, row: OfferRow) returns (tags: OfferTags)
    requires Lists(cfg, e, now, row)
    ensures AllTags(e, tags)
  {
    hide Tag, Lower, IsName, Hex64Small, IsAddress;
    var buyer :| Tag(e, "p", buyer) && row.buyer == Lower(buyer);
    var amount: u64 :| SignedAt(cfg, e, amount);
    var price :| Tag(e, "price", price) && cfg.lib.parseU64(cfg.lib.trim(price)) == Some(amount);
    var address :| Tag(e, "proof_address", address);
    var expiration :| Tag(e, "expiration", expiration);
    tags := OfferTags(row.name, cfg.domain, buyer, price, address, expiration);
  }

  // What a refused event check answers: a signed offer event of somebody else is the only
  // one to draw the key mismatch.
  lemma UnlistedBecause(cfg: Config, auth: string, offer: Option<OfferEvent>, now: int)
    ensures var r := RowFromEvent(cfg, auth, offer, now);
            && (r == Err(KeyMismatch)
                <==> offer.Some? && offer.value.signed && offer.value.kind == 3402 && offer.value.pubkey != auth)
            && (r.Err? && r != Err(KeyMismatch) ==> r == Err(InvalidOffer))
            && (r.Ok? ==> offer.Some?)
  {
    hide OfferTagsOf, ValidName, ValidPubkeyHex, DecodeGrinAddress, NormalizeGrinAddress;
  }

  lemma OnePrice(cfg: Config, e: OfferEvent, a: u64, b: u64)
    requires SignedAt(cfg, e, a) && SignedAt(cfg, e, b)
    ensures a == b
  {
    hide Tag;
    var v :| Tag(e, "price", v) && cfg.lib.parseU64(cfg.lib.trim(v)) == Some(a);
    var w :| Tag(e, "price", w) && cfg.lib.parseU64(cfg.lib.trim(w)) == Some(b);
    OneValue(e, "price", v, w);
  }

  lemma SignedPriceIff(cfg: Config, e: OfferEvent, price: u64)
    ensures SignedPrice(cfg, e) == Some(price) ==> SignedAt(cfg, e, price)
  {
    hide Tag;
    if OfferTagsOf(e.tags).Some? {
      AllTagsIff(e, OfferTagsOf(e.tags).value);
    }
  }
}
