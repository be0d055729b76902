/** Configuration, parsed requests and replies of the HTTP handlers. */
module Api {
  import opened Prelude
  import opened Names
  import opened Proof
  import opened Auth
  import opened Tables

  const OFFER_KIND: nat := 3402

  // Durations are in nanoseconds, ages and times to live in seconds.
  datatype Config = Config(
    domain: string, baseUrl: string,
    nameChangeCooldown: nat, authMaxAge: i64, nameMin: nat, nameMax: nat,
    readRateMax: nat, readRateWindow: nat, writeRateMax: nat, writeRateWindow: nat,
    extraReserved: seq<string>,
    transferMinConf: u64, transferMaxOfferTtl: int, transferClaimGrace: int,
    lib: Library)

  datatype Refusal =
    | RateLimited | Unauthorized(why: AuthError) | Replayed | CooldownActive
    | InvalidBody | InvalidPubkey | KeyMismatch | InvalidName | NameReserved
    | NameTaken | KeyHasName(existing: Option<string>)
    | NotTheOwner | NameNotFound
    | InvalidOffer | OfferExists | OfferAmbiguous | OfferNotFound | OfferConsumed | OfferGone(how: Status)
    | NotTheBuyer | OwnerHasChanged | InvalidProof | AddressMismatch | AmountMismatch
    | PaymentUnconfirmed | ProofReused

  datatype Verdict = Available | Malformed | ReservedTerm | Taken

  datatype Reply =
    | Refused(why: Refusal)
    | Availability(name: string, verdict: Verdict)
    | Registered(created: bool, name: string)
    | Released(name: string)
    | Lodged(offerId: string, name: string, expiresAt: i64)
    | OfferView(event: OfferEvent, status: Status)
    | RevokedOffer(offerId: string)
    | Claimed(created: bool, name: string, buyer: string)

  datatype RegisterBody = RegisterBody(name: string, pubkey: string)
  datatype ProofField = MissingProof | UnreadableProof | GivenProof(raw: RawProof)
  datatype ClaimBody = ClaimBody(offerId: string, proof: ProofField)

  // A request after routing and JSON parsing; None stands for a body that does not parse.
  datatype Target =
    | ToAvailability(name: string)
    | ToRegister(body: Option<RegisterBody>)
    | ToUnregister(name: string)
    | ToLodge(offer: Option<OfferEvent>)
    | ToRead(offerId: string)
    | ToRevoke(offerId: string)
    | ToClaim(claim: Option<ClaimBody>)

  predicate GoodName(cfg: Config, name: string) {
    ValidName(name, cfg.nameMin, cfg.nameMax) && !IsReserved(name, RESERVED, cfg.extraReserved)
  }

  datatype OfferTags = OfferTags(name: string, domain: string, buyer: string, price: string,
                                 proofAddress: string, expiration: string)

  // All six tags, each as its last occurrence has it.
  function OfferTagsOf(tags: seq<seq<string>>): Option<OfferTags> {
    var name, domain, buyer := Last(tags, "name", false), Last(tags, "domain", false), Last(tags, "p", false);
    var price, address := Last(tags, "price", false), Last(tags, "proof_address", false);
    var expiration := Last(tags, "expiration", false);
    if name.Some? && domain.Some? && buyer.Some? && price.Some? && address.Some? && expiration.Some? then
      Some(OfferTags(name.value, domain.value, buyer.value, price.value, address.value, expiration.value))
    else None
  }

  // The scan as the source runs it: six locals, each overwritten by a later tag, with a
  // tag that has no value resetting its local.
  method ExtractOfferTags(tags: seq<seq<string>>) returns (r: Option<OfferTags>)
    ensures r == OfferTagsOf(tags)
  {
    var name: Option<string>, domain: Option<string>, buyer: Option<string> := None, None, None;
    var price: Option<string>, address: Option<string>, expiration: Option<string> := None, None, None;
    var i := 0;
    while i < |tags|
      invariant 0 <= i <= |tags|
      invariant name == Last(tags[..i], "name", false)
      invariant domain == Last(tags[..i], "domain", false)
      invariant buyer == Last(tags[..i], "p", false)
      invariant price == Last(tags[..i], "price", false)
      invariant address == Last(tags[..i], "proof_address", false)
      invariant expiration == Last(tags[..i], "expiration", false)
    {
      var tag := tags[i];
      assert tags[..i + 1][..i] == tags[..i] && tags[..i + 1][i] == tag;
      if |tag| > 0 {
        match tag[0] {
          case "name" => name := Slot(tag);
          case "domain" => domain := Slot(tag);
          case "p" => buyer := Slot(tag);
          case "price" => price := Slot(tag);
          case "proof_address" => address := Slot(tag);
          case "expiration" => expiration := Slot(tag);
          case _ =>
        }
      }
      i := i + 1;
    }
    assert tags[..i] == tags;
    if name.None? || domain.None? || buyer.None? || price.None? || address.None? || expiration.None? {
      return None;
    }
    return Some(OfferTags(name.value, domain.value, buyer.value, price.value, address.value, expiration.value));
  }

  // The signed price, before the cast to the i64 column.
  function SignedPrice(cfg: Config, event: OfferEvent): Option<u64> {
    match OfferTagsOf(event.tags)
    case None => None
    case Some(tags) => cfg.lib.parseU64(cfg.lib.trim(tags.price))
  }

  // The lodge checks on the event alone, in the source's order.
  function RowFromTags(cfg: Config, event: OfferEvent, tags: OfferTags, now: int): Result<OfferRow, Refusal> {
    if !ValidName(tags.name, cfg.nameMin, cfg.nameMax) || tags.domain != cfg.domain then Err(InvalidOffer)
    else if !ValidPubkeyHex(Lower(tags.buyer)) then Err(InvalidOffer)
    else
      match cfg.lib.parseU64(cfg.lib.trim(tags.price))
      case None => Err(InvalidOffer)
      case Some(price) =>
        var address := NormalizeGrinAddress(cfg.lib, tags.proofAddress);
        if DecodeGrinAddress(cfg.lib, address).None? then Err(InvalidOffer)
        else
          match cfg.lib.parseI64(cfg.lib.trim(tags.expiration))
          case None => Err(InvalidOffer)
          case Some(expiration) =>
            if expiration <= now || expiration > now + cfg.transferMaxOfferTtl then Err(InvalidOffer)
            else
              Ok(OfferRow(event.id, event, tags.name, event.pubkey, Lower(tags.buyer), ToI64(price),
                          address, expiration, now, Live, None, None))
  }

  function RowFromEvent(cfg: Config, auth: string, offer: Option<OfferEvent>, now: int): Result<OfferRow, Refusal> {
    match offer
    case None => Err(InvalidOffer)
    case Some(event) =>
      if !event.signed || event.kind != OFFER_KIND then Err(InvalidOffer)
      else if event.pubkey != auth then Err(KeyMismatch)
      else
        match OfferTagsOf(event.tags)
        case None => Err(InvalidOffer)
        case Some(tags) => RowFromTags(cfg, event, tags, now)
  }
}
