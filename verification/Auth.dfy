/** NIP-98 authorization: freshness bounds and the tag scan. */
module Auth {
  import opened Prelude
  import opened Proof

  const HTTP_AUTH_KIND: nat := 27235

  // A decoded auth event; `signed` says whether id and signature verify.
  datatype AuthEvent = AuthEvent(id: string, pubkey: string, kind: nat, signed: bool,
                                 createdAt: u64, tags: seq<seq<string>>)

  datatype AuthError =
    | BadHeader | BadSignature | BadKind | Stale
    | UrlMismatch | MethodMismatch | PayloadMismatch | PayloadMissing

  // The authenticated key and the event id.
  datatype Identity = Identity(pubkey: string, eventId: string)

  // Seconds between the event's stamp and now, on the wall clock.
  function Age(now: int, createdAt: u64): int {
    now - ToI64(createdAt)
  }

  predicate FreshAge(age: int, maxAge: int) {
    -5 <= age <= maxAge
  }

  // Two's complement, as a release build computes the age.
  function WrapI64(x: int): i64 {
    ToI64(x % TWO64)
  }

  // A stamp from the far past overflows the subtraction; the wrapped age is refused too.
  lemma AgeWrapIsInvisible(now: i64, createdAt: u64, maxAge: i64)
    requires 0 <= now < TWO63 - 5
    ensures FreshAge(WrapI64(Age(now, createdAt)), maxAge) <==> FreshAge(Age(now, createdAt), maxAge)
  {
    var age := Age(now, createdAt);
    if age >= TWO63 {
      assert age % TWO64 == age;
    } else if age < 0 {
      assert age % TWO64 == age + TWO64;
    }
  }

  predicate HasKey(tag: seq<string>, key: string) {
    |tag| > 0 && tag[0] == key
  }

  // Tags that a scan for `key` looks at; a `valued` scan passes over tags without a value.
  predicate Relevant(tag: seq<string>, key: string, valued: bool) {
    HasKey(tag, key) && (valued ==> |tag| > 1)
  }

  function Slot(tag: seq<string>): Option<string> {
    if |tag| > 1 then Some(tag[1]) else None
  }

  // What the last relevant tag says.
  function Last(tags: seq<seq<string>>, key: string, valued: bool): Option<string> {
    if tags == [] then None
    else if Relevant(tags[|tags| - 1], key, valued) then Slot(tags[|tags| - 1])
    else Last(tags[..|tags| - 1], key, valued)
  }

  lemma {:induction false} LastTagWins(tags: seq<seq<string>>, key: string, valued: bool, i: nat)
    requires i < |tags| && Relevant(tags[i], key, valued)
    requires forall j :: i < j < |tags| ==> !Relevant(tags[j], key, valued)
    ensures Last(tags, key, valued) == Slot(tags[i])
    ensures valued ==> Last(tags, key, valued).Some?
  {
    if i < |tags| - 1 {
      LastTagWins(tags[..|tags| - 1], key, valued, i);
    }
  }

  lemma {:induction false} NoTagNoValue(tags: seq<seq<string>>, key: string, valued: bool)
    requires forall j :: 0 <= j < |tags| ==> !Relevant(tags[j], key, valued)
    ensures Last(tags, key, valued) == None
  {
    if tags != [] {
      NoTagNoValue(tags[..|tags| - 1], key, valued);
    }
  }

  function TrimSlashes(s: string): string {
    if s != "" && s[|s| - 1] == '/' then TrimSlashes(s[..|s| - 1]) else s
  }

  predicate UrlOk(u: string, url: string) {
    TrimSlashes(u) == TrimSlashes(url)
  }

  predicate MethodOk(m: string, verb: string) {
    EqIgnoreAsciiCase(m, verb)
  }

  // The check as a whole: a `u` or `method` tag without a value is ignored, while a
  // `payload` tag without a value cancels an earlier payload hash.
  function VerifyNip98(lib: Library, auth: Option<AuthEvent>, verb: string, url: string,
                       body: seq<byte>, maxAge: int, now: int): Result<Identity, AuthError>
  {
    if auth.None? then Err(BadHeader)
    else
      var e := auth.value;
      if !e.signed then Err(BadSignature)
      else if e.kind != HTTP_AUTH_KIND then Err(BadKind)
      else if !FreshAge(Age(now, e.createdAt), maxAge) then Err(Stale)
      else if !(Last(e.tags, "u", true).Some? && UrlOk(Last(e.tags, "u", true).value, url)) then Err(UrlMismatch)
      else if !(Last(e.tags, "method", true).Some? && MethodOk(Last(e.tags, "method", true).value, verb)) then
          Err(MethodMismatch)
      else
        match Last(e.tags, "payload", false)
        case Some(hash) =>
          if EqIgnoreAsciiCase(hash, lib.sha256Hex(body)) then Ok(Identity(e.pubkey, e.id)) else Err(PayloadMismatch)
        case None =>
          if body == [] then Ok(Identity(e.pubkey, e.id)) else Err(PayloadMissing)
  }

  // The scan as the source runs it: one pass, three locals overwritten on the way.
  method CheckNip98(lib: Library, auth: Option<AuthEvent>, verb: string, url: string,
                    body: seq<byte>, maxAge: int, now: int)
    returns (r: Result<Identity, AuthError>)
    ensures r == VerifyNip98(lib, auth, verb, url, body, maxAge, now)
  {
    hide UrlOk, MethodOk, EqIgnoreAsciiCase, Age;
    if auth.None? {
      return Err(BadHeader);
    }
    var e := auth.value;
    if !e.signed {
      return Err(BadSignature);
    }
    if e.kind != HTTP_AUTH_KIND {
      return Err(BadKind);
    }
    var age := Age(now, e.createdAt);
    if age > maxAge || age < -5 {
      return Err(Stale);
    }
    var uOk, methodOk := false, false;
    var payloadHash: Option<string> := None;
    var i := 0;
    while i < |e.tags|
      invariant 0 <= i <= |e.tags|
      invariant uOk == (Last(e.tags[..i], "u", true).Some? && UrlOk(Last(e.tags[..i], "u", true).value, url))
      invariant methodOk
          == (Last(e.tags[..i], "method", true).Some? && MethodOk(Last(e.tags[..i], "method", true).value, verb))
      invariant payloadHash == Last(e.tags[..i], "payload", false)
    {
      var tag := e.tags[i];
      assert e.tags[..i + 1][..i] == e.tags[..i] && e.tags[..i + 1][i] == tag;
      if HasKey(tag, "u") {
        if |tag| > 1 {
          uOk := UrlOk(tag[1], url);
        }
      } else if HasKey(tag, "method") {
        if |tag| > 1 {
          methodOk := MethodOk(tag[1], verb);
        }
      } else if HasKey(tag, "payload") {
        payloadHash := if |tag| > 1 then Some(tag[1]) else None;
      }
      i := i + 1;
    }
    assert e.tags[..i] == e.tags;
    if !uOk {
      return Err(UrlMismatch);
    }
    if !methodOk {
      return Err(MethodMismatch);
    }
    if payloadHash.Some? {
      if !EqIgnoreAsciiCase(payloadHash.value, lib.sha256Hex(body)) {
        return Err(PayloadMismatch);
      }
    } else if body != [] {
      return Err(PayloadMissing);
    }
    return Ok(Identity(e.pubkey, e.id));
  }
}
