/** What an accepted authorization header shows, and what a refused one lacks, tag by tag. */
module Credentials {
  import opened Prelude
  import opened Proof
  import opened Auth
  import opened Spelling

  // ---------------------------------------------------------------- tags by position

  predicate Named(tag: seq<string>, key: string, valued: bool) {
    |tag| > 0 && tag[0] == key && (valued ==> |tag| > 1)
  }

  // Position `i` has the last tag with this key; a `valued` scan sees only those with a value.
  predicate LastAt(tags: seq<seq<string>>, key: string, valued: bool, i: int) {
    0 <= i < |tags| && Named(tags[i], key, valued) && forall j :: i < j < |tags| ==> !Named(tags[j], key, valued)
  }

  // The last tag with this key carries this value.
  ghost predicate Says(tags: seq<seq<string>>, key: string, valued: bool, v: string) {
    exists i :: LastAt(tags, key, valued, i) && |tags[i]| > 1 && tags[i][1] == v
  }

  lemma {:induction false} SaysIff(tags: seq<seq<string>>, key: string, valued: bool, v: string)
    ensures Last(tags, key, valued) == Some(v) <==> Says(tags, key, valued, v)
  {
    if tags != [] {
      var n := |tags| - 1;
      var rest := tags[..n];
      SaysIff(rest, key, valued, v);
      if Named(tags[n], key, valued) {
        assert LastAt(tags, key, valued, n);
        assert forall i :: LastAt(tags, key, valued, i) ==> i == n;
      } else {
        forall i ensures LastAt(tags, key, valued, i) <==> LastAt(rest, key, valued, i) {
          assert forall j :: 0 <= j < n ==> tags[j] == rest[j];
        }
      }
    }
  }

  // ---------------------------------------------------------------- the header

  ghost predicate UrlTag(tags: seq<seq<string>>, url: string) {
    exists v :: Says(tags, "u", true, v) && SameRoot(v, url)
  }

  predicate SameWord(a: string, b: string) {
    |a| == |b| && forall i :: 0 <= i < |a| ==> SameLetter(a[i], b[i])
  }

  ghost predicate MethodTag(tags: seq<seq<string>>, verb: string) {
    exists v :: Says(tags, "method", true, v) && SameWord(v, verb)
  }

  ghost predicate HasPayload(tags: seq<seq<string>>) {
    exists v :: Says(tags, "payload", false, v)
  }

  // The payload tag names the body's hash; without a payload value the body must be empty.
  ghost predicate PayloadTag(tags: seq<seq<string>>, hash: string, body: seq<byte>) {
    if HasPayload(tags) then exists v :: Says(tags, "payload", false, v) && SameWord(v, hash) else body == []
  }

  // The u64 stamp read as a signed number of seconds.
  function Stamp(createdAt: u64): int {
    if createdAt < 0x8000_0000_0000_0000 then createdAt else createdAt - 0x1_0000_0000_0000_0000
  }

  predicate InSeason(e: AuthEvent, maxAge: int, now: int) {
    -5 <= now - Stamp(e.createdAt) && now - Stamp(e.createdAt) <= maxAge
  }

  // A signed event of kind 27235, in season, for this address, verb and body.
  ghost predicate Presents(lib: Library, e: AuthEvent, verb: string, url: string, body: seq<byte>, maxAge: int,
                           now: int) {
    && e.signed && e.kind == 27235 && InSeason(e, maxAge, now)
    && UrlTag(e.tags, url) && MethodTag(e.tags, verb) && PayloadTag(e.tags, lib.sha256Hex(body), body)
  }

  lemma UrlTagIff(tags: seq<seq<string>>, url: string)
    ensures UrlTag(tags, url) <==> Last(tags, "u", true).Some? && UrlOk(Last(tags, "u", true).value, url)
  {
    hide Last, UrlOk, Says, SameRoot;
    forall v ensures Last(tags, "u", true) == Some(v) <==> Says(tags, "u", true, v) {
      SaysIff(tags, "u", true, v);
    }
    forall v ensures UrlOk(v, url) <==> SameRoot(v, url) {
      UrlOkIff(v, url);
    }
    if Last(tags, "u", true).Some? {
      assert Says(tags, "u", true, Last(tags, "u", true).value);
    }
  }

  lemma MethodTagIff(tags: seq<seq<string>>, verb: string)
    ensures MethodTag(tags, verb)
        <==> Last(tags, "method", true).Some? && MethodOk(Last(tags, "method", true).value, verb)
  {
    hide Last, Says, EqIgnoreAsciiCase, SameLetter;
    forall v ensures Last(tags, "method", true) == Some(v) <==> Says(tags, "method", true, v) {
      SaysIff(tags, "method", true, v);
    }
    forall v: string ensures EqIgnoreAsciiCase(v, verb) <==> SameWord(v, verb) {
      EqIgnoreAsciiCaseIff(v, verb);
    }
    if Last(tags, "method", true).Some? {
      assert Says(tags, "method", true, Last(tags, "method", true).value);
    }
  }

  lemma PayloadTagIff(tags: seq<seq<string>>, hash: string, body: seq<byte>)
    ensures HasPayload(tags) <==> Last(tags, "payload", false).Some?
    ensures PayloadTag(tags, hash, body)
            <==> match Last(tags, "payload", false)
                 case Some(v) => EqIgnoreAsciiCase(v, hash)
                 case None => body == []
  {
    hide Last, Says, EqIgnoreAsciiCase, SameLetter;
    forall v ensures Last(tags, "payload", false) == Some(v) <==> Says(tags, "payload", false, v) {
      SaysIff(tags, "payload", false, v);
    }
    forall v: string ensures EqIgnoreAsciiCase(v, hash) <==> SameWord(v, hash) {
      EqIgnoreAsciiCaseIff(v, hash);
    }
    if Last(tags, "payload", false).Some? {
      assert Says(tags, "payload", false, Last(tags, "payload", false).value);
    }
  }

  // The check accepts exactly the headers that present all of it, and names the event's
  // own key and id.
  lemma AcceptedIff(lib: Library, auth: Option<AuthEvent>, verb: string, url: string, body: seq<byte>, maxAge: int,
                    now: int, key: string, id: string)
    ensures VerifyNip98(lib, auth, verb, url, body, maxAge, now) == Ok(Identity(key, id))
            <==> auth.Some? && Presents(lib, auth.value, verb, url, body, maxAge, now)
                 && auth.value.pubkey == key && auth.value.id == id
  {
    hide Last, UrlOk, MethodOk, EqIgnoreAsciiCase, UrlTag, MethodTag, PayloadTag, HasPayload;
    if auth.Some? {
      UrlTagIff(auth.value.tags, url);
      MethodTagIff(auth.value.tags, verb);
      PayloadTagIff(auth.value.tags, lib.sha256Hex(body), body);
    }
  }

  // Every refusal names the first thing missing.
  lemma RefusedBecause(lib: Library, auth: Option<AuthEvent>, verb: string, url: string, body: seq<byte>, maxAge: int,
                       now: int)
    ensures var r := VerifyNip98(lib, auth, verb, url, body, maxAge, now);
            && (r == Err(BadHeader) <==> auth.None?)
            && (auth.Some? ==>
                  var e := auth.value;
                  var early := e.signed && e.kind == 27235 && InSeason(e, maxAge, now);
                  && (r == Err(BadSignature) <==> !e.signed)
                  && (r == Err(BadKind) <==> e.signed && e.kind != 27235)
                  && (r == Err(Stale) <==> e.signed && e.kind == 27235 && !InSeason(e, maxAge, now))
                  && (r == Err(UrlMismatch) <==> early && !UrlTag(e.tags, url))
                  && (r == Err(MethodMismatch) <==> early && UrlTag(e.tags, url) && !MethodTag(e.tags, verb))
                  && var late := early && UrlTag(e.tags, url) && MethodTag(e.tags, verb);
                     && (r == Err(PayloadMissing) <==> late && !HasPayload(e.tags) && body != [])
                     && (r == Err(PayloadMismatch)
                         <==> late && HasPayload(e.tags) && !PayloadTag(e.tags, lib.sha256Hex(body), body)))
  {
    hide Last, UrlOk, MethodOk, EqIgnoreAsciiCase, UrlTag, MethodTag, PayloadTag, HasPayload;
    if auth.Some? {
      UrlTagIff(auth.value.tags, url);
      MethodTagIff(auth.value.tags, verb);
      PayloadTagIff(auth.value.tags, lib.sha256Hex(body), body);
    }
  }
}
