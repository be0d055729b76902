/** Name and key rules: validity, the reserved list, and look-alike folding. */
module Names {

  predicate LowerAlnum(c: char) {
    'a' <= c <= 'z' || '0' <= c <= '9'
  }

  // Length bounds, the character set, and alphanumeric ends. The source indexes the
  // first byte, so it needs a non-empty name; its configuration rules out a minimum of 0.
  predicate ValidName(name: string, min: nat, max: nat) {
    && min <= |name| <= max
    && |name| > 0
    && (forall i :: 0 <= i < |name| ==> LowerAlnum(name[i]) || name[i] in "._-")
    && LowerAlnum(name[0])
    && LowerAlnum(name[|name| - 1])
  }

  predicate ValidPubkeyHex(pk: string) {
    && |pk| == 64
    && forall i :: 0 <= i < |pk| ==> '0' <= pk[i] <= '9' || 'a' <= pk[i] <= 'f'
  }

  predicate ValidOfferId(id: string) {
    && |id| == 64
    && forall i :: 0 <= i < |id| ==> '0' <= id[i] <= '9' || 'a' <= id[i] <= 'f' || 'A' <= id[i] <= 'F'
  }

  // Separators vanish, look-alike digits become letters, everything else stays.
  function FoldChar(c: char): string {
    match c
    case '.' => ""
    case '_' => ""
    case '-' => ""
    case '0' => "o"
    case '1' => "i"
    case '3' => "e"
    case '4' => "a"
    case '5' => "s"
    case '7' => "t"
    case '8' => "b"
    case '9' => "g"
    case _ => [c]
  }

  function Fold(s: string): string {
    if s == "" then "" else FoldChar(s[0]) + Fold(s[1..])
  }

  // The source's two tests: literal membership first, then equality of folded forms.
  predicate IsReserved(name: string, builtin: seq<string>, extra: seq<string>) {
    || name in builtin
    || name in extra
    || (exists r :: r in builtin && Fold(r) == Fold(name))
    || (exists r :: r in extra && Fold(r) == Fold(name))
  }

  // The built-in reserved terms.
  const RESERVED: seq<string> := [
    "admin", "administrator", "root", "support", "help", "info", "mail", "email", "www", "relay",
    "nostr", "pay", "payment", "payments", "wallet", "official", "security", "abuse", "postmaster",
    "hostmaster", "webmaster", "contact", "team", "staff", "mod", "moderator", "moderators",
    "system", "bot", "api", "app", "dev", "developer", "test", "testing", "anonymous", "anon",
    "null", "void", "owner", "ceo", "register", "registration", "account", "accounts", "verify",
    "verified", "billing", "donate", "treasury", "faucet", "exchange", "swap", "bank", "money",
    "cash", "fees", "fee", "node", "miner", "mining", "explorer", "status", "blog", "news", "docs",
    "wiki", "store", "shop"
  ]

  // Characters that folding leaves alone.
  predicate Plain(s: string) {
    forall i :: 0 <= i < |s| ==> FoldChar(s[i]) == [s[i]]
  }

  lemma {:induction false} FoldConcat(a: string, b: string)
    ensures Fold(a + b) == Fold(a) + Fold(b)
  {
    if a == "" {
      assert a + b == b;
    } else {
      assert (a + b)[1..] == a[1..] + b;
      FoldConcat(a[1..], b);
    }
  }

  lemma {:induction false} FoldIsPlain(s: string)
    ensures Plain(Fold(s))
  {
    if s != "" {
      FoldIsPlain(s[1..]);
    }
  }

  lemma {:induction false} PlainIsFixed(s: string)
    requires Plain(s)
    ensures Fold(s) == s
  {
    if s != "" {
      PlainIsFixed(s[1..]);
    }
  }

  lemma FoldIdempotent(s: string)
    ensures Fold(Fold(s)) == Fold(s)
  {
    FoldIsPlain(s);
    PlainIsFixed(Fold(s));
  }

  // Reservedness depends on the fold class only: the literal membership test is subsumed.
  lemma ReservedIsFoldClass(name: string, builtin: seq<string>, extra: seq<string>)
    ensures IsReserved(name, builtin, extra)
            <==> exists r :: r in builtin + extra && Fold(r) == Fold(name)
  {
    if IsReserved(name, builtin, extra) {
      var r :| (r in builtin || r in extra) && Fold(r) == Fold(name);
      assert r in builtin + extra;
    }
  }

  // Names with the same folded form are reserved together.
  lemma SameFoldSameVerdict(a: string, b: string, builtin: seq<string>, extra: seq<string>)
    requires Fold(a) == Fold(b)
    ensures IsReserved(a, builtin, extra) <==> IsReserved(b, builtin, extra)
  {
    ReservedIsFoldClass(a, builtin, extra);
    ReservedIsFoldClass(b, builtin, extra);
  }

  // Folding a name, or slipping separators into it, never moves it out of its class.
  lemma SpellingDoesNotMatter(a: string, b: string, sep: string, builtin: seq<string>, extra: seq<string>)
    requires Separators(sep)
    ensures IsReserved(Fold(a), builtin, extra) <==> IsReserved(a, builtin, extra)
    ensures IsReserved(a + sep + b, builtin, extra) <==> IsReserved(a + b, builtin, extra)
  {
    FoldIdempotent(a);
    SameFoldSameVerdict(Fold(a), a, builtin, extra);
    FoldSkipsSeparators(a, b, sep);
    SameFoldSameVerdict(a + sep + b, a + b, builtin, extra);
  }

  lemma FoldSkipsSeparators(a: string, b: string, sep: string)
    requires Separators(sep)
    ensures Fold(a + sep + b) == Fold(a + b)
  {
    SeparatorsVanish(sep);
    FoldConcat(a + sep, b);
    FoldConcat(a, sep);
    FoldConcat(a, b);
    assert Fold(a) + "" == Fold(a);
  }

  predicate Separators(s: string) {
    forall i :: 0 <= i < |s| ==> s[i] == '.' || s[i] == '_' || s[i] == '-'
  }

  lemma {:induction false} SeparatorsVanish(sep: string)
    requires Separators(sep)
    ensures Fold(sep) == ""
  {
    if sep != "" {
      SeparatorsVanish(sep[1..]);
    }
  }
}
