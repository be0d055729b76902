/** The operator's own domain labels, reserved automatically. */
module Domain {
  import opened Prelude
  import opened Names

  // str::split on a dot: n dots make n + 1 pieces.
  function Split(s: string): (r: seq<string>)
    ensures |r| >= 1
  {
    if s == "" then [""]
    else
      var rest := Split(s[1..]);
      if s[0] == '.' then [""] + rest else [[s[0]] + rest[0]] + rest[1..]
  }

  function TrimDots(s: string): string {
    if s != "" && s[|s| - 1] == '.' then TrimDots(s[..|s| - 1]) else s
  }

  function NonEmpty(pieces: seq<string>): seq<string> {
    if pieces == [] then []
    else (if pieces[0] == "" then [] else [pieces[0]]) + NonEmpty(pieces[1..])
  }

  function LowerAll(labels: seq<string>): seq<string> {
    seq(|labels|, i requires 0 <= i < |labels| => Lower(labels[i]))
  }

  // All labels but the last; a single label stands for itself.
  function AllButTld(labels: seq<string>): seq<string> {
    if |labels| > 1 then labels[..|labels| - 1] else labels
  }

  function DomainReserved(trim: string -> string, domain: string): seq<string> {
    LowerAll(AllButTld(NonEmpty(Split(TrimDots(trim(domain))))))
  }

  function Join(pieces: seq<string>): string
    requires pieces != []
  {
    if |pieces| == 1 then pieces[0] else pieces[0] + "." + Join(pieces[1..])
  }

  predicate DotFree(pieces: seq<string>) {
    forall i :: 0 <= i < |pieces| ==> '.' !in pieces[i]
  }

  lemma {:induction false} SplitOne(piece: string)
    requires '.' !in piece
    ensures Split(piece) == [piece]
  {
    if piece != "" {
      SplitOne(piece[1..]);
      assert [piece[0]] + piece[1..] == piece;
    }
  }

  lemma {:induction false} SplitFirst(piece: string, rest: string)
    requires '.' !in piece
    ensures Split(piece + "." + rest) == [piece] + Split(rest)
  {
    var s := piece + "." + rest;
    if piece == "" {
      assert s[1..] == rest;
    } else {
      assert s[1..] == piece[1..] + "." + rest;
      SplitFirst(piece[1..], rest);
      assert [piece[0]] + piece[1..] == piece;
    }
  }

  lemma {:induction false} SplitInvertsJoin(pieces: seq<string>)
    requires pieces != [] && DotFree(pieces)
    ensures Split(Join(pieces)) == pieces
  {
    if |pieces| == 1 {
      SplitOne(pieces[0]);
    } else {
      SplitInvertsJoin(pieces[1..]);
      SplitFirst(pieces[0], Join(pieces[1..]));
    }
  }

  lemma {:induction false} SplitTrailingDot(s: string)
    ensures Split(s + ".") == Split(s) + [""]
  {
    if s == "" {
      assert s + "." == ".";
      assert Split("") == [""];
    } else {
      assert (s + ".")[1..] == s[1..] + ".";
      SplitTrailingDot(s[1..]);
    }
  }

  lemma {:induction false} NonEmptyAppend(a: seq<string>, b: seq<string>)
    ensures NonEmpty(a + b) == NonEmpty(a) + NonEmpty(b)
  {
    if a == [] {
      assert a + b == b;
    } else {
      assert (a + b)[1..] == a[1..] + b;
      NonEmptyAppend(a[1..], b);
    }
  }

  lemma {:induction false} NonEmptyKeeps(labels: seq<string>)
    requires forall i :: 0 <= i < |labels| ==> labels[i] != ""
    ensures NonEmpty(labels) == labels
  {
    if labels != [] {
      NonEmptyKeeps(labels[1..]);
    }
  }

  // Trimming the trailing dots first changes nothing: the empty labels they would leave
  // are dropped anyway.
  lemma {:induction false} TrailingDotsDoNotMatter(s: string)
    ensures NonEmpty(Split(TrimDots(s))) == NonEmpty(Split(s))
  {
    if s != "" && s[|s| - 1] == '.' {
      var shorter := s[..|s| - 1];
      assert s == shorter + ".";
      TrailingDotsDoNotMatter(shorter);
      SplitTrailingDot(shorter);
      NonEmptyAppend(Split(shorter), [""]);
      assert NonEmpty([""]) == [];
    }
  }

  // A host written as dot-separated pieces, empty ones among them or not: exactly its
  // non-empty labels but the last are reserved, lower-cased.
  lemma ReservedLabels(trim: string -> string, domain: string, pieces: seq<string>)
    requires pieces != [] && DotFree(pieces) && trim(domain) == Join(pieces)
    ensures DomainReserved(trim, domain) == LowerAll(AllButTld(NonEmpty(pieces)))
    ensures (forall i :: 0 <= i < |pieces| ==> pieces[i] != "") ==>
        DomainReserved(trim, domain) == LowerAll(AllButTld(pieces))
  {
    TrailingDotsDoNotMatter(Join(pieces));
    SplitInvertsJoin(pieces);
    if forall i :: 0 <= i < |pieces| ==> pieces[i] != "" {
      NonEmptyKeeps(pieces);
    }
  }

  // No name that reads like one of the operator's labels passes the reserved test.
  lemma BrandIsReserved(trim: string -> string, domain: string, builtin: seq<string>, more: seq<string>, brand: string,
                        name: string)
    requires brand in DomainReserved(trim, domain) && Fold(name) == Fold(brand)
    ensures IsReserved(name, builtin, DomainReserved(trim, domain) + more)
  {
    assert brand in DomainReserved(trim, domain) + more;
    ReservedIsFoldClass(name, builtin, DomainReserved(trim, domain) + more);
    assert brand in builtin + (DomainReserved(trim, domain) + more);
  }
}
