/** What the character-level rules amount to, read off the alphabets themselves. */
module Spelling {
  import opened Prelude
  import opened Names
  import opened Proof
  import opened Auth

  // ---------------------------------------------------------------- letter case

  lemma LowerTable(c: char)
    ensures 65 <= c as int <= 90 ==> Lower([c])[0] as int == c as int + 32
    ensures !(65 <= c as int <= 90) && c as int != 0x212A ==> Lower([c])[0] == c
    ensures Lower("\U{212A}") == "k"
  {
  }

  // Two characters that differ at most in ASCII case.
  predicate SameLetter(a: char, b: char) {
    || a == b
    || (65 <= a as int <= 90 && b as int == a as int + 32)
    || (65 <= b as int <= 90 && a as int == b as int + 32)
  }

  lemma EqIgnoreAsciiCaseIff(a: string, b: string)
    ensures EqIgnoreAsciiCase(a, b) <==> |a| == |b| && forall i :: 0 <= i < |a| ==> SameLetter(a[i], b[i])
  {
    assert forall x, y :: AsciiLowerChar(x) == AsciiLowerChar(y) <==> SameLetter(x, y);
  }

  // ---------------------------------------------------------------- hex

  // The character is a hex digit of this value, in either case, by its ASCII code.
  predicate Digit(c: char, v: int) {
    || (0 <= v < 10 && c as int == 48 + v)
    || (10 <= v < 16 && (c as int == 87 + v || c as int == 55 + v))
  }

  predicate HexOf(s: string, bytes: seq<byte>) {
    |s| == 2 * |bytes|
    && forall i :: 0 <= i < |bytes| ==> Digit(s[2 * i], bytes[i] / 16) && Digit(s[2 * i + 1], bytes[i] % 16)
  }

  lemma HexValIff(c: char, v: int)
    requires 0 <= v < 256
    ensures HexVal(c) == Some(v) <==> Digit(c, v)
  {
  }

  lemma {:induction false} HexDecodeIff(s: string, bytes: seq<byte>)
    ensures HexDecode(s) == Some(bytes) <==> HexOf(s, bytes)
  {
    hide HexVal, Digit;
    if |s| < 2 {
      assert |s| == 1 ==> !HexOf(s, bytes);
    } else if bytes == [] {
      assert !HexOf(s, bytes);
    } else {
      HexDecodeIff(s[2..], bytes[1..]);
      HexTail(s, bytes);
      HexByte(s[0], s[1], bytes[0]);
      assert bytes == [bytes[0]] + bytes[1..];
    }
  }

  lemma Nibbles(h: int, l: int, x: byte)
    requires 0 <= h < 16 && 0 <= l < 16
    ensures (h * 16 + l) % 256 == x <==> h == x / 16 && l == x % 16
  {
  }

  lemma HexByte(c: char, d: char, x: byte)
    ensures HexVal(c).Some? && HexVal(d).Some? && (HexVal(c).value * 16 + HexVal(d).value) % 256 == x
            <==> Digit(c, x / 16) && Digit(d, x % 16)
  {
    hide HexVal, Digit;
    HexValRange(c);
    HexValRange(d);
    HexValIff(c, x / 16);
    HexValIff(d, x % 16);
    if HexVal(c).Some? && HexVal(d).Some? {
      Nibbles(HexVal(c).value, HexVal(d).value, x);
    }
  }

  lemma HexTail(s: string, bytes: seq<byte>)
    requires |s| >= 2 && |bytes| >= 1
    ensures HexOf(s, bytes)
            <==> Digit(s[0], bytes[0] / 16) && Digit(s[1], bytes[0] % 16) && HexOf(s[2..], bytes[1..])
  {
    hide Digit;
    if HexOf(s[2..], bytes[1..]) && Digit(s[0], bytes[0] / 16) && Digit(s[1], bytes[0] % 16) {
      forall i | 0 <= i < |bytes| ensures Digit(s[2 * i], bytes[i] / 16) && Digit(s[2 * i + 1], bytes[i] % 16) {
        if i > 0 {
          assert s[2..][2 * (i - 1)] == s[2 * i] && s[2..][2 * (i - 1) + 1] == s[2 * i + 1];
          assert bytes[1..][i - 1] == bytes[i];
        }
      }
    }
    if HexOf(s, bytes) {
      forall i | 0 <= i < |bytes[1..]|
        ensures Digit(s[2..][2 * i], bytes[1..][i] / 16) && Digit(s[2..][2 * i + 1], bytes[1..][i] % 16)
      {
        assert s[2..][2 * i] == s[2 * (i + 1)] && s[2..][2 * i + 1] == s[2 * (i + 1) + 1];
        assert bytes[1..][i] == bytes[i + 1];
      }
      assert Digit(s[2 * 0], bytes[0] / 16) && Digit(s[2 * 0 + 1], bytes[0] % 16);
    }
  }

  predicate HexDigit(c: char) {
    exists v | 0 <= v < 16 :: Digit(c, v)
  }

  // Sixty-four hex digits; keys come in lower case.
  predicate Hex64(s: string) {
    |s| == 64 && forall i :: 0 <= i < 64 ==> HexDigit(s[i])
  }

  predicate Hex64Small(s: string) {
    Hex64(s) && forall i :: 0 <= i < 64 ==> !(65 <= s[i] as int <= 90)
  }

  lemma HexDigitIff(c: char)
    ensures HexDigit(c) <==> '0' <= c <= '9' || 'a' <= c <= 'f' || 'A' <= c <= 'F'
  {
    if '0' <= c <= '9' { assert Digit(c, c as int - 48); }
    if 'a' <= c <= 'f' { assert Digit(c, c as int - 87); }
    if 'A' <= c <= 'F' { assert Digit(c, c as int - 55); }
  }

  lemma Hex64Iff(s: string)
    ensures ValidPubkeyHex(s) <==> Hex64Small(s)
    ensures ValidOfferId(s) <==> Hex64(s)
  {
    hide HexDigit;
    forall c: char ensures HexDigit(c) <==> '0' <= c <= '9' || 'a' <= c <= 'f' || 'A' <= c <= 'F' {
      HexDigitIff(c);
    }
  }

  // ---------------------------------------------------------------- names

  const ALNUM := "abcdefghijklmnopqrstuvwxyz0123456789"

  // Within the length bounds, made of letters, digits and `. _ -`, and neither starting
  // nor ending with one of those three.
  predicate IsName(name: string, min: nat, max: nat) {
    && 1 <= |name| && min <= |name| && |name| <= max
    && name[0] in ALNUM && name[|name| - 1] in ALNUM
    && forall i :: 0 <= i < |name| ==> name[i] in ALNUM || name[i] == '.' || name[i] == '_' || name[i] == '-'
  }

  lemma AlnumIff(c: char)
    ensures LowerAlnum(c) <==> c in ALNUM
  {
  }

  lemma ValidNameIff(name: string, min: nat, max: nat)
    ensures ValidName(name, min, max) <==> IsName(name, min, max)
  {
    hide LowerAlnum;
    forall c: char ensures LowerAlnum(c) <==> c in ALNUM {
      AlnumIff(c);
    }
  }

  lemma FoldOne(c: char)
    ensures Fold([c]) == FoldChar(c)
  {
    hide FoldChar;
    assert [c][1..] == "" && Fold("") == "";
  }

  // The look-alikes, digit by digit; what is not listed is left alone.
  lemma FoldTable(c: char)
    ensures c == '.' || c == '_' || c == '-' ==> Fold([c]) == ""
    ensures c == '0' ==> Fold([c]) == "o"
    ensures c == '1' ==> Fold([c]) == "i"
    ensures c == '3' ==> Fold([c]) == "e"
    ensures c == '4' ==> Fold([c]) == "a"
    ensures c == '5' ==> Fold([c]) == "s"
    ensures c == '7' ==> Fold([c]) == "t"
    ensures c == '8' ==> Fold([c]) == "b"
    ensures c == '9' ==> Fold([c]) == "g"
    ensures c !in "._-01345789" ==> Fold([c]) == [c]
  {
    hide Fold;
    FoldOne(c);
  }

  // ---------------------------------------------------------------- slashes

  // `root` with any number of slashes after it, and none at its own end.
  predicate StripsTo(s: string, root: string) {
    && |root| <= |s| && s[..|root|] == root
    && (forall i :: |root| <= i < |s| ==> s[i] == '/')
    && (root != "" ==> root[|root| - 1] != '/')
  }

  lemma {:induction false} TrimSlashesIff(s: string, root: string)
    ensures TrimSlashes(s) == root <==> StripsTo(s, root)
  {
    if s != "" && s[|s| - 1] == '/' {
      var t := s[..|s| - 1];
      TrimSlashesIff(t, root);
      if StripsTo(s, root) {
        assert |root| < |s|;
        assert t[..|root|] == s[..|root|];
      }
      if StripsTo(t, root) {
        assert s[..|root|] == t[..|root|];
      }
    } else {
      assert s[..|s|] == s;
    }
  }

  // The same up to trailing slashes.
  ghost predicate SameRoot(a: string, b: string) {
    exists root :: StripsTo(a, root) && StripsTo(b, root)
  }

  lemma UrlOkIff(u: string, url: string)
    ensures UrlOk(u, url) <==> SameRoot(u, url)
  {
    hide TrimSlashes, StripsTo;
    forall r ensures TrimSlashes(u) == r <==> StripsTo(u, r) {
      TrimSlashesIff(u, r);
    }
    forall r ensures TrimSlashes(url) == r <==> StripsTo(url, r) {
      TrimSlashesIff(url, r);
    }
    if SameRoot(u, url) {
      var r :| StripsTo(u, r) && StripsTo(url, r);
    }
    if UrlOk(u, url) {
      assert StripsTo(u, TrimSlashes(u)) && StripsTo(url, TrimSlashes(u));
    }
  }
}
