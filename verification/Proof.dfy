/** Grin payment proofs: the 73-byte signed message, hex, amounts and the two signatures. */
module Proof {
  import opened Prelude

  // The codecs and the signature check the program takes from libraries.
  datatype Library = Library(
    trim: string -> string,
    parseU64: string -> Option<u64>,
    parseI64: string -> Option<i64>,
    bech32: string -> Option<(string, seq<byte>)>,
    ed25519: (seq<byte>, seq<byte>, seq<byte>) -> bool,
    sha256Hex: seq<byte> -> string)

  // The six fields of a proof as read from JSON, and the proof kept by the claim handler.
  datatype RawProof = RawProof(amount: u64, excess: string,
                               recipientAddress: string, recipientSig: string,
                               senderAddress: string, senderSig: string)

  datatype PaymentProof = PaymentProof(amount: u64, excessHex: string,
                                       recipientAddress: string, recipientSigHex: string,
                                       senderAddress: string, senderSigHex: string)

  function ParsePaymentProof(raw: RawProof): PaymentProof {
    PaymentProof(raw.amount, Lower(raw.excess), raw.recipientAddress, Lower(raw.recipientSig),
                 raw.senderAddress, Lower(raw.senderSig))
  }

  function NormalizeGrinAddress(lib: Library, address: string): string {
    Lower(lib.trim(address))
  }

  function DecodeGrinAddress(lib: Library, address: string): (r: Option<seq<byte>>)
    ensures r.Some? ==> |r.value| == 32
    ensures r.Some? ==>
              || lib.bech32(NormalizeGrinAddress(lib, address)) == Some(("grin", r.value))
              || lib.bech32(NormalizeGrinAddress(lib, address)) == Some(("tgrin", r.value))
  {
    match lib.bech32(NormalizeGrinAddress(lib, address))
    case None => None
    case Some(decoded) =>
      if decoded.0 !in {"grin", "tgrin"} || |decoded.1| != 32 then None else Some(decoded.1)
  }

  // Big-endian digits base 256.
  function BigEndian(x: nat, width: nat): (r: seq<byte>)
    ensures |r| == width
  {
    if width == 0 then [] else BigEndian(x / 256, width - 1) + [x % 256]
  }

  function FromBigEndian(bytes: seq<byte>): nat {
    if bytes == [] then 0 else FromBigEndian(bytes[..|bytes| - 1]) * 256 + bytes[|bytes| - 1]
  }

  function Pow256(n: nat): nat {
    if n == 0 then 1 else 256 * Pow256(n - 1)
  }

  lemma {:induction false} BigEndianRoundTrip(x: nat, width: nat)
    requires x < Pow256(width)
    ensures FromBigEndian(BigEndian(x, width)) == x
  {
    if width > 0 {
      BigEndianRoundTrip(x / 256, width - 1);
      assert BigEndian(x, width)[..width - 1] == BigEndian(x / 256, width - 1);
    }
  }

  function AmountToBeU64(amount: u64): (r: seq<byte>)
    ensures |r| == 8
  {
    BigEndian(amount, 8)
  }

  lemma AmountRoundTrip(amount: u64)
    ensures FromBigEndian(AmountToBeU64(amount)) == amount
  {
    assert Pow256(8) == TWO64 by {
      assert Pow256(2) == 0x1_0000;
      assert Pow256(4) == 0x1_0000_0000;
      assert Pow256(6) == 0x1_0000_0000_0000;
    }
    BigEndianRoundTrip(amount, 8);
  }

  function HexVal(c: char): Option<byte> {
    if '0' <= c <= '9' then Some(c as int - '0' as int)
    else if 'a' <= c <= 'f' then Some(c as int - 'a' as int + 10)
    else if 'A' <= c <= 'F' then Some(c as int - 'A' as int + 10)
    else None
  }

  // Two characters a byte, either case; odd lengths and other characters are errors.
  function HexDecode(s: string): (r: Option<seq<byte>>)
    ensures r.Some? ==> |s| == 2 * |r.value|
  {
    if s == "" then Some([])
    else if |s| == 1 then None
    else
      match (HexVal(s[0]), HexVal(s[1]), HexDecode(s[2..]))
      case (Some(hi), Some(lo), Some(rest)) => Some([(hi * 16 + lo) % 256] + rest)
      case _ => None
  }

  lemma LowerHexDigit(a: char, b: char)
    requires LowerChar(a) == a && LowerChar(b) == b
    requires HexVal(a).Some? && HexVal(a) == HexVal(b)
    ensures a == b
  {
  }

  lemma HexValRange(c: char)
    ensures HexVal(c).Some? ==> HexVal(c).value < 16
  {
  }

  // A byte value fixes its two lower-case digits.
  lemma LowerHexDigits(a0: char, a1: char, b0: char, b1: char)
    requires LowerChar(a0) == a0 && LowerChar(a1) == a1 && LowerChar(b0) == b0 && LowerChar(b1) == b1
    requires HexVal(a0).Some? && HexVal(a1).Some? && HexVal(b0).Some? && HexVal(b1).Some?
    requires (HexVal(a0).value * 16 + HexVal(a1).value) % 256 == (HexVal(b0).value * 16 + HexVal(b1).value) % 256
    ensures a0 == b0 && a1 == b1
  {
    hide HexVal, LowerChar;
    HexValRange(a0);
    HexValRange(a1);
    HexValRange(b0);
    HexValRange(b1);
    LowerHexDigit(a0, b0);
    LowerHexDigit(a1, b1);
  }

  // A lower-case spelling of a byte string is unique.
  lemma {:induction false} LowerHexInjective(a: string, b: string)
    requires Lower(a) == a && Lower(b) == b
    requires HexDecode(a).Some? && HexDecode(a) == HexDecode(b)
    ensures a == b
  {
    hide HexVal, LowerChar;
    if a != "" {
      var x, y := HexDecode(a).value, HexDecode(b).value;
      assert |a| == |b| >= 2;
      assert x[1..] == HexDecode(a[2..]).value && y[1..] == HexDecode(b[2..]).value;
      LowerTail(a);
      LowerTail(b);
      LowerHexInjective(a[2..], b[2..]);
      assert x[0] == y[0];
      assert Lower(a)[0] == a[0] && Lower(a)[1] == a[1] && Lower(b)[0] == b[0] && Lower(b)[1] == b[1];
      LowerHexDigits(a[0], a[1], b[0], b[1]);
      assert a == a[..2] + a[2..] && b == b[..2] + b[2..];
    }
  }

  lemma LowerTail(a: string)
    requires Lower(a) == a && |a| >= 2
    ensures Lower(a[2..]) == a[2..]
  {
    hide LowerChar;
    forall i | 0 <= i < |a[2..]|
      ensures Lower(a[2..])[i] == a[2..][i]
    {
      assert a[2..][i] == a[i + 2] && Lower(a)[i + 2] == LowerChar(a[i + 2]);
    }
  }

  lemma LowerIdempotent(s: string)
    ensures Lower(Lower(s)) == Lower(s)
  {
    assert forall i :: 0 <= i < |s| ==> LowerChar(LowerChar(s[i])) == LowerChar(s[i]);
  }

  function PaymentProofMessage(amount: u64, excessHex: string, sender: seq<byte>): (r: Option<seq<byte>>)
  {
    match HexDecode(excessHex)
    case None => None
    case Some(excess) =>
      if |excess| != 33 then None else Some(AmountToBeU64(amount) + excess + sender)
  }

  // The source fills a byte buffer piece by piece.
  method BuildPaymentProofMessage(amount: u64, excessHex: string, sender: seq<byte>)
    returns (r: Option<seq<byte>>)
    requires |sender| == 32
    ensures r == PaymentProofMessage(amount, excessHex, sender)
    ensures r.Some? ==> |r.value| == 73
    ensures r.Some? <==> HexDecode(excessHex).Some? && |excessHex| == 66
  {
    var decoded := HexDecode(excessHex);
    if decoded.None? {
      return None;
    }
    if |decoded.value| != 33 {
      return None;
    }
    var msg: seq<byte> := AmountToBeU64(amount);
    msg := msg + decoded.value;
    msg := msg + sender;
    return Some(msg);
  }

  // The message determines everything the wallets signed over.
  lemma MessageInjective(a1: u64, e1: string, s1: seq<byte>, a2: u64, e2: string, s2: seq<byte>)
    requires |s1| == 32 && |s2| == 32
    requires PaymentProofMessage(a1, e1, s1).Some?
    requires PaymentProofMessage(a1, e1, s1) == PaymentProofMessage(a2, e2, s2)
    ensures a1 == a2 && HexDecode(e1) == HexDecode(e2) && s1 == s2
    ensures Lower(e1) == e1 && Lower(e2) == e2 ==> e1 == e2
  {
    var m1, m2 := PaymentProofMessage(a1, e1, s1).value, PaymentProofMessage(a2, e2, s2).value;
    var x1, x2 := HexDecode(e1).value, HexDecode(e2).value;
    assert m1[..8] == AmountToBeU64(a1) && m2[..8] == AmountToBeU64(a2);
    assert m1[8..41] == x1 && m2[8..41] == x2;
    assert m1[41..] == s1 && m2[41..] == s2;
    AmountRoundTrip(a1);
    AmountRoundTrip(a2);
    if Lower(e1) == e1 && Lower(e2) == e2 {
      LowerHexInjective(e1, e2);
    }
  }

  predicate SignedBy(lib: Library, pub: seq<byte>, message: seq<byte>, sigHex: string) {
    match HexDecode(sigHex)
    case None => false
    case Some(sig) => |sig| == 64 && lib.ed25519(pub, message, sig)
  }

  // Both signatures over one message, each under its own address.
  predicate VerifySignatures(lib: Library, proof: PaymentProof) {
    match DecodeGrinAddress(lib, proof.recipientAddress)
    case None => false
    case Some(recipient) =>
      match DecodeGrinAddress(lib, proof.senderAddress)
      case None => false
      case Some(sender) =>
        match PaymentProofMessage(proof.amount, proof.excessHex, sender)
        case None => false
        case Some(msg) =>
          && SignedBy(lib, recipient, msg, proof.recipientSigHex)
          && SignedBy(lib, sender, msg, proof.senderSigHex)
  }

  // A price goes into the table as i64 and is compared as u64; the handler refuses
  // negative rows. What passes is exactly the signed amount, and nothing from 2^63 up passes.
  lemma PriceRoundTrip(price: u64, amount: u64)
    ensures ToU64(ToI64(price)) == price
    ensures (ToI64(price) >= 0 && amount == ToU64(ToI64(price))) <==> (amount == price && price < TWO63)
  {
  }
}
