/** What an accepted payment shows: two signatures over one message, and a kernel and a tip
    that an endpoint of the chain node reported. */
module Payments {
  import opened Prelude
  import opened Proof
  import opened Node
  import opened Api
  import opened Protocol
  import opened Spelling
  import opened Listings

  // ---------------------------------------------------------------- signatures

  // The 73 bytes: amount, kernel excess, sender key.
  predicate IsMessage(m: seq<byte>, amount: u64, excessHex: string, sender: seq<byte>) {
    && |m| == 73
    && FromBigEndian(m[..8]) == amount
    && HexOf(excessHex, m[8..41])
    && m[41..] == sender
  }

  lemma EightBytes(a: seq<byte>, b: seq<byte>)
    requires |a| == |b|
    ensures FromBigEndian(a) == FromBigEndian(b) ==> a == b
  {
    if a != [] {
      EightBytes(a[..|a| - 1], b[..|b| - 1]);
    }
  }

  lemma MessageIff(amount: u64, excessHex: string, sender: seq<byte>, m: seq<byte>)
    requires |sender| == 32
    ensures PaymentProofMessage(amount, excessHex, sender) == Some(m) <==> IsMessage(m, amount, excessHex, sender)
  {
    hide HexOf, HexDecode;
    AmountRoundTrip(amount);
    if PaymentProofMessage(amount, excessHex, sender) == Some(m) {
      var excess := HexDecode(excessHex).value;
      assert m[..8] == AmountToBeU64(amount) && m[8..41] == excess && m[41..] == sender;
      HexDecodeIff(excessHex, excess);
    }
    if IsMessage(m, amount, excessHex, sender) {
      HexDecodeIff(excessHex, m[8..41]);
      EightBytes(m[..8], AmountToBeU64(amount));
      assert m == m[..8] + m[8..41] + m[41..];
    }
  }

  // A 64-byte signature in hex, good for this key and message.
  ghost predicate Signs(lib: Library, key: seq<byte>, m: seq<byte>, sigHex: string) {
    exists sig :: HexOf(sigHex, sig) && |sig| == 64 && lib.ed25519(key, m, sig)
  }

  lemma SignsIff(lib: Library, key: seq<byte>, m: seq<byte>, sigHex: string)
    ensures SignedBy(lib, key, m, sigHex) <==> Signs(lib, key, m, sigHex)
  {
    hide HexOf, HexDecode;
    forall b ensures HexDecode(sigHex) == Some(b) <==> HexOf(sigHex, b) {
      HexDecodeIff(sigHex, b);
    }
    if SignedBy(lib, key, m, sigHex) {
      assert HexOf(sigHex, HexDecode(sigHex).value);
    }
  }

  // Recipient and sender both signed this message, each with the key of its own address.
  ghost predicate BothSign(lib: Library, proof: PaymentProof, recipient: seq<byte>, sender: seq<byte>, m: seq<byte>) {
    && AddressKey(lib, proof.recipientAddress, recipient)
    && AddressKey(lib, proof.senderAddress, sender)
    && IsMessage(m, proof.amount, proof.excessHex, sender)
    && Signs(lib, recipient, m, proof.recipientSigHex)
    && Signs(lib, sender, m, proof.senderSigHex)
  }

  ghost predicate Signed(lib: Library, proof: PaymentProof) {
    exists recipient, sender, m :: BothSign(lib, proof, recipient, sender, m)
  }

  // The signature check accepts exactly the proofs that both sides signed.
  lemma SignedIff(lib: Library, proof: PaymentProof)
    ensures VerifySignatures(lib, proof) <==> Signed(lib, proof)
  {
    if VerifySignatures(lib, proof) {
      var recipient, sender, m := SignedWitness(lib, proof);
    }
    if Signed(lib, proof) {
      var recipient, sender, m :| BothSign(lib, proof, recipient, sender, m);
      SignedVerifies(lib, proof, recipient, sender, m);
    }
  }

  lemma SignedWitness(lib: Library, proof: PaymentProof) returns (recipient: seq<byte>, sender: seq<byte>, m: seq<byte>)
    requires VerifySignatures(lib, proof)
    ensures BothSign(lib, proof, recipient, sender, m)
  {
    hide DecodeGrinAddress, AddressKey, PaymentProofMessage, IsMessage, SignedBy, Signs;
    recipient := DecodeGrinAddress(lib, proof.recipientAddress).value;
    sender := DecodeGrinAddress(lib, proof.senderAddress).value;
    m := PaymentProofMessage(proof.amount, proof.excessHex, sender).value;
    AddressKeyIff(lib, proof.recipientAddress, recipient);
    AddressKeyIff(lib, proof.senderAddress, sender);
    MessageIff(proof.amount, proof.excessHex, sender, m);
    SignsIff(lib, recipient, m, proof.recipientSigHex);
    SignsIff(lib, sender, m, proof.senderSigHex);
  }

  lemma SignedVerifies(lib: Library, proof: PaymentProof, recipient: seq<byte>, sender: seq<byte>, m: seq<byte>)
    requires BothSign(lib, proof, recipient, sender, m)
    ensures VerifySignatures(lib, proof)
  {
    hide DecodeGrinAddress, PaymentProofMessage, IsMessage, SignedBy, Signs;
    AddressKeyIff(lib, proof.recipientAddress, recipient);
    AddressKeyIff(lib, proof.senderAddress, sender);
    MessageIff(proof.amount, proof.excessHex, sender, m);
    SignsIff(lib, recipient, m, proof.recipientSigHex);
    SignsIff(lib, sender, m, proof.senderSigHex);
  }

  // ---------------------------------------------------------------- the kernel

  // The endpoint answers the kernel query: it knows no such kernel, or it reports it and
  // its tip query succeeds too.
  predicate Answers(e: Endpoint) {
    e.kernel == KernelNull || (e.kernel.KernelBody? && e.tip.TipBody?)
  }

  predicate FirstAnswer(view: seq<Endpoint>, i: int) {
    0 <= i < |view| && Answers(view[i]) && forall j :: 0 <= j < i ==> !Answers(view[j])
  }

  // Height and tip put this many blocks from the kernel's up to the tip; one confirmation
  // needs no heights. (The full range of u64 blocks wraps to one.)
  predicate Deep(e: Endpoint, minConf: u64) {
    || minConf <= 1
    || (&& e.kernel.KernelBody? && e.tip.TipBody? && e.kernel.height.Some? && e.tip.height.Some?
        && e.kernel.height.value + minConf - 1 <= e.tip.height.value
        && e.tip.height.value - e.kernel.height.value + 1 < 0x1_0000_0000_0000_0000)
  }

  // The column for a height that a node reported, or did not.
  predicate HeightColumn(height: Option<u64>, column: Option<i64>) {
    match height
    case None => column.None?
    case Some(h) => column.Some? && column.value == Signed64(h)
  }

  // The first endpoint that answered reported the kernel deep enough, at the height of
  // this column.
  predicate Reported(view: seq<Endpoint>, i: int, minConf: u64, column: Option<i64>) {
    && FirstAnswer(view, i)
    && view[i].kernel.KernelBody? && Deep(view[i], minConf)
    && HeightColumn(view[i].kernel.height, column)
  }

  ghost predicate KernelReported(view: seq<Endpoint>, minConf: u64, column: Option<i64>) {
    exists i :: Reported(view, i, minConf, column)
  }

  // The first endpoint that answered reported the kernel, deep enough, at a height not above `end`.
  predicate MinedAt(view: seq<Endpoint>, i: int, minConf: u64, end: int) {
    && FirstAnswer(view, i)
    && view[i].kernel.KernelBody? && view[i].kernel.height.Some? && Deep(view[i], minConf)
    && Signed64(view[i].kernel.height.value) <= end
  }

  ghost predicate MinedBy(view: seq<Endpoint>, minConf: u64, end: int) {
    exists i :: MinedAt(view, i, minConf, end)
  }

  lemma ReportedIsMined(view: seq<Endpoint>, minConf: u64, column: Option<i64>, end: int)
    requires KernelReported(view, minConf, column) && column.Some? && column.value <= end
    ensures MinedBy(view, minConf, end)
  {
    hide Deep;
    var i :| Reported(view, i, minConf, column);
    assert MinedAt(view, i, minConf, end);
  }

  lemma AnswersIff(e: Endpoint)
    ensures Answers(e) <==> KernelOne(e).Ok?
  {
  }

  lemma FirstAnswerIs(view: seq<Endpoint>) returns (i: int)
    requires Kernel(view).Ok?
    ensures FirstAnswer(view, i) && Kernel(view) == KernelOne(view[i])
  {
    hide KernelOne, Answers;
    forall e ensures Answers(e) <==> KernelOne(e).Ok? {
      AnswersIff(e);
    }
    FirstOkMeaning(KernelOne, view);
    i :| 0 <= i < |view| && Kernel(view) == KernelOne(view[i]) && forall j :: 0 <= j < i ==> KernelOne(view[j]).Err?;
  }

  lemma OnlyFirstAnswer(view: seq<Endpoint>, i: int)
    requires FirstAnswer(view, i)
    ensures Kernel(view).Ok? && Kernel(view) == KernelOne(view[i])
  {
    AnswersIff(view[i]);
    FirstOkMeaning(KernelOne, view);
    var k := FirstAnswerIs(view);
    assert k == i;
  }

  // The node check passes, with this height for the column, exactly when the first endpoint
  // to answer reports the kernel so.
  lemma ConfirmedIff(cfg: Config, view: seq<Endpoint>, column: Option<i64>)
    ensures Confirmed(cfg, view) && HeightForColumn(Kernel(view).value) == column
            <==> KernelReported(view, cfg.transferMinConf, column)
  {
    hide KernelOne, Kernel, Deep, Answers;
    if Kernel(view).Ok? {
      var i := FirstAnswerIs(view);
      FoundIff(view[i], cfg.transferMinConf, column);
      if Confirmed(cfg, view) && HeightForColumn(Kernel(view).value) == column {
        assert Reported(view, i, cfg.transferMinConf, column);
      }
      if k :| Reported(view, k, cfg.transferMinConf, column) {
        assert k == i;
      }
    } else if k :| Reported(view, k, cfg.transferMinConf, column) {
      OnlyFirstAnswer(view, k);
    }
  }

  lemma FoundIff(e: Endpoint, minConf: u64, column: Option<i64>)
    requires Answers(e)
    ensures KernelOne(e).Ok?
    ensures var k := KernelOne(e).value;
            k.found && k.confirmations >= minConf && HeightForColumn(k) == column
            <==> e.kernel.KernelBody? && Deep(e, minConf) && HeightColumn(e.kernel.height, column)
  {
  }

  // ---------------------------------------------------------------- the tip

  predicate NamesTip(e: Endpoint) {
    e.tip.TipBody? && e.tip.height.Some?
  }

  predicate FirstTip(endpoints: seq<Endpoint>, i: int) {
    0 <= i < |endpoints| && NamesTip(endpoints[i]) && forall j :: 0 <= j < i ==> !NamesTip(endpoints[j])
  }

  // The first endpoint that named a tip named this one; nothing without a node, or when no
  // endpoint did.
  predicate TipColumn(node: Option<seq<Endpoint>>, column: Option<i64>) {
    if node.Some? && exists i :: 0 <= i < |node.value| && NamesTip(node.value[i]) then
      && column.Some?
      && exists i :: 0 <= i < |node.value| && FirstTip(node.value, i)
                     && column.value == Signed64(node.value[i].tip.height.value)
    else column.None?
  }

  lemma NamesTipIff(e: Endpoint)
    ensures NamesTip(e) <==> TipOne(e).Ok?
    ensures NamesTip(e) ==> TipOne(e).value == e.tip.height.value
  {
  }

  lemma TipColumnIff(node: Option<seq<Endpoint>>, column: Option<i64>)
    ensures TipForColumn(node) == column <==> TipColumn(node, column)
  {
    hide TipOne;
    forall e ensures (NamesTip(e) <==> TipOne(e).Ok?) && (NamesTip(e) ==> TipOne(e).value == e.tip.height.value) {
      NamesTipIff(e);
    }
    if node.Some? {
      var view := node.value;
      FirstOkMeaning(TipOne, view);
      if TipHeight(view).Ok? {
        var i :| 0 <= i < |view| && TipHeight(view) == TipOne(view[i])
                 && forall j :: 0 <= j < i ==> TipOne(view[j]).Err?;
        assert FirstTip(view, i);
        assert forall k :: FirstTip(view, k) ==> k == i;
      }
    }
  }
}
