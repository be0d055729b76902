/** The chain node client: confirmation arithmetic and the two failover loops. */
module Node {
  import opened Prelude

  // What one endpoint answers to get_kernel and to get_tip.
  datatype KernelRpc = KernelError(msg: string) | KernelNull | KernelBody(height: Option<u64>)
  datatype TipRpc = TipError(msg: string) | TipBody(height: Option<u64>)
  datatype Endpoint = Endpoint(kernel: KernelRpc, tip: TipRpc)

  datatype KernelResult = KernelResult(found: bool, confirmations: u64, height: Option<u64>)

  // `(tip.saturating_sub(h) + 1).max(1)` on u64; a release build wraps the addition.
  function Confirmations(tip: u64, h: u64): u64 {
    var depth: u64 := if tip >= h then tip - h else 0;
    var plusOne := (depth + 1) % TWO64;
    if plusOne >= 1 then plusOne else 1
  }

  function KernelOne(e: Endpoint): Result<KernelResult, string> {
    match e.kernel
    case KernelError(msg) => Err(msg)
    case KernelNull => Ok(KernelResult(false, 0, None))
    case KernelBody(height) =>
      match e.tip
      case TipError(msg) => Err(msg)
      case TipBody(tipHeight) =>
        if height.Some? && tipHeight.Some? then
          Ok(KernelResult(true, Confirmations(tipHeight.value, height.value), height))
        else
          Ok(KernelResult(true, 1, height))
  }

  function TipOne(e: Endpoint): Result<u64, string> {
    match e.tip
    case TipError(msg) => Err(msg)
    case TipBody(None) => Err("get_tip: height missing")
    case TipBody(Some(h)) => Ok(h)
  }

  // The first endpoint that answers, else the last error.
  function FirstOk<T>(ask: Endpoint -> Result<T, string>, endpoints: seq<Endpoint>): Result<T, string> {
    if endpoints == [] then Err("no node endpoints configured")
    else if ask(endpoints[0]).Ok? || |endpoints| == 1 then ask(endpoints[0])
    else FirstOk(ask, endpoints[1..])
  }

  function Kernel(endpoints: seq<Endpoint>): Result<KernelResult, string> {
    FirstOk(KernelOne, endpoints)
  }

  function TipHeight(endpoints: seq<Endpoint>): Result<u64, string> {
    FirstOk(TipOne, endpoints)
  }

  lemma {:induction false} FirstOkMeaning<T>(ask: Endpoint -> Result<T, string>, es: seq<Endpoint>)
    ensures FirstOk(ask, es).Ok? <==> exists i :: 0 <= i < |es| && ask(es[i]).Ok?
    ensures FirstOk(ask, es).Ok? ==>
              exists i :: 0 <= i < |es| && FirstOk(ask, es) == ask(es[i]) && forall j :: 0 <= j < i ==> ask(es[j]).Err?
    ensures FirstOk(ask, es).Err? && es != [] ==> FirstOk(ask, es) == ask(es[|es| - 1])
  {
    if |es| >= 1 {
      if ask(es[0]).Ok? {
        assert FirstOk(ask, es) == ask(es[0]);
      } else if |es| > 1 {
        var rest := es[1..];
        FirstOkMeaning(ask, rest);
        assert forall i :: 0 <= i < |rest| ==> rest[i] == es[i + 1];
        if FirstOk(ask, rest).Ok? {
          var i :| 0 <= i < |rest| && FirstOk(ask, rest) == ask(rest[i])
                     && forall j :: 0 <= j < i ==> ask(rest[j]).Err?;
          assert FirstOk(ask, es) == ask(es[i + 1]);
          forall j | 0 <= j < i + 1 ensures ask(es[j]).Err? {
            if j > 0 { assert es[j] == rest[j - 1]; }
          }
        }
        forall i | 0 <= i < |es| && ask(es[i]).Ok?
          ensures FirstOk(ask, es).Ok?
        {
          assert es[i] == rest[i - 1];
        }
      }
    }
  }

  // The failover loop of `kernel`: stop at the first answer, remember the last error.
  method QueryKernel(endpoints: seq<Endpoint>) returns (r: Result<KernelResult, string>)
    ensures r == Kernel(endpoints)
  {
    var lastErr := "no node endpoints configured";
    var i := 0;
    while i < |endpoints|
      invariant 0 <= i <= |endpoints|
      invariant i < |endpoints| ==> Kernel(endpoints[i..]) == Kernel(endpoints)
      invariant i == |endpoints| ==> Kernel(endpoints) == Err(lastErr)
    {
      var answer := KernelOne(endpoints[i]);
      assert endpoints[i..][0] == endpoints[i] && endpoints[i..][1..] == endpoints[i + 1..];
      if answer.Ok? {
        return answer;
      }
      lastErr := answer.error;
      i := i + 1;
    }
    return Err(lastErr);
  }

  method QueryTip(endpoints: seq<Endpoint>) returns (r: Result<u64, string>)
    ensures r == TipHeight(endpoints)
  {
    var lastErr := "no node endpoints configured";
    var i := 0;
    while i < |endpoints|
      invariant 0 <= i <= |endpoints|
      invariant i < |endpoints| ==> TipHeight(endpoints[i..]) == TipHeight(endpoints)
      invariant i == |endpoints| ==> TipHeight(endpoints) == Err(lastErr)
    {
      assert endpoints[i..][0] == endpoints[i] && endpoints[i..][1..] == endpoints[i + 1..];
      match endpoints[i].tip {
        case TipBody(Some(h)) => return Ok(h);
        case TipBody(None) => lastErr := "get_tip: height missing";
        case TipError(msg) => lastErr := msg;
      }
      i := i + 1;
    }
    return Err(lastErr);
  }

  // Confirmations count the blocks from the kernel's up to the tip inclusive; a
  // kernel above the reported tip, or a wrapped sum, reads as one confirmation.
  lemma ConfirmationDepth(tip: u64, h: u64, c: u64)
    ensures Confirmations(tip, h) >= 1
    ensures h <= tip && tip - h + 1 < TWO64 <==> h + Confirmations(tip, h) - 1 == tip
    ensures 2 <= c <= Confirmations(tip, h) ==> h + c - 1 <= tip
  {
  }

  // Needing two confirmations or more forces the answering endpoint to name a height
  // and a tip with that many blocks between them.
  lemma DeepKernelHasHeight(endpoints: seq<Endpoint>, minConf: u64)
    requires minConf >= 2
    requires Kernel(endpoints).Ok? && Kernel(endpoints).value.found
    requires Kernel(endpoints).value.confirmations >= minConf
    ensures exists i :: 0 <= i < |endpoints| && Witnesses(endpoints[i], Kernel(endpoints).value.height, minConf)
  {
    FirstOkMeaning(KernelOne, endpoints);
    var i :| 0 <= i < |endpoints| && Kernel(endpoints) == KernelOne(endpoints[i]);
    var e := endpoints[i];
    assert e.kernel.KernelBody? && e.tip.TipBody?;
    assert e.kernel.height.Some? && e.tip.height.Some?;
    ConfirmationDepth(e.tip.height.value, e.kernel.height.value, minConf);
    assert Witnesses(e, Kernel(endpoints).value.height, minConf);
  }

  // The endpoint reported the kernel at this height, at least minConf blocks deep.
  predicate Witnesses(e: Endpoint, height: Option<u64>, minConf: u64) {
    && e.kernel == KernelBody(height) && height.Some?
    && e.tip.TipBody? && e.tip.height.Some?
    && height.value + minConf - 1 <= e.tip.height.value
  }
}
