/**
 * The payment gateway (Paystack) as the store sees it: the request it sends to
 * initialize a transaction, the JSON replies of the initialize and verify
 * calls, the conditions under which the store accepts them, and the
 * transaction reference it generates.
 */
module Payment {
  import opened Wrappers

  /** The body of `POST /transaction/initialize`; the callback URL carries the order id. */
  datatype InitRequest = InitRequest(email: string, amount: int, reference: string, callbackOrderId: int)

  /** `data.data` of an initialize reply. An empty URL is as falsy as a missing one. */
  datatype InitData = InitData(authorizationUrl: Option<string>)

  /** An initialize reply: `Failed` is a network or parse error (the promise's
      `catch`), otherwise the decoded JSON `{status, data}`. */
  datatype InitReply =
    | InitFailed(message: string)
    | InitBody(status: bool, data: Option<InitData>)

  /** `data.status && data.data && data.data.authorization_url` */
  function InitAccepted(reply: InitReply): (ok: bool)
    ensures ok ==>
      && reply.InitBody? && reply.data.Some? && reply.data.value.authorizationUrl.Some?
      && |reply.data.value.authorizationUrl.value| > 0
    ensures reply.InitBody? && reply.data.Some? && reply.data.value.authorizationUrl == Some("") ==> !ok
  {
    && reply.InitBody?
    && reply.status
    && reply.data.Some?
    && reply.data.value.authorizationUrl.Some?
    && reply.data.value.authorizationUrl.value != ""
  }

  /** `data.data` of a verify reply. */
  datatype VerifyData = VerifyData(status: Option<string>, gatewayResponse: Option<string>)

  /** A verify reply, with the same two shapes as an initialize reply. */
  datatype VerifyReply =
    | VerifyFailed(message: string)
    | VerifyBody(status: bool, data: Option<VerifyData>)

  /** `data.status && data.data && (data.data.status === 'success' || data.data.gateway_response === 'Successful')` */
  function VerifySucceeded(reply: VerifyReply): (ok: bool)
    ensures ok ==> reply.VerifyBody? && reply.status && reply.data.Some?
    ensures reply.VerifyBody? && reply.status && reply.data.Some? && reply.data.value.status == Some("success") ==> ok
    ensures reply.VerifyBody? && reply.status && reply.data.Some? && reply.data.value.gatewayResponse == Some("Successful") ==> ok
  {
    && reply.VerifyBody?
    && reply.status
    && reply.data.Some?
    && (reply.data.value.status == Some("success") || reply.data.value.gatewayResponse == Some("Successful"))
  }

  // ---------------------------------------------------------------------------
  // The transaction reference 'neotech-' + Date.now() + '-' + Math.floor(Math.random() * 10000).

  predicate IsDigit(c: char) {
    '0' <= c <= '9'
  }

  function Digit(d: nat): (c: char)
    requires d < 10
    ensures IsDigit(c)
  {
    ('0' as int + d) as char
  }

  /** A natural number in decimal, without leading zeros, as JavaScript
      writes an integer it concatenates to a string. */
  function Decimal(n: nat): (s: string)
    ensures 1 <= |s|
    ensures |s| == 1 <==> n < 10
    ensures forall i :: 0 <= i < |s| ==> IsDigit(s[i])
    decreases n
  {
    if n < 10 then [Digit(n)] else Decimal(n / 10) + [Digit(n % 10)]
  }

  /** Distinct numbers have distinct decimal forms. */
  lemma {:induction false} DecimalInjective(m: nat, n: nat)
    requires Decimal(m) == Decimal(n)
    ensures m == n
    decreases m
  {
    if 10 <= m {
      var sm, sn := Decimal(m), Decimal(n);
      assert sm[..|sm| - 1] == Decimal(m / 10);
      assert sn[..|sn| - 1] == Decimal(n / 10);
      assert sm[|sm| - 1] == sn[|sn| - 1];
      DecimalInjective(m / 10, n / 10);
    } else {
      assert Decimal(m)[0] == Decimal(n)[0];
    }
  }

  const ReferencePrefix: string := "neotech-"

  /** The reference for the instant `now` (milliseconds) and the random draw
      `rand`, which `Math.floor(Math.random() * 10000)` keeps below 10000. */
  function Reference(now: nat, rand: nat): (r: string)
    requires rand < 10000
    ensures |ReferencePrefix| < |r| && r[..|ReferencePrefix|] == ReferencePrefix
  {
    ReferencePrefix + Decimal(now) + "-" + Decimal(rand)
  }

  /** Splitting at the first dash: two strings joined by a dash, the first of
      them free of dashes, determine both parts. */
  lemma SplitAtDash(a: string, b: string, c: string, d: string)
    requires forall i :: 0 <= i < |a| ==> a[i] != '-'
    requires forall i :: 0 <= i < |c| ==> c[i] != '-'
    requires a + "-" + b == c + "-" + d
    ensures a == c && b == d
  {
    var r1, r2 := a + "-" + b, c + "-" + d;
    assert r1[|a|] == '-' && r2[|c|] == '-';
    assert forall i :: 0 <= i < |a| ==> r1[i] == a[i];
    assert forall i :: 0 <= i < |c| ==> r2[i] == c[i];
    assert a == r1[..|a|] == r2[..|c|] == c;
    assert b == r1[|a| + 1..] == r2[|c| + 1..] == d;
  }

  /** Two references coincide only when both the instant and the random draw
      coincide: the scheme is collision-free except for a repeated draw
      within the same millisecond. */
  lemma ReferenceInjective(now1: nat, rand1: nat, now2: nat, rand2: nat)
    requires rand1 < 10000 && rand2 < 10000
    requires Reference(now1, rand1) == Reference(now2, rand2)
    ensures now1 == now2 && rand1 == rand2
  {
    var a, b, c, d := Decimal(now1), Decimal(rand1), Decimal(now2), Decimal(rand2);
    var r1, r2 := Reference(now1, rand1), Reference(now2, rand2);
    assert r1 == ReferencePrefix + (a + "-" + b);
    assert r2 == ReferencePrefix + (c + "-" + d);
    assert a + "-" + b == r1[|ReferencePrefix|..] == r2[|ReferencePrefix|..] == c + "-" + d;
    SplitAtDash(a, b, c, d);
    DecimalInjective(now1, now2);
    DecimalInjective(rand1, rand2);
  }
}
