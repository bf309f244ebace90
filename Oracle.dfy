/** The balance oracle behind `check_balance`: an ordered list of three providers
    (blockchain.info, BlockCypher, Blockstream), asked one after the other until one of
    them says the address has received funds. HTTP and JSON are abstracted: each provider
    contributes what its reply amounts to. */
module Oracle {

  /** What a provider's reply with status 200 amounts to. */
  datatype Body =
    | Amount(value: int)  // the provider's number: received total, `balance`, `funded_txo_sum`
    | Unparseable         // reading the reply raised `ValueError` (bad number text, bad JSON)
    | WrongShape          // the reply has a shape the provider's getter cannot use, so
                          // `AttributeError` or `TypeError` is raised, which is not caught

  /** One provider's answer: the request raised `requests.RequestException` (a timeout, a
      connection error), or it came back with a status code and a body. */
  datatype ProviderOutcome = RequestFailed | Responded(status: int, body: Body)

  /** What `check_balance` does: returns `True`, returns `False`, or raises. */
  datatype Verdict = Funded | NotFunded | Raised

  /** The provider is passed over and the next one is asked. */
  predicate Skipped(o: ProviderOutcome) {
    o.RequestFailed? || o.status != 200 || o.body.Unparseable? || (o.body.Amount? && o.body.value <= 0)
  }

  /** The provider's own predicate holds: a positive amount in a 200 reply. */
  predicate Positive(o: ProviderOutcome) {
    o.Responded? && o.status == 200 && o.body.Amount? && o.body.value > 0
  }

  /** Every provider before index `i` was passed over. */
  predicate SkippedBefore(outcomes: seq<ProviderOutcome>, i: nat) {
    forall j :: 0 <= j < i && j < |outcomes| ==> Skipped(outcomes[j])
  }

  /** The loop of `check_balance` over the providers in list order. */
  function BalanceVerdict(outcomes: seq<ProviderOutcome>): Verdict {
    if |outcomes| == 0 then NotFunded
    else match outcomes[0]
      case RequestFailed => BalanceVerdict(outcomes[1..])
      case Responded(status, body) =>
        if status != 200 then BalanceVerdict(outcomes[1..])
        else match body
          case Unparseable => BalanceVerdict(outcomes[1..])
          case WrongShape => Raised
          case Amount(v) => if v > 0 then Funded else BalanceVerdict(outcomes[1..])
  }

  /** Providers passed over do not matter: the verdict is decided by the first provider that
      is not passed over, and only by it. */
  lemma {:induction false} VerdictAfterSkips(outcomes: seq<ProviderOutcome>, i: nat)
    requires i <= |outcomes| && SkippedBefore(outcomes, i)
    ensures BalanceVerdict(outcomes) == BalanceVerdict(outcomes[i..])
  {
    if i > 0 {
      assert Skipped(outcomes[0]);
      assert SkippedBefore(outcomes[1..], i - 1) by {
        forall j | 0 <= j < i - 1 && j < |outcomes[1..]| ensures Skipped(outcomes[1..][j]) {
          assert outcomes[1..][j] == outcomes[j + 1];
        }
      }
      VerdictAfterSkips(outcomes[1..], i - 1);
      assert outcomes[1..][i - 1..] == outcomes[i..];
    }
  }

  /** `check_balance` returns `True` exactly when some provider, taken in list order, gives a
      positive amount and every provider before it was passed over. */
  lemma FundedIff(outcomes: seq<ProviderOutcome>)
    ensures BalanceVerdict(outcomes) == Funded <==>
            exists i :: 0 <= i < |outcomes| && Positive(outcomes[i]) && SkippedBefore(outcomes, i)
  {
    var i := FirstDecision(outcomes);
    VerdictAfterSkips(outcomes, i);
    if BalanceVerdict(outcomes) != Funded {
      forall k | 0 <= k < |outcomes| && Positive(outcomes[k]) ensures !SkippedBefore(outcomes, k) {
        if k > i { assert !Skipped(outcomes[i]); }
      }
    }
  }

  /** It returns `False` exactly when every provider was passed over: each failed, answered
      with another status, sent an unreadable reply or reported nothing. */
  lemma NotFundedIff(outcomes: seq<ProviderOutcome>)
    ensures BalanceVerdict(outcomes) == NotFunded <==> SkippedBefore(outcomes, |outcomes|)
  {
    var i := FirstDecision(outcomes);
    VerdictAfterSkips(outcomes, i);
  }

  /** Index of the first provider that is not passed over, or the length of the list. */
  function FirstDecision(outcomes: seq<ProviderOutcome>): (i: nat)
    ensures i <= |outcomes| && SkippedBefore(outcomes, i)
    ensures i < |outcomes| ==> !Skipped(outcomes[i]) &&
                               BalanceVerdict(outcomes[i..]) == (if Positive(outcomes[i]) then Funded else Raised)
    ensures i == |outcomes| ==> BalanceVerdict(outcomes[i..]) == NotFunded
  {
    if |outcomes| == 0 then 0
    else if !Skipped(outcomes[0]) then 0
    else
      var k := FirstDecision(outcomes[1..]);
      assert outcomes[1..][k..] == outcomes[k + 1..];
      assert forall j :: 0 < j < k + 1 && j < |outcomes| ==> outcomes[j] == outcomes[1..][j - 1];
      k + 1
  }

  /** How many providers `check_balance` asks: up to and including the deciding one, or
      all of them when every one is passed over. */
  function Consulted(outcomes: seq<ProviderOutcome>): (n: nat)
    ensures n <= |outcomes|
    ensures n < |outcomes| ==> n == FirstDecision(outcomes) + 1 && !Skipped(outcomes[n - 1])
    ensures n > 0 ==> SkippedBefore(outcomes, n - 1)
    ensures |outcomes| > 0 ==> n > 0
  {
    var i := FirstDecision(outcomes);
    if i < |outcomes| then i + 1 else |outcomes|
  }

  /** Providers after the deciding one are never consulted: replacing everything after it
      leaves the verdict unchanged. */
  lemma LaterProvidersIgnored(outcomes: seq<ProviderOutcome>, i: nat, rest: seq<ProviderOutcome>)
    requires i < |outcomes| && SkippedBefore(outcomes, i) && !Skipped(outcomes[i])
    ensures BalanceVerdict(outcomes[..i + 1] + rest) == BalanceVerdict(outcomes)
  {
    var other := outcomes[..i + 1] + rest;
    assert SkippedBefore(other, i) by {
      forall j | 0 <= j < i && j < |other| ensures Skipped(other[j]) {
        assert other[j] == outcomes[j];
      }
    }
    VerdictAfterSkips(outcomes, i);
    VerdictAfterSkips(other, i);
    assert other[i..][0] == outcomes[i..][0];
  }
}
