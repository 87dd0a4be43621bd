/** How a sale may be paid: the check of the server, its copy in the client, and
    the change the client tells the cashier to give. Amounts are in cents. */
module Payments {
  import opened Rounding
  import opened Sums

  datatype Method = Cash | DebitCard | CreditCard | Transfer | MercadoPago | CurrentAccount

  /** A payment as requested, before it is stored. */
  datatype Payment = Payment(kind: Method, amount: real)

  const AMOUNT_EPSILON: real := 1.0

  function AmountTerm(): Payment -> real { (p: Payment) => p.amount }

  function TotalPaid(payments: seq<Payment>): real { RealSum(AmountTerm(), payments) }

  predicate HasCash(payments: seq<Payment>) {
    exists i :: 0 <= i < |payments| && payments[i].kind == Cash
  }

  datatype Verdict = Accepted | Insufficient | OverpaidWithoutCash

  /** The two checks of attemptCreate. */
  function ServerVerdict(payments: seq<Payment>, total: real): Verdict {
    var paid := TotalPaid(payments);
    if paid < total - AMOUNT_EPSILON then Insufficient
    else if paid > total + AMOUNT_EPSILON && !HasCash(payments) then OverpaidWithoutCash
    else Accepted
  }

  function SumPayments(payments: seq<Payment>): int { JsRound(TotalPaid(payments)) }

  /** validatePayments. */
  function ValidatePayments(payments: seq<Payment>, total: real): Verdict {
    var sum := SumPayments(payments) as real;
    if sum < total - AMOUNT_EPSILON then Insufficient
    else if sum > total + AMOUNT_EPSILON && !HasCash(payments) then OverpaidWithoutCash
    else Accepted
  }

  function RemainingToPay(payments: seq<Payment>, total: real): int {
    JsRound(Max(0.0, total - SumPayments(payments) as real))
  }

  /** computeChange, on sums that are whole cents. */
  function ComputeChange(paid: int, total: int): int {
    var excess := paid - total;
    if excess <= 1 then 0 else excess
  }

  predicate WholeCents(payments: seq<Payment>) {
    forall i :: 0 <= i < |payments| ==> payments[i].amount == payments[i].amount.Floor as real
  }

  lemma {:induction false} WholeTotal(payments: seq<Payment>)
    requires WholeCents(payments)
    ensures TotalPaid(payments) == TotalPaid(payments).Floor as real
    decreases |payments|
  {
    if |payments| > 0 {
      var n := |payments| - 1;
      WholeTotal(payments[..n]);
      var sum := TotalPaid(payments[..n]).Floor + payments[n].amount.Floor;
      assert TotalPaid(payments) == sum as real;
    }
  }

  /** The screen and the server agree on every sale whose payments are typed in
      whole cents; and paying what the screen still asks for is always enough. */
  lemma ClientAndServerAgree(payments: seq<Payment>, total: real)
    requires WholeCents(payments)
    ensures ValidatePayments(payments, total) == ServerVerdict(payments, total)
    ensures RemainingToPay(payments, total) == 0 ==> ServerVerdict(payments, total) != Insufficient
  {
    WholeTotal(payments);
    RoundInt(TotalPaid(payments).Floor);
  }

  predicate AgreeAt(payments: seq<Payment>, total: int) {
    ValidatePayments(payments, total as real) == ServerVerdict(payments, total as real)
  }

  /** The screen rounds the sum to a whole cent and the server does not. A fraction
      that rounds up can hide that the payment is short; one that rounds down can
      hide that it is too much, which matters only without cash. */
  predicate RoundingIsHarmless(payments: seq<Payment>) {
    var fraction := TotalPaid(payments) - TotalPaid(payments).Floor as real;
    fraction == 0.0 || (fraction < 0.5 && HasCash(payments))
  }

  /** Screen and server give the same verdict for every whole-cent total exactly
      when rounding the sum is harmless. */
  lemma VerdictsAgreeIff(payments: seq<Payment>)
    ensures (forall total: int :: AgreeAt(payments, total)) <==> RoundingIsHarmless(payments)
  {
    var whole := TotalPaid(payments).Floor;
    var fraction := TotalPaid(payments) - whole as real;
    if RoundingIsHarmless(payments) {
      Nearest(TotalPaid(payments), whole);
      forall total: int
        ensures AgreeAt(payments, total)
      {
        RoundedDown(TotalPaid(payments), whole, total);
      }
    } else if fraction >= 0.5 {
      RoundsUp(TotalPaid(payments), whole);
      assert !AgreeAt(payments, whole + 2);
    } else {
      Nearest(TotalPaid(payments), whole);
      assert !AgreeAt(payments, whole - 1);
    }
  }

  lemma RoundedDown(paid: real, whole: int, total: int)
    requires whole as real <= paid < whole as real + 1.0
    ensures paid < total as real - AMOUNT_EPSILON <==> whole as real < total as real - AMOUNT_EPSILON
    ensures paid == whole as real ==>
        (paid > total as real + AMOUNT_EPSILON <==> whole as real > total as real + AMOUNT_EPSILON)
  {
    if whole < total - 1 {
      assert whole + 1 <= total - 1;
    }
  }

  lemma RoundsUp(x: real, whole: int)
    requires whole as real + 0.5 <= x < whole as real + 1.0
    ensures JsRound(x) == whole + 1
  {
    assert (x + 0.5).Floor == whole + 1;
  }

  /** With a fraction of a cent they can disagree: 9.996 rounds up to 10.00 on
      the screen, but is short of 10.01 minus the tolerance on the server. */
  lemma ClientMayAcceptWhatServerRejects()
    ensures exists payments, total ::
              ValidatePayments(payments, total) == Accepted && ServerVerdict(payments, total) == Insufficient
  {
    var payments := [Payment(DebitCard, 999.6)];
    assert TotalPaid(payments) == 999.6 by {
      assert payments[..0] == [];
      assert AmountTerm()(payments[0]) == 999.6;
    }
    Nearest(999.6, 1000);
    assert ValidatePayments(payments, 1001.0) == Accepted;
    assert ServerVerdict(payments, 1001.0) == Insufficient;
  }
}
