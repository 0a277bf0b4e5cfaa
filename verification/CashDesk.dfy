/** The cash desk as it runs: fee, payment and allocation tables updated in place by loops over rows,
    each method carrying out one ledger operation, and installment plans paid through it. */
module CashDesk {
  import opened Common
  import opened Ledger
  import opened LedgerProofs

  datatype Reply = Ok | Denied(error: Refusal)

  /** The call did exactly what `op` does to `before`, or refused for the same reason and changed nothing. */
  predicate Follows(op: Op, before: Book, after: Book, r: Reply) {
    match Apply(before, op)
    case Done(b) => r == Ok && after == b
    case Refused(e) => r == Denied(e) && after == before
  }

  lemma FollowsKeeps(op: Op, before: Book, after: Book, r: Reply)
    requires Kept(before) && Follows(op, before, after, r)
    ensures Kept(after)
  {
    hide Kept, Apply;
    StepKeeps(before, op);
  }

  class Accounts {
    var fees: seq<Fee>
    var payments: seq<Payment>
    var allocations: seq<Allocation>

    function Tables(): Book
      reads this
    {
      Book(fees, payments, allocations)
    }

    constructor ()
      ensures Tables() == EMPTY
    {
      fees, payments, allocations := [], [], [];
    }

    method ChargeFee(patron: Id, amount: nat) returns (f: Id)
      modifies this`fees
      ensures f == |old(fees)| && Follows(OpCharge(patron, amount), old(Tables()), Tables(), Ok)
    {
      f := |fees|;
      fees := fees + [Fee(patron, amount, 0, Outstanding)];
    }

    method AccrueFine(f: Id, accrued: nat) returns (r: Reply)
      modifies this`fees
      ensures Follows(OpAccrue(f, accrued), old(Tables()), Tables(), r)
    {
      if f >= |fees| { return Denied(NoSuchRow); }
      var amount := Max(fees[f].paid, accrued);
      if amount != fees[f].amount {
        fees := fees[f := fees[f].(amount := amount)];
        if fees[f].paid >= fees[f].amount && fees[f].amount > 0 {
          fees := fees[f := fees[f].(status := Paid)];
        }
      }
      return Ok;
    }

    method WaiveFee(f: Id) returns (r: Reply)
      modifies this`fees
      ensures Follows(OpWaive(f), old(Tables()), Tables(), r)
    {
      if f >= |fees| { return Denied(NoSuchRow); }
      if fees[f].status == Waived { return Ok; }
      if fees[f].paid > 0 { return Denied(PartlyPaid); }
      if fees[f].status != Outstanding { return Denied(NotOutstanding); }
      fees := fees[f := fees[f].(status := Waived)];
      return Ok;
    }

    method RecordPayment(patron: Id, amount: int, how: Method) returns (r: Reply)
      modifies this
      ensures Follows(OpPay(patron, amount, how), old(Tables()), Tables(), r)
    {
      if amount <= 0 { return Denied(NotPositive); }
      if how == Online(false) { return Denied(NotCaptured); }
      if how.Unknown? { return Denied(BadMethod); }
      var p := |payments|;
      payments := payments + [Payment(patron, amount, None)];
      ghost var start := Tables();
      var remaining, i := amount, 0;
      while i < |fees| && remaining > 0
        invariant 0 <= i <= |fees| && remaining >= 0
        invariant Pour(Tables(), patron, p, remaining, i) == Pour(start, patron, p, amount, 0)
      {
        var fee := fees[i];
        if Collectable(fee, patron) {
          var owed := Max(0, fee.amount - fee.paid);
          var applied := Min(owed, remaining);
          if applied > 0 {
            remaining := remaining - applied;
            var paid := fee.paid + applied;
            fees := fees[i := fee.(paid := paid, status := if paid >= fee.amount then Paid else fee.status)];
            allocations := allocations + [Allocation(p, i, applied, 0)];
          }
        }
        i := i + 1;
      }
      return Ok;
    }

    method RefundPayment(p: Id, asked: Option<int>, gatewayOk: bool) returns (r: Reply)
      modifies this
      ensures Follows(OpRefund(p, asked, gatewayOk), old(Tables()), Tables(), r)
    {
      hide Refundable, Sum;
      if p >= |payments| { return Denied(NoSuchRow); }
      if payments[p].refundOf.Some? { return Denied(RefundOfRefund); }
      var refundable := Refundable(Tables(), p);
      var amount := if asked.None? then refundable else asked.value;
      if amount <= 0 || amount > refundable { return Denied(BadRefundAmount); }
      payments := payments + [Payment(payments[p].patron, amount, Some(p))];
      if !gatewayOk {
        payments := payments[..|payments| - 1];
        return Denied(GatewayFailed);
      }
      ghost var start := Tables();
      var remaining, i := amount, |allocations|;
      while i > 0 && remaining > 0
        invariant 0 <= i <= |allocations| == |start.allocations| && remaining >= 0
        invariant Unwind(Tables(), p, remaining, i) == Unwind(start, p, amount, |start.allocations|)
      {
        ghost var before := Tables();
        i := i - 1;
        var a := allocations[i];
        if a.payment == p && a.fee < |fees| && fees[a.fee].status != Waived {
          var back := Min(RemainingOf(a), remaining);
          if back > 0 {
            var fee := fees[a.fee];
            var paid := Max(0, fee.paid - back);
            fees := fees[a.fee := fee.(paid := paid,
                                       status := if fee.status == Paid && paid < fee.amount then Outstanding
                                           else fee.status)];
            allocations := allocations[i := a.(reversed := a.reversed + back)];
            remaining := remaining - back;
            assert Tables() == TakeBack(before, i, back);
          }
        }
      }
      return Ok;
    }
  }

  // ---------------------------------------------------------------- installment plans

  datatype PlanReply = PlanPaid(cents: nat) | PlanInactive | NothingLeft | CardDeclined | PaymentRefused(error: Refusal)

  /** A patron's outstanding balance paid off in equal installments, the last one smaller. */
  class PaymentPlan {
    const patron: Id
    const total: nat
    const installment: nat
    var paid: nat
    var completed: bool

    /** Never overpaid, and completed exactly when everything is paid. */
    predicate Valid()
      reads this
    {
      0 < total && 0 < installment && paid <= total && (completed <==> paid == total)
    }

    constructor (patron: Id, total: nat, installments: nat)
      requires total > 0 && installments >= 1
      ensures Valid() && paid == 0 && this.patron == patron && this.total == total
      ensures installment == Installment(total, installments) && paid == PaidAfter(total, installment, 0)
    {
      this.patron, this.total := patron, total;
      this.installment := Installment(total, installments);
      paid, completed := 0, false;
      new;
      InstallmentExact(total, installments);
    }

    /** `cardOk` is the gateway's answer to an online charge of the computed amount. */
    method PayInstallment(desk: Accounts, asked: Option<int>, how: Method, cardOk: bool) returns (r: PlanReply)
      requires Valid()
      modifies this, desk
      ensures Valid()
      ensures var want := if asked.None? then installment else asked.value;
              var cents := Min(total - old(paid), Max(0, want));
              var sent := if how.Online? then Online(true) else how;
              if old(completed) then r == PlanInactive && paid == old(paid) && desk.Tables() == old(desk.Tables())
              else if cents == 0 then r == NothingLeft && paid == old(paid) && desk.Tables() == old(desk.Tables())
              else if how.Online? && !cardOk
                   then r == CardDeclined && paid == old(paid) && desk.Tables() == old(desk.Tables())
              else
                && 0 < cents
                && Follows(OpPay(patron, cents, sent), old(desk.Tables()), desk.Tables(),
                           if r.PlanPaid? then Ok else Denied(BadMethod))
                && (r == if how.Unknown? then PaymentRefused(BadMethod) else PlanPaid(cents))
                && paid == old(paid) + (if r.PlanPaid? then cents else 0)
      ensures asked.None? && r.PlanPaid? ==>
        forall k: nat :: old(paid) == PaidAfter(total, installment, k) ==> paid == PaidAfter(total, installment, k + 1)
    {
      if completed { return PlanInactive; }
      var want := if asked.None? then installment else asked.value;
      var cents := Min(Max(0, total - paid), Max(0, want));
      if cents <= 0 { return NothingLeft; }
      if how.Online? && !cardOk { return CardDeclined; }
      hide Pour;
      var reply := desk.RecordPayment(patron, cents, if how.Online? then Online(true) else how);
      if reply.Denied? { return PaymentRefused(reply.error); }
      paid := paid + cents;
      if paid >= total { completed := true; }
      return PlanPaid(cents);
    }
  }

  datatype PlanRefusal = BadTerms | NoBalance | AboveBalance

  /** A plan is opened for at most what the patron owes, and refused for the reason the code gives otherwise. */
  method CreatePaymentPlan(desk: Accounts, patron: Id, total: int, installments: int)
    returns (plan: PaymentPlan?, refusal: Option<PlanRefusal>)
    ensures refusal == if total <= 0 || installments < 1 then Some(BadTerms)
                       else if Balance(desk.Tables(), patron) == 0 then Some(NoBalance)
                       else if total > Balance(desk.Tables(), patron) then Some(AboveBalance)
                       else None
    ensures plan == null <==> refusal.Some?
    ensures plan != null ==>
        fresh(plan) && plan.Valid() && plan.patron == patron && plan.total == total && plan.paid == 0
    ensures plan != null ==> plan.installment == Installment(total, installments)
  {
    if total <= 0 || installments < 1 { return null, Some(BadTerms); }
    var balance := Balance(desk.Tables(), patron);
    if balance <= 0 { return null, Some(NoBalance); }
    if total > balance { return null, Some(AboveBalance); }
    plan := new PaymentPlan(patron, total, installments);
    refusal := None;
  }

  /** The installment is the total divided by their number, rounded up. */
  function Installment(total: nat, installments: nat): nat
    requires installments >= 1
  {
    (total + installments - 1) / installments
  }

  lemma InstallmentExact(total: nat, installments: nat)
    requires installments >= 1
    ensures var each := Installment(total, installments);
            total <= each * installments && (total > 0 ==> 0 < each && (each - 1) * installments < total)
  {}

  /** What has been paid after `k` default installments, as `PaymentPlan.PayInstallment` leaves it. */
  function PaidAfter(total: nat, each: nat, k: nat): nat {
    if k == 0 then 0
    else
      var before := PaidAfter(total, each, k - 1);
      before + Min(Max(0, total - before), each)
  }

  lemma {:induction false} PaidAfterExact(total: nat, each: nat, k: nat)
    ensures PaidAfter(total, each, k) == Min(total, k * each)
  {
    if k > 0 {
      PaidAfterExact(total, each, k - 1);
      assert k * each == (k - 1) * each + each;
    }
  }

  /** A plan set up for `installments` payments is complete after that many, and not while a full one is missing. */
  lemma PlanCompletes(total: nat, installments: nat)
    requires total > 0 && installments >= 1
    ensures var each := Installment(total, installments);
            && PaidAfter(total, each, installments) == total
            && forall k: nat :: k * each < total ==> PaidAfter(total, each, k) < total
  {
    var each := Installment(total, installments);
    InstallmentExact(total, installments);
    PaidAfterExact(total, each, installments);
    assert installments * each == each * installments;
    forall k: nat | k * each < total ensures PaidAfter(total, each, k) < total {
      PaidAfterExact(total, each, k);
    }
  }
}
