/** Patron fees, payments and refunds.

    Rows are kept in creation order, which is the order every query over them uses.  A refund is a
    payment row that names the payment it reverses.  An allocation says how much of a payment went
    to a fee and how much of that has been taken back. */
module Ledger {
  import opened Common

  datatype FeeStatus = Outstanding | Paid | Waived

  datatype Fee = Fee(patron: Id, amount: nat, paid: nat, status: FeeStatus)

  datatype Payment = Payment(patron: Id, amount: nat, refundOf: Option<Id>)

  datatype Allocation = Allocation(payment: Id, fee: Id, amount: nat, reversed: nat)

  datatype Book = Book(fees: seq<Fee>, payments: seq<Payment>, allocations: seq<Allocation>)

  datatype Refusal = NotPositive | BadMethod | NotCaptured | NoSuchRow | PartlyPaid | NotOutstanding
                   | RefundOfRefund | BadRefundAmount | GatewayFailed

  datatype Outcome = Done(after: Book) | Refused(error: Refusal)

  // ---------------------------------------------------------------- sums over tables

  function RemainingOf(a: Allocation): nat { Max(0, a.amount - a.reversed) }

  function AmountFrom(p: Id): Allocation -> nat { (a: Allocation) => if a.payment == p then a.amount else 0 }

  function ReversedFrom(p: Id): Allocation -> nat { (a: Allocation) => if a.payment == p then a.reversed else 0 }

  function LeftFrom(p: Id): Allocation -> nat { (a: Allocation) => if a.payment == p then RemainingOf(a) else 0 }

  function LiveOn(f: Id): Allocation -> nat { (a: Allocation) => if a.fee == f then RemainingOf(a) else 0 }

  function RefundsOf(p: Id): Payment -> nat { (r: Payment) => if r.refundOf == Some(p) then r.amount else 0 }

  /** Part of payment `p` that can be taken back from fees not waived since. */
  function ReversibleFrom(fees: seq<Fee>, p: Id): Allocation -> nat {
    (a: Allocation) => if a.payment == p && !(a.fee < |fees| && fees[a.fee].status == Waived) then RemainingOf(a) else 0
  }

  function Allocated(b: Book, p: Id): nat { Sum(b.allocations, AmountFrom(p)) }

  function Reversed(b: Book, p: Id): nat { Sum(b.allocations, ReversedFrom(p)) }

  function Refunded(b: Book, p: Id): nat { Sum(b.payments, RefundsOf(p)) }

  // ---------------------------------------------------------------- what every book keeps

  predicate FeeKept(b: Book, f: Id)
    requires f < |b.fees|
  {
    && b.fees[f].paid == Sum(b.allocations, LiveOn(f))
    && b.fees[f].paid <= b.fees[f].amount
    && (b.fees[f].status == Waived ==> b.fees[f].paid == 0)
  }

  predicate AllocationKept(b: Book, a: Allocation) {
    && a.fee < |b.fees| && a.payment < |b.payments| && b.payments[a.payment].refundOf.None?
    && a.reversed <= a.amount
  }

  predicate PaymentKept(b: Book, p: Id)
    requires p < |b.payments|
  {
    && Allocated(b, p) <= b.payments[p].amount
    && Refunded(b, p) <= b.payments[p].amount
    && Reversed(b, p) == Min(Allocated(b, p), Refunded(b, p))
  }

  predicate FeesKept(b: Book) {
    && (forall f | 0 <= f < |b.fees| :: FeeKept(b, f))
    && (forall i | 0 <= i < |b.allocations| :: AllocationKept(b, b.allocations[i]))
  }

  predicate Kept(b: Book) {
    && FeesKept(b)
    && (forall p | 0 <= p < |b.payments| && b.payments[p].refundOf.None? :: PaymentKept(b, p))
    && (forall r | 0 <= r < |b.payments| && b.payments[r].refundOf.Some? :: b.payments[r].refundOf.value < r)
  }

  // ---------------------------------------------------------------- single movements

  /** `x` cents of payment `p` go to fee `f`. */
  function ApplyTo(b: Book, f: Id, x: nat, p: Id): Book
    requires f < |b.fees|
  {
    var fee := b.fees[f];
    var paid := fee.paid + x;
    b.(fees := b.fees[f := fee.(paid := paid, status := if paid >= fee.amount then Paid else fee.status)],
       allocations := b.allocations + [Allocation(p, f, x, 0)])
  }

  /** `x` cents of allocation `i` are taken back from its fee. */
  function TakeBack(b: Book, i: nat, x: nat): Book
    requires i < |b.allocations| && b.allocations[i].fee < |b.fees|
  {
    var a := b.allocations[i];
    var fee := b.fees[a.fee];
    var paid := Max(0, fee.paid - x);
    b.(fees := b.fees[a.fee := fee.(paid := paid,
                                    status := if fee.status == Paid && paid < fee.amount then Outstanding
                                        else fee.status)],
       allocations := b.allocations[i := a.(reversed := a.reversed + x)])
  }

  lemma ApplyKeepsFees(b: Book, f: Id, x: nat, p: Id)
    requires FeesKept(b) && f < |b.fees| && p < |b.payments| && b.payments[p].refundOf.None?
    requires b.fees[f].status == Outstanding && b.fees[f].paid + x <= b.fees[f].amount
    ensures FeesKept(ApplyTo(b, f, x, p))
  {
    var c := ApplyTo(b, f, x, p);
    forall g | 0 <= g < |c.fees| ensures FeeKept(c, g) {
      assert FeeKept(b, g);
      SumAppend(b.allocations, [Allocation(p, f, x, 0)], LiveOn(g));
    }
  }

  lemma ApplySums(b: Book, f: Id, x: nat, p: Id, q: Id)
    requires f < |b.fees|
    ensures Allocated(ApplyTo(b, f, x, p), q) == Allocated(b, q) + if p == q then x else 0
    ensures Reversed(ApplyTo(b, f, x, p), q) == Reversed(b, q)
  {
    SumAppend(b.allocations, [Allocation(p, f, x, 0)], AmountFrom(q));
    SumAppend(b.allocations, [Allocation(p, f, x, 0)], ReversedFrom(q));
  }

  lemma TakeBackKeepsFees(b: Book, i: nat, x: nat)
    requires FeesKept(b) && i < |b.allocations| && x <= RemainingOf(b.allocations[i])
    ensures b.allocations[i].fee < |b.fees| && FeesKept(TakeBack(b, i, x))
    ensures x <= b.fees[b.allocations[i].fee].paid
  {
    var a := b.allocations[i];
    assert AllocationKept(b, a) && FeeKept(b, a.fee);
    var c := TakeBack(b, i, x);
    SumUpdate(b.allocations, i, c.allocations[i], LiveOn(a.fee));
    forall g | 0 <= g < |c.fees| ensures FeeKept(c, g) {
      assert FeeKept(b, g);
      SumUpdate(b.allocations, i, c.allocations[i], LiveOn(g));
    }
    forall k | 0 <= k < |c.allocations| ensures AllocationKept(c, c.allocations[k]) {
      assert AllocationKept(b, b.allocations[k]);
    }
  }

  lemma TakeBackSums(b: Book, i: nat, x: nat, q: Id)
    requires i < |b.allocations| && b.allocations[i].fee < |b.fees| && x <= RemainingOf(b.allocations[i])
    ensures Allocated(TakeBack(b, i, x), q) == Allocated(b, q)
    ensures Reversed(TakeBack(b, i, x), q) == Reversed(b, q) + if b.allocations[i].payment == q then x else 0
  {
    var c := TakeBack(b, i, x);
    SumUpdate(b.allocations, i, c.allocations[i], AmountFrom(q));
    SumUpdate(b.allocations, i, c.allocations[i], ReversedFrom(q));
  }

  // ---------------------------------------------------------------- recording a payment

  function Owed(fee: Fee): nat { Max(0, fee.amount - fee.paid) }

  predicate Collectable(fee: Fee, patron: Id) { fee.patron == patron && fee.status == Outstanding }

  /** Allocate `remaining` cents of payment `p` over the patron's outstanding fees from index `i` on. */
  function Pour(b: Book, patron: Id, p: Id, remaining: nat, i: nat): Book
    decreases |b.fees| - i
  {
    if i >= |b.fees| || remaining == 0 then b
    else if !Collectable(b.fees[i], patron) || Owed(b.fees[i]) == 0 then Pour(b, patron, p, remaining, i + 1)
    else
      var applied := Min(Owed(b.fees[i]), remaining);
      Pour(ApplyTo(b, i, applied, p), patron, p, remaining - applied, i + 1)
  }

  datatype Method = Manual | Online(captured: bool) | Unknown

  function RecordPayment(b: Book, patron: Id, amount: int, how: Method): Outcome {
    if amount <= 0 then Refused(NotPositive)
    else if how == Online(false) then Refused(NotCaptured)
    else if how.Unknown? then Refused(BadMethod)
    else Done(Pour(b.(payments := b.payments + [Payment(patron, amount, None)]), patron, |b.payments|, amount, 0))
  }

  // ---------------------------------------------------------------- waiving, charging, accruing

  function WaiveFee(b: Book, f: Id): Outcome {
    if f >= |b.fees| then Refused(NoSuchRow)
    else if b.fees[f].status == Waived then Done(b)
    else if b.fees[f].paid > 0 then Refused(PartlyPaid)
    else if b.fees[f].status != Outstanding then Refused(NotOutstanding)
    else Done(b.(fees := b.fees[f := b.fees[f].(status := Waived)]))
  }

  /** A lost-item, damage or first overdue fee. */
  function ChargeFee(b: Book, patron: Id, amount: nat): Outcome {
    Done(b.(fees := b.fees + [Fee(patron, amount, 0, Outstanding)]))
  }

  /** The accruing overdue fee is set to the amount run up, never below what has been paid. */
  function Accrue(b: Book, f: Id, accrued: nat): Outcome {
    if f >= |b.fees| then Refused(NoSuchRow)
    else
      var fee := b.fees[f];
      var amount := Max(fee.paid, accrued);
      if amount == fee.amount then Done(b)
      else Done(b.(fees := b.fees[f := fee.(amount := amount,
                                            status := if fee.paid >= amount && amount > 0 then Paid else fee.status)]))
  }

  // ---------------------------------------------------------------- refunds

  /** Take `remaining` cents of payment `p` back from its allocations below `i`, latest first, skipping waived fees. */
  function Unwind(b: Book, p: Id, remaining: nat, i: nat): Book
    requires i <= |b.allocations|
    decreases i
  {
    if i == 0 || remaining == 0 then b
    else
      var a := b.allocations[i - 1];
      if a.payment != p || a.fee >= |b.fees| || b.fees[a.fee].status == Waived || RemainingOf(a) == 0
      then Unwind(b, p, remaining, i - 1)
      else
        var x := Min(RemainingOf(a), remaining);
        Unwind(TakeBack(b, i - 1, x), p, remaining - x, i - 1)
  }

  /** The most that may still be refunded on payment `p`, as the code computes it. */
  function Refundable(b: Book, p: Id): nat
    requires p < |b.payments|
  {
    var reversible := Sum(b.allocations, ReversibleFrom(b.fees, p));
    var unallocated := Max(0, b.payments[p].amount - Allocated(b, p));
    Min(reversible + unallocated, Max(0, b.payments[p].amount - Refunded(b, p)))
  }

  /** `asked` is the amount requested, or everything refundable; `gatewayOk` is the outcome of the card refund. */
  function RefundPayment(b: Book, p: Id, asked: Option<int>, gatewayOk: bool): Outcome {
    if p >= |b.payments| then Refused(NoSuchRow)
    else if b.payments[p].refundOf.Some? then Refused(RefundOfRefund)
    else
      var amount := if asked.None? then Refundable(b, p) else asked.value;
      if amount <= 0 || amount > Refundable(b, p) then Refused(BadRefundAmount)
      else if !gatewayOk then Refused(GatewayFailed)
      else
        Done(Unwind(b.(payments := b.payments + [Payment(b.payments[p].patron, amount, Some(p))]), p, amount,
                    |b.allocations|))
  }

  // ---------------------------------------------------------------- runs

  datatype Op =
    | OpCharge(patron: Id, amount: nat)
    | OpAccrue(fee: Id, accrued: nat)
    | OpPay(patron: Id, cents: int, how: Method)
    | OpWaive(fee: Id)
    | OpRefund(payment: Id, asked: Option<int>, gatewayOk: bool)

  function Apply(b: Book, op: Op): Outcome {
    match op
    case OpCharge(patron, amount) => ChargeFee(b, patron, amount)
    case OpAccrue(f, accrued) => Accrue(b, f, accrued)
    case OpPay(patron, cents, how) => RecordPayment(b, patron, cents, how)
    case OpWaive(f) => WaiveFee(b, f)
    case OpRefund(p, asked, ok) => RefundPayment(b, p, asked, ok)
  }

  function Step(b: Book, op: Op): Book {
    match Apply(b, op)
    case Done(c) => c
    case Refused(_) => b
  }

  const EMPTY := Book([], [], [])

  function Run(ops: seq<Op>): Book {
    if ops == [] then EMPTY else Step(Run(ops[..|ops| - 1]), ops[|ops| - 1])
  }
}
