/** Exact sums that every run of charges, accruals, payments, waivers and refunds keeps. */
module LedgerProofs {
  import opened Common
  import opened Ledger

  // ---------------------------------------------------------------- payments pour down the queue of fees

  /** What a fee can still take from a payment by `patron`. */
  function Due(fee: Fee, patron: Id): nat { if Collectable(fee, patron) then Owed(fee) else 0 }

  function DueBetween(fees: seq<Fee>, patron: Id, i: nat, j: nat): nat
    requires j <= |fees|
    decreases j - i
  {
    if i >= j then 0 else Due(fees[i], patron) + DueBetween(fees, patron, i + 1, j)
  }

  /** What fee `j` gets of `remaining` cents poured from fee `i` on. */
  function Share(fees: seq<Fee>, patron: Id, remaining: nat, i: nat, j: nat): nat
    requires i <= j < |fees|
  {
    Min(Due(fees[j], patron), Max(0, remaining - DueBetween(fees, patron, i, j)))
  }

  function WithShare(fee: Fee, x: nat): Fee {
    if x == 0 then fee else fee.(paid := fee.paid + x,
                                 status := if fee.paid + x >= fee.amount then Paid else fee.status)
  }

  lemma {:induction false} DueBetweenSame(a: seq<Fee>, b: seq<Fee>, patron: Id, i: nat, j: nat)
    requires |a| == |b| && j <= |a| && forall k | i <= k < j :: a[k] == b[k]
    ensures DueBetween(a, patron, i, j) == DueBetween(b, patron, i, j)
    decreases j - i
  {
    if i < j {
      DueBetweenSame(a, b, patron, i + 1, j);
    }
  }

  /** Fee by fee: each one takes what it owes of what the fees before it left over. */
  lemma {:induction false} PourShares(b: Book, patron: Id, p: Id, remaining: nat, i: nat)
    requires i <= |b.fees|
    ensures var c := Pour(b, patron, p, remaining, i);
            && |c.fees| == |b.fees| && c.payments == b.payments
            && (forall j | 0 <= j < i :: c.fees[j] == b.fees[j])
            && (forall j | i <= j < |b.fees| ::
                c.fees[j] == WithShare(b.fees[j], Share(b.fees, patron, remaining, i, j)))
    decreases |b.fees| - i
  {
    if i < |b.fees| && remaining > 0 {
      if Due(b.fees[i], patron) == 0 {
        PourShares(b, patron, p, remaining, i + 1);
      } else {
        var applied := Min(Owed(b.fees[i]), remaining);
        var d := ApplyTo(b, i, applied, p);
        PourShares(d, patron, p, remaining - applied, i + 1);
        forall j | i + 1 <= j < |b.fees|
          ensures Share(b.fees, patron, remaining, i, j) == Share(d.fees, patron, remaining - applied, i + 1, j)
        {
          DueBetweenSame(b.fees, d.fees, patron, i + 1, j);
        }
      }
    }
  }

  lemma {:induction false} PourKeeps(b: Book, patron: Id, p: Id, remaining: nat, i: nat, q: Id)
    requires FeesKept(b) && p < |b.payments| && b.payments[p].refundOf.None? && i <= |b.fees|
    ensures var c := Pour(b, patron, p, remaining, i);
            && FeesKept(c) && c.payments == b.payments && Reversed(c, q) == Reversed(b, q)
            && Allocated(c, q) == Allocated(b, q) + if p == q
                 then Min(remaining, DueBetween(b.fees, patron, i, |b.fees|)) else 0
    decreases |b.fees| - i
  {
    if i < |b.fees| && remaining > 0 {
      if Due(b.fees[i], patron) == 0 {
        PourKeeps(b, patron, p, remaining, i + 1, q);
      } else {
        assert FeeKept(b, i);
        var applied := Min(Owed(b.fees[i]), remaining);
        var d := ApplyTo(b, i, applied, p);
        ApplyKeepsFees(b, i, applied, p);
        ApplySums(b, i, applied, p, q);
        PourKeeps(d, patron, p, remaining - applied, i + 1, q);
        DueBetweenSame(b.fees, d.fees, patron, i + 1, |b.fees|);
      }
    }
  }

  /** The payment waterfall: fee `j` gets min(owed, amount left after the earlier fees); in all min(amount, total
      owed). */
  lemma Waterfall(b: Book, patron: Id, amount: int, how: Method)
    requires Kept(b) && RecordPayment(b, patron, amount, how).Done?
    ensures var c := RecordPayment(b, patron, amount, how).after;
            && |c.fees| == |b.fees|
            && (forall j | 0 <= j < |b.fees| :: c.fees[j] == WithShare(b.fees[j], Share(b.fees, patron, amount, 0, j)))
            && Allocated(c, |b.payments|) == Min(amount, DueBetween(b.fees, patron, 0, |b.fees|))
  {
    var d := b.(payments := b.payments + [Payment(patron, amount, None)]);
    PourShares(d, patron, |b.payments|, amount, 0);
    NewPaymentKept(b, Payment(patron, amount, None));
    PourKeeps(d, patron, |b.payments|, amount, 0, |b.payments|);
  }

  // ---------------------------------------------------------------- a new row in the payment table

  lemma NewPaymentKept(b: Book, row: Payment)
    requires Kept(b)
    ensures var d := b.(payments := b.payments + [row]);
            && FeesKept(d) && Allocated(d, |b.payments|) == 0 && Reversed(d, |b.payments|) == 0
            && Refunded(d, |b.payments|) == RefundsOf(|b.payments|)(row)
            && forall q | 0 <= q < |b.payments| :: Refunded(d, q) == Refunded(b, q) + RefundsOf(q)(row)
  {
    var d := b.(payments := b.payments + [row]);
    var n := |b.payments|;
    forall f | 0 <= f < |d.fees| ensures FeeKept(d, f) {
      assert FeeKept(b, f);
    }
    forall i | 0 <= i < |d.allocations| ensures AllocationKept(d, d.allocations[i]) && d.allocations[i].payment != n {
      assert AllocationKept(b, b.allocations[i]);
    }
    SumZero(d.allocations, AmountFrom(n));
    SumZero(d.allocations, ReversedFrom(n));
    forall q: nat | q <= n ensures Refunded(d, q) == Refunded(b, q) + RefundsOf(q)(row) {
      SumAppend(b.payments, [row], RefundsOf(q));
      assert Sum([row], RefundsOf(q)) == Sum([row][..0], RefundsOf(q)) + RefundsOf(q)(row);
    }
    forall r | 0 <= r < n ensures b.payments[r].refundOf != Some(n) {}
    SumZero(b.payments, RefundsOf(n));
  }

  // ---------------------------------------------------------------- refunds unwind allocations

  /** Nothing is left to take back from a waived fee, so skipping it skips nothing. */
  lemma WaivedHasNothingLeft(b: Book, i: nat)
    requires FeesKept(b) && i < |b.allocations| && b.allocations[i].fee < |b.fees|
    requires b.fees[b.allocations[i].fee].status == Waived
    ensures RemainingOf(b.allocations[i]) == 0
  {
    var f := b.allocations[i].fee;
    assert FeeKept(b, f);
    SumUpdate(b.allocations, i, b.allocations[i], LiveOn(f));
  }

  lemma LeftSnoc(b: Book, p: Id, i: nat)
    requires 0 < i <= |b.allocations|
    ensures Sum(b.allocations[..i], LeftFrom(p))
        == Sum(b.allocations[..i - 1], LeftFrom(p))
           + if b.allocations[i - 1].payment == p then RemainingOf(b.allocations[i - 1]) else 0
  {
    assert b.allocations[..i][..i - 1] == b.allocations[..i - 1];
  }

  lemma {:induction false} UnwindKeeps(b: Book, p: Id, remaining: nat, i: nat, q: Id)
    requires FeesKept(b) && i <= |b.allocations|
    ensures var c := Unwind(b, p, remaining, i);
            && FeesKept(c) && c.payments == b.payments && Allocated(c, q) == Allocated(b, q)
            && Reversed(c, q) == Reversed(b, q) + if p == q then Min(remaining, Sum(b.allocations[..i], LeftFrom(p)))
                 else 0
    decreases i
  {
    hide FeesKept, Allocated, Reversed, Sum, AllocationKept;
    if i > 0 && remaining > 0 {
      var a := b.allocations[i - 1];
      AllocationFits(b, i - 1);
      LeftSnoc(b, p, i);
      if b.fees[a.fee].status == Waived {
        WaivedHasNothingLeft(b, i - 1);
      }
      if a.payment != p || b.fees[a.fee].status == Waived || RemainingOf(a) == 0 {
        UnwindKeeps(b, p, remaining, i - 1, q);
      } else {
        var x := Min(RemainingOf(a), remaining);
        var d := TakeBack(b, i - 1, x);
        TakeBackKeepsFees(b, i - 1, x);
        TakeBackSums(b, i - 1, x, q);
        assert d.allocations[..i - 1] == b.allocations[..i - 1];
        hide TakeBack;
        UnwindKeeps(d, p, remaining - x, i - 1, q);
      }
    } else {
      NothingLeftBelow(b, p);
    }
  }

  lemma AllocationFits(b: Book, i: nat)
    requires FeesKept(b) && i < |b.allocations|
    ensures b.allocations[i].fee < |b.fees|
  {
    assert AllocationKept(b, b.allocations[i]);
  }

  lemma NothingLeftBelow(b: Book, p: Id)
    ensures Sum(b.allocations[..0], LeftFrom(p)) == 0
  {}

  lemma LeftIsAllocatedMinusReversed(b: Book, p: Id)
    requires FeesKept(b)
    ensures Sum(b.allocations, LeftFrom(p)) == Allocated(b, p) - Reversed(b, p)
  {
    forall a | a in b.allocations ensures AmountFrom(p)(a) == LeftFrom(p)(a) + ReversedFrom(p)(a) {
      assert AllocationKept(b, a);
    }
    SumsAdd(b.allocations, LeftFrom(p), ReversedFrom(p), AmountFrom(p));
  }

  lemma ReversibleIsLeft(b: Book, p: Id)
    requires FeesKept(b)
    ensures Sum(b.allocations, ReversibleFrom(b.fees, p)) == Sum(b.allocations, LeftFrom(p))
  {
    forall a | a in b.allocations ensures ReversibleFrom(b.fees, p)(a) == LeftFrom(p)(a) {
      var i :| 0 <= i < |b.allocations| && b.allocations[i] == a;
      if a.fee < |b.fees| && b.fees[a.fee].status == Waived {
        WaivedHasNothingLeft(b, i);
      }
    }
    SumBounded(b.allocations, ReversibleFrom(b.fees, p), LeftFrom(p));
    SumBounded(b.allocations, LeftFrom(p), ReversibleFrom(b.fees, p));
  }

  /** The clamps in the refund cap never bite: what is refundable is the payment less its refunds so far. */
  lemma RefundableExact(b: Book, p: Id)
    requires Kept(b) && p < |b.payments| && b.payments[p].refundOf.None?
    ensures Refundable(b, p) == b.payments[p].amount - Refunded(b, p)
  {
    assert PaymentKept(b, p);
    LeftIsAllocatedMinusReversed(b, p);
    ReversibleIsLeft(b, p);
  }

  lemma RefundKeepsPayment(b: Book, p: Id, asked: Option<int>, gatewayOk: bool, q: Id)
    requires Kept(b) && RefundPayment(b, p, asked, gatewayOk).Done?
    requires q < |b.payments| && b.payments[q].refundOf.None?
    ensures var c := RefundPayment(b, p, asked, gatewayOk).after;
            q < |c.payments| && c.payments[q] == b.payments[q] && PaymentKept(c, q)
  {
    var amount := if asked.None? then Refundable(b, p) else asked.value;
    var row := Payment(b.payments[p].patron, amount, Some(p));
    var d := b.(payments := b.payments + [row]);
    RefundableExact(b, p);
    NewPaymentKept(b, row);
    assert d.allocations[..|d.allocations|] == d.allocations;
    UnwindKeeps(d, p, amount, |d.allocations|, q);
    LeftIsAllocatedMinusReversed(d, p);
    assert PaymentKept(b, q);
    assert Allocated(d, q) == Allocated(b, q) && Reversed(d, q) == Reversed(b, q);
  }

  lemma RefundKeeps(b: Book, p: Id, asked: Option<int>, gatewayOk: bool)
    requires Kept(b) && RefundPayment(b, p, asked, gatewayOk).Done?
    ensures Kept(RefundPayment(b, p, asked, gatewayOk).after)
  {
    var amount := if asked.None? then Refundable(b, p) else asked.value;
    var row := Payment(b.payments[p].patron, amount, Some(p));
    var d := b.(payments := b.payments + [row]);
    NewPaymentKept(b, row);
    UnwindKeeps(d, p, amount, |d.allocations|, p);
    var c := RefundPayment(b, p, asked, gatewayOk).after;
    forall q | 0 <= q < |c.payments| && c.payments[q].refundOf.None? ensures PaymentKept(c, q) {
      RefundKeepsPayment(b, p, asked, gatewayOk, q);
    }
  }

  // ---------------------------------------------------------------- the other operations

  lemma PayKeeps(b: Book, patron: Id, amount: int, how: Method)
    requires Kept(b) && RecordPayment(b, patron, amount, how).Done?
    ensures Kept(RecordPayment(b, patron, amount, how).after)
  {
    var row := Payment(patron, amount, None);
    var p := |b.payments|;
    var d := b.(payments := b.payments + [row]);
    NewPaymentKept(b, row);
    var c := Pour(d, patron, p, amount, 0);
    PourKeeps(d, patron, p, amount, 0, p);
    forall q | 0 <= q < |c.payments| && c.payments[q].refundOf.None? ensures PaymentKept(c, q) {
      PourKeeps(d, patron, p, amount, 0, q);
      if q < p {
        assert PaymentKept(b, q);
      }
    }
  }

  /** One fee row changes without touching what was paid on it. */
  lemma FeeRowKeeps(b: Book, f: Id, fee: Fee)
    requires Kept(b) && f < |b.fees| && fee.paid == b.fees[f].paid && fee.paid <= fee.amount
    requires fee.status == Waived ==> fee.paid == 0
    ensures Kept(b.(fees := b.fees[f := fee]))
  {
    var c := b.(fees := b.fees[f := fee]);
    forall g | 0 <= g < |c.fees| ensures FeeKept(c, g) { assert FeeKept(b, g); }
    forall i | 0 <= i < |c.allocations| ensures AllocationKept(c, c.allocations[i]) {
      assert AllocationKept(b, b.allocations[i]);
    }
    forall q | 0 <= q < |c.payments| && c.payments[q].refundOf.None? ensures PaymentKept(c, q) {
      assert PaymentKept(b, q);
    }
  }

  lemma ChargeKeeps(b: Book, patron: Id, amount: nat)
    requires Kept(b)
    ensures Kept(ChargeFee(b, patron, amount).after)
  {
    var c := ChargeFee(b, patron, amount).after;
    forall i | 0 <= i < |c.allocations| ensures AllocationKept(c, c.allocations[i]) {
      assert AllocationKept(b, b.allocations[i]);
    }
    forall g | 0 <= g < |c.fees| ensures FeeKept(c, g) {
      if g < |b.fees| {
        assert FeeKept(b, g);
      } else {
        forall a | a in b.allocations ensures a.fee != g {
          assert AllocationKept(b, a);
        }
        SumZero(b.allocations, LiveOn(g));
      }
    }
    forall q | 0 <= q < |c.payments| && c.payments[q].refundOf.None? ensures PaymentKept(c, q) {
      assert PaymentKept(b, q);
    }
  }

  lemma StepKeeps(b: Book, op: Op)
    requires Kept(b)
    ensures Kept(Step(b, op))
  {
    if Apply(b, op).Done? {
      match op
      case OpCharge(patron, amount) => ChargeKeeps(b, patron, amount);
      case OpAccrue(f, accrued) =>
        assert FeeKept(b, f);
        FeeRowKeeps(b, f, Step(b, op).fees[f]);
        assert b.fees[f := b.fees[f]] == b.fees;
      case OpPay(patron, cents, how) => PayKeeps(b, patron, cents, how);
      case OpWaive(f) =>
        assert FeeKept(b, f);
        FeeRowKeeps(b, f, Step(b, op).fees[f]);
        assert b.fees[f := b.fees[f]] == b.fees;
      case OpRefund(p, asked, ok) => RefundKeeps(b, p, asked, ok);
    }
  }

  /** Every run: each fee's paid amount is what its allocations still carry, waived fees carry nothing, and each
      payment has had min(allocated, refunded) taken back and never more refunded than was paid. */
  lemma {:induction false} RunKeeps(ops: seq<Op>)
    ensures Kept(Run(ops))
  {
    if ops != [] {
      RunKeeps(ops[..|ops| - 1]);
      StepKeeps(Run(ops[..|ops| - 1]), ops[|ops| - 1]);
    }
  }

  /** What is asked for, or all that is left of the payment if nothing is. */
  function Wanted(b: Book, p: Id, asked: Option<int>): int
    requires p < |b.payments|
  {
    if asked.None? then b.payments[p].amount - Refunded(b, p) else asked.value
  }

  /** In any run a refund is accepted exactly when its payment is no refund itself, the gateway agrees, and
      the amount is positive and within what has not been refunded; a refusal, the gateway's too, leaves
      every table as it was. */
  lemma RefundAccepted(ops: seq<Op>, p: Id, asked: Option<int>, gatewayOk: bool)
    ensures var b := Run(ops);
            RefundPayment(b, p, asked, gatewayOk).Done?
            <==> p < |b.payments| && b.payments[p].refundOf.None? && gatewayOk
                 && 0 < Wanted(b, p, asked) <= b.payments[p].amount - Refunded(b, p)
    ensures RefundPayment(Run(ops), p, asked, gatewayOk).Refused? ==>
              Step(Run(ops), OpRefund(p, asked, gatewayOk)) == Run(ops)
  {
    RunKeeps(ops);
    if p < |Run(ops).payments| && Run(ops).payments[p].refundOf.None? {
      RefundableExact(Run(ops), p);
    }
  }

  // ---------------------------------------------------------------- paid fees that accrue further

  /** A settled fee that accrues again stays marked paid; it owes nothing more exactly when the new amount was already
      covered. */
  lemma PaidFeeAccrues(b: Book, f: Id, accrued: nat)
    requires Kept(b) && f < |b.fees| && b.fees[f].status == Paid && b.fees[f].paid == b.fees[f].amount
    ensures var fee := Accrue(b, f, accrued).after.fees[f];
            fee.status == Paid && (fee.paid == fee.amount <==> accrued <= b.fees[f].amount)
  {}

  /** So "paid" does not mean "nothing owed": an overdue fee settled early goes on accruing under that mark. */
  lemma PaidFeeCanOwe()
    ensures var b := Run([OpCharge(1, 25), OpPay(1, 25, Manual), OpAccrue(0, 50)]);
            |b.fees| == 1 && b.fees[0].status == Paid && b.fees[0].paid == 25 && b.fees[0].amount == 50
  {
    var a, p, c := OpCharge(1, 25), OpPay(1, 25, Manual), OpAccrue(0, 50);
    assert [a, p, c][..2] == [a, p] && [a, p][..1] == [a] && [a][..0] == [];
    assert Run([]) == EMPTY && Run([a]) == Step(Run([]), a) && Run([a, p]) == Step(Run([a]), p);
    assert Run([a]) == Book([Fee(1, 25, 0, Outstanding)], [], []);
    var start := Book([Fee(1, 25, 0, Outstanding)], [Payment(1, 25, None)], []);
    assert Run([a]).(payments := Run([a]).payments + [Payment(1, 25, None)]) == start;
    assert RecordPayment(Run([a]), 1, 25, Manual) == Done(Pour(start, 1, 0, 25, 0));
    assert Run([a, p]) == Pour(ApplyTo(start, 0, 25, 0), 1, 0, 0, 1);
  }

  // ---------------------------------------------------------------- what a payment does to the balance

  /** What a fee adds to its patron's balance. */
  function OwedBy(patron: Id): Fee -> nat {
    (fee: Fee) => if fee.patron == patron && fee.status != Waived then Owed(fee) else 0
  }

  /** Debt under a "paid" mark: it counts in the balance but no payment is ever allocated to it. */
  function StuckOn(patron: Id): Fee -> nat {
    (fee: Fee) => if fee.patron == patron && fee.status == Paid then Owed(fee) else 0
  }

  function Balance(b: Book, patron: Id): nat { Sum(b.fees, OwedBy(patron)) }

  function Stuck(b: Book, patron: Id): nat { Sum(b.fees, StuckOn(patron)) }

  lemma {:induction false} DueSnoc(fees: seq<Fee>, patron: Id, i: nat, j: nat)
    requires i <= j < |fees|
    ensures DueBetween(fees, patron, i, j + 1) == DueBetween(fees, patron, i, j) + Due(fees[j], patron)
    decreases j - i
  {
    if i < j {
      DueSnoc(fees, patron, i + 1, j);
    }
  }

  lemma {:induction false} BalanceSplits(fees: seq<Fee>, patron: Id)
    ensures Sum(fees, OwedBy(patron)) == DueBetween(fees, patron, 0, |fees|) + Sum(fees, StuckOn(patron))
  {
    if fees != [] {
      var n := |fees| - 1;
      BalanceSplits(fees[..n], patron);
      DueSnoc(fees, patron, 0, n);
      DuePrefix(fees, patron, 0, n);
    }
  }

  lemma {:induction false} DuePrefix(fees: seq<Fee>, patron: Id, i: nat, n: nat)
    requires i <= n <= |fees|
    ensures DueBetween(fees[..n], patron, i, n) == DueBetween(fees, patron, i, n)
    decreases n - i
  {
    if i < n {
      DuePrefix(fees, patron, i + 1, n);
    }
  }

  lemma {:induction false} PourLowersBalance(b: Book, patron: Id, p: Id, remaining: nat, i: nat)
    requires i <= |b.fees|
    ensures Balance(Pour(b, patron, p, remaining, i), patron)
            == Balance(b, patron) - Min(remaining, DueBetween(b.fees, patron, i, |b.fees|))
    decreases |b.fees| - i
  {
    if i < |b.fees| && remaining > 0 {
      if Due(b.fees[i], patron) == 0 {
        PourLowersBalance(b, patron, p, remaining, i + 1);
      } else {
        var x := Min(Owed(b.fees[i]), remaining);
        var d := ApplyTo(b, i, x, p);
        PourLowersBalance(d, patron, p, remaining - x, i + 1);
        SumUpdate(b.fees, i, d.fees[i], OwedBy(patron));
        DueBetweenSame(b.fees, d.fees, patron, i + 1, |b.fees|);
      }
    }
  }

  /** A payment lowers the balance by its amount, but never below what is owed under a "paid" mark; so paying
      the whole balance clears it exactly when no settled fee has accrued further. */
  lemma PaymentLowersBalance(b: Book, patron: Id, amount: int, how: Method)
    requires RecordPayment(b, patron, amount, how).Done?
    ensures var c := RecordPayment(b, patron, amount, how).after;
            && Balance(c, patron) == Max(Stuck(b, patron), Balance(b, patron) - amount)
            && (amount == Balance(b, patron) ==> (Balance(c, patron) == 0 <==> Stuck(b, patron) == 0))
  {
    var d := b.(payments := b.payments + [Payment(patron, amount, None)]);
    PourLowersBalance(d, patron, |b.payments|, amount, 0);
    BalanceSplits(b.fees, patron);
  }

  // ---------------------------------------------------------------- a full refund undoes a payment

  /** Unwinding only the allocations from index `lo` on. */
  function UnwindTo(b: Book, p: Id, remaining: nat, i: nat, lo: nat): (Book, nat)
    requires lo <= i <= |b.allocations|
    decreases i
  {
    if i == lo || remaining == 0 then (b, remaining)
    else
      var a := b.allocations[i - 1];
      if a.payment != p || a.fee >= |b.fees| || b.fees[a.fee].status == Waived || RemainingOf(a) == 0
      then UnwindTo(b, p, remaining, i - 1, lo)
      else
        var x := Min(RemainingOf(a), remaining);
        UnwindTo(TakeBack(b, i - 1, x), p, remaining - x, i - 1, lo)
  }

  lemma {:induction false} UnwindSplit(b: Book, p: Id, remaining: nat, i: nat, lo: nat)
    requires lo <= i <= |b.allocations|
    ensures var (d, rest) := UnwindTo(b, p, remaining, i, lo);
            |d.allocations| == |b.allocations| && d.allocations[..lo] == b.allocations[..lo]
            && Unwind(b, p, remaining, i) == Unwind(d, p, rest, lo)
    decreases i
  {
    if i > lo && remaining > 0 {
      var a := b.allocations[i - 1];
      if a.payment != p || a.fee >= |b.fees| || b.fees[a.fee].status == Waived || RemainingOf(a) == 0 {
        UnwindSplit(b, p, remaining, i - 1, lo);
      } else {
        var x := Min(RemainingOf(a), remaining);
        UnwindSplit(TakeBack(b, i - 1, x), p, remaining - x, i - 1, lo);
      }
    }
  }

  lemma {:induction false} UnwindSkips(b: Book, p: Id, remaining: nat, i: nat)
    requires i <= |b.allocations| && forall k | 0 <= k < i :: b.allocations[k].payment != p
    ensures Unwind(b, p, remaining, i) == b
  {
    if i > 0 && remaining > 0 {
      UnwindSkips(b, p, remaining, i - 1);
    }
  }

  /** If taking back newest first undoes all that came after one allocation, going on undoes that one too. */
  lemma LastUndone(b: Book, c: Book, p: Id, x: nat, i: nat, refund: nat)
    requires i < |b.fees| && 0 < x <= Owed(b.fees[i]) && b.fees[i].paid <= b.fees[i].amount
    requires var n := |b.allocations|;
             n < |c.allocations| && c.allocations[..n + 1] == ApplyTo(b, i, x, p).allocations
    requires var (e, rest) := UnwindTo(c, p, refund, |c.allocations|, |b.allocations| + 1);
             e.fees == ApplyTo(b, i, x, p).fees && rest >= x && b.fees[i].status == Outstanding
    ensures var t := UnwindTo(c, p, refund, |c.allocations|, |b.allocations|);
            t.0.fees == b.fees && t.1 == UnwindTo(c, p, refund, |c.allocations|, |b.allocations| + 1).1 - x
  {
    hide Unwind, Pour;
    var n := |b.allocations|;
    UnwindToSplit(c, p, refund, |c.allocations|, n + 1, n);
    var (e, rest) := UnwindTo(c, p, refund, |c.allocations|, n + 1);
    UnwindSplit(c, p, refund, |c.allocations|, n + 1);
    assert e.allocations[..n + 1][n] == Allocation(p, i, x, 0);
    TakeBackLast(b, e, p, x, i, rest);
  }

  /** Taking back what was just poured restores every fee. */
  lemma {:induction false} PourUndone(b: Book, patron: Id, p: Id, remaining: nat, i: nat, refund: nat)
    requires i <= |b.fees| && refund >= remaining && forall f | 0 <= f < |b.fees| :: b.fees[f].paid <= b.fees[f].amount
    ensures var c := Pour(b, patron, p, remaining, i);
            && |c.allocations| >= |b.allocations| && c.allocations[..|b.allocations|] == b.allocations
            && UnwindTo(c, p, refund, |c.allocations|, |b.allocations|).0.fees == b.fees
            && UnwindTo(c, p, refund, |c.allocations|, |b.allocations|).1 >= refund - remaining
    decreases |b.fees| - i
  {
    hide Unwind;
    if i < |b.fees| && remaining > 0 {
      if Due(b.fees[i], patron) == 0 {
        PourUndone(b, patron, p, remaining, i + 1, refund);
      } else {
        var x := Min(Owed(b.fees[i]), remaining);
        var n := |b.allocations|;
        var d := ApplyTo(b, i, x, p);
        PourUndone(d, patron, p, remaining - x, i + 1, refund);
        var c := Pour(d, patron, p, remaining - x, i + 1);
        LastUndone(b, c, p, x, i, refund);
      }
    }
  }

  /** The last allocation poured is the first one taken back. */
  lemma TakeBackLast(b: Book, e: Book, p: Id, x: nat, i: nat, rest: nat)
    requires i < |b.fees| && b.fees[i].status == Outstanding && 0 < x <= rest && b.fees[i].paid + x <= b.fees[i].amount
    requires |e.allocations| > |b.allocations| && e.allocations[|b.allocations|] == Allocation(p, i, x, 0)
    requires e.fees == ApplyTo(b, i, x, p).fees
    ensures var (g, left) := UnwindTo(e, p, rest, |b.allocations| + 1, |b.allocations|);
            g.fees == b.fees && left == rest - x
  {
    var n := |b.allocations|;
    assert UnwindTo(e, p, rest, n + 1, n) == UnwindTo(TakeBack(e, n, x), p, rest - x, n, n);
    assert TakeBack(e, n, x).fees == b.fees;
  }

  lemma {:induction false} UnwindToSplit(b: Book, p: Id, remaining: nat, i: nat, mid: nat, lo: nat)
    requires lo <= mid <= i <= |b.allocations|
    ensures var (d, rest) := UnwindTo(b, p, remaining, i, mid);
            |d.allocations| == |b.allocations| && UnwindTo(b, p, remaining, i, lo) == UnwindTo(d, p, rest, mid, lo)
    decreases i
  {
    if i > mid && remaining > 0 {
      var a := b.allocations[i - 1];
      if a.payment != p || a.fee >= |b.fees| || b.fees[a.fee].status == Waived || RemainingOf(a) == 0 {
        UnwindToSplit(b, p, remaining, i - 1, mid, lo);
      } else {
        var x := Min(RemainingOf(a), remaining);
        UnwindToSplit(TakeBack(b, i - 1, x), p, remaining - x, i - 1, mid, lo);
      }
    }
  }

  lemma FeesWithin(b: Book)
    requires Kept(b)
    ensures forall f | 0 <= f < |b.fees| :: b.fees[f].paid <= b.fees[f].amount
    ensures forall k | 0 <= k < |b.allocations| :: b.allocations[k].payment < |b.payments|
  {
    forall f | 0 <= f < |b.fees| ensures b.fees[f].paid <= b.fees[f].amount { assert FeeKept(b, f); }
    forall k | 0 <= k < |b.allocations| ensures b.allocations[k].payment < |b.payments| {
      assert AllocationKept(b, b.allocations[k]);
    }
  }

  /** A payment refunded in full straight away leaves every fee as it was, amount, paid and status. */
  lemma FullRefundUndoes(ops: seq<Op>, patron: Id, cents: int, how: Method)
    requires RecordPayment(Run(ops), patron, cents, how).Done?
    ensures var c := RecordPayment(Run(ops), patron, cents, how).after;
            var p := |Run(ops).payments|;
            RefundPayment(c, p, None, true).Done? && RefundPayment(c, p, None, true).after.fees == Run(ops).fees
  {
    hide Pour, Unwind, UnwindTo, Refundable, Kept, Run, FeesKept;
    var b := Run(ops);
    var p := |b.payments|;
    RunKeeps(ops);
    FeesWithin(b);
    PayKeeps(b, patron, cents, how);
    var d := b.(payments := b.payments + [Payment(patron, cents, None)]);
    var c := Pour(d, patron, p, cents, 0);
    PourShares(d, patron, p, cents, 0);
    NewPaymentKept(b, Payment(patron, cents, None));
    RefundableExact(c, p);
    PourUndone(d, patron, p, cents, 0, cents);
    var e := c.(payments := c.payments + [Payment(patron, cents, Some(p))]);
    SameUnwind(c, e, p, cents, |c.allocations|, |b.allocations|);
    UnwindSplit(e, p, cents, |e.allocations|, |b.allocations|);
    var (g, rest) := UnwindTo(e, p, cents, |e.allocations|, |b.allocations|);
    forall k | 0 <= k < |b.allocations| ensures g.allocations[k].payment != p {
      assert b.allocations[k].payment < p;
      assert g.allocations[k] == g.allocations[..|b.allocations|][k];
    }
    UnwindSkips(g, p, rest, |b.allocations|);
  }

  /** The payment table plays no part in unwinding. */
  lemma {:induction false} SameUnwind(a: Book, b: Book, p: Id, remaining: nat, i: nat, lo: nat)
    requires a.fees == b.fees && a.allocations == b.allocations && lo <= i <= |a.allocations|
    ensures UnwindTo(a, p, remaining, i, lo).0.fees == UnwindTo(b, p, remaining, i, lo).0.fees
    ensures UnwindTo(a, p, remaining, i, lo).1 == UnwindTo(b, p, remaining, i, lo).1
    decreases i
  {
    if i > lo && remaining > 0 {
      var row := a.allocations[i - 1];
      if row.payment != p || row.fee >= |a.fees| || a.fees[row.fee].status == Waived || RemainingOf(row) == 0 {
        SameUnwind(a, b, p, remaining, i - 1, lo);
      } else {
        var x := Min(RemainingOf(row), remaining);
        SameUnwind(TakeBack(a, i - 1, x), TakeBack(b, i - 1, x), p, remaining - x, i - 1, lo);
      }
    }
  }
}
