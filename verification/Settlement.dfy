/** What a charge, a payment, a waiver and a refund each do to the book, row by row. */
module Settlement {
  import opened Common
  import opened Ledger
  import opened LedgerProofs

  // ---------------------------------------------------------------- payments

  /** Exactly when a payment is accepted: a positive amount by a known method, captured if it is made online.  It is
      recorded for the patron in full, whatever part of it finds a fee; a refused one leaves no trace. */
  lemma PayAccepted(b: Book, patron: Id, amount: int, how: Method)
    ensures RecordPayment(b, patron, amount, how).Done? <==> amount > 0 && how in {Manual, Online(true)}
    ensures RecordPayment(b, patron, amount, how).Done? ==>
              RecordPayment(b, patron, amount, how).after.payments == b.payments + [Payment(patron, amount, None)]
    ensures RecordPayment(b, patron, amount, how).Refused? ==> Step(b, OpPay(patron, amount, how)) == b
  {
    if amount > 0 {
      PourShares(b.(payments := b.payments + [Payment(patron, amount, None)]), patron, |b.payments|, amount, 0);
    }
  }

  // ---------------------------------------------------------------- refunds, latest allocation first

  /** What is left of payment `p` on the allocations after `j` and below `i`. */
  function LeftBetween(b: Book, p: Id, j: nat, i: nat): nat
    requires j < i <= |b.allocations|
  {
    Sum(b.allocations[j + 1..i], LeftFrom(p))
  }

  /** What allocation `j` gives back of `remaining` cents taken from those below `i`: what later ones could not. */
  function Back(b: Book, p: Id, remaining: nat, i: nat, j: nat): nat
    requires j < i <= |b.allocations|
  {
    Min(LeftFrom(p)(b.allocations[j]), Max(0, remaining - LeftBetween(b, p, j, i)))
  }

  lemma {:induction false} UnwindShares(b: Book, p: Id, remaining: nat, i: nat)
    requires FeesKept(b) && i <= |b.allocations|
    ensures var c := Unwind(b, p, remaining, i);
            && |c.allocations| == |b.allocations| && FeesKept(c)
            && (forall j | i <= j < |b.allocations| :: c.allocations[j] == b.allocations[j])
            && forall j | 0 <= j < i ::
                 c.allocations[j] == b.allocations[j].(reversed := b.allocations[j].reversed
                                                       + Back(b, p, remaining, i, j))
    decreases i
  {
    hide Unwind, Back, LeftBetween;
    if i == 0 || remaining == 0 {
      NothingUnwound(b, p, remaining, i);
    } else {
      var a := b.allocations[i - 1];
      assert AllocationKept(b, a);
      if b.fees[a.fee].status == Waived { WaivedHasNothingLeft(b, i - 1); }
      var x := Min(LeftFrom(p)(a), remaining);
      var d := if x == 0 then b else TakeBack(b, i - 1, x);
      if x > 0 { TakeBackKeepsFees(b, i - 1, x); }
      UnwindShares(d, p, remaining - x, i - 1);
      assert d.allocations[..i - 1] == b.allocations[..i - 1];
      LastBack(b, p, remaining, i);
      forall j | 0 <= j < i - 1 ensures Back(d, p, remaining - x, i - 1, j) == Back(b, p, remaining, i, j) {
        BackSnoc(b, d, p, remaining, i, j);
      }
      UnwindStep(b, p, remaining, i);
    }
  }

  lemma NothingUnwound(b: Book, p: Id, remaining: nat, i: nat)
    requires i <= |b.allocations| && (i == 0 || remaining == 0)
    ensures Unwind(b, p, remaining, i) == b
    ensures forall j | 0 <= j < i :: Back(b, p, remaining, i, j) == 0
  {}

  lemma LastBack(b: Book, p: Id, remaining: nat, i: nat)
    requires 0 < i <= |b.allocations|
    ensures Back(b, p, remaining, i, i - 1) == Min(LeftFrom(p)(b.allocations[i - 1]), remaining)
  {
    assert b.allocations[i..i] == [];
  }

  /** Once the last allocation has given `x` cents, the ones before it give what they would have given anyway. */
  lemma BackSnoc(b: Book, d: Book, p: Id, remaining: nat, i: nat, j: nat)
    requires j + 1 < i <= |b.allocations| == |d.allocations| && d.allocations[..i - 1] == b.allocations[..i - 1]
    ensures var x := Min(LeftFrom(p)(b.allocations[i - 1]), remaining);
            Back(d, p, remaining - x, i - 1, j) == Back(b, p, remaining, i, j)
  {
    assert b.allocations[j + 1..i][..i - j - 2] == b.allocations[j + 1..i - 1];
    assert d.allocations[j + 1..i - 1] == d.allocations[..i - 1][j + 1..] == b.allocations[j + 1..i - 1];
    assert d.allocations[j] == d.allocations[..i - 1][j] == b.allocations[j];
  }

  lemma UnwindStep(b: Book, p: Id, remaining: nat, i: nat)
    requires FeesKept(b) && 0 < i <= |b.allocations| && remaining > 0
    ensures b.allocations[i - 1].fee < |b.fees|
    ensures var x := Min(LeftFrom(p)(b.allocations[i - 1]), remaining);
            Unwind(b, p, remaining, i)
            == if x == 0 then Unwind(b, p, remaining, i - 1) else Unwind(TakeBack(b, i - 1, x), p, remaining - x, i - 1)
  {
    assert AllocationKept(b, b.allocations[i - 1]);
    if b.fees[b.allocations[i - 1].fee].status == Waived { WaivedHasNothingLeft(b, i - 1); }
  }

  /** A fee that loses some of what was paid on it owes again, and is marked so; amounts and other fees stay. */
  predicate Reopened(before: Fee, after: Fee) {
    && after.paid <= before.paid
    && after == before.(paid := after.paid,
                        status := if after.paid < before.paid && before.status == Paid then Outstanding
                            else before.status)
  }

  lemma {:induction false} UnwindReopens(b: Book, p: Id, remaining: nat, i: nat)
    requires FeesKept(b) && i <= |b.allocations|
    ensures var c := Unwind(b, p, remaining, i);
            |c.fees| == |b.fees| && forall f | 0 <= f < |b.fees| :: Reopened(b.fees[f], c.fees[f])
    decreases i
  {
    if i > 0 && remaining > 0 {
      var x := Min(LeftFrom(p)(b.allocations[i - 1]), remaining);
      UnwindStep(b, p, remaining, i);
      if x == 0 {
        UnwindReopens(b, p, remaining, i - 1);
      } else {
        TakeBackKeepsFees(b, i - 1, x);
        var d := TakeBack(b, i - 1, x);
        assert FeeKept(b, b.allocations[i - 1].fee);
        UnwindReopens(d, p, remaining - x, i - 1);
      }
    }
  }

  /** An accepted refund is recorded in full against its payment and patron; allocation by allocation the latest give
      back first, each what those after it could not, and exactly the fees that lost money are open again. */
  lemma RefundTakesLatest(b: Book, p: Id, asked: Option<int>)
    requires Kept(b) && RefundPayment(b, p, asked, true).Done?
    ensures var c, n, want := RefundPayment(b, p, asked, true).after, |b.allocations|, Wanted(b, p, asked);
            && want > 0 && c.payments == b.payments + [Payment(b.payments[p].patron, want, Some(p))]
            && |c.allocations| == n && |c.fees| == |b.fees|
            && (forall j | 0 <= j < n ::
                  c.allocations[j] == b.allocations[j].(reversed := b.allocations[j].reversed + Back(b, p, want, n, j)))
            && (forall f | 0 <= f < |b.fees| ::
                  Reopened(b.fees[f], c.fees[f]) && c.fees[f].paid == Sum(c.allocations, LiveOn(f)))
  {
    RefundableExact(b, p);
    var want, n := Wanted(b, p, asked), |b.allocations|;
    var row := Payment(b.payments[p].patron, want, Some(p));
    NewPaymentKept(b, row);
    var d := b.(payments := b.payments + [row]);
    assert FeesKept(d);
    hide Unwind, Kept, FeesKept, Refundable, Back, LeftBetween, Allocated, Reversed;
    UnwindGives(d, p, want, n);
    UnwindReopens(d, p, want, n);
    UnwindKeeps(d, p, want, n, p);
    forall j | 0 <= j < n ensures Back(d, p, want, n, j) == Back(b, p, want, n, j) {
      SameBack(b, d, p, want, n, j);
    }
  }

  lemma SameBack(b: Book, d: Book, p: Id, remaining: nat, i: nat, j: nat)
    requires j < i <= |b.allocations| && d.allocations == b.allocations
    ensures Back(d, p, remaining, i, j) == Back(b, p, remaining, i, j)
  {}

  lemma UnwindGives(b: Book, p: Id, remaining: nat, i: nat)
    requires FeesKept(b) && i == |b.allocations|
    ensures var c := Unwind(b, p, remaining, i);
            && |c.allocations| == |b.allocations|
            && (forall j | 0 <= j < i ::
                  c.allocations[j] == b.allocations[j].(reversed := b.allocations[j].reversed
                                                        + Back(b, p, remaining, i, j)))
            && forall f | 0 <= f < |c.fees| :: c.fees[f].paid == Sum(c.allocations, LiveOn(f))
  {
    hide Unwind, Back, LeftBetween;
    UnwindShares(b, p, remaining, i);
    var c := Unwind(b, p, remaining, i);
    forall f | 0 <= f < |c.fees| ensures c.fees[f].paid == Sum(c.allocations, LiveOn(f)) {
      assert FeeKept(c, f);
    }
  }

  // ---------------------------------------------------------------- charging, accruing, waiving

  /** A charge adds a fee that owes its amount and changes nothing else. */
  lemma ChargeOwes(b: Book, patron: Id, amount: nat)
    ensures ChargeFee(b, patron, amount).Done?
    ensures var c := ChargeFee(b, patron, amount).after;
            && |c.fees| == |b.fees| + 1 && c.fees[..|b.fees|] == b.fees && c.payments == b.payments
            && c.allocations == b.allocations && Balance(c, patron) == Balance(b, patron) + amount
            && Due(c.fees[|b.fees|], patron) == amount
  {
    SumAppend(b.fees, [Fee(patron, amount, 0, Outstanding)], OwedBy(patron));
    assert Sum([Fee(patron, amount, 0, Outstanding)][..0], OwedBy(patron)) == 0;
  }

  /** An accrual sets what the fee owes to what has run up beyond what was paid, and touches nothing that was paid. */
  lemma AccrueOwes(b: Book, f: Id, accrued: nat)
    ensures Accrue(b, f, accrued).Done? <==> f < |b.fees|
    ensures f < |b.fees| ==>
              var c := Accrue(b, f, accrued).after;
              && |c.fees| == |b.fees| && c == b.(fees := b.fees[f := c.fees[f]])
              && c.fees[f].paid == b.fees[f].paid && c.fees[f].patron == b.fees[f].patron
              && Owed(c.fees[f]) == Max(0, accrued - b.fees[f].paid)
              && c.fees[f].status == if c.fees[f].amount != b.fees[f].amount && c.fees[f].amount > 0
                   && Owed(c.fees[f]) == 0
                                     then Paid else b.fees[f].status
  {
    if f < |b.fees| {
      assert b.fees[f := b.fees[f]] == b.fees;
    }
  }

  /** A waiver is accepted exactly for a fee waived already, or open with nothing paid on it; the patron's balance
      falls by what the fee owed, and no other row changes. */
  lemma WaiveClears(b: Book, f: Id)
    ensures WaiveFee(b, f).Done?
            <==> f < |b.fees| && (b.fees[f].status == Waived
                                  || (b.fees[f].status == Outstanding && b.fees[f].paid == 0))
    ensures WaiveFee(b, f).Done? ==>
              var c := WaiveFee(b, f).after;
              && |c.fees| == |b.fees| && c == b.(fees := b.fees[f := c.fees[f]]) && c.fees[f].status == Waived
              && forall patron :: Balance(c, patron) == Balance(b, patron) - OwedBy(patron)(b.fees[f])
  {
    if WaiveFee(b, f).Done? {
      var c := WaiveFee(b, f).after;
      forall patron ensures Balance(c, patron) == Balance(b, patron) - OwedBy(patron)(b.fees[f]) {
        SumUpdate(b.fees, f, b.fees[f].(status := Waived), OwedBy(patron));
      }
      assert b.fees[f := b.fees[f]] == b.fees;
    }
  }
}
