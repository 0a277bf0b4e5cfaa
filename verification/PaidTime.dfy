/** How long a charge pays for: exactly one period, in every run; what a due subscription is charged; what a plan change
    does to credit. */
module PaidTime {
  import opened Common
  import opened Billing

  // ---------------------------------------------------------------- one period per charge

  /** A renewal pays for thirty days and not a second more: the account is due from then on. */
  lemma RenewedForThirtyDays(a: Account, at: int, answer: Answer, t: int)
    requires ChargeSubscription(a, at, answer).1 == Renewed
    ensures IsDue(ChargeSubscription(a, at, answer).0, t) <==> t >= at + 30 * 86400
  {
    hide BillRenewal, Net, CreditUsed;
  }

  /** And so does subscribing anew. */
  lemma SubscribedForThirtyDays(a: Account, at: int, price: nat, answer: Answer, t: int)
    requires Subscribe(a, at, price, answer).1 == Renewed
    ensures IsDue(Subscribe(a, at, price, answer).0, t) <==> t >= at + 30 * 86400
  {
    hide CreditUsed;
  }

  /** The event the paid period counts from: a successful charge, or subscribing anew with a card that was declined. */
  predicate Starts(e: Event) { e.Charged? || (e.Declined? && !e.renewal) }

  /** The time of the latest such event. */
  function Anchor(history: seq<Event>): (r: Option<int>)
    ensures r.None? <==> forall e | e in history :: !Starts(e)
  {
    if history == [] then None
    else
      var e := history[|history| - 1];
      if Starts(e) then Some(e.at) else Anchor(history[..|history| - 1])
  }

  lemma AnchorSnoc(history: seq<Event>, e: Event)
    ensures Anchor(history + [e]) == if Starts(e) then Some(e.at) else Anchor(history)
  {
    assert (history + [e])[..|history|] == history;
  }

  /** The paid period ends one period after the latest charge or declined subscription; before any, where it did at
      first. */
  predicate PaidTo(a: Account, first: Option<int>) {
    a.sub.periodEnd == if Anchor(a.history).None? then first else Some(Anchor(a.history).value + PERIOD)
  }

  lemma StepPaidTo(a: Account, op: Op, first: Option<int>)
    requires PaidTo(a, first)
    ensures PaidTo(Step(a, op), first)
  {
    hide BillRenewal, Net, CreditUsed, RemainingDays, Anchor;
    var b := Step(a, op);
    if b.history != a.history {
      var e := b.history[|b.history| - 1];
      assert b.history == a.history + [e];
      AnchorSnoc(a.history, e);
    }
  }

  /** In every run the period ends exactly one period after the last successful charge, unless someone has subscribed
      anew with a declined card since, from when it is then counted. */
  lemma {:induction false} RunPaidTo(a: Account, ops: seq<Op>)
    requires a.history == []
    ensures PaidTo(Run(a, ops), a.sub.periodEnd)
  {
    if ops != [] {
      hide PaidTo, Step;
      RunPaidTo(a, ops[..|ops| - 1]);
      StepPaidTo(Run(a, ops[..|ops| - 1]), ops[|ops| - 1], a.sub.periodEnd);
    } else {
      assert Anchor(a.history).None?;
    }
  }

  // ---------------------------------------------------------------- who is charged, and what

  /** A due subscription with a good card is charged its price, credit first, by the next cycle, and then left alone by
      every cycle dated before its new period ends, however often they run. */
  lemma DueIsCharged(a: Account, asOf: int, wait: nat)
    requires IsDue(a, asOf) && asOf <= a.clock + wait
    ensures var b, at := Step(a, OpRenew(asOf, wait, Captured)), a.clock + wait;
            && b.sub.status == Active && b.sub.price == a.sub.price && b.sub.dunning == 0 && b.sub.grace.None?
            && b.history == a.history + [Charged(at, true, a.sub.price, Max(0, a.sub.price - a.sub.credit),
                                                 Min(a.sub.credit, a.sub.price))]
            && b.sub.credit == Max(0, a.sub.credit - a.sub.price)
            && forall later: int, w: nat, x: Answer, v: nat, y: Answer, most: nat | later < at + PERIOD ::
                 Step(Step(b, OpRenew(later, w, x)), OpRetry(later, v, y, most)) == b
  {
    hide BillRenewal;
  }

  /** A past-due one is charged in the same way by the cycle's second loop, unless its attempts and grace
      are used up. */
  lemma PastDueIsCharged(a: Account, asOf: int, wait: nat, most: nat)
    requires a.sub.status == PastDue && !Exhausted(a, asOf, most)
    ensures var b, at := Step(a, OpRetry(asOf, wait, Captured, most)), a.clock + wait;
            && b.sub.status == Active && b.sub.price == a.sub.price && b.sub.dunning == 0 && b.sub.grace.None?
            && b.history == a.history + [Charged(at, true, a.sub.price, Max(0, a.sub.price - a.sub.credit),
                                                 Min(a.sub.credit, a.sub.price))]
            && b.sub.credit == Max(0, a.sub.credit - a.sub.price)
            && b.sub.periodEnd == Some(at + PERIOD)
  {
    hide BillRenewal;
  }

  /** Nothing happens to a subscription that is not due, and nothing but the record of the failure to one whose card
      fails. */
  lemma NotDueNotCharged(a: Account, asOf: int, wait: nat, answer: Answer)
    requires !IsDue(a, asOf) || (asOf <= a.clock + wait && Net(a.sub) > 0 && answer == NoGateway)
    ensures Step(a, OpRenew(asOf, wait, answer)) == a
  {}

  lemma FailedKeepsTerms(a: Account, asOf: int, wait: nat, answer: Answer)
    requires IsDue(a, asOf) && asOf <= a.clock + wait && Net(a.sub) > 0 && answer in {CardDeclined, NoCard}
    ensures var b := Step(a, OpRenew(asOf, wait, answer));
            && b.sub.status == PastDue && b.sub.dunning == a.sub.dunning + 1
            && b.sub.credit == a.sub.credit && b.sub.price == a.sub.price && b.sub.periodEnd == a.sub.periodEnd
            && b.history == a.history + [Declined(a.clock + wait, true)]
  {
    hide BillRenewal;
  }

  // ---------------------------------------------------------------- plan changes and subscribing anew

  /** Credit and charge of a plan change, nothing on trial or without paid days left. */
  predicate Free(sub: Subscription, at: int) { sub.status == Trialing || RemainingDays(sub, at) == 0 }

  /** Exactly when a plan change is accepted; then the price is the new plan's, the paid period stays, and what the
      unused days are worth beyond the new plan's charge for them is banked as credit, no more and no less. */
  lemma ChangeBanks(a: Account, at: int, price: nat, fits: bool, unused: nat, prorated: nat, answer: Answer)
    ensures var (b, r) := ChangePlan(a, at, price, fits, unused, prorated, answer);
            && (r == Changed <==> a.sub.status != Canceled && fits
                                  && (Free(a.sub, at) || prorated <= unused || answer == Captured))
            && (r != Changed ==> b == a)
            && (r == Changed ==>
                && b.sub.price == price && b.sub.periodEnd == a.sub.periodEnd
                && b.sub.dunning == a.sub.dunning && b.sub.grace == a.sub.grace
                && (b.sub.status == Trialing <==> a.sub.status == Trialing) && b.sub.status in {Trialing, Active}
                && b.sub.credit - a.sub.credit == (if Free(a.sub, at) then 0 else Max(0, unused - prorated))
                && (b.sub.credit > a.sub.credit ==> b.history == a.history + [Banked(b.sub.credit - a.sub.credit)])
                && (b.invoices == a.invoices
                    || (!Free(a.sub, at) && b.invoices
                        == a.invoices + [Invoice(false, true, Max(0, prorated - unused))]))
                && (!Free(a.sub, at) && (unused > 0 || prorated > 0) ==> b.invoices != a.invoices))
  {
    hide RemainingDays;
  }

  /** Exactly what subscribing anew does: charged with credit first, the credit used up only by a charge that
      succeeds. */
  lemma SubscribeTerms(a: Account, at: int, price: nat, answer: Answer)
    ensures var (b, r) := Subscribe(a, at, price, answer);
            var net := Max(0, price - a.sub.credit);
            && (r == Raised <==> net > 0 && answer in {NoGateway, NoCard}) && (r == Raised ==> b == a)
            && (r == Renewed <==> net == 0 || answer == Captured)
            && (r != Raised ==>
                && b.sub.price == price && b.sub.periodEnd == Some(at + PERIOD)
                && b.invoices == a.invoices + [Invoice(false, r == Renewed, net)])
            && (r == Renewed ==>
                && b.sub.status == Active && b.sub.dunning == 0 && b.sub.grace.None?
                && b.sub.credit == Max(0, a.sub.credit - price)
                && b.history == a.history + [Charged(at, false, price, net, price - net)])
            && (r == Failed ==>
                && b.sub.status == PastDue && b.sub.dunning == 1 && b.sub.grace == Some(at + 7 * 86400)
                && b.sub.credit == a.sub.credit && b.history == a.history + [Declined(at, false)])
  {}

  /** Paid days left are whole days: as many as fit until the period ends, none once it has. */
  lemma RemainingDaysWhole(sub: Subscription, at: int)
    ensures sub.periodEnd.Some? && sub.periodEnd.value > at ==>
              var days := RemainingDays(sub, at); days * 86400 <= sub.periodEnd.value - at < (days + 1) * 86400
    ensures sub.periodEnd.None? || sub.periodEnd.value <= at ==> RemainingDays(sub, at) == 0
  {}

  /** Cancelling keeps everything but the status, and a canceled account is never charged, billed or changed again by
      any run of cycles and plan changes, until someone subscribes anew. */
  lemma {:induction false} CanceledUntilSubscribed(a: Account, ops: seq<Op>)
    requires forall op | op in ops :: !op.OpSubscribe?
    ensures var b := Step(a, OpCancel); b == a.(sub := a.sub.(status := Canceled)) && Run(b, ops) == b
  {
    if ops != [] {
      CanceledUntilSubscribed(a, ops[..|ops| - 1]);
      assert ops[|ops| - 1] in ops;
    }
  }

  /** How a charge that is due ends: renewed exactly if credit covers the price or the card pays; with no gateway
      nothing is recorded; otherwise the attempt failed. */
  lemma ChargeEnds(a: Account, at: int, answer: Answer)
    requires a.sub.status != Canceled
    requires a.sub.status != PastDue && a.sub.periodEnd.Some? ==> a.sub.periodEnd.value <= at
    ensures var (b, r), covered := ChargeSubscription(a, at, answer), a.sub.credit >= a.sub.price;
            && (r == Renewed <==> covered || answer == Captured)
            && (r == Raised <==> !covered && answer == NoGateway)
            && (r == Failed <==> !covered && answer in {CardDeclined, NoCard})
            && (r == Raised ==> b == a)
  {
    hide BillRenewal;
  }

  /** A renewal attempt bills once: the open renewal invoice if there is one, marked paid exactly if the charge
      succeeded, or else a new one for what the card is asked for. */
  lemma AttemptBills(a: Account, at: int, answer: Answer)
    requires ChargeSubscription(a, at, answer).1 in {Renewed, Failed} && a.sub.status != Canceled
    ensures var (b, r) := ChargeSubscription(a, at, answer);
            if forall i | i in a.invoices :: !(i.renewal && !i.paid) then
              b.invoices == a.invoices + [Invoice(true, r == Renewed, Max(0, a.sub.price - a.sub.credit))]
            else
              exists i: nat :: i < |a.invoices| && a.invoices[i].renewal && !a.invoices[i].paid
                && (forall k | i < k < |a.invoices| :: !(a.invoices[k].renewal && !a.invoices[k].paid))
                && b.invoices == a.invoices[i := a.invoices[i].(paid := r == Renewed)]
  {
    var open := OpenRenewal(a.invoices);
    if open.Some? {
      assert a.invoices[open.value] in a.invoices && IsOpenRenewal(a.invoices[open.value]) == 1;
      assert forall k | open.value < k < |a.invoices| :: IsOpenRenewal(a.invoices[k]) == 0;
    } else {
      assert forall i | i in a.invoices :: IsOpenRenewal(i) == 0;
    }
    hide OpenRenewal;
  }
}
