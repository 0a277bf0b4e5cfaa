/** Billing as it runs: subscriptions updated in place, and the cycle's two loops over all of them. */
module BillingDesk {
  import opened Common
  import opened Billing

  datatype Attempt = Attempt(wait: nat, answer: Answer)

  function IsCharge(e: Event): nat { if e.Charged? then 1 else 0 }

  function IsDecline(e: Event): nat { if e.Declined? then 1 else 0 }

  function Charges(a: Account): nat { Sum(a.history, IsCharge) }

  function Declines(a: Account): nat { Sum(a.history, IsDecline) }

  function IsCanceled(a: Account): nat { if a.sub.status == Canceled then 1 else 0 }

  /** Totals over all accounts: charges made, charges declined, subscriptions canceled. */
  function Totals(accounts: seq<Account>): (nat, nat, nat) {
    (Sum(accounts, Charges), Sum(accounts, Declines), Sum(accounts, IsCanceled))
  }

  lemma EventCounts(h: seq<Event>, e: Event)
    ensures Sum(h + [e], IsCharge) == Sum(h, IsCharge) + IsCharge(e)
        && Sum(h + [e], IsDecline) == Sum(h, IsDecline) + IsDecline(e)
  {
    assert (h + [e])[..|h|] == h;
  }

  /** What a visit by either loop does to the counts, by its result. */
  lemma VisitCounts(a: Account, op: Op)
    requires op.OpRenew? || op.OpRetry?
    ensures var (b, r) := Apply(a, op);
            && Charges(b) == Charges(a) + (if r == Renewed then 1 else 0)
            && Declines(b) == Declines(a) + (if r == Failed then 1 else 0)
            && IsCanceled(b) == IsCanceled(a) + (if r == CanceledNow then 1 else 0)
            && r in {Renewed, Failed, StillCurrent, NotCharged, CanceledNow, Raised}
            && (r == StillCurrent ==> op.OpRenew? && a.clock + op.wait < op.asOf)
            && (r == Raised ==> b == a)
  {
    hide BillRenewal;
    var b := Step(a, op);
    if |b.history| > |a.history| {
      EventCounts(a.history, b.history[|a.history|]);
    }
  }

  lemma Visits(a: Account, asOf: int, wait: nat, answer: Answer, most: nat)
    ensures Step(a, OpRenew(asOf, wait, answer))
            == if IsDue(a, asOf) then Billing.ChargeSubscription(a, a.clock + wait, answer).0 else a
    ensures Step(a, OpRetry(asOf, wait, answer, most))
            == if a.sub.status != PastDue then a
               else if Exhausted(a, asOf, most) then a.(sub := a.sub.(status := Canceled))
               else Billing.ChargeSubscription(a, a.clock + wait, answer).0
    ensures Apply(a, OpRenew(asOf, wait, answer)).1
            == if IsDue(a, asOf) then Billing.ChargeSubscription(a, a.clock + wait, answer).1 else NotCharged
    ensures Apply(a, OpRetry(asOf, wait, answer, most)).1
            == if a.sub.status != PastDue then NotCharged
               else if Exhausted(a, asOf, most) then CanceledNow
               else Billing.ChargeSubscription(a, a.clock + wait, answer).1
  {
    hide Billing.ChargeSubscription;
  }

  lemma TotalsUpdate(accounts: seq<Account>, i: nat, b: Account)
    requires i < |accounts|
    ensures Totals(accounts[i := b]).0 == Totals(accounts).0 - Charges(accounts[i]) + Charges(b)
    ensures Totals(accounts[i := b]).1 == Totals(accounts).1 - Declines(accounts[i]) + Declines(b)
    ensures Totals(accounts[i := b]).2 == Totals(accounts).2 - IsCanceled(accounts[i]) + IsCanceled(b)
  {
    SumUpdate(accounts, i, b, Charges);
    SumUpdate(accounts, i, b, Declines);
    SumUpdate(accounts, i, b, IsCanceled);
  }

  class Subscriptions {
    var accounts: seq<Account>

    constructor (accounts: seq<Account>)
      ensures this.accounts == accounts
    {
      this.accounts := accounts;
    }

    method EnterDunning(i: nat, at: int)
      requires i < |accounts|
      modifies this
      ensures accounts == old(accounts)[i := old(accounts)[i].(
                                             sub := Billing.EnterDunning(old(accounts)[i].sub, at),
                                             history := old(accounts)[i].history + [Declined(at, true)],
                                             clock := at)]
    {
      var a := accounts[i];
      var sub := a.sub.(dunning := a.sub.dunning + 1, status := PastDue);
      if sub.grace.None? || sub.grace.value <= at {
        sub := sub.(grace := Some(at + GRACE));
      }
      accounts := accounts[i := a.(sub := sub, history := a.history + [Declined(at, true)], clock := at)];
    }

    method ChargeSubscription(i: nat, at: int, answer: Answer) returns (r: Result)
      requires i < |accounts|
      modifies this
      ensures r == Billing.ChargeSubscription(old(accounts)[i], at, answer).1
      ensures accounts == old(accounts)[i := Billing.ChargeSubscription(old(accounts)[i], at, answer).0]
      ensures r in {Renewed, Failed, StillCurrent, Raised}
    {
      var a := accounts[i];
      var sub := a.sub;
      if sub.status == Canceled { return Failed; }
      if sub.status in {Active, Trialing} && sub.periodEnd.Some? && sub.periodEnd.value > at { return StillCurrent; }
      var used := CreditUsed(sub, sub.price);
      var net := sub.price - used;
      if net > 0 && answer == NoGateway { return Raised; }
      var charged := net == 0 || answer == Captured;
      var open := OpenRenewal(a.invoices);
      if open.None? {
        accounts := accounts[i := a.(invoices := a.invoices + [Invoice(true, charged, net)])];
      } else {
        accounts := accounts[i := a.(invoices := a.invoices[open.value := a.invoices[open.value].(paid := charged)])];
      }
      if charged {
        if used > 0 { sub := sub.(credit := Max(0, sub.credit - used)); }
        sub := sub.(status := Active, periodEnd := Some(at + PERIOD), dunning := 0, grace := None);
        accounts := accounts[i := accounts[i].(sub := sub, clock := at,
                                               history := a.history + [Charged(at, true, sub.price, net, used)])];
        return Renewed;
      } else {
        EnterDunning(i, at);
        return Failed;
      }
    }

    /** The first loop; an error stops it. `early` counts renewals found unnecessary because the clock was behind
        `asOf`. */
    method RenewDue(asOf: int, first: seq<Attempt>)
        returns (completed: bool, renewed: nat, dunning: nat, ghost early: nat)
      requires |first| == |accounts|
      modifies this
      ensures |accounts| == |old(accounts)|
      ensures forall k | 0 <= k < |accounts| ::
                accounts[k] == Step(old(accounts)[k], OpRenew(asOf, first[k].wait, first[k].answer))
                || (!completed && accounts[k] == old(accounts)[k])
      ensures renewed - early == Totals(accounts).0 - old(Totals(accounts).0)
      ensures dunning == Totals(accounts).1 - old(Totals(accounts).1) && Totals(accounts).2 == old(Totals(accounts).2)
      ensures (forall k | 0 <= k < |accounts| :: asOf <= old(accounts)[k].clock + first[k].wait) ==> early == 0
    {
      hide Billing.ChargeSubscription, Totals, Apply, IsDue;
      ghost var was := accounts;
      completed, renewed, dunning, early := false, 0, 0, 0;
      var i := 0;
      while i < |accounts|
        invariant 0 <= i <= |accounts| == |was|
        invariant forall k | 0 <= k < i :: accounts[k] == Step(was[k], OpRenew(asOf, first[k].wait, first[k].answer))
        invariant forall k | i <= k < |was| :: accounts[k] == was[k]
        invariant renewed - early == Totals(accounts).0 - Totals(was).0 && dunning == Totals(accounts).1 - Totals(was).1
        invariant Totals(accounts).2 == Totals(was).2
        invariant (forall k | 0 <= k < |was| :: asOf <= was[k].clock + first[k].wait) ==> early == 0
      {
        ghost var op := OpRenew(asOf, first[i].wait, first[i].answer);
        Visits(accounts[i], asOf, first[i].wait, first[i].answer, 0);
        VisitCounts(accounts[i], op);
        TotalsUpdate(accounts, i, Step(accounts[i], op));
        if IsDue(accounts[i], asOf) {
          var r := ChargeSubscription(i, accounts[i].clock + first[i].wait, first[i].answer);
          if r == Raised { return; }
          if r in {Renewed, StillCurrent} { renewed := renewed + 1; } else { dunning := dunning + 1; }
          if r == StillCurrent { early := early + 1; }
        }
        i := i + 1;
      }
      completed := true;
    }

    /** The second loop; an error stops it. */
    method RetryPastDue(asOf: int, most: nat, second: seq<Attempt>)
      returns (completed: bool, renewed: nat, dunning: nat, canceled: nat)
      requires |second| == |accounts|
      modifies this
      ensures |accounts| == |old(accounts)|
      ensures forall k | 0 <= k < |accounts| ::
                accounts[k] == Step(old(accounts)[k], OpRetry(asOf, second[k].wait, second[k].answer, most))
                || (!completed && accounts[k] == old(accounts)[k])
      ensures renewed == Totals(accounts).0 - old(Totals(accounts).0)
          && dunning == Totals(accounts).1 - old(Totals(accounts).1)
      ensures canceled == Totals(accounts).2 - old(Totals(accounts).2)
    {
      hide Billing.ChargeSubscription, Totals, Apply, Exhausted;
      ghost var was := accounts;
      completed, renewed, dunning, canceled := false, 0, 0, 0;
      var i := 0;
      while i < |accounts|
        invariant 0 <= i <= |accounts| == |was|
        invariant forall k | 0 <= k < i ::
            accounts[k] == Step(was[k], OpRetry(asOf, second[k].wait, second[k].answer, most))
        invariant forall k | i <= k < |was| :: accounts[k] == was[k]
        invariant renewed == Totals(accounts).0 - Totals(was).0 && dunning == Totals(accounts).1 - Totals(was).1
        invariant canceled == Totals(accounts).2 - Totals(was).2
      {
        ghost var op := OpRetry(asOf, second[i].wait, second[i].answer, most);
        Visits(accounts[i], asOf, second[i].wait, second[i].answer, most);
        VisitCounts(accounts[i], op);
        TotalsUpdate(accounts, i, Step(accounts[i], op));
        if accounts[i].sub.status == PastDue {
          if Exhausted(accounts[i], asOf, most) {
            accounts := accounts[i := accounts[i].(sub := accounts[i].sub.(status := Canceled))];
            canceled := canceled + 1;
          } else {
            var r := ChargeSubscription(i, accounts[i].clock + second[i].wait, second[i].answer);
            if r == Raised { return; }
            if r == Renewed { renewed := renewed + 1; } else { dunning := dunning + 1; }
          }
        }
        i := i + 1;
      }
      completed := true;
    }

    /** Without an error every subscription has been visited once by each loop, and the counters are what the visits
        did; an error stops the cycle, each subscription having had none, one or both of its visits. */
    method RunBillingCycle(asOf: int, most: nat, first: seq<Attempt>, second: seq<Attempt>)
      returns (completed: bool, renewed: nat, dunning: nat, canceled: nat)
      requires |first| == |second| == |accounts|
      modifies this
      ensures |accounts| == |old(accounts)|
      ensures forall k | 0 <= k < |accounts| ::
                var renewedOnce := Step(old(accounts)[k], OpRenew(asOf, first[k].wait, first[k].answer));
                var visited := Step(renewedOnce, OpRetry(asOf, second[k].wait, second[k].answer, most));
                || accounts[k] == visited
                || (!completed && (accounts[k] == renewedOnce || accounts[k] == old(accounts)[k]))
      ensures dunning == Totals(accounts).1 - old(Totals(accounts).1)
      ensures canceled == Totals(accounts).2 - old(Totals(accounts).2)
      ensures (forall k | 0 <= k < |accounts| :: asOf <= old(accounts)[k].clock + first[k].wait) ==>
                renewed == Totals(accounts).0 - old(Totals(accounts).0)
    {
      hide Step, Totals;
      ghost var early;
      completed, renewed, dunning, early := RenewDue(asOf, first);
      canceled := 0;
      if completed {
        var more, failed;
        completed, more, failed, canceled := RetryPastDue(asOf, most, second);
        renewed, dunning := renewed + more, dunning + failed;
      }
    }

    method ChangePlan(i: nat, at: int, price: nat, fits: bool, unused: nat, prorated: nat, answer: Answer)
        returns (r: Result)
      requires i < |accounts|
      modifies this
      ensures r == Billing.ChangePlan(old(accounts)[i], at, price, fits, unused, prorated, answer).1
      ensures accounts == old(accounts)[i := Billing.ChangePlan(old(accounts)[i], at, price, fits, unused, prorated,
                                                                answer).0]
    {
      var a := accounts[i];
      if a.sub.status == Canceled || !fits { return Raised; }
      var trial := a.sub.status == Trialing;
      var credit: int, charge: int := 0, 0;
      if !trial && RemainingDays(a.sub, at) > 0 { credit, charge := unused, prorated; }
      var net: int := charge - credit;
      if net > 0 && answer != Captured { return Raised; }
      a := a.(sub := a.sub.(price := price), clock := at);
      if !trial { a := a.(sub := a.sub.(status := Active)); }
      if credit > 0 || charge > 0 {
        if net < 0 {
          a := a.(sub := a.sub.(credit := a.sub.credit - net), history := a.history + [Banked(-net)]);
        }
        a := a.(invoices := a.invoices + [Invoice(false, true, Max(0, net))]);
      }
      accounts := accounts[i := a];
      return Changed;
    }

    method Subscribe(i: nat, at: int, price: nat, answer: Answer) returns (r: Result)
      requires i < |accounts|
      modifies this
      ensures r == Billing.Subscribe(old(accounts)[i], at, price, answer).1
      ensures accounts == old(accounts)[i := Billing.Subscribe(old(accounts)[i], at, price, answer).0]
    {
      var a := accounts[i];
      var used := Min(a.sub.credit, price);
      var net := price - used;
      if net > 0 && answer in {NoGateway, NoCard} { return Raised; }
      var charged := net == 0 || answer == Captured;
      var sub := Subscription(if charged then Active else PastDue, price, Some(at + PERIOD), if charged then 0 else 1,
                              if charged then None else Some(at + GRACE), a.sub.credit - if charged then used else 0);
      var event := if charged then Charged(at, false, price, net, used) else Declined(at, false);
      accounts := accounts[i := Account(sub, a.invoices + [Invoice(false, charged, net)], a.history + [event], at)];
      return if charged then Renewed else Failed;
    }
  }
}
