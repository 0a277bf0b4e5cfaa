/** How long a subscription whose charges keep failing is retried before a billing cycle cancels it. */
module Dunning {
  import opened Common
  import opened Billing

  /** Failed charges since the last successful one; a declined attempt to subscribe anew starts counting again. */
  function Failures(history: seq<Event>): nat {
    if history == [] then 0
    else
      match history[|history| - 1]
      case Charged(_, _, _, _, _) => 0
      case Declined(_, renewal) => if renewal then Failures(history[..|history| - 1]) + 1 else 1
      case Banked(_) => Failures(history[..|history| - 1])
  }

  /** The attempt counter counts the failures; while past due the last event is the failed charge, and the grace
      deadline lies after it, by no more than the grace period. */
  predicate DunningKept(a: Account) {
    && a.sub.dunning == Failures(a.history)
    && (a.sub.grace.Some? ==> a.sub.grace.value <= a.clock + GRACE)
    && (a.sub.status == PastDue ==>
          && a.history != [] && a.history[|a.history| - 1].Declined? && a.history[|a.history| - 1].at == a.clock
          && a.sub.grace.Some? && a.clock < a.sub.grace.value)
  }

  lemma FailuresSnoc(history: seq<Event>, e: Event)
    ensures Failures(history + [e]) == match e
                                       case Charged(_, _, _, _, _) => 0
                                       case Declined(_, renewal) => if renewal then Failures(history) + 1 else 1
                                       case Banked(_) => Failures(history)
  {
    assert (history + [e])[..|history|] == history;
  }

  lemma ChargeDunning(a: Account, at: int, answer: Answer)
    requires DunningKept(a) && a.clock <= at
    ensures DunningKept(ChargeSubscription(a, at, answer).0)
  {
    hide BillRenewal, Failures, Net, CreditUsed;
    FailuresSnoc(a.history, Charged(at, true, a.sub.price, Net(a.sub), CreditUsed(a.sub, a.sub.price)));
    FailuresSnoc(a.history, Declined(at, true));
  }

  lemma SubscribeDunning(a: Account, at: int, price: nat, answer: Answer)
    requires DunningKept(a)
    ensures DunningKept(Subscribe(a, at, price, answer).0)
  {
    hide Failures;
    FailuresSnoc(a.history, Charged(at, false, price, price - CreditUsed(a.sub, price), CreditUsed(a.sub, price)));
    FailuresSnoc(a.history, Declined(at, false));
  }

  lemma ChangeDunning(a: Account, at: int, price: nat, fits: bool, unused: nat, prorated: nat, answer: Answer)
    requires DunningKept(a) && a.clock <= at
    ensures DunningKept(ChangePlan(a, at, price, fits, unused, prorated, answer).0)
  {
    hide Failures, RemainingDays;
    FailuresSnoc(a.history, Banked(Max(0, unused - prorated)));
  }

  lemma StepDunning(a: Account, op: Op)
    requires DunningKept(a)
    ensures DunningKept(Step(a, op))
  {
    hide ChargeSubscription, Subscribe, ChangePlan, Failures;
    match op
    case OpRenew(_, wait, answer) => ChargeDunning(a, a.clock + wait, answer);
    case OpRetry(_, wait, answer, _) => ChargeDunning(a, a.clock + wait, answer);
    case OpChange(wait, price, fits, unused, prorated, answer) =>
      ChangeDunning(a, a.clock + wait, price, fits, unused, prorated, answer);
    case OpSubscribe(wait, price, answer) => SubscribeDunning(a, a.clock + wait, price, answer);
    case OpCancel =>
  }

  lemma {:induction false} RunDunning(a: Account, ops: seq<Op>)
    requires New(a)
    ensures DunningKept(Run(a, ops))
  {
    if ops != [] {
      RunDunning(a, ops[..|ops| - 1]);
      StepDunning(Run(a, ops[..|ops| - 1]), ops[|ops| - 1]);
    }
  }

  // ---------------------------------------------------------------- never too early

  /** A cycle cancels only after the allowed number of consecutive failures, and dated after the last of them. */
  lemma NotCancelledEarly(a: Account, ops: seq<Op>, asOf: int, wait: nat, answer: Answer, most: nat)
    requires New(a) && Apply(Run(a, ops), OpRetry(asOf, wait, answer, most)).1 == CanceledNow
    ensures var h := Run(a, ops).history;
            Failures(h) >= most && h != [] && h[|h| - 1].Declined? && h[|h| - 1].at < asOf
  {
    hide Run, BillRenewal;
    RunDunning(a, ops);
  }

  /** One cycle attempts a subscription twice exactly when its period had ended by the cycle's date, credit does not
      cover the price, and the card is declined at the first attempt; the gateway must be live for the second. */
  lemma FailedTwiceInOneCycle(a: Account, asOf: int, first: nat, x: Answer, second: nat, y: Answer, most: nat)
    requires asOf <= a.clock + first
    ensures var b := Step(Step(a, OpRenew(asOf, first, x)), OpRetry(asOf, second, y, most));
            |b.history| == |a.history| + 2
            <==> IsDue(a, asOf) && Net(a.sub) > 0 && x in {CardDeclined, NoCard} && y != NoGateway
  {
    hide BillRenewal, Net;
    NetOf(a.sub);
    NetOf(Step(a, OpRenew(asOf, first, x)).sub);
  }

  lemma NetOf(sub: Subscription)
    ensures Net(sub) > 0 <==> sub.price > sub.credit
  {}

  lemma NetSame(x: Subscription, y: Subscription)
    ensures x.price == y.price && x.credit == y.credit ==> Net(x) == Net(y)
  {}

  /** And when both attempts fail, both count. */
  lemma BothFailuresCount(a: Account, asOf: int, first: nat, x: Answer, second: nat, y: Answer, most: nat)
    requires DunningKept(a) && IsDue(a, asOf) && Net(a.sub) > 0 && asOf <= a.clock + first
    requires x in {CardDeclined, NoCard} && y in {CardDeclined, NoCard}
    ensures var b := Step(Step(a, OpRenew(asOf, first, x)), OpRetry(asOf, second, y, most));
            Failures(b.history) == Failures(a.history) + 2 && b.sub.status == PastDue
  {
    hide BillRenewal, Net, CreditUsed;
    var mid := Step(a, OpRenew(asOf, first, x));
    NetSame(a.sub, mid.sub);
    StepDunning(a, OpRenew(asOf, first, x));
    StepDunning(mid, OpRetry(asOf, second, y, most));
    assert mid.sub.dunning == a.sub.dunning + 1;
  }

  // ---------------------------------------------------------------- nor too late

  /** Why a plan change of a past-due account goes nowhere: current usage does not fit the plan, or days remain whose
      prorated charge exceeds the credit for them and the card does not pay the difference. */
  predicate ChangeRefused(sub: Subscription, at: int, fits: bool, unused: nat, prorated: nat, answer: Answer) {
    !fits || (RemainingDays(sub, at) > 0 && prorated > unused && answer != Captured)
  }

  /** A plan change leaves a past-due account past due exactly when it is refused, and then changes nothing. */
  lemma PlanChangeRevives(a: Account, at: int, price: nat, fits: bool, unused: nat, prorated: nat, answer: Answer)
    requires a.sub.status == PastDue
    ensures var b := ChangePlan(a, at, price, fits, unused, prorated, answer).0;
            && (b.sub.status == PastDue <==> ChangeRefused(a.sub, at, fits, unused, prorated, answer))
            && (b.sub.status == PastDue ==> b == a) && (b.sub.status != PastDue ==> b.sub.status == Active)
  {
    hide RemainingDays;
  }

  /** An operation that brings no money and no new plan: a declined visit of a cycle or a refused plan change. */
  predicate Failing(a: Account, op: Op, most: nat) {
    match op
    case OpRenew(_, _, answer) => answer in {CardDeclined, NoCard}
    case OpRetry(_, _, answer, maxDunning) => answer in {CardDeclined, NoCard} && maxDunning == most
    case OpChange(wait, _, fits, unused, prorated, answer) =>
      a.sub.status == Canceled || ChangeRefused(a.sub, a.clock + wait, fits, unused, prorated, answer)
    case OpSubscribe(_, _, _) => false
    case OpCancel => false
  }

  /** The cycle was dated before the deadline `g` but got to charging only after it. */
  predicate Straddles(a: Account, g: int, op: Op) { op.OpRetry? && op.asOf < g <= a.clock + op.wait }

  /** Once the attempts are used up, a failing operation moves the grace deadline exactly when it straddles it. */
  lemma DeadlineMoves(a: Account, op: Op, most: nat)
    requires DunningKept(a) && a.sub.status == PastDue && a.sub.dunning >= most && Net(a.sub) > 0
        && Failing(a, op, most)
    ensures Step(a, op).sub.grace != a.sub.grace <==> Straddles(a, a.sub.grace.value, op)
  {
    hide BillRenewal, ChangePlan;
    if op.OpChange? {
      PlanChangeRevives(a, a.clock + op.wait, op.price, op.fits, op.unused, op.prorated, op.answer);
    }
  }

  /** Every operation of the run fails in its turn, and none straddles the deadline. */
  predicate AllFailing(a: Account, g: int, ops: seq<Op>, most: nat) {
    ops == []
    || var b := Run(a, ops[..|ops| - 1]);
       && AllFailing(a, g, ops[..|ops| - 1], most)
       && Failing(b, ops[|ops| - 1], most) && !Straddles(b, g, ops[|ops| - 1])
  }

  /** Past due with the attempts used up, the price not covered by credit, and deadline `g`. */
  predicate OnLastGrace(a: Account, g: int, most: nat) {
    a.sub.status == PastDue && a.sub.dunning >= most && Net(a.sub) > 0 && a.sub.grace == Some(g)
  }

  lemma FailingStep(a: Account, op: Op, g: int, most: nat)
    requires OnLastGrace(a, g, most) && Failing(a, op, most) && !Straddles(a, g, op)
    ensures if op.OpRetry? && op.asOf >= g then Step(a, op).sub.status == Canceled
        else OnLastGrace(Step(a, op), g, most)
  {
    hide BillRenewal, ChangePlan;
    if op.OpChange? {
      PlanChangeRevives(a, a.clock + op.wait, op.price, op.fits, op.unused, op.prorated, op.answer);
    }
  }

  lemma CanceledStays(a: Account, op: Op, most: nat)
    requires a.sub.status == Canceled && Failing(a, op, most)
    ensures Step(a, op) == a
  {
    hide BillRenewal;
  }

  lemma {:induction false} FailingRun(a: Account, ops: seq<Op>, g: int, most: nat)
    requires OnLastGrace(a, g, most) && AllFailing(a, g, ops, most)
    ensures if exists op :: op in ops && op.OpRetry? && op.asOf >= g then Run(a, ops).sub.status == Canceled
            else OnLastGrace(Run(a, ops), g, most)
  {
    if ops != [] {
      var before, op := ops[..|ops| - 1], ops[|ops| - 1];
      FailingRun(a, before, g, most);
      RunLast(a, ops);
      hide OnLastGrace, Failing, Step, Run, AllFailing;
      assert forall o :: o in ops <==> o in before || o == op;
      if exists o :: o in before && o.OpRetry? && o.asOf >= g {
        CanceledStays(Run(a, before), op, most);
      } else {
        FailingStep(Run(a, before), op, g, most);
      }
    }
  }

  lemma RunLast(a: Account, ops: seq<Op>)
    requires ops != []
    ensures Run(a, ops) == Step(Run(a, ops[..|ops| - 1]), ops[|ops| - 1])
  {}

  /** Once the allowed attempts have failed, failing cycles and refused plan changes, none straddling the deadline,
      leave the subscription past due until a cycle is dated at or after the deadline, which cancels it; a cycle dated
      a grace period after the last failure always does. */
  lemma CancelledInTime(a: Account, ops: seq<Op>, more: seq<Op>, g: int, most: nat)
    requires New(a) && OnLastGrace(Run(a, ops), g, most) && AllFailing(Run(a, ops), g, more, most)
    ensures var b := Run(a, ops);
            && Failures(b.history) >= most && b.clock < g <= b.clock + GRACE
            && (Run(b, more).sub.status == Canceled <==> exists op :: op in more && op.OpRetry? && op.asOf >= g)
  {
    hide Run;
    RunDunning(a, ops);
    FailingRun(Run(a, ops), more, g, most);
  }

  lemma VisitsOfCycle(a: Account, asOf: int, first: nat, x: Answer, second: nat, y: Answer, most: nat)
    requires a.sub.status in {Active, PastDue} && asOf <= a.clock + first
    requires a.sub.status == PastDue ==> Exhausted(a, asOf, most)
    ensures var b := Step(Step(a, OpRenew(asOf, first, x)), OpRetry(asOf, second, y, most));
            b.sub.status == Canceled <==> a.sub.status == PastDue
  {
    hide BillRenewal, Net, CreditUsed;
  }

  /** Plan changes defeat the deadline: the cycle that would cancel an exhausted subscription still cancels it after a
      plan change exactly when the change was refused, whatever the gateway answers. */
  lemma PlanChangePostponesCancellation(a: Account, change: Op, asOf: int, first: nat, x: Answer, second: nat,
                                        y: Answer, most: nat)
    requires a.sub.status == PastDue && Exhausted(a, asOf, most) && change.OpChange?
    requires asOf <= a.clock + first
    ensures var changed := Step(a, change);
            var cycled := Step(Step(changed, OpRenew(asOf, first, x)), OpRetry(asOf, second, y, most));
            cycled.sub.status == Canceled
            <==> ChangeRefused(a.sub, a.clock + change.wait, change.fits, change.unused, change.prorated, change.answer)
  {
    hide BillRenewal, ChangePlan, ChangeRefused, Exhausted, RetryOrCancel, RenewIfDue;
    var at := a.clock + change.wait;
    PlanChangeRevives(a, at, change.price, change.fits, change.unused, change.prorated, change.answer);
    ClockForward(a, at, change);
    VisitsOfCycle(Step(a, change), asOf, first, x, second, y, most);
  }

  lemma ClockForward(a: Account, at: int, change: Op)
    requires change.OpChange? && at == a.clock + change.wait
    ensures Step(a, change).clock >= a.clock
  {
    hide RemainingDays;
  }
}
