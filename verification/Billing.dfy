/** Subscription renewal, dunning, plan changes and account credit of one organization.

    `history` records what the gateway did and what credit was banked, so that totals and spacing can be stated
    about it.  Times are in seconds; `clock` is the time of the last call. */
module Billing {
  import opened Common

  const DAY := 86400
  const PERIOD := 30 * DAY
  const GRACE := 7 * DAY

  datatype Status = Trialing | Active | PastDue | Canceled

  datatype Subscription = Subscription(status: Status, price: nat, periodEnd: Option<int>, dunning: nat,
                                       grace: Option<int>, credit: nat)

  /** `renewal` marks the invoices found again by their description when a charge is retried. */
  datatype Invoice = Invoice(renewal: bool, paid: bool, amount: nat)

  datatype Event =
    | Charged(at: int, renewal: bool, price: nat, card: nat, credit: nat)
    | Declined(at: int, renewal: bool)
    | Banked(cents: nat)

  datatype Account = Account(sub: Subscription, invoices: seq<Invoice>, history: seq<Event>, clock: int)

  /** What the gateway says when asked for money; `NoGateway` is the error raised when no live gateway is configured. */
  datatype Answer = Captured | CardDeclined | NoCard | NoGateway

  datatype Result = Renewed | Failed | StillCurrent | NotCharged | CanceledNow | Changed | Raised

  // ---------------------------------------------------------------- renewal

  function CreditUsed(sub: Subscription, price: nat): nat { Min(sub.credit, price) }

  function Net(sub: Subscription): nat { sub.price - CreditUsed(sub, sub.price) }

  function EnterDunning(sub: Subscription, at: int): Subscription {
    sub.(dunning := sub.dunning + 1, status := PastDue,
         grace := if sub.grace.None? || sub.grace.value <= at then Some(at + GRACE) else sub.grace)
  }

  function IsOpenRenewal(i: Invoice): nat { if i.renewal && !i.paid then 1 else 0 }

  /** The latest renewal invoice still open. */
  function OpenRenewal(invoices: seq<Invoice>): (r: Option<nat>)
    ensures r.None? <==> forall i | i in invoices :: IsOpenRenewal(i) == 0
    ensures r.Some? ==> r.value < |invoices| && IsOpenRenewal(invoices[r.value]) == 1
    ensures r.Some? ==> forall i | r.value < i < |invoices| :: IsOpenRenewal(invoices[i]) == 0
  {
    if invoices == [] then None
    else if IsOpenRenewal(invoices[|invoices| - 1]) == 1 then Some(|invoices| - 1)
    else OpenRenewal(invoices[..|invoices| - 1])
  }

  /** Settle the open renewal invoice, or issue one. */
  function BillRenewal(invoices: seq<Invoice>, net: nat, paid: bool): seq<Invoice> {
    var open := OpenRenewal(invoices);
    if open.None? then invoices + [Invoice(true, paid, net)]
    else invoices[open.value := invoices[open.value].(paid := paid)]
  }

  function ChargeSubscription(a: Account, at: int, answer: Answer): (Account, Result) {
    var sub := a.sub;
    if sub.status == Canceled then (a, Failed)
    else if sub.status in {Active, Trialing} && sub.periodEnd.Some? && sub.periodEnd.value > at then (a, StillCurrent)
    else
      var used := CreditUsed(sub, sub.price);
      var net := Net(sub);
      if net > 0 && answer == NoGateway then (a, Raised)
      else
        var charged := net == 0 || answer == Captured;
        var invoices := BillRenewal(a.invoices, net, charged);
        if charged then
          var renewed := sub.(credit := sub.credit - used, status := Active, periodEnd := Some(at + PERIOD),
                              dunning := 0, grace := None);
          (Account(renewed, invoices, a.history + [Charged(at, true, sub.price, net, used)], at), Renewed)
        else
          (Account(EnterDunning(sub, at), invoices, a.history + [Declined(at, true)], at), Failed)
  }

  // ---------------------------------------------------------------- the two loops of a billing cycle

  predicate IsDue(a: Account, asOf: int) {
    a.sub.status in {Active, Trialing} && a.sub.periodEnd.Some? && a.sub.periodEnd.value <= asOf
  }

  predicate Exhausted(a: Account, asOf: int, maxDunning: nat) {
    a.sub.dunning >= maxDunning && (a.sub.grace.None? || a.sub.grace.value <= asOf)
  }

  /** The first loop's visit: renew the subscription if its period had ended by the cycle's own time `asOf`. */
  function RenewIfDue(a: Account, asOf: int, at: int, answer: Answer): (Account, Result) {
    if IsDue(a, asOf) then ChargeSubscription(a, at, answer) else (a, NotCharged)
  }

  /** The second loop's visit: retry a past-due subscription, or cancel it when attempts and grace are used up. */
  function RetryOrCancel(a: Account, asOf: int, at: int, answer: Answer, maxDunning: nat): (Account, Result) {
    if a.sub.status != PastDue then (a, NotCharged)
    else if Exhausted(a, asOf, maxDunning) then (a.(sub := a.sub.(status := Canceled)), CanceledNow)
    else ChargeSubscription(a, at, answer)
  }

  // ---------------------------------------------------------------- plan changes, subscribing, cancelling

  function RemainingDays(sub: Subscription, at: int): nat {
    if sub.periodEnd.Some? && sub.periodEnd.value > at then (sub.periodEnd.value - at) / DAY else 0
  }

  /** `unused` and `prorated` are the rounded credit and charge for the days left, nothing when none are left. */
  function ChangePlan(a: Account, at: int, price: nat, fits: bool, unused: nat, prorated: nat,
                      answer: Answer): (Account, Result) {
    var sub := a.sub;
    if sub.status == Canceled || !fits then (a, Raised)
    else
      var free := sub.status == Trialing || RemainingDays(sub, at) == 0;
      var credit, charge := if free then 0 else unused, if free then 0 else prorated;
      if charge > credit && answer != Captured then (a, Raised)
      else
        var banked := Max(0, credit - charge);
        var changed := sub.(price := price, status := if sub.status == Trialing then Trialing else Active,
                            credit := sub.credit + banked);
        var invoices := if credit > 0 || charge > 0 then a.invoices + [Invoice(false, true, Max(0, charge - credit))]
            else a.invoices;
        (Account(changed, invoices, if banked > 0 then a.history + [Banked(banked)] else a.history, at), Changed)
  }

  function Subscribe(a: Account, at: int, price: nat, answer: Answer): (Account, Result) {
    var used := CreditUsed(a.sub, price);
    var net := price - used;
    if net > 0 && answer in {NoGateway, NoCard} then (a, Raised)
    else
      var charged := net == 0 || answer == Captured;
      var invoices := a.invoices + [Invoice(false, charged, net)];
      var end := Some(at + PERIOD);
      if charged then
        (Account(Subscription(Active, price, end, 0, None, a.sub.credit - used), invoices,
                 a.history + [Charged(at, false, price, net, used)], at), Renewed)
      else
        (Account(Subscription(PastDue, price, end, 1, Some(at + GRACE), a.sub.credit), invoices,
                 a.history + [Declined(at, false)], at), Failed)
  }

  function CancelSubscription(a: Account): Account { a.(sub := a.sub.(status := Canceled)) }

  // ---------------------------------------------------------------- runs

  /** `wait` is the time since the last call. */
  datatype Op =
    | OpRenew(asOf: int, wait: nat, answer: Answer)
    | OpRetry(asOf: int, wait: nat, answer: Answer, maxDunning: nat)
    | OpChange(wait: nat, price: nat, fits: bool, unused: nat, prorated: nat, answer: Answer)
    | OpSubscribe(wait: nat, price: nat, answer: Answer)
    | OpCancel

  function Apply(a: Account, op: Op): (Account, Result) {
    match op
    case OpRenew(asOf, wait, answer) => RenewIfDue(a, asOf, a.clock + wait, answer)
    case OpRetry(asOf, wait, answer, most) => RetryOrCancel(a, asOf, a.clock + wait, answer, most)
    case OpChange(wait, price, fits, unused, prorated, answer) =>
      ChangePlan(a, a.clock + wait, price, fits, unused, prorated, answer)
    case OpSubscribe(wait, price, answer) => Subscribe(a, a.clock + wait, price, answer)
    case OpCancel => (CancelSubscription(a), CanceledNow)
  }

  function Step(a: Account, op: Op): Account { Apply(a, op).0 }

  function Run(a: Account, ops: seq<Op>): Account {
    if ops == [] then a else Step(Run(a, ops[..|ops| - 1]), ops[|ops| - 1])
  }

  /** A new account: on trial, or already paid for, until `periodEnd`. */
  predicate New(a: Account) {
    && a.sub.status in {Trialing, Active} && a.sub.dunning == 0 && a.sub.grace.None? && a.sub.credit == 0
    && a.invoices == [] && a.history == []
  }

  // ---------------------------------------------------------------- charges are a period apart

  /** Every successful charge so far has had its full period by time `t`. */
  predicate PaidOut(history: seq<Event>, t: int) {
    forall e | e in history && e.Charged? :: e.at + PERIOD <= t
  }

  predicate Spaced(history: seq<Event>) {
    forall i, j | 0 <= i < j < |history| && history[i].Charged? && history[j].Charged? ::
           history[i].at + PERIOD <= history[j].at
  }

  /** Someone subscribes only when no paid time is left. */
  predicate Timely(a: Account, op: Op) { op.OpSubscribe? ==> PaidOut(a.history, a.clock + op.wait) }

  predicate AllTimely(a: Account, ops: seq<Op>) {
    ops == [] || (AllTimely(a, ops[..|ops| - 1]) && Timely(Run(a, ops[..|ops| - 1]), ops[|ops| - 1]))
  }

  predicate SpacingKept(a: Account) {
    && Spaced(a.history)
    && (a.sub.periodEnd.Some? ==> PaidOut(a.history, a.sub.periodEnd.value))
    && (a.sub.periodEnd.None? ==> forall e | e in a.history :: !e.Charged?)
    && (a.sub.status == PastDue ==> PaidOut(a.history, a.clock))
  }

  lemma ChargeSpacing(a: Account, at: int, answer: Answer)
    requires SpacingKept(a) && a.clock <= at
    ensures SpacingKept(ChargeSubscription(a, at, answer).0)
  {
    hide BillRenewal, Net, CreditUsed;
  }

  lemma SubscribeSpacing(a: Account, at: int, price: nat, answer: Answer)
    requires SpacingKept(a) && PaidOut(a.history, at)
    ensures SpacingKept(Subscribe(a, at, price, answer).0)
  {
    hide CreditUsed;
  }

  lemma ChangeSpacing(a: Account, at: int, price: nat, fits: bool, unused: nat, prorated: nat, answer: Answer)
    requires SpacingKept(a) && a.clock <= at
    ensures SpacingKept(ChangePlan(a, at, price, fits, unused, prorated, answer).0)
  {
    hide RemainingDays;
  }

  lemma StepSpacing(a: Account, op: Op)
    requires SpacingKept(a) && Timely(a, op)
    ensures SpacingKept(Step(a, op))
  {
    hide ChargeSubscription, Subscribe, ChangePlan, Spaced, PaidOut;
    match op
    case OpRenew(_, wait, answer) => ChargeSpacing(a, a.clock + wait, answer);
    case OpRetry(_, wait, answer, _) => ChargeSpacing(a, a.clock + wait, answer);
    case OpChange(wait, price, fits, unused, prorated, answer) =>
      ChangeSpacing(a, a.clock + wait, price, fits, unused, prorated, answer);
    case OpSubscribe(wait, price, answer) => SubscribeSpacing(a, a.clock + wait, price, answer);
    case OpCancel =>
  }

  /** No double renewal: in every run of billing cycles, plan changes and cancellations, in which subscribing anew
      happens only after paid time is used up, any two successful charges are at least a period apart. */
  lemma {:induction false} RunSpaced(a: Account, ops: seq<Op>)
    requires New(a) && AllTimely(a, ops)
    ensures SpacingKept(Run(a, ops)) && Spaced(Run(a, ops).history)
  {
    if ops != [] {
      RunSpaced(a, ops[..|ops| - 1]);
      StepSpacing(Run(a, ops[..|ops| - 1]), ops[|ops| - 1]);
    }
  }

  lemma Run3(a: Account, x: Op, y: Op, z: Op)
    ensures Run(a, [x, y, z]) == Step(Step(Step(a, x), y), z)
  {
    assert [x, y, z][..2] == [x, y] && [x, y][..1] == [x] && [x][..0] == [];
    assert Run(a, [x]) == Step(Run(a, []), x);
  }

  const LAPSED := Account(Subscription(Active, 10, Some(0), 0, None, 0), [], [], 0)

  /** The condition is needed: whenever someone subscribes with paid time left and the card is declined, the retry that
      follows charges a second time within the period. */
  lemma UntimelySubscribeChargesTwice(a: Account, wait: nat, price: nat, asOf: int)
    requires !Timely(a, OpSubscribe(wait, price, CardDeclined))
    ensures !Spaced(Step(Step(a, OpSubscribe(wait, price, CardDeclined)), OpRetry(asOf, 0, Captured, 3)).history)
  {
    hide BillRenewal, Spaced;
    var at := a.clock + wait;
    var e :| e in a.history && e.Charged? && e.at + PERIOD > at;
    var i :| 0 <= i < |a.history| && a.history[i] == e;
    var b := Subscribe(a, at, price, CardDeclined).0;
    var c := RetryOrCancel(b, asOf, at, Captured, 3).0;
    assert c.history[i] == e && |c.history| > |a.history|;
    var j := |c.history| - 1;
    assert c.history[j].Charged? && c.history[j].at == at;
    assert c == Step(Step(a, OpSubscribe(wait, price, CardDeclined)), OpRetry(asOf, 0, Captured, 3));
    CloseChargesUnspaced(c.history, i, j);
  }

  lemma CloseChargesUnspaced(h: seq<Event>, i: nat, j: nat)
    requires i < j < |h| && h[i].Charged? && h[j].Charged? && h[i].at + PERIOD > h[j].at
    ensures !Spaced(h)
  {}

  // ---------------------------------------------------------------- money and invoices

  function Consumed(e: Event): nat { if e.Charged? then e.credit else 0 }

  function BankedBy(e: Event): nat { if e.Banked? then e.cents else 0 }

  function IsRenewal(e: Event): nat { if e.Charged? && e.renewal then 1 else 0 }

  function IsPaidRenewal(i: Invoice): nat { if i.renewal && i.paid then 1 else 0 }

  /** Credit is what was banked less what was used; each charge and its credit make up the price; every renewal has its
      own paid invoice and at most one renewal invoice is open. */
  predicate MoneyKept(a: Account) {
    && a.sub.credit + Sum(a.history, Consumed) == Sum(a.history, BankedBy)
    && (forall e | e in a.history && e.Charged? :: e.card + e.credit == e.price)
    && Sum(a.invoices, IsPaidRenewal) == Sum(a.history, IsRenewal)
    && Sum(a.invoices, IsOpenRenewal) <= 1
  }

  lemma HistorySums(h: seq<Event>, e: Event)
    ensures Sum(h + [e], Consumed) == Sum(h, Consumed) + Consumed(e)
    ensures Sum(h + [e], BankedBy) == Sum(h, BankedBy) + BankedBy(e)
    ensures Sum(h + [e], IsRenewal) == Sum(h, IsRenewal) + IsRenewal(e)
  {
    assert (h + [e])[..|h|] == h;
  }

  lemma InvoiceSums(invoices: seq<Invoice>, i: Invoice)
    ensures Sum(invoices + [i], IsPaidRenewal) == Sum(invoices, IsPaidRenewal) + IsPaidRenewal(i)
    ensures Sum(invoices + [i], IsOpenRenewal) == Sum(invoices, IsOpenRenewal) + IsOpenRenewal(i)
  {
    assert (invoices + [i])[..|invoices|] == invoices;
  }

  lemma BillingSums(invoices: seq<Invoice>, net: nat, paid: bool)
    requires Sum(invoices, IsOpenRenewal) <= 1
    ensures var after := BillRenewal(invoices, net, paid);
            && Sum(after, IsPaidRenewal) == Sum(invoices, IsPaidRenewal) + (if paid then 1 else 0)
            && Sum(after, IsOpenRenewal) == (if paid then 0 else 1)
  {
    var open := OpenRenewal(invoices);
    if open.None? {
      SumZero(invoices, IsOpenRenewal);
      InvoiceSums(invoices, Invoice(true, paid, net));
    } else {
      var i := open.value;
      SumUpdate(invoices, i, invoices[i].(paid := paid), IsPaidRenewal);
      SumUpdate(invoices, i, invoices[i].(paid := paid), IsOpenRenewal);
    }
  }

  lemma ChargeMoney(a: Account, at: int, answer: Answer)
    requires MoneyKept(a)
    ensures MoneyKept(ChargeSubscription(a, at, answer).0)
  {
    hide BillRenewal, Sum, IsOpenRenewal, IsPaidRenewal;
    var used, net := CreditUsed(a.sub, a.sub.price), Net(a.sub);
    HistorySums(a.history, Charged(at, true, a.sub.price, net, used));
    HistorySums(a.history, Declined(at, true));
    BillingSums(a.invoices, net, true);
    BillingSums(a.invoices, net, false);
  }

  lemma SubscribeMoney(a: Account, at: int, price: nat, answer: Answer)
    requires MoneyKept(a)
    ensures MoneyKept(Subscribe(a, at, price, answer).0)
  {
    hide Sum;
    var used := CreditUsed(a.sub, price);
    HistorySums(a.history, Charged(at, false, price, price - used, used));
    HistorySums(a.history, Declined(at, false));
    InvoiceSums(a.invoices, Invoice(false, true, price - used));
    InvoiceSums(a.invoices, Invoice(false, false, price - used));
  }

  lemma ChangeMoney(a: Account, at: int, price: nat, fits: bool, unused: nat, prorated: nat, answer: Answer)
    requires MoneyKept(a)
    ensures MoneyKept(ChangePlan(a, at, price, fits, unused, prorated, answer).0)
  {
    hide Sum, RemainingDays;
    HistorySums(a.history, Banked(Max(0, unused - prorated)));
    InvoiceSums(a.invoices, Invoice(false, true, Max(0, prorated - unused)));
  }

  lemma StepMoney(a: Account, op: Op)
    requires MoneyKept(a)
    ensures MoneyKept(Step(a, op))
  {
    hide ChargeSubscription, Subscribe, ChangePlan, Sum;
    match op
    case OpRenew(_, wait, answer) => ChargeMoney(a, a.clock + wait, answer);
    case OpRetry(_, wait, answer, _) => ChargeMoney(a, a.clock + wait, answer);
    case OpChange(wait, price, fits, unused, prorated, answer) =>
      ChangeMoney(a, a.clock + wait, price, fits, unused, prorated, answer);
    case OpSubscribe(wait, price, answer) => SubscribeMoney(a, a.clock + wait, price, answer);
    case OpCancel =>
  }

  lemma {:induction false} RunMoney(a: Account, ops: seq<Op>)
    requires New(a)
    ensures MoneyKept(Run(a, ops))
  {
    if ops != [] {
      RunMoney(a, ops[..|ops| - 1]);
      StepMoney(Run(a, ops[..|ops| - 1]), ops[|ops| - 1]);
    }
  }

  // ---------------------------------------------------------------- what a paid invoice says

  function CardOf(e: Event): nat { if e.Charged? && e.renewal then e.card else 0 }

  function InvoicedFor(i: Invoice): nat { if i.renewal && i.paid then i.amount else 0 }

  predicate OpenMatches(a: Account) {
    forall i | i in a.invoices && IsOpenRenewal(i) == 1 :: i.amount == Net(a.sub)
  }

  /** The amounts on paid renewal invoices add up to what the card was charged for renewals. */
  predicate InvoicesAgree(a: Account) { Sum(a.invoices, InvoicedFor) == Sum(a.history, CardOf) }

  lemma BillingAmount(invoices: seq<Invoice>, net: nat, paid: bool)
    ensures var open := OpenRenewal(invoices);
            Sum(BillRenewal(invoices, net, paid), InvoicedFor)
            == Sum(invoices, InvoicedFor)
                + (if !paid then 0 else if open.Some? then invoices[open.value].amount else net)
  {
    var open := OpenRenewal(invoices);
    if open.None? {
      assert (invoices + [Invoice(true, paid, net)])[..|invoices|] == invoices;
    } else {
      SumUpdate(invoices, open.value, invoices[open.value].(paid := paid), InvoicedFor);
    }
  }

  /** A renewal keeps invoices and card charges in agreement exactly when the invoice it settles was issued for the
      amount charged now. */
  lemma RenewalAgrees(a: Account, at: int, answer: Answer)
    requires InvoicesAgree(a) && ChargeSubscription(a, at, answer).1 == Renewed
    ensures var open := OpenRenewal(a.invoices);
            InvoicesAgree(ChargeSubscription(a, at, answer).0) <==>
                open.None? || a.invoices[open.value].amount == Net(a.sub)
  {
    hide BillRenewal, OpenRenewal, CreditUsed, Net, Sum;
    BillingAmount(a.invoices, Net(a.sub), true);
    CardSnoc(a.history, Charged(at, true, a.sub.price, Net(a.sub), CreditUsed(a.sub, a.sub.price)));
  }

  lemma CardSnoc(history: seq<Event>, e: Event)
    ensures Sum(history + [e], CardOf) == Sum(history, CardOf) + CardOf(e)
  {
    assert (history + [e])[..|history|] == history;
  }

  lemma BillingMatches(a: Account, paid: bool)
    requires OpenMatches(a) && Sum(a.invoices, IsOpenRenewal) <= 1
    ensures var after := BillRenewal(a.invoices, Net(a.sub), paid);
            forall i | i in after && IsOpenRenewal(i) == 1 :: !paid && i.amount == Net(a.sub)
  {
    hide Sum;
    BillingSums(a.invoices, Net(a.sub), paid);
    if paid {
      NoneOpen(BillRenewal(a.invoices, Net(a.sub), paid));
    }
  }

  lemma ChargeAgrees(a: Account, at: int, answer: Answer)
    requires InvoicesAgree(a) && OpenMatches(a) && Sum(a.invoices, IsOpenRenewal) <= 1
    ensures var b := ChargeSubscription(a, at, answer).0; InvoicesAgree(b) && OpenMatches(b)
  {
    hide BillRenewal, Sum, IsOpenRenewal;
    var open := OpenRenewal(a.invoices);
    OpenIsOpen(a);
    var net := Net(a.sub);
    BillingMatches(a, true);
    BillingMatches(a, false);
    BillingAmount(a.invoices, net, true);
    BillingAmount(a.invoices, net, false);
    CardSums(a.history, Charged(at, true, a.sub.price, net, CreditUsed(a.sub, a.sub.price)));
    CardSums(a.history, Declined(at, true));
  }

  lemma OpenIsOpen(a: Account)
    requires OpenMatches(a)
    ensures var open := OpenRenewal(a.invoices); open.Some? ==> a.invoices[open.value].amount == Net(a.sub)
  {}

  lemma CardSums(h: seq<Event>, e: Event)
    ensures Sum(h + [e], CardOf) == Sum(h, CardOf) + CardOf(e)
  {
    assert (h + [e])[..|h|] == h;
  }

  lemma {:induction false} NoneOpen(invoices: seq<Invoice>)
    requires Sum(invoices, IsOpenRenewal) == 0
    ensures forall i | i in invoices :: IsOpenRenewal(i) == 0
  {
    if invoices != [] {
      NoneOpen(invoices[..|invoices| - 1]);
    }
  }

  lemma NothingBilled(a: Account)
    requires New(a)
    ensures InvoicesAgree(a) && OpenMatches(a)
  {}

  lemma CanceledAgrees(a: Account)
    requires InvoicesAgree(a) && OpenMatches(a)
    ensures InvoicesAgree(CancelSubscription(a)) && OpenMatches(CancelSubscription(a))
  {}

  /** Over billing cycles alone, paid renewal invoices add up to what the card was charged. */
  lemma {:induction false} CyclesAgree(a: Account, ops: seq<Op>)
    requires New(a) && forall op | op in ops :: op.OpRenew? || op.OpRetry?
    ensures InvoicesAgree(Run(a, ops)) && OpenMatches(Run(a, ops))
  {
    hide BillRenewal, InvoicesAgree, OpenMatches, ChargeSubscription;
    if ops == [] {
      assert InvoicesAgree(a) && OpenMatches(a) by { NothingBilled(a); }
    } else {
      var before, op := Run(a, ops[..|ops| - 1]), ops[|ops| - 1];
      CyclesAgree(a, ops[..|ops| - 1]);
      RunMoney(a, ops[..|ops| - 1]);
      CanceledAgrees(before);
      ChargeAgrees(before, before.clock + op.wait, op.answer);
    }
  }

  const DECLINED := Account(Subscription(PastDue, 10, Some(0), 1, Some(GRACE), 0), [Invoice(true, false, 10)],
                            [Declined(0, true)], 0)

  const REPRICED := DECLINED.(sub := Subscription(Active, 30, Some(0), 1, Some(GRACE), 0))

  lemma DeclinedThenRepriced()
    ensures Step(LAPSED, OpRenew(0, 0, CardDeclined)) == DECLINED
    ensures Step(DECLINED, OpChange(0, 30, true, 0, 0, Captured)) == REPRICED
  {
    assert BillRenewal([], 10, false) == [Invoice(true, false, 10)];
    hide BillRenewal;
  }

  lemma RepricedAgrees()
    ensures InvoicesAgree(REPRICED) && OpenRenewal(REPRICED.invoices) == Some(0)
  {
    assert REPRICED.invoices[..0] == [] && REPRICED.history[..0] == [];
  }

  /** A plan change between a decline and the retry breaks it: the card pays the new price on the old
      price's invoice. */
  lemma PlanChangeMisstatesInvoice()
    ensures !InvoicesAgree(Run(LAPSED,
                               [OpRenew(0, 0, CardDeclined), OpChange(0, 30, true, 0, 0, Captured),
                                OpRenew(0, 0, Captured)]))
  {
    hide Run, BillRenewal, InvoicesAgree, OpenRenewal;
    Run3(LAPSED, OpRenew(0, 0, CardDeclined), OpChange(0, 30, true, 0, 0, Captured), OpRenew(0, 0, Captured));
    DeclinedThenRepriced();
    RepricedAgrees();
    RenewalAgrees(REPRICED, 0, Captured);
  }
}
