/** Purchase orders against funds: budget is committed when an order is placed, spent as its lines are
    received, and released when it is cancelled.

    The code guards every subtraction with a clamp at zero.  The exact sums below, kept by every run, show that
    no clamp ever bites and that nothing committed is ever refused at receipt. */
module Acquisitions {
  import opened Common

  datatype Fund = Fund(budget: nat, spent: nat, encumbered: nat)

  datatype Status = Draft | Ordered | Received | Cancelled

  datatype Line = Line(edition: Option<Id>, branch: Id, quantity: nat, unit: nat, received: nat)

  datatype Order = Order(fund: Id, status: Status, lines: seq<Line>)

  /** A shelved copy, with the three numbers its generated barcode is made of. */
  datatype Copy = Copy(order: Id, line: Id, number: nat, edition: Id, branch: Id)

  datatype Office = Office(funds: seq<Fund>, orders: seq<Order>, copies: seq<Copy>)

  datatype Refusal = NoSuchRow | NotDraft | BadQuantity | NoLines | OverBudget | NotOrdered | NoEdition | CopyLimit
                   | AlreadyReceived | NotOurs

  datatype Outcome = Done(after: Office) | Refused(error: Refusal)

  // ---------------------------------------------------------------- what the numbers stand for

  function Outstanding(line: Line): nat { Max(0, line.quantity - line.received) }

  function OutstandingCost(line: Line): nat { Outstanding(line) * line.unit }

  function ReceivedCost(line: Line): nat { line.received * line.unit }

  function FullCost(line: Line): nat { line.quantity * line.unit }

  /** What an order still commits of fund `f`. */
  function CommittedOn(f: Id): Order -> nat {
    (o: Order) => if o.fund == f && o.status == Ordered then Sum(o.lines, OutstandingCost) else 0
  }

  /** What an order has spent of fund `f`, whatever became of it since. */
  function SpentOn(f: Id): Order -> nat {
    (o: Order) => if o.fund == f then Sum(o.lines, ReceivedCost) else 0
  }

  function Available(fund: Fund): nat { Max(0, fund.budget - fund.spent - fund.encumbered) }

  // ---------------------------------------------------------------- fund movements

  function Release(fund: Fund, cents: nat): Fund { fund.(encumbered := Max(0, fund.encumbered - cents)) }

  function SpendEncumbered(fund: Fund, cents: nat): Fund { Release(fund, cents).(spent := fund.spent + cents) }

  // ---------------------------------------------------------------- operations

  function CreateFund(b: Office, budget: nat): Outcome { Done(b.(funds := b.funds + [Fund(budget, 0, 0)])) }

  /** `ours` is whether the vendor and the fund belong to the organization. */
  function CreateOrder(b: Office, fund: Id, ours: bool): Outcome {
    if !ours then Refused(NotOurs)
    else if fund >= |b.funds| then Refused(NoSuchRow) else Done(b.(orders := b.orders + [Order(fund, Draft, [])]))
  }

  /** `ours` is whether the branch belongs to the organization. */
  function AddLine(b: Office, o: Id, edition: Option<Id>, branch: Id, ours: bool, quantity: int, unit: nat): Outcome {
    if o >= |b.orders| then Refused(NoSuchRow)
    else if b.orders[o].status != Draft then Refused(NotDraft)
    else if quantity < 1 then Refused(BadQuantity)
    else if !ours then Refused(NotOurs)
    else
      var order := b.orders[o];
      Done(b.(orders := b.orders[o := order.(lines := order.lines + [Line(edition, branch, quantity, unit, 0)])]))
  }

  function PlaceOrder(b: Office, o: Id): Outcome {
    if o >= |b.orders| || b.orders[o].fund >= |b.funds| then Refused(NoSuchRow)
    else
      var order := b.orders[o];
      var fund := b.funds[order.fund];
      var total := Sum(order.lines, FullCost);
      if order.status != Draft then Refused(NotDraft)
      else if order.lines == [] then Refused(NoLines)
      else if total > 0 && Available(fund) < total then Refused(OverBudget)
      else Done(b.(funds := b.funds[order.fund := fund.(encumbered := fund.encumbered + total)],
                   orders := b.orders[o := order.(status := Ordered)]))
  }

  /** The copies a receipt shelves, numbered on from those already received. */
  function Shelved(o: Id, l: Id, line: Line, quantity: nat): (r: seq<Copy>)
    requires line.edition.Some?
    ensures |r| == quantity
    ensures forall i | 0 <= i < quantity :: r[i] == Copy(o, l, line.received + i + 1, line.edition.value, line.branch)
  {
    seq(quantity, i requires 0 <= i < quantity => Copy(o, l, line.received + i + 1, line.edition.value, line.branch))
  }

  predicate AllReceived(lines: seq<Line>) { forall line | line in lines :: Outstanding(line) == 0 }

  /** `withinLimit` is the answer of the organization's copy entitlement. */
  function ReceiveLine(b: Office, o: Id, l: Id, quantity: int, withinLimit: bool): Outcome {
    if o >= |b.orders| || l >= |b.orders[o].lines| || b.orders[o].fund >= |b.funds| then Refused(NoSuchRow)
    else
      var order := b.orders[o];
      var line := order.lines[l];
      if order.status !in {Ordered, Received} then Refused(NotOrdered)
      else if quantity < 1 || quantity > Outstanding(line) then Refused(BadQuantity)
      else if line.edition.None? then Refused(NoEdition)
      else if !withinLimit then Refused(CopyLimit)
      else
        var fund := b.funds[order.fund];
        var cost := quantity * line.unit;
        if fund.spent + cost > fund.budget then Refused(OverBudget)
        else
          var lines := order.lines[l := line.(received := line.received + quantity)];
          Done(Office(b.funds[order.fund := SpendEncumbered(fund, cost)],
                      b.orders[o := order.(lines := lines,
                                           status := if AllReceived(lines) then Received else order.status)],
                      b.copies + Shelved(o, l, line, quantity)))
  }

  function CancelOrder(b: Office, o: Id): Outcome {
    if o >= |b.orders| || b.orders[o].fund >= |b.funds| then Refused(NoSuchRow)
    else
      var order := b.orders[o];
      var fund := b.funds[order.fund];
      if order.status == Received then Refused(AlreadyReceived)
      else
        var left := if order.status == Ordered then Sum(order.lines, OutstandingCost) else 0;
        Done(b.(funds := b.funds[order.fund := Release(fund, left)],
                orders := b.orders[o := order.(status := Cancelled)]))
  }

  datatype Op =
    | OpFund(budget: nat)
    | OpOrder(fund: Id, ours: bool)
    | OpLine(order: Id, edition: Option<Id>, branch: Id, ours: bool, quantity: int, unit: nat)
    | OpPlace(order: Id)
    | OpReceive(order: Id, line: Id, quantity: int, withinLimit: bool)
    | OpCancel(order: Id)

  function Apply(b: Office, op: Op): Outcome {
    match op
    case OpFund(budget) => CreateFund(b, budget)
    case OpOrder(fund, ours) => CreateOrder(b, fund, ours)
    case OpLine(o, edition, branch, ours, quantity, unit) => AddLine(b, o, edition, branch, ours, quantity, unit)
    case OpPlace(o) => PlaceOrder(b, o)
    case OpReceive(o, l, quantity, within) => ReceiveLine(b, o, l, quantity, within)
    case OpCancel(o) => CancelOrder(b, o)
  }

  function Step(b: Office, op: Op): Office {
    match Apply(b, op)
    case Done(c) => c
    case Refused(_) => b
  }

  const EMPTY := Office([], [], [])

  function Run(ops: seq<Op>): Office {
    if ops == [] then EMPTY else Step(Run(ops[..|ops| - 1]), ops[|ops| - 1])
  }

  // ---------------------------------------------------------------- what every run keeps

  /** The fund's two totals are exactly what its orders commit and have spent, and stay within the budget. */
  predicate FundExact(b: Office, f: Id)
    requires f < |b.funds|
  {
    && b.funds[f].encumbered == Sum(b.orders, CommittedOn(f))
    && b.funds[f].spent == Sum(b.orders, SpentOn(f))
    && b.funds[f].spent + b.funds[f].encumbered <= b.funds[f].budget
  }

  /** Nothing is over-received; a draft has received nothing; a placed order is marked received exactly when nothing
      is outstanding. */
  predicate OrderKept(b: Office, order: Order) {
    && order.fund < |b.funds|
    && (forall line | line in order.lines :: line.received <= line.quantity && line.quantity >= 1)
    && (order.status == Draft ==> forall line | line in order.lines :: line.received == 0)
    && (order.status in {Ordered, Received} ==> (order.status == Received <==> AllReceived(order.lines)))
  }

  /** The copies on the shelf carry exactly the numbers 1 to received of each line, none twice. */
  predicate CopiesExact(b: Office) {
    && (forall i, j | 0 <= i < j < |b.copies| ::
          (b.copies[i].order, b.copies[i].line, b.copies[i].number)
          != (b.copies[j].order, b.copies[j].line, b.copies[j].number))
    && (forall c | c in b.copies ::
        c.order < |b.orders| && c.line < |b.orders[c.order].lines| && Numbered(b.orders[c.order].lines[c.line], c))
    && (forall o, l, n | 0 <= o < |b.orders| && 0 <= l < |b.orders[o].lines|
        && 1 <= n <= b.orders[o].lines[l].received ::
          HasNumber(b.copies, o, l, n))
  }

  predicate Numbered(line: Line, c: Copy) {
    1 <= c.number <= line.received && line.edition == Some(c.edition) && line.branch == c.branch
  }

  predicate HasNumber(copies: seq<Copy>, o: Id, l: Id, n: nat) {
    exists c :: c in copies && c.order == o && c.line == l && c.number == n
  }

  predicate Exact(b: Office) {
    && (forall f | 0 <= f < |b.funds| :: FundExact(b, f))
    && (forall o | 0 <= o < |b.orders| :: OrderKept(b, b.orders[o]))
  }

  /** Replacing one order moves each fund's sums by the difference that order makes. */
  lemma OrderSums(b: Office, o: Id, order: Order, f: Id)
    requires o < |b.orders|
    ensures Sum(b.orders[o := order], CommittedOn(f))
        == Sum(b.orders, CommittedOn(f)) - CommittedOn(f)(b.orders[o]) + CommittedOn(f)(order)
    ensures Sum(b.orders[o := order], SpentOn(f))
        == Sum(b.orders, SpentOn(f)) - SpentOn(f)(b.orders[o]) + SpentOn(f)(order)
    ensures CommittedOn(f)(b.orders[o]) <= Sum(b.orders, CommittedOn(f))
  {
    SumUpdate(b.orders, o, order, CommittedOn(f));
    SumUpdate(b.orders, o, order, SpentOn(f));
  }

  lemma {:induction false} UnreceivedCosts(lines: seq<Line>)
    requires forall line | line in lines :: line.received == 0
    ensures Sum(lines, OutstandingCost) == Sum(lines, FullCost) && Sum(lines, ReceivedCost) == 0
  {
    if lines != [] {
      UnreceivedCosts(lines[..|lines| - 1]);
    }
  }

  lemma CreateExact(b: Office, op: Op)
    requires Exact(b) && (op.OpFund? || op.OpOrder?)
    ensures Exact(Step(b, op))
  {
    var c := Step(b, op);
    forall f | 0 <= f < |c.funds| ensures FundExact(c, f) {
      if f < |b.funds| {
        assert FundExact(b, f);
      } else {
        forall order | order in b.orders ensures order.fund != f {
          var o :| 0 <= o < |b.orders| && b.orders[o] == order;
          assert OrderKept(b, b.orders[o]);
        }
        SumZero(b.orders, CommittedOn(f));
        SumZero(b.orders, SpentOn(f));
      }
    }
    forall o | 0 <= o < |c.orders| ensures OrderKept(c, c.orders[o]) {
      if o < |b.orders| { assert OrderKept(b, b.orders[o]); }
    }
  }

  lemma AddLineExact(b: Office, o: Id, edition: Option<Id>, branch: Id, ours: bool, quantity: int, unit: nat)
    requires Exact(b) && AddLine(b, o, edition, branch, ours, quantity, unit).Done?
    ensures Exact(AddLine(b, o, edition, branch, ours, quantity, unit).after)
  {
    var c := AddLine(b, o, edition, branch, ours, quantity, unit).after;
    assert OrderKept(b, b.orders[o]);
    UnreceivedCosts(b.orders[o].lines);
    UnreceivedCosts(c.orders[o].lines);
    forall f | 0 <= f < |c.funds| ensures FundExact(c, f) {
      assert FundExact(b, f);
      OrderSums(b, o, c.orders[o], f);
    }
    forall p | 0 <= p < |c.orders| ensures OrderKept(c, c.orders[p]) { assert OrderKept(b, b.orders[p]); }
  }

  lemma PlaceExact(b: Office, o: Id)
    requires Exact(b) && PlaceOrder(b, o).Done?
    ensures Exact(PlaceOrder(b, o).after)
  {
    var c := PlaceOrder(b, o).after;
    assert OrderKept(b, b.orders[o]) && FundExact(b, b.orders[o].fund);
    UnreceivedCosts(b.orders[o].lines);
    assert b.orders[o].lines[0] in b.orders[o].lines;
    forall f | 0 <= f < |c.funds| ensures FundExact(c, f) {
      assert FundExact(b, f);
      OrderSums(b, o, c.orders[o], f);
    }
    forall p | 0 <= p < |c.orders| ensures OrderKept(c, c.orders[p]) { assert OrderKept(b, b.orders[p]); }
  }

  lemma LineCosts(line: Line, quantity: nat)
    requires line.received + quantity <= line.quantity
    ensures var after := line.(received := line.received + quantity);
            && OutstandingCost(line) == OutstandingCost(after) + quantity * line.unit
            && ReceivedCost(after) == ReceivedCost(line) + quantity * line.unit
  {
    Distributes(line.received, quantity, line.unit);
    Distributes(line.quantity - line.received - quantity, quantity, line.unit);
  }

  lemma Distributes(a: nat, b: nat, unit: nat)
    ensures (a + b) * unit == a * unit + b * unit
  {}

  /** Receiving `quantity` of a line turns exactly their cost from outstanding into received. */
  lemma ReceiptCosts(lines: seq<Line>, l: nat, quantity: nat)
    requires l < |lines| && lines[l].received + quantity <= lines[l].quantity
    ensures var after := lines[l := lines[l].(received := lines[l].received + quantity)];
            && Sum(after, OutstandingCost) == Sum(lines, OutstandingCost) - quantity * lines[l].unit
            && Sum(after, ReceivedCost) == Sum(lines, ReceivedCost) + quantity * lines[l].unit
    ensures 0 <= quantity * lines[l].unit <= Sum(lines, OutstandingCost)
  {
    hide OutstandingCost, ReceivedCost, Sum;
    var line := lines[l];
    var after := line.(received := line.received + quantity);
    LineCosts(line, quantity);
    SumUpdate(lines, l, after, OutstandingCost);
    SumUpdate(lines, l, after, ReceivedCost);
  }

  lemma ReceiveExact(b: Office, o: Id, l: Id, quantity: int, withinLimit: bool)
    requires Exact(b) && ReceiveLine(b, o, l, quantity, withinLimit).Done?
    ensures Exact(ReceiveLine(b, o, l, quantity, withinLimit).after)
  {
    hide Sum, ReceivedCost;
    var c := ReceiveLine(b, o, l, quantity, withinLimit).after;
    var order, after := b.orders[o], c.orders[o];
    var line := order.lines[l];
    assert OrderKept(b, order) && line in order.lines;
    assert order.status == Ordered;
    ReceiptCosts(order.lines, l, quantity);
    if AllReceived(after.lines) {
      SumZero(after.lines, OutstandingCost);
    }
    forall f | 0 <= f < |c.funds| ensures FundExact(c, f) {
      assert FundExact(b, f);
      OrderSums(b, o, after, f);
    }
    forall p | 0 <= p < |c.orders| ensures OrderKept(c, c.orders[p]) { assert OrderKept(b, b.orders[p]); }
  }

  lemma CancelExact(b: Office, o: Id)
    requires Exact(b) && CancelOrder(b, o).Done?
    ensures Exact(CancelOrder(b, o).after)
  {
    var c := CancelOrder(b, o).after;
    assert OrderKept(b, b.orders[o]);
    forall f | 0 <= f < |c.funds| ensures FundExact(c, f) {
      assert FundExact(b, f);
      OrderSums(b, o, c.orders[o], f);
    }
    forall p | 0 <= p < |c.orders| ensures OrderKept(c, c.orders[p]) { assert OrderKept(b, b.orders[p]); }
  }

  lemma StepExact(b: Office, op: Op)
    requires Exact(b)
    ensures Exact(Step(b, op))
  {
    if Apply(b, op).Done? {
      match op
      case OpFund(_) => CreateExact(b, op);
      case OpOrder(_, _) => CreateExact(b, op);
      case OpLine(o, edition, branch, ours, quantity, unit) =>
           AddLineExact(b, o, edition, branch, ours, quantity, unit);
      case OpPlace(o) => PlaceExact(b, o);
      case OpReceive(o, l, quantity, within) => ReceiveExact(b, o, l, quantity, within);
      case OpCancel(o) => CancelExact(b, o);
    }
  }

  lemma ReceiveCopiesExact(b: Office, o: Id, l: Id, quantity: int, withinLimit: bool)
    requires CopiesExact(b) && ReceiveLine(b, o, l, quantity, withinLimit).Done?
    ensures CopiesExact(ReceiveLine(b, o, l, quantity, withinLimit).after)
  {
    var c := ReceiveLine(b, o, l, quantity, withinLimit).after;
    var line := b.orders[o].lines[l];
    var shelved := Shelved(o, l, line, quantity);
    forall i, j | 0 <= i < j < |c.copies|
      ensures (c.copies[i].order, c.copies[i].line, c.copies[i].number)
           != (c.copies[j].order, c.copies[j].line, c.copies[j].number)
    {
      if i < |b.copies| <= j {
        assert b.copies[i] in b.copies;
      }
    }
    forall p, m, n | 0 <= p < |c.orders| && 0 <= m < |c.orders[p].lines| && 1 <= n <= c.orders[p].lines[m].received
      ensures HasNumber(c.copies, p, m, n)
    {
      if p == o && m == l && n > line.received {
        assert shelved[n - line.received - 1] in c.copies;
      } else {
        assert HasNumber(b.copies, p, m, n);
      }
    }
  }

  lemma StepCopies(b: Office, op: Op)
    requires CopiesExact(b)
    ensures CopiesExact(Step(b, op))
  {
    if Apply(b, op).Done? {
      if op.OpReceive? {
        ReceiveCopiesExact(b, op.order, op.line, op.quantity, op.withinLimit);
      } else {
        var c := Step(b, op);
        forall o, l, n | 0 <= o < |c.orders| && 0 <= l < |c.orders[o].lines| && 1 <= n <= c.orders[o].lines[l].received
          ensures HasNumber(c.copies, o, l, n)
        {
          assert o < |b.orders| && l < |b.orders[o].lines|;
        }
      }
    }
  }

  /** In every run each fund's encumbrance is the outstanding cost of its ordered orders, its spend the cost of what was
      received, both within budget; and generated barcodes are exactly 1 to received on every line, none repeated. */
  lemma {:induction false} RunExact(ops: seq<Op>)
    ensures Exact(Run(ops)) && CopiesExact(Run(ops))
  {
    if ops != [] {
      hide Exact, CopiesExact, Step;
      RunExact(ops[..|ops| - 1]);
      StepExact(Run(ops[..|ops| - 1]), ops[|ops| - 1]);
      StepCopies(Run(ops[..|ops| - 1]), ops[|ops| - 1]);
    } else {
      assert Exact(EMPTY) && CopiesExact(EMPTY);
    }
  }

  // ---------------------------------------------------------------- consequences

  /** Receiving from a placed order is refused only for the quantity, a missing edition or the copy limit: never for
      money. */
  lemma ReceiptAccepted(ops: seq<Op>, o: Id, l: Id, quantity: int, withinLimit: bool)
    requires o < |Run(ops).orders| && l < |Run(ops).orders[o].lines|
    ensures var b := Run(ops);
            ReceiveLine(b, o, l, quantity, withinLimit).Done?
            <==> b.orders[o].status == Ordered && 1 <= quantity <= Outstanding(b.orders[o].lines[l])
                 && b.orders[o].lines[l].edition.Some? && withinLimit
  {
    var b := Run(ops);
    RunExact(ops);
    var order := b.orders[o];
    assert OrderKept(b, order) && FundExact(b, order.fund) && order.lines[l] in order.lines;
    if order.status == Ordered && 1 <= quantity <= Outstanding(order.lines[l]) {
      ReceiptCosts(order.lines, l, quantity);
      OrderSums(b, o, order, order.fund);
    }
  }

  /** What a receipt records: that many more of the line and nothing else of the order, which is received once nothing
      of it is outstanding; and as many copies, numbered on from those of the line received before. */
  lemma ReceiptShelves(b: Office, o: Id, l: Id, quantity: int, withinLimit: bool)
    requires ReceiveLine(b, o, l, quantity, withinLimit).Done?
    ensures var c, order := ReceiveLine(b, o, l, quantity, withinLimit).after, b.orders[o];
            var line, n := order.lines[l], |b.copies|;
            && |c.orders| == |b.orders| && c.orders == b.orders[o := c.orders[o]] && c.orders[o].fund == order.fund
            && c.orders[o].lines == order.lines[l := line.(received := line.received + quantity)]
            && c.orders[o].status == (if forall x | x in c.orders[o].lines :: x.received >= x.quantity then Received
                                      else order.status)
            && |c.copies| == n + quantity && c.copies[..n] == b.copies
            && forall i | n <= i < n + quantity ::
                 c.copies[i] == Copy(o, l, line.received + 1 + i - n, line.edition.value, line.branch)
  {
    assert forall line: Line :: Outstanding(line) == 0 <==> line.received >= line.quantity;
  }

  /** The clamps at zero never bite: a receipt moves exactly its cost from encumbered to spent, and a cancellation
      releases exactly what is outstanding. */
  lemma ClampsInert(ops: seq<Op>, op: Op)
    requires Apply(Run(ops), op).Done? && (op.OpReceive? || op.OpCancel?)
    ensures var b, c := Run(ops), Step(Run(ops), op);
            var order := b.orders[op.order];
            var before, after := b.funds[order.fund], c.funds[order.fund];
            if op.OpReceive? then
              var cost := op.quantity * order.lines[op.line].unit;
              after.encumbered == before.encumbered - cost && after.spent == before.spent + cost
            else
              && after.spent == before.spent
              && after.encumbered == before.encumbered
                   - (if order.status == Ordered then Sum(order.lines, OutstandingCost) else 0)
  {
    var b := Run(ops);
    RunExact(ops);
    var order := b.orders[op.order];
    assert OrderKept(b, order) && FundExact(b, order.fund);
    OrderSums(b, op.order, order, order.fund);
    if op.OpReceive? {
      assert order.lines[op.line] in order.lines;
      ReceiptCosts(order.lines, op.line, op.quantity);
    }
  }

  /** Placing an order and cancelling it at once leaves every fund as it was. */
  lemma CancelUndoesPlace(ops: seq<Op>, o: Id)
    requires PlaceOrder(Run(ops), o).Done?
    ensures var placed := PlaceOrder(Run(ops), o).after;
            CancelOrder(placed, o).Done? && CancelOrder(placed, o).after.funds == Run(ops).funds
  {
    var b := Run(ops);
    RunExact(ops);
    assert OrderKept(b, b.orders[o]);
    UnreceivedCosts(b.orders[o].lines);
  }

  lemma {:induction false} FullyReceivedCost(lines: seq<Line>)
    requires forall line | line in lines :: line.received == line.quantity
    ensures Sum(lines, ReceivedCost) == Sum(lines, FullCost)
  {
    if lines != [] {
      FullyReceivedCost(lines[..|lines| - 1]);
    }
  }

  /** A fully received order has cost its fund exactly the total it was placed for. */
  lemma ReceivedCostsItsTotal(ops: seq<Op>, o: Id)
    requires o < |Run(ops).orders| && Run(ops).orders[o].status == Received
    ensures Sum(Run(ops).orders[o].lines, ReceivedCost) == Sum(Run(ops).orders[o].lines, FullCost)
  {
    var b := Run(ops);
    RunExact(ops);
    var lines := b.orders[o].lines;
    assert OrderKept(b, b.orders[o]);
    forall line | line in lines ensures line.received == line.quantity { assert Outstanding(line) == 0; }
    FullyReceivedCost(lines);
  }

  // ---------------------------------------------------------------- terms of orders

  /** Exactly when a line is accepted; it is stored as given, and the order's total grows by quantity times unit
      price. */
  lemma LineAdds(b: Office, o: Id, edition: Option<Id>, branch: Id, ours: bool, quantity: int, unit: nat)
    ensures AddLine(b, o, edition, branch, ours, quantity, unit).Done?
            <==> o < |b.orders| && b.orders[o].status == Draft && quantity >= 1 && ours
    ensures AddLine(b, o, edition, branch, ours, quantity, unit).Done? ==>
              var c := AddLine(b, o, edition, branch, ours, quantity, unit).after;
              && c == b.(orders := b.orders[o := b.orders[o].(lines := c.orders[o].lines)])
              && c.orders[o].lines == b.orders[o].lines + [Line(edition, branch, quantity, unit, 0)]
              && Sum(c.orders[o].lines, FullCost) == Sum(b.orders[o].lines, FullCost) + quantity * unit
  {
    if o < |b.orders| && quantity >= 1 {
      var line := Line(edition, branch, quantity, unit, 0);
      SumAppend(b.orders[o].lines, [line], FullCost);
      assert Sum([line], FullCost) == Sum([line][..0], FullCost) + FullCost(line);
    }
  }

  /** Exactly when an order can be placed; its whole total is then committed on its fund and on no other. */
  lemma PlaceCommits(b: Office, o: Id)
    requires o < |b.orders| && b.orders[o].fund < |b.funds|
    ensures var order, fund, total := b.orders[o], b.funds[b.orders[o].fund], Sum(b.orders[o].lines, FullCost);
            && (PlaceOrder(b, o).Done? <==>
                && order.status == Draft && order.lines != []
                && (total == 0 || fund.spent + fund.encumbered + total <= fund.budget))
            && (PlaceOrder(b, o).Done? ==>
                PlaceOrder(b, o).after
                == b.(orders := b.orders[o := order.(status := Ordered)],
                      funds := b.funds[order.fund := fund.(encumbered := fund.encumbered + total)]))
  {
    hide Sum;
  }

  /** An order can be cancelled until it is received in full; a new fund has its whole budget to commit, and a new
      order no lines. */
  lemma OrdersOpenAndClose(b: Office, o: Id, f: Id, ours: bool, budget: nat)
    ensures CancelOrder(b, o).Done?
            <==> o < |b.orders| && b.orders[o].fund < |b.funds| && b.orders[o].status != Received
    ensures CancelOrder(b, o).Done? ==>
              |CancelOrder(b, o).after.orders| == |b.orders|
              && CancelOrder(b, o).after.orders[o] == b.orders[o].(status := Cancelled)
    ensures CreateOrder(b, f, ours).Done? <==> ours && f < |b.funds|
    ensures CreateOrder(b, f, ours).Done? ==>
              CreateOrder(b, f, ours).after == b.(orders := b.orders + [Order(f, Draft, [])])
    ensures CreateFund(b, budget).Done? && CreateFund(b, budget).after.funds[..|b.funds|] == b.funds
    ensures |CreateFund(b, budget).after.funds| == |b.funds| + 1
            && Available(CreateFund(b, budget).after.funds[|b.funds|]) == budget
  {
    hide Sum;
  }
}
