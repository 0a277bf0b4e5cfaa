/** The acquisitions office as it runs: funds, orders and shelved copies updated in place. */
module AcquisitionsDesk {
  import opened Common
  import opened Acquisitions

  datatype Reply = Ok | Denied(error: Refusal)

  predicate Follows(op: Op, before: Office, after: Office, r: Reply) {
    match Apply(before, op)
    case Done(b) => r == Ok && after == b
    case Refused(e) => r == Denied(e) && after == before
  }

  lemma FollowsKeeps(op: Op, before: Office, after: Office, r: Reply)
    requires Exact(before) && CopiesExact(before) && Follows(op, before, after, r)
    ensures Exact(after) && CopiesExact(after)
  {
    hide Exact, CopiesExact, Apply;
    StepExact(before, op);
    StepCopies(before, op);
  }

  class Purchasing {
    var funds: seq<Fund>
    var orders: seq<Order>
    var copies: seq<Copy>

    function Tables(): Office
      reads this
    {
      Office(funds, orders, copies)
    }

    constructor ()
      ensures Tables() == EMPTY
    {
      funds, orders, copies := [], [], [];
    }

    method CreateFund(budget: nat) returns (f: Id)
      modifies this`funds
      ensures f == |old(funds)| && Follows(OpFund(budget), old(Tables()), Tables(), Ok)
    {
      f := |funds|;
      funds := funds + [Fund(budget, 0, 0)];
    }

    method CreatePurchaseOrder(fund: Id, ours: bool) returns (r: Reply)
      modifies this`orders
      ensures Follows(OpOrder(fund, ours), old(Tables()), Tables(), r)
    {
      if !ours { return Denied(NotOurs); }
      if fund >= |funds| { return Denied(NoSuchRow); }
      orders := orders + [Order(fund, Draft, [])];
      return Ok;
    }

    method AddLine(o: Id, edition: Option<Id>, branch: Id, ours: bool, quantity: int, unit: nat) returns (r: Reply)
      modifies this`orders
      ensures Follows(OpLine(o, edition, branch, ours, quantity, unit), old(Tables()), Tables(), r)
    {
      if o >= |orders| { return Denied(NoSuchRow); }
      if orders[o].status != Draft { return Denied(NotDraft); }
      if quantity < 1 { return Denied(BadQuantity); }
      if !ours { return Denied(NotOurs); }
      orders := orders[o := orders[o].(lines := orders[o].lines + [Line(edition, branch, quantity, unit, 0)])];
      return Ok;
    }

    /** Commit `cents` of a fund, if that much of its budget is neither spent nor committed. */
    method Encumber(f: Id, cents: nat) returns (enough: bool)
      requires f < |funds|
      modifies this`funds
      ensures enough <==> cents == 0 || cents <= Available(old(funds)[f])
      ensures funds == if enough then old(funds)[f := old(funds)[f].(encumbered := old(funds)[f].encumbered + cents)]
                       else old(funds)
    {
      if cents <= 0 { return true; }
      if Available(funds[f]) < cents { return false; }
      funds := funds[f := funds[f].(encumbered := funds[f].encumbered + cents)];
      return true;
    }

    method PlaceOrder(o: Id) returns (r: Reply)
      modifies this`funds, this`orders
      ensures Follows(OpPlace(o), old(Tables()), Tables(), r)
    {
      if o >= |orders| || orders[o].fund >= |funds| { return Denied(NoSuchRow); }
      if orders[o].status != Draft { return Denied(NotDraft); }
      if orders[o].lines == [] { return Denied(NoLines); }
      var enough := Encumber(orders[o].fund, Sum(orders[o].lines, FullCost));
      if !enough { return Denied(OverBudget); }
      orders := orders[o := orders[o].(status := Ordered)];
      return Ok;
    }

    method ReceiveLine(o: Id, l: Id, quantity: int, withinLimit: bool) returns (r: Reply)
      modifies this
      ensures Follows(OpReceive(o, l, quantity, withinLimit), old(Tables()), Tables(), r)
    {
      if o >= |orders| || l >= |orders[o].lines| || orders[o].fund >= |funds| { return Denied(NoSuchRow); }
      var order := orders[o];
      var line := order.lines[l];
      if order.status !in {Ordered, Received} { return Denied(NotOrdered); }
      if quantity < 1 || quantity > Outstanding(line) { return Denied(BadQuantity); }
      if line.edition.None? { return Denied(NoEdition); }
      if !withinLimit { return Denied(CopyLimit); }
      var fund := funds[order.fund];
      var cost := quantity * line.unit;
      if fund.spent + cost > fund.budget { return Denied(OverBudget); }
      var n := 0;
      while n < quantity
        invariant 0 <= n <= quantity
        invariant copies == old(copies) + Shelved(o, l, line, quantity)[..n]
        invariant funds == old(funds) && orders == old(orders)
      {
        copies := copies + [Copy(o, l, line.received + n + 1, line.edition.value, line.branch)];
        n := n + 1;
      }
      funds := funds[order.fund := fund.(encumbered := Max(0, fund.encumbered - cost), spent := fund.spent + cost)];
      var lines := order.lines[l := line.(received := line.received + quantity)];
      orders := orders[o := order.(lines := lines)];
      if AllReceived(lines) {
        orders := orders[o := orders[o].(status := Received)];
      }
      return Ok;
    }

    method CancelOrder(o: Id) returns (r: Reply)
      modifies this`funds, this`orders
      ensures Follows(OpCancel(o), old(Tables()), Tables(), r)
    {
      if o >= |orders| || orders[o].fund >= |funds| { return Denied(NoSuchRow); }
      var order := orders[o];
      if order.status == Received { return Denied(AlreadyReceived); }
      if order.status == Ordered {
        var fund := funds[order.fund];
        funds := funds[order.fund := fund.(encumbered := Max(0, fund.encumbered - Sum(order.lines, OutstandingCost)))];
      }
      orders := orders[o := order.(status := Cancelled)];
      return Ok;
    }
  }
}
