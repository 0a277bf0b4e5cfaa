/** What each circulation transaction does for the people it is for: who gets a freed copy, which loans and holds are
    accepted, and what an accepted one leaves behind. */
module Service {
  import opened Common
  import opened Circulation
  import opened Allocation
  import opened HoldQueue

  // ---------------------------------------------------------------- a freed copy goes to the head of the queue

  /** Hold `h` has copy `c`: reserved until the policy's pickup date at its own branch, otherwise on its way there. */
  predicate Holding(R: Rules, s: State, h: Id, c: Id) {
    && h in s.holds && c in s.copies && s.holds[h].copy == Some(c)
    && var hold, copy := s.holds[h], s.copies[c];
    if copy.branch == hold.branch then
      && copy.status == OnHold && hold.status == Ready && hold.readyAt == s.now
      && hold.expiresAt == s.now + R.pickupDays(hold.patron, copy.edition, copy.branch) * 24 * 3600
    else copy.status == InTransit && hold.status == Waiting
  }

  /** Hold `h` is the first of the title's queue without a copy, by (created_at, id). */
  predicate FirstWaiting(s: State, org: Id, work: Id, h: Id) {
    h in Unserved(s, org, work) && forall g | g in Unserved(s, org, work) :: InTurn(s.holds[h], h, s.holds[g], g)
  }

  /** From `s` to `t` copy `c`, free for its title, went to the first waiting hold; it is on the shelf only if there
      was none. */
  ghost predicate Served(R: Rules, s: State, t: State, c: Id)
    requires c in t.copies
  {
    var org, work := t.copies[c].org, t.copies[c].work;
    if Unserved(s, org, work) == {} then t.copies[c].status == Available
    else exists h :: FirstWaiting(s, org, work, h) && Holding(R, t, h, c)
  }

  lemma OfferServes(R: Rules, s: State, c: Id)
    requires c in s.copies && s.copies[c].status == Available
    ensures c in AssignNext(R, s, c).copies && Served(R, s, AssignNext(R, s, c), c)
  {
    var next := NextHold(s, s.copies[c].org, s.copies[c].work);
    hide NextHold, Give, Holding;
    if next.Some? {
      GiveHolds(R, s, next.value, c);
      assert FirstWaiting(s, s.copies[c].org, s.copies[c].work, next.value);
    }
  }

  lemma GiveHolds(R: Rules, s: State, h: Id, c: Id)
    requires c in s.copies && h in s.holds && s.holds[h].status == Waiting
    ensures Holding(R, Give(R, s, h, c), h, c)
    ensures Give(R, s, h, c).copies == s.copies[c := Give(R, s, h, c).copies[c]]
    ensures Give(R, s, h, c).copies[c].org == s.copies[c].org && Give(R, s, h, c).copies[c].work == s.copies[c].work
    ensures h in Give(R, s, h, c).holds && SameRequest(s.holds[h], Give(R, s, h, c).holds[h])
  {}

  /** The queue of a title without copies is the same before and after an edit that touches no such hold. */
  lemma SameQueue(s: State, u: State, org: Id, work: Id)
    requires forall h :: (h in s.holds && s.holds[h].status == Waiting && s.holds[h].copy.None?)
                         <==> (h in u.holds && u.holds[h].status == Waiting && u.holds[h].copy.None?)
    requires forall h | h in s.holds && s.holds[h].status == Waiting && s.holds[h].copy.None? ::
        u.holds[h] == s.holds[h]
    ensures Unserved(s, org, work) == Unserved(u, org, work)
    ensures forall h :: FirstWaiting(s, org, work, h) <==> FirstWaiting(u, org, work, h)
  {}

  lemma ServedVia(R: Rules, s: State, u: State, t: State, c: Id)
    requires c in t.copies && Served(R, u, t, c)
    requires forall h :: (h in s.holds && s.holds[h].status == Waiting && s.holds[h].copy.None?)
                         <==> (h in u.holds && u.holds[h].status == Waiting && u.holds[h].copy.None?)
    requires forall h | h in s.holds && s.holds[h].status == Waiting && s.holds[h].copy.None? ::
        u.holds[h] == s.holds[h]
    ensures Served(R, s, t, c)
  {
    SameQueue(s, u, t.copies[c].org, t.copies[c].work);
    hide FirstWaiting, Holding;
  }

  /** A returned copy goes to the first hold waiting for its title, and stays on the shelf only if nobody waits. */
  lemma ReturnServes(R: Rules, s: State, l: Id, settle: Option<Id>)
    requires ReturnLoan(R, s, l, settle).Done?
    ensures var t := ReturnLoan(R, s, l, settle).after;
            && s.loans[l].copy in t.copies && Served(R, s, t, s.loans[l].copy)
            && t.copies[s.loans[l].copy].work == s.copies[s.loans[l].copy].work
  {
    var c, back := s.loans[l].copy, TakenBack(R, s, l, settle);
    OfferServes(R, back, c);
    hide AssignNext, Served;
    ServedVia(R, s, back, AssignNext(R, back, c), c);
  }

  /** The state in which a hold whose copy never arrived stands in the queue again. */
  function Requeued(s: State, h: Id): State
    requires h in s.holds
  {
    PutHold(s, h, s.holds[h].(attempts := s.holds[h].attempts + 1, copy := None))
  }

  // ---------------------------------------------------------------- no freed copy idles past a waiting hold

  lemma TransitHold(s: State, c: Id) returns (h: Id)
    requires Allocated(s) && c in s.copies && s.copies[c].status == InTransit
    ensures WaitingFor(s, c) == Some(h) && Assigned(s, c, Waiting) == {h} && h in s.holds
        && s.holds[h].status == Waiting
    ensures s.holds[h].org == s.copies[c].org && s.holds[h].work == s.copies[c].work
  {
    TransitHasHold(s, c);
    hide Allocated, WaitingFor;
    h := WaitingFor(s, c).value;
    assert h in Assigned(s, c, Waiting);
  }

  /** Copy `c` is not left on the shelf while a hold without a copy waits for its title. */
  predicate NotIdle(s: State, c: Id) {
    c in s.copies && (s.copies[c].status == Available ==> Unserved(s, s.copies[c].org, s.copies[c].work) == {})
  }

  lemma InQueue(s: State, org: Id, work: Id, h: Id)
    requires h in Unserved(s, org, work)
    ensures h in s.holds && s.holds[h].status == Waiting
  {}

  lemma OfferNotIdle(R: Rules, s: State, c: Id)
    requires c in s.copies && s.copies[c].status == Available
    ensures var t := AssignNext(R, s, c);
            c in t.copies && t.copies == s.copies[c := t.copies[c]] && NotIdle(t, c)
  {
    var next := NextHold(s, s.copies[c].org, s.copies[c].work);
    hide NextHold, Unserved, Give;
    if next.Some? {
      InQueue(s, s.copies[c].org, s.copies[c].work, next.value);
      GiveHolds(R, s, next.value, c);
    }
  }

  /** Copies come onto the shelf without being offered only when they are new, edited by hand, or back from another
      member. */
  predicate Offering(op: Op) { !op.OpAddCopy? && !op.OpBulkEdit? && !op.OpCheckInIll? && !op.OpCancelIll? }

  /** No other operation leaves a copy newly on the shelf while a hold without a copy waits for its title. */
  lemma FreedNotIdle(R: Rules, s: State, op: Op, c: Id)
    requires Allocated(s) && Offering(op) && c in s.copies && s.copies[c].status != Available
    ensures var t := Step(R, s, op);
            NotIdle(t, c)
  {
    hide Allocated, AssignNext, Unserved, NotIdle, Release, ReturnLoan, Receive, PlaceHold, Offering, CheckIn,
         Borrow, Renew, FlagOverdue, MarkLost, MarkClaimsReturned, ReturnDamaged, RequestIll, Retire, Weed, MoveCopy;
    if Apply(R, s, op).Refused? {
      RefusedNotIdle(R, s, op, c);
    } else {
      match op
      case OpReturn(l, settle) => ReturnNotIdle(R, s, l, settle, c);
      case OpCancelHold(h) => ReleaseNotIdle(R, s, h, Cancelled, c);
      case OpExpireHold(h) => ReleaseNotIdle(R, s, h, Expired, c);
      case OpReceive(d) => ReceiveNotIdle(R, s, d, c);
      case OpCheckIn(d) => CheckInNotIdle(R, s, d, c);
      case OpTimeOut(d, days, most) => TimeOutNotIdle(R, s, d, days, most, c);
      case OpReconcile(d) => OfferNotIdle(R, s, d); OtherNotIdle(s, Step(R, s, op), c, d);
      case OpPlaceHold(p, w, at, st) => PlaceNotFreed(R, s, p, w, at, st, c);
      case _ => OthersNotFreed(R, s, op, c);
    }
  }

  lemma RefusedNotIdle(R: Rules, s: State, op: Op, c: Id)
    requires Apply(R, s, op).Refused? && c in s.copies && s.copies[c].status != Available
    ensures NotIdle(Step(R, s, op), c)
  {}

  lemma OtherNotIdle(s: State, t: State, c: Id, d: Id)
    requires c in s.copies && s.copies[c].status != Available && d in t.copies && t.copies == s.copies[d := t.copies[d]]
    requires NotIdle(t, d)
    ensures NotIdle(t, c)
  {
    hide Unserved;
  }

  lemma ReturnNotIdle(R: Rules, s: State, l: Id, settle: Option<Id>, c: Id)
    requires ReturnLoan(R, s, l, settle).Done? && c in s.copies && s.copies[c].status != Available
    ensures var t := ReturnLoan(R, s, l, settle).after;
            NotIdle(t, c)
  {
    hide AssignNext, Unserved;
    OfferNotIdle(R, TakenBack(R, s, l, settle), s.loans[l].copy);
  }

  lemma ReleaseNotIdle(R: Rules, s: State, h: Id, status: HoldStatus, c: Id)
    requires Reservable(s, h) && c in s.copies && s.copies[c].status != Available
    ensures var t := Release(R, s, h, status);
            NotIdle(t, c)
  {
    hide AssignNext, Unserved;
    if s.holds[h].copy.Some? {
      var d := s.holds[h].copy.value;
      OfferNotIdle(R, SetStatus(PutHold(s, h, s.holds[h].(status := status)), d, Available), d);
    }
  }

  lemma ReceiveNotIdle(R: Rules, s: State, d: Id, c: Id)
    requires Allocated(s) && Receive(R, s, d).Done? && c in s.copies && s.copies[c].status != Available
    ensures NotIdle(Receive(R, s, d).after, c)
  {
    hide Allocated, WaitingFor;
    var h := TransitHold(s, d);
  }

  lemma CheckInNotIdle(R: Rules, s: State, d: Id, c: Id)
    requires Allocated(s) && CheckIn(R, s, d).Done? && c in s.copies && s.copies[c].status != Available
    ensures NotIdle(CheckIn(R, s, d).after, c)
  {
    hide Allocated, Receive, ReturnLoan, NotIdle, First;
    if s.copies[d].status == InTransit {
      ReceiveNotIdle(R, s, d, c);
    } else {
      ReturnNotIdle(R, s, First(map l | l in OpenLoansOn(s, d) :: -s.loans[l].borrowedAt).value, None, c);
    }
  }

  lemma TimeOutNotIdle(R: Rules, s: State, d: Id, days: nat, most: nat, c: Id)
    requires Allocated(s) && TransitStale(s, d, days) && c in s.copies && s.copies[c].status != Available
    ensures var t := Step(R, s, OpTimeOut(d, days, most));
            NotIdle(t, c)
  {
    hide Allocated, WaitingFor, AssignNext, Unserved;
    var h := TransitHold(s, d);
    OfferNotIdle(R, SetStatus(Requeued(s, h), d, Available), d);
  }

  lemma PlaceNotFreed(R: Rules, s: State, patron: Id, work: Id, at: Option<Id>, standing: Standing, c: Id)
    requires PlaceHold(R, s, patron, work, at, standing).Done? && c in s.copies && s.copies[c].status != Available
    ensures NotIdle(PlaceHold(R, s, patron, work, at, standing).after, c)
  {
    hide PlaceHold, Queue;
    var hold, d := PlaceRows(R, s, patron, work, at, standing);
  }

  lemma OthersNotFreed(R: Rules, s: State, op: Op, c: Id)
    requires Apply(R, s, op).Done? && Offering(op) && c in s.copies && s.copies[c].status != Available
    requires !op.OpReturn? && !op.OpCancelHold? && !op.OpExpireHold? && !op.OpReceive? && !op.OpCheckIn?
             && !op.OpTimeOut? && !op.OpReconcile? && !op.OpPlaceHold?
    ensures NotIdle(Step(R, s, op), c)
  {
    hide AlreadyRequested, HeldLocally, LenderShelf, HasTitle, OpenLoans, Queue, ReadyHold, WalkInCopy, OpenLoansOn,
         ReturnLoan, CancelHold, ExpireHold, Receive, CheckIn, TimeOutTransit, Reconcile, PlaceHold, Unserved, First;
  }

  // ---------------------------------------------------------------- returns and releases

  /** A returned loan is closed now and keeps its patron exactly if they keep a history; a floating copy settles. */
  lemma ReturnCloses(R: Rules, s: State, l: Id, settle: Option<Id>)
    requires ReturnLoan(R, s, l, settle).Done?
    ensures var t, c := ReturnLoan(R, s, l, settle).after, s.loans[l].copy;
            && l in t.loans && t.loans == s.loans[l := t.loans[l]] && c in t.copies
            && t.loans[l].status == Returned && t.loans[l].returnedAt == Some(s.now)
            && (t.loans[l].patron == s.loans[l].patron || t.loans[l].patron.None?)
            && (s.loans[l].patron.Some? ==> (t.loans[l].patron.Some? <==> R.retains(s.loans[l].patron.value)))
            && t.copies[c].branch == if settle.Some? && s.copies[c].floating
                 && R.branchOrg(settle.value) == s.copies[c].org
                                     then settle.value else s.copies[c].branch
  {
    var c, back := s.loans[l].copy, TakenBack(R, s, l, settle);
    OfferOnly(R, back, c);
    hide AssignNext;
  }

  lemma OfferOnly(R: Rules, s: State, c: Id)
    requires c in s.copies && s.copies[c].status == Available
    ensures var t := AssignNext(R, s, c);
            t.loans == s.loans && t.now == s.now && t.copies.Keys == s.copies.Keys
            && t.copies[c] == s.copies[c].(status := t.copies[c].status, updatedAt := t.copies[c].updatedAt)
  {
    hide NextHold;
  }

  /** Desk check-in does one or the other: an arriving copy is received, otherwise the latest open loan is returned. */
  lemma CheckInDoes(R: Rules, s: State, c: Id)
    requires CheckIn(R, s, c).Done?
    ensures c in s.copies
    ensures if s.copies[c].status == InTransit then CheckIn(R, s, c) == Receive(R, s, c)
            else exists l :: l in OpenLoansOn(s, c) && CheckIn(R, s, c) == ReturnLoan(R, s, l, None)
                             && forall k | k in OpenLoansOn(s, c) :: s.loans[k].borrowedAt <= s.loans[l].borrowedAt
  {
    hide Receive, ReturnLoan;
    if s.copies[c].status != InTransit {
      var ranks := map l | l in OpenLoansOn(s, c) :: -s.loans[l].borrowedAt;
      var l := First(ranks).value;
      assert forall k | k in OpenLoansOn(s, c) :: k in ranks && NotAfter(ranks, l, k);
    }
  }

  /** A hold that is cancelled or expires gives its copy to the first hold waiting for the title. */
  lemma ReleaseServes(R: Rules, s: State, h: Id, status: HoldStatus)
    requires Reservable(s, h) && s.holds[h].copy.Some? && status in {Cancelled, Expired}
    ensures var t, c := Release(R, s, h, status), s.holds[h].copy.value;
            c in t.copies && Served(R, s, t, c) && h in t.holds && t.holds[h].status == status
  {
    var c := s.holds[h].copy.value;
    var freed := SetStatus(PutHold(s, h, s.holds[h].(status := status)), c, Available);
    OfferServes(R, freed, c);
    NotServedAgain(R, freed, h, c);
    hide AssignNext, Served;
    ServedVia(R, s, freed, AssignNext(R, freed, c), c);
  }

  lemma NotServedAgain(R: Rules, s: State, h: Id, c: Id)
    requires c in s.copies && h in s.holds && s.holds[h].status != Waiting
    ensures h in AssignNext(R, s, c).holds && AssignNext(R, s, c).holds[h] == s.holds[h]
  {
    hide NextHold;
  }

  /** Cancelling works for live holds and expiring for those whose pickup date has passed; either way the copy goes
      on. */
  lemma CancelServes(R: Rules, s: State, h: Id)
    requires Reservable(s, h)
    ensures CancelHold(R, s, h).Done? <==> s.holds[h].status in {Waiting, Ready}
    ensures CancelHold(R, s, h).Done? && s.holds[h].copy.Some? ==>
              var t, c := CancelHold(R, s, h).after, s.holds[h].copy.value;
              c in t.copies && Served(R, s, t, c) && h in t.holds && t.holds[h].status == Cancelled
  {
    hide Release, Served;
    if s.holds[h].copy.Some? { ReleaseServes(R, s, h, Cancelled); }
  }

  lemma ExpireServes(R: Rules, s: State, h: Id)
    requires Reservable(s, h)
    ensures ExpireHold(R, s, h).Done? <==> s.holds[h].status == Ready && s.holds[h].expiresAt <= s.now
    ensures ExpireHold(R, s, h).Done? && s.holds[h].copy.Some? ==>
              var t, c := ExpireHold(R, s, h).after, s.holds[h].copy.value;
              c in t.copies && Served(R, s, t, c) && h in t.holds && t.holds[h].status == Expired
  {
    hide Release, Served;
    if s.holds[h].copy.Some? { ReleaseServes(R, s, h, Expired); }
  }

  lemma ServedNotLeft(R: Rules, s: State, t: State, c: Id, h: Id)
    requires c in t.copies && Served(R, s, t, c) && h in Unserved(s, t.copies[c].org, t.copies[c].work)
    ensures t.copies[c].status in {OnHold, InTransit}
  {}

  /** A copy too long in transit is put back and goes to the first waiting hold, the one it never reached among them;
      after the last attempt it is pulled for repair instead. */
  lemma TimeOutServes(R: Rules, s: State, c: Id, maxDays: nat, maxAttempts: nat, h: Id)
    requires Allocated(s) && TransitStale(s, c, maxDays) && h in Assigned(s, c, Waiting)
    ensures var t := Step(R, s, OpTimeOut(c, maxDays, maxAttempts));
            && c in t.copies
            && if s.holds[h].attempts + 1 >= maxAttempts then
                 t.copies[c].status == Repair && t.holds == Requeued(s, h).holds
               else Served(R, Requeued(s, h), t, c) && t.copies[c].status in {OnHold, InTransit}
  {
    hide Allocated, WaitingFor, AssignNext, Served;
    var g := TransitHold(s, c);
    assert h in {g};
    if s.holds[h].attempts + 1 < maxAttempts {
      PutBackServes(R, s, c, h);
    }
  }

  /** A copy in transit for nobody is put back and goes to the first waiting hold too. */
  lemma OrphanServes(R: Rules, s: State, c: Id, maxDays: nat, maxAttempts: nat)
    requires TransitStale(s, c, maxDays) && Assigned(s, c, Waiting) == {}
    ensures var t := Step(R, s, OpTimeOut(c, maxDays, maxAttempts));
            c in t.copies && Served(R, s, t, c)
  {
    hide AssignNext, Served, WaitingFor;
    var freed := SetStatus(s, c, Available);
    OfferServes(R, freed, c);
    ServedVia(R, s, freed, AssignNext(R, freed, c), c);
  }

  lemma PutBackServes(R: Rules, s: State, c: Id, h: Id)
    requires c in s.copies && h in s.holds && s.holds[h].status == Waiting
    requires s.holds[h].org == s.copies[c].org && s.holds[h].work == s.copies[c].work
    ensures var t := AssignNext(R, SetStatus(Requeued(s, h), c, Available), c);
            c in t.copies && Served(R, Requeued(s, h), t, c) && t.copies[c].status in {OnHold, InTransit}
  {
    hide AssignNext, Served;
    var freed := SetStatus(Requeued(s, h), c, Available);
    var t := AssignNext(R, freed, c);
    OfferServes(R, freed, c);
    OfferOnly(R, freed, c);
    ServedVia(R, Requeued(s, h), freed, t, c);
    ServedNotLeft(R, Requeued(s, h), t, c, h);
  }

  // ---------------------------------------------------------------- borrowing

  /** The patron has a reserved hold on the title. */
  predicate HasReady(s: State, patron: Id, org: Id, work: Id) {
    exists h :: h in LiveHolds(s, patron, org) && s.holds[h].status == Ready && s.holds[h].work == work
  }

  lemma ReadyIsOnHold(s: State, h: Id)
    requires Allocated(s) && h in s.holds && s.holds[h].status == Ready
    ensures s.holds[h].copy.Some? && s.holds[h].copy.value in s.copies
        && s.copies[s.holds[h].copy.value].status == OnHold
  {
    AllocatedIsExclusive(s);
    hide Allocated;
  }

  /** Copy `c` may be handed out: published, visible and on the shelf, at the branch if one is named. */
  predicate Offerable(s: State, org: Id, work: Id, branch: Option<Id>, c: Id) {
    && c in s.copies && s.copies[c].org == org && s.copies[c].work == work && s.copies[c].status == Available
    && s.copies[c].published && s.copies[c].visible && (branch.Some? ==> s.copies[c].branch == branch.value)
  }

  ghost predicate AnyOfferable(s: State, org: Id, work: Id, branch: Option<Id>) {
    exists c :: Offerable(s, org, work, branch, c)
  }

  lemma ShelfOfferable(s: State, org: Id, work: Id, branch: Option<Id>)
    ensures forall c :: c in Shelf(s, org, work, branch) <==> Offerable(s, org, work, branch, c)
    ensures Shelf(s, org, work, branch) != {} <==> AnyOfferable(s, org, work, branch)
    ensures Shelf(s, org, work, branch) <= s.copies.Keys
  {
    if c :| Offerable(s, org, work, branch, c) {
      assert c in Shelf(s, org, work, branch);
    }
  }

  /** Exactly when a loan is accepted: good standing, fines and duplicates unless overridden by an actor, the loan
      limit in any case, and either a hold that is ready or, with nobody waiting unless overridden, a copy on the
      shelf. */
  lemma BorrowAccepted(R: Rules, s: State, patron: Id, work: Id, at: Option<Id>, override: bool, actor: bool,
                       standing: Standing, fallback: bool)
    requires Allocated(s)
    ensures var org, branch := R.orgOf(patron), if at.Some? then at else R.homeOf(patron);
            Borrow(R, s, patron, work, at, override, actor, standing, fallback).Done?
            <==>
            && standing.active && (override ==> actor) && (standing.finesTooHigh ==> override)
            && |OpenLoans(s, patron, org)| < R.maxLoans(patron) && (HasTitle(s, patron, org, work) ==> override)
            && (HasReady(s, patron, org, work)
                || ((Queue(s, org, work) != {} ==> override) 
                    && (AnyOfferable(s, org, work, branch) || (fallback && AnyOfferable(s, org, work, None)))))
  {
    ShelfOfferable(s, R.orgOf(patron), work, if at.Some? then at else R.homeOf(patron));
    ShelfOfferable(s, R.orgOf(patron), work, None);
    hide Offerable, AnyOfferable, Shelf;
    var ready := ReadyHold(s, patron, R.orgOf(patron), work);
    if ready.Some? {
      ReadyIsOnHold(s, ready.value);
      assert HasReady(s, patron, R.orgOf(patron), work);
    }
    hide Allocated, OpenLoans, HasTitle, Queue, CheckOut;
  }

  /** An accepted loan: the patron has the copy reserved for them, their hold being fulfilled by the loan, or else one
      from the shelf, of their branch if it has any; it is due after the policy's loan period and nothing else
      changes. */
  lemma BorrowLends(R: Rules, s: State, patron: Id, work: Id, at: Option<Id>, override: bool, actor: bool,
                    standing: Standing, fallback: bool) returns (c: Id)
    requires Borrow(R, s, patron, work, at, override, actor, standing, fallback).Done?
    ensures c in s.copies
    ensures var t := Borrow(R, s, patron, work, at, override, actor, standing, fallback).after;
            var org, branch := R.orgOf(patron), if at.Some? then at else R.homeOf(patron);
            var due := s.now + R.loanDays(Some(patron), s.copies[c].edition, s.copies[c].branch) * 24 * 3600;
            && t.loans == s.loans[s.nextLoan := Loan(org, c, Some(patron), s.now, due, None, Active, 0)]
            && t.copies == s.copies[c := s.copies[c].(status := Loaned, updatedAt := s.now)]
            && if HasReady(s, patron, org, work) then
                 exists h :: h in LiveHolds(s, patron, org) && s.holds[h].work == work && s.holds[h].copy == Some(c)
                             && t.holds == s.holds[h := s.holds[h].(status := Fulfilled, loan := Some(s.nextLoan))]
               else
                 Offerable(s, org, work, if AnyOfferable(s, org, work, branch) then branch else None, c)
                     && t.holds == s.holds
  {
    hide HasTitle, OpenLoans, Queue, Offerable, AnyOfferable, Shelf;
    var org := R.orgOf(patron);
    ShelfOfferable(s, org, work, if at.Some? then at else R.homeOf(patron));
    ShelfOfferable(s, org, work, None);
    var ready := ReadyHold(s, patron, org, work);
    if ready.Some? {
      c := s.holds[ready.value].copy.value;
      assert HasReady(s, patron, org, work);
    } else {
      c := WalkInCopy(R, s, org, work, if at.Some? then at else R.homeOf(patron), fallback).value;
    }
    hide ReadyHold, WalkInCopy;
  }

  // ---------------------------------------------------------------- placing holds

  /** Exactly when a hold is accepted. */
  lemma PlaceAccepted(R: Rules, s: State, patron: Id, work: Id, at: Option<Id>, standing: Standing)
    ensures var org := R.orgOf(patron);
            PlaceHold(R, s, patron, work, at, standing).Done?
            <==>
            && standing.active && (at.Some? || R.homeOf(patron).Some?) && R.holdable(patron, work)
            && (exists c :: c in s.copies && s.copies[c].org == org && s.copies[c].work == work
                            && s.copies[c].status != Lost)
            && |LiveHolds(s, patron, org)| < R.maxHolds(patron)
            && (forall h | h in LiveHolds(s, patron, org) :: s.holds[h].work != work)
  {
    hide OfferedCopy, Queue;
  }

  /** A new hold gets a copy at once exactly when nobody waits for the title and a public copy is on the shelf, one of
      the pickup branch if it has any; otherwise it waits without one and nothing else changes. */
  lemma PlaceServes(R: Rules, s: State, patron: Id, work: Id, at: Option<Id>, standing: Standing)
      returns (c: Option<Id>)
    requires PlaceHold(R, s, patron, work, at, standing).Done?
    ensures var t, h := PlaceHold(R, s, patron, work, at, standing).after, s.nextHold;
            var org, branch := R.orgOf(patron), if at.Some? then at else R.homeOf(patron);
            && h in t.holds && t.holds[h].patron == patron && t.holds[h].org == org && t.holds[h].work == work
            && Some(t.holds[h].branch) == branch && t.holds[h].createdAt == s.now
            && (c.Some? <==> Queue(s, org, work) == {} && AnyOfferable(s, org, work, None))
            && if c.None? then t.holds[h].status == Waiting && t.holds[h].copy.None? && t.copies == s.copies
               else Offerable(s, org, work, if AnyOfferable(s, org, work, branch) then branch else None, c.value)
                    && Holding(R, t, h, c.value)
  {
    hide HasHoldableCopy, AlreadyHolds, LiveHolds, Queue, Shelf, Offerable, AnyOfferable;
    var org, branch := R.orgOf(patron), (if at.Some? then at else R.homeOf(patron)).value;
    ShelfOfferable(s, org, work, Some(branch));
    ShelfOfferable(s, org, work, None);
    var offered := OfferedCopy(R, s, org, work, branch);
    c := if Queue(s, org, work) != {} then None else offered;
    hide OfferedCopy, Give, Holding;
    if c.Some? {
      ShelfCopies(s, org, work, c.value);
      var queued := Enqueue(s, Hold(org, work, patron, branch, None, None, s.now, 0, 0, Waiting, 0));
      GiveHolds(R, queued, s.nextHold, c.value);
    }
  }

  lemma ShelfCopies(s: State, org: Id, work: Id, c: Id)
    requires c in Shelf(s, org, work, None)
    ensures c in s.copies && s.copies[c].status == Available
  {}

  // ---------------------------------------------------------------- arrivals, lost and damaged copies, renewals

  /** An arriving copy is reserved for the hold it travelled to, at that hold's branch, or put on the shelf if there
      is none. */
  lemma ReceiveReadies(R: Rules, s: State, c: Id)
    requires c in s.copies
    ensures Receive(R, s, c).Done? <==> s.copies[c].status == InTransit
    ensures Receive(R, s, c).Done? ==>
              var t := Receive(R, s, c).after;
              && c in t.copies
              && if Assigned(s, c, Waiting) == {} then t.copies[c].status == Available && t.holds == s.holds
                 else exists h :: h in Assigned(s, c, Waiting) && t.copies[c].branch == s.holds[h].branch
                                  && Holding(R, t, h, c)
  {
    var hold := WaitingFor(s, c);
    hide WaitingFor;
    if Receive(R, s, c).Done? && hold.Some? {
      assert Holding(R, Receive(R, s, c).after, hold.value, c);
    }
  }

  /** Lost, claimed returned or damaged: the loan is closed with that mark and its copy taken off the shelf. */
  lemma ReportCloses(R: Rules, s: State, op: Op)
    requires op.OpLost? || op.OpClaimsReturned? || op.OpDamaged?
    requires Allocated(s) && op.loan in s.loans
    ensures Apply(R, s, op).Done? <==> Open(s.loans[op.loan]) && (s.loans[op.loan].patron.Some? || op.OpClaimsReturned?)
    ensures Apply(R, s, op).Done? ==>
              var t, c := Apply(R, s, op).after, s.loans[op.loan].copy;
              && op.loan in t.loans && t.loans == s.loans[op.loan := t.loans[op.loan]]
              && t.loans[op.loan].status
                 == (if op.OpLost? then LoanLost else if op.OpClaimsReturned? then ClaimsReturned else Returned)
              && (op.OpDamaged? ==> t.loans[op.loan].returnedAt == Some(s.now))
              && c in s.copies && c in t.copies && t.copies == s.copies[c := t.copies[c]]
              && t.copies[c].status == (if op.OpDamaged? then Repair else Lost)
  {
    if Open(s.loans[op.loan]) {
      OpenLoanIsLoaned(s, op.loan);
    }
    LoanHasCopy(s, op.loan);
    hide Allocated;
  }

  lemma LoanHasCopy(s: State, l: Id)
    requires Allocated(s) && l in s.loans
    ensures s.loans[l].copy in s.copies
  {
    AllocatedIsExclusive(s);
    hide Allocated;
  }

  /** Exactly when a renewal is accepted, and what it changes: the due date counts on from the later of due and now. */
  lemma RenewAccepted(R: Rules, s: State, l: Id, standing: Standing)
    requires Allocated(s) && l in s.loans
    ensures s.loans[l].copy in s.copies
    ensures var loan, copy := s.loans[l], s.copies[s.loans[l].copy];
            && (Renew(R, s, l, standing).Done? <==>
                && Open(loan) && (loan.patron.Some? ==> standing.active)
                && loan.renewals < R.maxRenewals(loan.patron, copy.edition, copy.branch)
                && Queue(s, loan.org, copy.work) == {})
            && (Renew(R, s, l, standing).Done? ==>
                var days := R.loanDays(loan.patron, copy.edition, copy.branch);
                Renew(R, s, l, standing).after
                == PutLoan(s, l, loan.(dueAt := Max(loan.dueAt, s.now) + days * 24 * 3600, status := Active,
                                       renewals := loan.renewals + 1)))
  {
    LoanHasCopy(s, l);
    hide Allocated, Queue;
  }

  // ---------------------------------------------------------------- inter-library requests

  /** Copy `c` can be lent to `borrower` through the consortium: another member that lends has it on the shelf. */
  predicate Lends(R: Rules, s: State, consortium: Id, work: Id, borrower: Id, c: Id) {
    && c in s.copies && s.copies[c].work == work && s.copies[c].status == Available && s.copies[c].visible
    && R.lends(consortium, s.copies[c].org) && s.copies[c].org != borrower
  }

  lemma LendersLend(R: Rules, s: State, consortium: Id, work: Id, borrower: Id)
    ensures forall c :: c in LenderShelf(R, s, consortium, work, borrower)
                        <==> Lends(R, s, consortium, work, borrower, c)
  {}

  /** Exactly when a request is accepted: by an active patron of a borrowing member of a consortium that allows it, who
      has no open request for the title already, and whose organization has no copy on the shelf. */
  lemma RequestAccepted(R: Rules, s: State, patron: Id, work: Id, consortium: Id, standing: Standing)
    ensures var org := R.orgOf(patron);
            RequestIll(R, s, patron, work, consortium, standing).Done?
            <==>
            && standing.active && R.allowsIll(consortium) && R.borrows(consortium, org)
            && (forall i | i in s.ills && s.ills[i].patron == Some(patron) && s.ills[i].work == work ::
                  s.ills[i].status in {Completed, IllCancelled})
            && (forall c | c in s.copies && s.copies[c].org == org && s.copies[c].work == work ::
                  s.copies[c].status != Available || !s.copies[c].visible)
  {
    hide LenderShelf, IssueIll, First;
  }

  lemma FirstLenderFound(R: Rules, s: State, consortium: Id, work: Id, borrower: Id) returns (lender: Option<Id>)
    ensures lender == First(map c | c in LenderShelf(R, s, consortium, work, borrower) :: s.copies[c].org)
    ensures lender.None? <==> forall c :: !Lends(R, s, consortium, work, borrower, c)
    ensures lender.Some? ==> lender.value in s.copies && FirstLender(R, s, consortium, work, borrower, lender.value)
  {
    LendersLend(R, s, consortium, work, borrower);
    var lenders := LenderShelf(R, s, consortium, work, borrower);
    assert lenders <= s.copies.Keys;
    hide LenderShelf, Lends;
    var ranks := map c | c in lenders :: s.copies[c].org;
    assert ranks.Keys == lenders;
    lender := First(ranks);
    if lender.Some? {
      assert forall d | d in lenders :: d in ranks && NotAfter(ranks, lender.value, d);
    } else {
      assert lenders == {};
    }
  }

  /** An accepted request reserves the copy of another member that can be lent, lowest by (organization, id), if there
      is one, and is recorded unfilled otherwise. */
  lemma RequestServes(R: Rules, s: State, patron: Id, work: Id, consortium: Id, standing: Standing)
    requires RequestIll(R, s, patron, work, consortium, standing).Done?
    ensures var t, org := RequestIll(R, s, patron, work, consortium, standing).after, R.orgOf(patron);
            && s.nextIll in t.ills && t.ills == s.ills[s.nextIll := t.ills[s.nextIll]]
            && t.ills[s.nextIll].org == org && t.ills[s.nextIll].patron == Some(patron)
            && t.ills[s.nextIll].work == work
            && if forall c :: !Lends(R, s, consortium, work, org, c)
               then t.ills[s.nextIll].status == Unfilled && t.copies == s.copies
               else exists c :: FirstLender(R, s, consortium, work, org, c) && t.ills[s.nextIll].status == Requested
                                && t.ills[s.nextIll].copy == Some(c) && c in s.copies
                                && t.copies == s.copies[c := s.copies[c].(status := Ill, updatedAt := s.now)]
  {
    hide AlreadyRequested, HeldLocally, LenderShelf, Lends, FirstLender, First;
    var lender := FirstLenderFound(R, s, consortium, work, R.orgOf(patron));
  }

  predicate FirstLender(R: Rules, s: State, consortium: Id, work: Id, borrower: Id, c: Id) {
    Lends(R, s, consortium, work, borrower, c)
    && forall d | d in s.copies && Lends(R, s, consortium, work, borrower, d) ::
        s.copies[c].org < s.copies[d].org || (s.copies[c].org == s.copies[d].org && c <= d)
  }

  /** A request goes requested, shipped, on loan, returning, completed; it can be cancelled until it is on
      loan. Closing it puts its copy back on the shelf if that is still out for it, and forgets patrons who
      keep no history. */
  lemma IllMovesOn(R: Rules, s: State, op: Op)
    requires op.OpShipIll? || op.OpReceiveIll? || op.OpReturnIll? || op.OpCheckInIll? || op.OpCancelIll?
    requires op.ill in s.ills
    ensures var from := s.ills[op.ill].status;
            Apply(R, s, op).Done? <==>
              match op
              case OpShipIll(_) => from == Requested
              case OpReceiveIll(_) => from == Shipped
              case OpReturnIll(_) => from == OnLoan
              case OpCheckInIll(_) => from == Returning
              case _ => from in {Unfilled, Requested, Shipped}
    ensures Apply(R, s, op).Done? ==>
              var t, ill := Apply(R, s, op).after, s.ills[op.ill];
              && op.ill in t.ills && t.ills == s.ills[op.ill := t.ills[op.ill]] && t.loans == s.loans
                   && t.holds == s.holds
              && t.ills[op.ill].copy == ill.copy && t.ills[op.ill].work == ill.work && t.ills[op.ill].org == ill.org
              && t.ills[op.ill].status == (match op
                                           case OpShipIll(_) => Shipped
                                           case OpReceiveIll(_) => OnLoan
                                           case OpReturnIll(_) => Returning
                                           case OpCheckInIll(_) => Completed
                                           case _ => IllCancelled)
              && if op.OpCheckInIll? || op.OpCancelIll? then
                   && t.ills[op.ill].patron == Scrubbed(R, ill.patron)
                   && if ill.copy.Some? && ill.copy.value in s.copies && s.copies[ill.copy.value].status == Ill
                      then t.copies == s.copies[ill.copy.value :=
                                                  s.copies[ill.copy.value].(status := Available, updatedAt := s.now)]
                      else t.copies == s.copies
                 else t.ills[op.ill].patron == ill.patron && t.copies == s.copies
  {}

  // ---------------------------------------------------------------- copies

  /** The sweeps act on exactly these copies: those in transit for longer than allowed, and visible ones on the
      shelf, which go to the first waiting hold. */
  lemma SweepsTake(R: Rules, s: State, c: Id, maxDays: nat, maxAttempts: nat)
    ensures TimeOutTransit(R, s, c, maxDays, maxAttempts).Done?
            <==> c in s.copies && s.copies[c].status == InTransit && s.copies[c].updatedAt + maxDays * 24 * 3600 < s.now
    ensures Reconcile(R, s, c).Done? <==> c in s.copies && s.copies[c].status == Available && s.copies[c].visible
    ensures Reconcile(R, s, c).Done? ==>
              c in Reconcile(R, s, c).after.copies && Served(R, s, Reconcile(R, s, c).after, c)
  {
    hide AssignNext, DropTransit, Served;
    if Reconcile(R, s, c).Done? { OfferServes(R, s, c); }
  }

  /** A copy is weeded unless somebody has a claim on it, and edited in bulk only while on the shelf or in repair, to
      one of these two; what is not named in the edit stays as it is. */
  lemma CopiesInBulk(s: State, c: Id, status: Option<CopyStatus>, visible: Option<bool>)
    requires c in s.copies
    ensures Weed(s, c).Done? <==> s.copies[c].status !in {Loaned, OnHold, InTransit, Ill}
    ensures Weed(s, c).Done? ==>
              Weed(s, c).after == PutCopy(s, c, s.copies[c].(status := Retired, visible := false, updatedAt := s.now))
    ensures BulkEdit(s, c, status, visible).Done?
            <==> s.copies[c].status in {Available, Repair} && status in {None, Some(Available), Some(Repair)}
    ensures BulkEdit(s, c, status, visible).Done? ==>
              var t := BulkEdit(s, c, status, visible).after;
              && c in t.copies && t == s.(copies := s.copies[c := t.copies[c]])
              && t.copies[c] == s.copies[c].(status := t.copies[c].status, visible := t.copies[c].visible,
                                             updatedAt := t.copies[c].updatedAt)
              && Some(t.copies[c].status) == (if status.None? then Some(s.copies[c].status) else status)
              && Some(t.copies[c].visible) == (if visible.None? then Some(s.copies[c].visible) else visible)
  {}

  /** A new copy is on the shelf of the given branch, as visible, published and floating as it was entered. */
  lemma CopyAdded(s: State, org: Id, work: Id, edition: Id, branch: Id, barcode: Id, visible: bool, published: bool,
                  floating: bool)
    ensures AddCopy(s, org, work, edition, branch, barcode, visible, published, floating).Done?
    ensures var t, c := AddCopy(s, org, work, edition, branch, barcode, visible, published, floating).after, s.nextCopy;
            && c in t.copies && t == s.(copies := s.copies[c := t.copies[c]], nextCopy := c + 1)
            && t.copies[c].status == Available && t.copies[c].updatedAt == s.now
            && t.copies[c].org == org && t.copies[c].work == work && t.copies[c].edition == edition
            && t.copies[c].branch == branch && t.copies[c].barcode == barcode && t.copies[c].visible == visible
            && t.copies[c].published == published && t.copies[c].floating == floating
  {}

  /** A copy is retired unless it is lent, held or travelling, and moved unless it is in flight; only it changes. */
  lemma CopiesEdited(R: Rules, s: State, c: Id, to: Id)
    requires c in s.copies
    ensures Retire(s, c).Done? <==> OpenLoansOn(s, c) == {} && s.copies[c].status !in {OnHold, InTransit}
    ensures Retire(s, c).Done? ==>
              Retire(s, c).after == PutCopy(s, c, s.copies[c].(status := Retired, visible := false, updatedAt := s.now))
    ensures MoveCopy(s, c, to).Done? <==> s.copies[c].status !in {Loaned, OnHold, InTransit}
    ensures MoveCopy(s, c, to).Done? ==>
              var t := MoveCopy(s, c, to).after;
              && c in t.copies && t.copies == s.copies[c := t.copies[c]] && t.copies[c].branch == to
              && t.copies[c].(branch := s.copies[c].branch, updatedAt := s.copies[c].updatedAt) == s.copies[c]
  {
    assert s.copies[c := s.copies[c]] == s.copies;
  }

  /** Exactly the active loans past their due date are marked overdue. */
  lemma OverdueFlagged(s: State, l: Id)
    requires l in s.loans
    ensures FlagOverdue(s).Done? && l in FlagOverdue(s).after.loans
    ensures FlagOverdue(s).after.loans[l]
         == if s.loans[l].status == Active && s.loans[l].dueAt < s.now then s.loans[l].(status := Overdue)
             else s.loans[l]
  {}
}
