/** What a run of the desk keeps beyond allocation: rows keep their identity, the hold queue is
    served in order, borrowing and hold limits are never passed, and lost transits stop. */
module HoldQueue {
  import opened Common
  import opened Circulation
  import opened Allocation

  // ---------------------------------------------------------------- rows keep their identity

  predicate SameItem(a: Copy, b: Copy) {
    && b.org == a.org && b.work == a.work && b.edition == a.edition && b.barcode == a.barcode
    && (a.status == Retired ==> b.status == Retired)
    && (a.status == Loaned && b.status == Loaned ==> b.branch == a.branch)
  }

  predicate SameLoan(a: Loan, b: Loan) {
    b.org == a.org && b.copy == a.copy && b.borrowedAt == a.borrowedAt && (Open(b) ==> Open(a) && b.patron == a.patron)
  }

  predicate SameRequest(a: Hold, b: Hold) {
    && b.org == a.org && b.work == a.work && b.patron == a.patron && b.branch == a.branch && b.createdAt == a.createdAt
    && (Live(b) ==> Live(a))
  }

  predicate CopiesPersist(s: State, t: State) {
    forall c | c in s.copies :: c in t.copies && SameItem(s.copies[c], t.copies[c])
  }

  predicate LoansPersist(s: State, t: State) {
    forall l | l in s.loans :: l in t.loans && SameLoan(s.loans[l], t.loans[l])
  }

  predicate HoldsPersist(s: State, t: State) {
    forall h | h in s.holds :: h in t.holds && SameRequest(s.holds[h], t.holds[h])
  }

  /** From `s` to `t` the free copy `c` is offered to one hold; nothing else changes. */
  predicate OnlyOffered(s: State, t: State, c: Id)
    requires c in s.copies
  {
    && t.loans == s.loans && t.ills == s.ills && t.now == s.now && t.nextHold == s.nextHold
    && c in t.copies && t.copies == s.copies[c := t.copies[c]]
    && SameItem(s.copies[c], t.copies[c]) && t.copies[c].status in {Available, OnHold, InTransit}
    && t.copies[c].updatedAt in {s.copies[c].updatedAt, s.now}
    && t.holds.Keys == s.holds.Keys && HoldsPersist(s, t)
    && (forall h | h in s.holds :: t.holds[h].attempts == s.holds[h].attempts)
  }

  lemma GiveEffect(R: Rules, s: State, h: Id, c: Id)
    requires c in s.copies && s.copies[c].status == Available && h in s.holds && Live(s.holds[h])
    ensures OnlyOffered(s, Give(R, s, h, c), c)
  {
    var t := Give(R, s, h, c);
    assert t.copies == s.copies[c := t.copies[c]] && t.holds == s.holds[h := t.holds[h]];
    assert SameRequest(s.holds[h], t.holds[h]);
    hide Give;
  }

  lemma AssignNextEffect(R: Rules, s: State, c: Id)
    requires c in s.copies && s.copies[c].status == Available
    ensures OnlyOffered(s, AssignNext(R, s, c), c)
  {
    var next := NextHold(s, s.copies[c].org, s.copies[c].work);
    if next.Some? {
      GiveEffect(R, s, next.value, c);
      hide Give;
    }
  }

  lemma ClaimedCopyIsHeld(s: State, h: Id)
    requires Allocated(s) && h in s.holds && Claiming(s.holds[h])
    ensures s.holds[h].copy.Some? && s.holds[h].copy.value in s.copies
    ensures s.copies[s.holds[h].copy.value].status in {OnHold, InTransit}
  {
    AllocatedIsExclusive(s);
    hide Allocated;
    assert Suits(s.copies[s.holds[h].copy.value], s.holds[h]);
  }

  /** Offering a copy that was neither retired nor on loan and has just been put on the shelf. */
  lemma PersistVia(s: State, u: State, t: State, c: Id)
    requires CopiesPersist(s, u) && c in u.copies && OnlyOffered(u, t, c)
    requires c in s.copies ==> s.copies[c].status !in {Retired, Loaned}
    ensures CopiesPersist(s, t)
  {}

  lemma TakenBackRow(R: Rules, s: State, l: Id, settle: Option<Id>)
    requires l in s.loans && s.loans[l].copy in s.copies
    ensures s.loans[l].copy in TakenBack(R, s, l, settle).copies
    ensures TakenBack(R, s, l, settle).copies[s.loans[l].copy].status == Available
  {}

  lemma ReturnCopies(R: Rules, s: State, l: Id, settle: Option<Id>)
    requires Allocated(s) && ReturnLoan(R, s, l, settle).Done?
    ensures CopiesPersist(s, ReturnLoan(R, s, l, settle).after)
  {
    hide Allocated, AssignNext, HoldsPersist;
    OpenLoanIsLoaned(s, l);
    AssignNextEffect(R, TakenBack(R, s, l, settle), s.loans[l].copy);
  }

  lemma ReleaseCopies(R: Rules, s: State, h: Id, status: HoldStatus)
    requires Allocated(s) && Reservable(s, h) && Live(s.holds[h])
    ensures CopiesPersist(s, Release(R, s, h, status))
  {
    if s.holds[h].copy.Some? {
      ClaimedCopyIsHeld(s, h);
      hide Allocated, AssignNext, OnlyOffered;
      var c := s.holds[h].copy.value;
      var freed := SetStatus(PutHold(s, h, s.holds[h].(status := status)), c, Available);
      AssignNextEffect(R, freed, c);
      PersistVia(s, freed, AssignNext(R, freed, c), c);
    }
  }

  lemma DropCopies(R: Rules, s: State, h: Id, c: Id, giveUp: bool)
    requires h in s.holds && c in s.copies && s.copies[c].status == InTransit
    ensures CopiesPersist(s, DropTransit(R, s, h, c, giveUp))
  {
    hide AssignNext;
    if !giveUp {
      var dropped := PutHold(s, h, s.holds[h].(attempts := s.holds[h].attempts + 1, copy := None));
      AssignNextEffect(R, SetStatus(dropped, c, Available), c);
    }
  }

  lemma TimeOutCopies(R: Rules, s: State, c: Id, maxDays: nat, maxAttempts: nat)
    requires Allocated(s) && TimeOutTransit(R, s, c, maxDays, maxAttempts).Done?
    ensures CopiesPersist(s, TimeOutTransit(R, s, c, maxDays, maxAttempts).after)
  {
    TransitHasHold(s, c);
    hide Allocated, AssignNext, DropTransit;
    var h := WaitingFor(s, c).value;
    DropCopies(R, s, h, c, s.holds[h].attempts + 1 >= maxAttempts);
  }

  lemma LoanCopies(R: Rules, s: State, op: Op)
    requires Allocated(s) && Apply(R, s, op).Done?
    requires op.OpLost? || op.OpClaimsReturned? || op.OpDamaged?
    ensures CopiesPersist(s, Apply(R, s, op).after)
  {
    OpenLoanIsLoaned(s, op.loan);
    hide Allocated;
  }

  lemma BorrowCopies(R: Rules, s: State, patron: Id, work: Id, at: Option<Id>, override: bool, actor: bool,
                     standing: Standing, fallback: bool)
    requires Borrow(R, s, patron, work, at, override, actor, standing, fallback).Done?
    ensures CopiesPersist(s, Borrow(R, s, patron, work, at, override, actor, standing, fallback).after)
  {
    hide HasTitle, OpenLoans, Queue, ReadyHold, WalkInCopy;
  }

  lemma EditCopies(R: Rules, s: State, op: Op)
    requires Allocated(s) && Apply(R, s, op).Done?
    requires op.OpRetire? || op.OpWeed? || op.OpMove? || op.OpBulkEdit?
    ensures CopiesPersist(s, Apply(R, s, op).after)
  {
    if s.copies[op.copy].status == Loaned {
      LoanedHasLoan(s, op.copy);
    }
    hide Allocated;
  }

  lemma ReceiveCopies(R: Rules, s: State, c: Id)
    requires Receive(R, s, c).Done?
    ensures CopiesPersist(s, Receive(R, s, c).after)
  {}

  lemma FreshIds(s: State)
    requires Allocated(s)
    ensures s.nextCopy !in s.copies && s.nextLoan !in s.loans && s.nextHold !in s.holds && s.nextIll !in s.ills
  {
    AllocatedIsExclusive(s);
  }

  /** An accepted hold is queued, and given a free copy at once only if nobody waits for the title. */
  lemma PlaceRows(R: Rules, s: State, patron: Id, work: Id, at: Option<Id>, standing: Standing)
    returns (hold: Hold, c: Option<Id>)
    requires PlaceHold(R, s, patron, work, at, standing).Done?
    ensures hold.status == Waiting && hold.copy.None? && hold.org == R.orgOf(patron) && hold.work == work
    ensures hold.patron == patron && hold.attempts == 0
    ensures c.Some? ==> c.value in s.copies && s.copies[c.value].status == Available && Queue(s, hold.org, work) == {}
    ensures PlaceHold(R, s, patron, work, at, standing).after
         == if c.None? then Enqueue(s, hold) else Give(R, Enqueue(s, hold), s.nextHold, c.value)
  {
    hide HasHoldableCopy, AlreadyHolds, LiveHolds, Queue, Enqueue, Give;
    var org, branch := R.orgOf(patron), (if at.Some? then at else R.homeOf(patron)).value;
    hold := Hold(org, work, patron, branch, None, None, s.now, 0, 0, Waiting, 0);
    c := if Queue(s, org, work) != {} then None else OfferedCopy(R, s, org, work, branch);
    hide OfferedCopy;
  }

  lemma PlaceCopies(R: Rules, s: State, patron: Id, work: Id, at: Option<Id>, standing: Standing)
    requires PlaceHold(R, s, patron, work, at, standing).Done?
    ensures CopiesPersist(s, PlaceHold(R, s, patron, work, at, standing).after)
  {
    hide PlaceHold, Give, Queue, HoldsPersist;
    var hold, c := PlaceRows(R, s, patron, work, at, standing);
    if c.Some? {
      var queued := Enqueue(s, hold);
      GiveEffect(R, queued, s.nextHold, c.value);
      PersistVia(s, queued, Give(R, queued, s.nextHold, c.value), c.value);
    }
  }

  lemma RequestIllRows(R: Rules, s: State, patron: Id, work: Id, consortium: Id, standing: Standing)
    requires RequestIll(R, s, patron, work, consortium, standing).Done?
    ensures var t := RequestIll(R, s, patron, work, consortium, standing).after;
        CopiesPersist(s, t) && t.loans == s.loans
  {
    hide AlreadyRequested, HeldLocally;
  }

  lemma CloseIllRows(R: Rules, s: State, i: Id, status: IllStatus)
    requires i in s.ills
    ensures CopiesPersist(s, CloseIll(R, s, i, status)) && CloseIll(R, s, i, status).loans == s.loans
  {}

  lemma AdvanceIllRows(s: State, i: Id, from: IllStatus, to: IllStatus)
    requires AdvanceIll(s, i, from, to).Done?
    ensures var t := AdvanceIll(s, i, from, to).after; CopiesPersist(s, t) && t.loans == s.loans
  {}

  lemma IllRows(R: Rules, s: State, op: Op)
    requires Apply(R, s, op).Done?
    requires op.OpRequestIll? || op.OpShipIll? || op.OpReceiveIll? || op.OpReturnIll? || op.OpCheckInIll?
        || op.OpCancelIll?
    ensures CopiesPersist(s, Step(R, s, op)) && Step(R, s, op).loans == s.loans
  {
    hide RequestIll, AdvanceIll, CloseIll, CopiesPersist;
    match op
    case OpRequestIll(p, w, k, st) => RequestIllRows(R, s, p, w, k, st);
    case OpShipIll(i) => AdvanceIllRows(s, i, Requested, Shipped);
    case OpReceiveIll(i) => AdvanceIllRows(s, i, Shipped, OnLoan);
    case OpReturnIll(i) => AdvanceIllRows(s, i, OnLoan, Returning);
    case OpCheckInIll(i) => CloseIllRows(R, s, i, Completed);
    case OpCancelIll(i) => CloseIllRows(R, s, i, IllCancelled);
  }

  lemma SameCopies(s: State, t: State)
    requires t.copies == s.copies
    ensures CopiesPersist(s, t)
  {}

  lemma OfferCopies(R: Rules, s: State, c: Id)
    requires c in s.copies && s.copies[c].status == Available
    ensures CopiesPersist(s, AssignNext(R, s, c))
  {
    hide AssignNext, HoldsPersist;
    AssignNextEffect(R, s, c);
  }

  lemma AddedCopies(R: Rules, s: State, op: Op)
    requires Allocated(s) && op.OpAddCopy?
    ensures CopiesPersist(s, Step(R, s, op))
  {
    FreshIds(s);
    hide Allocated;
  }

  /** A copy keeps its organization, title and barcode for ever, and a retired copy stays retired. */
  lemma CopiesStep(R: Rules, s: State, op: Op)
    requires Allocated(s)
    ensures CopiesPersist(s, Step(R, s, op))
  {
    hide Allocated, CopiesPersist;
    if Apply(R, s, op).Refused? {
      SameCopies(s, s);
    } else {
      match op
      case OpReturn(l, settle) => ReturnCopies(R, s, l, settle);
      case OpCancelHold(h) => ReleaseCopies(R, s, h, Cancelled);
      case OpExpireHold(h) => ReleaseCopies(R, s, h, Expired);
      case OpCheckIn(c) =>
        if s.copies[c].status == InTransit { ReceiveCopies(R, s, c); }
        else { ReturnCopies(R, s, First(map l | l in OpenLoansOn(s, c) :: -s.loans[l].borrowedAt).value, None); }
      case OpTimeOut(c, d, m) => TimeOutCopies(R, s, c, d, m);
      case OpReconcile(c) => OfferCopies(R, s, c);
      case OpPlaceHold(p, w, at, st) => PlaceCopies(R, s, p, w, at, st);
      case OpAddCopy(_, _, _, _, _, _, _, _) => AddedCopies(R, s, op);
      case OpRetire(_) => EditCopies(R, s, op);
      case OpWeed(_) => EditCopies(R, s, op);
      case OpMove(_, _) => EditCopies(R, s, op);
      case OpBulkEdit(_, _, _) => EditCopies(R, s, op);
      case OpReceive(c) => ReceiveCopies(R, s, c);
      case OpRequestIll(_, _, _, _) => IllRows(R, s, op);
      case OpShipIll(_) => IllRows(R, s, op);
      case OpReceiveIll(_) => IllRows(R, s, op);
      case OpReturnIll(_) => IllRows(R, s, op);
      case OpCheckInIll(_) => IllRows(R, s, op);
      case OpCancelIll(_) => IllRows(R, s, op);
      case OpBorrow(p, w, at, o, a, st, f) => BorrowCopies(R, s, p, w, at, o, a, st, f);
      case OpLost(_) => LoanCopies(R, s, op);
      case OpClaimsReturned(_) => LoanCopies(R, s, op);
      case OpDamaged(_) => LoanCopies(R, s, op);
      case _ => SameCopies(s, Step(R, s, op));
    }
  }

  // ---------------------------------------------------------------- loans across a step

  /** Loans keep their copy and patron while open; only a borrow below the limit opens one, only a renewal counts one
      up. */
  ghost predicate LoansFollow(R: Rules, s: State, op: Op, t: State) {
    && LoansPersist(s, t)
    && (forall l | l in t.loans && l !in s.loans ::
          && op.OpBorrow? && l == s.nextLoan && t.loans[l].patron == Some(op.patron) && t.loans[l].renewals == 0
          && t.loans[l].org == R.orgOf(op.patron)
          && |OpenLoans(s, op.patron, R.orgOf(op.patron))| < R.maxLoans(op.patron))
    && (forall l | l in s.loans && Open(t.loans[l]) && t.loans[l].renewals != s.loans[l].renewals ::
          && t.loans[l].renewals == s.loans[l].renewals + 1 && s.loans[l].copy in s.copies
          && var copy := s.copies[s.loans[l].copy];
             s.loans[l].renewals < R.maxRenewals(s.loans[l].patron, copy.edition, copy.branch))
  }

  lemma BorrowLoans(R: Rules, s: State, op: Op)
    requires op.OpBorrow? && Apply(R, s, op).Done? && s.nextLoan !in s.loans
    ensures LoansFollow(R, s, op, Apply(R, s, op).after)
  {
    hide HasTitle, OpenLoans, Queue;
  }

  lemma OfferKeepsLoans(R: Rules, s: State, c: Id)
    requires c in s.copies && s.copies[c].status == Available
    ensures AssignNext(R, s, c).loans == s.loans
  {
    hide AssignNext, HoldsPersist;
    AssignNextEffect(R, s, c);
  }

  lemma TakenBackLoans(R: Rules, s: State, l: Id, settle: Option<Id>, op: Op, t: State)
    requires l in s.loans && s.loans[l].copy in s.copies && t.loans == TakenBack(R, s, l, settle).loans
    ensures LoansFollow(R, s, op, t)
  {}

  lemma ReturnLoans(R: Rules, s: State, l: Id, settle: Option<Id>, op: Op)
    requires ReturnLoan(R, s, l, settle).Done?
    ensures LoansFollow(R, s, op, ReturnLoan(R, s, l, settle).after)
  {
    hide AssignNext, LoansFollow, TakenBack;
    TakenBackRow(R, s, l, settle);
    var back := TakenBack(R, s, l, settle);
    OfferKeepsLoans(R, back, s.loans[l].copy);
    TakenBackLoans(R, s, l, settle, op, AssignNext(R, back, s.loans[l].copy));
  }

  lemma CloseLoans(R: Rules, s: State, op: Op)
    requires Apply(R, s, op).Done?
    requires op.OpRenew? || op.OpFlagOverdue? || op.OpLost? || op.OpClaimsReturned? || op.OpDamaged?
    ensures LoansFollow(R, s, op, Apply(R, s, op).after)
  {
    hide Queue;
  }

  lemma SameLoans(R: Rules, s: State, op: Op, t: State)
    requires t.loans == s.loans
    ensures LoansFollow(R, s, op, t)
  {}

  lemma ReleaseLoans(R: Rules, s: State, h: Id, status: HoldStatus)
    requires Reservable(s, h)
    ensures Release(R, s, h, status).loans == s.loans
  {
    hide AssignNext;
    if s.holds[h].copy.Some? {
      var c := s.holds[h].copy.value;
      AssignNextEffect(R, SetStatus(PutHold(s, h, s.holds[h].(status := status)), c, Available), c);
    }
  }

  lemma TimeOutLoans(R: Rules, s: State, c: Id, maxDays: nat, maxAttempts: nat)
    requires TimeOutTransit(R, s, c, maxDays, maxAttempts).Done?
    ensures TimeOutTransit(R, s, c, maxDays, maxAttempts).after.loans == s.loans
  {
    hide AssignNext, WaitingFor;
    var hold := WaitingFor(s, c);
    if hold.None? {
      AssignNextEffect(R, SetStatus(s, c, Available), c);
    } else {
      var h := hold.value;
      var dropped := PutHold(s, h, s.holds[h].(attempts := s.holds[h].attempts + 1, copy := None));
      AssignNextEffect(R, SetStatus(dropped, c, Available), c);
    }
  }

  lemma PlaceKeepsLoans(R: Rules, s: State, patron: Id, work: Id, at: Option<Id>, standing: Standing)
    ensures PlaceHold(R, s, patron, work, at, standing).Done? ==>
        PlaceHold(R, s, patron, work, at, standing).after.loans == s.loans
  {
    hide LiveHolds, Queue, HasHoldableCopy, AlreadyHolds, OfferedCopy;
  }

  lemma ReceiveKeepsLoans(R: Rules, s: State, c: Id)
    ensures Receive(R, s, c).Done? ==> Receive(R, s, c).after.loans == s.loans
  {
    hide WaitingFor;
  }

  lemma OfferLoans(R: Rules, s: State, op: Op)
    requires op.OpPlaceHold? || op.OpReceive?
    ensures Step(R, s, op).loans == s.loans
  {
    hide PlaceHold, Receive;
    if op.OpPlaceHold? {
      PlaceKeepsLoans(R, s, op.patron, op.work, op.at, op.standing);
    } else {
      ReceiveKeepsLoans(R, s, op.copy);
    }
  }

  lemma DeskLoans(R: Rules, s: State, op: Op)
    requires op.OpRetire? || op.OpWeed? || op.OpMove? || op.OpBulkEdit? || op.OpAddCopy?
             || op.OpTick?
    ensures Step(R, s, op).loans == s.loans
  {
    hide Borrow, ReturnLoan, PlaceHold, Receive, CheckIn, AssignNext, CheckInIll, RequestIll, CloseIll, CancelIll,
        TimeOutTransit,
         Reconcile, CancelHold, ExpireHold;
  }

  lemma LoansStep(R: Rules, s: State, op: Op)
    requires Allocated(s)
    ensures LoansFollow(R, s, op, Step(R, s, op))
  {
    FreshIds(s);
    hide Allocated, LoansFollow;
    if Apply(R, s, op).Done? {
      match op
      case OpBorrow(_, _, _, _, _, _, _) => BorrowLoans(R, s, op);
      case OpReturn(l, settle) => ReturnLoans(R, s, l, settle, op);
      case OpCheckIn(c) =>
        if s.copies[c].status == InTransit { OfferLoans(R, s, OpReceive(c)); SameLoans(R, s, op, Step(R, s, op)); }
        else { ReturnLoans(R, s, First(map l | l in OpenLoansOn(s, c) :: -s.loans[l].borrowedAt).value, None, op); }
      case OpRenew(_, _) => CloseLoans(R, s, op);
      case OpFlagOverdue => CloseLoans(R, s, op);
      case OpLost(_) => CloseLoans(R, s, op);
      case OpClaimsReturned(_) => CloseLoans(R, s, op);
      case OpDamaged(_) => CloseLoans(R, s, op);
      case OpCancelHold(h) => ReleaseLoans(R, s, h, Cancelled); SameLoans(R, s, op, Step(R, s, op));
      case OpExpireHold(h) => ReleaseLoans(R, s, h, Expired); SameLoans(R, s, op, Step(R, s, op));
      case OpTimeOut(c, d, m) => TimeOutLoans(R, s, c, d, m); SameLoans(R, s, op, Step(R, s, op));
      case OpReconcile(c) => AssignNextEffect(R, s, c); SameLoans(R, s, op, Step(R, s, op));
      case OpRequestIll(_, _, _, _) => IllRows(R, s, op); SameLoans(R, s, op, Step(R, s, op));
      case OpShipIll(_) => IllRows(R, s, op); SameLoans(R, s, op, Step(R, s, op));
      case OpReceiveIll(_) => IllRows(R, s, op); SameLoans(R, s, op, Step(R, s, op));
      case OpReturnIll(_) => IllRows(R, s, op); SameLoans(R, s, op, Step(R, s, op));
      case OpCheckInIll(_) => IllRows(R, s, op); SameLoans(R, s, op, Step(R, s, op));
      case OpCancelIll(_) => IllRows(R, s, op); SameLoans(R, s, op, Step(R, s, op));
      case OpPlaceHold(_, _, _, _) => OfferLoans(R, s, op); SameLoans(R, s, op, Step(R, s, op));
      case OpReceive(_) => OfferLoans(R, s, op); SameLoans(R, s, op, Step(R, s, op));
      case _ => DeskLoans(R, s, op); SameLoans(R, s, op, Step(R, s, op));
    } else {
      SameLoans(R, s, op, s);
    }
  }

  // ---------------------------------------------------------------- holds across a step

  /** The hold whose transit a step times out. */
  ghost function TimedOut(s: State, op: Op): Option<Id> {
    if op.OpTimeOut? && TransitStale(s, op.copy, op.maxDays) then WaitingFor(s, op.copy) else None
  }

  ghost predicate HoldsFollow(R: Rules, s: State, op: Op, t: State) {
    && HoldsPersist(s, t)
    && (forall h | h in s.holds ::
          t.holds[h].attempts == s.holds[h].attempts + if TimedOut(s, op) == Some(h) then 1 else 0)
    && (forall h | h in t.holds && h !in s.holds ::
          && op.OpPlaceHold? && h == s.nextHold && t.nextHold == h + 1 && t.holds[h].attempts == 0
          && t.holds[h].patron == op.patron && t.holds[h].work == op.work && t.holds[h].org == R.orgOf(op.patron)
          && |LiveHolds(s, op.patron, R.orgOf(op.patron))| < R.maxHolds(op.patron)
          && (forall g | g in LiveHolds(s, op.patron, R.orgOf(op.patron)) :: s.holds[g].work != op.work))
    && (t.nextHold == s.nextHold || (s.nextHold in t.holds && t.nextHold == s.nextHold + 1))
  }

  /** From `s` to `t` the waiting holds change only in who holds a copy, and whoever newly does was next. */
  ghost predicate Fair(s: State, t: State, timedOut: Option<Id>) {
    forall h | h in t.holds && Claiming(t.holds[h])
           && (h !in s.holds || !Claiming(s.holds[h]) || timedOut == Some(h)) ::
      forall g | g in Unserved(t, t.holds[h].org, t.holds[h].work) :: InTurn(t.holds[h], h, t.holds[g], g)
  }

  lemma AssignNextFair(R: Rules, s: State, c: Id)
    requires c in s.copies && s.copies[c].status == Available
    ensures Fair(s, AssignNext(R, s, c), None)
  {
    var next := NextHold(s, s.copies[c].org, s.copies[c].work);
    hide NextHold;
  }

  /** Offering a freed copy after an edit `s` to `u` that lets claims go but makes none. */
  lemma FairVia(s: State, u: State, t: State, timedOut: Option<Id>)
    requires Fair(u, t, None)
    requires forall h | h in u.holds && Claiming(u.holds[h]) ::
        h in s.holds && Claiming(s.holds[h]) && timedOut != Some(h)
    ensures Fair(s, t, timedOut)
  {}

  lemma FollowVia(R: Rules, s: State, op: Op, u: State, t: State, c: Id)
    requires HoldsFollow(R, s, op, u) && u.holds.Keys == s.holds.Keys
    requires c in u.copies && OnlyOffered(u, t, c)
    ensures HoldsFollow(R, s, op, t)
  {}

  /** One hold row changes status or loses its copy. */
  lemma FollowEdit(R: Rules, s: State, op: Op, h: Id, hold: Hold, u: State)
    requires h in s.holds && SameRequest(s.holds[h], hold) && u.holds == s.holds[h := hold] && u.nextHold == s.nextHold
    requires TimedOut(s, op).Some? ==> TimedOut(s, op) == Some(h)
    requires hold.attempts == s.holds[h].attempts + if TimedOut(s, op) == Some(h) then 1 else 0
    ensures HoldsFollow(R, s, op, u)
  {}

  lemma PlaceHolds(R: Rules, s: State, op: Op)
    requires op.OpPlaceHold? && Apply(R, s, op).Done? && s.nextHold !in s.holds
    ensures HoldsFollow(R, s, op, Apply(R, s, op).after)
  {
    hide PlaceHold, Queue, AlreadyHolds, LiveHolds;
    PlaceAllowed(R, s, op.patron, op.work, op.at, op.standing);
    var hold, c := PlaceRows(R, s, op.patron, op.work, op.at, op.standing);
    QueuedFollows(R, s, op, hold, Apply(R, s, op).after);
  }

  lemma PlaceAllowed(R: Rules, s: State, patron: Id, work: Id, at: Option<Id>, standing: Standing)
    requires PlaceHold(R, s, patron, work, at, standing).Done?
    ensures |LiveHolds(s, patron, R.orgOf(patron))| < R.maxHolds(patron)
    ensures forall g | g in LiveHolds(s, patron, R.orgOf(patron)) :: s.holds[g].work != work
  {
    hide HasHoldableCopy, LiveHolds, Queue, OfferedCopy;
  }

  lemma QueuedFollows(R: Rules, s: State, op: Op, hold: Hold, t: State)
    requires op.OpPlaceHold? && s.nextHold !in s.holds && s.nextHold in t.holds && t.nextHold == s.nextHold + 1
    requires t.holds == s.holds[s.nextHold := t.holds[s.nextHold]] && t.holds[s.nextHold].attempts == 0
    requires t.holds[s.nextHold].patron == op.patron && t.holds[s.nextHold].work == op.work
    requires t.holds[s.nextHold].org == R.orgOf(op.patron)
    requires |LiveHolds(s, op.patron, R.orgOf(op.patron))| < R.maxHolds(op.patron)
    requires forall g | g in LiveHolds(s, op.patron, R.orgOf(op.patron)) :: s.holds[g].work != op.work
    ensures HoldsFollow(R, s, op, t)
  {
    hide LiveHolds;
  }

  lemma AloneFair(s: State, h: Id, t: State)
    requires h !in s.holds && h in t.holds && t.holds == s.holds[h := t.holds[h]]
    requires Claiming(t.holds[h]) ==> Queue(s, t.holds[h].org, t.holds[h].work) == {}
    ensures Fair(s, t, None)
  {
    assert Unserved(t, t.holds[h].org, t.holds[h].work) <= Queue(s, t.holds[h].org, t.holds[h].work) + {h};
  }

  /** A new hold gets a copy at once only if nobody else waits for the title. */
  lemma PlaceFair(R: Rules, s: State, op: Op)
    requires op.OpPlaceHold? && Apply(R, s, op).Done? && s.nextHold !in s.holds
    ensures Fair(s, Apply(R, s, op).after, None)
  {
    hide PlaceHold, Fair, Queue;
    var hold, c := PlaceRows(R, s, op.patron, op.work, op.at, op.standing);
    var t := Apply(R, s, op).after;
    assert t.holds == s.holds[s.nextHold := t.holds[s.nextHold]];
    AloneFair(s, s.nextHold, t);
  }

  lemma ReleaseHolds(R: Rules, s: State, h: Id, status: HoldStatus, op: Op)
    requires Reservable(s, h) && status in {Cancelled, Expired} && TimedOut(s, op).None?
    ensures HoldsFollow(R, s, op, Release(R, s, h, status)) && Fair(s, Release(R, s, h, status), None)
  {
    hide AssignNext, Fair, HoldsFollow, TimedOut;
    var closed := s.holds[h].(status := status);
    FollowEdit(R, s, op, h, closed, PutHold(s, h, closed));
    if s.holds[h].copy.Some? {
      var c := s.holds[h].copy.value;
      var freed := SetStatus(PutHold(s, h, closed), c, Available);
      FollowEdit(R, s, op, h, closed, freed);
      AssignNextEffect(R, freed, c);
      FollowVia(R, s, op, freed, AssignNext(R, freed, c), c);
      AssignNextFair(R, freed, c);
      FairVia(s, freed, AssignNext(R, freed, c), None);
    } else {
      UnclaimedFair(s, h, closed);
    }
  }

  lemma UnclaimedFair(s: State, h: Id, hold: Hold)
    requires !Claiming(hold)
    ensures Fair(s, PutHold(s, h, hold), None)
  {}

  lemma ReturnHolds(R: Rules, s: State, l: Id, settle: Option<Id>, op: Op)
    requires ReturnLoan(R, s, l, settle).Done? && TimedOut(s, op).None?
    ensures HoldsFollow(R, s, op, ReturnLoan(R, s, l, settle).after) && Fair(s, ReturnLoan(R, s, l, settle).after, None)
  {
    hide AssignNext, Fair, HoldsFollow, TimedOut;
    var back, c := TakenBack(R, s, l, settle), s.loans[l].copy;
    AssignNextEffect(R, back, c);
    SameHolds(R, s, op, back);
    FollowVia(R, s, op, back, AssignNext(R, back, c), c);
    AssignNextFair(R, back, c);
    FairVia(s, back, AssignNext(R, back, c), None);
  }

  lemma DropHolds(R: Rules, s: State, h: Id, c: Id, giveUp: bool, op: Op)
    requires h in s.holds && s.holds[h].status == Waiting && s.holds[h].copy == Some(c) && c in s.copies
    requires TimedOut(s, op) == Some(h)
    ensures HoldsFollow(R, s, op, DropTransit(R, s, h, c, giveUp)) && Fair(s, DropTransit(R, s, h, c, giveUp), Some(h))
  {
    hide AssignNext, Fair, HoldsFollow, TimedOut;
    var hold := s.holds[h].(attempts := s.holds[h].attempts + 1, copy := None);
    if giveUp {
      FollowEdit(R, s, op, h, hold, SetStatus(PutHold(s, h, hold), c, Repair));
      DroppedFair(s, h, hold, SetStatus(PutHold(s, h, hold), c, Repair));
    } else {
      var dropped := SetStatus(PutHold(s, h, hold), c, Available);
      FollowEdit(R, s, op, h, hold, dropped);
      AssignNextEffect(R, dropped, c);
      FollowVia(R, s, op, dropped, AssignNext(R, dropped, c), c);
      AssignNextFair(R, dropped, c);
      FairVia(s, dropped, AssignNext(R, dropped, c), Some(h));
    }
  }

  lemma DroppedFair(s: State, h: Id, hold: Hold, t: State)
    requires !Claiming(hold) && t.holds == s.holds[h := hold]
    ensures Fair(s, t, Some(h))
  {}

  lemma PickUpFair(R: Rules, s: State, op: Op)
    requires op.OpBorrow? && Apply(R, s, op).Done?
    ensures Fair(s, Apply(R, s, op).after, None)
  {
    hide HasTitle, OpenLoans, Queue, HoldsFollow, HoldsPersist;
  }

  lemma PickUpHolds(R: Rules, s: State, op: Op)
    requires op.OpBorrow? && Apply(R, s, op).Done?
    ensures HoldsFollow(R, s, op, Apply(R, s, op).after) && Fair(s, Apply(R, s, op).after, None)
  {
    hide HasTitle, OpenLoans, Queue, Fair;
    PickUpFair(R, s, op);
  }

  lemma ReceiveHolds(R: Rules, s: State, c: Id, op: Op)
    requires Receive(R, s, c).Done? && TimedOut(s, op).None?
    ensures HoldsFollow(R, s, op, Receive(R, s, c).after) && Fair(s, Receive(R, s, c).after, None)
  {
    hide WaitingFor, TimedOut;
  }

  lemma SameHolds(R: Rules, s: State, op: Op, t: State)
    requires t.holds == s.holds && t.nextHold == s.nextHold && TimedOut(s, op).None?
    ensures HoldsFollow(R, s, op, t) && Fair(s, t, None)
  {}

  lemma IdleHolds(R: Rules, s: State, op: Op)
    requires op.OpTick? || op.OpAddCopy? || op.OpRetire? || op.OpWeed? || op.OpMove? || op.OpBulkEdit?
             || op.OpRenew? || op.OpFlagOverdue? || op.OpLost? || op.OpClaimsReturned? || op.OpDamaged?
             || op.OpRequestIll? || op.OpShipIll? || op.OpReceiveIll? || op.OpReturnIll? || op.OpCheckInIll?
                  || op.OpCancelIll?
    ensures Step(R, s, op).holds == s.holds && Step(R, s, op).nextHold == s.nextHold
  {
    hide First, AlreadyRequested, HeldLocally, LenderShelf, Queue, OpenLoansOn, AssignNext, Give;
  }

  /** Every step serves holds in (created_at, id) order, and changes rows only as its operation says. */
  lemma HoldsStep(R: Rules, s: State, op: Op)
    requires Allocated(s)
    ensures HoldsFollow(R, s, op, Step(R, s, op)) && Fair(s, Step(R, s, op), TimedOut(s, op))
  {
    FreshIds(s);
    hide HoldsFollow, Fair;
    if Apply(R, s, op).Refused? {
      hide Allocated;
      SameHolds(R, s, op, s);
    } else {
      match op
      case OpBorrow(_, _, _, _, _, _, _) => PickUpHolds(R, s, op);
      case OpReturn(l, settle) => ReturnHolds(R, s, l, settle, op);
      case OpPlaceHold(_, _, _, _) => PlaceHolds(R, s, op); PlaceFair(R, s, op);
      case OpCancelHold(h) => ReleaseHolds(R, s, h, Cancelled, op);
      case OpExpireHold(h) => ReleaseHolds(R, s, h, Expired, op);
      case OpReceive(c) => ReceiveHolds(R, s, c, op);
      case OpCheckIn(c) =>
        if s.copies[c].status == InTransit { ReceiveHolds(R, s, c, op); }
        else { ReturnHolds(R, s, First(map l | l in OpenLoansOn(s, c) :: -s.loans[l].borrowedAt).value, None, op); }
      case OpTimeOut(c, d, m) => TimeOutHolds(R, s, op);
      case OpReconcile(c) => ReconcileHolds(R, s, op);
      case _ => IdleHolds(R, s, op); SameHolds(R, s, op, Step(R, s, op));
    }
  }

  lemma TimeOutHolds(R: Rules, s: State, op: Op)
    requires Allocated(s) && op.OpTimeOut? && Apply(R, s, op).Done?
    ensures HoldsFollow(R, s, op, Step(R, s, op)) && Fair(s, Step(R, s, op), TimedOut(s, op))
  {
    TransitHasHold(s, op.copy);
    hide Allocated, HoldsFollow, Fair, DropTransit;
    var h := WaitingFor(s, op.copy).value;
    DropHolds(R, s, h, op.copy, s.holds[h].attempts + 1 >= op.maxAttempts, op);
  }

  lemma ReconcileHolds(R: Rules, s: State, op: Op)
    requires op.OpReconcile? && Apply(R, s, op).Done?
    ensures HoldsFollow(R, s, op, Step(R, s, op)) && Fair(s, Step(R, s, op), None)
  {
    hide AssignNext, Fair;
    AssignNextEffect(R, s, op.copy);
    AssignNextFair(R, s, op.copy);
  }

  // ---------------------------------------------------------------- whole runs: queue order

  ghost function Prefix(R: Rules, ops: seq<Op>, i: nat): State
    requires i <= |ops|
  {
    Run(R, EMPTY, ops[..i])
  }

  lemma PrefixStep(R: Rules, ops: seq<Op>, i: nat)
    requires i < |ops|
    ensures Prefix(R, ops, i + 1) == Step(R, Prefix(R, ops, i), ops[i])
  {
    assert ops[..i + 1][..|ops[..i + 1]| - 1] == ops[..i];
  }

  /** Once retired, a copy is retired for the rest of the run. */
  lemma {:induction false} RunKeepsRetired(R: Rules, ops: seq<Op>, i: nat, j: nat, c: Id)
    requires i <= j <= |ops| && c in Prefix(R, ops, i).copies
    ensures c in Prefix(R, ops, j).copies
    ensures Prefix(R, ops, i).copies[c].status == Retired ==> Prefix(R, ops, j).copies[c].status == Retired
    decreases j
  {
    if i < j {
      RunKeepsRetired(R, ops, i, j - 1, c);
      PrefixStep(R, ops, j - 1);
      RunAllocated(R, ops[..j - 1]);
      CopiesStep(R, Prefix(R, ops, j - 1), ops[j - 1]);
    }
  }

  /** At no step of any run does a hold get its copy while an earlier hold of the title still has none. */
  lemma RunFair(R: Rules, ops: seq<Op>, i: nat)
    requires i < |ops|
    ensures Fair(Prefix(R, ops, i), Prefix(R, ops, i + 1), TimedOut(Prefix(R, ops, i), ops[i]))
  {
    RunAllocated(R, ops[..i]);
    PrefixStep(R, ops, i);
    HoldsStep(R, Prefix(R, ops, i), ops[i]);
  }

  /** A copy goes straight from the shelf to a borrower only by override or when nobody waits for the title. */
  lemma WalkInOnlyWhenNobodyWaits(R: Rules, ops: seq<Op>, i: nat, c: Id)
    requires i < |ops| && c in Prefix(R, ops, i).copies && c in Prefix(R, ops, i + 1).copies
    requires Prefix(R, ops, i).copies[c].status == Available && Prefix(R, ops, i + 1).copies[c].status == Loaned
    ensures ops[i].OpBorrow?
    ensures ops[i].override || Queue(Prefix(R, ops, i), Prefix(R, ops, i).copies[c].org,
                                     Prefix(R, ops, i).copies[c].work) == {}
  {
    var s := Prefix(R, ops, i);
    RunAllocated(R, ops[..i]);
    RunAllocated(R, ops[..i + 1]);
    PrefixStep(R, ops, i);
    LoanedHasLoan(Prefix(R, ops, i + 1), c);
    LoansStep(R, s, ops[i]);
    var l :| l in OpenLoansOn(Prefix(R, ops, i + 1), c);
    if l in s.loans {
      OpenLoanIsLoaned(s, l);
    }
    BorrowFromShelf(R, s, ops[i], c);
  }

  lemma BorrowFromShelf(R: Rules, s: State, op: Op, c: Id)
    requires op.OpBorrow? && Apply(R, s, op).Done? && c in s.copies && s.copies[c].status == Available
    requires c in Apply(R, s, op).after.copies && Apply(R, s, op).after.copies[c].status == Loaned
    ensures op.override || Queue(s, s.copies[c].org, s.copies[c].work) == {}
  {}
}
