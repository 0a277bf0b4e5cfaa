/** No copy ever serves two claims.

    The proof carries a map from each copy to the one claim it serves (`owner`).  Every
    transaction changes that map at one copy; what the map says about counts of loans, holds
    and requests per copy is drawn out in `Exclusive` at the end. */
module Allocation {
  import opened Common
  import opened Circulation

  datatype Claim = Nobody | ByLoan(id: Id) | ByHold(id: Id) | ByIll(id: Id)

  predicate Claiming(h: Hold) { h.status == Ready || (h.status == Waiting && h.copy.Some?) }

  /** Rows refer to rows that exist, and the table constraints on loans and holds are met. */
  ghost predicate CopiesLinked(copies: map<Id, Copy>, next: Id) { forall c | c in copies :: c < next }

  ghost predicate LoansLinked(loans: map<Id, Loan>, copies: set<Id>, next: Id) {
    forall l | l in loans ::
           l < next && loans[l].copy in copies && (loans[l].status == Returned ==> loans[l].returnedAt.Some?)
  }

  ghost predicate HoldsLinked(holds: map<Id, Hold>, copies: set<Id>, loans: set<Id>, next: Id) {
    forall h | h in holds ::
      && h < next
      && (holds[h].copy.Some? ==> holds[h].copy.value in copies)
      && (holds[h].status == Ready ==> holds[h].copy.Some?)
      && (holds[h].status == Fulfilled ==> holds[h].loan.Some? && holds[h].loan.value in loans)
  }

  ghost predicate IllsLinked(ills: map<Id, IllRequest>, next: Id) {
    forall i | i in ills :: i < next && (ills[i].status == Unfilled ==> ills[i].copy.None?)
  }

  ghost predicate Linked(s: State) {
    && CopiesLinked(s.copies, s.nextCopy)
    && LoansLinked(s.loans, s.copies.Keys, s.nextLoan)
    && HoldsLinked(s.holds, s.copies.Keys, s.loans.Keys, s.nextHold)
    && IllsLinked(s.ills, s.nextIll)
  }

  /** The statuses a copy may have while it serves claim `k`. */
  predicate Fits(status: CopyStatus, k: Claim) {
    match k
    case Nobody => status in {Available, Lost, Retired, Repair}
    case ByLoan(_) => status == Loaned
    case ByHold(_) => status == OnHold || status == InTransit
    case ByIll(_) => status == Ill || status == Retired
  }

  /** A hold's copy is of its title; it waits at the pickup branch, or travels while the hold waits. */
  predicate Suits(copy: Copy, hold: Hold) {
    && copy.org == hold.org && copy.work == hold.work
    && (hold.status == Ready ==> copy.status == OnHold && copy.branch == hold.branch)
    && (hold.status == Waiting ==> copy.status == InTransit)
  }

  ghost predicate CopiesOwned(copies: map<Id, Copy>, owner: map<Id, Claim>) {
    && owner.Keys == copies.Keys
    && forall c | c in owner :: Fits(copies[c].status, owner[c])
  }

  ghost predicate LoansOwned(loans: map<Id, Loan>, owner: map<Id, Claim>) {
    && (forall l | l in loans && Open(loans[l]) :: loans[l].copy in owner && owner[loans[l].copy] == ByLoan(l))
    && (forall c | c in owner && owner[c].ByLoan? ::
          owner[c].id in loans && Open(loans[owner[c].id]) && loans[owner[c].id].copy == c)
  }

  ghost predicate HoldsOwned(holds: map<Id, Hold>, copies: map<Id, Copy>, owner: map<Id, Claim>) {
    && (forall h | h in holds && Claiming(holds[h]) ::
          holds[h].copy.Some? && holds[h].copy.value in owner && owner[holds[h].copy.value] == ByHold(h))
    && (forall c | c in owner && owner[c].ByHold? ::
          && owner[c].id in holds && Claiming(holds[owner[c].id]) && holds[owner[c].id].copy == Some(c)
          && c in copies && Suits(copies[c], holds[owner[c].id]))
  }

  ghost predicate IllsOwned(ills: map<Id, IllRequest>, owner: map<Id, Claim>) {
    && (forall i | i in ills && InFlight(ills[i]) ::
          ills[i].copy.Some? && ills[i].copy.value in owner && owner[ills[i].copy.value] == ByIll(i))
    && (forall c | c in owner && owner[c].ByIll? ::
          owner[c].id in ills && InFlight(ills[owner[c].id]) && ills[owner[c].id].copy == Some(c))
  }

  ghost predicate Sound(s: State, owner: map<Id, Claim>) {
    && Linked(s)
    && CopiesOwned(s.copies, owner)
    && LoansOwned(s.loans, owner)
    && HoldsOwned(s.holds, s.copies, owner)
    && IllsOwned(s.ills, owner)
  }

  ghost predicate Allocated(s: State) { exists owner :: Sound(s, owner) }

  // ---------------------------------------------------------------- one table at a time

  lemma LoansElsewhere(loans: map<Id, Loan>, owner: map<Id, Claim>, c: Id, k: Claim)
    requires LoansOwned(loans, owner) && (c in owner ==> !owner[c].ByLoan?) && !k.ByLoan?
    ensures LoansOwned(loans, owner[c := k])
  {}

  lemma LoanOpened(loans: map<Id, Loan>, owner: map<Id, Claim>, c: Id, l: Id, loan: Loan)
    requires LoansOwned(loans, owner) && c in owner && !owner[c].ByLoan?
    requires l !in loans && Open(loan) && loan.copy == c
    ensures LoansOwned(loans[l := loan], owner[c := ByLoan(l)])
  {}

  lemma LoanClosed(loans: map<Id, Loan>, owner: map<Id, Claim>, l: Id, loan: Loan)
    requires LoansOwned(loans, owner) && l in loans && Open(loans[l]) && !Open(loan)
    ensures loans[l].copy in owner && owner[loans[l].copy] == ByLoan(l)
    ensures LoansOwned(loans[l := loan], owner[loans[l].copy := Nobody])
  {}

  lemma HoldsElsewhere(holds: map<Id, Hold>, copies: map<Id, Copy>, owner: map<Id, Claim>, c: Id, row: Copy, k: Claim)
    requires HoldsOwned(holds, copies, owner) && (c in owner ==> !owner[c].ByHold?) && !k.ByHold?
    ensures HoldsOwned(holds, copies[c := row], owner[c := k])
  {}

  lemma HoldClaims(holds: map<Id, Hold>, copies: map<Id, Copy>, owner: map<Id, Claim>, h: Id, hold: Hold, c: Id,
                   row: Copy)
    requires HoldsOwned(holds, copies, owner) && h in holds && !Claiming(holds[h]) && c in owner && !owner[c].ByHold?
    requires Claiming(hold) && hold.copy == Some(c) && Suits(row, hold)
    ensures HoldsOwned(holds[h := hold], copies[c := row], owner[c := ByHold(h)])
  {}

  lemma HoldLetsGo(holds: map<Id, Hold>, copies: map<Id, Copy>, owner: map<Id, Claim>, h: Id, hold: Hold, c: Id,
                   row: Copy,
                   k: Claim)
    requires HoldsOwned(holds, copies, owner) && h in holds && Claiming(holds[h]) && holds[h].copy == Some(c)
    requires !Claiming(hold) && !k.ByHold?
    ensures c in owner && owner[c] == ByHold(h) && c in copies
    ensures HoldsOwned(holds[h := hold], copies[c := row], owner[c := k])
  {}

  lemma HoldArrives(holds: map<Id, Hold>, copies: map<Id, Copy>, owner: map<Id, Claim>, h: Id, hold: Hold, c: Id,
                    row: Copy)
    requires HoldsOwned(holds, copies, owner) && h in holds && Claiming(holds[h]) && holds[h].copy == Some(c)
    requires Claiming(hold) && hold.copy == Some(c) && Suits(row, hold)
    ensures c in owner && owner[c] == ByHold(h)
    ensures HoldsOwned(holds[h := hold], copies[c := row], owner)
  {}

  lemma HoldIdle(holds: map<Id, Hold>, copies: map<Id, Copy>, owner: map<Id, Claim>, h: Id, hold: Hold)
    requires HoldsOwned(holds, copies, owner) && (h in holds ==> !Claiming(holds[h])) && !Claiming(hold)
    ensures HoldsOwned(holds[h := hold], copies, owner)
  {}

  lemma IllsElsewhere(ills: map<Id, IllRequest>, owner: map<Id, Claim>, c: Id, k: Claim)
    requires IllsOwned(ills, owner) && (c in owner ==> !owner[c].ByIll?) && !k.ByIll?
    ensures IllsOwned(ills, owner[c := k])
  {}

  lemma IllOpened(ills: map<Id, IllRequest>, owner: map<Id, Claim>, i: Id, ill: IllRequest, c: Id)
    requires IllsOwned(ills, owner) && c in owner && !owner[c].ByIll?
    requires i !in ills && InFlight(ill) && ill.copy == Some(c)
    ensures IllsOwned(ills[i := ill], owner[c := ByIll(i)])
  {}

  lemma IllLetsGo(ills: map<Id, IllRequest>, owner: map<Id, Claim>, i: Id, ill: IllRequest, c: Id)
    requires IllsOwned(ills, owner) && i in ills && InFlight(ills[i]) && ills[i].copy == Some(c) && !InFlight(ill)
    ensures c in owner && owner[c] == ByIll(i)
    ensures IllsOwned(ills[i := ill], owner[c := Nobody])
  {}

  lemma IllMoves(ills: map<Id, IllRequest>, owner: map<Id, Claim>, i: Id, ill: IllRequest)
    requires IllsOwned(ills, owner)
    requires if i in ills && InFlight(ills[i]) then InFlight(ill) && ill.copy == ills[i].copy else !InFlight(ill)
    ensures IllsOwned(ills[i := ill], owner)
  {}

  /** Copy `c`, held by nobody, is taken by claim `k`: what the other tables need. */
  lemma FreeCopyTaken(s: State, owner: map<Id, Claim>, c: Id, row: Copy, k: Claim)
    requires Sound(s, owner) && c in s.copies && owner[c] == Nobody && Fits(row.status, k)
    ensures Linked(PutCopy(s, c, row)) && CopiesOwned(s.copies[c := row], owner[c := k])
    ensures !k.ByLoan? ==> LoansOwned(s.loans, owner[c := k])
    ensures !k.ByHold? ==> HoldsOwned(s.holds, s.copies[c := row], owner[c := k])
    ensures !k.ByIll? ==> IllsOwned(s.ills, owner[c := k])
  {
    assert s.copies[c := row].Keys == s.copies.Keys;
    if !k.ByLoan? { LoansElsewhere(s.loans, owner, c, k); }
    if !k.ByHold? { HoldsElsewhere(s.holds, s.copies, owner, c, row, k); }
    if !k.ByIll? { IllsElsewhere(s.ills, owner, c, k); }
  }

  // ---------------------------------------------------------------- steps of the proof

  lemma AvailableIsFree(s: State, owner: map<Id, Claim>, c: Id)
    requires Sound(s, owner) && c in s.copies && s.copies[c].status == Available
    ensures c in owner && owner[c] == Nobody
  {
    assert Fits(s.copies[c].status, owner[c]);
  }

  lemma TakenByHold(s: State, owner: map<Id, Claim>, h: Id, hold: Hold, c: Id, row: Copy)
    requires Sound(s, owner) && h in s.holds && !Claiming(s.holds[h]) && c in s.copies && owner[c] == Nobody
    requires Claiming(hold) && hold.copy == Some(c) && Suits(row, hold) && hold.status != Fulfilled
    ensures Sound(PutHold(PutCopy(s, c, row), h, hold), owner[c := ByHold(h)])
  {
    FreeCopyTaken(s, owner, c, row, ByHold(h));
    HoldClaims(s.holds, s.copies, owner, h, hold, c, row);
  }

  /** The rows that giving copy `c` to hold `h` leaves. */
  lemma GivenRows(R: Rules, s: State, h: Id, c: Id) returns (hold: Hold, row: Copy)
    requires c in s.copies && h in Unserved(s, s.copies[c].org, s.copies[c].work)
    ensures Give(R, s, h, c) == PutHold(PutCopy(s, c, row), h, hold)
    ensures !Claiming(s.holds[h]) && Claiming(hold) && hold.copy == Some(c) && Suits(row, hold)
        && hold.status != Fulfilled
  {
    var t := Give(R, s, h, c);
    hold, row := t.holds[h], t.copies[c];
  }

  lemma GiveSound(R: Rules, s: State, h: Id, c: Id)
    requires Allocated(s) && c in s.copies && s.copies[c].status == Available
    requires h in Unserved(s, s.copies[c].org, s.copies[c].work)
    ensures Allocated(Give(R, s, h, c))
  {
    hide Sound, Give, Claiming, Suits;
    var owner: map<Id, Claim> :| Sound(s, owner);
    AvailableIsFree(s, owner, c);
    var hold, row := GivenRows(R, s, h, c);
    TakenByHold(s, owner, h, hold, c, row);
  }

  /** A free copy is offered to the queue of its title. */
  lemma OfferSound(R: Rules, s: State, c: Id)
    requires Allocated(s) && c in s.copies && s.copies[c].status == Available
    ensures Allocated(AssignNext(R, s, c))
  {
    hide Allocated;
    var next := NextHold(s, s.copies[c].org, s.copies[c].work);
    if next.Some? {
      GiveSound(R, s, next.value, c);
    }
  }

  lemma CheckOutSound(R: Rules, s: State, patron: Id, c: Id)
    requires Allocated(s) && c in s.copies && s.copies[c].status == Available
    ensures Allocated(CheckOut(R, s, patron, c))
  {
    hide LoansOwned, HoldsOwned, IllsOwned;
    var owner: map<Id, Claim> :| Sound(s, owner);
    assert Fits(s.copies[c].status, owner[c]);
    var t := CheckOut(R, s, patron, c);
    FreeCopyTaken(s, owner, c, t.copies[c], ByLoan(s.nextLoan));
    LoanOpened(s.loans, owner, c, s.nextLoan, t.loans[s.nextLoan]);
    assert Sound(t, owner[c := ByLoan(s.nextLoan)]);
  }

  lemma CloseLoanSound(s: State, owner: map<Id, Claim>, l: Id, loan: Loan, row: Copy)
    requires Sound(s, owner) && l in s.loans && Open(s.loans[l])
    requires loan.copy == s.loans[l].copy && !Open(loan) && (loan.status == Returned ==> loan.returnedAt.Some?)
    requires row.status in {Available, Lost, Repair}
    ensures Sound(PutCopy(PutLoan(s, l, loan), loan.copy, row), owner[loan.copy := Nobody])
  {
    hide LoansOwned, HoldsOwned, IllsOwned;
    var c := loan.copy;
    LoanClosed(s.loans, owner, l, loan);
    HoldsElsewhere(s.holds, s.copies, owner, c, row, Nobody);
    IllsElsewhere(s.ills, owner, c, Nobody);
    assert s.copies[c := row].Keys == s.copies.Keys;
    assert s.loans[l := loan].Keys == s.loans.Keys;
  }

  /** A hold that claims a copy lets it go and the copy becomes free. */
  lemma DropHoldSound(s: State, owner: map<Id, Claim>, h: Id, hold: Hold, c: Id, status: CopyStatus)
    requires Sound(s, owner) && h in s.holds && s.holds[h].copy == Some(c) && Claiming(s.holds[h])
    requires !Claiming(hold) && (hold.copy.Some? ==> hold.copy == Some(c)) && hold.status != Fulfilled
    requires status in {Available, Repair}
    ensures c in s.copies && Sound(SetStatus(PutHold(s, h, hold), c, status), owner[c := Nobody])
  {
    hide LoansOwned, HoldsOwned, IllsOwned;
    var row := s.copies[c].(status := status, updatedAt := s.now);
    HoldLetsGo(s.holds, s.copies, owner, h, hold, c, row, Nobody);
    LoansElsewhere(s.loans, owner, c, Nobody);
    IllsElsewhere(s.ills, owner, c, Nobody);
    assert s.copies[c := row].Keys == s.copies.Keys;
  }

  // ---------------------------------------------------------------- transactions

  lemma BorrowSound(R: Rules, s: State, patron: Id, work: Id, at: Option<Id>, override: bool, actor: bool,
                    standing: Standing, fallback: bool)
    requires Allocated(s) && Borrow(R, s, patron, work, at, override, actor, standing, fallback).Done?
    ensures Allocated(Borrow(R, s, patron, work, at, override, actor, standing, fallback).after)
  {
    hide Allocated;
    var org := R.orgOf(patron);
    var ready := ReadyHold(s, patron, org, work);
    if ready.Some? {
      PickUpSound(R, s, patron, ready.value);
    } else {
      var branch := if at.Some? then at else R.homeOf(patron);
      CheckOutSound(R, s, patron, WalkInCopy(R, s, org, work, branch, fallback).value);
    }
  }

  function PickUp(R: Rules, s: State, patron: Id, h: Id, c: Id): State
    requires h in s.holds && c in s.copies
  {
    PutHold(CheckOut(R, s, patron, c), h, s.holds[h].(status := Fulfilled, loan := Some(s.nextLoan)))
  }

  lemma PickUpLinked(R: Rules, s: State, patron: Id, h: Id)
    requires Linked(s) && h in s.holds && s.holds[h].status == Ready
    ensures s.holds[h].copy.Some? && s.holds[h].copy.value in s.copies
    ensures Linked(PickUp(R, s, patron, h, s.holds[h].copy.value)) && s.nextLoan !in s.loans
  {
    assert CheckOut(R, s, patron, s.holds[h].copy.value).copies.Keys == s.copies.Keys;
  }

  /** Picking up a reserved copy passes it from the hold to the new loan. */
  lemma PickUpSound(R: Rules, s: State, patron: Id, h: Id)
    requires Allocated(s) && h in s.holds && s.holds[h].status == Ready
    ensures s.holds[h].copy.Some? && s.holds[h].copy.value in s.copies
    ensures Allocated(PickUp(R, s, patron, h, s.holds[h].copy.value))
  {
    hide LoansOwned, HoldsOwned, IllsOwned, Linked;
    var owner: map<Id, Claim> :| Sound(s, owner);
    PickUpLinked(R, s, patron, h);
    var c := s.holds[h].copy.value;
    var fulfilled := s.holds[h].(status := Fulfilled, loan := Some(s.nextLoan));
    var lent := CheckOut(R, s, patron, c);
    HoldLetsGo(s.holds, s.copies, owner, h, fulfilled, c, lent.copies[c], ByLoan(s.nextLoan));
    LoanOpened(s.loans, owner, c, s.nextLoan, lent.loans[s.nextLoan]);
    IllsElsewhere(s.ills, owner, c, ByLoan(s.nextLoan));
    assert Sound(PickUp(R, s, patron, h, c), owner[c := ByLoan(s.nextLoan)]);
  }

  /** Closing a loan frees its copy, whatever free status the copy then gets. */
  lemma ClosedSound(s: State, l: Id, loan: Loan, row: Copy)
    requires Allocated(s) && l in s.loans && Open(s.loans[l]) && s.loans[l].copy in s.copies
    requires loan.copy == s.loans[l].copy && !Open(loan) && (loan.status == Returned ==> loan.returnedAt.Some?)
    requires row.status in {Available, Lost, Repair}
    ensures Allocated(PutCopy(PutLoan(s, l, loan), loan.copy, row))
  {
    var owner: map<Id, Claim> :| Sound(s, owner);
    CloseLoanSound(s, owner, l, loan, row);
  }

  lemma ReturnSound(R: Rules, s: State, l: Id, settle: Option<Id>)
    requires Allocated(s) && ReturnLoan(R, s, l, settle).Done?
    ensures Allocated(ReturnLoan(R, s, l, settle).after)
  {
    hide Allocated;
    var loan := s.loans[l];
    ClosedSound(s, l, ReturnedRow(R, loan, s.now), SettledRow(R, s.copies[loan.copy], settle, s.now));
    OfferSound(R, TakenBack(R, s, l, settle), loan.copy);
  }

  /** Renewing and flagging overdue leave every claim where it was. */
  lemma LoanDatesSound(s: State, loans: map<Id, Loan>)
    requires Allocated(s) && loans.Keys == s.loans.Keys
    requires forall l | l in loans :: loans[l].copy == s.loans[l].copy && loans[l].returnedAt == s.loans[l].returnedAt
    requires forall l | l in loans :: loans[l].status == s.loans[l].status || (Open(loans[l]) && Open(s.loans[l]))
    ensures Allocated(s.(loans := loans))
  {
    var owner: map<Id, Claim> :| Sound(s, owner);
    assert LoansOwned(loans, owner);
    assert LoansLinked(loans, s.copies.Keys, s.nextLoan);
    assert Sound(s.(loans := loans), owner);
  }

  lemma OpenLoanIsLoaned(s: State, l: Id)
    requires Allocated(s) && l in s.loans && Open(s.loans[l])
    ensures s.loans[l].copy in s.copies && s.copies[s.loans[l].copy].status == Loaned
  {
    var owner: map<Id, Claim> :| Sound(s, owner);
    assert owner[s.loans[l].copy] == ByLoan(l);
    assert Fits(s.copies[s.loans[l].copy].status, owner[s.loans[l].copy]);
  }

  lemma CloseSound(R: Rules, s: State, op: Op)
    requires Allocated(s) && Apply(R, s, op).Done?
    requires op.OpLost? || op.OpClaimsReturned? || op.OpDamaged?
    ensures Allocated(Apply(R, s, op).after)
  {
    hide Allocated;
    var l := op.loan;
    var loan := s.loans[l];
    OpenLoanIsLoaned(s, l);
    var closed := if op.OpLost? then loan.(status := LoanLost)
                  else if op.OpClaimsReturned? then loan.(status := ClaimsReturned)
                  else ReturnedRow(R, loan, s.now);
    var status := if op.OpDamaged? then Repair else Lost;
    ClosedSound(s, l, closed, s.copies[loan.copy].(status := status, updatedAt := s.now));
  }

  /** A new hold starts without a copy. */
  lemma EnqueueSound(s: State, hold: Hold)
    requires Allocated(s) && hold.status == Waiting && hold.copy.None?
    ensures Allocated(Enqueue(s, hold)) && s.nextHold !in s.holds
  {
    var owner: map<Id, Claim> :| Sound(s, owner);
    HoldIdle(s.holds, s.copies, owner, s.nextHold, hold);
    assert Sound(Enqueue(s, hold), owner);
  }

  lemma PlaceHoldSound(R: Rules, s: State, patron: Id, work: Id, at: Option<Id>, standing: Standing)
    requires Allocated(s) && PlaceHold(R, s, patron, work, at, standing).Done?
    ensures Allocated(PlaceHold(R, s, patron, work, at, standing).after)
  {
    hide Allocated;
    var org := R.orgOf(patron);
    var branch := if at.Some? then at else R.homeOf(patron);
    var hold := Hold(org, work, patron, branch.value, None, None, s.now, 0, 0, Waiting, 0);
    EnqueueSound(s, hold);
    var c := OfferedCopy(R, s, org, work, branch.value);
    if Queue(s, org, work) == {} && c.Some? {
      GiveSound(R, Enqueue(s, hold), s.nextHold, c.value);
    }
  }

  /** A hold that claims a copy lets it go and the copy becomes free. */
  lemma DroppedSound(s: State, h: Id, hold: Hold, c: Id, status: CopyStatus)
    requires Allocated(s) && h in s.holds && s.holds[h].copy == Some(c) && Claiming(s.holds[h]) && c in s.copies
    requires !Claiming(hold) && (hold.copy.Some? ==> hold.copy == Some(c)) && hold.status != Fulfilled
    requires status in {Available, Repair}
    ensures Allocated(SetStatus(PutHold(s, h, hold), c, status))
  {
    var owner: map<Id, Claim> :| Sound(s, owner);
    DropHoldSound(s, owner, h, hold, c, status);
  }

  lemma IdleHoldSound(s: State, h: Id, hold: Hold)
    requires Allocated(s) && h in s.holds && !Claiming(s.holds[h]) && hold.copy.None?
        && hold.status in {Cancelled, Expired}
    ensures Allocated(PutHold(s, h, hold))
  {
    var owner: map<Id, Claim> :| Sound(s, owner);
    HoldIdle(s.holds, s.copies, owner, h, hold);
    assert Sound(PutHold(s, h, hold), owner);
  }

  lemma ReadyHasCopy(s: State, h: Id)
    requires Allocated(s) && h in s.holds && s.holds[h].status == Ready
    ensures s.holds[h].copy.Some?
  {}

  lemma ReleaseSound(R: Rules, s: State, h: Id, status: HoldStatus)
    requires Allocated(s) && Reservable(s, h) && Live(s.holds[h]) && status in {Cancelled, Expired}
    ensures Allocated(Release(R, s, h, status))
  {
    hide Allocated;
    var hold := s.holds[h].(status := status);
    if s.holds[h].copy.Some? {
      var c := s.holds[h].copy.value;
      DroppedSound(s, h, hold, c, Available);
      OfferSound(R, SetStatus(PutHold(s, h, hold), c, Available), c);
    } else {
      if s.holds[h].status == Ready { ReadyHasCopy(s, h); }
      IdleHoldSound(s, h, hold);
    }
  }

  /** A copy in transit always has exactly the one waiting hold it is travelling to. */
  lemma TransitHasHold(s: State, c: Id)
    requires Allocated(s) && c in s.copies && s.copies[c].status == InTransit
    ensures exists h :: h in s.holds && Assigned(s, c, Waiting) == {h} && WaitingFor(s, c) == Some(h)
                        && Suits(s.copies[c], s.holds[h])
  {
    hide Linked, LoansOwned, IllsOwned;
    var owner: map<Id, Claim> :| Sound(s, owner);
    assert Fits(s.copies[c].status, owner[c]);
    var h := owner[c].id;
    assert Suits(s.copies[c], s.holds[h]);
    assert h in Assigned(s, c, Waiting);
    forall g | g in Assigned(s, c, Waiting) ensures g == h {
      assert Claiming(s.holds[g]);
    }
    var ranks := HoldRanks(s, Assigned(s, c, Waiting));
    assert h in ranks;
  }

  /** The travelling copy arrives: its hold keeps it, now reserved at the pickup branch. */
  lemma ArriveSound(s: State, h: Id, hold: Hold, c: Id, row: Copy)
    requires Allocated(s) && h in s.holds && s.holds[h].copy == Some(c) && Claiming(s.holds[h]) && c in s.copies
    requires hold.status == Ready && hold.copy == Some(c) && Suits(row, hold)
    ensures Allocated(PutHold(PutCopy(s, c, row), h, hold))
  {
    hide LoansOwned, HoldsOwned, IllsOwned;
    var owner: map<Id, Claim> :| Sound(s, owner);
    HoldArrives(s.holds, s.copies, owner, h, hold, c, row);
    assert s.copies[c := row].Keys == s.copies.Keys;
    assert Sound(PutHold(PutCopy(s, c, row), h, hold), owner);
  }

  lemma ReceiveSound(R: Rules, s: State, c: Id)
    requires Allocated(s) && Receive(R, s, c).Done?
    ensures Allocated(Receive(R, s, c).after)
  {
    hide Allocated;
    TransitHasHold(s, c);
    var t := Receive(R, s, c).after;
    var h := WaitingFor(s, c).value;
    ArriveSound(s, h, t.holds[h], c, t.copies[c]);
    assert t.copies == s.copies[c := t.copies[c]];
  }

  lemma DropTransitSound(R: Rules, s: State, h: Id, c: Id, giveUp: bool)
    requires Allocated(s) && c in s.copies && h in s.holds && s.holds[h].copy == Some(c) && s.holds[h].status == Waiting
    ensures Allocated(DropTransit(R, s, h, c, giveUp))
  {
    hide Allocated;
    var hold := s.holds[h].(attempts := s.holds[h].attempts + 1, copy := None);
    var status := if giveUp then Repair else Available;
    DroppedSound(s, h, hold, c, status);
    if !giveUp {
      OfferSound(R, SetStatus(PutHold(s, h, hold), c, status), c);
    }
  }

  lemma TimeOutSound(R: Rules, s: State, c: Id, maxDays: nat, maxAttempts: nat)
    requires Allocated(s) && TimeOutTransit(R, s, c, maxDays, maxAttempts).Done?
    ensures Allocated(TimeOutTransit(R, s, c, maxDays, maxAttempts).after)
  {
    hide Allocated, DropTransit;
    TransitHasHold(s, c);
    var h := WaitingFor(s, c).value;
    DropTransitSound(R, s, h, c, s.holds[h].attempts + 1 >= maxAttempts);
  }

  /** A row edit that keeps the copy serving the same claim. */
  lemma CopyEditSound(s: State, c: Id, row: Copy)
    requires Allocated(s) && c in s.copies
    requires s.copies[c].status !in {Loaned, OnHold, InTransit}
    requires row.status == s.copies[c].status || row.status == Retired
             || (s.copies[c].status in {Available, Repair} && row.status in {Available, Repair})
    ensures Allocated(PutCopy(s, c, row))
  {
    hide LoansOwned, HoldsOwned, IllsOwned;
    var owner: map<Id, Claim> :| Sound(s, owner);
    assert Fits(s.copies[c].status, owner[c]) && Fits(row.status, owner[c]);
    HoldsElsewhere(s.holds, s.copies, owner, c, row, owner[c]);
    assert owner == owner[c := owner[c]];
    assert HoldsOwned(s.holds, s.copies[c := row], owner);
    assert s.copies[c := row].Keys == s.copies.Keys;
    assert Sound(PutCopy(s, c, row), owner);
  }

  lemma AddCopySound(s: State, row: Copy)
    requires Allocated(s) && row.status == Available
    ensures Allocated(PutCopy(s, s.nextCopy, row).(nextCopy := s.nextCopy + 1))
  {
    hide LoansOwned, HoldsOwned, IllsOwned, CopiesOwned, Linked;
    var owner: map<Id, Claim> :| Sound(s, owner);
    var c := s.nextCopy;
    AddCopyLinked(s, owner, row);
    HoldsElsewhere(s.holds, s.copies, owner, c, row, Nobody);
    IllsElsewhere(s.ills, owner, c, Nobody);
    LoansElsewhere(s.loans, owner, c, Nobody);
    assert Sound(PutCopy(s, c, row).(nextCopy := c + 1), owner[c := Nobody]);
  }

  lemma AddCopyLinked(s: State, owner: map<Id, Claim>, row: Copy)
    requires Linked(s) && CopiesOwned(s.copies, owner) && row.status == Available
    ensures s.nextCopy !in owner
    ensures Linked(PutCopy(s, s.nextCopy, row).(nextCopy := s.nextCopy + 1))
    ensures CopiesOwned(s.copies[s.nextCopy := row], owner[s.nextCopy := Nobody])
  {}

  lemma CopySound(R: Rules, s: State, op: Op)
    requires Allocated(s) && Apply(R, s, op).Done?
    requires op.OpRetire? || op.OpWeed? || op.OpMove? || op.OpBulkEdit?
    ensures Allocated(Apply(R, s, op).after)
  {
    hide Allocated;
    var c := op.copy;
    var t := Apply(R, s, op).after;
    if s.copies[c].status == Loaned {
      LoanedHasLoan(s, c);
    }
    if t != s {
      CopyEditSound(s, c, t.copies[c]);
      assert t == PutCopy(s, c, t.copies[c]);
    }
  }

  lemma LoanedHasLoan(s: State, c: Id)
    requires Allocated(s) && c in s.copies && s.copies[c].status == Loaned
    ensures OpenLoansOn(s, c) != {}
  {
    var owner: map<Id, Claim> :| Sound(s, owner);
    assert Fits(s.copies[c].status, owner[c]);
    assert owner[c].id in OpenLoansOn(s, c);
  }

  lemma IssueIllSound(s: State, org: Id, patron: Id, work: Id, lender: Option<Id>)
    requires Allocated(s) && (lender.Some? ==> lender.value in s.copies && s.copies[lender.value].status == Available)
    ensures Allocated(IssueIll(s, org, patron, work, lender))
  {
    hide LoansOwned, HoldsOwned, IllsOwned;
    var owner: map<Id, Claim> :| Sound(s, owner);
    var t := IssueIll(s, org, patron, work, lender);
    if lender.Some? {
      var c := lender.value;
      assert Fits(s.copies[c].status, owner[c]);
      FreeCopyTaken(s, owner, c, t.copies[c], ByIll(s.nextIll));
      IllOpened(s.ills, owner, s.nextIll, t.ills[s.nextIll], c);
      assert Sound(t, owner[c := ByIll(s.nextIll)]);
    } else {
      IllMoves(s.ills, owner, s.nextIll, t.ills[s.nextIll]);
      assert Sound(t, owner);
    }
  }

  lemma RequestIllSound(R: Rules, s: State, patron: Id, work: Id, consortium: Id, standing: Standing)
    requires Allocated(s) && RequestIll(R, s, patron, work, consortium, standing).Done?
    ensures Allocated(RequestIll(R, s, patron, work, consortium, standing).after)
  {
    hide Allocated;
    var org := R.orgOf(patron);
    var lender := First(map c | c in LenderShelf(R, s, consortium, work, org) :: s.copies[c].org);
    IssueIllSound(s, org, patron, work, lender);
  }

  lemma AdvanceSound(s: State, i: Id, from: IllStatus, to: IllStatus)
    requires Allocated(s) && AdvanceIll(s, i, from, to).Done?
    requires from in {Requested, Shipped, OnLoan} && to in {Shipped, OnLoan, Returning}
    ensures Allocated(AdvanceIll(s, i, from, to).after)
  {
    hide LoansOwned, HoldsOwned, IllsOwned;
    var owner: map<Id, Claim> :| Sound(s, owner);
    var t := AdvanceIll(s, i, from, to).after;
    IllMoves(s.ills, owner, i, t.ills[i]);
    assert Sound(t, owner);
  }

  /** A request that never reserved a copy closes without touching one. */
  lemma IdleIllSound(s: State, i: Id, ill: IllRequest)
    requires Allocated(s) && i in s.ills && s.ills[i].status == Unfilled && ill.status in {Completed, IllCancelled}
    ensures s.ills[i].copy.None? && Allocated(PutIll(s, i, ill))
  {
    hide LoansOwned, HoldsOwned, IllsOwned;
    var owner: map<Id, Claim> :| Sound(s, owner);
    IllMoves(s.ills, owner, i, ill);
    assert Sound(PutIll(s, i, ill), owner);
  }

  /** A request that holds a copy lets it go; the copy comes back, unless it was retired meanwhile. */
  lemma DroppedIllSound(s: State, i: Id, ill: IllRequest, c: Id, row: Copy)
    requires Allocated(s) && i in s.ills && InFlight(s.ills[i]) && ill.status in {Completed, IllCancelled}
    requires s.ills[i].copy == Some(c) && row.status in {Available, Retired}
    ensures Allocated(PutIll(PutCopy(s, c, row), i, ill))
  {
    hide LoansOwned, HoldsOwned, IllsOwned;
    var owner: map<Id, Claim> :| Sound(s, owner);
    IllLetsGo(s.ills, owner, i, ill, c);
    HoldsElsewhere(s.holds, s.copies, owner, c, row, Nobody);
    LoansElsewhere(s.loans, owner, c, Nobody);
    assert s.copies[c := row].Keys == s.copies.Keys;
    assert Sound(PutIll(PutCopy(s, c, row), i, ill), owner[c := Nobody]);
  }

  lemma InFlightCopyIsOut(s: State, i: Id)
    requires Allocated(s) && i in s.ills && InFlight(s.ills[i])
    ensures s.ills[i].copy.Some? && s.ills[i].copy.value in s.copies
    ensures s.copies[s.ills[i].copy.value].status in {Ill, Retired}
  {
    var owner: map<Id, Claim> :| Sound(s, owner);
    var c := s.ills[i].copy.value;
    assert Fits(s.copies[c].status, owner[c]);
  }

  lemma CloseIllSound(R: Rules, s: State, i: Id, status: IllStatus)
    requires Allocated(s) && i in s.ills && OpenIll(s.ills[i]) && status in {Completed, IllCancelled}
    ensures Allocated(CloseIll(R, s, i, status))
  {
    hide Allocated;
    var ill := s.ills[i].(status := status, patron := Scrubbed(R, s.ills[i].patron));
    if s.ills[i].status == Unfilled {
      IdleIllSound(s, i, ill);
    } else {
      InFlightCopyIsOut(s, i);
      var c := s.ills[i].copy.value;
      var t := CloseIll(R, s, i, status);
      DroppedIllSound(s, i, ill, c, t.copies[c]);
      assert t.copies == s.copies[c := t.copies[c]];
    }
  }

  lemma CheckInSound(R: Rules, s: State, c: Id)
    requires Allocated(s) && CheckIn(R, s, c).Done?
    ensures Allocated(CheckIn(R, s, c).after)
  {
    hide Allocated;
    if s.copies[c].status == InTransit {
      ReceiveSound(R, s, c);
    } else {
      var loan := First(map l | l in OpenLoansOn(s, c) :: -s.loans[l].borrowedAt);
      ReturnSound(R, s, loan.value, None);
    }
  }

  lemma TickSound(s: State, now: int)
    requires Allocated(s)
    ensures Allocated(s.(now := now))
  {
    var owner: map<Id, Claim> :| Sound(s, owner);
    assert Sound(s.(now := now), owner);
  }

  lemma StepAllocated(R: Rules, s: State, op: Op)
    requires Allocated(s)
    ensures Allocated(Step(R, s, op))
  {
    hide Allocated;
    if Apply(R, s, op).Done? {
      match op
      case OpTick(d) => TickSound(s, s.now + d);
      case OpAddCopy(o, w, e, b, code, v, p, f) => AddCopySound(s, Copy(o, w, e, b, code, Available, v, p, f, s.now));
      case OpBorrow(p, w, at, o, a, st, f) => BorrowSound(R, s, p, w, at, o, a, st, f);
      case OpReturn(l, settle) => ReturnSound(R, s, l, settle);
      case OpRenew(_, _) => LoanDatesSound(s, Step(R, s, op).loans);
      case OpFlagOverdue => LoanDatesSound(s, Step(R, s, op).loans);
      case OpPlaceHold(p, w, at, st) => PlaceHoldSound(R, s, p, w, at, st);
      case OpCancelHold(h) => ReleaseSound(R, s, h, Cancelled);
      case OpExpireHold(h) => ReleaseSound(R, s, h, Expired);
      case OpReceive(c) => ReceiveSound(R, s, c);
      case OpCheckIn(c) => CheckInSound(R, s, c);
      case OpTimeOut(c, d, m) => TimeOutSound(R, s, c, d, m);
      case OpReconcile(c) => OfferSound(R, s, c);
      case OpRequestIll(p, w, k, st) => RequestIllSound(R, s, p, w, k, st);
      case OpLost(_) => CloseSound(R, s, op);
      case OpClaimsReturned(_) => CloseSound(R, s, op);
      case OpDamaged(_) => CloseSound(R, s, op);
      case OpRetire(_) => CopySound(R, s, op);
      case OpWeed(_) => CopySound(R, s, op);
      case OpMove(_, _) => CopySound(R, s, op);
      case OpBulkEdit(_, _, _) => CopySound(R, s, op);
      case OpShipIll(i) => AdvanceSound(s, i, Requested, Shipped);
      case OpReceiveIll(i) => AdvanceSound(s, i, Shipped, OnLoan);
      case OpReturnIll(i) => AdvanceSound(s, i, OnLoan, Returning);
      case OpCheckInIll(i) => CloseIllSound(R, s, i, Completed);
      case OpCancelIll(i) => CloseIllSound(R, s, i, IllCancelled);
    }
  }

  lemma {:induction false} RunAllocated(R: Rules, ops: seq<Op>)
    ensures Allocated(Run(R, EMPTY, ops))
    decreases |ops|
  {
    if ops == [] {
      assert Sound(EMPTY, map[]);
    } else {
      RunAllocated(R, ops[..|ops| - 1]);
      StepAllocated(R, Run(R, EMPTY, ops[..|ops| - 1]), ops[|ops| - 1]);
    }
  }

  // ---------------------------------------------------------------- what it means

  /** Claims counted copy by copy. */
  ghost predicate Exclusive(s: State) {
    && (forall c | c in s.copies :: |OpenLoansOn(s, c)| == if s.copies[c].status == Loaned then 1 else 0)
    && (forall c | c in s.copies :: |Assigned(s, c, Ready)| == if s.copies[c].status == OnHold then 1 else 0)
    && (forall c | c in s.copies :: |Assigned(s, c, Waiting)| == if s.copies[c].status == InTransit then 1 else 0)
    && (forall c | c in s.copies ::
          |InFlightOn(s, c)| == 0 || (|InFlightOn(s, c)| == 1 && s.copies[c].status in {Ill, Retired}))
    && (forall c | c in s.copies :: s.copies[c].status == Ill ==> |InFlightOn(s, c)| == 1)
    && (forall h | h in s.holds && Claiming(s.holds[h]) ::
          s.holds[h].copy.Some? && s.holds[h].copy.value in s.copies
              && Suits(s.copies[s.holds[h].copy.value], s.holds[h]))
    && (forall i | i in s.ills && InFlight(s.ills[i]) :: s.ills[i].copy.Some? && s.ills[i].copy.value in s.copies)
  }

  lemma CardinalityOne<T>(s: set<T>, x: T)
    requires x in s && forall y | y in s :: y == x
    ensures |s| == 1
  {
    assert s == {x};
  }

  lemma LoansCount(s: State, owner: map<Id, Claim>, c: Id)
    requires Sound(s, owner) && c in s.copies
    ensures |OpenLoansOn(s, c)| == if s.copies[c].status == Loaned then 1 else 0
  {
    assert Fits(s.copies[c].status, owner[c]);
    if owner[c].ByLoan? {
      CardinalityOne(OpenLoansOn(s, c), owner[c].id);
    } else {
      assert OpenLoansOn(s, c) == {};
    }
  }

  lemma HoldsCount(s: State, owner: map<Id, Claim>, c: Id, status: HoldStatus)
    requires Sound(s, owner) && c in s.copies && status in {Ready, Waiting}
    ensures |Assigned(s, c, status)| == if s.copies[c].status == (if status == Ready then OnHold else InTransit) then 1
        else 0
  {
    assert Fits(s.copies[c].status, owner[c]);
    if owner[c].ByHold? && s.holds[owner[c].id].status == status {
      CardinalityOne(Assigned(s, c, status), owner[c].id);
    } else {
      forall h | h in Assigned(s, c, status) ensures false {
        assert Claiming(s.holds[h]);
      }
      assert Assigned(s, c, status) == {};
    }
  }

  lemma IllsCount(s: State, owner: map<Id, Claim>, c: Id)
    requires Sound(s, owner) && c in s.copies
    ensures |InFlightOn(s, c)| == if owner[c].ByIll? then 1 else 0
    ensures s.copies[c].status == Ill ==> owner[c].ByIll?
    ensures owner[c].ByIll? ==> s.copies[c].status in {Ill, Retired}
  {
    assert Fits(s.copies[c].status, owner[c]);
    if owner[c].ByIll? {
      CardinalityOne(InFlightOn(s, c), owner[c].id);
    } else {
      assert InFlightOn(s, c) == {};
    }
  }

  lemma AllocatedIsExclusive(s: State)
    requires Allocated(s)
    ensures Linked(s) && Exclusive(s)
  {
    var owner: map<Id, Claim> :| Sound(s, owner);
    forall c | c in s.copies
      ensures |OpenLoansOn(s, c)| == if s.copies[c].status == Loaned then 1 else 0
      ensures |Assigned(s, c, Ready)| == if s.copies[c].status == OnHold then 1 else 0
      ensures |Assigned(s, c, Waiting)| == if s.copies[c].status == InTransit then 1 else 0
      ensures |InFlightOn(s, c)| == 0 || (|InFlightOn(s, c)| == 1 && s.copies[c].status in {Ill, Retired})
      ensures s.copies[c].status == Ill ==> |InFlightOn(s, c)| == 1
    {
      LoansCount(s, owner, c);
      HoldsCount(s, owner, c, Ready);
      HoldsCount(s, owner, c, Waiting);
      IllsCount(s, owner, c);
    }
  }

  lemma SingletonUnique<T>(s: set<T>, x: T, y: T)
    requires |s| == 1 && x in s && y in s
    ensures x == y
  {
    assert |s - {x}| == 0;
  }

  ghost function OwnerOf(s: State, c: Id): Claim {
    var held := Assigned(s, c, Ready) + Assigned(s, c, Waiting);
    if OpenLoansOn(s, c) != {} then var l :| l in OpenLoansOn(s, c); ByLoan(l)
    else if held != {} then var h :| h in held; ByHold(h)
    else if InFlightOn(s, c) != {} then var i :| i in InFlightOn(s, c); ByIll(i)
    else Nobody
  }

  lemma OpenLoanOwner(s: State, l: Id)
    requires Linked(s) && Exclusive(s) && l in s.loans && Open(s.loans[l])
    ensures s.loans[l].copy in s.copies && OwnerOf(s, s.loans[l].copy) == ByLoan(l)
  {
    var c := s.loans[l].copy;
    assert l in OpenLoansOn(s, c);
    SingletonUnique(OpenLoansOn(s, c), l, OwnerOf(s, c).id);
  }

  lemma ClaimingHoldOwner(s: State, h: Id)
    requires Linked(s) && Exclusive(s) && h in s.holds && Claiming(s.holds[h])
    ensures s.holds[h].copy.Some? && OwnerOf(s, s.holds[h].copy.value) == ByHold(h)
  {
    var c := s.holds[h].copy.value;
    var status := s.holds[h].status;
    assert h in Assigned(s, c, status);
    assert OpenLoansOn(s, c) == {};
    assert Assigned(s, c, if status == Ready then Waiting else Ready) == {};
    assert OwnerOf(s, c).ByHold?;
    SingletonUnique(Assigned(s, c, status), h, OwnerOf(s, c).id);
  }

  lemma InFlightOwner(s: State, i: Id)
    requires Exclusive(s) && i in s.ills && InFlight(s.ills[i])
    ensures s.ills[i].copy.Some? && OwnerOf(s, s.ills[i].copy.value) == ByIll(i)
  {
    var c := s.ills[i].copy.value;
    assert i in InFlightOn(s, c);
    assert OpenLoansOn(s, c) == {} && Assigned(s, c, Ready) == {} && Assigned(s, c, Waiting) == {};
    SingletonUnique(InFlightOn(s, c), i, OwnerOf(s, c).id);
  }

  ghost function Owners(s: State): map<Id, Claim> { map c | c in s.copies :: OwnerOf(s, c) }

  lemma OwnersFit(s: State)
    requires Exclusive(s)
    ensures CopiesOwned(s.copies, Owners(s))
  {
    forall c | c in s.copies ensures Fits(s.copies[c].status, OwnerOf(s, c)) {
      if s.copies[c].status == Loaned { assert OpenLoansOn(s, c) != {}; }
      else if s.copies[c].status == OnHold { assert Assigned(s, c, Ready) != {}; }
      else if s.copies[c].status == InTransit { assert Assigned(s, c, Waiting) != {}; }
      else if s.copies[c].status == Ill { assert InFlightOn(s, c) != {}; }
    }
  }

  lemma OwnersOfLoans(s: State)
    requires Linked(s) && Exclusive(s)
    ensures LoansOwned(s.loans, Owners(s))
  {
    forall l | l in s.loans && Open(s.loans[l])
      ensures s.loans[l].copy in s.copies && OwnerOf(s, s.loans[l].copy) == ByLoan(l)
    {
      OpenLoanOwner(s, l);
    }
  }

  lemma OwnersOfHolds(s: State)
    requires Linked(s) && Exclusive(s)
    ensures HoldsOwned(s.holds, s.copies, Owners(s))
  {
    forall h | h in s.holds && Claiming(s.holds[h])
      ensures s.holds[h].copy.Some? && OwnerOf(s, s.holds[h].copy.value) == ByHold(h)
    {
      ClaimingHoldOwner(s, h);
    }
  }

  lemma OwnersOfIlls(s: State)
    requires Exclusive(s)
    ensures IllsOwned(s.ills, Owners(s))
  {
    forall i | i in s.ills && InFlight(s.ills[i])
      ensures s.ills[i].copy.Some? && OwnerOf(s, s.ills[i].copy.value) == ByIll(i)
    {
      InFlightOwner(s, i);
    }
  }

  /** The owner map is no more than the counts: any linked state with these counts has one. */
  lemma ExclusiveIsAllocated(s: State)
    requires Linked(s) && Exclusive(s)
    ensures Allocated(s)
  {
    OwnersFit(s);
    OwnersOfLoans(s);
    OwnersOfHolds(s);
    OwnersOfIlls(s);
    hide Linked, Exclusive, CopiesOwned, LoansOwned, HoldsOwned, IllsOwned;
    assert Sound(s, Owners(s));
  }

  /** Every reachable state: one loan per loaned copy, one ready hold per reserved copy, one waiting hold
      per travelling copy, at most one open request per lent copy, and none anywhere else. */
  lemma RunExclusive(R: Rules, ops: seq<Op>)
    ensures Exclusive(Run(R, EMPTY, ops)) && Linked(Run(R, EMPTY, ops))
  {
    RunAllocated(R, ops);
    AllocatedIsExclusive(Run(R, EMPTY, ops));
  }
}
