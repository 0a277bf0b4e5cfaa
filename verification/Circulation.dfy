/** Circulation state and the effect of every transaction on it.

    One value of `State` is the content of the copy, loan, hold and inter-library-loan tables
    together with the clock.  Each transaction of the desk is a function from state to
    `Outcome`; a refusal leaves the tables as they were.  The class `Library` carries out the
    same transactions by updating fields and is proved against these functions. */
module Circulation {
  import opened Common

  const DAY := 86400

  datatype CopyStatus = Available | Loaned | OnHold | InTransit | Ill | Lost | Retired | Repair

  datatype LoanStatus = Active | Overdue | Returned | LoanLost | ClaimsReturned

  datatype HoldStatus = Waiting | Ready | Fulfilled | Expired | Cancelled

  datatype IllStatus = Unfilled | Requested | Shipped | OnLoan | Returning | Completed | IllCancelled

  /** `published` is the public status of the copy's edition. */
  datatype Copy = Copy(org: Id, work: Id, edition: Id, branch: Id, barcode: Id, status: CopyStatus,
                       visible: bool, published: bool, floating: bool, updatedAt: int)

  datatype Loan = Loan(org: Id, copy: Id, patron: Option<Id>, borrowedAt: int, dueAt: int,
                       returnedAt: Option<int>, status: LoanStatus, renewals: nat)

  datatype Hold = Hold(org: Id, work: Id, patron: Id, branch: Id, copy: Option<Id>, loan: Option<Id>,
                       createdAt: int, readyAt: int, expiresAt: int, status: HoldStatus, attempts: nat)

  datatype IllRequest = IllRequest(org: Id, patron: Option<Id>, work: Id, copy: Option<Id>, status: IllStatus)

  datatype State = State(copies: map<Id, Copy>, loans: map<Id, Loan>, holds: map<Id, Hold>,
                         ills: map<Id, IllRequest>, now: int,
                         nextCopy: Id, nextLoan: Id, nextHold: Id, nextIll: Id)

  /** What circulation reads but never writes: patrons, branches, effective policies, consortia. */
  datatype Rules = Rules(
    orgOf: Id -> Id,
    homeOf: Id -> Option<Id>,
    retains: Id -> bool,
    branchOrg: Id -> Id,
    shelfRank: (Id, Id) -> int,
    holdable: (Id, Id) -> bool,
    loanDays: (Option<Id>, Id, Id) -> nat,
    maxRenewals: (Option<Id>, Id, Id) -> nat,
    pickupDays: (Id, Id, Id) -> nat,
    maxLoans: Id -> nat,
    maxHolds: Id -> nat,
    lends: (Id, Id) -> bool,
    borrows: (Id, Id) -> bool,
    allowsIll: Id -> bool)

  datatype Refusal = PatronInactive | NoActor | FinesTooHigh | LoanLimit | DuplicateLoan | HeldCopyGone
                   | QueueExists | NoCopy | NoSuchRow | NotInTransit | NothingToCheckIn | OnLoanNow
                   | Reserved | InFlightCopy | LoanClosed | NoPickupBranch | NotHoldable | NoHoldableCopy
                   | HoldLimit | DuplicateHold | HoldClosed | RenewalLimit | PatronsWaiting | NotDue
                   | NoPatron | NotMutable | IllForbidden | NotBorrower | DuplicateIll | AvailableLocally
                   | WrongIllStatus

  datatype Outcome = Done(after: State) | Refused(error: Refusal)

  const EMPTY := State(map[], map[], map[], map[], 0, 0, 0, 0, 0)

  // ---------------------------------------------------------------- row updates

  function PutCopy(s: State, c: Id, row: Copy): State { s.(copies := s.copies[c := row]) }

  function PutLoan(s: State, l: Id, row: Loan): State { s.(loans := s.loans[l := row]) }

  function PutHold(s: State, h: Id, row: Hold): State { s.(holds := s.holds[h := row]) }

  function PutIll(s: State, i: Id, row: IllRequest): State { s.(ills := s.ills[i := row]) }

  function SetStatus(s: State, c: Id, status: CopyStatus): State
    requires c in s.copies
  {
    PutCopy(s, c, s.copies[c].(status := status, updatedAt := s.now))
  }

  // ---------------------------------------------------------------- queries

  predicate Open(l: Loan) { l.status == Active || l.status == Overdue }

  predicate Live(h: Hold) { h.status == Waiting || h.status == Ready }

  predicate InFlight(i: IllRequest) {
    i.status == Requested || i.status == Shipped || i.status == OnLoan || i.status == Returning
  }

  predicate OpenIll(i: IllRequest) { i.status == Unfilled || InFlight(i) }

  function OpenLoans(s: State, patron: Id, org: Id): set<Id> {
    set l | l in s.loans && Open(s.loans[l]) && s.loans[l].patron == Some(patron) && s.loans[l].org == org
  }

  function LiveHolds(s: State, patron: Id, org: Id): set<Id> {
    set h | h in s.holds && Live(s.holds[h]) && s.holds[h].patron == patron && s.holds[h].org == org
  }

  predicate HasTitle(s: State, patron: Id, org: Id, work: Id) {
    exists l :: l in OpenLoans(s, patron, org) && s.loans[l].copy in s.copies && s.copies[s.loans[l].copy].work == work
  }

  /** Waiting holds on a title, whether or not a copy is already on its way to them. */
  function Queue(s: State, org: Id, work: Id): set<Id> {
    set h | h in s.holds && s.holds[h].status == Waiting && s.holds[h].org == org && s.holds[h].work == work
  }

  /** Waiting holds on a title that no copy has been assigned to. */
  function Unserved(s: State, org: Id, work: Id): set<Id> {
    set h | h in Queue(s, org, work) && s.holds[h].copy.None?
  }

  /** Hold `a` with id `h` is not behind hold `b` with id `g`. */
  predicate InTurn(a: Hold, h: Id, b: Hold, g: Id) {
    a.createdAt < b.createdAt || (a.createdAt == b.createdAt && h <= g)
  }

  function HoldRanks(s: State, ids: set<Id>): map<Id, int>
    requires ids <= s.holds.Keys
  {
    map h | h in ids :: s.holds[h].createdAt
  }

  /** The unserved hold that has waited longest, by (created_at, id). */
  function NextHold(s: State, org: Id, work: Id): (r: Option<Id>)
    ensures r.None? <==> Unserved(s, org, work) == {}
    ensures r.Some? ==> r.value in Unserved(s, org, work)
                        && forall g | g in Unserved(s, org, work) :: InTurn(s.holds[r.value], r.value, s.holds[g], g)
  {
    assert HoldRanks(s, Unserved(s, org, work)).Keys == Unserved(s, org, work);
    First(HoldRanks(s, Unserved(s, org, work)))
  }

  /** Copies a patron may be handed over the counter or sent: `available_copies_for_work`. */
  function Shelf(s: State, org: Id, work: Id, branch: Option<Id>): set<Id> {
    set c | c in s.copies && s.copies[c].org == org && s.copies[c].work == work && s.copies[c].published
            && s.copies[c].visible && s.copies[c].status == Available
            && (branch.None? || s.copies[c].branch == branch.value)
  }

  /** Copy `a` stands before copy `b`: by branch name and barcode, then number. */
  predicate Shelved(R: Rules, a: Copy, c: Id, b: Copy, d: Id) {
    var x, y := R.shelfRank(a.branch, a.barcode), R.shelfRank(b.branch, b.barcode);
    x < y || (x == y && c < d)
  }

  /** The first copy of a shelf in (branch name, barcode) order. */
  function FirstOnShelf(R: Rules, s: State, ids: set<Id>): (r: Option<Id>)
    requires ids <= s.copies.Keys
    ensures r.None? <==> ids == {}
    ensures r.Some? ==> r.value in ids && forall c | c in ids :: !Shelved(R, s.copies[c], c, s.copies[r.value], r.value)
  {
    var ranks := map c | c in ids :: R.shelfRank(s.copies[c].branch, s.copies[c].barcode);
    assert ranks.Keys == ids;
    First(ranks)
  }

  /** Holds in the given status whose assigned copy is `c`. */
  function Assigned(s: State, c: Id, status: HoldStatus): set<Id> {
    set h | h in s.holds && s.holds[h].copy == Some(c) && s.holds[h].status == status
  }

  function OpenLoansOn(s: State, c: Id): set<Id> {
    set l | l in s.loans && Open(s.loans[l]) && s.loans[l].copy == c
  }

  function InFlightOn(s: State, c: Id): set<Id> {
    set i | i in s.ills && InFlight(s.ills[i]) && s.ills[i].copy == Some(c)
  }

  // ---------------------------------------------------------------- reserving a copy for a hold

  function MarkReady(R: Rules, s: State, h: Id, c: Id): State
    requires h in s.holds && c in s.copies
  {
    var due := s.now + R.pickupDays(s.holds[h].patron, s.copies[c].edition, s.copies[c].branch) * DAY;
    PutHold(SetStatus(s, c, OnHold), h,
            s.holds[h].(copy := Some(c), status := Ready, readyAt := s.now, expiresAt := due))
  }

  /** Give copy `c` to hold `h`: reserve it if it already stands at the pickup branch, otherwise ship it. */
  function Give(R: Rules, s: State, h: Id, c: Id): State
    requires h in s.holds && c in s.copies
  {
    if s.copies[c].branch != s.holds[h].branch then
      PutHold(SetStatus(s, c, InTransit), h, s.holds[h].(copy := Some(c)))
    else
      MarkReady(R, s, h, c)
  }

  /** Offer a freed copy to the head of its title's queue. */
  function AssignNext(R: Rules, s: State, c: Id): State
    requires c in s.copies
  {
    var next := NextHold(s, s.copies[c].org, s.copies[c].work);
    if next.None? then s else Give(R, s, next.value, c)
  }

  // ---------------------------------------------------------------- loans

  /** Standing of the patron at the desk; kept outside the tables because staff may change it at any time. */
  datatype Standing = Standing(active: bool, finesTooHigh: bool)

  /** The copy a walk-in borrower gets: own branch first, then anywhere in the organization. */
  function WalkInCopy(R: Rules, s: State, org: Id, work: Id, branch: Option<Id>, fallback: bool): (r: Option<Id>)
    ensures r.Some? ==> r.value in Shelf(s, org, work, None)
    ensures r.None? ==> Shelf(s, org, work, branch) == {}
    ensures Shelf(s, org, work, branch) != {} ==> r.Some? && r.value in Shelf(s, org, work, branch)
    ensures Shelf(s, org, work, branch) == {} ==>
        (r.Some? <==> branch.Some? && fallback && Shelf(s, org, work, None) != {})
  {
    var near := Shelf(s, org, work, branch);
    FirstOnShelf(R, s, if near == {} && branch.Some? && fallback then Shelf(s, org, work, None) else near)
  }

  /** The patron's reserved hold on a title, if there is one. */
  function ReadyHold(s: State, patron: Id, org: Id, work: Id): (r: Option<Id>)
    ensures r.Some? ==> r.value in LiveHolds(s, patron, org) && s.holds[r.value].status == Ready
                        && s.holds[r.value].work == work
    ensures forall h | h in LiveHolds(s, patron, org) && s.holds[h].status == Ready && s.holds[h].work == work ::
              && r.Some? && s.holds[r.value].readyAt <= s.holds[h].readyAt
              && (s.holds[r.value].readyAt == s.holds[h].readyAt ==> r.value <= h)
  {
    var ranks := map h | h in LiveHolds(s, patron, org) && s.holds[h].status == Ready && s.holds[h].work == work
                   :: s.holds[h].readyAt;
    assert forall h | h in LiveHolds(s, patron, org) && s.holds[h].status == Ready && s.holds[h].work == work ::
           h in ranks;
    First(ranks)
  }

  function CheckOut(R: Rules, s: State, patron: Id, c: Id): State
    requires c in s.copies
  {
    var due := s.now + R.loanDays(Some(patron), s.copies[c].edition, s.copies[c].branch) * DAY;
    PutLoan(SetStatus(s, c, Loaned), s.nextLoan,
            Loan(R.orgOf(patron), c, Some(patron), s.now, due, None, Active, 0)).(nextLoan := s.nextLoan + 1)
  }

  function Borrow(R: Rules, s: State, patron: Id, work: Id, at: Option<Id>, override: bool, actor: bool,
                  standing: Standing, fallback: bool): Outcome
  {
    var org := R.orgOf(patron);
    var branch := if at.Some? then at else R.homeOf(patron);
    var ready := ReadyHold(s, patron, org, work);
    if !standing.active then Refused(PatronInactive)
    else if override && !actor then Refused(NoActor)
    else if !override && standing.finesTooHigh then Refused(FinesTooHigh)
    else if |OpenLoans(s, patron, org)| >= R.maxLoans(patron) then Refused(LoanLimit)
    else if HasTitle(s, patron, org, work) && !override then Refused(DuplicateLoan)
    else if ready.Some? then
      var c := s.holds[ready.value].copy;
      if c.None? || c.value !in s.copies || s.copies[c.value].status != OnHold then Refused(HeldCopyGone)
      else
        var lent := CheckOut(R, s, patron, c.value);
        Done(PutHold(lent, ready.value, s.holds[ready.value].(status := Fulfilled, loan := Some(s.nextLoan))))
    else if Queue(s, org, work) != {} && !override then Refused(QueueExists)
    else
      var c := WalkInCopy(R, s, org, work, branch, fallback);
      if c.None? then Refused(NoCopy) else Done(CheckOut(R, s, patron, c.value))
  }

  /** The patron column of a closed loan: cleared unless the patron keeps a history. */
  function Scrubbed(R: Rules, patron: Option<Id>): Option<Id> {
    if patron.Some? && !R.retains(patron.value) then None else patron
  }

  function ReturnedRow(R: Rules, loan: Loan, now: int): Loan {
    loan.(status := Returned, returnedAt := Some(now), patron := Scrubbed(R, loan.patron))
  }

  /** The row of a returned copy: a floating one settles at the branch it came back to. */
  function SettledRow(R: Rules, copy: Copy, settle: Option<Id>, now: int): Copy {
    var floats := settle.Some? && copy.floating && R.branchOrg(settle.value) == copy.org;
    copy.(status := Available, branch := if floats then settle.value else copy.branch, updatedAt := now)
  }

  /** The tables once a loan is closed and its copy back on the shelf, before the copy is offered on. */
  function TakenBack(R: Rules, s: State, l: Id, settle: Option<Id>): State
    requires l in s.loans && s.loans[l].copy in s.copies
  {
    var loan := s.loans[l];
    PutCopy(PutLoan(s, l, ReturnedRow(R, loan, s.now)), loan.copy, SettledRow(R, s.copies[loan.copy], settle, s.now))
  }

  function ReturnLoan(R: Rules, s: State, l: Id, settle: Option<Id>): Outcome {
    if l !in s.loans || s.loans[l].copy !in s.copies then Refused(NoSuchRow)
    else if !Open(s.loans[l]) then Refused(LoanClosed)
    else Done(AssignNext(R, TakenBack(R, s, l, settle), s.loans[l].copy))
  }

  function Renew(R: Rules, s: State, l: Id, standing: Standing): Outcome {
    if l !in s.loans || s.loans[l].copy !in s.copies then Refused(NoSuchRow)
    else if !Open(s.loans[l]) then Refused(LoanClosed)
    else if s.loans[l].patron.Some? && !standing.active then Refused(PatronInactive)
    else
      var loan := s.loans[l];
      var copy := s.copies[loan.copy];
      if loan.renewals >= R.maxRenewals(loan.patron, copy.edition, copy.branch) then Refused(RenewalLimit)
      else if Queue(s, loan.org, copy.work) != {} then Refused(PatronsWaiting)
      else
        var due := Max(loan.dueAt, s.now) + R.loanDays(loan.patron, copy.edition, copy.branch) * DAY;
        Done(PutLoan(s, l, loan.(dueAt := due, status := Active, renewals := loan.renewals + 1)))
  }

  function FlagOverdue(s: State): Outcome {
    Done(s.(loans := map l | l in s.loans ::
                       if s.loans[l].status == Active && s.loans[l].dueAt < s.now
                       then s.loans[l].(status := Overdue) else s.loans[l]))
  }

  /** Close a loan as lost, claimed returned or returned damaged, and take its copy off the shelf. */
  function CloseLoan(s: State, l: Id, loan: Loan, status: CopyStatus): State
    requires loan.copy in s.copies
  {
    SetStatus(PutLoan(s, l, loan), loan.copy, status)
  }

  function MarkLost(s: State, l: Id): Outcome {
    if l !in s.loans || s.loans[l].copy !in s.copies then Refused(NoSuchRow)
    else if !Open(s.loans[l]) then Refused(LoanClosed)
    else if s.loans[l].patron.None? then Refused(NoPatron)
    else Done(CloseLoan(s, l, s.loans[l].(status := LoanLost), Lost))
  }

  function MarkClaimsReturned(s: State, l: Id): Outcome {
    if l !in s.loans || s.loans[l].copy !in s.copies then Refused(NoSuchRow)
    else if !Open(s.loans[l]) then Refused(LoanClosed)
    else if s.copies[s.loans[l].copy].status != Loaned then
      Done(PutLoan(s, l, s.loans[l].(status := ClaimsReturned)))
    else Done(CloseLoan(s, l, s.loans[l].(status := ClaimsReturned), Lost))
  }

  function ReturnDamaged(R: Rules, s: State, l: Id): Outcome {
    if l !in s.loans || s.loans[l].copy !in s.copies then Refused(NoSuchRow)
    else if !Open(s.loans[l]) then Refused(LoanClosed)
    else if s.loans[l].patron.None? then Refused(NoPatron)
    else
      Done(CloseLoan(s, l, ReturnedRow(R, s.loans[l], s.now), Repair))
  }

  // ---------------------------------------------------------------- holds

  predicate HasHoldableCopy(s: State, org: Id, work: Id) {
    exists c :: c in s.copies && s.copies[c].org == org && s.copies[c].work == work && s.copies[c].status != Lost
  }

  predicate AlreadyHolds(s: State, patron: Id, org: Id, work: Id) {
    exists h :: h in LiveHolds(s, patron, org) && s.holds[h].work == work
  }

  function Enqueue(s: State, hold: Hold): State {
    PutHold(s, s.nextHold, hold).(nextHold := s.nextHold + 1)
  }

  /** The copy a new hold is offered when nobody else waits: pickup branch first, then anywhere. */
  function OfferedCopy(R: Rules, s: State, org: Id, work: Id, branch: Id): (r: Option<Id>)
    ensures r.Some? ==> r.value in Shelf(s, org, work, None)
    ensures r.None? <==> Shelf(s, org, work, None) == {}
    ensures Shelf(s, org, work, Some(branch)) != {} ==> r.Some? && r.value in Shelf(s, org, work, Some(branch))
  {
    var near := FirstOnShelf(R, s, Shelf(s, org, work, Some(branch)));
    assert Shelf(s, org, work, Some(branch)) <= Shelf(s, org, work, None);
    if near.Some? then near else FirstOnShelf(R, s, Shelf(s, org, work, None))
  }

  function PlaceHold(R: Rules, s: State, patron: Id, work: Id, at: Option<Id>, standing: Standing): Outcome {
    var org := R.orgOf(patron);
    var branch := if at.Some? then at else R.homeOf(patron);
    if !standing.active then Refused(PatronInactive)
    else if branch.None? then Refused(NoPickupBranch)
    else if !R.holdable(patron, work) then Refused(NotHoldable)
    else if !HasHoldableCopy(s, org, work) then Refused(NoHoldableCopy)
    else if |LiveHolds(s, patron, org)| >= R.maxHolds(patron) then Refused(HoldLimit)
    else if AlreadyHolds(s, patron, org, work) then Refused(DuplicateHold)
    else
      var placed := Enqueue(s, Hold(org, work, patron, branch.value, None, None, s.now, 0, 0, Waiting, 0));
      var c := OfferedCopy(R, s, org, work, branch.value);
      if Queue(s, org, work) != {} || c.None? then Done(placed) else Done(Give(R, placed, s.nextHold, c.value))
  }

  /** A hold leaves the queue; a copy reserved for it or on its way goes to the next patron. */
  function Release(R: Rules, s: State, h: Id, status: HoldStatus): State
    requires h in s.holds
    requires s.holds[h].copy.Some? ==> s.holds[h].copy.value in s.copies
  {
    var closed := PutHold(s, h, s.holds[h].(status := status));
    if s.holds[h].copy.None? then closed
    else AssignNext(R, SetStatus(closed, s.holds[h].copy.value, Available), s.holds[h].copy.value)
  }

  predicate Reservable(s: State, h: Id) {
    h in s.holds && (s.holds[h].copy.Some? ==> s.holds[h].copy.value in s.copies)
  }

  function CancelHold(R: Rules, s: State, h: Id): Outcome {
    if !Reservable(s, h) then Refused(NoSuchRow)
    else if !Live(s.holds[h]) then Refused(HoldClosed)
    else Done(Release(R, s, h, Cancelled))
  }

  predicate PickupMissed(s: State, h: Id) {
    Reservable(s, h) && s.holds[h].status == Ready && s.holds[h].expiresAt <= s.now
  }

  /** One iteration of the pickup-expiry sweep. */
  function ExpireHold(R: Rules, s: State, h: Id): Outcome {
    if PickupMissed(s, h) then Done(Release(R, s, h, Expired)) else Refused(NotDue)
  }

  // ---------------------------------------------------------------- transit

  /** The waiting hold copy `c` travels to. */
  function WaitingFor(s: State, c: Id): (r: Option<Id>)
    ensures r.None? <==> Assigned(s, c, Waiting) == {}
    ensures r.Some? ==> r.value in Assigned(s, c, Waiting)
  {
    assert HoldRanks(s, Assigned(s, c, Waiting)).Keys == Assigned(s, c, Waiting);
    First(HoldRanks(s, Assigned(s, c, Waiting)))
  }

  function Receive(R: Rules, s: State, c: Id): Outcome {
    if c !in s.copies then Refused(NoSuchRow)
    else if s.copies[c].status != InTransit then Refused(NotInTransit)
    else
      var hold := WaitingFor(s, c);
      if hold.None? then Done(SetStatus(s, c, Available))
      else
        var arrived := PutCopy(s, c, s.copies[c].(branch := s.holds[hold.value].branch));
        Done(MarkReady(R, arrived, hold.value, c))
  }

  /** Desk check-in: receive a copy in transit, or return the latest loan on it. */
  function CheckIn(R: Rules, s: State, c: Id): Outcome {
    var loan := First(map l | l in OpenLoansOn(s, c) :: -s.loans[l].borrowedAt);
    if c !in s.copies then Refused(NoSuchRow)
    else if s.copies[c].status == InTransit then Receive(R, s, c)
    else if loan.Some? then ReturnLoan(R, s, loan.value, None)
    else Refused(NothingToCheckIn)
  }

  predicate TransitStale(s: State, c: Id, maxDays: nat) {
    c in s.copies && s.copies[c].status == InTransit && s.copies[c].updatedAt < s.now - maxDays * DAY
  }

  /** Hold `h` loses the copy that never arrived; the copy is pulled for repair or offered again. */
  function DropTransit(R: Rules, s: State, h: Id, c: Id, giveUp: bool): State
    requires h in s.holds && c in s.copies
  {
    var dropped := PutHold(s, h, s.holds[h].(attempts := s.holds[h].attempts + 1, copy := None));
    if giveUp then SetStatus(dropped, c, Repair) else AssignNext(R, SetStatus(dropped, c, Available), c)
  }

  /** One iteration of the stale-transit sweep. */
  function TimeOutTransit(R: Rules, s: State, c: Id, maxDays: nat, maxAttempts: nat): Outcome {
    if !TransitStale(s, c, maxDays) then Refused(NotDue)
    else
      var hold := WaitingFor(s, c);
      if hold.None? then Done(AssignNext(R, SetStatus(s, c, Available), c))
      else Done(DropTransit(R, s, hold.value, c, s.holds[hold.value].attempts + 1 >= maxAttempts))
  }

  /** One iteration of the reconciliation sweep: offer an available copy to the queue. */
  function Reconcile(R: Rules, s: State, c: Id): Outcome {
    if c !in s.copies || s.copies[c].status != Available || !s.copies[c].visible then Refused(NotDue)
    else Done(AssignNext(R, s, c))
  }

  // ---------------------------------------------------------------- copies

  function AddCopy(s: State, org: Id, work: Id, edition: Id, branch: Id, barcode: Id, visible: bool,
                   published: bool, floating: bool): Outcome {
    Done(PutCopy(s, s.nextCopy,
                 Copy(org, work, edition, branch, barcode, Available, visible, published, floating, s.now))
         .(nextCopy := s.nextCopy + 1))
  }

  function Withdrawn(row: Copy, now: int): Copy { row.(status := Retired, visible := false, updatedAt := now) }

  function Withdraw(s: State, c: Id): State
    requires c in s.copies
  {
    PutCopy(s, c, Withdrawn(s.copies[c], s.now))
  }

  function Retire(s: State, c: Id): Outcome {
    if c !in s.copies then Refused(NoSuchRow)
    else if OpenLoansOn(s, c) != {} then Refused(OnLoanNow)
    else if s.copies[c].status == OnHold || s.copies[c].status == InTransit then Refused(Reserved)
    else Done(Withdraw(s, c))
  }

  function Weed(s: State, c: Id): Outcome {
    if c !in s.copies then Refused(NoSuchRow)
    else if s.copies[c].status in {Loaned, OnHold, InTransit, Ill} then Refused(InFlightCopy)
    else Done(Withdraw(s, c))
  }

  function MoveCopy(s: State, c: Id, to: Id): Outcome {
    if c !in s.copies then Refused(NoSuchRow)
    else if s.copies[c].status in {Loaned, OnHold, InTransit} then Refused(InFlightCopy)
    else if s.copies[c].branch == to then Done(s)
    else Done(PutCopy(s, c, s.copies[c].(branch := to, updatedAt := s.now)))
  }

  /** A row after a bulk edit; without a status or a visibility there is nothing to save. */
  function Edited(row: Copy, status: Option<CopyStatus>, visible: Option<bool>, now: int): Copy {
    if status.None? && visible.None? then row
    else row.(status := if status.Some? then status.value else row.status,
              visible := if visible.Some? then visible.value else row.visible, updatedAt := now)
  }

  /** One iteration of a bulk edit; `status` is limited to available or repair before the loop starts. */
  function BulkEdit(s: State, c: Id, status: Option<CopyStatus>, visible: Option<bool>): Outcome {
    if c !in s.copies then Refused(NoSuchRow)
    else if status.Some? && status.value !in {Available, Repair} then Refused(NotMutable)
    else if s.copies[c].status !in {Available, Repair} then Refused(InFlightCopy)
    else Done(PutCopy(s, c, Edited(s.copies[c], status, visible, s.now)))
  }

  // ---------------------------------------------------------------- inter-library loan

  function LenderShelf(R: Rules, s: State, consortium: Id, work: Id, borrower: Id): set<Id> {
    set c | c in s.copies && R.lends(consortium, s.copies[c].org) && s.copies[c].org != borrower
            && s.copies[c].work == work && s.copies[c].status == Available && s.copies[c].visible
  }

  predicate AlreadyRequested(s: State, patron: Id, work: Id) {
    exists i :: i in s.ills && OpenIll(s.ills[i]) && s.ills[i].patron == Some(patron) && s.ills[i].work == work
  }

  predicate HeldLocally(s: State, org: Id, work: Id) {
    exists c :: c in s.copies && s.copies[c].org == org && s.copies[c].work == work
                && s.copies[c].status == Available && s.copies[c].visible
  }

  function IssueIll(s: State, org: Id, patron: Id, work: Id, lender: Option<Id>): State
    requires lender.Some? ==> lender.value in s.copies
  {
    var reserved := if lender.None? then s else SetStatus(s, lender.value, Ill);
    PutIll(reserved, s.nextIll,
           IllRequest(org, Some(patron), work, lender, if lender.None? then Unfilled else Requested))
    .(nextIll := s.nextIll + 1)
  }

  function RequestIll(R: Rules, s: State, patron: Id, work: Id, consortium: Id, standing: Standing): Outcome {
    var org := R.orgOf(patron);
    var lender := First(map c | c in LenderShelf(R, s, consortium, work, org) :: s.copies[c].org);
    if !standing.active then Refused(PatronInactive)
    else if !R.allowsIll(consortium) then Refused(IllForbidden)
    else if !R.borrows(consortium, org) then Refused(NotBorrower)
    else if AlreadyRequested(s, patron, work) then Refused(DuplicateIll)
    else if HeldLocally(s, org, work) then Refused(AvailableLocally)
    else Done(IssueIll(s, org, patron, work, lender))
  }

  /** Ship, receive and send back only move the request along; the lender's copy stays out. */
  function AdvanceIll(s: State, i: Id, from: IllStatus, to: IllStatus): Outcome {
    if i !in s.ills then Refused(NoSuchRow)
    else if s.ills[i].status != from then Refused(WrongIllStatus)
    else Done(PutIll(s, i, s.ills[i].(status := to)))
  }

  /** Close a request and put the lender's copy back on the shelf if it is still out on ILL. */
  function CloseIll(R: Rules, s: State, i: Id, status: IllStatus): State
    requires i in s.ills
  {
    var c := s.ills[i].copy;
    var back := if c.Some? && c.value in s.copies && s.copies[c.value].status == Ill
                then SetStatus(s, c.value, Available) else s;
    PutIll(back, i, s.ills[i].(status := status, patron := Scrubbed(R, s.ills[i].patron)))
  }

  function CheckInIll(R: Rules, s: State, i: Id): Outcome {
    if i !in s.ills then Refused(NoSuchRow)
    else if s.ills[i].status != Returning then Refused(WrongIllStatus)
    else Done(CloseIll(R, s, i, Completed))
  }

  function CancelIll(R: Rules, s: State, i: Id): Outcome {
    if i !in s.ills then Refused(NoSuchRow)
    else if s.ills[i].status !in {Unfilled, Requested, Shipped} then Refused(WrongIllStatus)
    else Done(CloseIll(R, s, i, IllCancelled))
  }

  // ---------------------------------------------------------------- runs

  datatype Op =
    | OpTick(seconds: nat)
    | OpAddCopy(org: Id, work: Id, edition: Id, branch: Id, barcode: Id, visible: bool, published: bool, floating: bool)
    | OpBorrow(patron: Id, work: Id, at: Option<Id>, override: bool, actor: bool, standing: Standing, fallback: bool)
    | OpReturn(loan: Id, settle: Option<Id>)
    | OpRenew(loan: Id, standing: Standing)
    | OpFlagOverdue
    | OpLost(loan: Id)
    | OpClaimsReturned(loan: Id)
    | OpDamaged(loan: Id)
    | OpPlaceHold(patron: Id, work: Id, at: Option<Id>, standing: Standing)
    | OpCancelHold(hold: Id)
    | OpExpireHold(hold: Id)
    | OpReceive(copy: Id)
    | OpCheckIn(copy: Id)
    | OpTimeOut(copy: Id, maxDays: nat, maxAttempts: nat)
    | OpReconcile(copy: Id)
    | OpRetire(copy: Id)
    | OpWeed(copy: Id)
    | OpMove(copy: Id, to: Id)
    | OpBulkEdit(copy: Id, status: Option<CopyStatus>, vis: Option<bool>)
    | OpRequestIll(patron: Id, work: Id, consortium: Id, standing: Standing)
    | OpShipIll(ill: Id)
    | OpReceiveIll(ill: Id)
    | OpReturnIll(ill: Id)
    | OpCheckInIll(ill: Id)
    | OpCancelIll(ill: Id)

  function Apply(R: Rules, s: State, op: Op): Outcome {
    match op
    case OpTick(d) => Done(s.(now := s.now + d))
    case OpAddCopy(o, w, e, b, code, v, p, f) => AddCopy(s, o, w, e, b, code, v, p, f)
    case OpBorrow(p, w, at, o, a, st, f) => Borrow(R, s, p, w, at, o, a, st, f)
    case OpReturn(l, settle) => ReturnLoan(R, s, l, settle)
    case OpRenew(l, st) => Renew(R, s, l, st)
    case OpFlagOverdue => FlagOverdue(s)
    case OpLost(l) => MarkLost(s, l)
    case OpClaimsReturned(l) => MarkClaimsReturned(s, l)
    case OpDamaged(l) => ReturnDamaged(R, s, l)
    case OpPlaceHold(p, w, at, st) => PlaceHold(R, s, p, w, at, st)
    case OpCancelHold(h) => CancelHold(R, s, h)
    case OpExpireHold(h) => ExpireHold(R, s, h)
    case OpReceive(c) => Receive(R, s, c)
    case OpCheckIn(c) => CheckIn(R, s, c)
    case OpTimeOut(c, d, m) => TimeOutTransit(R, s, c, d, m)
    case OpReconcile(c) => Reconcile(R, s, c)
    case OpRetire(c) => Retire(s, c)
    case OpWeed(c) => Weed(s, c)
    case OpMove(c, b) => MoveCopy(s, c, b)
    case OpBulkEdit(c, st, v) => BulkEdit(s, c, st, v)
    case OpRequestIll(p, w, k, st) => RequestIll(R, s, p, w, k, st)
    case OpShipIll(i) => AdvanceIll(s, i, Requested, Shipped)
    case OpReceiveIll(i) => AdvanceIll(s, i, Shipped, OnLoan)
    case OpReturnIll(i) => AdvanceIll(s, i, OnLoan, Returning)
    case OpCheckInIll(i) => CheckInIll(R, s, i)
    case OpCancelIll(i) => CancelIll(R, s, i)
  }

  /** The state after a transaction; a refused one changes nothing. */
  function Step(R: Rules, s: State, op: Op): State {
    match Apply(R, s, op)
    case Done(t) => t
    case Refused(_) => s
  }

  function Run(R: Rules, s: State, ops: seq<Op>): State
    decreases |ops|
  {
    if ops == [] then s else Step(R, Run(R, s, ops[..|ops| - 1]), ops[|ops| - 1])
  }
}
