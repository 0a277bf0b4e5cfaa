/** Lending licensed digital titles: availability comes from licenses, and freed slots promote waiting holds. */
module Digital {
  import opened Common

  const HOUR := 3600
  const DAY := 24 * HOUR
  const READY_HOLD_HOURS := 72
  const UNLIMITED := 1_000_000

  datatype Model = OneUser | MeteredCheckouts | MeteredTime | Simultaneous

  datatype License = License(edition: Id, model: Model, active: bool, limit: Option<nat>, allowed: Option<nat>,
                             used: nat,
                             expiresAt: Option<int>, loanDays: nat)

  datatype LoanStatus = Active | Returned | Lapsed

  datatype Loan = Loan(license: Id, patron: Option<Id>, expiresAt: int, status: LoanStatus)

  datatype HoldStatus = Waiting | Ready | Fulfilled | Expired | Cancelled

  datatype Hold = Hold(edition: Id, patron: Id, createdAt: int, status: HoldStatus, expiresAt: int)

  /** One organization's rows, numbered in creation order. */
  datatype State = State(licenses: seq<License>, loans: seq<Loan>, holds: seq<Hold>, now: int)

  datatype Refusal = CannotAct | AlreadyBorrowed | QueueExists | NoLicense | NotActive | NotDue | AlreadyHolds
      | NoSuchRow

  datatype Outcome = Done(after: State) | Refused(error: Refusal)

  // ---------------------------------------------------------------- availability

  function IsActiveOn(l: Id): Loan -> nat {
    (loan: Loan) => if loan.license == l && loan.status == Active then 1 else 0
  }

  function IsOn(l: Id): Loan -> nat { (loan: Loan) => if loan.license == l then 1 else 0 }

  function ActiveOn(s: State, l: Id): nat { Sum(s.loans, IsActiveOn(l)) }

  predicate IsAvailable(s: State, l: Id)
    requires l < |s.licenses|
  {
    var license := s.licenses[l];
    && license.active
    && !(license.model == MeteredTime && license.expiresAt.Some? && license.expiresAt.value <= s.now)
    && !(license.model == MeteredCheckouts && license.allowed.Some? && license.used >= license.allowed.value)
    && (license.limit.None? || ActiveOn(s, l) < license.limit.value)
  }

  predicate Offers(s: State, l: Id, e: Id) { l < |s.licenses| && s.licenses[l].edition == e && IsAvailable(s, l) }

  predicate OffersUnlimited(s: State, l: Id, e: Id) { Offers(s, l, e) && s.licenses[l].limit.None? }

  /** Free slots on licenses below `n`, taking limited ones only. */
  function LimitedSlots(s: State, e: Id, n: nat): nat
    requires n <= |s.licenses|
  {
    if n == 0 then 0
    else
      var l := n - 1;
      LimitedSlots(s, e, l) + if Offers(s, l, e) && s.licenses[l].limit.Some?
          then Max(0, s.licenses[l].limit.value - ActiveOn(s, l)) else 0
  }

  predicate HasUnlimited(s: State, e: Id) { exists l :: 0 <= l < |s.licenses| && OffersUnlimited(s, l, e) }

  function Slots(s: State, e: Id): nat { if HasUnlimited(s, e) then UNLIMITED else LimitedSlots(s, e, |s.licenses|) }

  /** The first license, by number, with something to lend. */
  function PickFrom(s: State, e: Id, l: nat): (r: Option<Id>)
    requires l <= |s.licenses|
    ensures r.Some? ==> l <= r.value && Offers(s, r.value, e) && forall k | l <= k < r.value :: !Offers(s, k, e)
    ensures r.None? ==> forall k | l <= k < |s.licenses| :: !Offers(s, k, e)
    decreases |s.licenses| - l
  {
    if l == |s.licenses| then None else if Offers(s, l, e) then Some(l) else PickFrom(s, e, l + 1)
  }

  function Pick(s: State, e: Id): Option<Id> { PickFrom(s, e, 0) }

  // ---------------------------------------------------------------- holds

  function QueueRanks(s: State, e: Id): map<Id, int> {
    map h | 0 <= h < |s.holds| && s.holds[h].edition == e && s.holds[h].status == Waiting :: s.holds[h].createdAt
  }

  predicate HasQueue(s: State, e: Id) {
    exists h :: 0 <= h < |s.holds| && s.holds[h].edition == e && s.holds[h].status == Waiting
  }

  predicate LoanOf(s: State, i: Id, patron: Id, e: Id)
    requires i < |s.loans|
  {
    s.loans[i].patron == Some(patron) && s.loans[i].status == Active && s.loans[i].license < |s.licenses|
    && s.licenses[s.loans[i].license].edition == e
  }

  predicate HasLoan(s: State, patron: Id, e: Id) { exists i :: 0 <= i < |s.loans| && LoanOf(s, i, patron, e) }

  predicate IsHeldBy(hold: Hold, patron: Id, e: Id) {
    hold.patron == patron && hold.edition == e && hold.status in {Waiting, Ready}
  }

  predicate HasHold(s: State, patron: Id, e: Id) { exists h :: 0 <= h < |s.holds| && IsHeldBy(s.holds[h], patron, e) }

  /** The patron's reserved hold, if any. */
  function ReadyRanks(s: State, patron: Id, e: Id): map<Id, int> {
    map h | 0 <= h < |s.holds| && s.holds[h].edition == e && s.holds[h].patron == patron
        && s.holds[h].status == Ready :: s.holds[h].createdAt
  }

  function MakeReady(s: State, h: Id): State
    requires h < |s.holds|
  {
    s.(holds := s.holds[h := s.holds[h].(status := Ready, expiresAt := s.now + READY_HOLD_HOURS * HOUR)])
  }

  /** Promote the earliest waiting hold if there is a free slot. */
  function AssignNext(s: State, e: Id): State {
    var next := First(QueueRanks(s, e));
    if Slots(s, e) == 0 || next.None? then s else MakeReady(s, next.value)
  }

  // ---------------------------------------------------------------- operations

  function AddLicense(s: State, license: License): Outcome { Done(s.(licenses := s.licenses + [license.(used := 0)])) }

  function SwitchLicense(s: State, l: Id, active: bool): Outcome {
    if l >= |s.licenses| then Refused(NoSuchRow)
        else Done(s.(licenses := s.licenses[l := s.licenses[l].(active := active)]))
  }

  function SetHold(s: State, h: Id, status: HoldStatus): State
    requires h < |s.holds|
  {
    s.(holds := s.holds[h := s.holds[h].(status := status)])
  }

  /** `mayAct` is whether the patron is in good standing and the organization's plan has digital lending. */
  function Borrow(s: State, patron: Id, e: Id, mayAct: bool): Outcome {
    var ready := First(ReadyRanks(s, patron, e));
    var picked := Pick(s, e);
    if !mayAct then Refused(CannotAct)
    else if HasLoan(s, patron, e) then Refused(AlreadyBorrowed)
    else if ready.None? && HasQueue(s, e) then Refused(QueueExists)
    else if picked.None? then Refused(NoLicense)
    else
      var l := picked.value;
      var license := s.licenses[l];
      var lent := s.(loans := s.loans + [Loan(l, Some(patron), s.now + license.loanDays * DAY, Active)],
                     licenses := if license.model == MeteredCheckouts
                         then s.licenses[l := license.(used := license.used + 1)] else s.licenses);
      Done(if ready.Some? then SetHold(lent, ready.value, Fulfilled) else lent)
  }

  /** `forget` drops the patron from the loan, unless they keep their history. */
  function Close(s: State, i: Id, status: LoanStatus, forget: bool): State
    requires i < |s.loans| && s.loans[i].license < |s.licenses|
  {
    var loan := s.loans[i];
    AssignNext(s.(loans := s.loans[i := loan.(status := status, patron := if forget then None else loan.patron)]),
               s.licenses[loan.license].edition)
  }

  function Return(s: State, i: Id, forget: bool): Outcome {
    if i >= |s.loans| || s.loans[i].license >= |s.licenses| then Refused(NoSuchRow)
    else if s.loans[i].status != Active then Refused(NotActive)
    else Done(Close(s, i, Returned, forget))
  }

  /** One step of the loan expiry sweep dated `asOf`. */
  function ExpireLoan(s: State, i: Id, asOf: int, forget: bool): Outcome {
    if i >= |s.loans| || s.loans[i].license >= |s.licenses| then Refused(NoSuchRow)
    else if s.loans[i].status != Active then Refused(NotActive)
    else if s.loans[i].expiresAt > asOf then Refused(NotDue)
    else Done(Close(s, i, Lapsed, forget))
  }

  function PlaceHold(s: State, patron: Id, e: Id, mayAct: bool): Outcome {
    if !mayAct then Refused(CannotAct)
    else if HasHold(s, patron, e) then Refused(AlreadyHolds)
    else if HasLoan(s, patron, e) then Refused(AlreadyBorrowed)
    else
      var placed := s.(holds := s.holds + [Hold(e, patron, s.now, Waiting, 0)]);
      Done(if !HasQueue(s, e) && Slots(s, e) > 0 then MakeReady(placed, |s.holds|) else placed)
  }

  function CancelHold(s: State, h: Id): Outcome {
    if h >= |s.holds| then Refused(NoSuchRow)
    else if s.holds[h].status !in {Waiting, Ready} then Refused(NotActive)
    else
      var freed := SetHold(s, h, Cancelled);
      Done(if s.holds[h].status == Ready then AssignNext(freed, s.holds[h].edition) else freed)
  }

  /** One step of the ready-hold expiry sweep dated `asOf`. */
  function ExpireHold(s: State, h: Id, asOf: int): Outcome {
    if h >= |s.holds| then Refused(NoSuchRow)
    else if s.holds[h].status != Ready then Refused(NotActive)
    else if s.holds[h].expiresAt > asOf then Refused(NotDue)
    else Done(AssignNext(SetHold(s, h, Expired), s.holds[h].edition))
  }

  datatype Op =
    | OpTick(seconds: nat)
    | OpLicense(license: License)
    | OpSwitch(number: Id, active: bool)
    | OpBorrow(patron: Id, edition: Id, mayAct: bool)
    | OpReturn(loan: Id, forget: bool)
    | OpExpireLoan(loan: Id, asOf: int, forget: bool)
    | OpPlace(patron: Id, edition: Id, mayAct: bool)
    | OpCancel(hold: Id)
    | OpExpireHold(hold: Id, asOf: int)

  function Apply(s: State, op: Op): Outcome {
    match op
    case OpTick(seconds) => Done(s.(now := s.now + seconds))
    case OpLicense(license) => AddLicense(s, license)
    case OpSwitch(l, active) => SwitchLicense(s, l, active)
    case OpBorrow(patron, e, mayAct) => Borrow(s, patron, e, mayAct)
    case OpReturn(i, forget) => Return(s, i, forget)
    case OpExpireLoan(i, asOf, forget) => ExpireLoan(s, i, asOf, forget)
    case OpPlace(patron, e, mayAct) => PlaceHold(s, patron, e, mayAct)
    case OpCancel(h) => CancelHold(s, h)
    case OpExpireHold(h, asOf) => ExpireHold(s, h, asOf)
  }

  function Step(s: State, op: Op): State {
    match Apply(s, op)
    case Done(t) => t
    case Refused(_) => s
  }

  const EMPTY := State([], [], [], 0)

  function Run(s: State, ops: seq<Op>): State {
    if ops == [] then s else Step(Run(s, ops[..|ops| - 1]), ops[|ops| - 1])
  }

  // ---------------------------------------------------------------- slots and picking agree

  lemma {:induction false} LimitedSlotsExact(s: State, e: Id, n: nat)
    requires n <= |s.licenses|
    ensures LimitedSlots(s, e, n) > 0 <==> exists l :: 0 <= l < n && Offers(s, l, e) && s.licenses[l].limit.Some?
  {
    if n > 0 {
      LimitedSlotsExact(s, e, n - 1);
      hide ActiveOn;
      if l :| 0 <= l < n && Offers(s, l, e) && s.licenses[l].limit.Some? && LimitedSlots(s, e, n - 1) == 0 {
        assert l == n - 1;
      }
    }
  }

  /** The advertised number of slots is positive exactly when borrowing would find a license. */
  lemma SlotsIffPick(s: State, e: Id)
    ensures Slots(s, e) > 0 <==> Pick(s, e).Some?
  {
    hide Offers;
    LimitedSlotsExact(s, e, |s.licenses|);
    if Pick(s, e).Some? && !HasUnlimited(s, e) {
      var l := Pick(s, e).value;
      assert Offers(s, l, e) && l < |s.licenses| by { OffersExists(s, l, e); }
      assert !OffersUnlimited(s, l, e);
    } else if HasUnlimited(s, e) {
      var l :| 0 <= l < |s.licenses| && OffersUnlimited(s, l, e);
      assert Offers(s, l, e);
    }
  }

  lemma OffersExists(s: State, l: Id, e: Id)
    requires Offers(s, l, e)
    ensures l < |s.licenses|
  {}

  // ---------------------------------------------------------------- licenses are never overdrawn

  predicate LicenseKept(s: State, l: Id)
    requires l < |s.licenses|
  {
    var license := s.licenses[l];
    && (license.limit.Some? ==> ActiveOn(s, l) <= license.limit.value)
    && license.used == (if license.model == MeteredCheckouts then Sum(s.loans, IsOn(l)) else 0)
    && (license.model == MeteredCheckouts && license.allowed.Some? ==> license.used <= license.allowed.value)
  }

  predicate LicensesKept(s: State) {
    && (forall l | 0 <= l < |s.licenses| :: LicenseKept(s, l))
    && (forall i | 0 <= i < |s.loans| :: s.loans[i].license < |s.licenses|)
  }

  /** Holds play no part in what licenses keep. */
  lemma HoldsIrrelevant(s: State, t: State)
    requires LicensesKept(s) && s.licenses == t.licenses && s.loans == t.loans
    ensures LicensesKept(t)
  {
    forall l | 0 <= l < |t.licenses| ensures LicenseKept(t, l) { assert LicenseKept(s, l); }
  }

  lemma AssignNextLoans(s: State, e: Id)
    ensures AssignNext(s, e).licenses == s.licenses && AssignNext(s, e).loans == s.loans
        && AssignNext(s, e).now == s.now
    ensures |AssignNext(s, e).holds| == |s.holds|
  {
    hide Slots;
  }

  lemma BorrowLicenses(s: State, patron: Id, e: Id, mayAct: bool)
    requires LicensesKept(s) && Borrow(s, patron, e, mayAct).Done?
    ensures LicensesKept(Borrow(s, patron, e, mayAct).after)
  {
    hide HasLoan, HasQueue, First;
    var t := Borrow(s, patron, e, mayAct).after;
    var l := Pick(s, e).value;
    var loan := t.loans[|s.loans|];
    assert t.loans == s.loans + [loan] && loan.license == l && loan.status == Active;
    forall k | 0 <= k < |t.licenses| ensures LicenseKept(t, k) {
      assert LicenseKept(s, k);
      SumAppend(s.loans, [loan], IsActiveOn(k));
      SumAppend(s.loans, [loan], IsOn(k));
      SumOne(loan, IsActiveOn(k));
      SumOne(loan, IsOn(k));
    }
  }

  lemma SumOne(loan: Loan, f: Loan -> nat)
    ensures Sum([loan], f) == f(loan)
  {
    assert [loan][..0] == [];
  }

  lemma CloseLicenses(s: State, i: Id, status: LoanStatus, forget: bool)
    requires LicensesKept(s) && i < |s.loans| && s.loans[i].status == Active && status != Active
    ensures LicensesKept(Close(s, i, status, forget))
  {
    var loan := s.loans[i].(status := status, patron := if forget then None else s.loans[i].patron);
    var mid := s.(loans := s.loans[i := loan]);
    forall k | 0 <= k < |mid.licenses| ensures LicenseKept(mid, k) {
      assert LicenseKept(s, k);
      SumUpdate(s.loans, i, loan, IsActiveOn(k));
      SumUpdate(s.loans, i, loan, IsOn(k));
    }
    AssignNextLoans(mid, s.licenses[s.loans[i].license].edition);
    hide AssignNext;
    HoldsIrrelevant(mid, Close(s, i, status, forget));
  }

  lemma {:induction false} NoLoansYet(loans: seq<Loan>, l: Id)
    requires forall i | 0 <= i < |loans| :: loans[i].license < l
    ensures Sum(loans, IsOn(l)) == 0 && Sum(loans, IsActiveOn(l)) == 0
  {
    if loans != [] {
      NoLoansYet(loans[..|loans| - 1], l);
    }
  }

  lemma StepLicenses(s: State, op: Op)
    requires LicensesKept(s)
    ensures LicensesKept(Step(s, op))
  {
    if Apply(s, op).Done? {
      hide AssignNext, Close, Borrow;
      match op
      case OpTick(_) => HoldsIrrelevant(s, Step(s, op));
      case OpLicense(license) =>
        var t := Step(s, op);
        forall l | 0 <= l < |t.licenses| ensures LicenseKept(t, l) {
          if l < |s.licenses| { assert LicenseKept(s, l); } else { NoLoansYet(s.loans, l); }
        }
      case OpSwitch(n, _) =>
        var t := Step(s, op);
        forall l | 0 <= l < |t.licenses| ensures LicenseKept(t, l) { assert LicenseKept(s, l); }
      case OpBorrow(patron, e, mayAct) => BorrowLicenses(s, patron, e, mayAct);
      case OpReturn(i, forget) => CloseLicenses(s, i, Returned, forget);
      case OpExpireLoan(i, _, forget) => CloseLicenses(s, i, Lapsed, forget);
      case OpPlace(_, _, _) => HoldsIrrelevant(s, Step(s, op));
      case OpCancel(h) =>
        AssignNextLoans(SetHold(s, h, Cancelled), s.holds[h].edition);
        HoldsIrrelevant(s, Step(s, op));
      case OpExpireHold(h, _) =>
        AssignNextLoans(SetHold(s, h, Expired), s.holds[h].edition);
        HoldsIrrelevant(s, Step(s, op));
    }
  }

  /** In every run a license has at most its limit of active loans, and a metered one has counted every loan ever made
      on it, never more than allowed. */
  lemma {:induction false} RunLicenses(ops: seq<Op>)
    ensures LicensesKept(Run(EMPTY, ops))
  {
    if ops != [] {
      hide LicensesKept, Step;
      RunLicenses(ops[..|ops| - 1]);
      StepLicenses(Run(EMPTY, ops[..|ops| - 1]), ops[|ops| - 1]);
    } else {
      assert LicensesKept(EMPTY);
    }
  }

  // ---------------------------------------------------------------- first come, first served

  /** Whoever becomes ready was waiting longest: no hold of the title still waiting is older. */
  predicate Fair(s: State, t: State) {
    forall h, g | 0 <= h < |t.holds| && 0 <= g < |t.holds| && t.holds[h].status == Ready && t.holds[g].status == Waiting
                  && t.holds[g].edition == t.holds[h].edition && !(h < |s.holds| && s.holds[h].status == Ready) ::
      t.holds[h].createdAt < t.holds[g].createdAt || (t.holds[h].createdAt == t.holds[g].createdAt && h <= g)
  }

  lemma AssignNextFair(s: State, e: Id)
    ensures Fair(s, AssignNext(s, e))
  {
    hide Slots;
    var next := First(QueueRanks(s, e));
    if next.Some? {
      forall g | 0 <= g < |s.holds| && s.holds[g].edition == e && s.holds[g].status == Waiting
        ensures NotAfter(QueueRanks(s, e), next.value, g)
      {
        assert g in QueueRanks(s, e);
      }
    }
  }

  lemma PlaceFair(s: State, patron: Id, e: Id, mayAct: bool)
    requires PlaceHold(s, patron, e, mayAct).Done?
    ensures Fair(s, PlaceHold(s, patron, e, mayAct).after)
  {
    hide Slots, HasHold, HasLoan;
  }

  lemma BorrowFair(s: State, patron: Id, e: Id, mayAct: bool)
    requires Borrow(s, patron, e, mayAct).Done?
    ensures Fair(s, Borrow(s, patron, e, mayAct).after)
  {
    hide First, Pick, HasLoan, HasQueue;
  }

  /** A hold that ends and the promotion it triggers. */
  lemma ReleaseFair(s: State, h: Id, status: HoldStatus)
    requires h < |s.holds| && status !in {Waiting, Ready}
    ensures Fair(s, SetHold(s, h, status)) && Fair(s, AssignNext(SetHold(s, h, status), s.holds[h].edition))
  {
    hide AssignNext;
    AssignNextFair(SetHold(s, h, status), s.holds[h].edition);
    AssignNextOnly(SetHold(s, h, status), s.holds[h].edition);
  }

  lemma SameHoldsFair(s: State, t: State)
    requires s.holds == t.holds
    ensures Fair(s, t)
  {}

  lemma StepFair(s: State, op: Op)
    ensures Fair(s, Step(s, op))
  {
    hide Fair, Borrow, PlaceHold, Close, AssignNext;
    if Apply(s, op).Refused? {
      SameHoldsFair(s, s);
    } else {
      match op
      case OpCancel(h) => ReleaseFair(s, h, Cancelled);
      case OpExpireHold(h, _) => ReleaseFair(s, h, Expired);
      case OpReturn(i, forget) => CloseFair(s, i, Returned, forget);
      case OpExpireLoan(i, _, forget) => CloseFair(s, i, Lapsed, forget);
      case OpBorrow(patron, e, mayAct) => BorrowFair(s, patron, e, mayAct);
      case OpPlace(patron, e, mayAct) => PlaceFair(s, patron, e, mayAct);
      case _ => SameHoldsFair(s, Step(s, op));
    }
  }

  lemma CloseFair(s: State, i: Id, status: LoanStatus, forget: bool)
    requires i < |s.loans| && s.loans[i].license < |s.licenses|
    ensures Fair(s, Close(s, i, status, forget))
  {
    var loan := s.loans[i].(status := status, patron := if forget then None else s.loans[i].patron);
    AssignNextFair(s.(loans := s.loans[i := loan]), s.licenses[loan.license].edition);
    hide AssignNext;
  }

  /** Over whole runs no hold becomes ready past an earlier one that goes on waiting. */
  lemma {:induction false} RunFair(ops: seq<Op>, k: nat)
    requires k < |ops|
    ensures Fair(Run(EMPTY, ops[..k]), Run(EMPTY, ops[..k + 1]))
  {
    assert ops[..k + 1][..k] == ops[..k];
    StepFair(Run(EMPTY, ops[..k]), ops[k]);
  }

  /** A patron without a ready hold borrows only when nobody is waiting. */
  lemma WalkInOnlyWithoutQueue(s: State, patron: Id, e: Id, mayAct: bool)
    requires Borrow(s, patron, e, mayAct).Done?
    ensures (exists h :: 0 <= h < |s.holds| && s.holds[h].status == Ready && IsHeldBy(s.holds[h], patron, e)
                         && Borrow(s, patron, e, mayAct).after.holds[h].status == Fulfilled)
            || forall h | 0 <= h < |s.holds| && s.holds[h].edition == e :: s.holds[h].status != Waiting
  {
    hide Pick, HasLoan;
    var ready := First(ReadyRanks(s, patron, e));
    if ready.Some? {
      assert IsHeldBy(s.holds[ready.value], patron, e);
    }
  }

  // ---------------------------------------------------------------- one hold and one loan per patron and title

  predicate HoldsUnique(s: State) {
    forall h, g | 0 <= h < g < |s.holds| && s.holds[h].patron == s.holds[g].patron
           && s.holds[h].edition == s.holds[g].edition ::
      s.holds[h].status !in {Waiting, Ready} || s.holds[g].status !in {Waiting, Ready}
  }

  predicate LoansUnique(s: State) {
    forall i, j | 0 <= i < j < |s.loans| && s.loans[i].status == Active && s.loans[j].status == Active
           && s.loans[i].patron.Some?
                  && s.loans[i].patron == s.loans[j].patron && s.loans[i].license < |s.licenses|
                       && s.loans[j].license < |s.licenses| ::
      s.licenses[s.loans[i].license].edition != s.licenses[s.loans[j].license].edition
  }

  /** Only statuses change, and none comes back to waiting or ready from anything else. */
  predicate HoldsOnly(s: State, t: State) {
    && |s.holds| == |t.holds|
    && forall h | 0 <= h < |s.holds| ::
         && t.holds[h].patron == s.holds[h].patron && t.holds[h].edition == s.holds[h].edition
         && (t.holds[h].status in {Waiting, Ready} ==> s.holds[h].status in {Waiting, Ready})
  }

  lemma AssignNextOnly(s: State, e: Id)
    ensures HoldsOnly(s, AssignNext(s, e))
  {
    hide Slots;
  }

  lemma HoldsOnlyUnique(s: State, t: State)
    requires HoldsUnique(s) && HoldsOnly(s, t)
    ensures HoldsUnique(t)
  {}

  lemma BorrowOnly(s: State, patron: Id, e: Id, mayAct: bool)
    requires Borrow(s, patron, e, mayAct).Done?
    ensures HoldsOnly(s, Borrow(s, patron, e, mayAct).after)
  {
    hide Pick, HasLoan, HasQueue, First;
  }

  /** A hold that ends, and the promotion it triggers. */
  lemma ReleaseOnly(s: State, h: Id, status: HoldStatus)
    requires h < |s.holds| && status !in {Waiting, Ready}
    ensures HoldsOnly(s, SetHold(s, h, status)) && HoldsOnly(s, AssignNext(SetHold(s, h, status), s.holds[h].edition))
  {
    hide AssignNext;
    AssignNextOnly(SetHold(s, h, status), s.holds[h].edition);
  }

  lemma PlaceHoldsUnique(s: State, patron: Id, e: Id, mayAct: bool)
    requires HoldsUnique(s) && PlaceHold(s, patron, e, mayAct).Done?
    ensures HoldsUnique(PlaceHold(s, patron, e, mayAct).after)
  {
    hide Slots, HasLoan, HasQueue;
    assert forall h | 0 <= h < |s.holds| :: !IsHeldBy(s.holds[h], patron, e);
  }

  lemma StepHoldsUnique(s: State, op: Op)
    requires HoldsUnique(s)
    ensures HoldsUnique(Step(s, op))
  {
    hide HoldsUnique, HoldsOnly, Borrow, PlaceHold, Close, AssignNext;
    if Apply(s, op).Done? {
      match op
      case OpPlace(patron, e, mayAct) => PlaceHoldsUnique(s, patron, e, mayAct);
      case OpBorrow(patron, e, mayAct) => BorrowOnly(s, patron, e, mayAct); HoldsOnlyUnique(s, Step(s, op));
      case OpCancel(h) => ReleaseOnly(s, h, Cancelled); HoldsOnlyUnique(s, Step(s, op));
      case OpExpireHold(h, _) => ReleaseOnly(s, h, Expired); HoldsOnlyUnique(s, Step(s, op));
      case OpReturn(i, forget) => CloseOnly(s, i, Returned, forget); HoldsOnlyUnique(s, Step(s, op));
      case OpExpireLoan(i, _, forget) => CloseOnly(s, i, Lapsed, forget); HoldsOnlyUnique(s, Step(s, op));
      case _ => SameHoldsOnly(s, Step(s, op)); HoldsOnlyUnique(s, Step(s, op));
    }
  }

  lemma SameHoldsOnly(s: State, t: State)
    requires s.holds == t.holds
    ensures HoldsOnly(s, t)
  {}

  lemma CloseOnly(s: State, i: Id, status: LoanStatus, forget: bool)
    requires i < |s.loans| && s.loans[i].license < |s.licenses|
    ensures HoldsOnly(s, Close(s, i, status, forget))
    ensures var t := Close(s, i, status, forget);
            && t.licenses == s.licenses && t.now == s.now
            && t.loans == s.loans[i := s.loans[i].(status := status,
                                                   patron := if forget then None else s.loans[i].patron)]
  {
    var loan := s.loans[i].(status := status, patron := if forget then None else s.loans[i].patron);
    AssignNextOnly(s.(loans := s.loans[i := loan]), s.licenses[loan.license].edition);
    AssignNextLoans(s.(loans := s.loans[i := loan]), s.licenses[loan.license].edition);
    hide AssignNext;
  }

  lemma BorrowLoansUnique(s: State, patron: Id, e: Id, mayAct: bool)
    requires LoansUnique(s) && Borrow(s, patron, e, mayAct).Done?
    ensures LoansUnique(Borrow(s, patron, e, mayAct).after)
  {
    hide First, HasQueue, IsAvailable, Pick;
    var t := Borrow(s, patron, e, mayAct).after;
    var l := Pick(s, e).value;
    PickedOffers(s, e);
    forall k | 0 <= k < |s.licenses| ensures |t.licenses| == |s.licenses|
           && t.licenses[k].edition == s.licenses[k].edition {}
    assert t.loans[..|s.loans|] == s.loans && t.loans[|s.loans|].license == l && |t.loans| == |s.loans| + 1;
    hide Borrow;
    forall i | 0 <= i < |s.loans| ensures !LoanOf(s, i, patron, e) && t.loans[i] == s.loans[i] {
      assert t.loans[i] == t.loans[..|s.loans|][i];
    }
  }

  lemma SameLoansUnique(s: State, t: State)
    requires LoansUnique(s) && t.loans == s.loans && t.licenses == s.licenses
    ensures LoansUnique(t)
  {}

  lemma LicensesKeepUnique(s: State, t: State)
    requires LoansUnique(s) && LicensesKept(s) && t.loans == s.loans && |t.licenses| >= |s.licenses|
    requires forall l | 0 <= l < |s.licenses| :: t.licenses[l].edition == s.licenses[l].edition
    ensures LoansUnique(t)
  {
    hide LicenseKept;
  }

  lemma CloseLoansUnique(s: State, i: Id, status: LoanStatus, forget: bool)
    requires LoansUnique(s) && i < |s.loans| && s.loans[i].license < |s.licenses| && status != Active
    ensures LoansUnique(Close(s, i, status, forget))
  {
    hide Close;
    CloseOnly(s, i, status, forget);
  }

  lemma StepLoansUnique(s: State, op: Op)
    requires LoansUnique(s) && LicensesKept(s)
    ensures LoansUnique(Step(s, op))
  {
    hide LoansUnique, LicensesKept, Borrow, Close, AssignNext, Slots, HasQueue, HasHold, HasLoan;
    if Apply(s, op).Done? {
      match op
      case OpLicense(_) => LicensesKeepUnique(s, Step(s, op));
      case OpSwitch(_, _) => LicensesKeepUnique(s, Step(s, op));
      case OpBorrow(patron, e, mayAct) => BorrowLoansUnique(s, patron, e, mayAct);
      case OpCancel(h) =>
        AssignNextLoans(SetHold(s, h, Cancelled), s.holds[h].edition);
        SameLoansUnique(s, Step(s, op));
      case OpExpireHold(h, _) =>
        AssignNextLoans(SetHold(s, h, Expired), s.holds[h].edition);
        SameLoansUnique(s, Step(s, op));
      case OpReturn(i, forget) => CloseLoansUnique(s, i, Returned, forget);
      case OpExpireLoan(i, _, forget) => CloseLoansUnique(s, i, Lapsed, forget);
      case _ => SameLoansUnique(s, Step(s, op));
    }
  }

  /** What every state reached from empty tables keeps. */
  predicate Kept(s: State) { LicensesKept(s) && HoldsUnique(s) && LoansUnique(s) }

  lemma StepKept(s: State, op: Op)
    requires Kept(s)
    ensures Kept(Step(s, op))
  {
    hide LicensesKept, HoldsUnique, LoansUnique, Step;
    StepLicenses(s, op);
    StepHoldsUnique(s, op);
    StepLoansUnique(s, op);
  }

  /** Any further run of operations keeps it, and each of its steps is fair to those waiting. */
  lemma {:induction false} RunOnKept(s: State, ops: seq<Op>)
    requires Kept(s)
    ensures Kept(Run(s, ops))
    ensures forall k | 0 <= k < |ops| :: Fair(Run(s, ops[..k]), Run(s, ops[..k + 1]))
  {
    hide Kept, Fair, Step;
    if ops != [] {
      var n := |ops| - 1;
      RunOnKept(s, ops[..n]);
      StepKept(Run(s, ops[..n]), ops[n]);
      forall k | 0 <= k < |ops| ensures Fair(Run(s, ops[..k]), Run(s, ops[..k + 1])) {
        assert ops[..k + 1][..k] == ops[..k];
        StepFair(Run(s, ops[..k]), ops[k]);
      }
    }
  }

  /** In every run a patron has at most one waiting or ready hold and at most one active loan on a title. */
  lemma {:induction false} RunUnique(ops: seq<Op>)
    ensures HoldsUnique(Run(EMPTY, ops)) && LoansUnique(Run(EMPTY, ops))
  {
    if ops != [] {
      hide HoldsUnique, LoansUnique, LicensesKept, Step;
      var before := Run(EMPTY, ops[..|ops| - 1]);
      RunUnique(ops[..|ops| - 1]);
      RunLicenses(ops[..|ops| - 1]);
      StepHoldsUnique(before, ops[|ops| - 1]);
      StepLoansUnique(before, ops[|ops| - 1]);
    } else {
      assert HoldsUnique(EMPTY) && LoansUnique(EMPTY);
    }
  }

  // ---------------------------------------------------------------- what "ready" does not promise

  /** A patron with a ready hold can use it exactly while a slot is free: the hold itself adds nothing. */
  lemma ReadyHoldUsable(s: State, patron: Id, e: Id, mayAct: bool)
    requires exists h :: 0 <= h < |s.holds| && s.holds[h].status == Ready && IsHeldBy(s.holds[h], patron, e)
    ensures Borrow(s, patron, e, mayAct).Done? <==> mayAct && !HasLoan(s, patron, e) && Slots(s, e) > 0
  {
    hide Slots, Pick, HasLoan, HasQueue;
    SlotsIffPick(s, e);
    var h :| 0 <= h < |s.holds| && s.holds[h].status == Ready && IsHeldBy(s.holds[h], patron, e);
    assert h in ReadyRanks(s, patron, e);
  }

  lemma ActiveAfterBorrow(s: State, patron: Id, e: Id, l: Id)
    requires Borrow(s, patron, e, true).Done?
    ensures var t := Borrow(s, patron, e, true).after;
            ActiveOn(t, l) == ActiveOn(s, l) + if Pick(s, e) == Some(l) then 1 else 0
  {
    hide HasLoan, HasQueue, Pick, First;
    var t := Borrow(s, patron, e, true).after;
    var loan := t.loans[|s.loans|];
    assert t.loans == s.loans + [loan];
    SumAppend(s.loans, [loan], IsActiveOn(l));
    SumOne(loan, IsActiveOn(l));
  }

  /** Borrowing changes a license only in its use count, and makes none lendable. */
  lemma LicensesAfterBorrow(s: State, patron: Id, e: Id, l: Id)
    requires Borrow(s, patron, e, true).Done? && l < |s.licenses|
    ensures var t := Borrow(s, patron, e, true).after;
            && t.now == s.now && |t.licenses| == |s.licenses|
            && t.licenses[l] == s.licenses[l].(used := t.licenses[l].used) && t.licenses[l].used >= s.licenses[l].used
            && (Offers(t, l, e) ==> Offers(s, l, e))
  {
    hide HasLoan, HasQueue, Pick, First, ActiveOn;
    PickedOffers(s, e);
    ActiveAfterBorrow(s, patron, e, l);
  }

  /** Without unlimited licenses, a loan takes at least one of the slots on the licenses up to the one it picks. */
  lemma {:induction false} BorrowTakesSlot(s: State, patron: Id, e: Id, n: nat)
    requires Borrow(s, patron, e, true).Done? && !HasUnlimited(s, e) && n <= |s.licenses|
    ensures var t := Borrow(s, patron, e, true).after;
            && |t.licenses| == |s.licenses|
            && LimitedSlots(t, e, n) <= LimitedSlots(s, e, n)
            && (Pick(s, e).value < n ==> LimitedSlots(t, e, n) + 1 <= LimitedSlots(s, e, n))
  {
    var t := Borrow(s, patron, e, true).after;
    PickedOffers(s, e);
    LicensesAfterBorrow(s, patron, e, Pick(s, e).value);
    if n > 0 {
      BorrowTakesSlot(s, patron, e, n - 1);
      ActiveAfterBorrow(s, patron, e, n - 1);
      LicensesAfterBorrow(s, patron, e, n - 1);
      hide Borrow, HasUnlimited, ActiveOn, Pick;
    }
  }

  lemma PickedOffers(s: State, e: Id)
    requires Pick(s, e).Some?
    ensures var l := Pick(s, e).value;
            && Offers(s, l, e) && l < |s.licenses|
            && (!HasUnlimited(s, e) ==> s.licenses[l].limit.Some? && ActiveOn(s, l) < s.licenses[l].limit.value)
  {
    var l := Pick(s, e).value;
    hide ActiveOn;
    assert !HasUnlimited(s, e) ==> !OffersUnlimited(s, l, e);
  }

  /** The last slot taken is gone: afterwards the title has none. */
  lemma LastSlotGone(s: State, patron: Id, e: Id)
    requires Borrow(s, patron, e, true).Done? && Slots(s, e) == 1
    ensures Slots(Borrow(s, patron, e, true).after, e) == 0
  {
    var t := Borrow(s, patron, e, true).after;
    PickedOffers(s, e);
    BorrowTakesSlot(s, patron, e, |s.licenses|);
    forall l | 0 <= l < |t.licenses| ensures !OffersUnlimited(t, l, e) {
      LicensesAfterBorrow(s, patron, e, l);
      assert !OffersUnlimited(s, l, e);
    }
    hide Borrow;
  }

  lemma BorrowKeepsOthers(s: State, patron: Id, other: Id, e: Id)
    requires Borrow(s, patron, e, true).Done? && other != patron
    ensures var t := Borrow(s, patron, e, true).after;
            && HasLoan(t, other, e) == HasLoan(s, other, e)
            && |t.holds| == |s.holds| && forall h | 0 <= h < |s.holds| && s.holds[h].patron == other ::
                 t.holds[h] == s.holds[h]
  {
    var t := Borrow(s, patron, e, true).after;
    PickedOffers(s, e);
    forall l | 0 <= l < |s.licenses| ensures |t.licenses| == |s.licenses|
           && t.licenses[l].edition == s.licenses[l].edition {
      LicensesAfterBorrow(s, patron, e, l);
    }
    hide HasQueue, Pick, Offers;
    forall i | 0 <= i < |s.loans| ensures LoanOf(t, i, other, e) == LoanOf(s, i, other, e) {}
    assert !LoanOf(t, |s.loans|, other, e);
    hide LoanOf;
    if HasLoan(s, other, e) {
      var i :| 0 <= i < |s.loans| && LoanOf(s, i, other, e);
      assert LoanOf(t, i, other, e);
    }
  }

  /** A ready hold reserves nothing: with one slot free and nobody waiting, two patrons who place holds are both made
      ready, and after the first has borrowed the other is refused for want of a license. */
  lemma ReadyReservesNothing(s: State, e: Id, one: Id, other: Id)
    requires one != other && Slots(s, e) > 0 && !HasQueue(s, e)
    requires !HasHold(s, one, e) && !HasHold(s, other, e) && !HasLoan(s, one, e) && !HasLoan(s, other, e)
    ensures var t := Step(Step(s, OpPlace(one, e, true)), OpPlace(other, e, true));
            && |t.holds| == |s.holds| + 2 && t.holds[|s.holds|].status == Ready
                 && t.holds[|s.holds| + 1].status == Ready
            && t.loans == s.loans && t.licenses == s.licenses && Slots(t, e) == Slots(s, e)
            && Borrow(t, one, e, true).Done?
            && (Slots(s, e) == 1 ==> Borrow(Borrow(t, one, e, true).after, other, e, true) == Refused(NoLicense))
  {
    BothReady(s, e, one, other);
    var t := Step(Step(s, OpPlace(one, e, true)), OpPlace(other, e, true));
    hide HasLoan, Step, HasHold, HasQueue, Slots, Borrow;
    assert IsHeldBy(t.holds[|s.holds|], one, e);
    ReadyHoldUsable(t, one, e, true);
    if Slots(s, e) == 1 {
      LastSlotGone(t, one, e);
      BorrowKeepsOthers(t, one, other, e);
      var u := Borrow(t, one, e, true).after;
      assert IsHeldBy(u.holds[|s.holds| + 1], other, e);
      RefusedForLicense(u, other, e);
    }
  }

  lemma RefusedForLicense(s: State, patron: Id, e: Id)
    requires exists h :: 0 <= h < |s.holds| && s.holds[h].status == Ready && IsHeldBy(s.holds[h], patron, e)
    requires !HasLoan(s, patron, e) && Slots(s, e) == 0
    ensures Borrow(s, patron, e, true) == Refused(NoLicense)
  {
    hide Slots, Pick, HasLoan, HasQueue;
    SlotsIffPick(s, e);
    var h :| 0 <= h < |s.holds| && s.holds[h].status == Ready && IsHeldBy(s.holds[h], patron, e);
    assert h in ReadyRanks(s, patron, e);
  }

  lemma BothReady(s: State, e: Id, one: Id, other: Id)
    requires one != other && Slots(s, e) > 0 && !HasQueue(s, e)
    requires !HasHold(s, one, e) && !HasHold(s, other, e) && !HasLoan(s, one, e) && !HasLoan(s, other, e)
    ensures var t := Step(Step(s, OpPlace(one, e, true)), OpPlace(other, e, true));
            && |t.holds| == |s.holds| + 2 && t.holds[|s.holds|].status == Ready
                 && t.holds[|s.holds| + 1].status == Ready
            && IsHeldBy(t.holds[|s.holds|], one, e) && IsHeldBy(t.holds[|s.holds| + 1], other, e)
            && t.loans == s.loans && t.licenses == s.licenses && t.now == s.now && Slots(t, e) == Slots(s, e)
            && !HasLoan(t, one, e) && !HasLoan(t, other, e)
  {
    hide HasLoan;
    var mid := Step(s, OpPlace(one, e, true));
    SameSlots(s, mid, e);
    SameLoans(s, mid, other, e);
    assert !HasQueue(mid, e) && !HasHold(mid, other, e);
    var t := Step(mid, OpPlace(other, e, true));
    SameSlots(mid, t, e);
    SameLoans(mid, t, one, e);
    SameLoans(s, mid, one, e);
    SameLoans(mid, t, other, e);
  }

  lemma SameLoans(s: State, t: State, patron: Id, e: Id)
    requires s.loans == t.loans && s.licenses == t.licenses
    ensures HasLoan(s, patron, e) == HasLoan(t, patron, e)
  {
    forall i | 0 <= i < |s.loans| ensures LoanOf(s, i, patron, e) == LoanOf(t, i, patron, e) {}
    hide LoanOf;
  }

  lemma SameSlots(s: State, t: State, e: Id)
    requires s.licenses == t.licenses && s.loans == t.loans && s.now == t.now
    ensures Slots(s, e) == Slots(t, e)
  {
    forall l | 0 <= l < |s.licenses| ensures Offers(s, l, e) == Offers(t, l, e) {}
    assert HasUnlimited(s, e) == HasUnlimited(t, e) by {
      if l :| 0 <= l < |s.licenses| && OffersUnlimited(s, l, e) { assert OffersUnlimited(t, l, e); }
      if l :| 0 <= l < |t.licenses| && OffersUnlimited(t, l, e) { assert OffersUnlimited(s, l, e); }
    }
    SameLimited(s, t, e, |s.licenses|);
  }

  lemma {:induction false} SameLimited(s: State, t: State, e: Id, n: nat)
    requires s.licenses == t.licenses && s.loans == t.loans && s.now == t.now && n <= |s.licenses|
    ensures LimitedSlots(s, e, n) == LimitedSlots(t, e, n)
  {
    if n > 0 {
      SameLimited(s, t, e, n - 1);
    }
  }
}
