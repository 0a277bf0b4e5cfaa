/** Digital lending as it runs: license, loan and hold rows updated in place, availability computed by loops over
    licenses, and the two expiry sweeps. */
module DigitalDesk {
  import opened Common
  import opened Digital

  datatype Reply = Ok | Denied(error: Refusal)

  predicate Follows(op: Op, before: State, after: State, r: Reply) {
    match Apply(before, op)
    case Done(t) => r == Ok && after == t
    case Refused(e) => r == Denied(e) && after == before
  }

  lemma FollowsKeeps(op: Op, before: State, after: State, r: Reply)
    requires Kept(before) && Follows(op, before, after, r)
    ensures Kept(after) && Fair(before, after)
  {
    hide Kept, Fair, Apply;
    StepKept(before, op);
    StepFair(before, op);
  }

  /** Closing a loan leaves every other loan, and every license, alone. */
  lemma ExpireOthers(s: State, i: Id, asOf: int, forget: bool)
    requires ExpireLoan(s, i, asOf, forget).Done?
    ensures var t := ExpireLoan(s, i, asOf, forget).after;
            && t.licenses == s.licenses && |t.loans| == |s.loans| && t.loans[i].status == Lapsed
            && t.loans == s.loans[i := t.loans[i]]
  {
    hide Close;
    CloseOnly(s, i, Lapsed, forget);
  }

  /** Ending a ready hold leaves every other hold alone, except that one waiting may become ready. */
  lemma ExpireHoldOthers(s: State, h: Id, asOf: int)
    requires ExpireHold(s, h, asOf).Done?
    ensures var t := ExpireHold(s, h, asOf).after;
            && |t.holds| == |s.holds| && t.holds[h].status == Expired
            && forall g | 0 <= g < |s.holds| && g != h ::
                 t.holds[g] == s.holds[g] || (s.holds[g].status == Waiting && t.holds[g].status == Ready)
  {
    hide Slots;
  }

  lemma RunNone(s: State)
    ensures Run(s, []) == s
  {}

  lemma RunSnoc(s: State, ops: seq<Op>, op: Op)
    ensures Run(s, ops + [op]) == Step(Run(s, ops), op)
  {
    assert (ops + [op])[..|ops|] == ops;
  }

  class Collection {
    var licenses: seq<License>
    var loans: seq<Loan>
    var holds: seq<Hold>
    var now: int

    function Rows(): State
      reads this
    {
      State(licenses, loans, holds, now)
    }

    constructor ()
      ensures Rows() == EMPTY
    {
      licenses, loans, holds, now := [], [], [], 0;
    }

    method LicenseIsAvailable(l: Id) returns (available: bool)
      requires l < |licenses|
      ensures available <==> IsAvailable(Rows(), l)
    {
      var license := licenses[l];
      if !license.active { return false; }
      if license.model == MeteredTime && license.expiresAt.Some? && license.expiresAt.value <= now { return false; }
      if license.model == MeteredCheckouts && license.allowed.Some? && license.used >= license.allowed.value {
        return false;
      }
      if license.limit.None? { return true; }
      return ActiveOn(Rows(), l) < license.limit.value;
    }

    method AvailableSlots(e: Id) returns (slots: nat)
      ensures slots == Slots(Rows(), e)
      ensures slots > 0 <==> Pick(Rows(), e).Some?
    {
      SlotsIffPick(Rows(), e);
      hide IsAvailable, Pick;
      slots := 0;
      var l := 0;
      while l < |licenses|
        invariant 0 <= l <= |licenses|
        invariant slots == LimitedSlots(Rows(), e, l)
        invariant forall k | 0 <= k < l :: !OffersUnlimited(Rows(), k, e)
      {
        if licenses[l].edition == e {
          var available := LicenseIsAvailable(l);
          if available {
            if licenses[l].limit.None? {
              assert OffersUnlimited(Rows(), l, e);
              return UNLIMITED;
            }
            slots := slots + Max(0, licenses[l].limit.value - ActiveOn(Rows(), l));
          }
        }
        l := l + 1;
      }
    }

    method PickAvailableLicense(e: Id) returns (picked: Option<Id>)
      ensures picked == Pick(Rows(), e)
    {
      hide IsAvailable;
      var l := 0;
      while l < |licenses|
        invariant 0 <= l <= |licenses|
        invariant PickFrom(Rows(), e, l) == Pick(Rows(), e)
      {
        if licenses[l].edition == e {
          var available := LicenseIsAvailable(l);
          if available { return Some(l); }
        }
        l := l + 1;
      }
      return None;
    }

    method SaveHold(h: Id, status: HoldStatus)
      requires h < |holds|
      modifies this`holds
      ensures Rows() == SetHold(old(Rows()), h, status)
    {
      holds := holds[h := holds[h].(status := status)];
    }

    method AssignNextDigitalHold(e: Id)
      modifies this`holds
      ensures Rows() == AssignNext(old(Rows()), e)
    {
      hide Slots;
      var slots := AvailableSlots(e);
      if slots <= 0 { return; }
      var next := First(QueueRanks(Rows(), e));
      if next.Some? {
        var h := next.value;
        holds := holds[h := holds[h].(status := Ready, expiresAt := now + READY_HOLD_HOURS * HOUR)];
      }
    }

    method BorrowDigital(patron: Id, e: Id, mayAct: bool) returns (r: Reply)
      modifies this
      ensures Follows(OpBorrow(patron, e, mayAct), old(Rows()), Rows(), r)
    {
      hide HasLoan, HasQueue, Pick;
      if !mayAct { return Denied(CannotAct); }
      if HasLoan(Rows(), patron, e) { return Denied(AlreadyBorrowed); }
      var ready := First(ReadyRanks(Rows(), patron, e));
      if ready.None? && HasQueue(Rows(), e) { return Denied(QueueExists); }
      var picked := PickAvailableLicense(e);
      if picked.None? { return Denied(NoLicense); }
      var l := picked.value;
      PickedExists(Rows(), e);
      loans := loans + [Loan(l, Some(patron), now + licenses[l].loanDays * DAY, Active)];
      if licenses[l].model == MeteredCheckouts {
        licenses := licenses[l := licenses[l].(used := licenses[l].used + 1)];
      }
      if ready.Some? {
        SaveHold(ready.value, Fulfilled);
      }
      return Ok;
    }

    method CloseDigitalLoan(i: Id, status: LoanStatus, forget: bool)
      requires i < |loans| && loans[i].license < |licenses|
      modifies this`loans, this`holds
      ensures Rows() == Close(old(Rows()), i, status, forget)
    {
      hide AssignNext;
      var e := licenses[loans[i].license].edition;
      loans := loans[i := loans[i].(status := status)];
      if forget {
        loans := loans[i := loans[i].(patron := None)];
      }
      assert loans == old(loans)[i := old(loans)[i].(status := status,
                                                     patron := if forget then None else old(loans)[i].patron)];
      AssignNextDigitalHold(e);
    }

    method ReturnDigital(i: Id, forget: bool) returns (r: Reply)
      modifies this
      ensures Follows(OpReturn(i, forget), old(Rows()), Rows(), r)
    {
      hide Close;
      if i >= |loans| || loans[i].license >= |licenses| { return Denied(NoSuchRow); }
      if loans[i].status != Active { return Denied(NotActive); }
      CloseDigitalLoan(i, Returned, forget);
      return Ok;
    }

    method PlaceDigitalHold(patron: Id, e: Id, mayAct: bool) returns (r: Reply)
      modifies this
      ensures Follows(OpPlace(patron, e, mayAct), old(Rows()), Rows(), r)
    {
      hide Slots, HasLoan, HasHold;
      if !mayAct { return Denied(CannotAct); }
      if HasHold(Rows(), patron, e) { return Denied(AlreadyHolds); }
      if HasLoan(Rows(), patron, e) { return Denied(AlreadyBorrowed); }
      var ahead := HasQueue(Rows(), e);
      var h := |holds|;
      holds := holds + [Hold(e, patron, now, Waiting, 0)];
      if !ahead {
        var slots := AvailableSlots(e);
        SameSlots(old(Rows()), Rows(), e);
        if slots > 0 {
          holds := holds[h := holds[h].(status := Ready, expiresAt := now + READY_HOLD_HOURS * HOUR)];
        }
      }
      return Ok;
    }

    method CancelDigitalHold(h: Id) returns (r: Reply)
      modifies this
      ensures Follows(OpCancel(h), old(Rows()), Rows(), r)
    {
      hide AssignNext;
      if h >= |holds| { return Denied(NoSuchRow); }
      if holds[h].status !in {Waiting, Ready} { return Denied(NotActive); }
      var wasReady := holds[h].status == Ready;
      SaveHold(h, Cancelled);
      if wasReady {
        AssignNextDigitalHold(holds[h].edition);
      }
      return Ok;
    }

    /** One step of the loan sweep. */
    method LapseLoan(i: Id, asOf: int, forget: bool)
      requires ExpireLoan(Rows(), i, asOf, forget).Done?
      modifies this`loans, this`holds
      ensures Rows() == Step(old(Rows()), OpExpireLoan(i, asOf, forget))
      ensures i < |loans| && loans == old(loans)[i := loans[i]] && loans[i].status == Lapsed
    {
      ExpireOthers(Rows(), i, asOf, forget);
      hide Close;
      CloseDigitalLoan(i, Lapsed, forget);
    }

    /** Afterwards no active loan due by `asOf` is left, and each one that was counts once; `keepers` are the loans of
        patrons who keep their history.  The rows are those of the run of the sweep's steps. */
    method ExpireDigitalLoans(asOf: int, keepers: set<Id>) returns (count: nat, ghost ops: seq<Op>)
      requires forall i | 0 <= i < |loans| :: loans[i].license < |licenses|
      modifies this
      ensures Rows() == Run(old(Rows()), ops) && count == |ops| == Sum(old(loans), IsDueBy(asOf))
      ensures forall op | op in ops :: op.OpExpireLoan? && op.asOf == asOf
      ensures |loans| == |old(loans)| && licenses == old(licenses) && now == old(now)
      ensures forall i | 0 <= i < |loans| :: loans[i].status == Active ==> loans[i].expiresAt > asOf
      ensures forall i | 0 <= i < |loans| && IsDueBy(asOf)(old(loans)[i]) == 0 :: loans[i] == old(loans)[i]
    {
      hide Close, Run, Step;
      count, ops := 0, [];
      RunNone(Rows());
      var i := 0;
      assert loans[..0] == [];
      while i < |loans|
        invariant 0 <= i <= |loans| == |old(loans)| && licenses == old(licenses) && now == old(now)
        invariant Rows() == Run(old(Rows()), ops) && count == |ops| == Sum(old(loans)[..i], IsDueBy(asOf))
        invariant forall op | op in ops :: op.OpExpireLoan? && op.asOf == asOf
        invariant forall k | 0 <= k < i :: loans[k].status == Active ==> loans[k].expiresAt > asOf
        invariant forall k | 0 <= k < i && IsDueBy(asOf)(old(loans)[k]) == 0 :: loans[k] == old(loans)[k]
        invariant forall k | i <= k < |loans| :: loans[k] == old(loans)[k]
      {
        assert old(loans)[..i + 1][..i] == old(loans)[..i];
        if loans[i].status == Active && loans[i].expiresAt <= asOf {
          ghost var op := OpExpireLoan(i, asOf, i !in keepers);
          LapseLoan(i, asOf, i !in keepers);
          RunSnoc(old(Rows()), ops, op);
          ops := ops + [op];
          count := count + 1;
        }
        i := i + 1;
      }
      assert old(loans)[..i] == old(loans);
    }

    /** One step of the ready-hold sweep. */
    method ExpireReadyHold(h: Id, asOf: int) returns (r: Reply)
      modifies this`holds
      ensures Follows(OpExpireHold(h, asOf), old(Rows()), Rows(), r)
    {
      hide AssignNext;
      if h >= |holds| { return Denied(NoSuchRow); }
      if holds[h].status != Ready { return Denied(NotActive); }
      if holds[h].expiresAt > asOf { return Denied(NotDue); }
      SaveHold(h, Expired);
      AssignNextDigitalHold(holds[h].edition);
      return Ok;
    }

    /** Expires exactly the ready holds whose time was up by `asOf`, each once; the only other change to a hold is that
        one waiting becomes ready. */
    method ExpireDigitalReadyHolds(asOf: int) returns (count: nat, ghost ops: seq<Op>)
      modifies this`holds
      ensures Rows() == Run(old(Rows()), ops) && count == |ops| == Sum(old(holds), IsOverBy(asOf))
      ensures forall op | op in ops :: op.OpExpireHold? && op.asOf == asOf
      ensures |holds| == |old(holds)|
      ensures forall h | 0 <= h < |holds| && IsOverBy(asOf)(old(holds)[h]) == 1 :: holds[h].status == Expired
      ensures forall h | 0 <= h < |holds| && IsOverBy(asOf)(old(holds)[h]) == 0 ::
                holds[h] == old(holds)[h] || (old(holds)[h].status == Waiting && holds[h].status == Ready)
    {
      hide ExpireHold, Run;
      var rows := holds;
      count, ops := 0, [];
      RunNone(Rows());
      var h := 0;
      assert rows[..0] == [];
      while h < |rows|
        invariant 0 <= h <= |rows| == |holds| && rows == old(holds)
        invariant Rows() == Run(old(Rows()), ops) && count == |ops| == Sum(rows[..h], IsOverBy(asOf))
        invariant forall op | op in ops :: op.OpExpireHold? && op.asOf == asOf
        invariant forall k | 0 <= k < h && IsOverBy(asOf)(rows[k]) == 1 :: holds[k].status == Expired
        invariant forall k | 0 <= k < |rows| && (k >= h || IsOverBy(asOf)(rows[k]) == 0) ::
                    holds[k] == rows[k] || (rows[k].status == Waiting && holds[k].status == Ready)
      {
        assert rows[..h + 1][..h] == rows[..h];
        if rows[h].status == Ready && rows[h].expiresAt <= asOf {
          ghost var before := Rows();
          DueHoldExpires(before, h, asOf);
          var r := ExpireReadyHold(h, asOf);
          ExpireHoldOthers(before, h, asOf);
          RunSnoc(old(Rows()), ops, OpExpireHold(h, asOf));
          ops := ops + [OpExpireHold(h, asOf)];
          count := count + 1;
        }
        h := h + 1;
      }
      assert rows[..h] == rows;
    }
  }

  lemma DueHoldExpires(s: State, h: Id, asOf: int)
    requires h < |s.holds| && s.holds[h].status == Ready && s.holds[h].expiresAt <= asOf
    ensures ExpireHold(s, h, asOf).Done?
  {}

  function IsOverBy(asOf: int): Hold -> nat {
    (hold: Hold) => if hold.status == Ready && hold.expiresAt <= asOf then 1 else 0
  }

  function IsDueBy(asOf: int): Loan -> nat {
    (loan: Loan) => if loan.status == Active && loan.expiresAt <= asOf then 1 else 0
  }

  lemma PickedExists(s: State, e: Id)
    ensures Pick(s, e).Some? ==> Pick(s, e).value < |s.licenses|
  {}
}
