/** Limits that hold in every reachable state, and the bound on reshipping lost copies. */
module Limits {
  import opened Common
  import opened Circulation
  import opened Allocation
  import opened HoldQueue

  // ---------------------------------------------------------------- loan and hold limits

  ghost predicate LoansWithin(R: Rules, s: State) {
    forall p: Id :: |OpenLoans(s, p, R.orgOf(p))| <= R.maxLoans(p)
  }

  ghost predicate HoldsWithin(R: Rules, s: State) {
    forall p: Id :: |LiveHolds(s, p, R.orgOf(p))| <= R.maxHolds(p)
  }

  /** At most one live hold per organization, work and patron. */
  ghost predicate OneHoldEach(R: Rules, s: State) {
    && (forall h | h in s.holds :: s.holds[h].org == R.orgOf(s.holds[h].patron))
    && (forall g, h | g in s.holds && h in s.holds && Live(s.holds[g]) && Live(s.holds[h])
          && s.holds[g].patron == s.holds[h].patron && s.holds[g].work == s.holds[h].work :: g == h)
  }

  /** An open loan has been renewed no more often than the policy for its patron and copy allows. */
  ghost predicate RenewalsWithin(R: Rules, s: State) {
    forall l | l in s.loans && Open(s.loans[l]) ::
      s.loans[l].copy in s.copies
      && s.loans[l].renewals <= R.maxRenewals(s.loans[l].patron, s.copies[s.loans[l].copy].edition,
                                              s.copies[s.loans[l].copy].branch)
  }

  ghost predicate Within(R: Rules, s: State) {
    LoansWithin(R, s) && HoldsWithin(R, s) && OneHoldEach(R, s) && RenewalsWithin(R, s)
  }

  lemma SubsetSize<T>(a: set<T>, b: set<T>)
    requires a <= b
    ensures |a| <= |b|
  {
    assert b == a + (b - a);
  }

  lemma OpenLoansStep(R: Rules, s: State, op: Op, t: State, p: Id)
    requires LoansFollow(R, s, op, t)
    ensures OpenLoans(t, p, R.orgOf(p)) <= OpenLoans(s, p, R.orgOf(p)) + {s.nextLoan}
    ensures OpenLoans(t, p, R.orgOf(p)) <= OpenLoans(s, p, R.orgOf(p)) || |OpenLoans(s, p, R.orgOf(p))| < R.maxLoans(p)
  {}

  lemma LoansWithinStep(R: Rules, s: State, op: Op, t: State)
    requires LoansWithin(R, s) && LoansFollow(R, s, op, t)
    ensures LoansWithin(R, t)
  {
    hide LoansFollow, OpenLoans;
    forall p: Id ensures |OpenLoans(t, p, R.orgOf(p))| <= R.maxLoans(p) {
      OpenLoansStep(R, s, op, t, p);
      if OpenLoans(t, p, R.orgOf(p)) <= OpenLoans(s, p, R.orgOf(p)) {
        SubsetSize(OpenLoans(t, p, R.orgOf(p)), OpenLoans(s, p, R.orgOf(p)));
      } else {
        SubsetSize(OpenLoans(t, p, R.orgOf(p)), OpenLoans(s, p, R.orgOf(p)) + {s.nextLoan});
      }
    }
  }

  lemma HoldsWithinStep(R: Rules, s: State, op: Op, t: State)
    requires HoldsWithin(R, s) && HoldsFollow(R, s, op, t)
    ensures HoldsWithin(R, t)
  {
    forall p: Id ensures |LiveHolds(t, p, R.orgOf(p))| <= R.maxHolds(p) {
      var before := LiveHolds(s, p, R.orgOf(p));
      var after := LiveHolds(t, p, R.orgOf(p));
      if op.OpPlaceHold? && p == op.patron && s.nextHold !in s.holds && s.nextHold in t.holds {
        SubsetSize(after, before + {s.nextHold});
      } else {
        SubsetSize(after, before);
      }
    }
  }

  lemma OneHoldEachStep(R: Rules, s: State, op: Op, t: State)
    requires OneHoldEach(R, s) && HoldsFollow(R, s, op, t)
    ensures OneHoldEach(R, t)
  {
  }

  lemma RenewalsWithinStep(R: Rules, s: State, op: Op, t: State)
    requires Allocated(s) && Allocated(t)
    requires RenewalsWithin(R, s) && LoansFollow(R, s, op, t) && CopiesPersist(s, t)
    ensures RenewalsWithin(R, t)
  {
    forall l | l in t.loans && Open(t.loans[l])
      ensures t.loans[l].copy in t.copies
      ensures t.loans[l].renewals
              <= R.maxRenewals(t.loans[l].patron, t.copies[t.loans[l].copy].edition, t.copies[t.loans[l].copy].branch)
    {
      OpenLoanIsLoaned(t, l);
      if l in s.loans {
        OpenLoanIsLoaned(s, l);
        hide Allocated;
        assert SameItem(s.copies[t.loans[l].copy], t.copies[t.loans[l].copy]);
      }
    }
  }

  /** Patron limits are hard: no run, with or without overrides, passes them. */
  lemma {:induction false} RunWithin(R: Rules, ops: seq<Op>)
    ensures Within(R, Run(R, EMPTY, ops))
    decreases |ops|
  {
    if ops == [] {
      assert forall p: Id :: OpenLoans(EMPTY, p, R.orgOf(p)) == {} && LiveHolds(EMPTY, p, R.orgOf(p)) == {};
    } else {
      var i := |ops| - 1;
      RunWithin(R, ops[..i]);
      RunAllocated(R, ops[..i]);
      RunAllocated(R, ops);
      var s, op, t := Run(R, EMPTY, ops[..i]), ops[i], Run(R, EMPTY, ops);
      CopiesStep(R, s, op);
      LoansStep(R, s, op);
      HoldsStep(R, s, op);
      hide Allocated, LoansFollow, HoldsFollow, CopiesPersist, LoansWithin, HoldsWithin, OneHoldEach, RenewalsWithin;
      LoansWithinStep(R, s, op, t);
      HoldsWithinStep(R, s, op, t);
      OneHoldEachStep(R, s, op, t);
      RenewalsWithinStep(R, s, op, t);
    }
  }

  /** A renewal happens only with nobody waiting, makes the loan current again and moves its due date later. */
  lemma RenewalExtends(R: Rules, s: State, l: Id, standing: Standing)
    requires Renew(R, s, l, standing).Done?
    ensures var loan, copy := s.loans[l], s.copies[s.loans[l].copy];
            var renewed := Renew(R, s, l, standing).after.loans[l];
            && Queue(s, loan.org, copy.work) == {} && renewed.status == Active
            && (R.loanDays(loan.patron, copy.edition, copy.branch) > 0 ==>
                renewed.dueAt > loan.dueAt && renewed.dueAt > s.now)
  {}

  // ---------------------------------------------------------------- lost transits

  /** Copies timed out in transit and put back on offer by this step. */
  ghost predicate PutsBack(s: State, op: Op) {
    TimedOut(s, op).Some? && s.holds[TimedOut(s, op).value].attempts + 1 < op.maxAttempts
  }

  ghost function PutBacks(R: Rules, ops: seq<Op>): nat
    decreases |ops|
  {
    if ops == [] then 0
    else PutBacks(R, ops[..|ops| - 1]) + if PutsBack(Run(R, EMPTY, ops[..|ops| - 1]), ops[|ops| - 1]) then 1 else 0
  }

  /** Attempts recorded on the first `n` holds, each counted up to `m - 1`. */
  ghost function Spent(holds: map<Id, Hold>, n: nat, m: nat): int {
    if n == 0 then 0
    else Spent(holds, n - 1, m) + if n - 1 in holds then Min(holds[n - 1].attempts, m - 1) else 0
  }

  lemma {:induction false} SpentBound(holds: map<Id, Hold>, n: nat, m: nat)
    requires m >= 1
    ensures Spent(holds, n, m) <= (m - 1) * n
  {
    if n > 0 {
      SpentBound(holds, n - 1, m);
      assert (m - 1) * n == (m - 1) * (n - 1) + (m - 1);
    }
  }

  /** Holds below `n` keep their attempts, except that `bumped` has one more. */
  lemma {:induction false} SpentGrows(before: map<Id, Hold>, after: map<Id, Hold>, n: nat, m: nat, bumped: Option<Id>)
    requires m >= 1 && before.Keys <= after.Keys
    requires forall h | h in after && h !in before :: after[h].attempts == 0
    requires forall h | h in before :: after[h].attempts == before[h].attempts + if bumped == Some(h) then 1 else 0
    ensures Spent(after, n, m) >= Spent(before, n, m)
    ensures bumped.Some? && bumped.value in before && bumped.value < n && before[bumped.value].attempts + 1 < m ==>
              Spent(after, n, m) >= Spent(before, n, m) + 1
  {
    if n > 0 {
      SpentGrows(before, after, n - 1, m, bumped);
    }
  }

  lemma HoldIdsBelow(s: State)
    requires Allocated(s)
    ensures forall h | h in s.holds :: h < s.nextHold
    ensures s.nextHold !in s.holds
  {
    AllocatedIsExclusive(s);
  }

  /** Hold ids count the holds ever placed. */
  lemma {:induction false} HoldsCounted(R: Rules, ops: seq<Op>)
    ensures |Run(R, EMPTY, ops).holds| == Run(R, EMPTY, ops).nextHold
    decreases |ops|
  {
    if ops != [] {
      var i := |ops| - 1;
      var s, t := Run(R, EMPTY, ops[..i]), Run(R, EMPTY, ops);
      HoldsCounted(R, ops[..i]);
      RunAllocated(R, ops[..i]);
      HoldsStep(R, s, ops[i]);
      HoldIdsBelow(s);
      hide Allocated, Fair, Step, HoldsFollow;
      CountedStep(R, s, ops[i], t);
    }
  }

  lemma CountedStep(R: Rules, s: State, op: Op, t: State)
    requires HoldsFollow(R, s, op, t) && s.nextHold !in s.holds && |s.holds| == s.nextHold
    ensures |t.holds| == t.nextHold
  {
    hide TimedOut, LiveHolds, SameRequest;
    assert t.holds.Keys == if t.nextHold == s.nextHold then s.holds.Keys else s.holds.Keys + {s.nextHold};
    assert |t.holds.Keys| == |t.holds| && |s.holds.Keys| == |s.holds|;
  }

  lemma SpentStep(R: Rules, s: State, op: Op, t: State, m: nat)
    requires m >= 1 && (op.OpTimeOut? ==> op.maxAttempts == m) && HoldsFollow(R, s, op, t)
    requires s.nextHold !in s.holds && forall h | h in s.holds :: h < s.nextHold
    ensures Spent(t.holds, t.nextHold, m) >= Spent(s.holds, s.nextHold, m) + if PutsBack(s, op) then 1 else 0
  {
    SpentGrows(s.holds, t.holds, s.nextHold, m, TimedOut(s, op));
    hide TransitStale;
  }

  lemma {:induction false} PutBacksSpent(R: Rules, ops: seq<Op>, m: nat)
    requires m >= 1 && forall op | op in ops && op.OpTimeOut? :: op.maxAttempts == m
    ensures PutBacks(R, ops) <= Spent(Run(R, EMPTY, ops).holds, Run(R, EMPTY, ops).nextHold, m)
    decreases |ops|
  {
    if ops != [] {
      var i := |ops| - 1;
      var s, op, t := Run(R, EMPTY, ops[..i]), ops[i], Run(R, EMPTY, ops);
      PutBacksSpent(R, ops[..i], m);
      RunAllocated(R, ops[..i]);
      HoldsStep(R, s, op);
      HoldIdsBelow(s);
      hide Allocated, Fair, HoldsFollow, PutsBack, Step;
      assert op in ops;
      SpentStep(R, s, op, t, m);
    }
  }

  /** Over any run the sweep puts a timed-out copy back at most `m - 1` times per hold ever placed. */
  lemma LostTransitsStop(R: Rules, ops: seq<Op>, m: nat)
    requires m >= 1 && forall op | op in ops && op.OpTimeOut? :: op.maxAttempts == m
    ensures PutBacks(R, ops) <= (m - 1) * |Run(R, EMPTY, ops).holds|
  {
    HoldsCounted(R, ops);
    PutBacksSpent(R, ops, m);
    SpentBound(Run(R, EMPTY, ops).holds, Run(R, EMPTY, ops).nextHold, m);
  }

  /** A time-out that does not put the copy back pulls it for repair and leaves its hold waiting without a copy. */
  lemma ExhaustedTransitIsPulled(R: Rules, ops: seq<Op>, c: Id, maxDays: nat, m: nat)
    requires var s := Run(R, EMPTY, ops);
             TransitStale(s, c, maxDays) && !PutsBack(s, OpTimeOut(c, maxDays, m))
    ensures var s := Run(R, EMPTY, ops);
            var t := Step(R, s, OpTimeOut(c, maxDays, m));
            exists h :: h in s.holds && Assigned(s, c, Waiting) == {h} && t.copies[c].status == Repair
                        && t.holds[h].status == Waiting && t.holds[h].copy.None?
  {
    hide Allocated, AssignNext, Run;
    var s := Run(R, EMPTY, ops);
    RunAllocated(R, ops);
    TransitHasHold(s, c);
  }
}
