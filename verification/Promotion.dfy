/** Whom a free slot goes to: the waiting hold placed first, for 72 hours, whenever one is freed; which loans and
    holds are accepted, and on what terms. */
module Promotion {
  import opened Common
  import opened Digital

  // ---------------------------------------------------------------- a free slot promotes the first waiting hold

  /** Hold `h` is the waiting one of the title first by (created_at, number). */
  predicate FirstInLine(s: State, e: Id, h: Id) {
    && h < |s.holds| && s.holds[h].edition == e && s.holds[h].status == Waiting
    && forall g | 0 <= g < |s.holds| && s.holds[g].edition == e && s.holds[g].status == Waiting ::
         s.holds[h].createdAt < s.holds[g].createdAt || (s.holds[h].createdAt == s.holds[g].createdAt && h <= g)
  }

  /** From `s` to `t` the first waiting hold of the title was made ready for 72 hours, and nothing else happened to
      holds. */
  ghost predicate Promoted(s: State, t: State, e: Id) {
    exists h: Id :: FirstInLine(s, e, h)
                && t.holds == s.holds[h := s.holds[h].(status := Ready, expiresAt := s.now + 72 * 3600)]
  }

  /** Promotion happens exactly if a slot is free and somebody waits. */
  lemma AssignNextPromotes(s: State, e: Id)
    ensures if Slots(s, e) > 0 && HasQueue(s, e) then Promoted(s, AssignNext(s, e), e) else AssignNext(s, e) == s
    ensures AssignNext(s, e).loans == s.loans && AssignNext(s, e).licenses == s.licenses
        && AssignNext(s, e).now == s.now
  {
    hide Slots;
    var ranks := QueueRanks(s, e);
    if HasQueue(s, e) {
      var h :| 0 <= h < |s.holds| && s.holds[h].edition == e && s.holds[h].status == Waiting;
      assert h in ranks;
      var next := First(ranks).value;
      assert forall g | g in ranks :: NotAfter(ranks, next, g);
      assert forall g | 0 <= g < |s.holds| && s.holds[g].edition == e && s.holds[g].status == Waiting :: g in ranks;
      assert FirstInLine(s, e, next);
    }
  }

  /** The license could lend but for its limit of loans at a time: it is active, not past its term and not used up. */
  predicate Lendable(license: License, now: int) {
    && license.active
    && (license.model == MeteredTime && license.expiresAt.Some? ==> license.expiresAt.value > now)
    && (license.model == MeteredCheckouts && license.allowed.Some? ==> license.used < license.allowed.value)
  }

  lemma ClosingFrees(s: State, i: Id, status: LoanStatus, forget: bool)
    requires LicensesKept(s) && i < |s.loans| && s.loans[i].license < |s.licenses| && s.loans[i].status == Active
    requires status != Active && Lendable(s.licenses[s.loans[i].license], s.now)
    ensures var loan := s.loans[i];
            var closed := s.(loans := s.loans[i := loan.(status := status,
                                                         patron := if forget then None else loan.patron)]);
            Slots(closed, s.licenses[loan.license].edition) > 0
  {
    var loan := s.loans[i];
    var closed := s.(loans := s.loans[i := loan.(status := status, patron := if forget then None else loan.patron)]);
    var l, e := loan.license, s.licenses[loan.license].edition;
    assert LicenseKept(s, l);
    SumUpdate(s.loans, i, closed.loans[i], IsActiveOn(l));
    assert ActiveOn(closed, l) < ActiveOn(s, l);
    assert Offers(closed, l, e);
    hide ActiveOn, Offers;
    SlotsIffPick(closed, e);
  }

  /** A loan that is returned, or lapses, frees its license for the first waiting hold, if the license can
      still lend. */
  lemma ClosePromotes(s: State, i: Id, status: LoanStatus, forget: bool)
    requires LicensesKept(s) && i < |s.loans| && s.loans[i].license < |s.licenses| && s.loans[i].status == Active
    requires status != Active
    ensures var t, loan := Close(s, i, status, forget), s.loans[i];
            var license := s.licenses[loan.license];
            && t.loans == s.loans[i := loan.(status := status, patron := if forget then None else loan.patron)]
            && t.licenses == s.licenses
            && (Lendable(license, s.now) && HasQueue(s, license.edition) ==> Promoted(s, t, license.edition))
  {
    hide Slots, LicensesKept;
    var loan := s.loans[i];
    var e := s.licenses[loan.license].edition;
    var closed := s.(loans := s.loans[i := loan.(status := status, patron := if forget then None else loan.patron)]);
    AssignNextPromotes(closed, e);
    if Lendable(s.licenses[loan.license], s.now) {
      ClosingFrees(s, i, status, forget);
      hide AssignNext, Promoted;
      if HasQueue(s, e) {
        SameLine(s, closed, AssignNext(closed, e), e);
      }
    }
  }

  lemma SameLine(s: State, t: State, u: State, e: Id)
    requires s.holds == t.holds && s.now == t.now && Promoted(t, u, e)
    ensures Promoted(s, u, e)
  {
    var h: Id :| FirstInLine(t, e, h)
        && u.holds == t.holds[h := t.holds[h].(status := Ready, expiresAt := t.now + 72 * 3600)];
    assert FirstInLine(s, e, h);
  }

  lemma ReturnPromotes(s: State, i: Id, forget: bool)
    requires LicensesKept(s)
    ensures Return(s, i, forget).Done?
            <==> i < |s.loans| && s.loans[i].license < |s.licenses| && s.loans[i].status == Active
    ensures Return(s, i, forget).Done? ==>
              var t, license := Return(s, i, forget).after, s.licenses[s.loans[i].license];
              && i < |t.loans| && t.loans[i].status == Returned
                   && t.loans[i].patron == (if forget then None else s.loans[i].patron)
              && (Lendable(license, s.now) && HasQueue(s, license.edition) ==> Promoted(s, t, license.edition))
  {
    hide LicensesKept, Lendable, HasQueue, Promoted, Close;
    if Return(s, i, forget).Done? { ClosePromotes(s, i, Returned, forget); }
  }

  lemma LoanExpiryPromotes(s: State, i: Id, asOf: int, forget: bool)
    requires LicensesKept(s)
    ensures ExpireLoan(s, i, asOf, forget).Done?
            <==> i < |s.loans| && s.loans[i].license < |s.licenses| && s.loans[i].status == Active
                 && s.loans[i].expiresAt <= asOf
    ensures ExpireLoan(s, i, asOf, forget).Done? ==>
              var t, license := ExpireLoan(s, i, asOf, forget).after, s.licenses[s.loans[i].license];
              && i < |t.loans| && t.loans[i].status == Lapsed
                   && t.loans[i].patron == (if forget then None else s.loans[i].patron)
              && (Lendable(license, s.now) && HasQueue(s, license.edition) ==> Promoted(s, t, license.edition))
  {
    hide LicensesKept, Lendable, HasQueue, Promoted, Close;
    if ExpireLoan(s, i, asOf, forget).Done? { ClosePromotes(s, i, Lapsed, forget); }
  }

  /** Closing a ready hold passes its turn on: if a slot is free and somebody waits, the first in line is ready next. */
  lemma ReadyHoldPassesOn(s: State, h: Id, status: HoldStatus)
    requires h < |s.holds| && s.holds[h].status == Ready && status in {Cancelled, Expired}
    ensures var t, e := AssignNext(SetHold(s, h, status), s.holds[h].edition), s.holds[h].edition;
            && |t.holds| == |s.holds| && t.holds[h] == s.holds[h].(status := status)
            && (Slots(s, e) > 0 && HasQueue(s, e) ==> Promoted(SetHold(s, h, status), t, e))
  {
    hide AssignNext;
    var e, closed := s.holds[h].edition, SetHold(s, h, status);
    SameSlots(s, closed, e);
    AssignNextPromotes(closed, e);
    hide Slots;
    if HasQueue(s, e) {
      var g :| 0 <= g < |s.holds| && s.holds[g].edition == e && s.holds[g].status == Waiting;
      assert closed.holds[g] == s.holds[g];
    }
  }

  lemma CancelPromotes(s: State, h: Id)
    ensures CancelHold(s, h).Done? <==> h < |s.holds| && s.holds[h].status in {Waiting, Ready}
    ensures CancelHold(s, h).Done? ==>
              var t, e := CancelHold(s, h).after, s.holds[h].edition;
              && |t.holds| == |s.holds| && t.holds[h] == s.holds[h].(status := Cancelled)
              && (s.holds[h].status == Waiting ==> t == SetHold(s, h, Cancelled))
              && (s.holds[h].status == Ready && Slots(s, e) > 0 && HasQueue(s, e) ==>
                  Promoted(SetHold(s, h, Cancelled), t, e))
  {
    hide AssignNext, Slots, HasQueue, Promoted;
    if h < |s.holds| && s.holds[h].status == Ready { ReadyHoldPassesOn(s, h, Cancelled); }
  }

  lemma HoldExpiryPromotes(s: State, h: Id, asOf: int)
    ensures ExpireHold(s, h, asOf).Done? <==>
        h < |s.holds| && s.holds[h].status == Ready && s.holds[h].expiresAt <= asOf
    ensures ExpireHold(s, h, asOf).Done? ==>
              var t, e := ExpireHold(s, h, asOf).after, s.holds[h].edition;
              && |t.holds| == |s.holds| && t.holds[h] == s.holds[h].(status := Expired)
              && (Slots(s, e) > 0 && HasQueue(s, e) ==> Promoted(SetHold(s, h, Expired), t, e))
  {
    hide AssignNext, Slots, HasQueue, Promoted;
    if h < |s.holds| && s.holds[h].status == Ready { ReadyHoldPassesOn(s, h, Expired); }
  }

  // ---------------------------------------------------------------- terms of loans and holds

  predicate HasReady(s: State, patron: Id, e: Id) {
    exists h :: 0 <= h < |s.holds| && s.holds[h].edition == e && s.holds[h].patron == patron
        && s.holds[h].status == Ready
  }

  /** The patron has the title on loan now, under any of its licenses. */
  predicate Borrowing(s: State, patron: Id, e: Id) {
    exists i :: 0 <= i < |s.loans| && s.loans[i].patron == Some(patron) && s.loans[i].status == Active
                && s.loans[i].license < |s.licenses| && s.licenses[s.loans[i].license].edition == e
  }

  /** The patron waits for the title or has a ready hold on it. */
  predicate Holding(s: State, patron: Id, e: Id) {
    exists h :: 0 <= h < |s.holds| && s.holds[h].patron == patron && s.holds[h].edition == e
                && s.holds[h].status in {Waiting, Ready}
  }

  lemma BorrowingIsLoan(s: State, patron: Id, e: Id)
    ensures HasLoan(s, patron, e) <==> Borrowing(s, patron, e)
    ensures HasHold(s, patron, e) <==> Holding(s, patron, e)
  {
    if i :| 0 <= i < |s.loans| && s.loans[i].patron == Some(patron) && s.loans[i].status == Active
            && s.loans[i].license < |s.licenses| && s.licenses[s.loans[i].license].edition == e {
      assert LoanOf(s, i, patron, e);
    }
    if h :| 0 <= h < |s.holds| && s.holds[h].patron == patron && s.holds[h].edition == e
            && s.holds[h].status in {Waiting, Ready} {
      assert IsHeldBy(s.holds[h], patron, e);
    }
  }

  /** Exactly when a loan is accepted: no loan of the title yet, a ready hold or nobody waiting, and a slot free. */
  lemma BorrowAccepted(s: State, patron: Id, e: Id, mayAct: bool)
    ensures Borrow(s, patron, e, mayAct).Done?
            <==> mayAct && !Borrowing(s, patron, e) && (HasReady(s, patron, e) || !HasQueue(s, e)) && Slots(s, e) > 0
  {
    hide Slots, Pick, HasQueue;
    SlotsIffPick(s, e);
    BorrowingIsLoan(s, patron, e);
    hide HasLoan, Borrowing;
    if HasReady(s, patron, e) {
      var h :| 0 <= h < |s.holds| && s.holds[h].edition == e && s.holds[h].patron == patron
          && s.holds[h].status == Ready;
      assert h in ReadyRanks(s, patron, e);
    }
  }

  /** The loan is on the first license that can lend, for that license's term, and counts against its checkouts if
      they are metered; the patron's ready hold, if any, is fulfilled, and no other hold changes. */
  lemma BorrowTerms(s: State, patron: Id, e: Id)
    requires Borrow(s, patron, e, true).Done?
    ensures var t := Borrow(s, patron, e, true).after;
            exists l: Id :: Offers(s, l, e) && (forall k: nat | k < l :: !Offers(s, k, e))
              && t.loans == s.loans + [Loan(l, Some(patron), s.now + s.licenses[l].loanDays * 24 * 3600, Active)]
              && |t.licenses| == |s.licenses| && t.licenses == s.licenses[l := t.licenses[l]]
              && t.licenses[l] == s.licenses[l].(used := t.licenses[l].used)
              && t.licenses[l].used == s.licenses[l].used + (if s.licenses[l].model == MeteredCheckouts then 1 else 0)
    ensures var t := Borrow(s, patron, e, true).after;
            && |t.holds| == |s.holds|
            && if HasReady(s, patron, e) then
                 exists h: Id :: h < |s.holds| && IsHeldBy(s.holds[h], patron, e) && s.holds[h].status == Ready
                                 && t.holds == s.holds[h := s.holds[h].(status := Fulfilled)]
               else t.holds == s.holds
  {
    hide HasLoan, HasQueue, Offers;
    var l := Pick(s, e).value;
    assert Offers(s, l, e) && forall k: nat | k < l :: !Offers(s, k, e);
    OffersExists(s, l, e);
    assert s.licenses[l := s.licenses[l]] == s.licenses;
    var ready := First(ReadyRanks(s, patron, e));
    if HasReady(s, patron, e) {
      var h :| 0 <= h < |s.holds| && s.holds[h].edition == e && s.holds[h].patron == patron
          && s.holds[h].status == Ready;
      assert h in ReadyRanks(s, patron, e);
    }
    hide Pick;
  }

  /** Exactly when a hold is accepted; it is ready at once, for 72 hours, exactly if a slot is free and nobody waits. */
  lemma PlaceTerms(s: State, patron: Id, e: Id, mayAct: bool)
    ensures PlaceHold(s, patron, e, mayAct).Done? <==> mayAct && !Holding(s, patron, e) && !Borrowing(s, patron, e)
    ensures PlaceHold(s, patron, e, mayAct).Done? ==>
              var t, n := PlaceHold(s, patron, e, mayAct).after, |s.holds|;
              && |t.holds| == n + 1 && t.holds[..n] == s.holds && t.loans == s.loans && t.licenses == s.licenses
              && t.holds[n] == if Slots(s, e) > 0 && !HasQueue(s, e)
                   then Hold(e, patron, s.now, Ready, s.now + 72 * 3600)
                               else Hold(e, patron, s.now, Waiting, 0)
  {
    BorrowingIsLoan(s, patron, e);
    hide Slots, HasHold, HasLoan, HasQueue, Borrowing, Holding;
  }

  // ---------------------------------------------------------------- licenses

  /** A license lends exactly while it is lendable and below its limit of loans at a time, if it has one. */
  lemma OffersExactly(s: State, l: Id, e: Id)
    ensures Offers(s, l, e)
            <==> l < |s.licenses| && s.licenses[l].edition == e && Lendable(s.licenses[l], s.now)
                 && (s.licenses[l].limit.Some? ==> ActiveOn(s, l) < s.licenses[l].limit.value)
  {
    hide ActiveOn;
  }

  /** What a license adds to the slots advertised. */
  function FreeOn(s: State, e: Id, l: nat): nat
    requires l < |s.licenses|
  {
    if Offers(s, l, e) && s.licenses[l].limit.Some? then Max(0, s.licenses[l].limit.value - ActiveOn(s, l)) else 0
  }

  function Frees(s: State, e: Id, n: nat): (r: seq<nat>)
    requires n <= |s.licenses|
    ensures |r| == n && forall l | 0 <= l < n :: r[l] == FreeOn(s, e, l)
  {
    seq(n, l requires 0 <= l < n => FreeOn(s, e, l))
  }

  function Itself(x: nat): nat { x }

  lemma {:induction false} LimitedAreFree(s: State, e: Id, n: nat)
    requires n <= |s.licenses|
    ensures LimitedSlots(s, e, n) == Sum(Frees(s, e, n), Itself)
  {
    hide Offers, ActiveOn;
    if n > 0 {
      LimitedAreFree(s, e, n - 1);
      assert Frees(s, e, n)[..n - 1] == Frees(s, e, n - 1);
    }
  }

  /** What is advertised: a million where some license lends without limit, otherwise each lending license's free
      slots. */
  lemma SlotsAdvertised(s: State, e: Id)
    ensures if exists l: Id :: Offers(s, l, e) && s.licenses[l].limit.None? then Slots(s, e) == 1_000_000
            else Slots(s, e) == Sum(Frees(s, e, |s.licenses|), Itself)
  {
    LimitedAreFree(s, e, |s.licenses|);
    hide LimitedSlots, IsAvailable, Sum, Frees;
    if l: Id :| Offers(s, l, e) && s.licenses[l].limit.None? {
      assert OffersUnlimited(s, l, e);
    } else {
      forall l | 0 <= l < |s.licenses| ensures !OffersUnlimited(s, l, e) {
        assert !(Offers(s, l, e) && s.licenses[l].limit.None?);
      }
    }
  }

  /** A license is entered as given with nothing used, and switched on or off without touching anything else. */
  lemma LicensesEntered(s: State, license: License, l: Id, active: bool)
    ensures AddLicense(s, license) == Done(s.(licenses := s.licenses + [license.(used := 0)]))
    ensures SwitchLicense(s, l, active).Done? <==> l < |s.licenses|
    ensures l < |s.licenses| ==>
              var t := SwitchLicense(s, l, active).after;
              t == s.(licenses := t.licenses) && t.licenses == s.licenses[l := s.licenses[l].(active := active)]
  {}
}
