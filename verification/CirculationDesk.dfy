/** The circulation desk as it runs: tables held in fields, each transaction an update in place.

    `Follows` ties every method to the operation it carries out, so the invariants proved for
    runs of operations hold of the object after any calls. */
module CirculationDesk {
  import opened Common
  import opened Circulation
  import opened Allocation
  import opened HoldQueue
  import opened Reconciliation

  datatype Reply = Ok | Denied(error: Refusal)

  /** The call did exactly what `op` does to `before`, or refused for the same reason and changed nothing. */
  predicate Follows(R: Rules, op: Op, before: State, after: State, r: Reply) {
    match Apply(R, before, op)
    case Done(t) => r == Ok && after == t
    case Refused(e) => r == Denied(e) && after == before
  }

  lemma FollowsKeeps(R: Rules, op: Op, before: State, after: State, r: Reply)
    requires Allocated(before) && Follows(R, op, before, after, r)
    ensures Allocated(after) && CopiesPersist(before, after) && LoansFollow(R, before, op, after)
    ensures HoldsFollow(R, before, op, after) && Fair(before, after, TimedOut(before, op))
  {
    hide Allocated, CopiesPersist, LoansFollow, HoldsFollow, Fair;
    StepAllocated(R, before, op);
    CopiesStep(R, before, op);
    LoansStep(R, before, op);
    HoldsStep(R, before, op);
  }

  /** Reserved holds whose pickup date has passed. */
  function Missed(s: State): set<Id> { set h | h in s.holds && PickupMissed(s, h) }

  /** The hold placed first, by (created_at, id). */
  function EarliestOf(s: State, due: set<Id>): (h: Id)
    requires due != {} && due <= s.holds.Keys
    ensures h in due
  {
    assert HoldRanks(s, due).Keys == due;
    First(HoldRanks(s, due)).value
  }

  /** Copies of an organization with one of the given barcodes. */
  function Named(s: State, org: Id, barcodes: set<Id>): set<Id> {
    set c | c in s.copies && s.copies[c].org == org && s.copies[c].barcode in barcodes
  }

  lemma NotFound(s: State, org: Id, barcodes: set<Id>, found: set<Id>)
    requires found == set c | c in Named(s, org, barcodes) :: s.copies[c].barcode
    ensures barcodes - found == set b | b in barcodes && Named(s, org, {b}) == {}
  {
    forall b | b in barcodes ensures b in found <==> Named(s, org, {b}) != {} {
      if b in found {
        var c :| c in Named(s, org, barcodes) && s.copies[c].barcode == b;
        assert c in Named(s, org, {b});
      }
      if c :| c in Named(s, org, {b}) {
        assert c in Named(s, org, barcodes);
      }
    }
  }

  /** Releasing one hold leaves every other reserved hold reserved. */
  lemma ReleaseOthers(R: Rules, s: State, h: Id, status: HoldStatus)
    requires Reservable(s, h) && status in {Cancelled, Expired}
    ensures var t := Release(R, s, h, status);
            && h in t.holds && t.holds[h].status == status && t.copies.Keys == s.copies.Keys && t.now == s.now
            && forall g | g in s.holds && g != h && s.holds[g].status != Waiting ::
                 g in t.holds && t.holds[g] == s.holds[g]
  {
    if s.holds[h].copy.Some? {
      var c := s.holds[h].copy.value;
      var freed := SetStatus(PutHold(s, h, s.holds[h].(status := status)), c, Available);
      OfferOthers(R, freed, c);
      hide AssignNext;
    }
  }

  lemma OfferOthers(R: Rules, s: State, c: Id)
    requires c in s.copies && s.copies[c].status == Available
    ensures var t := AssignNext(R, s, c);
            && t.copies.Keys == s.copies.Keys && t.now == s.now && t.holds.Keys == s.holds.Keys
            && forall g | g in s.holds && s.holds[g].status != Waiting :: t.holds[g] == s.holds[g]
  {
    hide NextHold, Give;
    var next := NextHold(s, s.copies[c].org, s.copies[c].work);
    if next.Some? {
      GiveRows(R, s, next.value, c);
    }
  }

  /** The pickup date of a hold counts from now by the policy for its copy. */
  predicate JustReadied(R: Rules, s: State, h: Id) {
    && h in s.holds && s.holds[h].copy.Some? && s.holds[h].copy.value in s.copies
    && var copy := s.copies[s.holds[h].copy.value];
       s.holds[h].expiresAt == s.now + R.pickupDays(s.holds[h].patron, copy.edition, copy.branch) * DAY
  }

  predicate NoPickupTime(R: Rules, s: State, h: Id) {
    && h in s.holds && s.holds[h].copy.Some? && s.holds[h].copy.value in s.copies
    && var copy := s.copies[s.holds[h].copy.value];
       R.pickupDays(s.holds[h].patron, copy.edition, copy.branch) == 0
  }

  /** Copies may have changed hands but not place. */
  predicate SamePlaces(s: State, t: State) {
    && t.now == s.now && t.copies.Keys == s.copies.Keys
    && forall c | c in s.copies ::
         t.copies[c].edition == s.copies[c].edition && t.copies[c].branch == s.copies[c].branch
  }

  /** From `s` to `t` holds only expire or become ready, those with a pickup date counted from now. */
  ghost predicate Swept(R: Rules, s: State, t: State) {
    && SamePlaces(s, t) && t.holds.Keys == s.holds.Keys
    && (forall g | g in s.holds && s.holds[g].status != Waiting ::
        t.holds[g] == s.holds[g] || t.holds[g].status == Expired)
    && (forall g | g in s.holds && s.holds[g].status == Waiting && t.holds[g].status == Ready :: JustReadied(R, t, g))
  }

  lemma SweptOn(R: Rules, s: State, t: State, u: State)
    requires Swept(R, s, t) && Swept(R, t, u)
    ensures Swept(R, s, u)
  {}

  lemma SweptNothing(R: Rules, s: State)
    ensures Swept(R, s, s)
  {}

  lemma StillMissed(R: Rules, s: State, t: State, h: Id)
    requires Swept(R, s, t) && PickupMissed(s, h) && h in t.holds && t.holds[h] == s.holds[h]
    ensures PickupMissed(t, h)
  {}

  lemma GiveSwept(R: Rules, s: State, h: Id, c: Id)
    requires c in s.copies && h in s.holds && s.holds[h].status == Waiting
    ensures Swept(R, s, Give(R, s, h, c))
  {}

  lemma OfferSwept(R: Rules, s: State, c: Id)
    requires c in s.copies
    ensures Swept(R, s, AssignNext(R, s, c))
  {
    var next := NextHold(s, s.copies[c].org, s.copies[c].work);
    hide NextHold, Give, Swept;
    if next.Some? {
      GiveSwept(R, s, next.value, c);
    } else {
      SweptNothing(R, s);
    }
  }

  lemma ReleaseSwept(R: Rules, s: State, h: Id)
    requires Reservable(s, h) && s.holds[h].status != Waiting
    ensures Swept(R, s, Release(R, s, h, Expired))
  {
    hide AssignNext;
    if s.holds[h].copy.Some? {
      var c := s.holds[h].copy.value;
      var freed := SetStatus(PutHold(s, h, s.holds[h].(status := Expired)), c, Available);
      assert Swept(R, s, freed);
      OfferSwept(R, freed, c);
      SweptOn(R, s, freed, AssignNext(R, freed, c));
    }
  }

  /** What a finished sweep leaves missed: exactly the holds it made ready itself under a pickup period of no days. */
  lemma MissedAfterSweep(R: Rules, s: State, t: State)
    requires Swept(R, s, t) && forall h | h in Missed(s) :: h in t.holds && t.holds[h].status == Expired
    ensures forall h :: h in Missed(t) <==>
      h in s.holds && s.holds[h].status == Waiting && t.holds[h].status == Ready && NoPickupTime(R, t, h)
  {
    forall h | h in Missed(t)
      ensures h in s.holds && s.holds[h].status == Waiting && t.holds[h].status == Ready && NoPickupTime(R, t, h)
    {
      if s.holds[h].status != Waiting {
        assert PickupMissed(s, h);
      } else {
        assert JustReadied(R, t, h);
      }
    }
    forall h | h in s.holds && s.holds[h].status == Waiting && t.holds[h].status == Ready && NoPickupTime(R, t, h)
      ensures h in Missed(t)
    {
      assert JustReadied(R, t, h);
    }
  }

  // ---------------------------------------------------------------- a sweep that leaves a pickup missed

  /** One organization with one branch, where everything is allowed and no pickup time is given. */
  const NO_DAYS := Rules(_ => 0, _ => Some(0), _ => true, _ => 0, (_, _) => 0, (_, _) => true, (_, _, _) => 0,
                         (_, _, _) => 0, (_, _, _) => 0, _ => 1, _ => 1, (_, _) => false, (_, _) => false, _ => false)

  const ACTIVE := Standing(true, false)

  /** The one copy in the given status, and the holds placed on it so far. */
  function OneCopy(status: CopyStatus, holds: map<Id, Hold>, nextHold: Id): State {
    State(map[0 := Copy(0, 0, 0, 0, 0, status, true, true, false, 0)], map[], holds, map[], 0, 1, 0, nextHold, 0)
  }

  function HoldBy(patron: Id, copy: Option<Id>, status: HoldStatus): Hold {
    Hold(0, 0, patron, 0, copy, None, 0, 0, 0, status, 0)
  }

  const TWO_HOLDS := [OpAddCopy(0, 0, 0, 0, 0, true, true, false), OpPlaceHold(1, 0, None, ACTIVE),
                      OpPlaceHold(2, 0, None, ACTIVE)]

  lemma Given(h: Id, holds: map<Id, Hold>, next: Id)
    requires h in holds && holds[h].branch == 0
    ensures Give(NO_DAYS, OneCopy(Available, holds, next), h, 0)
         == OneCopy(OnHold, holds[h := holds[h].(copy := Some(0), status := Ready, readyAt := 0, expiresAt := 0)], next)
  {}

  lemma FreeCopyOffered()
    ensures OfferedCopy(NO_DAYS, OneCopy(Available, map[], 0), 0, 0, 0) == Some(0)
    ensures Queue(OneCopy(Available, map[], 0), 0, 0) == {}
  {
    hide FirstOnShelf;
    assert Shelf(OneCopy(Available, map[], 0), 0, 0, Some(0)) == {0};
  }

  lemma FirstPlaced()
    ensures Step(NO_DAYS, OneCopy(Available, map[], 0), OpPlaceHold(1, 0, None, ACTIVE))
         == OneCopy(OnHold, map[0 := HoldBy(1, Some(0), Ready)], 1)
  {
    var s := OneCopy(Available, map[], 0);
    assert s.copies[0].work == 0;
    assert LiveHolds(s, 1, 0) == {};
    FreeCopyOffered();
    hide OfferedCopy, Give;
    Given(0, map[0 := HoldBy(1, None, Waiting)], 1);
  }

  lemma SecondPlaced()
    ensures Step(NO_DAYS, OneCopy(OnHold, map[0 := HoldBy(1, Some(0), Ready)], 1), OpPlaceHold(2, 0, None, ACTIVE))
         == OneCopy(OnHold, map[0 := HoldBy(1, Some(0), Ready), 1 := HoldBy(2, None, Waiting)], 2)
  {
    var s := OneCopy(OnHold, map[0 := HoldBy(1, Some(0), Ready)], 1);
    assert s.copies[0].work == 0;
    assert LiveHolds(s, 2, 0) == {};
    assert Shelf(s, 0, 0, None) == {};
    hide FirstOnShelf;
  }

  lemma SecondOffered()
    ensures AssignNext(NO_DAYS,
                       OneCopy(Available, map[0 := HoldBy(1, Some(0), Expired), 1 := HoldBy(2, None, Waiting)], 2), 0)
         == OneCopy(OnHold, map[0 := HoldBy(1, Some(0), Expired), 1 := HoldBy(2, Some(0), Ready)], 2)
  {
    var freed := OneCopy(Available, map[0 := HoldBy(1, Some(0), Expired), 1 := HoldBy(2, None, Waiting)], 2);
    assert Unserved(freed, 0, 0) == {1};
    hide NextHold, Give;
    Given(1, freed.holds, 2);
  }

  lemma FirstExpired()
    ensures Step(NO_DAYS, OneCopy(OnHold, map[0 := HoldBy(1, Some(0), Ready), 1 := HoldBy(2, None, Waiting)], 2),
                 OpExpireHold(0))
         == OneCopy(OnHold, map[0 := HoldBy(1, Some(0), Expired), 1 := HoldBy(2, Some(0), Ready)], 2)
  {
    hide AssignNext;
    var s := OneCopy(OnHold, map[0 := HoldBy(1, Some(0), Ready), 1 := HoldBy(2, None, Waiting)], 2);
    var freed := SetStatus(PutHold(s, 0, HoldBy(1, Some(0), Expired)), 0, Available);
    assert freed == OneCopy(Available, map[0 := HoldBy(1, Some(0), Expired), 1 := HoldBy(2, None, Waiting)], 2);
    SecondOffered();
  }

  /** With no pickup time the sweep that expires the first of two holds leaves the second one missed. */
  lemma SweepLeavesMissed()
    ensures var s := Run(NO_DAYS, EMPTY, TWO_HOLDS);
            Missed(s) == {0} && Missed(Step(NO_DAYS, s, OpExpireHold(0))) == {1}
  {
    hide Step;
    var a, b := TWO_HOLDS[..1], TWO_HOLDS[..2];
    RunNothing(NO_DAYS, EMPTY);
    RunSnoc(NO_DAYS, EMPTY, [], TWO_HOLDS[0]);
    RunSnoc(NO_DAYS, EMPTY, a, TWO_HOLDS[1]);
    RunSnoc(NO_DAYS, EMPTY, b, TWO_HOLDS[2]);
    assert [] + [TWO_HOLDS[0]] == a && a + [TWO_HOLDS[1]] == b && b + [TWO_HOLDS[2]] == TWO_HOLDS;
    hide Run;
    CopyAdded();
    FirstPlaced();
    SecondPlaced();
    FirstExpired();
  }

  lemma CopyAdded()
    ensures Step(NO_DAYS, EMPTY, TWO_HOLDS[0]) == OneCopy(Available, map[], 0)
  {}

  lemma DropOthers(R: Rules, s: State, h: Id, c: Id, giveUp: bool)
    requires h in s.holds && c in s.copies
    ensures var t := DropTransit(R, s, h, c, giveUp);
            && t.now == s.now && c in t.copies && t.copies == s.copies[c := t.copies[c]]
                 && t.copies[c].updatedAt == s.now
  {
    hide AssignNext;
    if !giveUp {
      var dropped := PutHold(s, h, s.holds[h].(attempts := s.holds[h].attempts + 1, copy := None));
      AssignNextEffect(R, SetStatus(dropped, c, Available), c);
    }
  }

  /** Timing out one transit leaves every other copy alone, and the copy itself is no longer stale. */
  lemma TimeOutOthers(R: Rules, s: State, c: Id, maxDays: nat, maxAttempts: nat)
    requires TransitStale(s, c, maxDays)
    ensures var t := Step(R, s, OpTimeOut(c, maxDays, maxAttempts));
            && t.now == s.now && c in t.copies && t.copies == s.copies[c := t.copies[c]]
                 && t.copies[c].updatedAt == s.now
  {
    hide AssignNext, DropTransit;
    var hold := WaitingFor(s, c);
    if hold.None? {
      AssignNextEffect(R, SetStatus(s, c, Available), c);
    } else {
      DropOthers(R, s, hold.value, c, s.holds[hold.value].attempts + 1 >= maxAttempts);
    }
  }

  lemma RunNothing(R: Rules, s: State)
    ensures Run(R, s, []) == s
  {}

  lemma RunSnoc(R: Rules, s: State, ops: seq<Op>, op: Op)
    ensures Run(R, s, ops + [op]) == Step(R, Run(R, s, ops), op)
  {
    assert (ops + [op])[..|ops + [op]| - 1] == ops;
  }

  lemma {:induction false} RunOn(R: Rules, s: State, ops: seq<Op>, more: seq<Op>)
    ensures Run(R, s, ops + more) == Run(R, Run(R, s, ops), more)
    decreases |more|
  {
    if more == [] {
      assert ops + more == ops;
    } else {
      var i := |more| - 1;
      RunOn(R, s, ops, more[..i]);
      assert (ops + more)[..|ops + more| - 1] == ops + more[..i];
    }
  }

  lemma ReconcileStep(R: Rules, s: State, c: Id)
    requires c in s.copies && s.copies[c].status == Available && s.copies[c].visible
    ensures Step(R, s, OpReconcile(c)) == AssignNext(R, s, c)
  {
    hide AssignNext;
  }

  /** A pooled copy finds nobody exactly when nobody waits for its title without a copy; then nothing changes. */
  lemma NothingServed(R: Rules, s: State, t: Title, c: Id)
    requires c in Pool(s, t)
    ensures NextHold(s, t.0, t.1).None? <==> Unserved(s, t.0, t.1) == {}
    ensures NextHold(s, t.0, t.1).None? ==> AssignNext(R, s, c) == s
  {
    if Unserved(s, t.0, t.1) == {} {
      NothingToOffer(R, s, t, c);
    } else {
      var h :| h in Unserved(s, t.0, t.1);
      assert h in HoldRanks(s, Unserved(s, t.0, t.1));
    }
  }

  /** What a batch does to each row it edits. */
  datatype Edit = Change(status: Option<CopyStatus>, visible: Option<bool>) | Withdrawal

  function Rewritten(edit: Edit, row: Copy, now: int): Copy {
    match edit
    case Change(status, visible) => Edited(row, status, visible, now)
    case Withdrawal => Withdrawn(row, now)
  }

  /** Exactly the rows in `touched` have been rewritten. */
  ghost predicate Replaced(before: map<Id, Copy>, after: map<Id, Copy>, touched: set<Id>, edit: Edit, now: int) {
    && after.Keys == before.Keys
    && forall c | c in after :: after[c] == if c in touched then Rewritten(edit, before[c], now) else before[c]
  }

  lemma ReplaceOne(before: map<Id, Copy>, after: map<Id, Copy>, touched: set<Id>, c: Id, edit: Edit, now: int)
    requires Replaced(before, after, touched, edit, now) && c in before && c !in touched
    ensures c in after && after[c] == before[c]
    ensures Replaced(before, after[c := Rewritten(edit, before[c], now)], touched + {c}, edit, now)
  {}

  /** Every status but the two a bulk edit may touch. */
  const UNEDITABLE := {Loaned, OnHold, InTransit, Ill, Lost, Retired}

  lemma Uneditable(status: CopyStatus)
    ensures status in UNEDITABLE <==> status !in {Available, Repair}
  {}

  const IN_USE := {Loaned, OnHold, InTransit, Ill}

  /** A batch is split into the rows still to do, those replaced and those skipped for their status. */
  ghost predicate Split(before: map<Id, Copy>, all: set<Id>, todo: set<Id>, touched: set<Id>, skipped: set<Id>,
                        fixed: set<CopyStatus>) {
    && all <= before.Keys && all == todo + touched + skipped && |all| == |todo| + |touched| + |skipped|
    && todo !! touched && todo !! skipped && touched !! skipped
    && (forall c | c in touched :: before[c].status !in fixed) && (forall c | c in skipped :: before[c].status in fixed)
  }

  lemma BatchStarts(before: map<Id, Copy>, all: set<Id>, fixed: set<CopyStatus>, edit: Edit, now: int)
    requires all <= before.Keys
    ensures Split(before, all, all, {}, {}, fixed) && Replaced(before, before, {}, edit, now)
  {}

  lemma SplitOne(before: map<Id, Copy>, all: set<Id>, todo: set<Id>, touched: set<Id>, skipped: set<Id>,
                 fixed: set<CopyStatus>, c: Id)
    requires Split(before, all, todo, touched, skipped, fixed) && c in todo
    ensures c in before && c !in touched && |touched + {c}| == |touched| + 1
    ensures if before[c].status in fixed then Split(before, all, todo - {c}, touched, skipped + {c}, fixed)
            else Split(before, all, todo - {c}, touched + {c}, skipped, fixed)
  {}

  /** What has become of the rows once a batch is done. */
  lemma SplitDone(before: map<Id, Copy>, after: map<Id, Copy>, all: set<Id>, touched: set<Id>, skipped: set<Id>,
                  fixed: set<CopyStatus>, edit: Edit, now: int)
    requires Split(before, all, {}, touched, skipped, fixed) && Replaced(before, after, touched, edit, now)
    ensures skipped == set c | c in all && before[c].status in fixed
    ensures |touched| == |all| - |skipped| && after.Keys == before.Keys
    ensures forall c | c in after ::
        after[c] == if c in all && c !in skipped then Rewritten(edit, before[c], now) else before[c]
  {}

  class Library {
    const rules: Rules
    var copies: map<Id, Copy>
    var loans: map<Id, Loan>
    var holds: map<Id, Hold>
    var ills: map<Id, IllRequest>
    var now: int
    var nextCopy: Id
    var nextLoan: Id
    var nextHold: Id
    var nextIll: Id

    function Tables(): State
      reads this
    {
      State(copies, loans, holds, ills, now, nextCopy, nextLoan, nextHold, nextIll)
    }

    constructor (rules: Rules)
      ensures this.rules == rules && Tables() == EMPTY
    {
      this.rules := rules;
      copies, loans, holds, ills := map[], map[], map[], map[];
      now, nextCopy, nextLoan, nextHold, nextIll := 0, 0, 0, 0, 0;
    }

    method Tick(seconds: nat)
      modifies this`now
      ensures Follows(rules, OpTick(seconds), old(Tables()), Tables(), Ok)
    {
      now := now + seconds;
    }

    method AddCopy(org: Id, work: Id, edition: Id, branch: Id, barcode: Id, visible: bool, published: bool,
                   floating: bool)
      modifies this
      ensures Follows(rules, OpAddCopy(org, work, edition, branch, barcode, visible, published, floating),
                      old(Tables()), Tables(), Ok)
    {
      copies := copies[nextCopy := Copy(org, work, edition, branch, barcode, Available, visible, published, floating,
                                        now)];
      nextCopy := nextCopy + 1;
    }

    method SaveStatus(c: Id, status: CopyStatus)
      requires c in copies
      modifies this`copies
      ensures Tables() == SetStatus(old(Tables()), c, status)
    {
      copies := copies[c := copies[c].(status := status, updatedAt := now)];
    }

    // ---------------------------------------------------------------- reserving copies

    method MarkHoldReady(h: Id, c: Id)
      requires h in holds && c in copies
      modifies this`copies, this`holds
      ensures Tables() == MarkReady(rules, old(Tables()), h, c)
    {
      SaveStatus(c, OnHold);
      var hold := holds[h].(copy := Some(c), status := Ready, readyAt := now);
      holds := holds[h := hold.(expiresAt := now
                                + rules.pickupDays(hold.patron, copies[c].edition, copies[c].branch) * DAY)];
    }

    /** Reserve `c` at the pickup branch, or put it in transit there and leave the hold waiting. */
    method SendToHold(h: Id, c: Id)
      requires h in holds && c in copies
      modifies this`copies, this`holds
      ensures Tables() == Give(rules, old(Tables()), h, c)
    {
      if copies[c].branch != holds[h].branch {
        SaveStatus(c, InTransit);
        holds := holds[h := holds[h].(copy := Some(c))];
      } else {
        MarkHoldReady(h, c);
      }
    }

    method AssignCopyToNextHold(c: Id) returns (served: Option<Id>)
      requires c in copies
      modifies this`copies, this`holds
      ensures Tables() == AssignNext(rules, old(Tables()), c)
      ensures served == NextHold(old(Tables()), old(copies)[c].org, old(copies)[c].work)
    {
      served := NextHold(Tables(), copies[c].org, copies[c].work);
      if served.Some? {
        SendToHold(served.value, c);
      }
    }

    // ---------------------------------------------------------------- loans

    method LendCopy(patron: Id, c: Id) returns (l: Id)
      requires c in copies
      modifies this`copies, this`loans, this`nextLoan
      ensures l == old(nextLoan) && Tables() == CheckOut(rules, old(Tables()), patron, c)
    {
      l := nextLoan;
      SaveStatus(c, Loaned);
      var due := now + rules.loanDays(Some(patron), copies[c].edition, copies[c].branch) * DAY;
      loans := loans[l := Loan(rules.orgOf(patron), c, Some(patron), now, due, None, Active, 0)];
      nextLoan := l + 1;
    }

    method BorrowWork(patron: Id, work: Id, at: Option<Id>, override: bool, actor: bool, standing: Standing,
                      fallback: bool)
      returns (r: Reply)
      modifies this
      ensures Follows(rules, OpBorrow(patron, work, at, override, actor, standing, fallback), old(Tables()), Tables(),
                      r)
    {
      hide HasTitle, OpenLoans, Queue, ReadyHold, WalkInCopy;
      var org := rules.orgOf(patron);
      var branch := if at.Some? then at else rules.homeOf(patron);
      if !standing.active { return Denied(PatronInactive); }
      if override && !actor { return Denied(NoActor); }
      if !override && standing.finesTooHigh { return Denied(FinesTooHigh); }
      if |OpenLoans(Tables(), patron, org)| >= rules.maxLoans(patron) { return Denied(LoanLimit); }
      if HasTitle(Tables(), patron, org, work) && !override { return Denied(DuplicateLoan); }
      var ready := ReadyHold(Tables(), patron, org, work);
      var found: Option<Id>;
      if ready.Some? {
        found := holds[ready.value].copy;
        if found.None? || found.value !in copies || copies[found.value].status != OnHold {
          return Denied(HeldCopyGone);
        }
      } else {
        if Queue(Tables(), org, work) != {} && !override { return Denied(QueueExists); }
        found := WalkInCopy(rules, Tables(), org, work, branch, fallback);
        if found.None? { return Denied(NoCopy); }
      }
      hide CheckOut;
      var l := LendCopy(patron, found.value);
      if ready.Some? {
        holds := holds[ready.value := holds[ready.value].(status := Fulfilled, loan := Some(l))];
      }
      return Ok;
    }

    method ReturnLoan(l: Id, settle: Option<Id>) returns (r: Reply)
      modifies this
      ensures Follows(rules, OpReturn(l, settle), old(Tables()), Tables(), r)
    {
      hide AssignNext;
      if l !in loans || loans[l].copy !in copies { return Denied(NoSuchRow); }
      if !Open(loans[l]) { return Denied(Refusal.LoanClosed); }
      var c := loans[l].copy;
      loans := loans[l := loans[l].(status := Returned, returnedAt := Some(now))];
      if loans[l].patron.Some? && !rules.retains(loans[l].patron.value) {
        loans := loans[l := loans[l].(patron := None)];
      }
      if settle.Some? && copies[c].floating && rules.branchOrg(settle.value) == copies[c].org
         && copies[c].branch != settle.value {
        copies := copies[c := copies[c].(branch := settle.value)];
      }
      SaveStatus(c, Available);
      assert loans == old(loans)[l := ReturnedRow(rules, old(loans)[l], now)];
      assert copies == old(copies)[c := SettledRow(rules, old(copies)[c], settle, now)];
      assert Tables() == TakenBack(rules, old(Tables()), l, settle);
      var _ := AssignCopyToNextHold(c);
      return Ok;
    }

    method RenewLoan(l: Id, standing: Standing) returns (r: Reply)
      modifies this`loans
      ensures Follows(rules, OpRenew(l, standing), old(Tables()), Tables(), r)
    {
      if l !in loans || loans[l].copy !in copies { return Denied(NoSuchRow); }
      if !Open(loans[l]) { return Denied(Refusal.LoanClosed); }
      if loans[l].patron.Some? && !standing.active { return Denied(PatronInactive); }
      var loan, copy := loans[l], copies[loans[l].copy];
      if loan.renewals >= rules.maxRenewals(loan.patron, copy.edition, copy.branch) { return Denied(RenewalLimit); }
      if Queue(Tables(), loan.org, copy.work) != {} { return Denied(PatronsWaiting); }
      var base := Max(loan.dueAt, now);
      loans := loans[l := loan.(dueAt := base + rules.loanDays(loan.patron, copy.edition, copy.branch) * DAY)];
      loans := loans[l := loans[l].(status := Active, renewals := loan.renewals + 1)];
      return Ok;
    }

    /** Marks every active loan past its due date; the count says how many. */
    method FlagOverdueLoans() returns (flagged: nat)
      modifies this`loans
      ensures Follows(rules, OpFlagOverdue, old(Tables()), Tables(), Ok)
      ensures flagged == |set l | l in old(loans) && old(loans)[l].status == Active && old(loans)[l].dueAt < now|
    {
      var due := set l | l in loans && loans[l].status == Active && loans[l].dueAt < now;
      flagged := |due|;
      loans := map l | l in loans :: if l in due then loans[l].(status := Overdue) else loans[l];
    }

    method MarkLoanLost(l: Id) returns (r: Reply)
      modifies this
      ensures Follows(rules, OpLost(l), old(Tables()), Tables(), r)
    {
      if l !in loans || loans[l].copy !in copies { return Denied(NoSuchRow); }
      if !Open(loans[l]) { return Denied(Refusal.LoanClosed); }
      if loans[l].patron.None? { return Denied(NoPatron); }
      loans := loans[l := loans[l].(status := LoanLost)];
      SaveStatus(loans[l].copy, Lost);
      return Ok;
    }

    method MarkClaimsReturned(l: Id) returns (r: Reply)
      modifies this
      ensures Follows(rules, OpClaimsReturned(l), old(Tables()), Tables(), r)
    {
      if l !in loans || loans[l].copy !in copies { return Denied(NoSuchRow); }
      if !Open(loans[l]) { return Denied(Refusal.LoanClosed); }
      loans := loans[l := loans[l].(status := ClaimsReturned)];
      if copies[loans[l].copy].status == Loaned {
        SaveStatus(loans[l].copy, Lost);
      }
      return Ok;
    }

    method ReturnDamaged(l: Id) returns (r: Reply)
      modifies this
      ensures Follows(rules, OpDamaged(l), old(Tables()), Tables(), r)
    {
      if l !in loans || loans[l].copy !in copies { return Denied(NoSuchRow); }
      if !Open(loans[l]) { return Denied(Refusal.LoanClosed); }
      if loans[l].patron.None? { return Denied(NoPatron); }
      loans := loans[l := loans[l].(status := Returned, returnedAt := Some(now))];
      if !rules.retains(loans[l].patron.value) {
        loans := loans[l := loans[l].(patron := None)];
      }
      SaveStatus(loans[l].copy, Repair);
      return Ok;
    }

    // ---------------------------------------------------------------- holds

    method PlaceHold(patron: Id, work: Id, at: Option<Id>, standing: Standing) returns (r: Reply)
      modifies this
      ensures Follows(rules, OpPlaceHold(patron, work, at, standing), old(Tables()), Tables(), r)
    {
      hide Queue, OfferedCopy, HasHoldableCopy, AlreadyHolds, LiveHolds, Give;
      var org := rules.orgOf(patron);
      var branch := if at.Some? then at else rules.homeOf(patron);
      if !standing.active { return Denied(PatronInactive); }
      if branch.None? { return Denied(NoPickupBranch); }
      if !rules.holdable(patron, work) { return Denied(NotHoldable); }
      if !HasHoldableCopy(Tables(), org, work) { return Denied(NoHoldableCopy); }
      if |LiveHolds(Tables(), patron, org)| >= rules.maxHolds(patron) { return Denied(HoldLimit); }
      if AlreadyHolds(Tables(), patron, org, work) { return Denied(DuplicateHold); }
      var alone := Queue(Tables(), org, work) == {};
      var offered := OfferedCopy(rules, Tables(), org, work, branch.value);
      var h := nextHold;
      holds := holds[h := Hold(org, work, patron, branch.value, None, None, now, 0, 0, Waiting, 0)];
      nextHold := h + 1;
      if alone && offered.Some? {
        SendToHold(h, offered.value);
      }
      return Ok;
    }

    /** The hold leaves the queue and its copy, if any, goes to the next patron. */
    method ReleaseHold(h: Id, status: HoldStatus)
      requires Reservable(Tables(), h)
      modifies this`copies, this`holds
      ensures Tables() == Release(rules, old(Tables()), h, status)
    {
      hide AssignNext;
      holds := holds[h := holds[h].(status := status)];
      if holds[h].copy.Some? {
        SaveStatus(holds[h].copy.value, Available);
        var _ := AssignCopyToNextHold(holds[h].copy.value);
      }
    }

    method CancelHold(h: Id) returns (r: Reply)
      modifies this`copies, this`holds
      ensures Follows(rules, OpCancelHold(h), old(Tables()), Tables(), r)
    {
      if !Reservable(Tables(), h) { return Denied(NoSuchRow); }
      if !Live(holds[h]) { return Denied(HoldClosed); }
      ReleaseHold(h, Cancelled);
      return Ok;
    }

    // ---------------------------------------------------------------- transit

    method ReceiveCopyInTransit(c: Id) returns (r: Reply)
      modifies this`copies, this`holds
      ensures Follows(rules, OpReceive(c), old(Tables()), Tables(), r)
    {
      if c !in copies { return Denied(NoSuchRow); }
      if copies[c].status != InTransit { return Denied(NotInTransit); }
      var hold := WaitingFor(Tables(), c);
      if hold.None? {
        SaveStatus(c, Available);
        return Ok;
      }
      copies := copies[c := copies[c].(branch := holds[hold.value].branch)];
      MarkHoldReady(hold.value, c);
      return Ok;
    }

    method StaffCheckin(c: Id) returns (r: Reply)
      modifies this
      ensures Follows(rules, OpCheckIn(c), old(Tables()), Tables(), r)
    {
      if c !in copies { return Denied(NoSuchRow); }
      if copies[c].status == InTransit {
        r := ReceiveCopyInTransit(c);
        return;
      }
      var open := OpenLoansOn(Tables(), c);
      var latest := First(map l | l in open :: -loans[l].borrowedAt);
      if latest.None? { return Denied(NothingToCheckIn); }
      r := ReturnLoan(latest.value, None);
    }

    // ---------------------------------------------------------------- copies

    method RetireCopy(c: Id) returns (r: Reply)
      modifies this`copies
      ensures Follows(rules, OpRetire(c), old(Tables()), Tables(), r)
    {
      if c !in copies { return Denied(NoSuchRow); }
      if OpenLoansOn(Tables(), c) != {} { return Denied(OnLoanNow); }
      if copies[c].status == OnHold || copies[c].status == InTransit { return Denied(Reserved); }
      copies := copies[c := copies[c].(status := Retired, visible := false, updatedAt := now)];
      return Ok;
    }

    method MoveCopy(c: Id, to: Id) returns (r: Reply)
      modifies this`copies
      ensures Follows(rules, OpMove(c, to), old(Tables()), Tables(), r)
    {
      if c !in copies { return Denied(NoSuchRow); }
      if copies[c].status in {Loaned, OnHold, InTransit} { return Denied(InFlightCopy); }
      if copies[c].branch != to {
        copies := copies[c := copies[c].(branch := to, updatedAt := now)];
      }
      return Ok;
    }

    // ---------------------------------------------------------------- inter-library loan

    method RequestIll(patron: Id, work: Id, consortium: Id, standing: Standing) returns (r: Reply)
      modifies this
      ensures Follows(rules, OpRequestIll(patron, work, consortium, standing), old(Tables()), Tables(), r)
    {
      hide AlreadyRequested, HeldLocally, IssueIll;
      var org := rules.orgOf(patron);
      if !standing.active { return Denied(PatronInactive); }
      if !rules.allowsIll(consortium) { return Denied(IllForbidden); }
      if !rules.borrows(consortium, org) { return Denied(NotBorrower); }
      if AlreadyRequested(Tables(), patron, work) { return Denied(DuplicateIll); }
      if HeldLocally(Tables(), org, work) { return Denied(AvailableLocally); }
      var shelf := LenderShelf(rules, Tables(), consortium, work, org);
      assert shelf <= copies.Keys;
      hide LenderShelf;
      var lender := First(map c | c in shelf :: copies[c].org);
      Issue(org, patron, work, lender);
      return Ok;
    }

    /** Reserves the lender's copy, if there is one, and records the request. */
    method Issue(org: Id, patron: Id, work: Id, lender: Option<Id>)
      requires lender.Some? ==> lender.value in copies
      modifies this`copies, this`ills, this`nextIll
      ensures Tables() == IssueIll(old(Tables()), org, patron, work, lender)
    {
      if lender.Some? {
        SaveStatus(lender.value, Ill);
      }
      ills := ills[nextIll := IllRequest(org, Some(patron), work, lender,
                                         if lender.None? then Unfilled else Requested)];
      nextIll := nextIll + 1;
    }

    method ShipIll(i: Id) returns (r: Reply)
      modifies this`ills
      ensures Follows(rules, OpShipIll(i), old(Tables()), Tables(), r)
    {
      if i !in ills { return Denied(NoSuchRow); }
      if ills[i].status != Requested { return Denied(WrongIllStatus); }
      ills := ills[i := ills[i].(status := Shipped)];
      return Ok;
    }

    method ReceiveIll(i: Id) returns (r: Reply)
      modifies this`ills
      ensures Follows(rules, OpReceiveIll(i), old(Tables()), Tables(), r)
    {
      if i !in ills { return Denied(NoSuchRow); }
      if ills[i].status != Shipped { return Denied(WrongIllStatus); }
      ills := ills[i := ills[i].(status := OnLoan)];
      return Ok;
    }

    method ReturnIll(i: Id) returns (r: Reply)
      modifies this`ills
      ensures Follows(rules, OpReturnIll(i), old(Tables()), Tables(), r)
    {
      if i !in ills { return Denied(NoSuchRow); }
      if ills[i].status != OnLoan { return Denied(WrongIllStatus); }
      ills := ills[i := ills[i].(status := Returning)];
      return Ok;
    }

    method FinishIll(i: Id, status: IllStatus)
      requires i in ills
      modifies this`ills, this`copies
      ensures Tables() == CloseIll(rules, old(Tables()), i, status)
    {
      if ills[i].copy.Some? && ills[i].copy.value in copies && copies[ills[i].copy.value].status == Ill {
        SaveStatus(ills[i].copy.value, Available);
      }
      var ill := ills[i].(status := status);
      if ill.patron.Some? && !rules.retains(ill.patron.value) {
        ill := ill.(patron := None);
      }
      ills := ills[i := ill];
    }

    method CheckInIll(i: Id) returns (r: Reply)
      modifies this`ills, this`copies
      ensures Follows(rules, OpCheckInIll(i), old(Tables()), Tables(), r)
    {
      if i !in ills { return Denied(NoSuchRow); }
      if ills[i].status != Returning { return Denied(WrongIllStatus); }
      FinishIll(i, Completed);
      return Ok;
    }

    method CancelIll(i: Id) returns (r: Reply)
      modifies this`ills, this`copies
      ensures Follows(rules, OpCancelIll(i), old(Tables()), Tables(), r)
    {
      if i !in ills { return Denied(NoSuchRow); }
      if ills[i].status !in {Unfilled, Requested, Shipped} { return Denied(WrongIllStatus); }
      FinishIll(i, IllCancelled);
      return Ok;
    }

    // ---------------------------------------------------------------- sweeps

    method ExpireOne(h: Id)
      requires PickupMissed(Tables(), h)
      modifies this`copies, this`holds
      ensures Follows(rules, OpExpireHold(h), old(Tables()), Tables(), Ok)
      ensures Tables() == Step(rules, old(Tables()), OpExpireHold(h))
      ensures h in holds && holds[h].status == Expired && Swept(rules, old(Tables()), Tables())
      ensures forall g | g in old(holds) && g != h && old(holds)[g].status != Waiting ::
          g in holds && holds[g] == old(holds)[g]
    {
      hide Swept;
      ReleaseOthers(rules, Tables(), h, Expired);
      ReleaseSwept(rules, Tables(), h);
      hide Release;
      ReleaseHold(h, Expired);
    }

    /** Expires exactly the reserved holds whose pickup date has passed, and passes their copies on. */
    method ExpireReadyHolds() returns (expired: nat, ghost ops: seq<Op>)
      modifies this`copies, this`holds
      ensures Tables() == Run(rules, old(Tables()), ops)
      ensures expired == |ops| == |Missed(old(Tables()))|
      ensures forall op | op in ops :: op.OpExpireHold? && op.hold in Missed(old(Tables()))
      ensures forall h | h in Missed(old(Tables())) :: h in holds && holds[h].status == Expired
      ensures forall h :: h in Missed(Tables()) <==>
        && h in old(holds) && old(holds)[h].status == Waiting
        && h in holds && holds[h].status == Ready && NoPickupTime(rules, Tables(), h)
    {
      hide Swept;
      SweptNothing(rules, Tables());
      expired, ops := 0, [];
      var due := Missed(Tables());
      ghost var all := due;
      while due != {}
        invariant due <= all && Swept(rules, old(Tables()), Tables())
        invariant forall h | h in due ::
            h in old(holds) && h in holds && holds[h] == old(holds)[h] && PickupMissed(old(Tables()), h)
        invariant Tables() == Run(rules, old(Tables()), ops)
        invariant expired == |ops| && expired + |due| == |all|
        invariant forall op | op in ops :: op.OpExpireHold? && op.hold in all
        invariant forall h | h in all && h !in due :: h in holds && holds[h].status == Expired
        decreases |due|
      {
        hide Run, Step, Follows;
        var h := EarliestOf(Tables(), due);
        RunSnoc(rules, old(Tables()), ops, OpExpireHold(h));
        ghost var before := Tables();
        StillMissed(rules, old(Tables()), before, h);
        ExpireOne(h);
        SweptOn(rules, old(Tables()), before, Tables());
        ops := ops + [OpExpireHold(h)];
        due := due - {h};
        expired := expired + 1;
      }
      MissedAfterSweep(rules, old(Tables()), Tables());
    }

    method TimeOutOne(c: Id, maxDays: nat, maxAttempts: nat)
      requires TransitStale(Tables(), c, maxDays)
      modifies this`copies, this`holds
      ensures Follows(rules, OpTimeOut(c, maxDays, maxAttempts), old(Tables()), Tables(), Ok)
    {
      hide DropTransit, WaitingFor, AssignNext;
      var hold := WaitingFor(Tables(), c);
      if hold.Some? {
        DropHold(hold.value, c, maxAttempts);
      } else {
        SaveStatus(c, Available);
        var _ := AssignCopyToNextHold(c);
      }
    }

    /** The hold loses its copy and counts the failure; from the last attempt on the copy is pulled for repair. */
    method DropHold(h: Id, c: Id, maxAttempts: nat)
      requires h in holds && c in copies
      modifies this`copies, this`holds
      ensures Tables() == DropTransit(rules, old(Tables()), h, c, old(holds)[h].attempts + 1 >= maxAttempts)
    {
      hide AssignNext;
      holds := holds[h := holds[h].(attempts := holds[h].attempts + 1)];
      var giveUp := holds[h].attempts >= maxAttempts;
      holds := holds[h := holds[h].(copy := None)];
      assert holds == old(holds)[h := old(holds)[h].(attempts := old(holds)[h].attempts + 1, copy := None)];
      if giveUp {
        SaveStatus(c, Repair);
      } else {
        SaveStatus(c, Available);
        var _ := AssignCopyToNextHold(c);
      }
    }

    /** Times out every copy that has been in transit too long, each one once. */
    method ExpireStaleTransits(maxDays: nat, maxAttempts: nat) returns (recovered: nat, ghost ops: seq<Op>)
      modifies this`copies, this`holds
      ensures Tables() == Run(rules, old(Tables()), ops)
      ensures recovered == |ops| == |set c | c in old(copies) && TransitStale(old(Tables()), c, maxDays)|
      ensures forall op | op in ops :: op.OpTimeOut? && op.maxDays == maxDays && op.maxAttempts == maxAttempts
      ensures forall c | c in copies :: !TransitStale(Tables(), c, maxDays)
    {
      recovered, ops := 0, [];
      var due := set c | c in copies && TransitStale(Tables(), c, maxDays);
      ghost var all := due;
      while due != {}
        invariant due == set c | c in copies && TransitStale(Tables(), c, maxDays)
        invariant Tables() == Run(rules, old(Tables()), ops)
        invariant recovered == |ops| && recovered + |due| == |all|
        invariant forall op | op in ops :: op.OpTimeOut? && op.maxDays == maxDays && op.maxAttempts == maxAttempts
        decreases |due|
      {
        var c :| c in due;
        ghost var before := Tables();
        TimeOutOne(c, maxDays, maxAttempts);
        TimeOutOthers(rules, before, c, maxDays, maxAttempts);
        ops := ops + [OpTimeOut(c, maxDays, maxAttempts)];
        assert ops[..|ops| - 1] == ops[..recovered];
        due := due - {c};
        recovered := recovered + 1;
      }
      forall c | c in copies ensures !TransitStale(Tables(), c, maxDays) {
        assert c !in due;
      }
    }

    /** Matches shelf copies with waiting holds, title by title, up to a cap. */
    method ReconcileHolds(maxAssignments: nat) returns (matched: nat, ghost ops: seq<Op>)
      modifies this`copies, this`holds
      ensures Tables() == Run(rules, old(Tables()), ops) && forall op | op in ops :: op.OpReconcile?
      ensures matched == Min(maxAssignments, Total(old(Tables()), Wanted(old(Tables()))))
      ensures matched < maxAssignments ==> Settled(Tables())
    {
      hide Matching, Progress, Settled, Total, Wanted, Run, Apply, Pool, Unserved, Quota;
      ghost var start := Tables();
      var titles := Wanted(Tables());
      ghost var all, done := titles, {};
      matched, ops := 0, [];
      NothingDone(start);
      RunNothing(rules, start);
      while titles != {} && matched < maxAssignments
        invariant done !! titles && done + titles == all
        invariant Tables() == Run(rules, start, ops) && forall op | op in ops :: op.OpReconcile?
        invariant matched <= maxAssignments && matched <= Total(start, all)
        invariant matched < maxAssignments ==> Progress(start, Tables(), done, matched)
        decreases |titles|
      {
        var t :| t in titles;
        StartTitle(start, Tables(), done, t, matched);
        var k, more := ReconcileTitle(t, maxAssignments - matched, start, done);
        RunOn(rules, start, ops, more);
        CapReached(start, Tables(), done, t, k, all);
        if matched + k < maxAssignments {
          TitleDone(start, Tables(), done, t, k);
        }
        ops := ops + more;
        matched := matched + k;
        titles, done := titles - {t}, done + {t};
      }
      if matched < maxAssignments {
        assert done == all;
        AllSettled(start, Tables(), matched);
      }
    }

    /** The inner loop: candidates of one title are offered until copies, holds or the cap run out. */
    method ReconcileTitle(t: Title, cap: nat, ghost start: State, ghost done: set<Title>)
      returns (matched: nat, ghost ops: seq<Op>)
      requires t !in done && Matching(start, Tables(), done, t, 0)
      modifies this`copies, this`holds
      ensures Tables() == Run(rules, old(Tables()), ops) && forall op | op in ops :: op.OpReconcile?
      ensures matched <= cap && Matching(start, Tables(), done, t, matched)
      ensures matched < cap ==> Pool(Tables(), t) == {} || Unserved(Tables(), t.0, t.1) == {}
    {
      hide Matching, Run, Apply, AssignNext, Unserved;
      matched, ops := 0, [];
      RunNothing(rules, Tables());
      while matched < cap
        invariant Tables() == Run(rules, old(Tables()), ops) && forall op | op in ops :: op.OpReconcile?
        invariant matched <= cap && Matching(start, Tables(), done, t, matched)
      {
        var pool := Pool(Tables(), t);
        var candidate := FirstOnShelf(rules, Tables(), pool);
        if candidate.None? {
          return;
        }
        var c := candidate.value;
        ghost var before := Tables();
        var served := AssignCopyToNextHold(c);
        NothingServed(rules, before, t, c);
        if served.None? {
          return;
        }
        MatchOne(rules, start, before, done, t, matched, c);
        ReconcileStep(rules, before, c);
        RunSnoc(rules, old(Tables()), ops, OpReconcile(c));
        ops := ops + [OpReconcile(c)];
        matched := matched + 1;
      }
    }

    // ---------------------------------------------------------------- bulk edits

    method BulkEditOne(c: Id, status: Option<CopyStatus>, visible: Option<bool>)
      requires c in copies && copies[c].status in {Available, Repair}
          && (status.Some? ==> status.value in {Available, Repair})
      modifies this`copies
      ensures Follows(rules, OpBulkEdit(c, status, visible), old(Tables()), Tables(), Ok)
      ensures Tables() == Step(rules, old(Tables()), OpBulkEdit(c, status, visible))
      ensures copies == old(copies)[c := Rewritten(Change(status, visible), old(copies)[c], now)]
    {
      var row := copies[c];
      if status.Some? { row := row.(status := status.value); }
      if visible.Some? { row := row.(visible := visible.value); }
      if status.Some? || visible.Some? { row := row.(updatedAt := now); }
      copies := copies[c := row];
    }

    /** Edits the named copies that are on the shelf or in repair and leaves every other row as it was. */
    method BulkUpdateCopies(org: Id, barcodes: set<Id>, status: Option<CopyStatus>, visible: Option<bool>)
      returns (r: Reply, updated: nat, skipped: set<Id>, missing: set<Id>, ghost ops: seq<Op>)
      modifies this`copies
      ensures r == if status.Some? && status.value !in {Available, Repair} then Denied(NotMutable) else Ok
      ensures r.Denied? ==> Tables() == old(Tables())
      ensures Tables() == Run(rules, old(Tables()), ops) && forall op | op in ops :: op.OpBulkEdit?
      ensures r.Ok? ==> skipped == set c | c in Named(old(Tables()), org, barcodes)
                                           && old(copies)[c].status in UNEDITABLE
      ensures r.Ok? ==> updated == if status.None? && visible.None? then 0
                                   else |Named(old(Tables()), org, barcodes)| - |skipped|
      ensures r.Ok? ==> missing == set b | b in barcodes && Named(old(Tables()), org, {b}) == {}
      ensures copies.Keys == old(copies).Keys
      ensures r.Ok? ==> forall c | c in copies ::
                          copies[c] == if c in Named(old(Tables()), org, barcodes) && c !in skipped
                                       then Rewritten(Change(status, visible), old(copies)[c], now) else old(copies)[c]
    {
      updated, skipped, missing, ops := 0, {}, {}, [];
      if status.Some? && status.value !in {Available, Repair} {
        RunNothing(rules, Tables());
        return Denied(NotMutable), 0, {}, {}, [];
      }
      hide Run, Rewritten, Split, Replaced;
      var all := Named(Tables(), org, barcodes);
      assert all <= copies.Keys;
      var found := set c | c in all :: copies[c].barcode;
      missing := barcodes - found;
      NotFound(Tables(), org, barcodes, found);
      hide Named;
      ghost var touched;
      updated, skipped, touched, ops := EditEach(all, status, visible);
      SplitDone(old(copies), copies, all, touched, skipped, UNEDITABLE, Change(status, visible), now);
      r := Ok;
    }

    /** The loop of a bulk edit. */
    method EditEach(all: set<Id>, status: Option<CopyStatus>, visible: Option<bool>)
      returns (updated: nat, skipped: set<Id>, ghost touched: set<Id>, ghost ops: seq<Op>)
      requires all <= copies.Keys && (status.Some? ==> status.value in {Available, Repair})
      modifies this`copies
      ensures Split(old(copies), all, {}, touched, skipped, UNEDITABLE)
      ensures Replaced(old(copies), copies, touched, Change(status, visible), now)
      ensures Tables() == Run(rules, old(Tables()), ops) && forall op | op in ops :: op.OpBulkEdit?
      ensures updated == if status.None? && visible.None? then 0 else |touched|
    {
      hide Run, Step, Follows, Rewritten, Split, Replaced;
      RunNothing(rules, Tables());
      updated, skipped, touched, ops := 0, {}, {}, [];
      var todo := all;
      ghost var before, edit := copies, Change(status, visible);
      BatchStarts(before, all, UNEDITABLE, edit, now);
      while todo != {}
        invariant Split(before, all, todo, touched, skipped, UNEDITABLE) && Replaced(before, copies, touched, edit, now)
        invariant Tables() == Run(rules, old(Tables()), ops) && forall op | op in ops :: op.OpBulkEdit?
        invariant updated == if status.None? && visible.None? then 0 else |touched|
        decreases |todo|
      {
        var c :| c in todo;
        SplitOne(before, all, todo, touched, skipped, UNEDITABLE, c);
        ReplaceOne(before, copies, touched, c, edit, now);
        Uneditable(copies[c].status);
        todo := todo - {c};
        if copies[c].status !in {Available, Repair} {
          skipped := skipped + {c};
        } else {
          BulkEditOne(c, status, visible);
          RunSnoc(rules, old(Tables()), ops, OpBulkEdit(c, status, visible));
          ops := ops + [OpBulkEdit(c, status, visible)];
          touched := touched + {c};
          if status.Some? || visible.Some? { updated := updated + 1; }
        }
      }
    }

    /** Withdraws the named copies that nobody holds or has on loan. */
    method WeedCopies(org: Id, barcodes: set<Id>) returns (retired: nat, skipped: set<Id>, ghost ops: seq<Op>)
      modifies this`copies
      ensures Tables() == Run(rules, old(Tables()), ops) && forall op | op in ops :: op.OpWeed?
      ensures skipped == set c | c in Named(old(Tables()), org, barcodes)
                                 && old(copies)[c].status in {Loaned, OnHold, InTransit, Ill}
      ensures retired == |Named(old(Tables()), org, barcodes)| - |skipped|
      ensures copies.Keys == old(copies).Keys
      ensures forall c | c in copies ::
                copies[c] == if c in Named(old(Tables()), org, barcodes) && c !in skipped
                             then Rewritten(Withdrawal, old(copies)[c], now) else old(copies)[c]
    {
      hide Run, Rewritten, Split, Replaced;
      var all := Named(Tables(), org, barcodes);
      assert all <= copies.Keys;
      hide Named;
      ghost var touched;
      retired, skipped, touched, ops := WeedEach(all);
      SplitDone(old(copies), copies, all, touched, skipped, IN_USE, Withdrawal, now);
    }

    /** The loop of a weeding. */
    method WeedEach(all: set<Id>) returns (retired: nat, skipped: set<Id>, ghost touched: set<Id>, ghost ops: seq<Op>)
      requires all <= copies.Keys
      modifies this`copies
      ensures Split(old(copies), all, {}, touched, skipped, IN_USE)
      ensures Replaced(old(copies), copies, touched, Withdrawal, now) && retired == |touched|
      ensures Tables() == Run(rules, old(Tables()), ops) && forall op | op in ops :: op.OpWeed?
    {
      hide Run, Step, Follows, Rewritten, Split, Replaced;
      RunNothing(rules, Tables());
      retired, skipped, touched, ops := 0, {}, {}, [];
      var todo := all;
      ghost var before, edit := copies, Withdrawal;
      BatchStarts(before, all, IN_USE, edit, now);
      while todo != {}
        invariant Split(before, all, todo, touched, skipped, IN_USE) && Replaced(before, copies, touched, edit, now)
        invariant Tables() == Run(rules, old(Tables()), ops) && forall op | op in ops :: op.OpWeed?
        invariant retired == |touched|
        decreases |todo|
      {
        var c :| c in todo;
        SplitOne(before, all, todo, touched, skipped, IN_USE, c);
        ReplaceOne(before, copies, touched, c, edit, now);
        todo := todo - {c};
        if copies[c].status in IN_USE {
          skipped := skipped + {c};
        } else {
          WeedOne(c);
          RunSnoc(rules, old(Tables()), ops, OpWeed(c));
          ops := ops + [OpWeed(c)];
          touched := touched + {c};
          retired := retired + 1;
        }
      }
    }

    method WeedOne(c: Id)
      requires c in copies && copies[c].status !in {Loaned, OnHold, InTransit, Ill}
      modifies this`copies
      ensures Follows(rules, OpWeed(c), old(Tables()), Tables(), Ok)
          && Tables() == Step(rules, old(Tables()), OpWeed(c))
      ensures copies == old(copies)[c := Rewritten(Withdrawal, old(copies)[c], now)]
    {
      copies := copies[c := copies[c].(status := Retired, visible := false, updatedAt := now)];
    }
  }
}
