/** One outbox event worked on by any number of workers, in the small steps between which a worker can die: claim,
    look up a channel's delivery row, send, save the row, add webhook rows, finish or settle a failure.

    `sends`, `lost`, `failures` and `crashes` record what happened; `lost` lists sends whose row was never saved. */
module Outbox {
  import opened Common

  const MAX_ATTEMPTS := 5

  datatype Status = Pending | Processing | Processed | Failed

  datatype RowStatus = PendingRow | SentRow | FailedRow

  datatype Stage = AtChannel(i: nat) | Sending(i: nat) | Saving(i: nat, sent: bool) | AtHook(j: nat) | Failing

  datatype Worker = Worker(attempts: nat, stage: Stage)

  /** The channels and webhook endpoints the event goes to. */
  datatype Plan = Plan(channels: seq<Id>, endpoints: seq<Id>)

  datatype Event = Event(status: Status, attempts: nat, rows: map<Id, RowStatus>, hooks: multiset<Id>,
                         workers: map<Id, Worker>,
                         sends: seq<Id>, lost: seq<Id>, failures: nat, crashes: nat)

  const EMITTED := Event(Pending, 0, map[], multiset{}, map[], [], [], 0, 0)

  datatype Action =
    | Claim(w: Id)
    | Look(w: Id)
    | Send(w: Id, ok: bool)
    | Save(w: Id)
    | Hook(w: Id)
    | Raise(w: Id)
    | Finish(w: Id)
    | Settle(w: Id)
    | Crash(w: Id)
    | Reclaim

  function Move(s: Event, w: Id, stage: Stage): Event
    requires w in s.workers
  {
    s.(workers := s.workers[w := s.workers[w].(stage := stage)])
  }

  /** The channel whose message has gone out without its row being saved yet. */
  function Unsaved(p: Plan, stage: Stage): seq<Id> {
    if stage.Saving? && stage.sent && stage.i < |p.channels| then [p.channels[stage.i]] else []
  }

  predicate Enabled(p: Plan, s: Event, a: Action) {
    match a
    case Claim(w) => s.status == Pending && w !in s.workers
    case Look(w) => w in s.workers && s.workers[w].stage.AtChannel?
    case Send(w, _) => w in s.workers && s.workers[w].stage.Sending? && s.workers[w].stage.i < |p.channels|
    case Save(w) => w in s.workers && s.workers[w].stage.Saving? && s.workers[w].stage.i < |p.channels|
    case Hook(w) => w in s.workers && s.workers[w].stage.AtHook? && s.workers[w].stage.j < |p.endpoints|
    case Raise(w) => w in s.workers && !s.workers[w].stage.Failing?
    case Finish(w) => w in s.workers && s.workers[w].stage == AtHook(|p.endpoints|)
    case Settle(w) => w in s.workers && s.workers[w].stage.Failing?
    case Crash(w) => w in s.workers
    case Reclaim => s.status == Processing
  }

  function Act(p: Plan, s: Event, a: Action): Event
    requires Enabled(p, s, a)
  {
    match a
    case Claim(w) =>
      s.(status := Processing, attempts := s.attempts + 1,
         workers := s.workers[w := Worker(s.attempts + 1, AtChannel(0))])
    case Look(w) =>
      var i := s.workers[w].stage.i;
      if i >= |p.channels| then Move(s, w, AtHook(0))
      else
        var c := p.channels[i];
        if c in s.rows && s.rows[c] == SentRow then Move(s, w, AtChannel(i + 1))
        else Move(s, w, Sending(i)).(rows := if c in s.rows then s.rows else s.rows[c := PendingRow])
    case Send(w, ok) =>
      var i := s.workers[w].stage.i;
      Move(s, w, Saving(i, ok)).(sends := if ok then s.sends + [p.channels[i]] else s.sends)
    case Save(w) =>
      var stage := s.workers[w].stage;
      Move(s, w, if stage.sent then AtChannel(stage.i + 1) else Failing)
        .(rows := s.rows[p.channels[stage.i] := if stage.sent then SentRow else FailedRow])
    case Hook(w) =>
      var j := s.workers[w].stage.j;
      var e := p.endpoints[j];
      Move(s, w, AtHook(j + 1)).(hooks := if e in s.hooks then s.hooks else s.hooks + multiset{e})
    case Raise(w) => Move(s, w, Failing).(lost := s.lost + Unsaved(p, s.workers[w].stage))
    case Finish(w) => s.(status := Processed, workers := s.workers - {w})
    case Settle(w) =>
      s.(status := if s.workers[w].attempts >= MAX_ATTEMPTS then Failed else Pending, workers := s.workers - {w},
         failures := s.failures + 1)
    case Crash(w) => s.(workers := s.workers - {w}, lost := s.lost + Unsaved(p, s.workers[w].stage),
                        crashes := s.crashes + 1)
    case Reclaim => s.(status := Pending)
  }

  function Step(p: Plan, s: Event, a: Action): Event { if Enabled(p, s, a) then Act(p, s, a) else s }

  function Run(p: Plan, s: Event, actions: seq<Action>): Event {
    if actions == [] then s else Step(p, Run(p, s, actions[..|actions| - 1]), actions[|actions| - 1])
  }

  /** Reclaiming waits until the worker that holds the event is gone. */
  predicate Patient(s: Event, a: Action) { a.Reclaim? ==> s.workers == map[] }

  predicate AllPatient(p: Plan, s: Event, actions: seq<Action>) {
    actions == []
    || (AllPatient(p, s, actions[..|actions| - 1])
        && Patient(Run(p, s, actions[..|actions| - 1]), actions[|actions| - 1]))
  }

  // ---------------------------------------------------------------- what patient runs keep

  predicate AllSent(s: Event, channels: seq<Id>) { forall c | c in channels :: c in s.rows && s.rows[c] == SentRow }

  predicate AllHooked(s: Event, endpoints: seq<Id>) { forall e | e in endpoints :: e in s.hooks }

  /** A worker has done everything before the point it is at. */
  predicate WorkerKept(p: Plan, s: Event, worker: Worker) {
    && worker.attempts == s.attempts
    && match worker.stage
       case AtChannel(i) => i <= |p.channels| && AllSent(s, p.channels[..i])
       case Sending(i) => i < |p.channels| && AllSent(s, p.channels[..i]) && p.channels[i] in s.rows
            && s.rows[p.channels[i]] != SentRow
       case Saving(i, _) => i < |p.channels| && AllSent(s, p.channels[..i]) && p.channels[i] in s.rows
            && s.rows[p.channels[i]] != SentRow
       case AtHook(j) => j <= |p.endpoints| && AllSent(s, p.channels) && AllHooked(s, p.endpoints[..j])
       case Failing => true
  }

  ghost predicate Exclusive(p: Plan, s: Event) {
    && (forall v, w | v in s.workers && w in s.workers :: v == w)
    && (s.workers != map[] ==> s.status == Processing)
    && (forall w | w in s.workers :: WorkerKept(p, s, s.workers[w]))
    && (s.status == Processed ==> AllSent(s, p.channels) && AllHooked(s, p.endpoints))
    && (forall e :: s.hooks[e] <= 1)
  }

  lemma StepExclusive(p: Plan, s: Event, a: Action)
    requires Exclusive(p, s) && Patient(s, a)
    ensures Exclusive(p, Step(p, s, a))
  {
    if Enabled(p, s, a) && !a.Claim? && !a.Reclaim? {
      assert WorkerKept(p, s, s.workers[a.w]);
      var stage := s.workers[a.w].stage;
      if stage.AtChannel? && stage.i < |p.channels| {
        assert p.channels[..stage.i + 1] == p.channels[..stage.i] + [p.channels[stage.i]];
      } else if stage.AtChannel? {
        assert p.channels[..stage.i] == p.channels && p.endpoints[..0] == [];
      } else if stage.Saving? {
        assert p.channels[..stage.i + 1] == p.channels[..stage.i] + [p.channels[stage.i]];
      } else if stage.AtHook? {
        if stage.j < |p.endpoints| {
          assert p.endpoints[..stage.j + 1] == p.endpoints[..stage.j] + [p.endpoints[stage.j]];
        } else {
          assert p.endpoints[..stage.j] == p.endpoints;
        }
      }
    }
  }

  // ---------------------------------------------------------------- what was sent

  function IfSent(s: Event, c: Id): nat { if c in s.rows && s.rows[c] == SentRow then 1 else 0 }

  function Count(xs: seq<Id>, c: Id): nat { multiset(xs)[c] }

  /** Each send is one of: the one its row records, one lost before its row was saved, or one about to be saved. */
  predicate SendsOf(p: Plan, s: Event, c: Id) {
    && (s.workers == map[] ==> Count(s.sends, c) == IfSent(s, c) + Count(s.lost, c))
    && (forall w | w in s.workers ::
        Count(s.sends, c) == IfSent(s, c) + Count(s.lost, c) + Count(Unsaved(p, s.workers[w].stage), c))
  }

  ghost predicate SendsKept(p: Plan, s: Event) { forall c :: SendsOf(p, s, c) }

  lemma CountAppend(xs: seq<Id>, ys: seq<Id>, c: Id)
    ensures Count(xs + ys, c) == Count(xs, c) + Count(ys, c)
  {
    assert multiset(xs + ys) == multiset(xs) + multiset(ys);
  }

  lemma CountFew(x: Id, c: Id)
    ensures Count([], c) == 0 && Count([x], c) == if x == c then 1 else 0
  {}

  /** What one worker's step does to the sends of a channel: only a send adds one, and only saving or losing it
      settles it. */
  lemma WorkerSends(p: Plan, s: Event, a: Action, c: Id)
    requires Enabled(p, s, a) && !a.Claim? && !a.Reclaim? && WorkerKept(p, s, s.workers[a.w])
    ensures var t := Step(p, s, a);
            var left := if a.w in t.workers then Unsaved(p, t.workers[a.w].stage) else [];
            Count(t.sends, c) - IfSent(t, c) - Count(t.lost, c) - Count(left, c)
            == Count(s.sends, c) - IfSent(s, c) - Count(s.lost, c) - Count(Unsaved(p, s.workers[a.w].stage), c)
  {
    hide Count, AllSent, AllHooked;
    var stage := s.workers[a.w].stage;
    CountFew(0, c);
    CountAppend(s.lost, Unsaved(p, stage), c);
    if (stage.Sending? || stage.Saving?) && stage.i < |p.channels| {
      CountFew(p.channels[stage.i], c);
      CountAppend(s.sends, [p.channels[stage.i]], c);
    }
  }

  lemma StepSends(p: Plan, s: Event, a: Action)
    requires Exclusive(p, s) && SendsKept(p, s) && Patient(s, a)
    ensures SendsKept(p, Step(p, s, a))
  {
    hide Count, Unsaved, WorkerKept, IfSent;
    var t := Step(p, s, a);
    forall c ensures SendsOf(p, t, c) {
      assert SendsOf(p, s, c);
      if !Enabled(p, s, a) || a.Reclaim? {
        assert Count(t.sends, c) == Count(s.sends, c) && IfSent(t, c) == IfSent(s, c)
               && Count(t.lost, c) == Count(s.lost, c) by {
          SameRowsSame(s, t, c);
        }
      } else if a.Claim? {
        NoneUnsaved(p, c);
        SameRowsSame(s, t, c);
      } else {
        CountFew(0, c);
        WorkerSends(p, s, a, c);
        assert forall v | v in t.workers :: v == a.w;
      }
    }
  }

  lemma SameRowsSame(s: Event, t: Event, c: Id)
    requires s.rows == t.rows && s.sends == t.sends && s.lost == t.lost
    ensures Count(t.sends, c) == Count(s.sends, c) && IfSent(t, c) == IfSent(s, c)
        && Count(t.lost, c) == Count(s.lost, c)
  {}

  lemma NoneUnsaved(p: Plan, c: Id)
    ensures Count(Unsaved(p, AtChannel(0)), c) == 0
  {}

  // ---------------------------------------------------------------- counting attempts

  /** Every attempt has failed, crashed, is under way or succeeded; without crashes the fifth failure and only it is
      final. */
  predicate AttemptsKept(s: Event) {
    && s.attempts == s.failures + s.crashes + (if s.workers == map[] then 0 else 1)
         + (if s.status == Processed then 1 else 0)
    && (s.status == Failed ==> s.attempts >= MAX_ATTEMPTS)
    && (s.crashes == 0 ==> s.failures <= MAX_ATTEMPTS && (s.status == Failed <==> s.failures == MAX_ATTEMPTS))
    && (s.crashes == 0 && s.workers == map[] ==> s.status != Processing)
  }

  lemma StepAttempts(p: Plan, s: Event, a: Action)
    requires Exclusive(p, s) && AttemptsKept(s) && Patient(s, a)
    ensures AttemptsKept(Step(p, s, a))
  {
    var t := Step(p, s, a);
    if Enabled(p, s, a) && !a.Claim? && !a.Reclaim? {
      assert WorkerKept(p, s, s.workers[a.w]);
      assert s.workers - {a.w} == map[];
      assert a.w in s.workers;
    }
  }

  lemma {:induction false} RunKept(p: Plan, actions: seq<Action>)
    requires AllPatient(p, EMITTED, actions)
    ensures var s := Run(p, EMITTED, actions); Exclusive(p, s) && SendsKept(p, s) && AttemptsKept(s)
  {
    if actions != [] {
      hide Exclusive, SendsKept, AttemptsKept, Step;
      var before, a := Run(p, EMITTED, actions[..|actions| - 1]), actions[|actions| - 1];
      RunKept(p, actions[..|actions| - 1]);
      StepExclusive(p, before, a);
      StepSends(p, before, a);
      StepAttempts(p, before, a);
    }
  }

  // ---------------------------------------------------------------- the guarantees

  /** Once processed or failed, an event stays so, whatever happens next. */
  lemma FinalStays(p: Plan, actions: seq<Action>, more: seq<Action>)
    requires AllPatient(p, EMITTED, actions) && Run(p, EMITTED, actions).status in {Processed, Failed}
    ensures Run(p, Run(p, EMITTED, actions), more) == Run(p, EMITTED, actions)
  {
    RunKept(p, actions);
    IdleStays(p, Run(p, EMITTED, actions), more);
  }

  lemma AtMostOneUnlost(p: Plan, s: Event, c: Id)
    requires Exclusive(p, s) && SendsOf(p, s, c)
    ensures Count(s.sends, c) <= 1 + Count(s.lost, c)
    ensures s.status == Processed ==> Count(s.sends, c) == IfSent(s, c) + Count(s.lost, c)
  {
    hide Count, AllSent, AllHooked;
    if s.workers != map[] {
      var w :| w in s.workers;
      assert WorkerKept(p, s, s.workers[w]);
      CountFew(if s.workers[w].stage.Saving? then p.channels[s.workers[w].stage.i] else 0, c);
    }
  }

  /** Over all retries a channel gets one message beyond those whose row was never saved: never more, and in a
      processed event exactly that; webhook rows are never doubled and a processed event has all of them. */
  lemma DeliveredOnce(p: Plan, actions: seq<Action>, c: Id)
    requires AllPatient(p, EMITTED, actions)
    ensures var s := Run(p, EMITTED, actions);
            && Count(s.sends, c) <= 1 + Count(s.lost, c)
            && (s.status == Processed && c in p.channels ==> Count(s.sends, c) == 1 + Count(s.lost, c))
            && s.hooks[c] <= 1 && (s.status == Processed && c in p.endpoints ==> s.hooks[c] == 1)
  {
    hide Run, Count, SendsOf;
    RunKept(p, actions);
    var s := Run(p, EMITTED, actions);
    assert SendsOf(p, s, c);
    AtMostOneUnlost(p, s, c);
  }

  /** Without crashes an event is given up exactly when its fifth attempt fails, and every attempt before has failed
      too. */
  lemma GivenUpAtFifthFailure(p: Plan, actions: seq<Action>)
    requires AllPatient(p, EMITTED, actions) && Run(p, EMITTED, actions).crashes == 0
    ensures var s := Run(p, EMITTED, actions);
            && s.failures <= 5 && (s.status == Failed <==> s.failures == 5) && (s.status == Failed ==> s.attempts == 5)
  {
    RunKept(p, actions);
  }

  /** Crashes use up attempts without ever giving the event up themselves: one can crash any number of times. */
  lemma {:induction false} CrashesNeverGiveUp(p: Plan, n: nat)
    ensures var s := Run(p, EMITTED, CrashLoop(n));
        s.status == Pending && s.attempts == n == s.crashes && s.workers == map[]
  {
    if n > 0 {
      CrashesNeverGiveUp(p, n - 1);
      RunMore(p, EMITTED, CrashLoop(n - 1), [Claim(0), Crash(0), Reclaim]);
      var s := Run(p, EMITTED, CrashLoop(n - 1));
      Run3(p, s, Claim(0), Crash(0), Reclaim);
      var t := Step(p, Step(p, s, Claim(0)), Crash(0));
      assert t.workers == map[] && t.status == Processing;
    }
  }

  function CrashLoop(n: nat): seq<Action> { if n == 0 then [] else CrashLoop(n - 1) + [Claim(0), Crash(0), Reclaim] }

  lemma Run3(p: Plan, s: Event, x: Action, y: Action, z: Action)
    ensures Run(p, s, [x, y, z]) == Step(p, Step(p, Step(p, s, x), y), z)
  {
    hide Step;
    assert [x, y, z][..2] == [x, y] && [x, y][..1] == [x] && [x][..0] == [];
    assert Run(p, s, [x]) == Step(p, Run(p, s, []), x);
  }

  lemma {:induction false} RunMore(p: Plan, s: Event, actions: seq<Action>, more: seq<Action>)
    ensures Run(p, s, actions + more) == Run(p, Run(p, s, actions), more)
    decreases |more|
  {
    hide Step;
    if more == [] {
      assert actions + more == actions;
    } else {
      RunMore(p, s, actions, more[..|more| - 1]);
      assert (actions + more)[..|actions + more| - 1] == actions + more[..|more| - 1];
    }
  }

  // ---------------------------------------------------------------- without patience

  lemma {:induction false} IdleStays(p: Plan, s: Event, more: seq<Action>)
    requires s.status in {Processed, Failed} && s.workers == map[]
    ensures Run(p, s, more) == s
  {
    if more != [] {
      IdleStays(p, s, more[..|more| - 1]);
    }
  }

  lemma Run2(p: Plan, s: Event, x: Action, y: Action)
    ensures Run(p, s, [x, y]) == Step(p, Step(p, s, x), y)
  {
    hide Step;
    assert [x, y][..1] == [x] && [x][..0] == [];
    assert Run(p, s, [x]) == Step(p, Run(p, s, []), x);
  }

  /** A worker that is still at work can take an event out of PROCESSED: it only has to fail. */
  lemma LateFailure(p: Plan, s: Event, w: Id)
    requires w in s.workers
    ensures Run(p, s, [Raise(w), Settle(w)]).status in {Pending, Failed}
  {
    Run2(p, s, Raise(w), Settle(w));
  }

  /** In any state at all, reachable with patience or not, PROCESSED is final exactly when no worker is left. */
  lemma ProcessedIsFinalExactly(p: Plan, s: Event)
    requires s.status == Processed
    ensures (forall more :: Run(p, s, more).status == Processed) <==> s.workers == map[]
  {
    hide Run;
    if s.workers == map[] {
      forall more ensures Run(p, s, more).status == Processed {
        IdleStays(p, s, more);
      }
    } else {
      var w :| w in s.workers;
      LateFailure(p, s, w);
    }
  }

  /** The steps in which a worker sends to `n` channels that all accept: where a row already says sent the last two do
      nothing. */
  function Deliveries(w: Id, n: nat): seq<Action> {
    if n == 0 then [] else Deliveries(w, n - 1) + [Look(w), Send(w, true), Save(w)]
  }

  function Postings(w: Id, n: nat): seq<Action> { if n == 0 then [] else Postings(w, n - 1) + [Hook(w)] }

  lemma RunNone(p: Plan, s: Event)
    ensures Run(p, s, []) == s
  {}

  lemma RunOne(p: Plan, s: Event, a: Action)
    ensures Run(p, s, [a]) == Step(p, s, a)
  {
    hide Step;
    assert [a][..0] == [];
  }

  /** Worker `w` has got to `stage` and nothing else happened to the status or to other workers. */
  predicate Advanced(s: Event, t: Event, w: Id, stage: Stage)
    requires w in s.workers
  {
    t.status == s.status && t.workers == s.workers[w := Worker(s.workers[w].attempts, stage)]
  }

  lemma PostOne(p: Plan, s: Event, t: Event, w: Id, j: nat)
    requires w in s.workers && Advanced(s, t, w, AtHook(j)) && j < |p.endpoints|
    ensures Advanced(s, Step(p, t, Hook(w)), w, AtHook(j + 1))
  {}

  lemma DeliverOne(p: Plan, s: Event, t: Event, w: Id, i: nat)
    requires w in s.workers && Advanced(s, t, w, AtChannel(i)) && i < |p.channels|
    ensures Advanced(s, Step(p, Step(p, Step(p, t, Look(w)), Send(w, true)), Save(w)), w, AtChannel(i + 1))
  {}

  lemma {:induction false} DeliveriesDone(p: Plan, s: Event, w: Id, i: nat, n: nat)
    requires w in s.workers && s.workers[w].stage == AtChannel(i) && i + n <= |p.channels|
    ensures Advanced(s, Run(p, s, Deliveries(w, n)), w, AtChannel(i + n))
  {
    hide Step, Run;
    if n == 0 {
      RunNone(p, s);
    } else {
      hide Advanced;
      DeliveriesDone(p, s, w, i, n - 1);
      RunMore(p, s, Deliveries(w, n - 1), [Look(w), Send(w, true), Save(w)]);
      var t := Run(p, s, Deliveries(w, n - 1));
      Run3(p, t, Look(w), Send(w, true), Save(w));
      DeliverOne(p, s, t, w, i + n - 1);
    }
  }

  lemma {:induction false} PostingsDone(p: Plan, s: Event, w: Id, j: nat, n: nat)
    requires w in s.workers && s.workers[w].stage == AtHook(j) && j + n <= |p.endpoints|
    ensures Advanced(s, Run(p, s, Postings(w, n)), w, AtHook(j + n))
  {
    hide Step, Run;
    if n == 0 {
      RunNone(p, s);
    } else {
      hide Advanced;
      PostingsDone(p, s, w, j, n - 1);
      RunMore(p, s, Postings(w, n - 1), [Hook(w)]);
      var t := Run(p, s, Postings(w, n - 1));
      RunOne(p, t, Hook(w));
      PostOne(p, s, t, w, j + n - 1);
    }
  }

  /** The rest of the work from endpoint `j` on, and then from channel `i` on, of a worker that meets no failure. */
  function Enqueueing(p: Plan, w: Id, j: nat): seq<Action> { Postings(w, Max(0, |p.endpoints| - j)) + [Finish(w)] }

  function Completion(p: Plan, w: Id, i: nat): seq<Action> {
    Deliveries(w, Max(0, |p.channels| - i)) + [Look(w)] + Enqueueing(p, w, 0)
  }

  lemma EnqueueingDone(p: Plan, s: Event, w: Id, j: nat)
    requires w in s.workers && s.workers[w].stage == AtHook(j) && j <= |p.endpoints|
    ensures var t := Run(p, s, Enqueueing(p, w, j)); t.status == Processed && t.workers == s.workers - {w}
  {
    hide Run, Postings;
    var y := Postings(w, |p.endpoints| - j);
    PostingsDone(p, s, w, j, |p.endpoints| - j);
    RunMore(p, s, y, [Finish(w)]);
    RunOne(p, Run(p, s, y), Finish(w));
  }

  lemma CompletionDone(p: Plan, s: Event, w: Id, i: nat)
    requires w in s.workers && s.workers[w].stage == AtChannel(i)
    ensures var t := Run(p, s, Completion(p, w, i)); t.status == Processed && t.workers == s.workers - {w}
  {
    hide Run, Deliveries, Enqueueing;
    var n := Max(0, |p.channels| - i);
    var x := Deliveries(w, n);
    if n == 0 {
      RunNone(p, s);
      assert x == [] by { NoDeliveries(w); }
    } else {
      DeliveriesDone(p, s, w, i, n);
    }
    RunMore(p, s, x, [Look(w)]);
    RunOne(p, Run(p, s, x), Look(w));
    EnqueueingDone(p, Run(p, s, x + [Look(w)]), w, 0);
    RunMore(p, s, x + [Look(w)], Enqueueing(p, w, 0));
  }

  lemma NoDeliveries(w: Id)
    ensures Deliveries(w, 0) == []
  {}

  // ---------------------------------------------------------------- when FAILED is final

  /** The worker has neither failed nor had a send refused, and stands where the plan has something to do. */
  predicate CanFinish(p: Plan, stage: Stage) {
    match stage
    case AtChannel(_) => true
    case Sending(i) => i < |p.channels|
    case Saving(i, sent) => i < |p.channels| && sent
    case AtHook(j) => j <= |p.endpoints|
    case Failing => false
  }

  /** A worker that can finish can take the event to PROCESSED from any status. */
  lemma Finishing(p: Plan, s: Event, w: Id) returns (more: seq<Action>)
    requires w in s.workers && CanFinish(p, s.workers[w].stage)
    ensures Run(p, s, more).status == Processed
  {
    hide Run, Completion, Enqueueing;
    match s.workers[w].stage
    case AtChannel(i) =>
      more := Completion(p, w, i);
      CompletionDone(p, s, w, i);
    case Sending(i) =>
      more := [Send(w, true), Save(w)] + Completion(p, w, i + 1);
      Run2(p, s, Send(w, true), Save(w));
      RunMore(p, s, [Send(w, true), Save(w)], Completion(p, w, i + 1));
      CompletionDone(p, Run(p, s, [Send(w, true), Save(w)]), w, i + 1);
    case Saving(i, _) =>
      more := [Save(w)] + Completion(p, w, i + 1);
      RunOne(p, s, Save(w));
      RunMore(p, s, [Save(w)], Completion(p, w, i + 1));
      CompletionDone(p, Run(p, s, [Save(w)]), w, i + 1);
    case AtHook(j) =>
      more := Enqueueing(p, w, j);
      EnqueueingDone(p, s, w, j);
  }

  /** Whatever is left at work is bound to fail, and has used up its attempts. */
  predicate Doomed(p: Plan, s: Event) {
    forall w | w in s.workers :: s.workers[w].attempts >= MAX_ATTEMPTS && !CanFinish(p, s.workers[w].stage)
  }

  lemma {:induction false} DoomedStays(p: Plan, s: Event, more: seq<Action>)
    requires s.status == Failed && Doomed(p, s)
    ensures Run(p, s, more).status == Failed && Doomed(p, Run(p, s, more))
  {
    if more != [] {
      DoomedStays(p, s, more[..|more| - 1]);
      DoomedStep(p, Run(p, s, more[..|more| - 1]), more[|more| - 1]);
      hide Step, Doomed;
    }
  }

  lemma DoomedStep(p: Plan, s: Event, a: Action)
    requires s.status == Failed && Doomed(p, s)
    ensures Step(p, s, a).status == Failed && Doomed(p, Step(p, s, a))
  {}

  /** In any state FAILED is final exactly when every worker left is bound to fail with its attempts used up; in
      particular when none is left. */
  lemma FailedIsFinalExactly(p: Plan, s: Event)
    requires s.status == Failed
    ensures (forall more :: Run(p, s, more).status == Failed) <==> Doomed(p, s)
  {
    hide Run, CanFinish;
    if Doomed(p, s) {
      forall more ensures Run(p, s, more).status == Failed {
        DoomedStays(p, s, more);
      }
    } else {
      var w :| w in s.workers && (s.workers[w].attempts < MAX_ATTEMPTS || CanFinish(p, s.workers[w].stage));
      if CanFinish(p, s.workers[w].stage) {
        var more := Finishing(p, s, w);
      } else {
        RetryAgain(p, s, w);
      }
    }
  }

  lemma RetryAgain(p: Plan, s: Event, w: Id)
    requires w in s.workers && s.workers[w].attempts < MAX_ATTEMPTS
    ensures Run(p, s, [Raise(w), Settle(w)]).status == Pending
  {
    Run2(p, s, Raise(w), Settle(w));
  }

  /** Patience is needed: whatever the plan, reclaiming an event from a worker that is merely slow reaches a processed
      event with that worker still at work, which can take it out of PROCESSED again. */
  lemma EarlyReclaimUndoes(p: Plan)
    ensures var s := Run(p, EMITTED, [Claim(1), Reclaim, Claim(2)] + Completion(p, 2, 0));
            && s.status == Processed && s.workers == map[1 := Worker(1, AtChannel(0))]
            && exists more :: Run(p, s, more).status != Processed
  {
    hide Run, Completion;
    var start := [Claim(1), Reclaim, Claim(2)];
    Run3(p, EMITTED, Claim(1), Reclaim, Claim(2));
    var s := Run(p, EMITTED, start);
    assert s.workers == map[1 := Worker(1, AtChannel(0)), 2 := Worker(2, AtChannel(0))];
    CompletionDone(p, s, 2, 0);
    RunMore(p, EMITTED, start, Completion(p, 2, 0));
    ProcessedIsFinalExactly(p, Run(p, EMITTED, start + Completion(p, 2, 0)));
  }
}
