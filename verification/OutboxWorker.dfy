/** One worker draining one event as the code does it, without dying on the way: each method is a run of the
    small steps of `Outbox`, so everything proved of those runs holds of the rows it leaves behind. */
module OutboxWorker {
  import opened Common
  import opened Outbox

  lemma RunSnoc(p: Plan, s: Event, actions: seq<Action>, a: Action)
    ensures Run(p, s, actions + [a]) == Step(p, Run(p, s, actions), a)
  {
    assert (actions + [a])[..|actions|] == actions;
  }

  lemma LookDone(p: Plan, s: Event, w: Id)
    requires w in s.workers && s.workers[w].stage == AtChannel(|p.channels|)
    ensures Step(p, s, Look(w)) == Move(s, w, AtHook(0))
  {}

  lemma LookSkips(p: Plan, s: Event, w: Id, i: nat)
    requires w in s.workers && s.workers[w].stage == AtChannel(i) && i < |p.channels| && IsSent(s.rows, p.channels[i])
    ensures Step(p, s, Look(w)) == Move(s, w, AtChannel(i + 1))
  {}

  lemma LookReadies(p: Plan, s: Event, w: Id, i: nat)
    requires w in s.workers && s.workers[w].stage == AtChannel(i) && i < |p.channels| && !IsSent(s.rows, p.channels[i])
    ensures var c := p.channels[i];
            Step(p, s, Look(w))
            == Move(s, w, Sending(i)).(rows := if c in s.rows then s.rows else s.rows[c := PendingRow])
  {}

  lemma SendDone(p: Plan, s: Event, w: Id, i: nat, ok: bool)
    requires w in s.workers && s.workers[w].stage == Sending(i) && i < |p.channels|
    ensures Step(p, s, Send(w, ok))
         == Move(s, w, Saving(i, ok)).(sends := if ok then s.sends + [p.channels[i]] else s.sends)
  {}

  lemma SaveDone(p: Plan, s: Event, w: Id, i: nat, ok: bool)
    requires w in s.workers && s.workers[w].stage == Saving(i, ok) && i < |p.channels|
    ensures Step(p, s, Save(w))
         == Move(s, w, if ok then AtChannel(i + 1) else Failing)
              .(rows := s.rows[p.channels[i] := if ok then SentRow else FailedRow])
  {}

  lemma HookDone(p: Plan, s: Event, w: Id, j: nat)
    requires w in s.workers && s.workers[w].stage == AtHook(j) && j < |p.endpoints|
    ensures var e := p.endpoints[j];
            Step(p, s, Hook(w))
            == Move(s, w, AtHook(j + 1)).(hooks := if e in s.hooks then s.hooks else s.hooks + multiset{e})
  {}

  lemma ClaimDone(p: Plan, s: Event, w: Id)
    requires s.status == Pending && w !in s.workers
    ensures var t := Step(p, s, Outbox.Claim(w));
            w in t.workers && t.workers[w] == Worker(s.attempts + 1, AtChannel(0))
            && t.attempts == s.attempts + 1
            && t.status == Processing && t.rows == s.rows
  {}

  lemma SettleDone(p: Plan, s: Event, w: Id)
    requires w in s.workers && s.workers[w].stage.Failing?
    ensures Step(p, s, Settle(w)) == s.(status := if s.workers[w].attempts >= MAX_ATTEMPTS then Failed else Pending,
                                        workers := s.workers - {w}, failures := s.failures + 1)
  {}

  lemma FinishDone(p: Plan, s: Event, w: Id)
    requires w in s.workers && s.workers[w].stage == AtHook(|p.endpoints|)
    ensures Step(p, s, Finish(w)) == s.(status := Processed, workers := s.workers - {w})
  {}

  predicate IsSent(rows: map<Id, RowStatus>, c: Id) { c in rows && rows[c] == SentRow }

  /** Every channel's row says sent already, or its send would go through, or an earlier entry is the same channel. */
  predicate AllGoThrough(channels: seq<Id>, rows: map<Id, RowStatus>, ok: seq<bool>)
    requires |ok| == |channels|
  {
    forall i | 0 <= i < |channels| :: ok[i] || IsSent(rows, channels[i]) || channels[i] in channels[..i]
  }

  /** The event's rows; the ghost fields are the history and what each worker is doing. */
  class OutboxRow {
    const plan: Plan
    var status: Status
    var attempts: nat
    var rows: map<Id, RowStatus>
    var hooks: multiset<Id>
    ghost var workers: map<Id, Worker>
    ghost var sends: seq<Id>
    ghost var lost: seq<Id>
    ghost var failures: nat
    ghost var crashes: nat

    ghost function Rows(): Event
      reads this
    {
      Event(status, attempts, rows, hooks, workers, sends, lost, failures, crashes)
    }

    constructor (plan: Plan)
      ensures this.plan == plan && Rows() == EMITTED
    {
      this.plan := plan;
      status, attempts, rows, hooks := Pending, 0, map[], multiset{};
      workers, sends, lost, failures, crashes := map[], [], [], 0, 0;
    }

    method Claim(w: Id)
      requires status == Pending && w !in workers
      modifies this
      ensures Rows() == Step(plan, old(Rows()), Outbox.Claim(w))
    {
      status := Processing;
      attempts := attempts + 1;
      workers := workers[w := Worker(attempts, AtChannel(0))];
    }

    /** `ok` is whether the channel's send goes through, should one be made. */
    method DeliverToChannel(w: Id, i: nat, ok: bool) returns (raised: bool, ghost trace: seq<Action>)
      requires w in workers && workers[w].stage == AtChannel(i) && i < |plan.channels|
      modifies this
      ensures Rows() == Run(plan, old(Rows()), trace) && (forall a | a in trace :: !a.Reclaim? && !a.Crash?)
      ensures w in workers && workers[w].attempts == old(workers)[w].attempts
      ensures workers[w].stage == (if raised then Failing else AtChannel(i + 1))
      ensures raised <==> !ok && !IsSent(old(rows), plan.channels[i])
      ensures forall c :: IsSent(rows, c) <==> IsSent(old(rows), c) || (!raised && c == plan.channels[i])
      ensures raised ==> plan.channels[i] in rows && rows[plan.channels[i]] == FailedRow
      ensures status == old(status) && attempts == old(attempts)
    {
      hide Run, Step;
      var c := plan.channels[i];
      trace := [Look(w)];
      RunNone(plan, Rows());
      RunSnoc(plan, Rows(), [], Look(w));
      assert [] + [Look(w)] == [Look(w)];
      if c in rows && rows[c] == SentRow {
        LookSkips(plan, Rows(), w, i);
        workers := workers[w := workers[w].(stage := AtChannel(i + 1))];
        return false, trace;
      }
      LookReadies(plan, Rows(), w, i);
      if c !in rows {
        rows := rows[c := PendingRow];
      }
      workers := workers[w := workers[w].(stage := Sending(i))];
      SendDone(plan, Rows(), w, i, ok);
      RunSnoc(plan, old(Rows()), trace, Send(w, ok));
      trace := trace + [Send(w, ok)];
      sends := if ok then sends + [c] else sends;
      workers := workers[w := workers[w].(stage := Saving(i, ok))];
      SaveDone(plan, Rows(), w, i, ok);
      RunSnoc(plan, old(Rows()), trace, Save(w));
      trace := trace + [Save(w)];
      rows := rows[c := if ok then SentRow else FailedRow];
      workers := workers[w := workers[w].(stage := if ok then AtChannel(i + 1) else Failing)];
      return !ok, trace;
    }

    /** The loop over the channels stops at the first failed send; it gets past all of them exactly if all
        go through. */
    method Deliver(w: Id, ok: seq<bool>) returns (raised: bool, ghost trace: seq<Action>)
      requires w in workers && workers[w].stage == AtChannel(0) && |ok| == |plan.channels|
      modifies this
      ensures Rows() == Run(plan, old(Rows()), trace) && (forall a | a in trace :: !a.Reclaim? && !a.Crash?)
      ensures w in workers && workers[w].attempts == old(workers)[w].attempts
      ensures workers[w].stage == (if raised then Failing else AtHook(0))
      ensures raised <==> !AllGoThrough(plan.channels, old(rows), ok)
      ensures status == old(status) && attempts == old(attempts)
    {
      hide Run, Step;
      trace := [];
      RunNone(plan, Rows());
      var i := 0;
      while i < |plan.channels|
        invariant 0 <= i <= |plan.channels|
        invariant Rows() == Run(plan, old(Rows()), trace) && (forall a | a in trace :: !a.Reclaim? && !a.Crash?)
        invariant w in workers && workers[w] == Worker(old(workers)[w].attempts, AtChannel(i))
        invariant forall c :: IsSent(rows, c) <==> IsSent(old(rows), c) || c in plan.channels[..i]
        invariant forall k | 0 <= k < i ::
          ok[k] || IsSent(old(rows), plan.channels[k]) || plan.channels[k] in plan.channels[..k]
        invariant status == old(status) && attempts == old(attempts)
      {
        ghost var more;
        assert plan.channels[..i + 1] == plan.channels[..i] + [plan.channels[i]];
        raised, more := DeliverToChannel(w, i, ok[i]);
        RunMore(plan, old(Rows()), trace, more);
        trace := trace + more;
        if raised { return; }
        i := i + 1;
      }
      ghost var before := Rows();
      RunSnoc(plan, old(Rows()), trace, Look(w));
      trace := trace + [Look(w)];
      workers := workers[w := workers[w].(stage := AtHook(0))];
      LookDone(plan, before, w);
      raised := false;
    }

    method EnqueueWebhooks(w: Id) returns (ghost trace: seq<Action>)
      requires w in workers && workers[w].stage == AtHook(0)
      modifies this
      ensures Rows() == Run(plan, old(Rows()), trace) && (forall a | a in trace :: !a.Reclaim? && !a.Crash?)
      ensures w in workers && workers[w] == Worker(old(workers)[w].attempts, AtHook(|plan.endpoints|))
      ensures status == old(status) && attempts == old(attempts)
    {
      hide Run, Step;
      trace := [];
      RunNone(plan, Rows());
      var j := 0;
      while j < |plan.endpoints|
        invariant 0 <= j <= |plan.endpoints|
        invariant Rows() == Run(plan, old(Rows()), trace) && (forall a | a in trace :: !a.Reclaim? && !a.Crash?)
        invariant w in workers && workers[w] == Worker(old(workers)[w].attempts, AtHook(j))
        invariant status == old(status) && attempts == old(attempts)
      {
        HookDone(plan, Rows(), w, j);
        RunSnoc(plan, old(Rows()), trace, Hook(w));
        trace := trace + [Hook(w)];
        if plan.endpoints[j] !in hooks {
          hooks := hooks + multiset{plan.endpoints[j]};
        }
        workers := workers[w := workers[w].(stage := AtHook(j + 1))];
        j := j + 1;
      }
    }

    /** Claim the event and process it: processed exactly if every channel has been sent to before or its send goes
        through, otherwise back to pending, or failed from the fifth attempt on. */
    method Drain(w: Id, ok: seq<bool>) returns (processed: bool, ghost trace: seq<Action>)
      requires status == Pending && w !in workers && |ok| == |plan.channels|
      modifies this
      ensures Rows() == Run(plan, old(Rows()), trace) && (forall a | a in trace :: !a.Reclaim? && !a.Crash?)
      ensures status == (if processed then Processed else if old(attempts) + 1 >= MAX_ATTEMPTS then Failed else Pending)
      ensures attempts == old(attempts) + 1
      ensures processed <==> AllGoThrough(plan.channels, old(rows), ok)
    {
      hide Run, Step;
      RunNone(plan, Rows());
      RunSnoc(plan, Rows(), [], Outbox.Claim(w));
      ClaimDone(plan, Rows(), w);
      trace := [Outbox.Claim(w)];
      assert [] + [Outbox.Claim(w)] == trace;
      Claim(w);
      var raised, sent := Deliver(w, ok);
      RunMore(plan, old(Rows()), trace, sent);
      trace := trace + sent;
      if raised {
        SettleDone(plan, Rows(), w);
        RunSnoc(plan, old(Rows()), trace, Settle(w));
        trace := trace + [Settle(w)];
        status := if attempts >= MAX_ATTEMPTS then Failed else Pending;
        workers := workers - {w};
        failures := failures + 1;
        return false, trace;
      }
      ghost var hooked := EnqueueWebhooks(w);
      RunMore(plan, old(Rows()), trace, hooked);
      trace := trace + hooked;
      FinishDone(plan, Rows(), w);
      RunSnoc(plan, old(Rows()), trace, Finish(w));
      trace := trace + [Finish(w)];
      status := Processed;
      workers := workers - {w};
      return true, trace;
    }
  }
}
