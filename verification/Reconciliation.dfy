/** How much a reconciliation sweep can match: copies on the shelf against holds that wait without one. */
module Reconciliation {
  import opened Common
  import opened Circulation

  type Title = (Id, Id)

  /** Copies the sweep may hand out for a title of an organization. */
  function Pool(s: State, t: Title): set<Id> {
    set c | c in s.copies && s.copies[c].org == t.0 && s.copies[c].work == t.1
            && s.copies[c].status == Available && s.copies[c].visible
  }

  /** Titles that somebody waits for without a copy assigned. */
  function Wanted(s: State): set<Title> {
    set h | h in s.holds && s.holds[h].status == Waiting && s.holds[h].copy.None? :: (s.holds[h].org, s.holds[h].work)
  }

  function Quota(s: State, t: Title): nat {
    var copies, holds := |Pool(s, t)|, |Unserved(s, t.0, t.1)|;
    if copies <= holds then copies else holds
  }

  ghost function Total(s: State, titles: set<Title>): nat {
    if titles == {} then 0 else var t :| t in titles; Quota(s, t) + Total(s, titles - {t})
  }

  lemma {:induction false} TotalSplit(s: State, titles: set<Title>, x: Title)
    requires x in titles
    ensures Total(s, titles) == Quota(s, x) + Total(s, titles - {x})
  {
    var t :| t in titles && Total(s, titles) == Quota(s, t) + Total(s, titles - {t});
    if t != x {
      TotalSplit(s, titles - {t}, x);
      TotalSplit(s, titles - {x}, t);
      assert titles - {t} - {x} == titles - {x} - {t};
    }
  }

  /** Offering a pooled copy takes exactly one copy and one hold off its title, and nothing off any other. */
  lemma OfferMatchesOne(R: Rules, s: State, t: Title, c: Id)
    requires c in Pool(s, t) && Unserved(s, t.0, t.1) != {}
    ensures var u := AssignNext(R, s, c);
            && Pool(u, t) == Pool(s, t) - {c}
            && (exists h :: h in Unserved(s, t.0, t.1) && Unserved(u, t.0, t.1) == Unserved(s, t.0, t.1) - {h})
            && forall x: Title | x != t :: Pool(u, x) == Pool(s, x) && Unserved(u, x.0, x.1) == Unserved(s, x.0, x.1)
  {
    var u := AssignNext(R, s, c);
    var h := NextHold(s, t.0, t.1).value;
    GiveRows(R, s, h, c);
    assert u == Give(R, s, h, c);
    hide AssignNext, Give, NextHold;
    assert Unserved(u, t.0, t.1) == Unserved(s, t.0, t.1) - {h};
  }

  lemma GiveRows(R: Rules, s: State, h: Id, c: Id)
    requires h in s.holds && c in s.copies && s.holds[h].status == Waiting
    ensures var u := Give(R, s, h, c);
            && c in u.copies && u.copies == s.copies[c := u.copies[c]] && u.copies[c].status in {OnHold, InTransit}
            && h in u.holds && u.holds == s.holds[h := u.holds[h]] && u.holds[h].copy == Some(c) && u.now == s.now
  {}

  lemma NothingToOffer(R: Rules, s: State, t: Title, c: Id)
    requires c in Pool(s, t) && Unserved(s, t.0, t.1) == {}
    ensures AssignNext(R, s, c) == s && NextHold(s, t.0, t.1).None?
  {}

  /** After a sweep that stopped below its cap no shelf copy and waiting hold of one title are left over. */
  ghost predicate Settled(s: State) {
    forall t: Title :: Pool(s, t) == {} || Unserved(s, t.0, t.1) == {}
  }

  /** Work done on the titles in `done`, none yet on the rest. */
  ghost predicate Progress(start: State, s: State, done: set<Title>, matched: nat) {
    && matched == Total(start, done)
    && (forall t: Title :: t in done ==> Pool(s, t) == {} || Unserved(s, t.0, t.1) == {})
    && (forall t: Title :: t !in done ==>
        Pool(s, t) == Pool(start, t) && Unserved(s, t.0, t.1) == Unserved(start, t.0, t.1))
  }

  /** Work in hand on title `t`: `k` copies matched so far. */
  ghost predicate Matching(start: State, s: State, done: set<Title>, t: Title, k: nat) {
    && (forall x: Title :: x in done ==> Pool(s, x) == {} || Unserved(s, x.0, x.1) == {})
    && (forall x: Title :: x !in done && x != t ==>
        Pool(s, x) == Pool(start, x) && Unserved(s, x.0, x.1) == Unserved(start, x.0, x.1))
    && |Pool(s, t)| + k == |Pool(start, t)|
    && |Unserved(s, t.0, t.1)| + k == |Unserved(start, t.0, t.1)|
  }

  lemma NothingDone(start: State)
    ensures Progress(start, start, {}, 0)
  {}

  lemma StartTitle(start: State, s: State, done: set<Title>, t: Title, matched: nat)
    requires Progress(start, s, done, matched) && t !in done
    ensures Matching(start, s, done, t, 0) && matched == Total(start, done)
  {}

  lemma MatchOne(R: Rules, start: State, s: State, done: set<Title>, t: Title, k: nat, c: Id)
    requires Matching(start, s, done, t, k) && t !in done
    requires c in Pool(s, t) && Unserved(s, t.0, t.1) != {}
    ensures Matching(start, AssignNext(R, s, c), done, t, k + 1)
  {
    hide AssignNext, Unserved;
    assert c in s.copies;
    hide Pool;
    OfferMatchesOne(R, s, t, c);
    var u := AssignNext(R, s, c);
    assert |Pool(u, t)| == |Pool(s, t)| - 1;
    var h :| h in Unserved(s, t.0, t.1) && Unserved(u, t.0, t.1) == Unserved(s, t.0, t.1) - {h};
  }

  lemma {:induction false} TotalSubset(s: State, some: set<Title>, all: set<Title>)
    requires some <= all
    ensures Total(s, some) <= Total(s, all)
  {
    if some != {} {
      var t :| t in some;
      TotalSplit(s, some, t);
      TotalSplit(s, all, t);
      TotalSubset(s, some - {t}, all - {t});
    }
  }

  /** A finished title contributed its whole quota. */
  lemma TitleDone(start: State, s: State, done: set<Title>, t: Title, k: nat)
    requires Matching(start, s, done, t, k) && t !in done
    requires Pool(s, t) == {} || Unserved(s, t.0, t.1) == {}
    ensures k == Quota(start, t) && Progress(start, s, done + {t}, Total(start, done) + k)
  {
    hide Pool, Unserved;
    TotalSplit(start, done + {t}, t);
    assert done + {t} - {t} == done;
    hide Total;
    var all := done + {t};
    forall x: Title ensures x in all ==> Pool(s, x) == {} || Unserved(s, x.0, x.1) == {} {}
    forall x: Title
      ensures x !in all ==> Pool(s, x) == Pool(start, x) && Unserved(s, x.0, x.1) == Unserved(start, x.0, x.1) {}
  }

  /** The cap was reached inside title `t`: the whole demand is at least what was assigned. */
  lemma CapReached(start: State, s: State, done: set<Title>, t: Title, k: nat, all: set<Title>)
    requires Matching(start, s, done, t, k) && t !in done && done + {t} <= all
    ensures Total(start, done) + k <= Total(start, all)
  {
    TotalSplit(start, done + {t}, t);
    assert done + {t} - {t} == done;
    TotalSubset(start, done + {t}, all);
  }

  lemma AllSettled(start: State, s: State, matched: nat)
    requires Progress(start, s, Wanted(start), matched)
    ensures Settled(s) && matched == Total(start, Wanted(start))
  {
    forall t: Title ensures Pool(s, t) == {} || Unserved(s, t.0, t.1) == {} {
      if t !in Wanted(start) {
        assert Unserved(start, t.0, t.1) == {};
      }
    }
  }
}
