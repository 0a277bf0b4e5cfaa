/** The import service as it runs: catalog tables updated row by row, a savepoint around each row, and four passes over
    the batch to roll it back. */
module ImportDesk {
  import opened Common
  import opened CatalogImport

  datatype BatchStatus = Staged | Validated | BatchCommitted | BatchRolledBack

  datatype Reply = Ok | NotValidated | HasErrors | AlreadyRolledBack | Protected

  class Batch {
    const org: Id
    const rows: seq<Row>
    const errors: nat
    var status: BatchStatus
    var results: seq<Result>

    constructor (org: Id, rows: seq<Row>, errors: nat, status: BatchStatus)
      requires status in {Staged, Validated}
      ensures this.org == org && this.rows == rows && this.errors == errors && this.status == status && results == []
    {
      this.org, this.rows, this.errors, this.status, this.results := org, rows, errors, status, [];
    }
  }

  /** Validation's pass over the batch: a row is flagged when an earlier one has its barcode. */
  method FlagDuplicates(rows: seq<Row>) returns (flags: seq<bool>)
    ensures |flags| == |rows| && forall i | 0 <= i < |rows| :: flags[i] <==> Repeats(rows, i)
    ensures true !in flags <==> BarcodesDistinct(rows)
  {
    flags := [];
    var seen: set<Id> := {};
    var i := 0;
    while i < |rows|
      invariant 0 <= i <= |rows| && |flags| == i
      invariant forall j | 0 <= j < i && rows[j].barcode.Some? :: rows[j].barcode.value in seen
      invariant forall b | b in seen :: exists j :: 0 <= j < i && rows[j].barcode == Some(b)
      invariant forall k | 0 <= k < i :: flags[k] <==> Repeats(rows, k)
    {
      var barcode := rows[i].barcode;
      flags := flags + [barcode.Some? && barcode.value in seen];
      if barcode.Some? {
        seen := seen + {barcode.value};
        assert rows[i].barcode == Some(barcode.value);
      }
      i := i + 1;
    }
    DistinctIffNoneRepeats(rows);
  }

  lemma DistinctIffNoneRepeats(rows: seq<Row>)
    ensures BarcodesDistinct(rows) <==> forall i | 0 <= i < |rows| :: !Repeats(rows, i)
  {
    if !BarcodesDistinct(rows) {
      var i, j :| 0 <= i < j < |rows| && rows[j].barcode.Some? && rows[i].barcode == rows[j].barcode;
      assert Repeats(rows, j);
    }
  }

  /** One more row of a batch deletes one more copy, edition or work, or none. */
  lemma DeletableSnoc(c: Catalog, rs: seq<Result>, r: Result, u: Uses)
    ensures DeletableCopies(c, rs + [r], u) == DeletableCopies(c, rs, u)
              + (if r.Committed? && r.copy.Some? && r.copyCreated && r.copy.value in c.copies
                    && r.copy.value !in u.loanedCopies && r.copy.value !in u.assignedCopies then {r.copy.value} else {})
    ensures DeletableEditions(c, rs + [r]) == DeletableEditions(c, rs)
              + (if r.Committed? && r.editionCreated && r.edition in c.editions && !HasCopies(c, r.edition)
                 then {r.edition} else {})
    ensures DeletableWorks(c, rs + [r]) == DeletableWorks(c, rs)
              + (if r.Committed? && r.workCreated && r.work in c.works && !HasEditions(c, r.work) then {r.work} else {})
  {
    CreatedSnoc(rs, r);
    hide CreatedCopies, CreatedEditions, CreatedWorks, HasCopies, HasEditions;
  }

  lemma DeletableGrows(c: Catalog, rs: seq<Result>, i: nat)
    requires i <= |rs|
    ensures DeletableEditions(c, rs[..i]) <= DeletableEditions(c, rs)
        && DeletableWorks(c, rs[..i]) <= DeletableWorks(c, rs)
  {
    assert forall r | r in rs[..i] :: r in rs;
    hide HasCopies, HasEditions;
  }

  lemma DetachedSnoc(c: Catalog, rs: seq<Result>, r: Result)
    ensures var d := Detached(c, rs);
            Detached(c, rs + [r])
            == if r.Committed? && !r.workCreated && r.work in d.works then
                 var w := d.works[r.work];
                 var kept := w.(authors := w.authors - r.addedAuthors, subjects := w.subjects - r.addedSubjects);
                 d.(works := d.works[r.work := kept])
               else d
  {
    hide AddedAuthors, AddedSubjects;
    forall w | w in c.works
      ensures AddedAuthors(rs + [r], w)
          == AddedAuthors(rs, w) + (if r.Committed? && !r.workCreated && r.work == w then r.addedAuthors else {})
      ensures AddedSubjects(rs + [r], w)
          == AddedSubjects(rs, w) + (if r.Committed? && !r.workCreated && r.work == w then r.addedSubjects else {})
    {
      AddedSnoc(rs, r, w);
    }
    var d, e := Detached(c, rs), Detached(c, rs + [r]);
    forall w | w in c.works && !(r.Committed? && !r.workCreated && r.work == w) ensures e.works[w] == d.works[w] {}
    if r.Committed? && !r.workCreated && r.work in d.works {
      var w := r.work;
      assert e.works[w].authors == d.works[w].authors - r.addedAuthors;
      assert e.works[w].subjects == d.works[w].subjects - r.addedSubjects;
      assert e.works == d.works[w := e.works[w]];
    } else {
      assert e.works == d.works;
    }
  }

  class Catalogue {
    var works: map<Id, Work>
    var editions: map<Id, Edition>
    var copies: map<Id, Copy>
    var names: set<Id>
    var nextWork: Id
    var nextEdition: Id
    var nextCopy: Id

    function Tables(): Catalog
      reads this
    {
      Catalog(works, editions, copies, names, nextWork, nextEdition, nextCopy)
    }

    constructor ()
      ensures Tables() == Catalog(map[], map[], map[], {}, 0, 0, 0)
    {
      works, editions, copies, names, nextWork, nextEdition, nextCopy := map[], map[], map[], {}, 0, 0, 0;
    }

    /** Undo the row's writes; numbers drawn stay drawn. */
    method RestoreTo(c: Catalog)
      modifies this
      ensures Tables() == RolledBackTo(c, old(Tables()))
    {
      works, editions, copies, names := c.works, c.editions, c.copies, c.names;
    }

    method CommitRow(org: Id, row: Row) returns (r: Result)
      modifies this
      ensures (Tables(), r) == CatalogImport.CommitRow(old(Tables()), org, row)
    {
      hide FindWork, FindEdition, FindCopy;
      var savepoint := Tables();
      var foundWork := FindWork(Tables(), row);
      var w, workCreated := nextWork, foundWork.None?;
      if workCreated {
        works := works[w := Work(row.slug, row.title, {}, {})];
        nextWork := nextWork + 1;
      } else {
        w := foundWork.value;
      }
      var newAuthors, newSubjects: set<Id> := {}, {};
      if !workCreated {
        newAuthors, newSubjects := row.authors - works[w].authors, row.subjects - works[w].subjects;
      }
      works := works[w := works[w].(authors := works[w].authors + row.authors,
                                    subjects := works[w].subjects + row.subjects)];
      names := names + row.authors + row.subjects;
      var foundEdition := FindEdition(Tables(), w, row);
      var e, editionCreated := nextEdition, foundEdition.None?;
      if editionCreated {
        editions := editions[e := Edition(w, row.isbn13, row.isbn10, row.format, row.year)];
        nextEdition := nextEdition + 1;
      } else {
        e := foundEdition.value;
      }
      if row.clash {
        RestoreTo(savepoint);
        return Failed;
      }
      if row.barcode.None? {
        return Committed(w, workCreated, newAuthors, newSubjects, e, editionCreated, None, false);
      }
      var foundCopy := FindCopy(Tables(), org, row.barcode.value);
      if foundCopy.Some? {
        return Committed(w, workCreated, newAuthors, newSubjects, e, editionCreated, foundCopy, false);
      }
      if !row.withinLimit {
        RestoreTo(savepoint);
        return Failed;
      }
      copies := copies[nextCopy := Copy(org, e, row.barcode.value)];
      nextCopy := nextCopy + 1;
      return Committed(w, workCreated, newAuthors, newSubjects, e, editionCreated, Some(nextCopy - 1), true);
    }

    method CommitImport(batch: Batch) returns (reply: Reply)
      modifies this, batch
      ensures reply == if old(batch.status) != Validated then NotValidated else if batch.errors > 0 then HasErrors
          else Ok
      ensures if reply == Ok
              then (Tables(), batch.results) == Commit(old(Tables()), batch.org, batch.rows)
                   && batch.status == BatchCommitted
              else Tables() == old(Tables()) && batch.results == old(batch.results) && batch.status == old(batch.status)
    {
      if batch.status != Validated { return NotValidated; }
      if batch.errors > 0 { return HasErrors; }
      hide CatalogImport.CommitRow;
      var results: seq<Result> := [];
      var i := 0;
      while i < |batch.rows|
        invariant 0 <= i <= |batch.rows|
        invariant (Tables(), results) == Commit(old(Tables()), batch.org, batch.rows[..i])
        invariant batch.status == old(batch.status)
      {
        assert batch.rows[..i + 1][..i] == batch.rows[..i];
        var r := CommitRow(batch.org, batch.rows[i]);
        results := results + [r];
        i := i + 1;
      }
      assert batch.rows[..i] == batch.rows;
      batch.results := results;
      batch.status := BatchCommitted;
      return Ok;
    }

    method DeleteCopies(rs: seq<Result>, u: Uses)
      modifies this`copies
      ensures Tables() == WithoutCopies(old(Tables()), rs, u)
    {
      var i := 0;
      ghost var c := Tables();
      while i < |rs|
        invariant 0 <= i <= |rs|
        invariant copies == c.copies - DeletableCopies(c, rs[..i], u)
      {
        var r := rs[i];
        assert rs[..i + 1] == rs[..i] + [r];
        DeletableSnoc(c, rs[..i], r, u);
        if r.Committed? && r.copy.Some? && r.copyCreated && r.copy.value in copies {
          if r.copy.value !in u.loanedCopies && r.copy.value !in u.assignedCopies {
            copies := copies - {r.copy.value};
          }
        }
        i := i + 1;
      }
      assert rs[..i] == rs;
    }

    /** Stops without deleting further when another row protects an edition. */
    method DeleteEditions(rs: seq<Result>, u: Uses) returns (ok: bool)
      modifies this`editions
      ensures ok <==> DeletableEditions(old(Tables()), rs) !! u.orderedEditions + u.lentEditions
      ensures ok ==> Tables() == WithoutEditions(old(Tables()), rs)
    {
      var i := 0;
      ghost var c := Tables();
      hide HasCopies;
      while i < |rs|
        invariant 0 <= i <= |rs|
        invariant editions == c.editions - DeletableEditions(c, rs[..i])
        invariant DeletableEditions(c, rs[..i]) !! u.orderedEditions + u.lentEditions
      {
        var r := rs[i];
        assert rs[..i + 1] == rs[..i] + [r];
        DeletableSnoc(c, rs[..i], r, u);
        DeletableGrows(c, rs, i + 1);
        if r.Committed? && r.editionCreated && r.edition in editions {
          SameCopies(c, Tables(), r.edition);
          if !HasCopies(Tables(), r.edition) {
            if r.edition in u.orderedEditions || r.edition in u.lentEditions {
              return false;
            }
            editions := editions - {r.edition};
          }
        }
        i := i + 1;
      }
      assert rs[..i] == rs;
      return true;
    }

    method DeleteWorks(rs: seq<Result>, u: Uses) returns (ok: bool)
      modifies this`works
      ensures ok <==> DeletableWorks(old(Tables()), rs) !! u.heldWorks + u.illWorks
      ensures ok ==> Tables() == WithoutWorks(old(Tables()), rs)
    {
      var i := 0;
      ghost var c := Tables();
      hide HasEditions;
      while i < |rs|
        invariant 0 <= i <= |rs|
        invariant works == c.works - DeletableWorks(c, rs[..i])
        invariant DeletableWorks(c, rs[..i]) !! u.heldWorks + u.illWorks
      {
        var r := rs[i];
        assert rs[..i + 1] == rs[..i] + [r];
        DeletableSnoc(c, rs[..i], r, u);
        DeletableGrows(c, rs, i + 1);
        if r.Committed? && r.workCreated && r.work in works {
          SameEditions(c, Tables(), r.work);
          if !HasEditions(Tables(), r.work) {
            if r.work in u.heldWorks || r.work in u.illWorks {
              return false;
            }
            works := works - {r.work};
          }
        }
        i := i + 1;
      }
      assert rs[..i] == rs;
      return true;
    }

    method DetachLinks(rs: seq<Result>)
      modifies this`works
      ensures Tables() == Detached(old(Tables()), rs)
    {
      var i := 0;
      ghost var c := Tables();
      NothingDetached(c);
      hide Detached;
      while i < |rs|
        invariant 0 <= i <= |rs|
        invariant Tables() == Detached(c, rs[..i])
      {
        var r := rs[i];
        assert rs[..i + 1] == rs[..i] + [r];
        DetachedSnoc(c, rs[..i], r);
        if r.Committed? && !r.workCreated && r.work in works {
          works := works[r.work := works[r.work].(authors := works[r.work].authors - r.addedAuthors,
                                                  subjects := works[r.work].subjects - r.addedSubjects)];
        }
        i := i + 1;
      }
      assert rs[..i] == rs;
    }

    method RollbackImport(batch: Batch, u: Uses) returns (reply: Reply)
      modifies this, batch
      ensures batch.results == old(batch.results)
      ensures old(batch.status) == BatchRolledBack ==>
          reply == AlreadyRolledBack && batch.status == BatchRolledBack && Tables() == old(Tables())
      ensures old(batch.status) in {Staged, Validated} ==>
          reply == Ok && batch.status == BatchRolledBack && Tables() == old(Tables())
      ensures old(batch.status) == BatchCommitted ==>
                match Rollback(old(Tables()), batch.results, u)
                case RolledBack(after) => reply == Ok && batch.status == BatchRolledBack && Tables() == after
                case Aborted => reply == Protected && batch.status == BatchCommitted && Tables() == old(Tables())
    {
      if batch.status == BatchRolledBack { return AlreadyRolledBack; }
      if batch.status in {Staged, Validated} {
        batch.status := BatchRolledBack;
        return Ok;
      }
      hide WithoutCopies, WithoutEditions, WithoutWorks, Detached, DeletableEditions, DeletableWorks;
      var saved := Tables();
      DeleteCopies(batch.results, u);
      var ok := DeleteEditions(batch.results, u);
      if ok {
        ok := DeleteWorks(batch.results, u);
      }
      if !ok {
        works, editions, copies := saved.works, saved.editions, saved.copies;
        return Protected;
      }
      DetachLinks(batch.results);
      batch.status := BatchRolledBack;
      return Ok;
    }
  }

  lemma SameCopies(c: Catalog, d: Catalog, e: Id)
    requires c.copies == d.copies
    ensures HasCopies(c, e) == HasCopies(d, e)
  {}

  lemma SameEditions(c: Catalog, d: Catalog, w: Id)
    requires c.editions == d.editions
    ensures HasEditions(c, w) == HasEditions(d, w)
  {}

  lemma NothingDetached(c: Catalog)
    ensures Detached(c, []) == c
  {
    forall w | w in c.works ensures Detached(c, []).works[w] == c.works[w] {
      assert AddedAuthors([], w) == {} && AddedSubjects([], w) == {};
    }
    assert Detached(c, []).works == c.works;
  }
}
