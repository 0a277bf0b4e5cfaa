/** Staged catalog import: rows upsert works, editions and copies, each in its own savepoint, and a rollback
    deletes what the batch created.

    Authors and subjects are identified by the normalized name or slug they are looked up by. */
module CatalogImport {
  import opened Common

  datatype Work = Work(slug: Id, title: Id, authors: set<Id>, subjects: set<Id>)

  datatype Edition = Edition(work: Id, isbn13: Option<Id>, isbn10: Option<Id>, format: Id, year: Option<int>)

  datatype Copy = Copy(org: Id, edition: Id, barcode: Id)

  /** `names` holds the author and subject rows ever created; the counters number new rows. */
  datatype Catalog = Catalog(works: map<Id, Work>, editions: map<Id, Edition>, copies: map<Id, Copy>, names: set<Id>,
                             nextWork: Id, nextEdition: Id, nextCopy: Id)

  /** One validated row.  `clash` is a uniqueness clash with another session somewhere in the row, and `withinLimit` the
      answer of the plan's copy limit when a copy is to be created. */
  datatype Row = Row(slug: Id, title: Id, authors: set<Id>, subjects: set<Id>, isbn13: Option<Id>, isbn10: Option<Id>,
                     format: Id, year: Option<int>, barcode: Option<Id>, clash: bool, withinLimit: bool)

  /** What the row's commit result records for a later reversal. */
  datatype Result =
    | Failed
    | Committed(work: Id, workCreated: bool, addedAuthors: set<Id>, addedSubjects: set<Id>,
                edition: Id, editionCreated: bool, copy: Option<Id>, copyCreated: bool)

  // ---------------------------------------------------------------- lookups

  function WorksBySlug(c: Catalog, slug: Id): map<Id, int> { map w | w in c.works && c.works[w].slug == slug :: 0 }

  function WorksByTitle(c: Catalog, title: Id): map<Id, int> { map w | w in c.works && c.works[w].title == title :: 0 }

  function FindWork(c: Catalog, row: Row): (r: Option<Id>)
    ensures r.Some? ==> r.value in c.works
    ensures r.Some? && c.works[r.value].slug != row.slug ==>
      c.works[r.value].title == row.title && forall w | w in c.works :: c.works[w].slug != row.slug
    ensures r.None? ==> forall w | w in c.works :: c.works[w].slug != row.slug && c.works[w].title != row.title
  {
    var bySlug := First(WorksBySlug(c, row.slug));
    if bySlug.Some? then bySlug
    else
      var byTitle := First(WorksByTitle(c, row.title));
      assert bySlug.None? ==> forall w | w in c.works :: w !in WorksBySlug(c, row.slug);
      assert byTitle.None? ==> forall w | w in c.works :: w !in WorksByTitle(c, row.title);
      byTitle
  }

  function EditionsByIsbn13(c: Catalog, isbn: Id): map<Id, int> {
    map e | e in c.editions && c.editions[e].isbn13 == Some(isbn) :: 0
  }

  function EditionsByIsbn10(c: Catalog, isbn: Id): map<Id, int> {
    map e | e in c.editions && c.editions[e].isbn10 == Some(isbn) :: 0
  }

  function EditionsOf(c: Catalog, w: Id, format: Id, year: Option<int>): map<Id, int> {
    map e | e in c.editions && c.editions[e].work == w && c.editions[e].format == format
        && c.editions[e].year == year :: 0
  }

  /** By ISBN-13, then ISBN-10, which may belong to another work, then by work, format and year. */
  function FindEdition(c: Catalog, w: Id, row: Row): (r: Option<Id>)
    ensures r.Some? ==> r.value in c.editions
  {
    var by13 := if row.isbn13.Some? then First(EditionsByIsbn13(c, row.isbn13.value)) else None;
    var by10 := if row.isbn10.Some? then First(EditionsByIsbn10(c, row.isbn10.value)) else None;
    if by13.Some? then by13 else if by10.Some? then by10 else First(EditionsOf(c, w, row.format, row.year))
  }

  function CopiesByBarcode(c: Catalog, org: Id, barcode: Id): map<Id, int> {
    map k | k in c.copies && c.copies[k].org == org && c.copies[k].barcode == barcode :: 0
  }

  function FindCopy(c: Catalog, org: Id, barcode: Id): (r: Option<Id>)
    ensures r.Some? ==> r.value in c.copies && c.copies[r.value].barcode == barcode
  {
    First(CopiesByBarcode(c, org, barcode))
  }

  // ---------------------------------------------------------------- committing one row

  function PlaceWork(c: Catalog, row: Row): (Catalog, Id, bool) {
    var found := FindWork(c, row);
    if found.Some? then (c, found.value, false)
    else (c.(works := c.works[c.nextWork := Work(row.slug, row.title, {}, {})], nextWork := c.nextWork + 1), c.nextWork,
          true)
  }

  function LinkNames(c: Catalog, w: Id, row: Row): Catalog
    requires w in c.works
  {
    var work := c.works[w];
    c.(works := c.works[w := work.(authors := work.authors + row.authors, subjects := work.subjects + row.subjects)],
       names := c.names + row.authors + row.subjects)
  }

  function PlaceEdition(c: Catalog, w: Id, row: Row): (Catalog, Id, bool) {
    var found := FindEdition(c, w, row);
    if found.Some? then (c, found.value, false)
    else (c.(editions := c.editions[c.nextEdition := Edition(w, row.isbn13, row.isbn10, row.format, row.year)],
             nextEdition := c.nextEdition + 1), c.nextEdition, true)
  }

  function PlaceCopy(c: Catalog, org: Id, e: Id, barcode: Id): (Catalog, Id, bool) {
    var found := FindCopy(c, org, barcode);
    if found.Some? then (c, found.value, false)
    else (c.(copies := c.copies[c.nextCopy := Copy(org, e, barcode)], nextCopy := c.nextCopy + 1), c.nextCopy, true)
  }

  /** The catalog as it was, except that numbers once drawn are not drawn again. */
  function RolledBackTo(c: Catalog, d: Catalog): Catalog {
    c.(nextWork := d.nextWork, nextEdition := d.nextEdition, nextCopy := d.nextCopy)
  }

  function CommitRow(c: Catalog, org: Id, row: Row): (Catalog, Result) {
    var (c1, w, workCreated) := PlaceWork(c, row);
    var addedAuthors, addedSubjects := row.authors - c1.works[w].authors, row.subjects - c1.works[w].subjects;
    var c2 := LinkNames(c1, w, row);
    var (c3, e, editionCreated) := PlaceEdition(c2, w, row);
    if row.clash then (RolledBackTo(c, c3), Failed)
    else if row.barcode.None? then
      (c3, Committed(w, workCreated, if workCreated then {} else addedAuthors,
                     if workCreated then {} else addedSubjects,
                     e, editionCreated, None, false))
    else
      var (c4, k, copyCreated) := PlaceCopy(c3, org, e, row.barcode.value);
      if copyCreated && !row.withinLimit then (RolledBackTo(c, c3), Failed)
      else
        (c4, Committed(w, workCreated, if workCreated then {} else addedAuthors,
                       if workCreated then {} else addedSubjects,
                       e, editionCreated, Some(k), copyCreated))
  }

  function Commit(c: Catalog, org: Id, rows: seq<Row>): (Catalog, seq<Result>) {
    if rows == [] then (c, [])
    else
      var (d, results) := Commit(c, org, rows[..|rows| - 1]);
      var (after, result) := CommitRow(d, org, rows[|rows| - 1]);
      (after, results + [result])
  }

  // ---------------------------------------------------------------- what a batch created

  function CreatedWorks(rs: seq<Result>): set<Id> { set r | r in rs && r.Committed? && r.workCreated :: r.work }

  function CreatedEditions(rs: seq<Result>): set<Id> {
    set r | r in rs && r.Committed? && r.editionCreated :: r.edition
  }

  function CreatedCopies(rs: seq<Result>): set<Id> {
    set r | r in rs && r.Committed? && r.copy.Some? && r.copyCreated :: r.copy.value
  }

  function AddedAuthors(rs: seq<Result>, w: Id): set<Id> {
    set r, a | r in rs && r.Committed? && !r.workCreated && r.work == w && a in r.addedAuthors :: a
  }

  function AddedSubjects(rs: seq<Result>, w: Id): set<Id> {
    set r, a | r in rs && r.Committed? && !r.workCreated && r.work == w && a in r.addedSubjects :: a
  }

  // ---------------------------------------------------------------- rolling back

  /** Rows elsewhere that refer to the catalog: loans, holds and inter-library loans by copy and by work, order lines
      and digital loans by edition. Only a reference to an inter-library loan's copy may be cleared by a deletion. */
  datatype Uses = Uses(loanedCopies: set<Id>, assignedCopies: set<Id>, illCopies: set<Id>, heldWorks: set<Id>,
                       illWorks: set<Id>,
                       orderedEditions: set<Id>, lentEditions: set<Id>)

  function DeletableCopies(c: Catalog, rs: seq<Result>, u: Uses): set<Id> {
    set k | k in CreatedCopies(rs) && k in c.copies && k !in u.loanedCopies && k !in u.assignedCopies
  }

  predicate HasCopies(c: Catalog, e: Id) { exists k :: k in c.copies && c.copies[k].edition == e }

  function DeletableEditions(c: Catalog, rs: seq<Result>): set<Id> {
    set e | e in CreatedEditions(rs) && e in c.editions && !HasCopies(c, e)
  }

  predicate HasEditions(c: Catalog, w: Id) { exists e :: e in c.editions && c.editions[e].work == w }

  function DeletableWorks(c: Catalog, rs: seq<Result>): set<Id> {
    set w | w in CreatedWorks(rs) && w in c.works && !HasEditions(c, w)
  }

  function WithoutCopies(c: Catalog, rs: seq<Result>, u: Uses): Catalog {
    c.(copies := c.copies - DeletableCopies(c, rs, u))
  }

  function WithoutEditions(c: Catalog, rs: seq<Result>): Catalog {
    c.(editions := c.editions - DeletableEditions(c, rs))
  }

  function WithoutWorks(c: Catalog, rs: seq<Result>): Catalog { c.(works := c.works - DeletableWorks(c, rs)) }

  function Detached(c: Catalog, rs: seq<Result>): Catalog {
    c.(works := map w | w in c.works ::
                  c.works[w].(authors := c.works[w].authors - AddedAuthors(rs, w),
                              subjects := c.works[w].subjects - AddedSubjects(rs, w)))
  }

  datatype Outcome = RolledBack(after: Catalog) | Aborted

  /** Copies, then editions, then works, then links; a deletion some other row forbids aborts the whole rollback. */
  function Rollback(c: Catalog, rs: seq<Result>, u: Uses): Outcome {
    var c1 := WithoutCopies(c, rs, u);
    var c2 := WithoutEditions(c1, rs);
    var c3 := WithoutWorks(c2, rs);
    if DeletableEditions(c1, rs) !! u.orderedEditions + u.lentEditions
        && DeletableWorks(c2, rs) !! u.heldWorks + u.illWorks
    then RolledBack(Detached(c3, rs))
    else Aborted
  }

  // ---------------------------------------------------------------- integrity

  /** Every edition has its work, every copy its edition, and no number drawn later is in use. */
  predicate Integral(c: Catalog) {
    && (forall e | e in c.editions :: c.editions[e].work in c.works && e < c.nextEdition)
    && (forall k | k in c.copies :: c.copies[k].edition in c.editions && k < c.nextCopy)
    && (forall w | w in c.works :: w < c.nextWork)
  }

  /** The other tables refer only to rows that exist. */
  predicate UsesExist(c: Catalog, u: Uses) {
    && u.loanedCopies + u.assignedCopies + u.illCopies <= c.copies.Keys
    && u.heldWorks + u.illWorks <= c.works.Keys
    && u.orderedEditions + u.lentEditions <= c.editions.Keys
  }

  /** What one row does to each table, by what its result records. */
  predicate RowEffect(c: Catalog, d: Catalog, org: Id, row: Row, r: Result) {
    CopiesEffect(c, d, org, row, r) && EditionsEffect(c, d, r) && WorksEffect(c, d, row, r)
  }

  predicate CopiesEffect(c: Catalog, d: Catalog, org: Id, row: Row, r: Result) {
    if r.Committed? && r.copy.Some? && r.copyCreated then
      && r.copy.value == c.nextCopy && d.nextCopy == c.nextCopy + 1 && r.edition in d.editions
      && row.barcode.Some? && d.copies == c.copies[c.nextCopy := Copy(org, r.edition, row.barcode.value)]
    else d.copies == c.copies && d.nextCopy == c.nextCopy
  }

  predicate EditionsEffect(c: Catalog, d: Catalog, r: Result) {
    if r.Committed? && r.editionCreated then
      && r.edition == c.nextEdition && d.nextEdition == c.nextEdition + 1 && r.work in d.works
      && r.edition in d.editions && d.editions[r.edition].work == r.work
           && d.editions == c.editions[r.edition := d.editions[r.edition]]
    else d.editions == c.editions && d.nextEdition >= c.nextEdition
  }

  predicate WorksEffect(c: Catalog, d: Catalog, row: Row, r: Result) {
    if r.Failed? then d.works == c.works && d.nextWork >= c.nextWork
    else if r.workCreated then
      && r.work == c.nextWork && d.nextWork == c.nextWork + 1 && r.work in d.works
      && d.works == c.works[r.work := d.works[r.work]]
    else
      && r.work in c.works && d.nextWork == c.nextWork
      && var w := c.works[r.work];
      && r.addedAuthors == row.authors - w.authors && r.addedSubjects == row.subjects - w.subjects
      && d.works == c.works[r.work := w.(authors := w.authors + row.authors, subjects := w.subjects + row.subjects)]
  }

  lemma RowCopies(c: Catalog, org: Id, row: Row)
    ensures CopiesEffect(c, CommitRow(c, org, row).0, org, row, CommitRow(c, org, row).1)
  {
    hide FindWork, FindEdition, FindCopy;
  }

  lemma RowEditions(c: Catalog, org: Id, row: Row)
    ensures EditionsEffect(c, CommitRow(c, org, row).0, CommitRow(c, org, row).1)
  {
    hide FindWork, FindEdition, FindCopy;
    var (d, r) := CommitRow(c, org, row);
    if r.Committed? && r.editionCreated {
      assert d.editions == c.editions[c.nextEdition := Edition(r.work, row.isbn13, row.isbn10, row.format, row.year)];
    }
  }

  lemma RowWorks(c: Catalog, org: Id, row: Row)
    ensures WorksEffect(c, CommitRow(c, org, row).0, row, CommitRow(c, org, row).1)
  {
    hide FindWork, FindEdition, FindCopy, PlaceEdition, PlaceCopy;
    SameWorks(c, org, row);
  }

  lemma SameWorks(c: Catalog, org: Id, row: Row)
    ensures var (c1, w, _) := PlaceWork(c, row);
            var c3 := PlaceEdition(LinkNames(c1, w, row), w, row).0;
            c3.works == LinkNames(c1, w, row).works && c3.nextWork == c1.nextWork
            && forall e, barcode :: PlaceCopy(c3, org, e, barcode).0.works == c3.works
                 && PlaceCopy(c3, org, e, barcode).0.nextWork == c3.nextWork
  {
    hide FindWork, FindEdition, FindCopy;
  }

  lemma RowHasEffect(c: Catalog, org: Id, row: Row)
    ensures RowEffect(c, CommitRow(c, org, row).0, org, row, CommitRow(c, org, row).1)
  {
    hide CommitRow, CopiesEffect, EditionsEffect, WorksEffect;
    RowCopies(c, org, row);
    RowEditions(c, org, row);
    RowWorks(c, org, row);
  }

  lemma CommitRowIntegral(c: Catalog, org: Id, row: Row)
    requires Integral(c)
    ensures Integral(CommitRow(c, org, row).0)
  {
    hide CommitRow;
    RowHasEffect(c, org, row);
  }

  lemma {:induction false} CommitIntegral(c: Catalog, org: Id, rows: seq<Row>)
    requires Integral(c)
    ensures Integral(Commit(c, org, rows).0)
  {
    hide CommitRow, Integral;
    if rows != [] {
      CommitIntegral(c, org, rows[..|rows| - 1]);
      CommitRowIntegral(Commit(c, org, rows[..|rows| - 1]).0, org, rows[|rows| - 1]);
    }
  }

  // ---------------------------------------------------------------- a commit only adds

  /** `d` is `c` with rows and links added, exactly those the results record. */
  predicate Extends(c: Catalog, d: Catalog, rs: seq<Result>) {
    ExtendsCopies(c, d, rs) && ExtendsEditions(c, d, rs) && ExtendsWorks(c, d, rs)
  }

  predicate ExtendsCopies(c: Catalog, d: Catalog, rs: seq<Result>) {
    && d.copies.Keys == c.copies.Keys + CreatedCopies(rs) && c.copies.Keys !! CreatedCopies(rs)
    && (forall k | k in c.copies :: d.copies[k] == c.copies[k])
    && c.nextCopy <= d.nextCopy
  }

  predicate ExtendsEditions(c: Catalog, d: Catalog, rs: seq<Result>) {
    && d.editions.Keys == c.editions.Keys + CreatedEditions(rs) && c.editions.Keys !! CreatedEditions(rs)
    && (forall e | e in c.editions :: d.editions[e] == c.editions[e])
    && c.nextEdition <= d.nextEdition
  }

  predicate ExtendsWorks(c: Catalog, d: Catalog, rs: seq<Result>) {
    && d.works.Keys == c.works.Keys + CreatedWorks(rs) && c.works.Keys !! CreatedWorks(rs)
    && (forall w | w in c.works :: LinksAdded(c.works[w], d.works[w], AddedAuthors(rs, w), AddedSubjects(rs, w)))
    && c.nextWork <= d.nextWork
  }

  predicate LinksAdded(before: Work, after: Work, authors: set<Id>, subjects: set<Id>) {
    && after == before.(authors := before.authors + authors, subjects := before.subjects + subjects)
    && before.authors !! authors && before.subjects !! subjects
  }

  lemma CreatedSnoc(rs: seq<Result>, r: Result)
    ensures CreatedCopies(rs + [r])
        == CreatedCopies(rs) + (if r.Committed? && r.copy.Some? && r.copyCreated then {r.copy.value} else {})
    ensures CreatedEditions(rs + [r])
        == CreatedEditions(rs) + (if r.Committed? && r.editionCreated then {r.edition} else {})
    ensures CreatedWorks(rs + [r]) == CreatedWorks(rs) + (if r.Committed? && r.workCreated then {r.work} else {})
  {
    assert forall x :: x in rs + [r] <==> x in rs || x == r;
  }

  lemma AddedSnoc(rs: seq<Result>, r: Result, w: Id)
    ensures AddedAuthors(rs + [r], w)
        == AddedAuthors(rs, w) + (if r.Committed? && !r.workCreated && r.work == w then r.addedAuthors else {})
    ensures AddedSubjects(rs + [r], w)
        == AddedSubjects(rs, w) + (if r.Committed? && !r.workCreated && r.work == w then r.addedSubjects else {})
  {
    assert forall x :: x in rs + [r] <==> x in rs || x == r;
  }

  lemma RowExtendsTables(c: Catalog, d: Catalog, rs: seq<Result>, org: Id, row: Row)
    requires Integral(c) && Integral(d) && Extends(c, d, rs)
    ensures var (after, r) := CommitRow(d, org, row);
            ExtendsCopies(c, after, rs + [r]) && ExtendsEditions(c, after, rs + [r])
  {
    hide CommitRow, ExtendsWorks, WorksEffect, CreatedCopies, CreatedEditions, CreatedWorks;
    RowHasEffect(d, org, row);
    CreatedSnoc(rs, CommitRow(d, org, row).1);
  }

  lemma RowExtendsWorks(c: Catalog, d: Catalog, rs: seq<Result>, org: Id, row: Row)
    requires Integral(c) && Integral(d) && Extends(c, d, rs)
    ensures var (after, r) := CommitRow(d, org, row); ExtendsWorks(c, after, rs + [r])
  {
    hide CommitRow, ExtendsCopies, ExtendsEditions, CopiesEffect, EditionsEffect, CreatedCopies, CreatedEditions,
         CreatedWorks, AddedAuthors, AddedSubjects;
    var (after, r) := CommitRow(d, org, row);
    RowHasEffect(d, org, row);
    CreatedSnoc(rs, r);
    forall w | w in c.works
      ensures LinksAdded(c.works[w], after.works[w], AddedAuthors(rs + [r], w), AddedSubjects(rs + [r], w))
    {
      AddedSnoc(rs, r, w);
      assert LinksAdded(c.works[w], d.works[w], AddedAuthors(rs, w), AddedSubjects(rs, w));
    }
  }

  lemma {:induction false} CommitExtends(c: Catalog, org: Id, rows: seq<Row>)
    requires Integral(c)
    ensures Extends(c, Commit(c, org, rows).0, Commit(c, org, rows).1)
  {
    if rows == [] {
    } else {
      var before := rows[..|rows| - 1];
      CommitExtends(c, org, before);
      CommitIntegral(c, org, before);
      hide CommitRow, Integral, ExtendsCopies, ExtendsEditions, ExtendsWorks;
      RowExtendsTables(c, Commit(c, org, before).0, Commit(c, org, before).1, org, rows[|rows| - 1]);
      RowExtendsWorks(c, Commit(c, org, before).0, Commit(c, org, before).1, org, rows[|rows| - 1]);
    }
  }

  // ---------------------------------------------------------------- one row, one copy

  /** What validation checks across rows: a barcode appears on one row of the batch only. */
  predicate BarcodesDistinct(rows: seq<Row>) {
    forall i, j | 0 <= i < j < |rows| && rows[j].barcode.Some? :: rows[i].barcode != rows[j].barcode
  }

  /** Row `i` has the barcode of an earlier row. */
  predicate Repeats(rows: seq<Row>, i: nat)
    requires i < |rows|
  {
    rows[i].barcode.Some? && exists j :: 0 <= j < i && rows[j].barcode == rows[i].barcode
  }

  lemma {:induction false} NewCopiesFromRows(c: Catalog, org: Id, rows: seq<Row>)
    requires Integral(c)
    ensures var d := Commit(c, org, rows).0;
            forall k | k in d.copies && k !in c.copies :: exists row ::
                   row in rows && row.barcode == Some(d.copies[k].barcode)
  {
    if rows != [] {
      var before, last := rows[..|rows| - 1], rows[|rows| - 1];
      NewCopiesFromRows(c, org, before);
      CommitIntegral(c, org, before);
      RowHasEffect(Commit(c, org, before).0, org, last);
      hide CommitRow, EditionsEffect, WorksEffect;
      assert last in rows && forall row | row in before :: row in rows;
    }
  }

  /** In a validated batch a row either creates its copy or names one that was there before the batch. */
  lemma {:induction false} CopiesNotShared(c: Catalog, org: Id, rows: seq<Row>, i: nat)
    requires Integral(c) && BarcodesDistinct(rows) && i < |rows|
    ensures |Commit(c, org, rows).1| == |rows|
    ensures var r := Commit(c, org, rows).1[i];
            r.Committed? && r.copy.Some? && !r.copyCreated ==> r.copy.value in c.copies
  {
    hide CommitRow;
    var n := |rows| - 1;
    var before, last := rows[..n], rows[n];
    ResultPerRow(c, org, before);
    if i < n {
      CopiesNotShared(c, org, before, i);
    } else {
      var d := Commit(c, org, before).0;
      NewCopiesFromRows(c, org, before);
      var r := CommitRow(d, org, last).1;
      if r.Committed? && r.copy.Some? && !r.copyCreated {
        FoundCopyHasBarcode(d, org, last);
      }
    }
  }

  lemma FoundCopyHasBarcode(d: Catalog, org: Id, row: Row)
    requires var r := CommitRow(d, org, row).1; r.Committed? && r.copy.Some? && !r.copyCreated
    ensures var k := CommitRow(d, org, row).1.copy.value; k in d.copies && row.barcode == Some(d.copies[k].barcode)
  {
    hide FindWork, FindEdition, FindCopy;
  }

  lemma {:induction false} ResultPerRow(c: Catalog, org: Id, rows: seq<Row>)
    ensures |Commit(c, org, rows).1| == |rows|
  {
    hide CommitRow;
    if rows != [] {
      ResultPerRow(c, org, rows[..|rows| - 1]);
    }
  }

  // ---------------------------------------------------------------- rollback undoes commit

  lemma RollbackOfExtension(c: Catalog, d: Catalog, rs: seq<Result>, u: Uses)
    requires Integral(c) && UsesExist(c, u) && Extends(c, d, rs)
    ensures Rollback(d, rs, u).RolledBack?
    ensures var after := Rollback(d, rs, u).after;
            after.copies == c.copies && after.editions == c.editions && after.works == c.works
  {
    hide CreatedCopies, CreatedEditions, CreatedWorks, AddedAuthors, AddedSubjects;
    var c1 := WithoutCopies(d, rs, u);
    assert DeletableCopies(d, rs, u) == CreatedCopies(rs);
    assert c1.copies == c.copies;
    var c2 := WithoutEditions(c1, rs);
    assert DeletableEditions(c1, rs) == CreatedEditions(rs);
    assert c2.editions == c.editions;
    var c3 := WithoutWorks(c2, rs);
    assert DeletableWorks(c2, rs) == CreatedWorks(rs);
    assert c3.works.Keys == c.works.Keys;
    var after := Detached(c3, rs);
    forall w | w in c.works ensures after.works[w] == c.works[w] {
      assert LinksAdded(c.works[w], d.works[w], AddedAuthors(rs, w), AddedSubjects(rs, w));
    }
    assert after.works == c.works;
  }

  /** Committing any rows, failed ones included, and rolling back at once restores copies, editions, works and their
      author and subject links exactly; only unlinked author and subject rows may be left over. */
  lemma RollbackUndoesCommit(c: Catalog, org: Id, rows: seq<Row>, u: Uses)
    requires Integral(c) && UsesExist(c, u)
    ensures var (d, rs) := Commit(c, org, rows);
            && Rollback(d, rs, u).RolledBack?
            && var after := Rollback(d, rs, u).after;
               after.copies == c.copies && after.editions == c.editions && after.works == c.works
  {
    CommitExtends(c, org, rows);
    RollbackOfExtension(c, Commit(c, org, rows).0, Commit(c, org, rows).1, u);
  }

  // ---------------------------------------------------------------- rollback after use

  /** References after the deletions: those to a deleted copy's inter-library loan are cleared. */
  function Cleared(u: Uses, c: Catalog): Uses { u.(illCopies := u.illCopies * c.copies.Keys) }

  /** Whatever happened since the commit, a rollback that goes through deletes only what the batch created: every
      created copy without loan or assigned hold, every created edition left without copies, every created work left
      without editions; nothing that stays refers to anything deleted, and works that stay lose exactly the author and
      subject links the batch recorded as added. */
  lemma RollbackAfterUse(c: Catalog, rs: seq<Result>, u: Uses)
    requires Integral(c) && UsesExist(c, u) && Rollback(c, rs, u).RolledBack?
    ensures var d := Rollback(c, rs, u).after;
            && Integral(d) && UsesExist(d, Cleared(u, d))
            && (forall k | k in c.copies ::
                  k in d.copies <==> k !in CreatedCopies(rs) || k in u.loanedCopies || k in u.assignedCopies)
            && (forall e | e in c.editions :: e in d.editions <==> e !in CreatedEditions(rs) || HasCopies(d, e))
            && (forall w | w in c.works :: w in d.works <==> w !in CreatedWorks(rs) || HasEditions(d, w))
            && d.copies.Keys <= c.copies.Keys && d.editions.Keys <= c.editions.Keys && d.works.Keys <= c.works.Keys
            && (forall k | k in d.copies :: d.copies[k] == c.copies[k])
            && (forall e | e in d.editions :: d.editions[e] == c.editions[e])
            && (forall w | w in d.works ::
                  d.works[w] == c.works[w].(authors := c.works[w].authors - AddedAuthors(rs, w),
                                            subjects := c.works[w].subjects - AddedSubjects(rs, w)))
  {
    hide CreatedCopies, CreatedEditions, CreatedWorks, AddedAuthors, AddedSubjects;
    var c1 := WithoutCopies(c, rs, u);
    var c2 := WithoutEditions(c1, rs);
    var c3 := WithoutWorks(c2, rs);
    var d := Detached(c3, rs);
    forall e ensures HasCopies(d, e) <==> HasCopies(c1, e) {
      if HasCopies(c1, e) {
        var k :| k in c1.copies && c1.copies[k].edition == e;
        assert k in d.copies && d.copies[k].edition == e;
      }
    }
    forall w ensures HasEditions(d, w) <==> HasEditions(c2, w) {
      if HasEditions(c2, w) {
        var e :| e in c2.editions && c2.editions[e].work == w;
        assert e in d.editions && d.editions[e].work == w;
      }
    }
    IntegralAfter(c, rs, u);
  }

  lemma IntegralAfter(c: Catalog, rs: seq<Result>, u: Uses)
    requires Integral(c) && Rollback(c, rs, u).RolledBack?
    ensures Integral(Rollback(c, rs, u).after)
  {
    hide CreatedCopies, CreatedEditions, CreatedWorks, AddedAuthors, AddedSubjects;
    var c1 := WithoutCopies(c, rs, u);
    var c2 := WithoutEditions(c1, rs);
    var d := Rollback(c, rs, u).after;
    forall k | k in d.copies ensures d.copies[k].edition in d.editions {
      assert k in c1.copies && c1.copies[k].edition == d.copies[k].edition;
      assert HasCopies(c1, d.copies[k].edition);
    }
    forall e | e in d.editions ensures d.editions[e].work in d.works {
      assert e in c2.editions && c2.editions[e].work == d.editions[e].work;
      assert HasEditions(c2, d.editions[e].work);
    }
  }

  /** All copies of edition `e` are deletable. */
  predicate Emptied(c: Catalog, rs: seq<Result>, u: Uses, e: Id) {
    forall k | k in c.copies && c.copies[k].edition == e :: k in DeletableCopies(c, rs, u)
  }

  /** The batch created work `w` and all its editions, and all their copies are deletable: nothing of it would stay. */
  predicate Vanishes(c: Catalog, rs: seq<Result>, u: Uses, w: Id) {
    && w in c.works && w in CreatedWorks(rs)
    && forall e | e in c.editions && c.editions[e].work == w :: e in CreatedEditions(rs) && Emptied(c, rs, u, e)
  }

  /** The rollback aborts exactly when it would have to delete a created edition on an order or lent digitally, or a
      created work with holds or inter-library requests: one whose copies, and then editions, are all deletable. */
  lemma AbortsExactly(c: Catalog, rs: seq<Result>, u: Uses)
    ensures Rollback(c, rs, u).Aborted? <==>
            || (exists e :: e in c.editions && e in CreatedEditions(rs)
                            && (e in u.orderedEditions || e in u.lentEditions) && Emptied(c, rs, u, e))
            || (exists w :: (w in u.heldWorks || w in u.illWorks) && Vanishes(c, rs, u, w))
  {
    hide CreatedCopies, CreatedEditions, CreatedWorks, DeletableCopies;
    var c1 := WithoutCopies(c, rs, u);
    var c2 := WithoutEditions(c1, rs);
    forall e ensures HasCopies(c1, e) <==>
           !(forall k | k in c.copies && c.copies[k].edition == e :: k in DeletableCopies(c, rs, u)) {
      if k :| k in c.copies && c.copies[k].edition == e && k !in DeletableCopies(c, rs, u) {
        assert k in c1.copies && c1.copies[k].edition == e;
      }
    }
    forall w ensures HasEditions(c2, w) <==> !(forall e | e in c.editions && c.editions[e].work == w ::
                                                 e in CreatedEditions(rs) && !HasCopies(c1, e)) {
      if e :| e in c.editions && c.editions[e].work == w && !(e in CreatedEditions(rs) && !HasCopies(c1, e)) {
        assert e in c2.editions && c2.editions[e].work == w;
      }
    }
    assert c2.works == c.works && c1.editions == c.editions;
  }

  /** Each copy asked for or out on an inter-library loan is a copy of the work its request names. */
  predicate RequestsMatch(c: Catalog, u: Uses) {
    forall k | k in u.illCopies && k in c.copies && c.copies[k].edition in c.editions ::
      c.editions[c.copies[k].edition].work in u.illWorks
  }

  /** A created copy out on an inter-library loan is not protected itself, only its work is: a rollback that goes
      through deletes the copy with the loan still open and keeps the work; it aborts if nothing of the work would
      stay, and for that reason alone if the catalog has no other uses. */
  lemma LentCopyIsDeleted(c: Catalog, rs: seq<Result>, u: Uses, k: Id)
    requires Integral(c) && RequestsMatch(c, u)
    requires k in c.copies && k in CreatedCopies(rs) && k in u.illCopies && k !in u.loanedCopies
        && k !in u.assignedCopies
    ensures var w, r := c.editions[c.copies[k].edition].work, Rollback(c, rs, u);
            && (Vanishes(c, rs, u, w) ==> r.Aborted?)
            && (r.RolledBack? ==> k !in r.after.copies && w in r.after.works)
            && (u.orderedEditions == u.lentEditions == u.heldWorks == {} && u.illWorks == {w} ==>
                (r.RolledBack? <==> !Vanishes(c, rs, u, w)))
  {
    hide Vanishes, Rollback, CreatedWorks, CreatedEditions;
    AbortsExactly(c, rs, u);
    if Rollback(c, rs, u).RolledBack? {
      LentCopyGone(c, rs, u, k);
    }
  }

  lemma LentCopyGone(c: Catalog, rs: seq<Result>, u: Uses, k: Id)
    requires Integral(c) && RequestsMatch(c, u) && Rollback(c, rs, u).RolledBack?
    requires k in c.copies && k in CreatedCopies(rs) && k in u.illCopies && k !in u.loanedCopies
        && k !in u.assignedCopies
    ensures k !in Rollback(c, rs, u).after.copies
    ensures c.editions[c.copies[k].edition].work in Rollback(c, rs, u).after.works
  {
    hide CreatedCopies, CreatedEditions, CreatedWorks, AddedAuthors, AddedSubjects, HasCopies, HasEditions;
    assert k in DeletableCopies(c, rs, u);
  }
}
