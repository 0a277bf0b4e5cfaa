/** What a committed row leaves in the catalog: the records it names, found again by the row's own keys; keys stay
    unique and committing the row again changes nothing. */
module ImportedRows {
  import opened Common
  import opened CatalogImport

  // ---------------------------------------------------------------- what a row stores

  /** A created work has the row's slug, title, authors and subjects; an existing one keeps its own and gains the
      row's names. */
  lemma RowStoresWork(c: Catalog, org: Id, row: Row)
    requires CommitRow(c, org, row).1.Committed?
    ensures var (d, r) := CommitRow(c, org, row);
            && r.work in d.works && row.authors <= d.works[r.work].authors && row.subjects <= d.works[r.work].subjects
            && (r.workCreated ==> d.works[r.work] == Work(row.slug, row.title, row.authors, row.subjects))
            && (!r.workCreated ==>
                r.work in c.works && (c.works[r.work].slug == row.slug || c.works[r.work].title == row.title))
            && (r.workCreated <==> forall w | w in c.works ::
                c.works[w].slug != row.slug && c.works[w].title != row.title)
  {
    hide FindEdition, FindCopy;
    var found := FindWork(c, row);
    hide FindWork;
  }

  /** A created edition has each of the row's fields under its own name, and belongs to the row's work. */
  lemma RowStoresEdition(c: Catalog, org: Id, row: Row)
    requires CommitRow(c, org, row).1.Committed?
    ensures var (d, r) := CommitRow(c, org, row);
            && r.edition in d.editions
            && (r.editionCreated ==>
                var e := d.editions[r.edition];
                && e.work == r.work && e.isbn13 == row.isbn13 && e.isbn10 == row.isbn10
                && e.format == row.format && e.year == row.year)
  {
    hide FindWork, FindEdition, FindCopy;
  }

  /** A created copy is the organization's, of the row's edition, under the row's barcode. */
  lemma RowStoresCopy(c: Catalog, org: Id, row: Row)
    requires CommitRow(c, org, row).1.Committed? && row.barcode.Some?
    ensures var (d, r) := CommitRow(c, org, row);
            && r.copy.Some? && r.copy.value in d.copies
            && d.copies[r.copy.value].org == org && d.copies[r.copy.value].barcode == row.barcode.value
            && (r.copyCreated ==> d.copies[r.copy.value].edition == r.edition)
            && (r.copyCreated <==> forall k | k in c.copies :: c.copies[k].org == org ==>
                c.copies[k].barcode != row.barcode.value)
  {
    hide FindWork, FindEdition;
    var (c1, w, _) := PlaceWork(c, row);
    var c3 := PlaceEdition(LinkNames(c1, w, row), w, row).0;
    assert c3.copies == c.copies;
    CopyFound(c3, org, row.barcode.value);
    hide FindCopy;
  }

  lemma CopyFound(c: Catalog, org: Id, barcode: Id)
    ensures var k := FindCopy(c, org, barcode);
            && (k.Some? ==> k.value in c.copies && c.copies[k.value].org == org && c.copies[k.value].barcode == barcode)
            && (k.None? ==> forall k | k in c.copies :: c.copies[k].org == org ==> c.copies[k].barcode != barcode)
  {
    var found := CopiesByBarcode(c, org, barcode);
    assert forall k | k in c.copies && c.copies[k].org == org && c.copies[k].barcode == barcode :: k in found;
  }

  /** A row fails exactly on a uniqueness clash, or when the copy it would create is over the plan's limit. */
  lemma RowFails(c: Catalog, org: Id, row: Row)
    ensures CommitRow(c, org, row).1.Failed?
            <==> row.clash
                 || (row.barcode.Some? && !row.withinLimit
                     && forall k | k in c.copies :: c.copies[k].org == org ==> c.copies[k].barcode != row.barcode.value)
  {
    hide FindWork, FindEdition;
    var (c1, w, _) := PlaceWork(c, row);
    var c3 := PlaceEdition(LinkNames(c1, w, row), w, row).0;
    assert c3.copies == c.copies;
    if row.barcode.Some? { CopyFound(c3, org, row.barcode.value); }
    hide FindCopy;
  }

  /** The edition a row finds has its ISBN-13; or none has, and it has its ISBN-10; or none has either, and it is of the
      row's work, format and year; none is found only if none matches at all. */
  lemma EditionFound(c: Catalog, w: Id, row: Row)
    ensures var r := FindEdition(c, w, row);
            var by13 := exists e :: e in c.editions && row.isbn13.Some? && c.editions[e].isbn13 == row.isbn13;
            var by10 := exists e :: e in c.editions && row.isbn10.Some? && c.editions[e].isbn10 == row.isbn10;
            && (by13 ==> r.Some? && c.editions[r.value].isbn13 == row.isbn13)
            && (!by13 && by10 ==> r.Some? && c.editions[r.value].isbn10 == row.isbn10)
            && (!by13 && !by10 && r.Some? ==>
                var e := c.editions[r.value]; e.work == w && e.format == row.format && e.year == row.year)
            && (r.None? ==> forall e | e in c.editions ::
                              !(c.editions[e].work == w && c.editions[e].format == row.format
                                && c.editions[e].year == row.year))
  {
    if row.isbn13.Some? {
      assert forall e | e in c.editions && c.editions[e].isbn13 == row.isbn13 ::
             e in EditionsByIsbn13(c, row.isbn13.value);
    }
    if row.isbn10.Some? {
      assert forall e | e in c.editions && c.editions[e].isbn10 == row.isbn10 ::
             e in EditionsByIsbn10(c, row.isbn10.value);
    }
    assert forall e | e in c.editions && c.editions[e].work == w && c.editions[e].format == row.format
                      && c.editions[e].year == row.year :: e in EditionsOf(c, w, row.format, row.year);
  }

  // ---------------------------------------------------------------- keys stay unique

  predicate SlugsUnique(c: Catalog) {
    forall v, w | v in c.works && w in c.works && c.works[v].slug == c.works[w].slug :: v == w
  }

  predicate IsbnsUnique(c: Catalog) {
    && (forall e, f | e in c.editions && f in c.editions && c.editions[e].isbn13.Some?
                      && c.editions[e].isbn13 == c.editions[f].isbn13 :: e == f)
    && (forall e, f | e in c.editions && f in c.editions && c.editions[e].isbn10.Some?
                      && c.editions[e].isbn10 == c.editions[f].isbn10 :: e == f)
  }

  predicate BarcodesUnique(c: Catalog) {
    forall j, k | j in c.copies && k in c.copies && c.copies[j].org == c.copies[k].org
                  && c.copies[j].barcode == c.copies[k].barcode :: j == k
  }

  predicate KeysUnique(c: Catalog) { SlugsUnique(c) && IsbnsUnique(c) && BarcodesUnique(c) }

  /** An edition is created only if no edition has one of the row's numbers. */
  lemma CreatedForNewIsbns(c: Catalog, w: Id, row: Row)
    requires FindEdition(c, w, row).None?
    ensures forall e | e in c.editions ::
              && (row.isbn13.Some? ==> c.editions[e].isbn13 != row.isbn13)
              && (row.isbn10.Some? ==> c.editions[e].isbn10 != row.isbn10)
  {
    assert row.isbn13.Some? ==> forall e | e in c.editions :: e !in EditionsByIsbn13(c, row.isbn13.value);
    assert row.isbn10.Some? ==> forall e | e in c.editions :: e !in EditionsByIsbn10(c, row.isbn10.value);
  }

  lemma RowKeepsSlugs(c: Catalog, org: Id, row: Row)
    requires Integral(c) && SlugsUnique(c)
    ensures SlugsUnique(CommitRow(c, org, row).0)
  {
    RowWorks(c, org, row);
    if CommitRow(c, org, row).1.Committed? { RowStoresWork(c, org, row); }
    hide CommitRow;
  }

  lemma RowKeepsIsbns(c: Catalog, org: Id, row: Row)
    requires Integral(c) && IsbnsUnique(c)
    ensures IsbnsUnique(CommitRow(c, org, row).0)
  {
    RowEditions(c, org, row);
    var (d, r) := CommitRow(c, org, row);
    if r.Committed? && r.editionCreated {
      RowStoresEdition(c, org, row);
      EditionWasNew(c, org, row);
    }
    hide CommitRow;
  }

  lemma EditionWasNew(c: Catalog, org: Id, row: Row)
    requires CommitRow(c, org, row).1.Committed? && CommitRow(c, org, row).1.editionCreated
    ensures forall e | e in c.editions ::
              && (row.isbn13.Some? ==> c.editions[e].isbn13 != row.isbn13)
              && (row.isbn10.Some? ==> c.editions[e].isbn10 != row.isbn10)
  {
    hide FindWork, FindEdition, FindCopy;
    var (c1, w, _) := PlaceWork(c, row);
    var c2 := LinkNames(c1, w, row);
    assert c2.editions == c.editions;
    CreatedForNewIsbns(c2, w, row);
  }

  lemma RowKeepsBarcodes(c: Catalog, org: Id, row: Row)
    requires Integral(c) && BarcodesUnique(c)
    ensures BarcodesUnique(CommitRow(c, org, row).0)
  {
    RowCopies(c, org, row);
    var r := CommitRow(c, org, row).1;
    if r.Committed? && row.barcode.Some? { RowStoresCopy(c, org, row); }
    hide CommitRow;
  }

  /** However many rows are committed, slugs, both ISBNs and each organization's barcodes stay unique: what a row
      finds by its keys it never creates a second time. */
  lemma {:induction false} CommitKeepsUnique(c: Catalog, org: Id, rows: seq<Row>)
    requires Integral(c) && KeysUnique(c)
    ensures KeysUnique(Commit(c, org, rows).0)
  {
    hide CommitRow, Integral, SlugsUnique, IsbnsUnique, BarcodesUnique;
    if rows != [] {
      var before, row := rows[..|rows| - 1], rows[|rows| - 1];
      CommitKeepsUnique(c, org, before);
      CommitIntegral(c, org, before);
      var d := Commit(c, org, before).0;
      RowKeepsSlugs(d, org, row);
      RowKeepsIsbns(d, org, row);
      RowKeepsBarcodes(d, org, row);
    }
  }

  // ---------------------------------------------------------------- later rows land on the same records

  lemma RowKeepsSlugOf(c: Catalog, org: Id, row: Row, w: Id)
    requires Integral(c) && w in c.works
    ensures w in CommitRow(c, org, row).0.works && CommitRow(c, org, row).0.works[w].slug == c.works[w].slug
  {
    RowWorks(c, org, row);
    hide CommitRow;
  }

  lemma {:induction false} SlugStays(c: Catalog, org: Id, rows: seq<Row>, w: Id)
    requires Integral(c) && w in c.works
    ensures w in Commit(c, org, rows).0.works && Commit(c, org, rows).0.works[w].slug == c.works[w].slug
  {
    if rows != [] {
      hide CommitRow, Integral;
      SlugStays(c, org, rows[..|rows| - 1], w);
      CommitIntegral(c, org, rows[..|rows| - 1]);
      RowKeepsSlugOf(Commit(c, org, rows[..|rows| - 1]).0, org, rows[|rows| - 1], w);
    }
  }

  /** Once a work has a slug, every later row with that slug lands on it, whatever was committed in between. */
  lemma LaterRowLands(c: Catalog, org: Id, rows: seq<Row>, row: Row, w: Id)
    requires Integral(c) && KeysUnique(c) && w in c.works && c.works[w].slug == row.slug
    ensures var r := CommitRow(Commit(c, org, rows).0, org, row).1;
            r.Committed? ==> r.work == w && !r.workCreated
  {
    hide CommitRow, Commit, Integral, SlugsUnique, FindWork;
    var d := Commit(c, org, rows).0;
    CommitKeepsUnique(c, org, rows);
    SlugStays(c, org, rows, w);
    SlugFinds(d, row, w);
    if CommitRow(d, org, row).1.Committed? { RowUsesFound(d, org, row); }
  }

  lemma RowUsesFound(c: Catalog, org: Id, row: Row)
    requires FindWork(c, row).Some? && CommitRow(c, org, row).1.Committed?
    ensures CommitRow(c, org, row).1.work == FindWork(c, row).value && !CommitRow(c, org, row).1.workCreated
  {
    hide FindWork, FindEdition, FindCopy;
  }

  lemma SlugFinds(c: Catalog, row: Row, w: Id)
    requires SlugsUnique(c) && w in c.works && c.works[w].slug == row.slug
    ensures FindWork(c, row) == Some(w)
  {
    assert w in WorksBySlug(c, row.slug);
  }

  // ---------------------------------------------------------------- committing a row again

  lemma FirstOnly(ranks: map<Id, int>, x: Id)
    requires ranks == map[x := 0]
    ensures First(ranks) == Some(x)
  {
    assert x in ranks;
  }

  /** Looking the row up after it was committed finds the work it went to. */
  lemma WorkAgain(c: Catalog, d: Catalog, row: Row)
    requires Integral(c)
    requires var (c1, w, _) := PlaceWork(c, row); d.works == LinkNames(c1, w, row).works
    ensures FindWork(d, row) == Some(PlaceWork(c, row).1)
  {
    var (c1, w, created) := PlaceWork(c, row);
    assert forall v | v in c.works ::
           v in d.works && d.works[v].slug == c.works[v].slug && d.works[v].title == c.works[v].title;
    if created {
      assert forall v | v in c.works :: c.works[v].slug != row.slug;
      assert WorksBySlug(d, row.slug) == map[w := 0];
      FirstOnly(WorksBySlug(d, row.slug), w);
    } else {
      assert WorksBySlug(d, row.slug) == WorksBySlug(c, row.slug);
      assert WorksByTitle(d, row.title) == WorksByTitle(c, row.title);
    }
  }

  /** And the edition. */
  lemma EditionAgain(c: Catalog, w: Id, row: Row)
    requires c.nextEdition !in c.editions
    ensures var (d, e, _) := PlaceEdition(c, w, row); FindEdition(d, w, row) == Some(e)
  {
    var (d, e, created) := PlaceEdition(c, w, row);
    if created {
      CreatedForNewIsbns(c, w, row);
      if row.isbn13.Some? {
        assert EditionsByIsbn13(d, row.isbn13.value) == map[e := 0];
        FirstOnly(EditionsByIsbn13(d, row.isbn13.value), e);
      } else if row.isbn10.Some? {
        assert EditionsByIsbn10(d, row.isbn10.value) == map[e := 0];
        FirstOnly(EditionsByIsbn10(d, row.isbn10.value), e);
      } else {
        assert forall f | f in c.editions :: f !in EditionsOf(c, w, row.format, row.year);
        assert EditionsOf(d, w, row.format, row.year) == map[e := 0];
        FirstOnly(EditionsOf(d, w, row.format, row.year), e);
      }
    }
  }

  /** And the copy. */
  lemma CopyAgain(c: Catalog, org: Id, e: Id, barcode: Id)
    ensures var (d, k, _) := PlaceCopy(c, org, e, barcode); FindCopy(d, org, barcode) == Some(k)
  {
    var (d, k, created) := PlaceCopy(c, org, e, barcode);
    if created {
      CopyFound(c, org, barcode);
      assert CopiesByBarcode(d, org, barcode) == map[k := 0];
      FirstOnly(CopiesByBarcode(d, org, barcode), k);
    }
  }

  lemma FindEditionFrame(c: Catalog, d: Catalog, w: Id, row: Row)
    requires c.editions == d.editions
    ensures FindEdition(c, w, row) == FindEdition(d, w, row)
  {
    assert row.isbn13.Some? ==> EditionsByIsbn13(c, row.isbn13.value) == EditionsByIsbn13(d, row.isbn13.value);
    assert row.isbn10.Some? ==> EditionsByIsbn10(c, row.isbn10.value) == EditionsByIsbn10(d, row.isbn10.value);
    assert EditionsOf(c, w, row.format, row.year) == EditionsOf(d, w, row.format, row.year);
  }

  lemma FindCopyFrame(c: Catalog, d: Catalog, org: Id, barcode: Id)
    requires c.copies == d.copies
    ensures FindCopy(c, org, barcode) == FindCopy(d, org, barcode)
  {
    assert CopiesByBarcode(c, org, barcode) == CopiesByBarcode(d, org, barcode);
  }

  /** A row that finds all its records and adds no name changes nothing and creates nothing. */
  lemma RowFinds(d: Catalog, org: Id, row: Row, w: Id, e: Id)
    requires FindWork(d, row) == Some(w) && FindEdition(d, w, row) == Some(e) && !row.clash
    requires row.authors <= d.works[w].authors && row.subjects <= d.works[w].subjects
    requires row.authors + row.subjects <= d.names
    requires row.barcode.Some? ==> FindCopy(d, org, row.barcode.value).Some?
    ensures CommitRow(d, org, row)
         == (d, Committed(w, false, {}, {}, e, false,
                          if row.barcode.None? then None else FindCopy(d, org, row.barcode.value), false))
  {
    hide FindWork, FindEdition, FindCopy;
    var work := d.works[w];
    assert row.authors - work.authors == {} && row.subjects - work.subjects == {};
    assert work.authors + row.authors == work.authors && work.subjects + row.subjects == work.subjects;
    assert d.works[w := work] == d.works && d.names + row.authors + row.subjects == d.names;
    assert LinkNames(d, w, row) == d;
  }

  /** Committing is idempotent row by row: a committed row committed again lands on the same work, edition and copy,
      creates nothing, adds no link and leaves the catalog as it is. */
  lemma RowAgain(c: Catalog, org: Id, row: Row)
    requires Integral(c) && CommitRow(c, org, row).1.Committed?
    ensures var (d, r) := CommitRow(c, org, row);
            CommitRow(d, org, row) == (d, Committed(r.work, false, {}, {}, r.edition, false, r.copy, false))
  {
    hide FindWork, FindEdition, FindCopy, Integral;
    var (c1, w, _) := PlaceWork(c, row);
    var c2 := LinkNames(c1, w, row);
    var (c3, e, _) := PlaceEdition(c2, w, row);
    var d := CommitRow(c, org, row).0;
    NextIsFree(c);
    WorkAgain(c, d, row);
    EditionAgain(c2, w, row);
    FindEditionFrame(c3, d, w, row);
    if row.barcode.Some? {
      CopyAgain(c3, org, e, row.barcode.value);
      FindCopyFrame(PlaceCopy(c3, org, e, row.barcode.value).0, d, org, row.barcode.value);
    }
    RowFinds(d, org, row, w, e);
  }

  lemma NextIsFree(c: Catalog)
    requires Integral(c)
    ensures c.nextEdition !in c.editions && c.nextWork !in c.works && c.nextCopy !in c.copies
  {}
}
