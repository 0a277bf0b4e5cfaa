/** The mapping loops between editions, MARC records and import rows, proved against their specification. */
module MarcExchange {
  import opened Common
  import opened Iso2709
  import opened CatalogMarc

  /** The cleaned names of every field with one of the tags, tag by tag. */
  method CollectNames(fields: seq<Field>, tags: seq<Bytes>) returns (names: seq<Bytes>)
    ensures names == NamesUnder(fields, tags)
  {
    hide Clean;
    names := [];
    var t := 0;
    while t < |tags|
      invariant 0 <= t <= |tags|
      invariant names == NamesUnder(fields, tags[..t])
    {
      assert tags[..t + 1][..t] == tags[..t];
      var found := Get(fields, tags[t]);
      ghost var before := names;
      var i := 0;
      while i < |found|
        invariant 0 <= i <= |found|
        invariant names == before + CleanNames(found[..i])
      {
        assert found[..i + 1][..i] == found[..i];
        var name := Clean(FirstOf(found[i].subfields, A));
        if name != [] {
          names := names + [name];
        }
        i := i + 1;
      }
      assert found[..i] == found;
      t := t + 1;
    }
    assert tags[..t] == tags;
  }

  function NamesUnder(fields: seq<Field>, tags: seq<Bytes>): seq<Bytes> {
    if tags == [] then [] else NamesUnder(fields, tags[..|tags| - 1]) + NamesIn(fields, tags[|tags| - 1])
  }

  method ReadIsbn(fields: seq<Field>) returns (isbn: Option<Bytes>)
    ensures isbn == FindIsbn(fields)
  {
    hide FirstOf, FirstWord, Without;
    var i := 0;
    while i < |fields|
      invariant 0 <= i <= |fields|
      invariant FindIsbn(fields[i..]) == FindIsbn(fields)
    {
      assert fields[i..][1..] == fields[i + 1..];
      var a := FirstOf(fields[i].subfields, A);
      if a != [] {
        var word := FirstWord(Without(a, HYPHEN));
        if word.None? { return None; }
        if IsIsbn13(word.value) { return word; }
      }
      i := i + 1;
    }
    return Some([]);
  }

  /** No row when reading the ISBN raises an error. */
  method MarcRecordToImportRow(record: Record) returns (row: Option<Row>)
    ensures row == ToRow(record.fields)
  {
    hide Clean, Get, CleanNames, FirstNonempty, FindIsbn, Join, Digits;
    var fields := record.fields;
    var isbn := ReadIsbn(Get(fields, ISBN));
    if isbn.None? { return None; }
    var authors := CollectNames(fields, [AUTHOR, CORPORATE, ADDED_AUTHOR, ADDED_CORPORATE]);
    var subjects := CollectNames(fields, [SUBJECT, PLACE, PERSON]);
    FourTags(fields, AUTHOR, CORPORATE, ADDED_AUTHOR, ADDED_CORPORATE);
    ThreeTags(fields, SUBJECT, PLACE, PERSON);
    var publisher := Clean(Either(Value(fields, PUBLISHED, B), Value(fields, IMPRINT, B)));
    var date := Clean(Either(Value(fields, PUBLISHED, C), Value(fields, IMPRINT, C)));
    return Some(Row(Clean(Value(fields, TITLE, A)), Clean(Value(fields, TITLE, B)), Join(authors), Join(subjects),
                    isbn.value, publisher, Take(Digits(date), 4),
                    Clean(Value(fields, STATEMENT, A)), Clean(Value(fields, SUMMARY, A))));
  }

  lemma ThreeTags(fields: seq<Field>, a: Bytes, b: Bytes, c: Bytes)
    ensures NamesUnder(fields, [a, b, c]) == NamesIn(fields, a) + NamesIn(fields, b) + NamesIn(fields, c)
  {
    hide NamesIn;
    assert [a, b, c][..2] == [a, b] && [a, b][..1] == [a] && [a][..0] == [];
    assert NamesUnder(fields, [a]) == NamesIn(fields, a);
  }

  lemma FourTags(fields: seq<Field>, a: Bytes, b: Bytes, c: Bytes, d: Bytes)
    ensures NamesUnder(fields, [a, b, c, d])
        == NamesIn(fields, a) + NamesIn(fields, b) + NamesIn(fields, c) + NamesIn(fields, d)
  {
    hide NamesIn;
    ThreeTags(fields, a, b, c);
    assert [a, b, c, d][..3] == [a, b, c];
  }

  /** The fields up to the edition statement. */
  method LeadingFields(e: Edition) returns (fields: seq<Field>)
    ensures fields == IsbnFields(e) + AuthorFields(e) + TitleFields(e) + StatementFields(e)
  {
    fields := [];
    if e.isbn13 != [] {
      fields := fields + [DataField(ISBN, BLANK, BLANK, [Subfield(A, e.isbn13)])];
    }
    assert fields == IsbnFields(e);
    OneNamed(AUTHOR, ONE, BLANK, e.authors);
    if e.authors != [] {
      fields := fields + [DataField(AUTHOR, ONE, BLANK, [Subfield(A, e.authors[0])])];
    }
    assert fields == IsbnFields(e) + AuthorFields(e);
    hide IsbnFields, AuthorFields;
    var title := [Subfield(A, e.title)];
    if e.subtitle != [] {
      title := title + [Subfield(B, e.subtitle)];
    }
    assert title == [Subfield(A, e.title)] + Given(B, e.subtitle);
    fields := fields + [DataField(TITLE, ONE, ZERO, title)];
    if e.statement != [] {
      fields := fields + [DataField(STATEMENT, BLANK, BLANK, [Subfield(A, e.statement)])];
    }
  }

  method PublicationFields(e: Edition) returns (fields: seq<Field>)
    ensures fields == PublishedFields(e) + SummaryFields(e)
  {
    hide Decimal;
    fields := [];
    var published: seq<Subfield> := [];
    if e.publisher != [] {
      published := published + [Subfield(B, e.publisher)];
    }
    if e.year.Some? && e.year.value > 0 {
      published := published + [Subfield(C, Decimal(e.year.value, 0))];
    }
    assert published == Given(B, e.publisher) + Given(C, YearText(e));
    if published != [] {
      fields := fields + [DataField(PUBLISHED, BLANK, ONE, published)];
    }
    if e.summary != [] {
      fields := fields + [DataField(SUMMARY, BLANK, BLANK, [Subfield(A, Take(e.summary, SUMMARY_LIMIT))])];
    }
  }

  method EditionToMarcRecord(e: Edition) returns (fields: seq<Field>)
    ensures fields == ToFields(e)
  {
    hide IsbnFields, AuthorFields, TitleFields, StatementFields, PublishedFields, SummaryFields, Named;
    fields := LeadingFields(e);
    var publication := PublicationFields(e);
    var subjects := NamedFields(SUBJECT, BLANK, ZERO, e.subjects);
    var more := NamedFields(ADDED_AUTHOR, ONE, BLANK, e.authors[Min(1, |e.authors|)..]);
    fields := fields + publication + subjects + more;
    assert fields == IsbnFields(e) + AuthorFields(e) + TitleFields(e) + StatementFields(e) + PublishedFields(e)
           + SummaryFields(e)
                     + subjects + more;
  }

  method NamedFields(tag: Bytes, ind1: Bytes, ind2: Bytes, names: seq<Bytes>) returns (fields: seq<Field>)
    ensures fields == Named(tag, ind1, ind2, names)
  {
    fields := [];
    var i := 0;
    while i < |names|
      invariant 0 <= i <= |names|
      invariant fields == Named(tag, ind1, ind2, names[..i])
    {
      assert names[..i + 1][..i] == names[..i];
      fields := fields + [DataField(tag, ind1, ind2, [Subfield(A, names[i])])];
      i := i + 1;
    }
    assert names[..i] == names;
  }

  lemma OneNamed(tag: Bytes, ind1: Bytes, ind2: Bytes, names: seq<Bytes>)
    ensures Named(tag, ind1, ind2, names[..Min(1, |names|)])
            == if names == [] then [] else [DataField(tag, ind1, ind2, [Subfield(A, names[0])])]
  {
    if names != [] {
      assert names[..1] == [names[0]] && names[..1][..0] == [];
    }
  }
}
