/** Export and import agree: an edition written as MARC, read back and mapped to an import row keeps its texts exactly
    when cleaning leaves them alone, and its lists exactly when their names can also be told apart. */
module CatalogMarcProofs {
  import opened Common
  import opened Iso2709
  import opened Iso2709Proofs
  import opened CatalogMarc

  // ---------------------------------------------------------------- lists of names

  /** The cleaned names, blank ones dropped. */
  function CleanAll(names: seq<Bytes>): (r: seq<Bytes>)
    ensures |r| <= |names|
  {
    if names == [] then []
    else
      var last := Clean(names[|names| - 1]);
      CleanAll(names[..|names| - 1]) + if last == [] then [] else [last]
  }

  lemma {:induction false} CleanAllFixed(names: seq<Bytes>)
    ensures CleanAll(names) == names <==> forall n | n in names :: n != [] && Tidy(n)
  {
    hide Clean, Tidy;
    if names != [] {
      var n := |names| - 1;
      CleanAllFixed(names[..n]);
      CleanFixed(names[n]);
      assert names == names[..n] + [names[n]];
      assert forall x :: x in names <==> x in names[..n] || x == names[n];
      if CleanAll(names) == names {
        assert Clean(names[n]) != [];
        assert CleanAll(names)[..n] == CleanAll(names[..n]) && CleanAll(names)[n] == Clean(names[n]);
      }
    }
  }

  predicate Separable(s: Bytes) { SEMICOLON !in s && BAR !in s }

  lemma {:induction false} ReplaceResult(s: Bytes, b: Byte, with: Byte)
    requires b != with
    ensures b !in Replace(s, b, with) && (b !in s ==> Replace(s, b, with) == s)
  {
    if s != [] {
      ReplaceResult(s[..|s| - 1], b, with);
      assert s == s[..|s| - 1] + [s[|s| - 1]];
    }
  }

  lemma {:induction false} SplitWhole(s: Bytes, d: Byte)
    requires d !in s
    ensures Split(s, d) == [s]
  {
    if s != [] {
      SplitWhole(s[..|s| - 1], d);
      assert s == s[..|s| - 1] + [s[|s| - 1]];
    }
  }

  lemma {:induction false} SplitWithin(s: Bytes, d: Byte, x: Byte)
    requires x !in s
    ensures forall p | p in Split(s, d) :: x !in p
  {
    if s != [] {
      SplitWithin(s[..|s| - 1], d, x);
    }
  }

  lemma {:induction false} JoinWithout(names: seq<Bytes>, b: Byte)
    requires b != SEMICOLON && forall n | n in names :: b !in n
    ensures b !in Join(names)
  {
    if |names| > 1 {
      JoinWithout(names[..|names| - 1], b);
    }
  }

  lemma {:induction false} SplitJoined(names: seq<Bytes>)
    requires names != [] && forall n | n in names :: SEMICOLON !in n
    ensures Split(Join(names), SEMICOLON) == names
  {
    hide Split;
    var n := |names| - 1;
    if n == 0 {
      SplitWhole(names[0], SEMICOLON);
    } else {
      SplitJoined(names[..n]);
      SplitAppend(Join(names[..n]), names[n], SEMICOLON);
      assert names == names[..n] + [names[n]];
    }
  }

  predicate Trimmed(s: Bytes) { s != [] && Strip(s) == s }

  lemma {:induction false} StripAllFixed(names: seq<Bytes>)
    requires forall n | n in names :: Trimmed(n)
    ensures StripAll(names) == names
  {
    if names != [] {
      var k := |names| - 1;
      StripAllFixed(names[..k]);
      assert Trimmed(names[k]);
      assert names == names[..k] + [names[k]];
    }
  }

  /** Separable, stripped, nonblank names come back from the column they are joined into. */
  lemma SplitOfJoin(names: seq<Bytes>)
    requires forall n | n in names :: Trimmed(n) && Separable(n)
    ensures SplitMulti(Join(names)) == names
  {
    hide Split, StripAll, Strip, Replace;
    JoinWithout(names, BAR);
    ReplaceResult(Join(names), BAR, SEMICOLON);
    if names == [] {
      SplitWhole([], SEMICOLON);
      NothingStripped();
    } else {
      SplitJoined(names);
      StripAllFixed(names);
    }
  }

  lemma NothingStripped()
    ensures StripAll([[]]) == []
  {
    var parts: seq<Bytes> := [[]];
    assert parts[..0] == [];
  }

  lemma {:induction false} StripAllWithin(parts: seq<Bytes>, x: Byte)
    requires forall p | p in parts :: x !in p
    ensures forall p | p in StripAll(parts) :: x !in p
  {
    hide Strip;
    if parts != [] {
      StripAllWithin(parts[..|parts| - 1], x);
      StripWithin(parts[|parts| - 1], x);
      assert parts[|parts| - 1] in parts;
    }
  }

  lemma StripWithin(s: Bytes, x: Byte)
    requires x !in s
    ensures x !in Strip(s)
  {
    StripLeftResult(s);
    StripRightResult(StripLeft(s));
  }

  lemma {:induction false} StripMarksWithin(s: Bytes, x: Byte)
    requires x !in s
    ensures x !in StripMarks(s)
  {
    if s != [] && IsMark(s[|s| - 1]) {
      StripMarksWithin(s[..|s| - 1], x);
    }
  }

  lemma CleanWithin(s: Bytes, x: Byte)
    requires x !in s
    ensures x !in Clean(s)
  {
    hide Strip, StripMarks;
    StripWithin(s, x);
    StripMarksWithin(Strip(s), x);
    StripWithin(StripMarks(Strip(s)), x);
  }

  lemma SplitSeparates(s: Bytes)
    ensures forall n | n in SplitMulti(s) :: Separable(n)
  {
    hide Split, StripAll, Replace;
    var t := Replace(s, BAR, SEMICOLON);
    ReplaceResult(s, BAR, SEMICOLON);
    SplitWithin(t, SEMICOLON, BAR);
    SplitPlain(t, SEMICOLON);
    StripAllWithin(Split(t, SEMICOLON), SEMICOLON);
    StripAllWithin(Split(t, SEMICOLON), BAR);
  }

  lemma {:induction false} CleanAllSeparable(names: seq<Bytes>)
    requires forall n | n in names :: Separable(n)
    ensures forall n | n in CleanAll(names) :: Trimmed(n) && Separable(n)
  {
    hide Clean, Strip;
    if names != [] {
      var last := names[|names| - 1];
      CleanAllSeparable(names[..|names| - 1]);
      assert last in names;
      CleanIsStripped(last);
      CleanWithin(last, SEMICOLON);
      CleanWithin(last, BAR);
    }
  }

  /** A name that can be told apart in a list column: nonempty, with nothing to cut at its ends, free of separators. */
  predicate NameOk(s: Bytes) { s != [] && Tidy(s) && Separable(s) }

  /** A list of names survives the trip through a list column exactly when every name can be told apart. */
  lemma NamesSurvive(names: seq<Bytes>)
    ensures SplitMulti(Join(CleanAll(names))) == names <==> forall n | n in names :: NameOk(n)
  {
    hide SplitMulti, Join, CleanAll, Clean, Strip, Separable, Tidy;
    CleanAllFixed(names);
    SplitSeparates(Join(CleanAll(names)));
    if forall n | n in names :: Separable(n) {
      CleanAllSeparable(names);
      SplitOfJoin(CleanAll(names));
    }
  }

  // ---------------------------------------------------------------- finding the exported fields again

  predicate Tagged(fields: seq<Field>, tag: Bytes) { forall f | f in fields :: f.tag == tag }

  lemma {:induction false} GetAppend(a: seq<Field>, b: seq<Field>, tag: Bytes)
    ensures Get(a + b, tag) == Get(a, tag) + Get(b, tag)
    decreases |b|
  {
    if b == [] {
      assert a + b == a;
    } else {
      GetAppend(a, b[..|b| - 1], tag);
      assert (a + b)[..|a + b| - 1] == a + b[..|b| - 1];
    }
  }

  lemma {:induction false} GetTagged(fields: seq<Field>, mine: Bytes, tag: Bytes)
    requires Tagged(fields, mine)
    ensures Get(fields, tag) == if tag == mine then fields else []
  {
    if fields != [] {
      GetTagged(fields[..|fields| - 1], mine, tag);
      assert fields[|fields| - 1] in fields;
      assert fields == fields[..|fields| - 1] + [fields[|fields| - 1]];
    }
  }

  lemma {:induction false} NamedTagged(tag: Bytes, ind1: Bytes, ind2: Bytes, names: seq<Bytes>)
    ensures Tagged(Named(tag, ind1, ind2, names), tag)
    ensures CleanNames(Named(tag, ind1, ind2, names)) == CleanAll(names)
  {
    hide Clean;
    if names != [] {
      var n := |names| - 1;
      NamedTagged(tag, ind1, ind2, names[..n]);
      var fields := Named(tag, ind1, ind2, names);
      assert fields[..n] == Named(tag, ind1, ind2, names[..n]) by { NamedLength(tag, ind1, ind2, names[..n]); }
      NamedLength(tag, ind1, ind2, names);
      assert fields[n] == DataField(tag, ind1, ind2, [Subfield(A, names[n])]);
      assert FirstOf(fields[n].subfields, A) == names[n];
    }
  }

  lemma {:induction false} NamedLength(tag: Bytes, ind1: Bytes, ind2: Bytes, names: seq<Bytes>)
    ensures |Named(tag, ind1, ind2, names)| == |names|
  {
    if names != [] {
      NamedLength(tag, ind1, ind2, names[..|names| - 1]);
    }
  }

  function If(tag: Bytes, mine: Bytes, fields: seq<Field>): seq<Field> { if tag == mine then fields else [] }

  lemma GetExported(e: Edition, tag: Bytes)
    ensures Get(ToFields(e), tag)
            == If(tag, ISBN, IsbnFields(e)) + If(tag, AUTHOR, AuthorFields(e)) + If(tag, TITLE, TitleFields(e))
               + If(tag, STATEMENT, StatementFields(e)) + If(tag, PUBLISHED, PublishedFields(e))
                   + If(tag, SUMMARY, SummaryFields(e))
               + If(tag, SUBJECT, SubjectFields(e)) + If(tag, ADDED_AUTHOR, AddedFields(e))
  {
    SegmentsTagged(e);
    hide Get, IsbnFields, AuthorFields, TitleFields, StatementFields, PublishedFields, SummaryFields, SubjectFields,
        AddedFields, Tagged;
    var s1 := IsbnFields(e);
    var s2 := s1 + AuthorFields(e);
    var s3 := s2 + TitleFields(e);
    var s4 := s3 + StatementFields(e);
    var s5 := s4 + PublishedFields(e);
    var s6 := s5 + SummaryFields(e);
    var s7 := s6 + SubjectFields(e);
    GetAppend(s7, AddedFields(e), tag);
    GetAppend(s6, SubjectFields(e), tag);
    GetAppend(s5, SummaryFields(e), tag);
    GetAppend(s4, PublishedFields(e), tag);
    GetAppend(s3, StatementFields(e), tag);
    GetAppend(s2, TitleFields(e), tag);
    GetAppend(s1, AuthorFields(e), tag);
    GetTagged(IsbnFields(e), ISBN, tag);
    GetTagged(AuthorFields(e), AUTHOR, tag);
    GetTagged(TitleFields(e), TITLE, tag);
    GetTagged(StatementFields(e), STATEMENT, tag);
    GetTagged(PublishedFields(e), PUBLISHED, tag);
    GetTagged(SummaryFields(e), SUMMARY, tag);
    GetTagged(SubjectFields(e), SUBJECT, tag);
    GetTagged(AddedFields(e), ADDED_AUTHOR, tag);
  }

  lemma SegmentsTagged(e: Edition)
    ensures Tagged(IsbnFields(e), ISBN) && Tagged(AuthorFields(e), AUTHOR) && Tagged(TitleFields(e), TITLE)
    ensures Tagged(StatementFields(e), STATEMENT) && Tagged(PublishedFields(e), PUBLISHED)
        && Tagged(SummaryFields(e), SUMMARY)
    ensures Tagged(SubjectFields(e), SUBJECT) && Tagged(AddedFields(e), ADDED_AUTHOR)
  {
    NamedTagged(AUTHOR, ONE, BLANK, e.authors[..Min(1, |e.authors|)]);
    NamedTagged(SUBJECT, BLANK, ZERO, e.subjects);
    NamedTagged(ADDED_AUTHOR, ONE, BLANK, e.authors[Min(1, |e.authors|)..]);
  }

  /** The tags written are different from one another and from the other tags an import looks for. */
  lemma TagsDiffer()
    ensures ISBN !in {AUTHOR, TITLE, STATEMENT, PUBLISHED, SUMMARY, SUBJECT, ADDED_AUTHOR}
    ensures AUTHOR !in {TITLE, STATEMENT, PUBLISHED, SUMMARY, SUBJECT, ADDED_AUTHOR}
    ensures TITLE !in {STATEMENT, PUBLISHED, SUMMARY, SUBJECT, ADDED_AUTHOR}
    ensures STATEMENT !in {PUBLISHED, SUMMARY, SUBJECT, ADDED_AUTHOR}
    ensures PUBLISHED !in {SUMMARY, SUBJECT, ADDED_AUTHOR} && SUMMARY !in {SUBJECT, ADDED_AUTHOR}
        && SUBJECT != ADDED_AUTHOR
    ensures {CORPORATE, IMPRINT, PERSON, PLACE, ADDED_CORPORATE} !! {ISBN, AUTHOR, TITLE, STATEMENT, PUBLISHED, SUMMARY,
                                                                     SUBJECT, ADDED_AUTHOR}
  {
    assert ISBN[0] == 0x30 && AUTHOR[0] == 0x31 && CORPORATE[0] == 0x31 && TITLE[0] == 0x32 && STATEMENT[0] == 0x32
           && IMPRINT[0] == 0x32;
    assert PUBLISHED[0] == 0x32 && SUMMARY[0] == 0x35 && PERSON[0] == 0x36 && SUBJECT[0] == 0x36 && PLACE[0] == 0x36;
    assert ADDED_AUTHOR[0] == 0x37 && ADDED_CORPORATE[0] == 0x37;
    assert AUTHOR[1] == 0x30 && CORPORATE[1] == 0x31 && TITLE[1] == 0x34 && STATEMENT[1] == 0x35 && IMPRINT[1] == 0x36
           && PUBLISHED[1] == 0x36;
    assert IMPRINT[2] == 0x30 && PUBLISHED[2] == 0x34 && PERSON[1] == 0x30 && SUBJECT[1] == 0x35 && PLACE[1] == 0x35;
    assert SUBJECT[2] == 0x30 && PLACE[2] == 0x31 && ADDED_AUTHOR[1] == 0x30 && ADDED_CORPORATE[1] == 0x31;
  }

  // ---------------------------------------------------------------- one edition

  lemma {:induction false} DigitsOnly(s: Bytes)
    requires forall b | b in s :: IsDigit(b)
    ensures Digits(s) == s && Strip(s) == s && StripMarks(s) == s && Without(s, HYPHEN) == s
  {
    StripFixed(s);
    if s != [] {
      assert IsDigit(s[0]) && IsDigit(s[|s| - 1]);
      DigitsOnly(s[..|s| - 1]);
      assert s == s[..|s| - 1] + [s[|s| - 1]];
    }
  }

  lemma {:induction false} WordOfDigits(s: Bytes)
    requires s != [] && forall b | b in s :: IsDigit(b)
    ensures UpToSpace(s) == s && FirstWord(s) == Some(s)
  {
    assert IsDigit(s[0]);
    StripLeftResult(s);
    if |s| > 1 {
      WordOfDigits(s[1..]);
      assert s == [s[0]] + s[1..];
    }
  }

  predicate IsbnOk(e: Edition) { e.isbn13 == [] || IsIsbn13(e.isbn13) }

  lemma IsbnRead(e: Edition)
    requires IsbnOk(e)
    ensures FindIsbn(IsbnFields(e)) == Some(e.isbn13)
  {
    if e.isbn13 != [] {
      DigitsOnly(e.isbn13);
      WordOfDigits(e.isbn13);
      hide FirstWord, Without;
    }
  }

  lemma YearRead(e: Edition)
    ensures Clean(YearText(e)) == YearText(e) && Digits(YearText(e)) == YearText(e)
  {
    if YearText(e) != [] { DecimalInt(e.year.value, 0); }
    DigitsOnly(YearText(e));
  }

  lemma AuthorsRead(e: Edition)
    ensures CleanNames(AuthorFields(e)) + CleanNames(AddedFields(e)) == CleanAll(e.authors)
    ensures CleanNames(SubjectFields(e)) == CleanAll(e.subjects)
  {
    var k := Min(1, |e.authors|);
    NamedTagged(AUTHOR, ONE, BLANK, e.authors[..k]);
    NamedTagged(ADDED_AUTHOR, ONE, BLANK, e.authors[k..]);
    NamedTagged(SUBJECT, BLANK, ZERO, e.subjects);
    CleanAllAppend(e.authors[..k], e.authors[k..]);
    assert e.authors == e.authors[..k] + e.authors[k..];
  }

  lemma {:induction false} CleanAllAppend(a: seq<Bytes>, b: seq<Bytes>)
    ensures CleanAll(a + b) == CleanAll(a) + CleanAll(b)
    decreases |b|
  {
    hide Clean;
    if b == [] {
      assert a + b == a;
    } else {
      CleanAllAppend(a, b[..|b| - 1]);
      assert (a + b)[..|a + b| - 1] == a + b[..|b| - 1];
    }
  }

  lemma FieldsFound(e: Edition)
    ensures Get(ToFields(e), ISBN) == IsbnFields(e) && Get(ToFields(e), TITLE) == TitleFields(e)
    ensures Get(ToFields(e), AUTHOR) == AuthorFields(e) && Get(ToFields(e), ADDED_AUTHOR) == AddedFields(e)
    ensures Get(ToFields(e), SUBJECT) == SubjectFields(e) && Get(ToFields(e), STATEMENT) == StatementFields(e)
    ensures Get(ToFields(e), PUBLISHED) == PublishedFields(e) && Get(ToFields(e), SUMMARY) == SummaryFields(e)
  {
    hide Get, ToFields, IsbnFields, AuthorFields, TitleFields, StatementFields, PublishedFields, SummaryFields,
        SubjectFields, AddedFields;
    TagsDiffer();
    GetExported(e, ISBN);
    GetExported(e, TITLE);
    GetExported(e, AUTHOR);
    GetExported(e, ADDED_AUTHOR);
    GetExported(e, SUBJECT);
    GetExported(e, STATEMENT);
    GetExported(e, PUBLISHED);
    GetExported(e, SUMMARY);
  }

  lemma FieldsAbsent(e: Edition)
    ensures Get(ToFields(e), CORPORATE) == Get(ToFields(e), ADDED_CORPORATE) == Get(ToFields(e), PLACE) == []
    ensures Get(ToFields(e), PERSON) == Get(ToFields(e), IMPRINT) == []
  {
    hide Get, ToFields, IsbnFields, AuthorFields, TitleFields, StatementFields, PublishedFields, SummaryFields,
        SubjectFields, AddedFields;
    TagsDiffer();
    GetExported(e, CORPORATE);
    GetExported(e, ADDED_CORPORATE);
    GetExported(e, PLACE);
    GetExported(e, PERSON);
    GetExported(e, IMPRINT);
  }

  lemma OneField(f: Field, code: Bytes)
    ensures FirstNonempty([f], code) == FirstOf(f.subfields, code)
  {
    assert [f][1..] == [];
  }

  /** Up to two subfields with different codes, each left out when empty. */
  lemma TwoSubfields(x: Bytes, s: Bytes, y: Bytes, t: Bytes)
    requires x != y
    ensures FirstOf(Given(x, s) + Given(y, t), x) == s && FirstOf(Given(x, s) + Given(y, t), y) == t
    ensures FirstOf([Subfield(x, s)] + Given(y, t), x) == s && FirstOf([Subfield(x, s)] + Given(y, t), y) == t
  {
    var tail := Given(y, t);
    assert t != [] ==> FirstOf(tail, y) == t;
    assert ([Subfield(x, s)] + tail)[1..] == tail;
    if t != [] {
      assert tail[1..] == [];
    }
    assert [] + tail == tail;
  }

  lemma ValuesRead(e: Edition)
    ensures FirstNonempty(TitleFields(e), A) == e.title && FirstNonempty(TitleFields(e), B) == e.subtitle
    ensures FirstNonempty(PublishedFields(e), B) == e.publisher && FirstNonempty(PublishedFields(e), C) == YearText(e)
    ensures FirstNonempty(StatementFields(e), A) == e.statement
    ensures FirstNonempty(SummaryFields(e), A) == Take(e.summary, SUMMARY_LIMIT)
  {
    hide YearText, FirstNonempty, FirstOf, Given;
    assert A != B && B != C by { assert A[0] == 0x61 && B[0] == 0x62 && C[0] == 0x63; }
    TwoSubfields(A, e.title, B, e.subtitle);
    TwoSubfields(B, e.publisher, C, YearText(e));
    OneField(TitleFields(e)[0], A);
    OneField(TitleFields(e)[0], B);
    NoValue(A);
    NoValue(B);
    NoValue(C);
    if PublishedFields(e) != [] {
      OneField(PublishedFields(e)[0], B);
      OneField(PublishedFields(e)[0], C);
    }
    if StatementFields(e) != [] {
      OneField(StatementFields(e)[0], A);
      OneSubfield(e.statement);
    }
    if SummaryFields(e) != [] {
      OneField(SummaryFields(e)[0], A);
      OneSubfield(Take(e.summary, SUMMARY_LIMIT));
    }
  }

  lemma OneSubfield(value: Bytes)
    ensures FirstOf([Subfield(A, value)], A) == value
  {}

  lemma NoValue(code: Bytes)
    ensures FirstNonempty([], code) == [] && FirstOf([], code) == []
  {}

  /** An exported record maps back to a row holding each text cleaned, the lists cleaned and joined, the number
      unchanged. */
  lemma ExportedRow(e: Edition)
    requires IsbnOk(e)
    ensures ToRow(ToFields(e))
        == Some(Row(Clean(e.title), Clean(e.subtitle), Join(CleanAll(e.authors)), Join(CleanAll(e.subjects)),
                                           e.isbn13, Clean(e.publisher), Take(YearText(e), 4), Clean(e.statement),
                                           Clean(Take(e.summary, SUMMARY_LIMIT))))
  {
    hide Get, ToFields, IsbnFields, AuthorFields, TitleFields, StatementFields, PublishedFields, SummaryFields,
        SubjectFields, AddedFields,
         Clean, Join, CleanAll, YearText, Take, Digits, FindIsbn, IsbnOk;
    FieldsFound(e);
    FieldsAbsent(e);
    IsbnRead(e);
    YearRead(e);
    AuthorsRead(e);
    ValuesRead(e);
    assert forall f: seq<Bytes> :: f + [] + [] == f && f + [] == f;
  }

  /** What the row, once its lists are split, has in common with the edition it was exported from. */
  predicate Agrees(e: Edition, row: Row) {
    && row.title == e.title && row.subtitle == e.subtitle && row.isbn13 == e.isbn13
    && SplitMulti(row.authors) == e.authors && SplitMulti(row.subjects) == e.subjects
    && row.publisher == e.publisher && row.statement == e.statement && row.summary == e.summary
         && row.year == YearText(e)
  }

  predicate YearOk(e: Edition) { e.year.Some? ==> e.year.value < 10000 }

  /** Texts with nothing to cut at their ends, names that can be told apart, a summary within the limit and a year of
      at most four digits. */
  predicate Faithful(e: Edition) {
    && Tidy(e.title) && Tidy(e.subtitle) && Tidy(e.publisher) && Tidy(e.statement) && Tidy(e.summary)
    && |e.summary| <= 900 && YearOk(e)
    && (forall n | n in e.authors :: NameOk(n)) && (forall n | n in e.subjects :: NameOk(n))
  }

  lemma CleanShortens(s: Bytes)
    ensures |Clean(s)| <= |s|
  {
    hide Strip, StripMarks;
    StripShortens(s);
    StripMarksResult(Strip(s));
    StripShortens(StripMarks(Strip(s)));
  }

  lemma YearFits(e: Edition)
    ensures Take(YearText(e), 4) == YearText(e) <==> YearOk(e)
  {
    if YearText(e) != [] {
      DecimalDigits(e.year.value, 4);
      assert Power10(4) == 10000;
    }
  }

  /** Export followed by import reproduces an edition exactly when it is faithful. */
  lemma ExportImportAgree(e: Edition)
    requires IsbnOk(e)
    ensures ToRow(ToFields(e)).Some? && (Agrees(e, ToRow(ToFields(e)).value) <==> Faithful(e))
  {
    hide ToRow, ToFields, Clean, Join, CleanAll, SplitMulti, YearText, Separable, Tidy;
    ExportedRow(e);
    CleanFixed(e.title);
    CleanFixed(e.subtitle);
    CleanFixed(e.publisher);
    CleanFixed(e.statement);
    CleanFixed(e.summary);
    NamesSurvive(e.authors);
    NamesSurvive(e.subjects);
    CleanShortens(Take(e.summary, SUMMARY_LIMIT));
    YearFits(e);
  }

  // ---------------------------------------------------------------- through the bytes

  /** Nothing in the exported texts is the subfield delimiter. */
  predicate Undelimited(e: Edition) {
    && DELIMITER !in e.isbn13 + e.title + e.subtitle + e.statement + e.publisher + e.summary
    && (forall n | n in e.authors :: DELIMITER !in n) && (forall n | n in e.subjects :: DELIMITER !in n)
  }

  predicate Writable(s: Subfield) { s.code in {A, B, C} && DELIMITER !in s.value && !EndsBlank(s.value) }

  lemma FieldCarried(tag: Bytes, ind1: Bytes, ind2: Bytes, subfields: seq<Subfield>)
    requires !IsControl(tag) && |ind1| == |ind2| == 1 && ind2[0] != FT && forall s | s in subfields :: Writable(s)
    ensures Shaped(DataField(tag, ind1, ind2, subfields)) && Carried(DataField(tag, ind1, ind2, subfields))
  {
    var f := DataField(tag, ind1, ind2, subfields);
    assert A[0] == 0x61 && B[0] == 0x62 && C[0] == 0x63;
    if subfields != [] {
      var last := subfields[|subfields| - 1];
      assert Writable(last);
      var before := ind1 + ind2 + Flat(subfields[..|subfields| - 1], SubfieldBytes);
      assert Content(f) == before + ([DELIMITER] + last.code + last.value);
      var tail := [DELIMITER] + last.code + last.value;
      assert tail[|tail| - 1] == if last.value == [] then last.code[0] else last.value[|last.value| - 1];
    } else {
      assert Content(f) == ind1 + ind2;
    }
    forall s | s in subfields ensures PlainSubfield(s) { assert Writable(s); }
  }

  predicate AllCarried(fields: seq<Field>) { forall f | f in fields :: Shaped(f) && Carried(f) }

  lemma {:induction false} NamedCarried(tag: Bytes, ind1: Bytes, ind2: Bytes, names: seq<Bytes>)
    requires !IsControl(tag) && |ind1| == |ind2| == 1 && ind2[0] != FT
    requires forall n | n in names :: DELIMITER !in n && !EndsBlank(n)
    ensures AllCarried(Named(tag, ind1, ind2, names))
  {
    hide Shaped, Carried;
    if names != [] {
      var n := |names| - 1;
      NamedCarried(tag, ind1, ind2, names[..n]);
      assert names[n] in names;
      FieldCarried(tag, ind1, ind2, [Subfield(A, names[n])]);
    }
  }

  /** The tags written are those of data fields. */
  lemma DataTags()
    ensures !IsControl(ISBN) && !IsControl(AUTHOR) && !IsControl(TITLE) && !IsControl(STATEMENT)
        && !IsControl(PUBLISHED)
    ensures !IsControl(SUMMARY) && !IsControl(SUBJECT) && !IsControl(ADDED_AUTHOR)
  {
    LaterTag(AUTHOR);
    LaterTag(TITLE);
    LaterTag(STATEMENT);
    LaterTag(PUBLISHED);
    LaterTag(SUMMARY);
    LaterTag(SUBJECT);
    LaterTag(ADDED_AUTHOR);
    var ten: Bytes := [0x30, 0x31, 0x30];
    assert ISBN[1..] == [0x32, 0x30] && ten[1..] == [0x31, 0x30];
    assert !Less(ISBN[1..], ten[1..]);
  }

  lemma LaterTag(tag: Bytes)
    requires tag != [] && tag[0] > 0x30
    ensures !IsControl(tag)
  {}

  lemma NamesPlain(names: seq<Bytes>)
    requires forall n | n in names :: NameOk(n) && DELIMITER !in n
    ensures forall n | n in names :: DELIMITER !in n && !EndsBlank(n)
  {
    forall n | n in names ensures !EndsBlank(n) {
      assert NameOk(n);
    }
  }

  lemma ListsCarried(e: Edition)
    requires Faithful(e) && Undelimited(e)
    ensures AllCarried(AuthorFields(e)) && AllCarried(SubjectFields(e)) && AllCarried(AddedFields(e))
  {
    hide NameOk, AllCarried, IsControl;
    DataTags();
    NamesPlain(e.authors);
    NamesPlain(e.subjects);
    var k := Min(1, |e.authors|);
    forall n | n in e.authors[..k] ensures n in e.authors {}
    forall n | n in e.authors[k..] ensures n in e.authors {}
    NamedCarried(AUTHOR, ONE, BLANK, e.authors[..k]);
    NamedCarried(ADDED_AUTHOR, ONE, BLANK, e.authors[k..]);
    NamedCarried(SUBJECT, BLANK, ZERO, e.subjects);
  }

  predicate Plain(s: Bytes) { DELIMITER !in s && !EndsBlank(s) }

  lemma PlainDigits(s: Bytes)
    requires forall b | b in s :: IsDigit(b)
    ensures Plain(s)
  {
    assert s != [] ==> s[|s| - 1] in s;
  }

  lemma TextsPlain(e: Edition)
    requires IsbnOk(e) && Faithful(e) && Undelimited(e)
    ensures Take(e.summary, SUMMARY_LIMIT) == e.summary
    ensures Plain(e.isbn13) && Plain(e.title) && Plain(e.subtitle) && Plain(e.statement) && Plain(e.publisher)
    ensures Plain(e.summary) && Plain(YearText(e))
  {
    if YearText(e) != [] { DecimalInt(e.year.value, 0); }
    PlainDigits(YearText(e));
    PlainDigits(e.isbn13);
  }

  lemma TextsCarried(e: Edition)
    requires IsbnOk(e) && Faithful(e) && Undelimited(e)
    ensures AllCarried(IsbnFields(e)) && AllCarried(TitleFields(e)) && AllCarried(StatementFields(e))
    ensures AllCarried(PublishedFields(e)) && AllCarried(SummaryFields(e))
  {
    hide Shaped, Carried, IsControl, YearText, EndsBlank, Faithful, Undelimited, IsbnOk;
    TextsPlain(e);
    DataTags();
    FieldCarried(ISBN, BLANK, BLANK, [Subfield(A, e.isbn13)]);
    FieldCarried(TITLE, ONE, ZERO, [Subfield(A, e.title)] + Given(B, e.subtitle));
    FieldCarried(STATEMENT, BLANK, BLANK, [Subfield(A, e.statement)]);
    FieldCarried(PUBLISHED, BLANK, ONE, Given(B, e.publisher) + Given(C, YearText(e)));
    FieldCarried(SUMMARY, BLANK, BLANK, [Subfield(A, e.summary)]);
  }

  /** A faithful edition without delimiter bytes is exported as a record the format carries, if its lengths fit. */
  lemma ExportWellFormed(e: Edition)
    requires IsbnOk(e) && Faithful(e) && Undelimited(e) && Fits(ToFields(e))
    ensures WellFormed(ToFields(e))
  {
    hide IsbnOk, Faithful, Undelimited, Fits, Shaped, Carried, IsbnFields, AuthorFields, TitleFields, StatementFields,
        PublishedFields,
         SummaryFields, SubjectFields, AddedFields;
    ListsCarried(e);
    TextsCarried(e);
  }

  function ToRecord(e: Edition): Record { Record(Leader(0, 0), ToFields(e)) }

  function Exported(editions: seq<Edition>): (r: seq<Record>)
    ensures |r| == |editions| && forall i | 0 <= i < |r| :: r[i] == ToRecord(editions[i])
  {
    seq(|editions|, i requires 0 <= i < |editions| => ToRecord(editions[i]))
  }

  /** A whole catalog of such editions, written to bytes and read back, gives one record per edition, in order, and each
      maps to a row that agrees with its edition. */
  lemma CatalogRoundTrip(editions: seq<Edition>, wide: Decoding)
    requires forall e | e in editions :: IsbnOk(e) && Faithful(e) && Undelimited(e) && Fits(ToFields(e))
    ensures var parsed := Parse(Write(Exported(editions)), wide);
            && parsed.Records? && |parsed.records| == |editions|
            && forall i | 0 <= i < |editions| ::
                 ToRow(parsed.records[i].fields).Some? && Agrees(editions[i], ToRow(parsed.records[i].fields).value)
  {
    hide IsbnOk, Faithful, Undelimited, Fits, WellFormed, ToFields, ToRow, Agrees, Parse, Write;
    var records := Exported(editions);
    forall r | r in records ensures WellFormed(r.fields) {
      var i :| 0 <= i < |records| && records[i] == r;
      assert editions[i] in editions;
      ExportWellFormed(editions[i]);
    }
    RoundTrip(records, wide);
    AllAsReadAt(records);
    forall i | 0 <= i < |editions|
      ensures ToRow(AllAsRead(records)[i].fields).Some?
          && Agrees(editions[i], ToRow(AllAsRead(records)[i].fields).value)
    {
      assert editions[i] in editions;
      ExportImportAgree(editions[i]);
    }
  }
}
