/** Tags that mean the same to the importer: records are read alike whichever of them carry their names and imprint. */
module MarcTags {
  import opened Common
  import opened Iso2709
  import opened CatalogMarc

  /** Every field under tag `from` put under tag `to` instead. */
  function Retag(fields: seq<Field>, from: Bytes, to: Bytes): (r: seq<Field>)
    ensures |r| == |fields|
  {
    if fields == [] then []
    else
      var last := fields[|fields| - 1];
      Retag(fields[..|fields| - 1], from, to) + [if last.tag == from then last.(tag := to) else last]
  }

  /** Looking up the new tag finds what stood under either, the old one nothing, any other tag what it did. */
  lemma {:induction false} GetRetagged(fields: seq<Field>, from: Bytes, to: Bytes, tag: Bytes)
    requires from != to && Get(fields, to) == []
    ensures |Get(Retag(fields, from, to), to)| == |Get(fields, from)|
    ensures forall i | 0 <= i < |Get(fields, from)| ::
              Get(Retag(fields, from, to), to)[i] == Get(fields, from)[i].(tag := to)
    ensures Get(Retag(fields, from, to), from) == []
    ensures tag != from && tag != to ==> Get(Retag(fields, from, to), tag) == Get(fields, tag)
  {
    if fields != [] {
      var n := |fields| - 1;
      GetRetagged(fields[..n], from, to, tag);
      var all := Retag(fields, from, to);
      assert all[..n] == Retag(fields[..n], from, to);
    }
  }

  /** The lookups used by the importer do not see the tag of the fields they are given. */
  lemma {:induction false} SameNames(a: seq<Field>, b: seq<Field>)
    requires |a| == |b| && forall i | 0 <= i < |a| :: a[i].subfields == b[i].subfields
    ensures CleanNames(a) == CleanNames(b)
  {
    if a != [] {
      SameNames(a[..|a| - 1], b[..|b| - 1]);
    }
  }

  lemma {:induction false} SameFirst(a: seq<Field>, b: seq<Field>, code: Bytes)
    requires |a| == |b| && forall i | 0 <= i < |a| :: a[i].subfields == b[i].subfields
    ensures FirstNonempty(a, code) == FirstNonempty(b, code)
  {
    if a != [] {
      SameFirst(a[1..], b[1..], code);
    }
  }

  lemma RetaggedReads(fields: seq<Field>, from: Bytes, to: Bytes, code: Bytes)
    requires from != to && Get(fields, to) == []
    ensures NamesIn(Retag(fields, from, to), to) == NamesIn(fields, from)
        && NamesIn(Retag(fields, from, to), from) == []
    ensures Value(Retag(fields, from, to), to, code) == Value(fields, from, code)
    ensures Value(Retag(fields, from, to), from, code) == []
  {
    GetRetagged(fields, from, to, to);
    SameNames(Get(Retag(fields, from, to), to), Get(fields, from));
    SameFirst(Get(Retag(fields, from, to), to), Get(fields, from), code);
    assert CleanNames([]) == [] && FirstNonempty([], code) == [];
  }

  lemma RetaggedOthers(fields: seq<Field>, from: Bytes, to: Bytes, tag: Bytes)
    requires from != to && Get(fields, to) == [] && tag != from && tag != to
    ensures Get(Retag(fields, from, to), tag) == Get(fields, tag)
  {
    GetRetagged(fields, from, to, tag);
  }

  /** The tags the importer reads. */
  const READ := {ISBN, AUTHOR, CORPORATE, TITLE, STATEMENT, IMPRINT, PUBLISHED, SUMMARY, PERSON, SUBJECT, PLACE,
                 ADDED_AUTHOR,
                 ADDED_CORPORATE}

  /** Tags read like the one before them: bodies like persons, places and persons like subjects, old imprints like
      new. */
  predicate Alike(from: Bytes, to: Bytes) {
    || (from == AUTHOR && to == CORPORATE)
    || (from == ADDED_AUTHOR && to == ADDED_CORPORATE)
    || (from == SUBJECT && to == PLACE)
    || (from == PLACE && to == PERSON)
    || (from == PUBLISHED && to == IMPRINT)
  }

  /** What the importer takes from a record, tag by tag. */
  lemma RowFromLookups(fields: seq<Field>, others: seq<Field>)
    requires forall tag | tag in READ :: NamesIn(fields, tag) == NamesIn(others, tag)
    requires forall tag, code | tag in READ :: Value(fields, tag, code) == Value(others, tag, code)
    requires Get(fields, ISBN) == Get(others, ISBN)
    ensures ToRow(fields) == ToRow(others)
  {
    hide NamesIn, Value, Clean, FindIsbn, Digits, Join;
  }

  lemma TagsApart()
    ensures CORPORATE !in {ISBN, AUTHOR, TITLE, STATEMENT, IMPRINT, PUBLISHED, SUMMARY, PERSON, SUBJECT, PLACE,
                           ADDED_AUTHOR}
    ensures ADDED_CORPORATE !in {ISBN, AUTHOR, TITLE, STATEMENT, IMPRINT, PUBLISHED, SUMMARY, PERSON, SUBJECT, PLACE,
                                 ADDED_AUTHOR, CORPORATE}
    ensures PLACE !in {ISBN, AUTHOR, TITLE, STATEMENT, IMPRINT, PUBLISHED, SUMMARY, PERSON, SUBJECT, ADDED_AUTHOR,
                       CORPORATE}
    ensures PERSON !in {ISBN, AUTHOR, TITLE, STATEMENT, IMPRINT, PUBLISHED, SUMMARY, SUBJECT, ADDED_AUTHOR, CORPORATE}
    ensures IMPRINT !in {ISBN, AUTHOR, TITLE, STATEMENT, PUBLISHED, SUMMARY, SUBJECT, ADDED_AUTHOR, CORPORATE}
    ensures AUTHOR !in {ISBN, TITLE, STATEMENT, PUBLISHED, SUMMARY, SUBJECT, ADDED_AUTHOR}
    ensures ADDED_AUTHOR !in {ISBN, TITLE, STATEMENT, PUBLISHED, SUMMARY, SUBJECT}
    ensures SUBJECT !in {ISBN, TITLE, STATEMENT, PUBLISHED, SUMMARY} && PUBLISHED !in {ISBN, TITLE, STATEMENT, SUMMARY}
  {
    assert ISBN[0] == 0x30 && AUTHOR[0] == CORPORATE[0] == 0x31
           && TITLE[0] == STATEMENT[0] == IMPRINT[0] == PUBLISHED[0] == 0x32;
    assert SUMMARY[0] == 0x35 && PERSON[0] == SUBJECT[0] == PLACE[0] == 0x36
           && ADDED_AUTHOR[0] == ADDED_CORPORATE[0] == 0x37;
    assert AUTHOR[1] == 0x30 && CORPORATE[1] == 0x31 && TITLE[1] == 0x34 && STATEMENT[1] == 0x35 && IMPRINT[1] == 0x36;
    assert PUBLISHED[1] == 0x36 && IMPRINT[2] == 0x30 && PUBLISHED[2] == 0x34;
    assert PERSON[1] == 0x30 && SUBJECT[1] == PLACE[1] == 0x35 && SUBJECT[2] == 0x30 && PLACE[2] == 0x31;
    assert ADDED_AUTHOR[1] == 0x30 && ADDED_CORPORATE[1] == 0x31;
  }

  lemma AlikeApart(from: Bytes, to: Bytes)
    requires Alike(from, to)
    ensures from != to && ISBN !in {from, to} && TITLE !in {from, to} && STATEMENT !in {from, to}
        && SUMMARY !in {from, to}
    ensures from in READ && to in READ
  {
    TagsApart();
  }

  /** Lookups in a record by every tag the importer reads, after retagging. */
  lemma LookupsRetagged(fields: seq<Field>, from: Bytes, to: Bytes, tag: Bytes, code: Bytes)
    requires from != to && Get(fields, to) == []
    ensures var moved := Retag(fields, from, to);
            && NamesIn(moved, tag) == (if tag == to then NamesIn(fields, from) else if tag == from then []
                                       else NamesIn(fields, tag))
            && Value(moved, tag, code)
               == (if tag == to then Value(fields, from, code) else if tag == from then []
                   else Value(fields, tag, code))
  {
    hide Clean;
    if tag == from || tag == to {
      RetaggedReads(fields, from, to, code);
    } else {
      RetaggedOthers(fields, from, to, tag);
    }
  }

  lemma NothingUnder(fields: seq<Field>, tag: Bytes, code: Bytes)
    requires Get(fields, tag) == []
    ensures NamesIn(fields, tag) == [] && Value(fields, tag, code) == []
  {}

  function AuthorNames(fields: seq<Field>): seq<Bytes> {
    NamesIn(fields, AUTHOR) + NamesIn(fields, CORPORATE) + NamesIn(fields, ADDED_AUTHOR)
        + NamesIn(fields, ADDED_CORPORATE)
  }

  function SubjectNames(fields: seq<Field>): seq<Bytes> {
    NamesIn(fields, SUBJECT) + NamesIn(fields, PLACE) + NamesIn(fields, PERSON)
  }

  lemma AuthorsAlike(fields: seq<Field>, from: Bytes, to: Bytes)
    requires Alike(from, to) && Get(fields, to) == []
    ensures AuthorNames(Retag(fields, from, to)) == AuthorNames(fields)
  {
    hide NamesIn, Value, Get, Retag;
    TagsApart();
    NothingUnder(fields, to, A);
    LookupsRetagged(fields, from, to, AUTHOR, A);
    LookupsRetagged(fields, from, to, CORPORATE, A);
    LookupsRetagged(fields, from, to, ADDED_AUTHOR, A);
    LookupsRetagged(fields, from, to, ADDED_CORPORATE, A);
  }

  lemma SubjectsAlike(fields: seq<Field>, from: Bytes, to: Bytes)
    requires Alike(from, to) && Get(fields, to) == []
    ensures SubjectNames(Retag(fields, from, to)) == SubjectNames(fields)
  {
    hide NamesIn, Value, Get, Retag;
    TagsApart();
    AlikeApart(from, to);
    NothingUnder(fields, to, A);
    LookupsRetagged(fields, from, to, SUBJECT, A);
    LookupsRetagged(fields, from, to, PLACE, A);
    LookupsRetagged(fields, from, to, PERSON, A);
  }

  lemma ImprintAlike(fields: seq<Field>, from: Bytes, to: Bytes, code: Bytes)
    requires Alike(from, to) && Get(fields, to) == []
    ensures var moved := Retag(fields, from, to);
            Either(Value(moved, PUBLISHED, code), Value(moved, IMPRINT, code))
            == Either(Value(fields, PUBLISHED, code), Value(fields, IMPRINT, code))
  {
    hide NamesIn, Value, Get, Retag;
    TagsApart();
    NothingUnder(fields, to, code);
    LookupsRetagged(fields, from, to, PUBLISHED, code);
    LookupsRetagged(fields, from, to, IMPRINT, code);
  }

  /** A record whose personal authors are given as corporate ones instead, or likewise for added authors, subjects,
      places and the imprint, is read as the same row. */
  lemma ReadAlike(fields: seq<Field>, from: Bytes, to: Bytes)
    requires Alike(from, to) && Get(fields, to) == []
    ensures ToRow(Retag(fields, from, to)) == ToRow(fields)
  {
    hide NamesIn, Value, Clean, FindIsbn, Digits, Join, Get, Retag, Either;
    AlikeApart(from, to);
    RetaggedOthers(fields, from, to, ISBN);
    AuthorsAlike(fields, from, to);
    SubjectsAlike(fields, from, to);
    ImprintAlike(fields, from, to, B);
    ImprintAlike(fields, from, to, C);
    LookupsRetagged(fields, from, to, TITLE, A);
    LookupsRetagged(fields, from, to, TITLE, B);
    LookupsRetagged(fields, from, to, STATEMENT, A);
    LookupsRetagged(fields, from, to, SUMMARY, A);
  }

  lemma GetSnoc(fields: seq<Field>, f: Field, tag: Bytes)
    ensures Get(fields + [f], tag) == Get(fields, tag) + if f.tag == tag then [f] else []
  {
    assert (fields + [f])[..|fields|] == fields;
  }

  /** A field of any other tag is not read. */
  lemma OtherTagsIgnored(fields: seq<Field>, f: Field)
    requires f.tag !in READ
    ensures ToRow(fields + [f]) == ToRow(fields)
  {
    hide Get, Clean, FindIsbn, Digits, Join, CleanNames, FirstNonempty;
    forall tag | tag in READ ensures Get(fields + [f], tag) == Get(fields, tag) {
      GetSnoc(fields, f, tag);
    }
    RowFromLookups(fields + [f], fields);
  }

  /** An old imprint is not read where a new one gives both publisher and date. */
  lemma NewImprintFirst(fields: seq<Field>, f: Field)
    requires f.tag == IMPRINT && Value(fields, PUBLISHED, B) != [] && Value(fields, PUBLISHED, C) != []
    ensures ToRow(fields + [f]) == ToRow(fields)
  {
    hide Get, Clean, FindIsbn, Digits, Join, CleanNames, FirstNonempty;
    TagsApart();
    forall tag | tag in READ && tag != IMPRINT ensures Get(fields + [f], tag) == Get(fields, tag) {
      GetSnoc(fields, f, tag);
    }
  }

  // ---------------------------------------------------------------- values, marks and numbers

  /** A field's value for a code is that of its first subfield with the code, even an empty one. */
  lemma {:induction false} FirstSubfield(subfields: seq<Subfield>, code: Bytes)
    ensures if exists s :: s in subfields && s.code == code then
              exists i: nat :: i < |subfields| && subfields[i].code == code
                && FirstOf(subfields, code) == subfields[i].value && forall k: nat | k < i :: subfields[k].code != code
            else FirstOf(subfields, code) == []
  {
    if subfields != [] {
      var rest := subfields[1..];
      FirstSubfield(rest, code);
      assert subfields == [subfields[0]] + rest;
      if subfields[0].code != code && exists s :: s in rest && s.code == code {
        var i: nat :| i < |rest| && rest[i].code == code && FirstOf(rest, code) == rest[i].value
                      && forall k: nat | k < i :: rest[k].code != code;
        assert subfields[i + 1] == rest[i];
        forall k: nat | k < i + 1 ensures subfields[k].code != code {
          if k > 0 { assert subfields[k] == rest[k - 1]; }
        }
      }
    }
  }

  /** The value read of a code is the first nonempty one among the fields of the tag, in order. */
  lemma {:induction false} FirstValue(fields: seq<Field>, code: Bytes)
    ensures FirstNonempty(fields, code) == [] <==> forall f | f in fields :: FirstOf(f.subfields, code) == []
    ensures FirstNonempty(fields, code) != [] ==>
              exists i: nat :: i < |fields| && FirstNonempty(fields, code) == FirstOf(fields[i].subfields, code)
                && forall k: nat | k < i :: FirstOf(fields[k].subfields, code) == []
  {
    hide FirstOf;
    if fields != [] {
      FirstValue(fields[1..], code);
      assert fields == [fields[0]] + fields[1..];
      if FirstOf(fields[0].subfields, code) == [] && FirstNonempty(fields, code) != [] {
        var i: nat :| i < |fields[1..]| && FirstNonempty(fields[1..], code) == FirstOf(fields[1..][i].subfields, code)
                      && forall k: nat | k < i :: FirstOf(fields[1..][k].subfields, code) == [];
        forall k: nat | k < i + 1 ensures FirstOf(fields[k].subfields, code) == [] {
          if k > 0 { assert fields[k] == fields[1..][k - 1]; }
        }
        assert fields[i + 1] == fields[1..][i];
      }
    }
  }

  /** Slash, comma, colon and semicolon are cut from the end of a tidy text, alone or after a space. */
  lemma CleanCutsMark(s: Bytes, mark: Byte)
    requires s != [] && Tidy(s) && mark in {0x2F, 0x2C, 0x3A, 0x3B}
    ensures Clean(s + [mark]) == s && Clean(s + [SPACE, mark]) == s
  {
    hide StripLeft, StripRight;
    StripFixed(s);
    StripFixed(s + [mark]);
    StripFixed(s + [SPACE, mark]);
    StripMarksResult(s);
    MarksCut(s, mark);
    MarksCut(s + [SPACE], mark);
    assert s + [SPACE] + [mark] == s + [SPACE, mark];
    BlankCut(s);
  }

  lemma MarksCut(s: Bytes, mark: Byte)
    requires s != [] && !EndsMark(s) && IsMark(mark)
    ensures StripMarks(s + [mark]) == s
  {
    assert (s + [mark])[..|s|] == s;
  }

  lemma BlankCut(s: Bytes)
    requires s != [] && Tidy(s)
    ensures Strip(s + [SPACE]) == s
  {
    var t := s + [SPACE];
    assert StripLeft(t) == t;
    assert t[..|s|] == s;
    assert StripRight(s) == s;
  }

  /** The first thirteen-digit number in the fields, hyphens aside, whatever else stands in the fields before it. */
  predicate NumberIn(f: Field, number: Bytes) {
    && FirstOf(f.subfields, A) != [] && FirstWord(Without(FirstOf(f.subfields, A), HYPHEN)) == Some(number)
    && |number| == 13 && forall b | b in number :: 0x30 <= b <= 0x39
  }

  lemma {:induction false} IsbnFound(fields: seq<Field>)
    requires FindIsbn(fields).Some?
    ensures FindIsbn(fields).value == [] <==> forall f, number | f in fields :: !NumberIn(f, number)
    ensures FindIsbn(fields).value != [] ==>
              exists i: nat :: i < |fields| && NumberIn(fields[i], FindIsbn(fields).value)
                && forall k: nat, number | k < i :: !NumberIn(fields[k], number)
  {
    hide FirstOf, FirstWord, Without, IsIsbn13;
    if fields != [] {
      assert fields == [fields[0]] + fields[1..];
      Isbn13NotEmpty();
      if forall number :: !NumberIn(fields[0], number) {
        LaterIsbn(fields);
        IsbnFound(fields[1..]);
        if FindIsbn(fields).value != [] {
          var i: nat :| i < |fields[1..]| && NumberIn(fields[1..][i], FindIsbn(fields).value)
                        && forall k: nat, number | k < i :: !NumberIn(fields[1..][k], number);
          forall k: nat, number | k < i + 1 ensures !NumberIn(fields[k], number) {
            if k > 0 { assert fields[k] == fields[1..][k - 1]; }
          }
          assert fields[i + 1] == fields[1..][i];
        }
      } else {
        var number :| NumberIn(fields[0], number);
        HereIsbn(fields, number);
        assert fields[0] in fields;
      }
    }
  }

  lemma HereIsbn(fields: seq<Field>, number: Bytes)
    requires fields != [] && NumberIn(fields[0], number)
    ensures FindIsbn(fields) == Some(number)
  {
    hide FirstOf, FirstWord, Without;
  }

  lemma {:induction false} LaterIsbn(fields: seq<Field>)
    requires fields != [] && FindIsbn(fields).Some? && forall number :: !NumberIn(fields[0], number)
    ensures FindIsbn(fields) == FindIsbn(fields[1..])
  {
    var a := FirstOf(fields[0].subfields, A);
    if a != [] && FirstWord(Without(a, HYPHEN)).Some? {
      assert !NumberIn(fields[0], FirstWord(Without(a, HYPHEN)).value);
    }
    hide FirstOf, FirstWord, Without, IsIsbn13;
  }

  lemma Isbn13NotEmpty()
    ensures !IsIsbn13([])
  {}

  /** A number of thirteen digits is read however hyphens divide it. */
  lemma HyphenatedIsbnRead(f: Field)
    requires IsIsbn13(Without(FirstOf(f.subfields, A), HYPHEN))
    ensures FindIsbn([f]) == Some(Without(FirstOf(f.subfields, A), HYPHEN))
  {
    hide FirstOf;
    var number := Without(FirstOf(f.subfields, A), HYPHEN);
    DigitsAreAWord(number);
    hide Without, FirstWord;
    assert [f][0] == f;
  }

  lemma {:induction false} NoSpaceNoCut(s: Bytes)
    requires forall b | b in s :: IsDigit(b)
    ensures UpToSpace(s) == s
  {
    if s != [] {
      NoSpaceNoCut(s[1..]);
      assert IsDigit(s[0]) && !IsSpace(s[0]);
      assert s == [s[0]] + s[1..];
    }
  }

  lemma DigitsAreAWord(s: Bytes)
    requires s != [] && forall b | b in s :: IsDigit(b)
    ensures FirstWord(s) == Some(s)
  {
    NoSpaceNoCut(s);
    assert IsDigit(s[0]);
  }

  /** A publication year is written in digits that read back as it, and left out exactly if it is unknown or not
      positive. */
  lemma YearReadsBack(e: Edition)
    ensures YearText(e) == [] <==> e.year.None? || e.year.value <= 0
    ensures YearText(e) != [] ==> Int(YearText(e)) == e.year
  {
    if YearText(e) != [] { DecimalInt(e.year.value, 0); }
  }

  lemma {:induction false} DigitsAppend(s: Bytes, t: Bytes)
    ensures Digits(s + t) == Digits(s) + Digits(t)
  {
    if t == [] {
      assert s + t == s;
    } else {
      DigitsAppend(s, t[..|t| - 1]);
      assert (s + t)[..|s| + |t| - 1] == s + t[..|t| - 1];
    }
  }

  lemma {:induction false} DigitsKept(s: Bytes)
    ensures (forall b | b in s :: !IsDigit(b)) ==> Digits(s) == []
    ensures (forall b | b in s :: IsDigit(b)) ==> Digits(s) == s
  {
    if s != [] {
      DigitsKept(s[..|s| - 1]);
      assert s == s[..|s| - 1] + [s[|s| - 1]];
    }
  }

  /** The year read is the first four digits of the date, whatever stands around them. */
  lemma FirstYear(fields: seq<Field>, before: Bytes, year: Bytes, after: Bytes)
    requires Clean(Either(Value(fields, PUBLISHED, C), Value(fields, IMPRINT, C))) == before + year + after
    requires |year| == 4 && (forall b | b in year :: IsDigit(b)) && (forall b | b in before :: !IsDigit(b))
    ensures ToRow(fields).Some? ==> ToRow(fields).value.year == year
  {
    DigitsAppend(before + year, after);
    DigitsAppend(before, year);
    DigitsKept(before);
    DigitsKept(year);
    hide Digits, Clean, Value, Either, NamesIn, FindIsbn, Join;
  }
}
