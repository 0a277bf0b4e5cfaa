/** Mapping catalog editions to MARC records for export, MARC records to import rows, and splitting a row's lists.

    Text is ASCII, held as bytes, so that records can be written with `Iso2709`. */
module CatalogMarc {
  import opened Common
  import opened Iso2709
  import opened Iso2709Proofs

  /** An edition with its work, as exported.  An empty text or no year is not exported. */
  datatype Edition = Edition(isbn13: Bytes, title: Bytes, subtitle: Bytes, authors: seq<Bytes>, subjects: seq<Bytes>,
                             statement: Bytes, publisher: Bytes, year: Option<nat>, summary: Bytes)

  /** An import row; an absent column is empty. */
  datatype Row = Row(title: Bytes, subtitle: Bytes, authors: Bytes, subjects: Bytes, isbn13: Bytes, publisher: Bytes,
                     year: Bytes, statement: Bytes, summary: Bytes)

  const ISBN: Bytes := [0x30, 0x32, 0x30]         // 020
  const AUTHOR: Bytes := [0x31, 0x30, 0x30]       // 100
  const CORPORATE: Bytes := [0x31, 0x31, 0x30]    // 110
  const TITLE: Bytes := [0x32, 0x34, 0x35]        // 245
  const STATEMENT: Bytes := [0x32, 0x35, 0x30]    // 250
  const IMPRINT: Bytes := [0x32, 0x36, 0x30]      // 260
  const PUBLISHED: Bytes := [0x32, 0x36, 0x34]    // 264
  const SUMMARY: Bytes := [0x35, 0x32, 0x30]      // 520
  const PERSON: Bytes := [0x36, 0x30, 0x30]       // 600
  const SUBJECT: Bytes := [0x36, 0x35, 0x30]      // 650
  const PLACE: Bytes := [0x36, 0x35, 0x31]        // 651
  const ADDED_AUTHOR: Bytes := [0x37, 0x30, 0x30] // 700
  const ADDED_CORPORATE: Bytes := [0x37, 0x31, 0x30] // 710

  const A: Bytes := [0x61]
  const B: Bytes := [0x62]
  const C: Bytes := [0x63]
  const ONE: Bytes := [0x31]
  const ZERO: Bytes := [0x30]
  const BLANK: Bytes := [SPACE]

  const SEMICOLON: Byte := 0x3B
  const BAR: Byte := 0x7C
  const HYPHEN: Byte := 0x2D

  const SUMMARY_LIMIT := 900

  // ---------------------------------------------------------------- Python's string operations

  predicate IsSpace(b: Byte) { 0x09 <= b <= 0x0D || 0x1C <= b <= 0x20 }

  /** Trailing punctuation cut from MARC values: slash, comma, colon, semicolon. */
  predicate IsMark(b: Byte) { b in {0x2F, 0x2C, 0x3A, SEMICOLON} }

  function StripLeft(s: Bytes): Bytes { if s != [] && IsSpace(s[0]) then StripLeft(s[1..]) else s }

  function StripRight(s: Bytes): Bytes { if s != [] && IsSpace(s[|s| - 1]) then StripRight(s[..|s| - 1]) else s }

  function Strip(s: Bytes): Bytes { StripRight(StripLeft(s)) }

  function StripMarks(s: Bytes): Bytes { if s != [] && IsMark(s[|s| - 1]) then StripMarks(s[..|s| - 1]) else s }

  function Clean(s: Bytes): Bytes { Strip(StripMarks(Strip(s))) }

  function Replace(s: Bytes, b: Byte, with: Byte): Bytes {
    if s == [] then [] else Replace(s[..|s| - 1], b, with) + [if s[|s| - 1] == b then with else s[|s| - 1]]
  }

  function Without(s: Bytes, b: Byte): Bytes {
    if s == [] then [] else Without(s[..|s| - 1], b) + if s[|s| - 1] == b then [] else [s[|s| - 1]]
  }

  function Digits(s: Bytes): Bytes {
    if s == [] then [] else Digits(s[..|s| - 1]) + if IsDigit(s[|s| - 1]) then [s[|s| - 1]] else []
  }

  function Take(s: Bytes, n: nat): Bytes { if |s| <= n then s else s[..n] }

  function UpToSpace(s: Bytes): Bytes { if s == [] || IsSpace(s[0]) then [] else [s[0]] + UpToSpace(s[1..]) }

  /** The first whitespace-separated word; there is none in blank text. */
  function FirstWord(s: Bytes): Option<Bytes> {
    var text := StripLeft(s);
    if text == [] then None else Some(UpToSpace(text))
  }

  function Join(names: seq<Bytes>): Bytes {
    if names == [] then []
    else if |names| == 1 then names[0]
    else Join(names[..|names| - 1]) + [SEMICOLON] + names[|names| - 1]
  }

  function StripAll(parts: seq<Bytes>): seq<Bytes> {
    if parts == [] then []
    else
      var last := Strip(parts[|parts| - 1]);
      StripAll(parts[..|parts| - 1]) + if last == [] then [] else [last]
  }

  /** A list column: semicolons and bars separate, blanks are dropped. */
  function SplitMulti(s: Bytes): seq<Bytes> { StripAll(Split(Replace(s, BAR, SEMICOLON), SEMICOLON)) }

  // ---------------------------------------------------------------- looking into a record

  function Get(fields: seq<Field>, tag: Bytes): seq<Field> {
    if fields == [] then []
    else Get(fields[..|fields| - 1], tag) + if fields[|fields| - 1].tag == tag then [fields[|fields| - 1]] else []
  }

  function FirstOf(subfields: seq<Subfield>, code: Bytes): Bytes {
    if subfields == [] then [] else if subfields[0].code == code then subfields[0].value
        else FirstOf(subfields[1..], code)
  }

  /** The first nonempty value of a code over fields of one tag. */
  function FirstNonempty(fields: seq<Field>, code: Bytes): Bytes {
    if fields == [] then []
    else
      var value := FirstOf(fields[0].subfields, code);
      if value != [] then value else FirstNonempty(fields[1..], code)
  }

  function Value(fields: seq<Field>, tag: Bytes, code: Bytes): Bytes { FirstNonempty(Get(fields, tag), code) }

  function CleanNames(fields: seq<Field>): seq<Bytes> {
    if fields == [] then []
    else
      var name := Clean(FirstOf(fields[|fields| - 1].subfields, A));
      CleanNames(fields[..|fields| - 1]) + if name == [] then [] else [name]
  }

  function NamesIn(fields: seq<Field>, tag: Bytes): seq<Bytes> { CleanNames(Get(fields, tag)) }

  predicate IsIsbn13(s: Bytes) { |s| == 13 && forall b | b in s :: IsDigit(b) }

  /** The first 13-digit number in the 020 fields; a field of only hyphens and blanks raises an error on the way. */
  function FindIsbn(fields: seq<Field>): Option<Bytes> {
    if fields == [] then Some([])
    else
      var a := FirstOf(fields[0].subfields, A);
      if a == [] then FindIsbn(fields[1..])
      else
        var word := FirstWord(Without(a, HYPHEN));
        if word.None? then None
        else if IsIsbn13(word.value) then Some(word.value)
        else FindIsbn(fields[1..])
  }

  function Either(a: Bytes, b: Bytes): Bytes { if a != [] then a else b }

  /** No row when reading the ISBN fails. */
  function ToRow(fields: seq<Field>): Option<Row> {
    var isbn := FindIsbn(Get(fields, ISBN));
    if isbn.None? then None
    else
      Some(Row(
        Clean(Value(fields, TITLE, A)),
        Clean(Value(fields, TITLE, B)),
        Join(NamesIn(fields, AUTHOR) + NamesIn(fields, CORPORATE) + NamesIn(fields, ADDED_AUTHOR)
             + NamesIn(fields, ADDED_CORPORATE)),
        Join(NamesIn(fields, SUBJECT) + NamesIn(fields, PLACE) + NamesIn(fields, PERSON)),
        isbn.value,
        Clean(Either(Value(fields, PUBLISHED, B), Value(fields, IMPRINT, B))),
        Take(Digits(Clean(Either(Value(fields, PUBLISHED, C), Value(fields, IMPRINT, C)))), 4),
        Clean(Value(fields, STATEMENT, A)),
        Clean(Value(fields, SUMMARY, A))))
  }

  // ---------------------------------------------------------------- building a record

  function DataField(tag: Bytes, ind1: Bytes, ind2: Bytes, subfields: seq<Subfield>): Field {
    Field(tag, ind1, ind2, subfields, [])
  }

  function Named(tag: Bytes, ind1: Bytes, ind2: Bytes, names: seq<Bytes>): seq<Field> {
    if names == [] then []
    else Named(tag, ind1, ind2, names[..|names| - 1]) + [DataField(tag, ind1, ind2, [Subfield(A, names[|names| - 1])])]
  }

  function Given(code: Bytes, text: Bytes): seq<Subfield> { if text == [] then [] else [Subfield(code, text)] }

  function YearText(e: Edition): Bytes { if e.year.Some? && e.year.value > 0 then Decimal(e.year.value, 0) else [] }

  function FieldIf(present: bool, f: Field): seq<Field> { if present then [f] else [] }

  function IsbnFields(e: Edition): seq<Field> {
    FieldIf(e.isbn13 != [], DataField(ISBN, BLANK, BLANK, [Subfield(A, e.isbn13)]))
  }

  function AuthorFields(e: Edition): seq<Field> { Named(AUTHOR, ONE, BLANK, e.authors[..Min(1, |e.authors|)]) }

  function TitleFields(e: Edition): seq<Field> {
    [DataField(TITLE, ONE, ZERO, [Subfield(A, e.title)] + Given(B, e.subtitle))]
  }

  function StatementFields(e: Edition): seq<Field> {
    FieldIf(e.statement != [], DataField(STATEMENT, BLANK, BLANK, [Subfield(A, e.statement)]))
  }

  function PublishedFields(e: Edition): seq<Field> {
    var subfields := Given(B, e.publisher) + Given(C, YearText(e));
    FieldIf(subfields != [], DataField(PUBLISHED, BLANK, ONE, subfields))
  }

  function SummaryFields(e: Edition): seq<Field> {
    FieldIf(e.summary != [], DataField(SUMMARY, BLANK, BLANK, [Subfield(A, Take(e.summary, SUMMARY_LIMIT))]))
  }

  function SubjectFields(e: Edition): seq<Field> { Named(SUBJECT, BLANK, ZERO, e.subjects) }

  function AddedFields(e: Edition): seq<Field> { Named(ADDED_AUTHOR, ONE, BLANK, e.authors[Min(1, |e.authors|)..]) }

  function ToFields(e: Edition): seq<Field> {
    IsbnFields(e) + AuthorFields(e) + TitleFields(e) + StatementFields(e) + PublishedFields(e) + SummaryFields(e)
        + SubjectFields(e)
    + AddedFields(e)
  }

  // ---------------------------------------------------------------- stripping

  lemma {:induction false} StripLeftResult(s: Bytes)
    ensures StripLeft(s) == [] || !IsSpace(StripLeft(s)[0])
    ensures s == [] || !IsSpace(s[0]) ==> StripLeft(s) == s
    ensures |StripLeft(s)| <= |s| && StripLeft(s) == s[|s| - |StripLeft(s)|..]
  {
    if s != [] && IsSpace(s[0]) {
      StripLeftResult(s[1..]);
    }
  }

  lemma {:induction false} StripRightResult(s: Bytes)
    ensures !EndsBlank(StripRight(s))
    ensures !EndsBlank(s) ==> StripRight(s) == s
    ensures |StripRight(s)| <= |s| && StripRight(s) == s[..|StripRight(s)|]
    ensures forall i | |StripRight(s)| <= i < |s| :: IsSpace(s[i])
  {
    if s != [] && IsSpace(s[|s| - 1]) {
      StripRightResult(s[..|s| - 1]);
    }
  }

  predicate EndsBlank(s: Bytes) { s != [] && IsSpace(s[|s| - 1]) }

  /** Text without blanks at its ends, and nothing else, is left alone by stripping. */
  lemma StripFixed(s: Bytes)
    ensures Strip(s) == s <==> s == [] || (!IsSpace(s[0]) && !EndsBlank(s))
    ensures Strip(Strip(s)) == Strip(s)
  {
    StripIsStripped(s);
    StripLeftResult(s);
    StripRightResult(s);
    StripLeftResult(Strip(s));
    StripRightResult(Strip(s));
  }

  lemma StripIsStripped(s: Bytes)
    ensures Strip(s) == [] || (!IsSpace(Strip(s)[0]) && !EndsBlank(Strip(s)))
  {
    StripLeftResult(s);
    StripRightResult(StripLeft(s));
  }

  lemma CleanIsStripped(s: Bytes)
    ensures Strip(Clean(s)) == Clean(s)
  {
    StripFixed(StripMarks(Strip(s)));
  }

  predicate EndsMark(s: Bytes) { s != [] && IsMark(s[|s| - 1]) }

  lemma {:induction false} StripMarksResult(s: Bytes)
    ensures |StripMarks(s)| <= |s| && (EndsMark(s) ==> |StripMarks(s)| < |s|) && (!EndsMark(s) ==> StripMarks(s) == s)
    ensures !EndsMark(StripMarks(s)) && StripMarks(s) == s[..|StripMarks(s)|]
    ensures forall i | |StripMarks(s)| <= i < |s| :: IsMark(s[i])
  {
    if EndsMark(s) {
      StripMarksResult(s[..|s| - 1]);
    }
  }

  lemma StripShortens(s: Bytes)
    ensures |Strip(s)| <= |s|
  {
    StripLeftResult(s);
    StripRightResult(StripLeft(s));
  }

  /** Nothing at either end that cleaning would cut: no blank first, no blank or mark last. */
  predicate Tidy(s: Bytes) { s == [] || (!IsSpace(s[0]) && !EndsBlank(s) && !EndsMark(s)) }

  /** Cleaning leaves a text alone exactly when its end bytes give it nothing to cut. */
  lemma CleanFixed(s: Bytes)
    ensures Clean(s) == s <==> Tidy(s)
  {
    hide Strip, StripMarks;
    StripFixed(s);
    StripMarksResult(s);
    CleanIsStripped(s);
    StripShortens(StripMarks(s));
  }

  /** A mark at `i`, blanks up to `j`, marks up to `k`, at least one of each, and nothing but blanks after them. */
  predicate MarksBehindBlank(s: Bytes, i: nat, j: nat, k: nat) {
    && i + 1 < j < k <= |s| && IsMark(s[i])
    && (forall n | i < n < j :: IsSpace(s[n])) && (forall n | j <= n < k :: IsMark(s[n]))
    && (forall n | k <= n < |s| :: IsSpace(s[n]))
  }

  ghost predicate HidesMark(s: Bytes) { exists i: nat, j: nat, k: nat :: MarksBehindBlank(s, i, j, k) }

  lemma {:induction false} LeftBlanks(s: Bytes)
    ensures |StripLeft(s)| <= |s| && forall i | 0 <= i < |s| - |StripLeft(s)| :: IsSpace(s[i])
  {
    StripLeftResult(s);
    if s != [] && IsSpace(s[0]) {
      LeftBlanks(s[1..]);
      forall i | 0 < i < |s| - |StripLeft(s)| ensures IsSpace(s[i]) {
        assert s[i] == s[1..][i - 1];
      }
    }
  }

  /** Stripping cuts out the part between the blanks at both ends. */
  lemma StripCuts(s: Bytes) returns (d: nat, k: nat)
    ensures d <= k <= |s| && Strip(s) == s[d..k] && (d < k ==> !IsSpace(s[d]) && !IsSpace(s[k - 1]))
    ensures (forall i | 0 <= i < d :: IsSpace(s[i])) && (forall i | k <= i < |s| :: IsSpace(s[i]))
  {
    hide StripLeft, StripRight;
    LeftBlanks(s);
    StripLeftResult(s);
    var left := StripLeft(s);
    StripRightResult(left);
    d := |s| - |left|;
    k := d + |StripRight(left)|;
    forall i | k <= i < |s| ensures IsSpace(s[i]) {
      assert s[i] == left[i - d];
    }
  }

  /** Where cleaning cuts: `s[d..k]` is stripped of blanks, `s[d..j]` of marks, `s[d..n]` of the blanks before those. */
  lemma CleanCuts(s: Bytes) returns (d: nat, n: nat, j: nat, k: nat)
    ensures d <= n <= j <= k <= |s| && Clean(s) == s[d..n]
    ensures (forall i | 0 <= i < d :: IsSpace(s[i])) && (forall i | k <= i < |s| :: IsSpace(s[i]))
    ensures (forall i | j <= i < k :: IsMark(s[i])) && (forall i | n <= i < j :: IsSpace(s[i]))
    ensures d < k ==> !IsSpace(s[k - 1])
    ensures (d < j ==> !IsMark(s[j - 1])) && (d < n ==> !IsSpace(s[n - 1]))
  {
    hide Strip, StripMarks;
    d, k := StripCuts(s);
    var t := s[d..k];
    StripMarksResult(t);
    j := d + |StripMarks(t)|;
    forall i | j <= i < k ensures IsMark(s[i]) {
      assert s[i] == t[i - d];
    }
    var u := s[d..j];
    assert u == StripMarks(t);
    var x, y := StripCuts(u);
    n := d + y;
    if d < j {
      assert u[0] == t[0] == s[d] && s[j - 1] == u[|u| - 1];
    }
    forall i | n <= i < j ensures IsSpace(s[i]) {
      assert s[i] == u[i - d];
    }
    NoBlankCut(u, x, y);
    if x == 0 {
      assert u[x..y] == s[d..n];
    }
  }

  lemma NoBlankCut(u: Bytes, x: nat, y: nat)
    requires x <= y <= |u| && (forall i | 0 <= i < x :: IsSpace(u[i])) && (u != [] ==> !IsSpace(u[0]))
    ensures x == 0
  {}

  /** A second cleaning changes nothing exactly when the first one left no mark at the end; it leaves one exactly when
      the text ends in a mark, blanks, marks again and perhaps blanks. */
  lemma CleanTwice(s: Bytes)
    ensures Clean(Clean(s)) == Clean(s) <==> !EndsMark(Clean(s))
    ensures Clean(Clean(s)) == Clean(s) <==> !HidesMark(s)
  {
    hide Clean, Strip;
    CleanFixed(Clean(s));
    CleanIsStripped(s);
    StripFixed(Clean(s));
    MarkLeft(s);
  }

  lemma MarkLeft(s: Bytes)
    ensures EndsMark(Clean(s)) <==> HidesMark(s)
  {
    hide Clean, Strip, StripMarks;
    var d, n, j, k := CleanCuts(s);
    if EndsMark(Clean(s)) {
      assert IsMark(s[n - 1]);
      assert MarksBehindBlank(s, n - 1, j, k);
    }
    if i: nat, x: nat, y: nat :| MarksBehindBlank(s, i, x, y) {
      assert IsMark(s[y - 1]) && !IsSpace(s[y - 1]) && !IsSpace(s[i]);
      assert d <= i && y == k;
      assert IsSpace(s[x - 1]) && !IsMark(s[x - 1]);
      assert x <= j;
      assert x == j;
      assert n == i + 1;
    }
  }

  /** Cleaning is not idempotent: marks behind a blank are uncovered by the first pass and only cut by the second. */
  lemma CleanNotIdempotent()
    ensures var s: Bytes := [0x61, 0x20, 0x2F, 0x20, 0x3A]; // "a / :"
            Clean(s) == [0x61, 0x20, 0x2F] && Clean(Clean(s)) == [0x61]
  {
    var s: Bytes := [0x61, 0x20, 0x2F, 0x20, 0x3A];
    var t: Bytes := [0x61, 0x20, 0x2F];
    StripFixed(s);
    assert StripMarks(s) == [0x61, 0x20, 0x2F, 0x20] by { assert s[..4] == [0x61, 0x20, 0x2F, 0x20]; }
    var u: Bytes := [0x61, 0x20, 0x2F, 0x20];
    assert StripRight(u) == t by { assert u[..3] == t; }
    StripFixed(t);
    var v: Bytes := [0x61, 0x20];
    assert StripMarks(t) == v by { assert t[..2] == v; }
    assert StripRight(v) == [0x61] by { assert v[..1] == [0x61]; }
  }
}
