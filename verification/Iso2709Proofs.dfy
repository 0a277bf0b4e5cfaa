/** Writing and parsing back: which fields survive exactly, how the directory tiles the data area, and the round trip
    of whole files. */
module Iso2709Proofs {
  import opened Common
  import opened Iso2709

  // ---------------------------------------------------------------- one field

  predicate EndsIn(s: Bytes, b: Byte) { s != [] && s[|s| - 1] == b }

  predicate PlainSubfield(s: Subfield) { DELIMITER !in s.code && DELIMITER !in s.value }

  /** The record model's own shape: a control field carries only data, another field one-byte indicators and codes. */
  predicate Shaped(f: Field) {
    if IsControl(f.tag) then f.ind1 == f.ind2 == [SPACE] && f.subfields == []
    else |f.ind1| == |f.ind2| == 1 && f.data == [] && forall s | s in f.subfields :: |s.code| == 1
  }

  /** What the format cannot carry: a trailing terminator byte, or a delimiter inside a subfield. */
  predicate Carried(f: Field) {
    !EndsIn(Content(f), FT) && (IsControl(f.tag) || forall s | s in f.subfields :: PlainSubfield(s))
  }

  lemma {:induction false} RStripResult(s: Bytes, b: Byte)
    ensures !EndsIn(RStrip(s, b), b) && |RStrip(s, b)| <= |s| && RStrip(s, b) == s[..|RStrip(s, b)|]
    ensures forall i | |RStrip(s, b)| <= i < |s| :: s[i] == b
    ensures !EndsIn(s, b) ==> RStrip(s, b) == s
  {
    if EndsIn(s, b) {
      RStripResult(s[..|s| - 1], b);
    }
  }

  lemma {:induction false} SplitAppend(a: Bytes, b: Bytes, d: Byte)
    requires d !in b
    ensures Split(a + [d] + b, d) == Split(a, d) + [b]
  {
    var s := a + [d] + b;
    if b == [] {
      assert s[..|s| - 1] == a;
    } else {
      SplitAppend(a, b[..|b| - 1], d);
      assert s[..|s| - 1] == a + [d] + b[..|b| - 1];
      assert b == b[..|b| - 1] + [b[|b| - 1]];
    }
  }

  lemma ToSubfieldsAppend(parts: seq<Bytes>, p: Bytes)
    ensures ToSubfields(parts + [p]) == ToSubfields(parts) + Piece(p)
  {
    assert (parts + [p])[..|parts|] == parts;
  }

  lemma NoSubfields()
    ensures ToSubfields(Split(Flat<Subfield>([], SubfieldBytes), DELIMITER)) == []
  {
    ToSubfieldsAppend([], []);
    assert [] + [[]] == Split([], DELIMITER);
  }

  lemma {:induction false} SubfieldsRoundTrip(subfields: seq<Subfield>)
    requires forall s | s in subfields :: |s.code| == 1 && PlainSubfield(s)
    ensures ToSubfields(Split(Flat(subfields, SubfieldBytes), DELIMITER)) == subfields
  {
    hide Split, ToSubfields;
    if subfields == [] {
      NoSubfields();
    } else {
      var n := |subfields| - 1;
      var last := subfields[n];
      var text := Flat(subfields[..n], SubfieldBytes);
      SubfieldsRoundTrip(subfields[..n]);
      assert Flat(subfields, SubfieldBytes) == text + SubfieldBytes(last);
      hide Flat;
      SplitAppend(text, last.code + last.value, DELIMITER);
      assert text + SubfieldBytes(last) == text + [DELIMITER] + (last.code + last.value);
      ToSubfieldsAppend(Split(text, DELIMITER), last.code + last.value);
      assert Piece(last.code + last.value) == [last];
    }
  }

  lemma {:induction false} SplitPlain(s: Bytes, d: Byte)
    ensures forall p | p in Split(s, d) :: d !in p
  {
    if s != [] {
      SplitPlain(s[..|s| - 1], d);
    }
  }

  lemma {:induction false} ToSubfieldsPlain(parts: seq<Bytes>)
    requires forall p | p in parts :: DELIMITER !in p
    ensures forall s | s in ToSubfields(parts) :: PlainSubfield(s)
  {
    if parts != [] {
      var last := parts[|parts| - 1];
      ToSubfieldsPlain(parts[..|parts| - 1]);
      assert last in parts;
      forall s | s in Piece(last) ensures PlainSubfield(s) {}
    }
  }

  /** Bytes the parts would take when written, each with its delimiter. */
  function WrittenSize(parts: seq<Bytes>): nat {
    if parts == [] then 0
    else WrittenSize(parts[..|parts| - 1]) + |parts[|parts| - 1]| + 1
  }

  lemma {:induction false} SplitSize(s: Bytes, d: Byte)
    ensures WrittenSize(Split(s, d)) == |s| + 1
    ensures Split(s, d)[0] == [] <==> s == [] || s[0] == d
  {
    if s != [] {
      SplitSize(s[..|s| - 1], d);
      var before := Split(s[..|s| - 1], d);
      if s[|s| - 1] == d {
        assert (before + [[]])[..|before|] == before;
      } else {
        var n := |before| - 1;
        var last := before[n] + [s[|s| - 1]];
        assert (before[..n] + [last])[..n] == before[..n];
        if n == 0 {
          assert before == [before[0]] && before[..0] == [];
        }
      }
    } else {
      assert Split(s, d) == [[]] && Split(s, d)[..0] == [];
    }
  }

  lemma {:induction false} RewrittenSize(parts: seq<Bytes>)
    ensures |Flat(ToSubfields(parts), SubfieldBytes)| <= WrittenSize(parts)
    ensures parts != [] && parts[0] == [] ==> |Flat(ToSubfields(parts), SubfieldBytes)| + 1 <= WrittenSize(parts)
  {
    if parts != [] {
      var n := |parts| - 1;
      RewrittenSize(parts[..n]);
      var before, subs := ToSubfields(parts[..n]), ToSubfields(parts);
      if parts[n] == [] {
        assert subs == before;
      } else {
        assert subs[..|subs| - 1] == before && subs[|subs| - 1] == Piece(parts[n])[0];
      }
      assert n > 0 ==> parts[..n][0] == parts[0];
    }
  }

  lemma ParsedPlain(f: Field)
    ensures var g := ParseField(f.tag, Encoded(f));
            !IsControl(f.tag) ==> forall s | s in g.subfields :: PlainSubfield(s)
  {
    var content := RStrip(Encoded(f), FT);
    SplitPlain(Slice(content, 2, |content|), DELIMITER);
    ToSubfieldsPlain(Split(Slice(content, 2, |content|), DELIMITER));
  }

  lemma NothingFlat()
    ensures Flat<Subfield>([], SubfieldBytes) == []
  {}

  /** What a parsed field would be written as is no longer than the content it was parsed from. */
  lemma ReparsedShorter(f: Field)
    requires !IsControl(f.tag) && Shaped(f) && EndsIn(Content(f), FT)
    ensures ParseField(f.tag, Encoded(f)) != f
  {
    hide RStrip, Flat, Split, ToSubfields, Less;
    var content, c := Content(f), RStrip(Encoded(f), FT);
    var tail := Slice(c, 2, |c|);
    var body := Flat(f.subfields, SubfieldBytes);
    RStripResult(Encoded(f), FT);
    assert Encoded(f)[|content| - 1] == FT && |c| < |content|;
    assert content == f.ind1 + f.ind2 + body;
    if f.subfields != [] {
      FlatAt(f.subfields, SubfieldBytes, 0);
      assert f.subfields[..0] == [];
      NothingFlat();
      assert body[0] == DELIMITER && content[2] == DELIMITER;
      assert Encoded(f)[2] == DELIMITER && |c| >= 3;
      assert tail[0] == DELIMITER;
      SplitSize(tail, DELIMITER);
      RewrittenSize(Split(tail, DELIMITER));
      assert |Flat(ToSubfields(Split(tail, DELIMITER)), SubfieldBytes)| <= |tail|;
    } else {
      NothingFlat();
      assert body == [] && content[1] == FT;
      assert OrBlank(Slice(c, 1, 2)) == [SPACE];
    }
  }

  /** A field of the model's shape comes back from its bytes unchanged exactly when the format can carry it. */
  lemma FieldRoundTrip(f: Field)
    requires Shaped(f)
    ensures ParseField(f.tag, Encoded(f)) == f <==> Carried(f)
  {
    var content := Content(f);
    RStripResult(content, FT);
    RStripResult(Encoded(f), FT);
    assert Encoded(f)[..|Encoded(f)| - 1] == content;
    if IsControl(f.tag) {
    } else if EndsIn(content, FT) {
      ReparsedShorter(f);
    } else {
      var body := Flat(f.subfields, SubfieldBytes);
      assert RStrip(Encoded(f), FT) == content == f.ind1 + f.ind2 + body;
      assert Slice(content, 0, 1) == f.ind1 && Slice(content, 1, 2) == f.ind2 && Slice(content, 2, |content|) == body;
      if forall s | s in f.subfields :: PlainSubfield(s) {
        SubfieldsRoundTrip(f.subfields);
      } else {
        ParsedPlain(f);
      }
    }
  }

  // ---------------------------------------------------------------- one record

  function Base(fields: seq<Field>): nat { 24 + |Directory(fields)| + 1 }

  function RecordLength(fields: seq<Field>): nat { Base(fields) + |DataArea(fields)| + 1 }

  predicate FieldsFit(fields: seq<Field>) { forall f | f in fields :: |f.tag| == 3 && |Encoded(f)| <= 9999 }

  /** Three-byte tags, and lengths that fit the decimal fields of directory and leader. */
  predicate Fits(fields: seq<Field>) {
    FieldsFit(fields) && RecordLength(fields) <= 99999
  }

  predicate WellFormed(fields: seq<Field>) { Fits(fields) && forall f | f in fields :: Shaped(f) && Carried(f) }

  lemma AssembleLayout(directory: Bytes, data: Bytes)
    requires 24 + |directory| + 1 + |data| + 1 <= 99999
    ensures var chunk, base := Assemble(directory, data), 24 + |directory| + 1;
            && |chunk| == base + |data| + 1
            && chunk[..5] == Decimal(|chunk|, 5) && chunk[12..17] == Decimal(base, 5)
            && chunk[24..base - 1] == directory && chunk[base..base + |data|] == data
            && chunk[..24] == Leader(|chunk|, base)
  {
    hide Decimal;
    var base := 24 + |directory| + 1;
    Widths(base + |data| + 1);
    Widths(base);
    var leader := Leader(base + |data| + 1, base);
    assert leader[..5] == Decimal(base + |data| + 1, 5) && leader[12..17] == Decimal(base, 5);
    var chunk := Assemble(directory, data);
    assert chunk[..24] == leader;
    assert chunk[..5] == leader[..5] && chunk[12..17] == leader[12..17];
  }

  lemma SubSlice(s: Bytes, lo: nat, hi: nat, i: nat, j: nat)
    requires lo <= hi <= |s| && i <= j <= hi - lo
    ensures s[lo..hi][i..j] == s[lo + i..lo + j] && s[lo + i..lo + j] == Slice(s, lo + i, lo + j)
  {
    var whole, direct := s[lo..hi][i..j], s[lo + i..lo + j];
    assert |whole| == |direct| && forall t | 0 <= t < |direct| ::
           whole[t] == s[lo..hi][i + t] == s[lo + i + t] == direct[t];
  }

  lemma RecordLayout(r: Record)
    requires Fits(r.fields)
    ensures var chunk, base, data := WriteRecord(r), Base(r.fields), DataArea(r.fields);
            && |chunk| == RecordLength(r.fields) == base + |data| + 1
            && chunk[..5] == Decimal(|chunk|, 5) && chunk[12..17] == Decimal(base, 5)
            && chunk[24..base - 1] == Directory(r.fields) && chunk[base..base + |data|] == data
            && chunk[..24] == Leader(|chunk|, base)
  {
    hide Directory, DataArea, Assemble, Decimal, Leader;
    AssembleLayout(Directory(r.fields), DataArea(r.fields));
  }

  lemma StartNext(fields: seq<Field>, k: nat)
    requires k < |fields|
    ensures Start(fields, k + 1) == Start(fields, k) + |Encoded(fields[k])| <= |DataArea(fields)|
    ensures DataArea(fields)[Start(fields, k)..Start(fields, k + 1)] == Encoded(fields[k])
    ensures Start(fields, 0) == 0 && Start(fields, |fields|) == |DataArea(fields)|
  {
    hide Encoded;
    FlatAt(fields, Encoded, k);
    assert fields[..0] == [] && fields[..|fields|] == fields;
  }

  /** Field `k` lies in the data area at its start. */
  lemma DataSlice(r: Record, k: nat)
    requires Fits(r.fields) && k < |r.fields|
    ensures var from, to := Start(r.fields, k), Start(r.fields, k + 1);
            from <= to && Slice(WriteRecord(r), Base(r.fields) + from, Base(r.fields) + to) == Encoded(r.fields[k])
  {
    hide *;
    RecordLayout(r);
    StartNext(r.fields, k);
    var from, to, base := Start(r.fields, k), Start(r.fields, k + 1), Base(r.fields);
    SubSlice(WriteRecord(r), base, base + |DataArea(r.fields)|, from, to);
  }

  lemma EntryBytes(tag: Bytes, length: nat, start: nat)
    requires |tag| == 3 && length <= 9999 && start <= 99999
    ensures var e := Entry(tag, length, start);
            |e| == 12 && e[..3] == tag && Int(e[3..7]) == Some(length) && Int(e[7..12]) == Some(start)
  {
    hide Decimal, Int;
    Widths(length);
    Widths(start);
    DecimalInt(length, 4);
    DecimalInt(start, 5);
    var e := Entry(tag, length, start);
    assert e[3..7] == Decimal(length, 4) && e[7..12] == Decimal(start, 5);
  }

  lemma DirectorySnoc(fields: seq<Field>)
    requires fields != []
    ensures var n := |fields| - 1;
            Directory(fields) == Directory(fields[..n]) + Entry(fields[n].tag, |Encoded(fields[n])|, Start(fields, n))
  {
    hide Entry, Encoded, Start;
  }

  lemma {:induction false} EntryAt(fields: seq<Field>, k: nat)
    requires FieldsFit(fields) && |DataArea(fields)| <= 99999 && k < |fields|
    ensures |Directory(fields)| == 12 * |fields|
    ensures Directory(fields)[12 * k..12 * (k + 1)] == Entry(fields[k].tag, |Encoded(fields[k])|, Start(fields, k))
    decreases |fields|
  {
    hide DataArea, Directory, Encoded, Entry;
    var n := |fields| - 1;
    var last := fields[n];
    StartNext(fields, n);
    EntryBytes(last.tag, |Encoded(last)|, Start(fields, n));
    DirectorySnoc(fields);
    if n > 0 {
      EntryAt(fields[..n], if k < n then k else 0);
    } else {
      assert fields[..n] == [];
      assert |Directory([])| == 0 by { NoDirectory(); }
    }
    if k < n {
      assert fields[..n][..k] == fields[..k];
    }
  }

  lemma NoDirectory()
    ensures Directory([]) == []
  {}

  function EntryIn(chunk: Bytes, base: nat, k: nat): Bytes { Slice(Slice(chunk, 24, base - 1), 12 * k, 12 * (k + 1)) }

  /** In the bytes of a written record the directory's starts are the running sums of the lengths before them, each
      start and length cuts out exactly that field, and the last one ends where the data area does. */
  lemma DirectoryTiles(r: Record, k: nat)
    requires Fits(r.fields) && k < |r.fields|
    ensures var chunk, base := WriteRecord(r), Base(r.fields);
            var entry := EntryIn(chunk, base, k);
            && |entry| == 12 && entry[..3] == r.fields[k].tag
            && var length, start := |Encoded(r.fields[k])|, Start(r.fields, k);
            && Int(entry[3..7]) == Some(length) && Int(entry[7..12]) == Some(start)
            && start + length == Start(r.fields, k + 1)
            && Slice(chunk, base + start, base + start + length) == Encoded(r.fields[k])
            && (k == 0 ==> start == 0)
            && (k + 1 == |r.fields| ==> base + start + length == |chunk| - 1)
  {
    hide DataArea, Directory, WriteRecord, Encoded, Entry, Int, Start, Base, Decimal, Leader;
    var fields := r.fields;
    assert FieldsFit(fields);
    assert fields[k] in fields;
    RecordLayout(r);
    EntryAt(fields, k);
    DataSlice(r, k);
    StartNext(fields, k);
    EntryBytes(fields[k].tag, |Encoded(fields[k])|, Start(fields, k));
    DirectorySlice(r);
    assert Slice(Directory(fields), 12 * k, 12 * (k + 1)) == Directory(fields)[12 * k..12 * (k + 1)];
  }

  lemma DirectorySlice(r: Record)
    requires Fits(r.fields)
    ensures Slice(WriteRecord(r), 24, Base(r.fields) - 1) == Directory(r.fields)
  {
    RecordLayout(r);
    hide Directory, DataArea, WriteRecord, Decimal, Leader;
  }

  lemma EntriesStep(chunk: Bytes, base: int, directory: Bytes, n: nat, fields: seq<Field>, field: Field)
    requires ParseEntries(chunk, base, directory, n) == Some(fields)
    requires |Slice(directory, 12 * n, 12 * (n + 1))| == 12
    requires ParseEntry(chunk, base, Slice(directory, 12 * n, 12 * (n + 1))) == Some(field)
    ensures ParseEntries(chunk, base, directory, n + 1) == Some(fields + [field])
  {
    hide Slice, ParseEntry;
  }

  lemma {:induction false} EntriesParsed(r: Record, n: nat)
    requires WellFormed(r.fields) && n <= |r.fields|
    ensures ParseEntries(WriteRecord(r), Base(r.fields), Directory(r.fields), n) == Some(r.fields[..n])
  {
    hide WellFormed, WriteRecord, Base, Directory, ParseEntry, Slice;
    if n == 0 {
      assert r.fields[..0] == [];
    } else {
      EntriesParsed(r, n - 1);
      FieldSurvives(r, n - 1);
      EntriesStep(WriteRecord(r), Base(r.fields), Directory(r.fields), n - 1, r.fields[..n - 1], r.fields[n - 1]);
      hide *;
      assert r.fields[..n] == r.fields[..n - 1] + [r.fields[n - 1]];
    }
  }

  lemma FieldSurvives(r: Record, k: nat)
    requires WellFormed(r.fields) && k < |r.fields|
    ensures var e := Slice(Directory(r.fields), 12 * k, 12 * (k + 1));
            |e| == 12 && ParseEntry(WriteRecord(r), Base(r.fields), e) == Some(r.fields[k])
  {
    hide DataArea, Directory, WriteRecord, Encoded, Int, Start, Base, ParseField, Slice;
    var f := r.fields[k];
    assert f in r.fields;
    DirectoryTiles(r, k);
    DirectorySlice(r);
    FieldRoundTrip(f);
  }

  /** A written leader is plain ASCII. */
  lemma LeaderPlain(recordLength: nat, base: nat)
    ensures forall b | b in Leader(recordLength, base) :: b < 0x80
  {
    hide Decimal;
    DecimalNumber(recordLength, 5);
    DecimalNumber(base, 5);
  }

  lemma RecordParsed(r: Record, wide: Decoding)
    requires WellFormed(r.fields)
    ensures ParseRecord(WriteRecord(r), wide) == Got(AsRead(r))
  {
    hide DataArea, Directory, WriteRecord, Int, Decimal, Leader, ParseEntries, Slice;
    var fields := r.fields;
    RecordLayout(r);
    DecimalInt(Base(fields), 5);
    LeaderPlain(RecordLength(fields), Base(fields));
    assert WriteRecord(r)[..24][12..17] == WriteRecord(r)[12..17];
    DirectoryLength(fields);
    DirectorySlice(r);
    EntriesParsed(r, |fields|);
    assert fields[..|fields|] == fields;
  }

  lemma DirectoryLength(fields: seq<Field>)
    requires Fits(fields)
    ensures |Directory(fields)| == 12 * |fields| && (|Directory(fields)| + 11) / 12 == |fields|
  {
    if fields == [] {
      NoDirectory();
    } else {
      hide DataArea, Directory, Encoded;
      assert FieldsFit(fields);
      EntryAt(fields, 0);
    }
  }

  // ---------------------------------------------------------------- whole files

  predicate AllWellFormed(records: seq<Record>) { forall r | r in records :: WellFormed(r.fields) }

  /** A record as it is read back: the same fields under the leader that was written. */
  function AsRead(r: Record): Record { Record(Leader(RecordLength(r.fields), Base(r.fields)), r.fields) }

  function AllAsRead(records: seq<Record>): seq<Record> {
    if records == [] then [] else AllAsRead(records[..|records| - 1]) + [AsRead(records[|records| - 1])]
  }

  lemma {:induction false} AllAsReadAt(records: seq<Record>)
    ensures |AllAsRead(records)| == |records| && forall i | 0 <= i < |records| ::
        AllAsRead(records)[i] == AsRead(records[i])
  {
    hide AsRead;
    if records != [] {
      AllAsReadAt(records[..|records| - 1]);
    }
  }

  function Position(records: seq<Record>, k: nat): nat
    requires k <= |records|
  {
    |Write(records[..k])|
  }

  lemma TurnStep(data: Bytes, wide: Decoding, pos: nat, length: nat, record: Record, found: seq<Record>)
    requires pos < |data| && !IsFiller(data[pos]) && Int(Slice(data, pos, pos + 5)) == Some(length)
    requires ParseRecord(Slice(data, pos, pos + length), wide) == Got(record)
    ensures Turn(data, wide, At(pos, found)) == At(pos + length, found + [record])
  {
    hide Int, ParseRecord;
    assert Slice(data, pos, pos + 1) == [data[pos]];
    hide Slice;
  }

  lemma ChunkAt(data: Bytes, pos: nat, chunk: Bytes)
    requires pos + |chunk| <= |data| && data[pos..pos + |chunk|] == chunk && |chunk| >= 5
    ensures Slice(data, pos, pos + 5) == chunk[..5] && Slice(data, pos, pos + |chunk|) == chunk
        && data[pos] == chunk[..5][0]
  {
    SubSlice(data, pos, pos + |chunk|, 0, 5);
    SubSlice(data, pos, pos + |chunk|, 0, |chunk|);
    assert data[pos..pos + |chunk|][0] == data[pos];
  }

  /** Wherever a written record lies in the data, a turn there reads it and goes on behind it. */
  lemma RecordTurn(data: Bytes, wide: Decoding, pos: nat, r: Record, found: seq<Record>)
    requires WellFormed(r.fields)
    requires pos + |WriteRecord(r)| <= |data| && data[pos..pos + |WriteRecord(r)|] == WriteRecord(r)
    ensures |WriteRecord(r)| > 0
    ensures Turn(data, wide, At(pos, found)) == At(pos + |WriteRecord(r)|, found + [AsRead(r)])
  {
    hide ParseRecord, WriteRecord, Decimal, Int, AsRead, WellFormed, RecordLength, Base, Directory, DataArea, Slice,
        Turn;
    var chunk := WriteRecord(r);
    WrittenLength(r);
    DecimalInt(|chunk|, 5);
    RecordParsed(r, wide);
    ChunkAt(data, pos, chunk);
    assert chunk[..5][0] in Decimal(|chunk|, 5);
    TurnStep(data, wide, pos, |chunk|, AsRead(r), found);
  }

  lemma NextRecord(records: seq<Record>, wide: Decoding, k: nat, found: seq<Record>)
    requires AllWellFormed(records) && k < |records|
    ensures Position(records, k) < Position(records, k + 1) <= |Write(records)|
    ensures Turn(Write(records), wide, At(Position(records, k), found))
            == At(Position(records, k + 1), found + [AsRead(records[k])])
  {
    hide WriteRecord, Flat, AsRead, WellFormed, Turn;
    assert records[k] in records;
    FlatAt(records, WriteRecord, k);
    RecordTurn(Write(records), wide, Position(records, k), records[k], found);
  }

  lemma WrittenLength(r: Record)
    requires WellFormed(r.fields)
    ensures 24 < |WriteRecord(r)| <= 99999 && WriteRecord(r)[..5] == Decimal(|WriteRecord(r)|, 5)
  {
    hide Directory, DataArea, WriteRecord, Decimal, Leader;
    RecordLayout(r);
  }

  lemma NothingRead(records: seq<Record>)
    ensures Position(records, 0) == 0 && AllAsRead(records[..0]) == []
  {}

  lemma AllAsReadNext(records: seq<Record>, k: nat)
    requires k < |records|
    ensures AllAsRead(records[..k + 1]) == AllAsRead(records[..k]) + [AsRead(records[k])]
  {
    assert records[..k + 1][..k] == records[..k];
  }

  lemma {:induction false} RecordsParsed(records: seq<Record>, wide: Decoding, k: nat)
    requires AllWellFormed(records) && k <= |records|
    ensures Turns(Write(records), wide, k) == At(Position(records, k), AllAsRead(records[..k]))
    ensures k <= Position(records, k)
  {
    hide AllWellFormed, Turn, Write, Position, AsRead, AllAsRead;
    if k == 0 {
      NothingRead(records);
    } else {
      RecordsParsed(records, wide, k - 1);
      NextRecord(records, wide, k - 1, AllAsRead(records[..k - 1]));
      AllAsReadNext(records, k - 1);
    }
  }

  /** Once ended, the loop stays as it is. */
  lemma {:induction false} EndedStays(data: Bytes, wide: Decoding, m: nat, n: nat)
    requires m <= n && !Turns(data, wide, m).At?
    ensures Turns(data, wide, n) == Turns(data, wide, m)
  {
    if m < n {
      EndedStays(data, wide, m, n - 1);
    }
  }

  /** Parsing what was written ends, and gives back every record's fields, in order. */
  lemma RoundTrip(records: seq<Record>, wide: Decoding)
    requires AllWellFormed(records)
    ensures Parse(Write(records), wide) == Records(AllAsRead(records))
  {
    var n, data := |records|, Write(records);
    RecordsParsed(records, wide, n);
    assert records[..n] == records;
    hide AllWellFormed, Write, AllAsRead;
    assert Turns(data, wide, n + 1) == Ended(AllAsRead(records));
    EndedStays(data, wide, n + 1, TurnBound(data));
  }

  lemma {:induction false} SameFieldsSameBytes(a: seq<Record>, b: seq<Record>)
    requires |a| == |b| && forall i | 0 <= i < |a| :: a[i].fields == b[i].fields
    ensures Write(a) == Write(b)
  {
    if a != [] {
      SameFieldsSameBytes(a[..|a| - 1], b[..|a| - 1]);
      hide Directory, DataArea, Assemble;
    }
  }

  /** Writing the parsed records again gives the same bytes. */
  lemma RewriteIdentical(records: seq<Record>, wide: Decoding)
    requires AllWellFormed(records)
    ensures Parse(Write(records), wide).Records? && Write(Parse(Write(records), wide).records) == Write(records)
  {
    RoundTrip(records, wide);
    AllAsReadAt(records);
    SameFieldsSameBytes(AllAsRead(records), records);
  }

  // ---------------------------------------------------------------- any record, well formed or not

  /** The directory a base address marks out, and its entries of full length. */
  function DirectoryOf(chunk: Bytes, base: int): Bytes { Slice(chunk, 24, base - 1) }

  function EntryOf(directory: Bytes, i: nat): (entry: Bytes)
    requires 12 * (i + 1) <= |directory|
    ensures |entry| == 12
  {
    directory[12 * i..12 * (i + 1)]
  }

  predicate Readable(entry: Bytes)
    requires |entry| == 12
  {
    Int(entry[3..7]).Some? && Int(entry[7..12]).Some?
  }

  /** Field `f` is the stretch of the record its directory entry names, without the terminators at its end. */
  predicate NamedBy(chunk: Bytes, base: int, entry: Bytes, f: Field)
    requires |entry| == 12 && Readable(entry)
  {
    var start := base + Int(entry[7..12]).value;
    f == ParseField(entry[..3], Slice(chunk, start, start + Int(entry[3..7]).value))
  }

  predicate AllNamed(chunk: Bytes, base: int, directory: Bytes, fields: seq<Field>, n: nat)
    requires n <= |directory| / 12
  {
    |fields| == n
    && forall i: nat | i < n ::
         Readable(EntryOf(directory, i)) && NamedBy(chunk, base, EntryOf(directory, i), fields[i])
  }

  lemma EntrySlice(directory: Bytes, n: nat)
    ensures 12 * (n + 1) <= |directory| ==> Slice(directory, 12 * n, 12 * (n + 1)) == EntryOf(directory, n)
    ensures 12 * (n + 1) > |directory| ==> |Slice(directory, 12 * n, 12 * (n + 1))| < 12
  {}

  lemma ReadsEntry(chunk: Bytes, base: int, entry: Bytes)
    requires |entry| == 12
    ensures ParseEntry(chunk, base, entry).Some? <==> Readable(entry)
    ensures Readable(entry) ==> NamedBy(chunk, base, entry, ParseEntry(chunk, base, entry).value)
  {}

  lemma {:induction false} FullEntries(chunk: Bytes, base: int, directory: Bytes, n: nat)
    requires n <= |directory| / 12
    ensures ParseEntries(chunk, base, directory, n).None?
            <==> exists i: nat :: i < n && !Readable(EntryOf(directory, i))
    ensures ParseEntries(chunk, base, directory, n).Some? ==>
              AllNamed(chunk, base, directory, ParseEntries(chunk, base, directory, n).value, n)
  {
    hide ParseField, Int, Slice, EntryOf;
    if n > 0 {
      var m := n - 1;
      FullEntries(chunk, base, directory, m);
      EntrySlice(directory, m);
      ReadsEntry(chunk, base, EntryOf(directory, m));
      hide Readable, NamedBy, ParseEntry;
    }
  }

  lemma ShortEntrySkipped(chunk: Bytes, base: int, directory: Bytes)
    ensures ParseEntries(chunk, base, directory, (|directory| + 11) / 12)
         == ParseEntries(chunk, base, directory, |directory| / 12)
  {
    hide Slice, ParseEntry;
    var m := |directory| / 12;
    EntrySlice(directory, m);
  }

  /** A record is dropped exactly if it is shorter than a leader or has no base address; the whole file fails exactly
      if a full directory entry has no length or start; otherwise every full entry gives the field it names, in
      order, and an incomplete last entry gives none. */
  lemma RecordRead(chunk: Bytes, wide: Decoding)
    ensures ParseRecord(chunk, wide) == NotARecord
            <==> |chunk| < 24 || BaseAddress(chunk[..24], wide).None?
    ensures ParseRecord(chunk, wide) != NotARecord ==>
              var base := BaseAddress(chunk[..24], wide).value;
              var directory := DirectoryOf(chunk, base);
              && (ParseRecord(chunk, wide) == Unreadable
                  <==> exists i: nat :: i < |directory| / 12 && !Readable(EntryOf(directory, i)))
              && (ParseRecord(chunk, wide).Got? ==>
                  && ParseRecord(chunk, wide).record.leader == chunk[..24]
                  && AllNamed(chunk, base, directory, ParseRecord(chunk, wide).record.fields, |directory| / 12))
  {
    hide AllNamed, Readable, BaseAddress, ParseEntries, Slice, EntryOf;
    if |chunk| >= 24 && BaseAddress(chunk[..24], wide).Some? {
      var base := BaseAddress(chunk[..24], wide).value;
      var directory := DirectoryOf(chunk, base);
      ShortEntrySkipped(chunk, base, directory);
      FullEntries(chunk, base, directory, |directory| / 12);
    }
  }

  // ---------------------------------------------------------------- at the edges

  /** Tags of three digits are control fields exactly below 010. */
  lemma ControlTags(tag: Bytes)
    requires |tag| == 3 && forall b | b in tag :: IsDigit(b)
    ensures IsControl(tag) <==> tag[0] == tag[1] == 0x30
  {
    var limit: Bytes := [0x30, 0x31, 0x30];
    assert tag[0] in tag && tag[1] in tag && tag[2] in tag;
    assert Less(tag, limit) == (tag[0] == 0x30 && Less(tag[1..], limit[1..]));
    assert Less(tag[1..], limit[1..]) == (tag[1] < 0x31 || (tag[1] == 0x31 && Less(tag[2..], limit[2..]))) by {
      assert tag[1..][1..] == tag[2..] && limit[1..][1..] == limit[2..];
    }
    assert !Less(tag[2..], limit[2..]) by {
      assert limit[2..][1..] == [];
    }
  }

  /** A short tag is set to the right of three places. */
  lemma {:induction false} ShortTags(tag: Bytes)
    requires |tag| <= 3
    ensures |PadTag(tag)| == 3 && PadTag(tag)[3 - |tag|..] == tag
    ensures forall i | 0 <= i < 3 - |tag| :: PadTag(tag)[i] == SPACE
    decreases 3 - |tag|
  {
    if |tag| < 3 {
      var wider, n := [SPACE] + tag, 2 - |tag|;
      ShortTags(wider);
      assert PadTag(tag)[n..] == wider;
      assert PadTag(tag)[n] == wider[0] && PadTag(tag)[n + 1..] == wider[1..] == tag;
    }
  }

  /** Bounds below zero count from the end. */
  lemma SliceFromEnd(s: Bytes, k: int)
    requires 0 < k <= |s|
    ensures Slice(s, -k, |s|) == s[|s| - k..] && Slice(s, 0, -k) == s[..|s| - k]
    ensures Slice(s, -k - |s|, |s|) == s
  {}

  /** A data field too short for two indicators is read with blanks for those it lacks. */
  lemma MissingIndicators(tag: Bytes, raw: Bytes)
    requires !IsControl(tag)
    ensures var content, f := RStrip(raw, FT), ParseField(tag, raw);
            && f.ind1 == (if |content| >= 1 then [content[0]] else [SPACE])
            && f.ind2 == (if |content| >= 2 then [content[1]] else [SPACE])
            && (|content| <= 2 ==> f.subfields == [])
  {
    hide RStrip;
    var content := RStrip(raw, FT);
    if |content| <= 2 {
      assert Slice(content, 2, |content|) == [] && Split([], DELIMITER) == [[]];
      var one: seq<Bytes> := [[]];
      assert one[..0] == [] && Piece(one[0]) == [] && ToSubfields(one) == [];
    }
  }
}
