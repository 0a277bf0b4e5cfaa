/** The reader and writer loops of the binary MARC format, proved against its specification. */
module MarcCodec {
  import opened Common
  import opened Iso2709
  import opened Iso2709Proofs

  /** Subfields of a data field: the pieces between delimiters, empty ones skipped. */
  method ParseSubfields(content: Bytes) returns (subfields: seq<Subfield>)
    ensures subfields == ToSubfields(Split(content, DELIMITER))
  {
    var parts := Split(content, DELIMITER);
    subfields := [];
    var i := 0;
    while i < |parts|
      invariant 0 <= i <= |parts|
      invariant subfields == ToSubfields(parts[..i])
    {
      assert parts[..i + 1][..i] == parts[..i];
      if parts[i] != [] {
        subfields := subfields + [Subfield(parts[i][..1], parts[i][1..])];
      }
      i := i + 1;
    }
    assert parts[..i] == parts;
  }

  lemma {:induction false} EntriesStuck(chunk: Bytes, base: int, directory: Bytes, n: nat, m: nat)
    requires n <= m && ParseEntries(chunk, base, directory, n) == None
    ensures ParseEntries(chunk, base, directory, m) == None
  {
    hide Slice, ParseEntry;
    if n < m {
      EntriesStuck(chunk, base, directory, n, m - 1);
    }
  }

  lemma EntryLength(directory: Bytes, i: nat)
    ensures |Slice(directory, 12 * i, 12 * i + 12)| <= 12
  {}

  method ParseOneRecord(chunk: Bytes, wide: Decoding) returns (parsed: Parsed)
    ensures parsed == ParseRecord(chunk, wide)
  {
    hide ParseField, Int, Slice, BaseAddress;
    if |chunk| < 24 { return NotARecord; }
    var leader := chunk[..24];
    var base := BaseAddress(leader, wide);
    if base.None? { return NotARecord; }
    var directory := Slice(chunk, 24, base.value - 1);
    var total := (|directory| + 11) / 12;
    var fields: seq<Field> := [];
    var i := 0;
    while i < total
      invariant 0 <= i <= total
      invariant ParseEntries(chunk, base.value, directory, i) == Some(fields)
    {
      var entry := Slice(directory, 12 * i, 12 * i + 12);
      EntryLength(directory, i);
      if |entry| == 12 {
        var length, start := Int(entry[3..7]), Int(entry[7..12]);
        if length.None? || start.None? {
          EntriesStuck(chunk, base.value, directory, i + 1, total);
          return Unreadable;
        }
        var raw := Slice(chunk, base.value + start.value, base.value + start.value + length.value);
        fields := fields + [ParseField(entry[..3], raw)];
      }
      i := i + 1;
    }
    return Got(Record(leader, fields));
  }

  /** The server's loop does not count its turns; here they are counted, to answer `Hang` where it would never end. */
  method ParseIso2709(data: Bytes, wide: Decoding) returns (outcome: Outcome)
    ensures outcome == Parse(data, wide)
  {
    hide ParseRecord, Int, Slice;
    var records: seq<Record> := [];
    var pos: int := 0;
    var n := 0;
    while pos < |data| && n < TurnBound(data)
      invariant 0 <= n <= TurnBound(data) && Turns(data, wide, n) == At(pos, records)
      decreases TurnBound(data) - n
    {
      var next := Slice(data, pos, pos + 1);
      n := n + 1;
      if next != [] && IsFiller(next[0]) {
        pos := pos + 1;
      } else {
        var length := Int(Slice(data, pos, pos + 5));
        if length.None? {
          EndedStays(data, wide, n, TurnBound(data));
          return Records(records);
        }
        var parsed := ParseOneRecord(Slice(data, pos, pos + length.value), wide);
        pos := pos + length.value;
        match parsed
        case Unreadable =>
          EndedStays(data, wide, n, TurnBound(data));
          return Crash;
        case NotARecord =>
        case Got(record) => records := records + [record];
      }
    }
    if n == TurnBound(data) { return Hang; }
    EndedStays(data, wide, n + 1, TurnBound(data));
    return Records(records);
  }

  method EncodeField(f: Field) returns (bytes: Bytes)
    ensures bytes == Encoded(f)
  {
    if IsControl(f.tag) { return f.data + [FT]; }
    var body := f.ind1 + f.ind2;
    var i := 0;
    while i < |f.subfields|
      invariant 0 <= i <= |f.subfields|
      invariant body == f.ind1 + f.ind2 + Flat(f.subfields[..i], SubfieldBytes)
    {
      assert f.subfields[..i + 1][..i] == f.subfields[..i];
      body := body + [DELIMITER] + f.subfields[i].code + f.subfields[i].value;
      i := i + 1;
    }
    assert f.subfields[..i] == f.subfields;
    return body + [FT];
  }

  method RecordToIso2709(r: Record) returns (bytes: Bytes)
    ensures bytes == WriteRecord(r)
  {
    hide Encoded, Entry, Decimal;
    var directory: Bytes, data: Bytes := [], [];
    var i := 0;
    while i < |r.fields|
      invariant 0 <= i <= |r.fields|
      invariant directory == Directory(r.fields[..i]) && data == DataArea(r.fields[..i])
    {
      var f := r.fields[i];
      assert r.fields[..i + 1][..i] == r.fields[..i] && r.fields[..i][..i] == r.fields[..i];
      var encoded := EncodeField(f);
      directory := directory + Entry(f.tag, |encoded|, |data|);
      data := data + encoded;
      i := i + 1;
    }
    assert r.fields[..i] == r.fields;
    directory := directory + [FT];
    data := data + [RT];
    var base := 24 + |directory|;
    return Leader(base + |data|, base) + directory + data;
  }

  method ToIso2709(records: seq<Record>) returns (bytes: Bytes)
    ensures bytes == Write(records)
  {
    hide WriteRecord;
    bytes := [];
    var i := 0;
    while i < |records|
      invariant 0 <= i <= |records|
      invariant bytes == Write(records[..i])
    {
      assert records[..i + 1][..i] == records[..i];
      var next := RecordToIso2709(records[i]);
      bytes := bytes + next;
      i := i + 1;
    }
    assert records[..i] == records;
  }
}
