/** The binary MARC exchange format (ISO 2709): fixed-width decimal fields, a directory of offsets, delimiters.

    Text is held as its encoded bytes.  The functions follow the writer and the parser; `MarcCodec` holds the loops. */
module Iso2709 {
  import opened Common

  type Byte = b: nat | b < 256

  type Bytes = seq<Byte>

  const FT: Byte := 0x1E
  const RT: Byte := 0x1D
  const DELIMITER: Byte := 0x1F
  const SPACE: Byte := 0x20
  const PLUS: Byte := 0x2B
  const MINUS: Byte := 0x2D
  const UNDERSCORE: Byte := 0x5F

  datatype Subfield = Subfield(code: Bytes, value: Bytes)

  datatype Field = Field(tag: Bytes, ind1: Bytes, ind2: Bytes, subfields: seq<Subfield>, data: Bytes)

  datatype Record = Record(leader: Bytes, fields: seq<Field>)

  // ---------------------------------------------------------------- Python's text operations on bytes

  function Clamp(i: int, n: nat): nat { if i < 0 then Max(i + n, 0) else Min(i, n) }

  /** `s[lo:hi]`, counting negative bounds from the end and cutting both to the length. */
  function Slice(s: Bytes, lo: int, hi: int): Bytes {
    var l, h := Clamp(lo, |s|), Clamp(hi, |s|);
    if l >= h then [] else s[l..h]
  }

  predicate Less(a: Bytes, b: Bytes) {
    if b == [] then false
    else if a == [] then true
    else a[0] < b[0] || (a[0] == b[0] && Less(a[1..], b[1..]))
  }

  /** Decimal digits of `n`, padded with zeros to at least `width`. */
  function Decimal(n: nat, width: nat): (r: Bytes)
    ensures |r| >= width && |r| >= 1
    decreases n + width
  {
    var digit := 0x30 + n % 10;
    if n < 10 && width <= 1 then [digit] else Decimal(n / 10, Max(width - 1, 0)) + [digit]
  }

  predicate IsDigit(b: Byte) { 0x30 <= b <= 0x39 }

  /** All but the last byte, and an underscore before it. */
  function BeforeLast(s: Bytes): Bytes
    requires |s| >= 2
  {
    if s[|s| - 2] == UNDERSCORE then s[..|s| - 2] else s[..|s| - 1]
  }

  /** The number a run of decimal digits denotes, single underscores allowed between them. */
  function Number(s: Bytes): Option<nat> {
    if s == [] || !IsDigit(s[|s| - 1]) then None
    else
      var digit := s[|s| - 1] - 0x30;
      if |s| == 1 then Some(digit)
      else
        var high := Number(BeforeLast(s));
        if high.None? then None else Some(10 * high.value + digit)
  }

  /** The blanks Python's `int` passes over at both ends. */
  predicate IsBlank(b: Byte) { 0x09 <= b <= 0x0D || b == SPACE }

  function CutBlanks(s: Bytes): Bytes {
    if s != [] && IsBlank(s[0]) then CutBlanks(s[1..])
    else if s != [] && IsBlank(s[|s| - 1]) then CutBlanks(s[..|s| - 1])
    else s
  }

  function Signed(s: Bytes): Option<int> {
    if s != [] && s[0] == MINUS then
      var n := Number(s[1..]);
      if n.None? then None else var size: int := n.value; Some(-size)
    else
      var n := Number(if s != [] && s[0] == PLUS then s[1..] else s);
      if n.None? then None else Some(n.value)
  }

  /** Python's `int` on bytes: blanks around, one sign, digits with single underscores between; no number otherwise. */
  function Int(s: Bytes): Option<int> { Signed(CutBlanks(s)) }

  function RStrip(s: Bytes, b: Byte): Bytes {
    if s != [] && s[|s| - 1] == b then RStrip(s[..|s| - 1], b) else s
  }

  /** The pieces between the occurrences of `d`: always one more than there are occurrences. */
  function Split(s: Bytes, d: Byte): (r: seq<Bytes>)
    ensures |r| >= 1
  {
    if s == [] then [[]]
    else
      var b := s[|s| - 1];
      var before := Split(s[..|s| - 1], d);
      if b == d then before + [[]] else before[..|before| - 1] + [before[|before| - 1] + [b]]
  }

  /** The texts of all rows, end to end. */
  function Flat<T>(rows: seq<T>, f: T -> Bytes): Bytes {
    if rows == [] then [] else Flat(rows[..|rows| - 1], f) + f(rows[|rows| - 1])
  }

  // ---------------------------------------------------------------- writing

  predicate IsControl(tag: Bytes) { Less(tag, [0x30, 0x31, 0x30]) }

  function SubfieldBytes(s: Subfield): Bytes { [DELIMITER] + s.code + s.value }

  /** A field's content, without its terminator. */
  function Content(f: Field): Bytes {
    if IsControl(f.tag) then f.data else f.ind1 + f.ind2 + Flat(f.subfields, SubfieldBytes)
  }

  function Encoded(f: Field): Bytes { Content(f) + [FT] }

  function DataArea(fields: seq<Field>): Bytes { Flat(fields, Encoded) }

  /** Where field `k` starts in the data area. */
  function Start(fields: seq<Field>, k: nat): nat
    requires k <= |fields|
  {
    |DataArea(fields[..k])|
  }

  function PadTag(tag: Bytes): Bytes
    decreases 3 - |tag|
  {
    if |tag| < 3 then PadTag([SPACE] + tag) else tag
  }

  function Entry(tag: Bytes, length: nat, start: nat): Bytes { PadTag(tag) + Decimal(length, 4) + Decimal(start, 5) }

  function Directory(fields: seq<Field>): Bytes {
    if fields == [] then []
    else
      var n := |fields| - 1;
      Directory(fields[..n]) + Entry(fields[n].tag, |Encoded(fields[n])|, Start(fields, n))
  }

  /** The fixed parts of the leader, "nam a22" and " a 4500". */
  const KIND: Bytes := [0x6E, 0x61, 0x6D, 0x20, 0x61, 0x32, 0x32]
  const LAYOUT: Bytes := [0x20, 0x61, 0x20, 0x34, 0x35, 0x30, 0x30]

  function Leader(recordLength: nat, base: nat): Bytes {
    Decimal(recordLength, 5) + KIND + Decimal(base, 5) + LAYOUT
  }

  /** Leader, directory and data area put together. */
  function Assemble(directory: Bytes, data: Bytes): Bytes {
    var base := 24 + |directory| + 1;
    Leader(base + |data| + 1, base) + (directory + [FT]) + (data + [RT])
  }

  function WriteRecord(r: Record): Bytes { Assemble(Directory(r.fields), DataArea(r.fields)) }

  function Write(records: seq<Record>): Bytes { Flat(records, WriteRecord) }

  // ---------------------------------------------------------------- parsing

  /** One piece between delimiters: its first byte is the code; empty pieces are dropped. */
  function Piece(part: Bytes): seq<Subfield> { if part == [] then [] else [Subfield(part[..1], part[1..])] }

  function ToSubfields(parts: seq<Bytes>): seq<Subfield> {
    if parts == [] then [] else ToSubfields(parts[..|parts| - 1]) + Piece(parts[|parts| - 1])
  }

  function OrBlank(s: Bytes): Bytes { if s == [] then [SPACE] else s }

  function ParseField(tag: Bytes, raw: Bytes): Field {
    var content := RStrip(raw, FT);
    if IsControl(tag) then Field(tag, [SPACE], [SPACE], [], content)
    else Field(tag, OrBlank(Slice(content, 0, 1)), OrBlank(Slice(content, 1, 2)),
               ToSubfields(Split(Slice(content, 2, |content|), DELIMITER)), [])
  }

  /** The field a full directory entry points at, unless one of its numbers cannot be read. */
  function ParseEntry(chunk: Bytes, base: int, entry: Bytes): Option<Field>
    requires |entry| == 12
  {
    var length, start := Int(entry[3..7]), Int(entry[7..12]);
    if length.None? || start.None? then None
    else Some(ParseField(entry[..3], Slice(chunk, base + start.value, base + start.value + length.value)))
  }

  /** Fields of the first `n` directory entries; a short last entry is skipped, an unreadable number fails. */
  function ParseEntries(chunk: Bytes, base: int, directory: Bytes, n: nat): Option<seq<Field>> {
    if n == 0 then Some([])
    else
      var before := ParseEntries(chunk, base, directory, n - 1);
      var entry := Slice(directory, 12 * (n - 1), 12 * n);
      if before.None? || |entry| < 12 then before
      else
        var field := ParseEntry(chunk, base, entry);
        if field.None? then None else Some(before.value + [field.value])
  }

  datatype Parsed = NotARecord | Unreadable | Got(record: Record)

  /** The base address Python reads from the decoded text of a leader that is not plain ASCII: whatever it is. */
  type Decoding = Bytes -> Option<int>

  function BaseAddress(leader: Bytes, wide: Decoding): Option<int>
    requires |leader| == 24
  {
    if forall b | b in leader :: b < 0x80 then Int(leader[12..17]) else wide(leader)
  }

  function ParseRecord(chunk: Bytes, wide: Decoding): Parsed {
    if |chunk| < 24 then NotARecord
    else
      var base := BaseAddress(chunk[..24], wide);
      if base.None? then NotARecord
      else
        var directory := Slice(chunk, 24, base.value - 1);
        var fields := ParseEntries(chunk, base.value, directory, (|directory| + 11) / 12);
        if fields.None? then Unreadable else Got(Record(chunk[..24], fields.value))
  }

  predicate IsFiller(b: Byte) { b in {0x0A, 0x0D, SPACE, RT} }

  /** The parser's loop between two turns: the position and the records so far, or how it ended. */
  datatype Loop = At(pos: int, found: seq<Record>) | Ended(records: seq<Record>) | Failed

  const START := At(0, [])

  /** One turn.  A record length moves the position whatever it is: zero leaves it in place, a negative one takes it
      back, even before the start, from where Python counts from the end. */
  function Turn(data: Bytes, wide: Decoding, l: Loop): Loop {
    if !l.At? then l
    else if l.pos >= |data| then Ended(l.found)
    else
      var next := Slice(data, l.pos, l.pos + 1);
      if next != [] && IsFiller(next[0]) then At(l.pos + 1, l.found)
      else
        var length := Int(Slice(data, l.pos, l.pos + 5));
        if length.None? then Ended(l.found)
        else
          match ParseRecord(Slice(data, l.pos, l.pos + length.value), wide)
          case Unreadable => Failed
          case NotARecord => At(l.pos + length.value, l.found)
          case Got(record) => At(l.pos + length.value, l.found + [record])
  }

  function Turns(data: Bytes, wide: Decoding, n: nat): Loop {
    if n == 0 then START else Turn(data, wide, Turns(data, wide, n - 1))
  }

  /** Parsing ends with the records found, in an error, or not at all. */
  datatype Outcome = Records(records: seq<Record>) | Crash | Hang

  /** More turns than there are positions from which the loop goes on. */
  function TurnBound(data: Bytes): nat { 2 * |data| + 5 }

  /** How the loop ends; one that has not after so many turns never does, as `ParserLoop` shows. */
  function Parse(data: Bytes, wide: Decoding): Outcome {
    match Turns(data, wide, TurnBound(data))
    case At(_, _) => Hang
    case Ended(records) => Records(records)
    case Failed => Crash
  }

  // ---------------------------------------------------------------- numbers

  function Power10(w: nat): (r: nat)
    ensures r >= 1
  {
    if w == 0 then 1 else 10 * Power10(w - 1)
  }

  lemma LastDropped(high: Bytes, b: Byte)
    requires high != [] && high[|high| - 1] != UNDERSCORE
    ensures BeforeLast(high + [b]) == high
  {
    assert (high + [b])[..|high|] == high;
  }

  lemma NumberUnfolds(s: Bytes)
    requires |s| >= 2 && IsDigit(s[|s| - 1]) && Number(BeforeLast(s)).Some?
    ensures Number(s) == Some(10 * Number(BeforeLast(s)).value + s[|s| - 1] - 0x30)
  {
    hide BeforeLast;
  }

  lemma NumberNext(high: Bytes, digit: nat)
    requires high != [] && IsDigit(high[|high| - 1]) && Number(high).Some? && digit < 10
    ensures Number(high + [0x30 + digit]) == Some(10 * Number(high).value + digit)
  {
    hide Number, BeforeLast;
    LastDropped(high, 0x30 + digit);
    NumberUnfolds(high + [0x30 + digit]);
  }

  lemma {:induction false} DecimalNumber(n: nat, width: nat)
    ensures Number(Decimal(n, width)) == Some(n)
    ensures forall b | b in Decimal(n, width) :: IsDigit(b)
    decreases n + width
  {
    if !(n < 10 && width <= 1) {
      var high := Decimal(n / 10, Max(width - 1, 0));
      DecimalNumber(n / 10, Max(width - 1, 0));
      assert high[|high| - 1] in high;
      NumberNext(high, n % 10);
    }
  }

  lemma DecimalInt(n: nat, width: nat)
    ensures Int(Decimal(n, width)) == Some(n)
    ensures forall b | b in Decimal(n, width) :: IsDigit(b)
  {
    hide Decimal;
    DecimalNumber(n, width);
    var s := Decimal(n, width);
    assert s[0] in s && s[|s| - 1] in s;
  }

  lemma {:induction false} DecimalWidth(n: nat, width: nat)
    requires width >= 1 && n < Power10(width)
    ensures |Decimal(n, width)| == width
  {
    if width > 1 {
      DecimalWidth(n / 10, width - 1);
    }
  }

  /** Unpadded, a number has as many digits as it needs. */
  lemma {:induction false} DecimalDigits(n: nat, digits: nat)
    requires digits >= 1
    ensures |Decimal(n, 0)| <= digits <==> n < Power10(digits)
  {
    var rest := Power10(digits - 1);
    assert Power10(digits) == 10 * rest && rest >= 1;
    if n >= 10 {
      assert |Decimal(n, 0)| == |Decimal(n / 10, 0)| + 1;
      assert n < 10 * rest <==> n / 10 < rest;
      if digits > 1 {
        DecimalDigits(n / 10, digits - 1);
      }
    }
  }

  lemma Widths(n: nat)
    ensures n <= 9999 ==> |Decimal(n, 4)| == 4
    ensures n <= 99999 ==> |Decimal(n, 5)| == 5
  {
    assert Power10(4) == 10000 && Power10(5) == 100000;
    if n <= 9999 { DecimalWidth(n, 4); }
    if n <= 99999 { DecimalWidth(n, 5); }
  }

  // ---------------------------------------------------------------- laying parts end to end

  lemma {:induction false} FlatAt<T>(rows: seq<T>, f: T -> Bytes, k: nat)
    requires k < |rows|
    ensures var s, n := |Flat(rows[..k], f)|, |f(rows[k])|;
            && |Flat(rows[..k + 1], f)| == s + n <= |Flat(rows, f)|
            && Flat(rows, f)[s..s + n] == f(rows[k])
  {
    var n := |rows| - 1;
    if k < n {
      FlatAt(rows[..n], f, k);
      assert rows[..n][..k] == rows[..k] && rows[..n][..k + 1] == rows[..k + 1];
    } else {
      assert rows[..k + 1] == rows;
    }
  }
}
