/** When the parser's loop ends.  Its position may stand still or run backwards, so ending is not a matter of course:
    the loop goes on for ever exactly when it comes back to a position, and `Iso2709.Parse` tells which it is. */
module ParserLoop {
  import opened Common
  import opened Iso2709
  import opened Iso2709Proofs

  /** The loop stands at the same position after `i` and after `j` turns. */
  predicate Meets(data: Bytes, wide: Decoding, i: nat, j: nat) {
    && Turns(data, wide, i).At? && Turns(data, wide, j).At?
    && Turns(data, wide, i).pos == Turns(data, wide, j).pos
  }

  ghost predicate ComesBack(data: Bytes, wide: Decoding) { exists i: nat, j: nat :: i < j && Meets(data, wide, i, j) }

  // ---------------------------------------------------------------- coming back means going on for ever

  /** What a turn does to the position does not depend on the records found so far. */
  lemma SameTurn(data: Bytes, wide: Decoding, a: Loop, b: Loop)
    requires a.At? && b.At? && a.pos == b.pos
    ensures Turn(data, wide, a).At? <==> Turn(data, wide, b).At?
    ensures Turn(data, wide, a).At? ==> Turn(data, wide, a).pos == Turn(data, wide, b).pos
  {
    hide Int, Slice, ParseRecord;
  }

  lemma TurnsNext(data: Bytes, wide: Decoding, n: nat)
    ensures Turns(data, wide, n + 1) == Turn(data, wide, Turns(data, wide, n))
  {
    hide Turn;
  }

  lemma AtBefore(data: Bytes, wide: Decoding, m: nat, n: nat)
    requires m <= n && Turns(data, wide, n).At?
    ensures Turns(data, wide, m).At?
  {
    hide Turns;
    if !Turns(data, wide, m).At? {
      EndedStays(data, wide, m, n);
    }
  }

  lemma {:induction false} GoesOn(data: Bytes, wide: Decoding, i: nat, j: nat, n: nat)
    requires i < j && Meets(data, wide, i, j)
    ensures Turns(data, wide, n).At? && (n >= j ==> Meets(data, wide, n - (j - i), n))
  {
    hide Turns, Turn;
    if n <= j {
      AtBefore(data, wide, n, j);
    } else {
      GoesOn(data, wide, i, j, n - 1);
      GoesOn(data, wide, i, j, n - (j - i));
      TurnsNext(data, wide, n - 1);
      TurnsNext(data, wide, n - 1 - (j - i));
      SameTurn(data, wide, Turns(data, wide, n - 1 - (j - i)), Turns(data, wide, n - 1));
    }
  }

  // ---------------------------------------------------------------- going on for ever means coming back

  /** The loop goes on only from positions fewer than five bytes before the data, counted from the end, and before its
      end. */
  lemma GoesOnWithin(data: Bytes, wide: Decoding, l: Loop)
    requires l.At? && Turn(data, wide, l).At?
    ensures -|data| - 5 < l.pos < |data|
  {}

  /** More numbers than the range they lie in has room for: two are equal. */
  lemma {:induction false} Pigeonhole(s: seq<int>, low: int, room: nat) returns (i: nat, j: nat)
    requires |s| > room && forall k | 0 <= k < |s| :: low <= s[k] < low + room
    ensures i < j < |s| && s[i] == s[j]
    decreases room
  {
    var last := |s| - 1;
    if k :| 0 <= k < last && s[k] == s[last] {
      return k, last;
    }
    // The last number occurs once: the top of the range takes its place among the others.
    var top := low + room - 1;
    var rest := seq(last, k requires 0 <= k < last => if s[k] == top then s[last] else s[k]);
    i, j := Pigeonhole(rest, low, room - 1);
  }

  lemma BoundedTurnsMeet(data: Bytes, wide: Decoding) returns (i: nat, j: nat)
    requires Turns(data, wide, TurnBound(data)).At?
    ensures i < j < TurnBound(data) && Meets(data, wide, i, j)
  {
    hide Turn;
    var n := TurnBound(data);
    forall k | 0 <= k <= n ensures Turns(data, wide, k).At? {
      AtBefore(data, wide, k, n);
    }
    var walk := seq(n, k requires 0 <= k < n => Turns(data, wide, k).pos);
    forall k | 0 <= k < n ensures -|data| - 4 <= walk[k] < |data| {
      assert Turns(data, wide, k + 1).At?;
      GoesOnWithin(data, wide, Turns(data, wide, k));
    }
    i, j := Pigeonhole(walk, -|data| - 4, 2 * |data| + 4);
  }

  // ---------------------------------------------------------------- exactly when it ends

  /** How the loop ends where `Parse` gives an answer. */
  function EndOf(outcome: Outcome): Loop
    requires !outcome.Hang?
  {
    match outcome
    case Records(records) => Ended(records)
    case Crash => Failed
  }

  /** On any bytes the loop goes on for ever exactly when it comes back to a position where it has been, exactly when
      `Parse` says so; otherwise it ends, and with the answer of `Parse`. */
  lemma ParserEndsExactly(data: Bytes, wide: Decoding)
    ensures (forall n: nat :: Turns(data, wide, n).At?) <==> ComesBack(data, wide)
    ensures Parse(data, wide).Hang? <==> ComesBack(data, wide)
    ensures !ComesBack(data, wide) ==> exists n: nat :: Turns(data, wide, n) == EndOf(Parse(data, wide))
  {
    hide Turns;
    if ComesBack(data, wide) {
      var i: nat, j: nat :| i < j && Meets(data, wide, i, j);
      forall n: nat ensures Turns(data, wide, n).At? {
        GoesOn(data, wide, i, j, n);
      }
      assert Turns(data, wide, TurnBound(data)).At?;
    } else if Turns(data, wide, TurnBound(data)).At? {
      var i, j := BoundedTurnsMeet(data, wide);
      assert false;
    } else {
      assert Turns(data, wide, TurnBound(data)) == EndOf(Parse(data, wide));
    }
  }

  // ---------------------------------------------------------------- lengths that advance, stand still and go back

  /** No record length of zero or less is read at position `pos`. */
  predicate Advances(data: Bytes, pos: int) {
    var next := Slice(data, pos, pos + 1);
    || (next != [] && IsFiller(next[0]))
    || var length := Int(Slice(data, pos, pos + 5)); length.None? || length.value > 0
  }

  lemma NoTurns(data: Bytes, wide: Decoding)
    ensures Turns(data, wide, 0) == START
  {}

  lemma TurnAdvances(data: Bytes, wide: Decoding, l: Loop)
    requires l.At? && Advances(data, l.pos)
    ensures Turn(data, wide, l).At? ==> Turn(data, wide, l).pos > l.pos
  {
    hide Int, Slice, ParseRecord;
  }

  lemma {:induction false} PositionGrows(data: Bytes, wide: Decoding, n: nat)
    requires forall k: nat :: k < n && Turns(data, wide, k).At? ==> Advances(data, Turns(data, wide, k).pos)
    ensures Turns(data, wide, n).At? ==> Turns(data, wide, n).pos >= n
  {
    hide Turns, Turn, Advances;
    if n == 0 {
      assert Turns(data, wide, 0) == START by { NoTurns(data, wide); }
    } else {
      PositionGrows(data, wide, n - 1);
      TurnsNext(data, wide, n - 1);
      if Turns(data, wide, n - 1).At? {
        TurnAdvances(data, wide, Turns(data, wide, n - 1));
      } else {
        EndedStays(data, wide, n - 1, n);
      }
    }
  }

  /** If every length read is positive the parser ends, after at most one turn per byte and one to stop. */
  lemma AdvancingEnds(data: Bytes, wide: Decoding)
    requires forall n: nat :: Turns(data, wide, n).At? ==> Advances(data, Turns(data, wide, n).pos)
    ensures !Parse(data, wide).Hang? && Turns(data, wide, |data| + 1) == EndOf(Parse(data, wide))
  {
    hide Turns, Advances;
    PositionGrows(data, wide, |data|);
    PositionGrows(data, wide, |data| + 1);
    if Turns(data, wide, |data| + 1).At? {
      AtBefore(data, wide, |data|, |data| + 1);
      StopsAtEnd(data, wide);
    }
    EndedStays(data, wide, |data| + 1, TurnBound(data));
  }

  lemma StopsAtEnd(data: Bytes, wide: Decoding)
    requires Turns(data, wide, |data|).At? && Turns(data, wide, |data|).pos >= |data|
    ensures !Turns(data, wide, |data| + 1).At?
  {}

  /** At position `pos` a record of length `length` is read. */
  predicate ReadsLength(data: Bytes, pos: int, length: int) {
    var next := Slice(data, pos, pos + 1);
    && pos < |data| && (next == [] || !IsFiller(next[0]))
    && Int(Slice(data, pos, pos + 5)) == Some(length)
  }

  lemma ZeroTurn(data: Bytes, wide: Decoding, l: Loop)
    requires l.At? && ReadsLength(data, l.pos, 0)
    ensures Turn(data, wide, l) == l
  {
    assert Slice(data, l.pos, l.pos) == [];
    hide Int, Slice;
  }

  /** At a record length of zero, however it is spelt, a turn changes neither the position nor the records, and so does
      any number of turns. */
  lemma {:induction false} StuckAtZero(data: Bytes, wide: Decoding, m: nat, n: nat)
    requires m <= n && Turns(data, wide, m).At? && ReadsLength(data, Turns(data, wide, m).pos, 0)
    ensures Turns(data, wide, n) == Turns(data, wide, m)
  {
    hide ReadsLength, Turns, Turn;
    if m < n {
      StuckAtZero(data, wide, m, n - 1);
      TurnsNext(data, wide, n - 1);
      ZeroTurn(data, wide, Turns(data, wide, m));
    }
  }

  lemma UnderscoredZero()
    ensures Number([0x30, 0x30, UNDERSCORE, 0x30, 0x30]) == Some(0)
  {
    var pair: Bytes, mid: Bytes := [0x30, 0x30], [0x30, 0x30, UNDERSCORE, 0x30];
    NumberNext([0x30], 0);
    assert [0x30] + [0x30] == pair == mid[..2];
    assert Number(mid) == Some(0);
    NumberNext(mid, 0);
    assert mid + [0x30] == [0x30, 0x30, UNDERSCORE, 0x30, 0x30];
  }

  /** Zero need not be written "00000": `int` reads it from "+0000", "00_00" and "0000" with a line feed too. */
  lemma ZeroSpellings()
    ensures Int([PLUS, 0x30, 0x30, 0x30, 0x30]) == Some(0)
    ensures Int([0x30, 0x30, UNDERSCORE, 0x30, 0x30]) == Some(0)
    ensures Int([0x30, 0x30, 0x30, 0x30, 0x0A]) == Some(0)
  {
    var zeros: Bytes := [0x30, 0x30, 0x30, 0x30];
    DecimalNumber(0, 4);
    assert Decimal(0, 4) == zeros;
    assert [PLUS, 0x30, 0x30, 0x30, 0x30][1..] == zeros;
    assert [0x30, 0x30, 0x30, 0x30, 0x0A][..4] == zeros;
    UnderscoredZero();
  }

  /** A length that cuts out less than a leader moves the position and adds no record. */
  lemma ShortTurn(data: Bytes, wide: Decoding, l: Loop, length: int)
    requires l.At? && ReadsLength(data, l.pos, length) && |Slice(data, l.pos, l.pos + length)| < 24
    ensures Turn(data, wide, l) == At(l.pos + length, l.found)
  {
    hide Int, Slice;
  }

  /** The ten bytes "00005-0005". */
  const FORTH_AND_BACK: Bytes := [0x30, 0x30, 0x30, 0x30, 0x35, MINUS, 0x30, 0x30, 0x30, 0x35]

  lemma ReadsForth()
    ensures ReadsLength(FORTH_AND_BACK, 0, 5)
  {
    hide Int;
    DecimalInt(5, 5);
    assert Decimal(5, 5) == [0x30, 0x30, 0x30, 0x30, 0x35] == Slice(FORTH_AND_BACK, 0, 5);
  }

  lemma ReadsBack()
    ensures ReadsLength(FORTH_AND_BACK, 5, -5)
  {
    hide Number;
    DecimalNumber(5, 4);
    assert Decimal(5, 4) == [0x30, 0x30, 0x30, 0x35] == Slice(FORTH_AND_BACK, 5, 10)[1..];
  }

  /** Nor is a length of zero needed: on "00005-0005" the loop reads 5 and -5 in turn, and goes to and fro for ever. */
  lemma BackAndForth(wide: Decoding)
    ensures Turns(FORTH_AND_BACK, wide, 1) == At(5, []) && Turns(FORTH_AND_BACK, wide, 2) == START
    ensures Parse(FORTH_AND_BACK, wide) == Hang
  {
    var data := FORTH_AND_BACK;
    ReadsForth();
    ReadsBack();
    hide ReadsLength, Turn;
    ShortTurn(data, wide, START, 5);
    ShortTurn(data, wide, At(5, []), -5);
    TurnsNext(data, wide, 0);
    TurnsNext(data, wide, 1);
    assert Turns(data, wide, 0) == START;
    hide Turns;
    assert Meets(data, wide, 0, 2);
    GoesOn(data, wide, 0, 2, TurnBound(data));
  }

  // ---------------------------------------------------------------- files with separators

  /** What may stand between records: line feeds, carriage returns, spaces and record terminators. */
  predicate Gap(s: Bytes) { forall b | b in s :: b in {0x0A, 0x0D, 0x20, 0x1D} }

  /** Written records with something before, between and after them. */
  function Separated(records: seq<Record>, gaps: seq<Bytes>): Bytes
    requires |gaps| == |records| + 1
  {
    if records == [] then gaps[0]
    else
      var n := |records| - 1;
      Separated(records[..n], gaps[..n + 1]) + WriteRecord(records[n]) + gaps[n + 1]
  }

  lemma {:induction false} GapPassed(data: Bytes, wide: Decoding, n: nat, pos: nat, found: seq<Record>, gap: Bytes)
    requires Turns(data, wide, n) == At(pos, found) && Gap(gap)
    requires pos + |gap| <= |data| && data[pos..pos + |gap|] == gap
    ensures Turns(data, wide, n + |gap|) == At(pos + |gap|, found)
    decreases |gap|
  {
    hide Turns, Turn;
    if gap != [] {
      var k := |gap| - 1;
      assert data[pos..pos + k] == gap[..k];
      forall b | b in gap[..k] ensures b in gap {}
      GapPassed(data, wide, n, pos, found, gap[..k]);
      assert data[pos + k] == gap[k] && gap[k] in gap;
      FillerTurn(data, wide, pos + k, found);
      TurnsNext(data, wide, n + k);
    }
  }

  lemma FillerTurn(data: Bytes, wide: Decoding, pos: nat, found: seq<Record>)
    requires pos < |data| && data[pos] in {0x0A, 0x0D, 0x20, 0x1D}
    ensures Turn(data, wide, At(pos, found)) == At(pos + 1, found)
  {
    assert Slice(data, pos, pos + 1) == [data[pos]];
    hide Int, ParseRecord, Slice;
  }

  lemma RecordPassed(before: Bytes, r: Record, gap: Bytes, rest: Bytes, wide: Decoding, m: nat, found: seq<Record>)
    requires WellFormed(r.fields) && Gap(gap)
    requires Turns(before + WriteRecord(r) + gap + rest, wide, m) == At(|before|, found)
    ensures var data, chunk := before + WriteRecord(r) + gap + rest, WriteRecord(r);
            Turns(data, wide, m + 1 + |gap|) == At(|before| + |chunk| + |gap|, found + [AsRead(r)])
  {
    hide Turns, Turn, WriteRecord, WellFormed, AsRead, Gap;
    var data, chunk := before + WriteRecord(r) + gap + rest, WriteRecord(r);
    PartAt(before, chunk, gap, rest);
    RecordTurn(data, wide, |before|, r, found);
    TurnsNext(data, wide, m);
    GapPassed(data, wide, m + 1, |before| + |chunk|, found + [AsRead(r)], gap);
  }

  lemma SeparatedNext(records: seq<Record>, gaps: seq<Bytes>)
    requires |gaps| == |records| + 1
    ensures if records == [] then Separated(records, gaps) == gaps[0] && AllAsRead(records) == []
            else
              var n := |records| - 1;
              && Separated(records, gaps)
                   == Separated(records[..n], gaps[..n + 1]) + WriteRecord(records[n]) + gaps[n + 1]
              && AllAsRead(records) == AllAsRead(records[..n]) + [AsRead(records[n])]
  {
    hide WriteRecord, AsRead;
  }

  lemma {:induction false} RecordsPassed(records: seq<Record>, gaps: seq<Bytes>, wide: Decoding, rest: Bytes)
      returns (n: nat)
    requires AllWellFormed(records) && |gaps| == |records| + 1 && forall g | g in gaps :: Gap(g)
    ensures var head := Separated(records, gaps);
            n <= |head| && Turns(head + rest, wide, n) == At(|head|, AllAsRead(records))
    decreases |records|
  {
    hide Turns, Turn, WriteRecord, WellFormed, AsRead, Gap, Separated, AllAsRead;
    var head := Separated(records, gaps);
    SeparatedNext(records, gaps);
    if records == [] {
      assert (head + rest)[0..0 + |head|] == head && gaps[0] in gaps;
      NoTurns(head + rest, wide);
      GapPassed(head + rest, wide, 0, 0, [], gaps[0]);
      n := |gaps[0]|;
    } else {
      var k := |records| - 1;
      var before, r, gap := Separated(records[..k], gaps[..k + 1]), records[k], gaps[k + 1];
      assert r in records && gap in gaps;
      forall g | g in gaps[..k + 1] ensures Gap(g) {}
      var m := RecordsPassed(records[..k], gaps[..k + 1], wide, WriteRecord(r) + gap + rest);
      assert before + (WriteRecord(r) + gap + rest) == before + WriteRecord(r) + gap + rest;
      assert head + rest == before + WriteRecord(r) + gap + rest;
      RecordPassed(before, r, gap, rest, wide, m, AllAsRead(records[..k]));
      RecordNotEmpty(r);
      n := m + 1 + |gap|;
    }
  }

  lemma RecordNotEmpty(r: Record)
    requires WellFormed(r.fields)
    ensures |WriteRecord(r)| > 0
  {
    hide WriteRecord, WellFormed;
    WrittenLength(r);
  }

  lemma PartAt(before: Bytes, chunk: Bytes, gap: Bytes, rest: Bytes)
    ensures var data := before + chunk + gap + rest;
            && data[|before|..|before| + |chunk|] == chunk
            && data[|before| + |chunk|..|before| + |chunk| + |gap|] == gap
  {}

  /** Written records are read back, in order, whatever line ends, blanks and terminators stand around them. */
  lemma SeparatedRoundTrip(records: seq<Record>, gaps: seq<Bytes>, wide: Decoding)
    requires AllWellFormed(records) && |gaps| == |records| + 1 && forall g | g in gaps :: Gap(g)
    ensures Parse(Separated(records, gaps), wide) == Records(AllAsRead(records))
  {
    hide AllWellFormed, Separated, AllAsRead, Turns;
    var data := Separated(records, gaps);
    var n := RecordsPassed(records, gaps, wide, []);
    assert data + [] == data;
    TurnsNext(data, wide, n);
    EndedStays(data, wide, n + 1, TurnBound(data));
  }
}
