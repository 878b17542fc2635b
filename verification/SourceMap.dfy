/** Source maps: the positions recorded while compiling, printed as base64 variable-length quantities of
    differences, following the "Proposed Format" section of the Source Map Revision 3 Proposal. */
module SourceMaps {
  import opened JsArray

  // ---------------------------------------------------------------- base64 digits

  /** The alphabet of section 4 of RFC 4648. */
  const ALPHABET := "ABCDEFGHIJKLMNOP" + "QRSTUVWXYZabcdef" + "ghijklmnopqrstuv" + "wxyz0123456789+/"

  type Digit = d: nat | d < 64

  function EncodeBase64(d: Digit): char {
    ALPHABET[d]
  }

  /** The digit a character stands for. */
  function DecodeBase64(c: char): Option<Digit> {
    if 'A' <= c <= 'Z' then Some((c - 'A') as int)
    else if 'a' <= c <= 'z' then Some((c - 'a') as int + 26)
    else if '0' <= c <= '9' then Some((c - '0') as int + 52)
    else if c == '+' then Some(62)
    else if c == '/' then Some(63)
    else None
  }

  lemma Base64RoundTrip(d: Digit)
    ensures DecodeBase64(EncodeBase64(d)) == Some(d)
  {
    if d < 16 {
      Digits0(d);
    } else if d < 32 {
      Digits1(d - 16);
    } else if d < 48 {
      Digits2(d - 32);
    } else {
      Digits3(d - 48);
    }
  }

  lemma Digits0(k: nat)
    requires k < 16
    ensures DecodeBase64("ABCDEFGHIJKLMNOP"[k]) == Some(k)
  {
    match k {
      case 0 =>
      case 1 =>
      case 2 =>
      case 3 =>
      case 4 =>
      case 5 =>
      case 6 =>
      case 7 =>
      case 8 =>
      case 9 =>
      case 10 =>
      case 11 =>
      case 12 =>
      case 13 =>
      case 14 =>
      case 15 =>
    }
  }

  lemma Digits1(k: nat)
    requires k < 16
    ensures DecodeBase64("QRSTUVWXYZabcdef"[k]) == Some(16 + k)
  {
    match k {
      case 0 =>
      case 1 =>
      case 2 =>
      case 3 =>
      case 4 =>
      case 5 =>
      case 6 =>
      case 7 =>
      case 8 =>
      case 9 =>
      case 10 =>
      case 11 =>
      case 12 =>
      case 13 =>
      case 14 =>
      case 15 =>
    }
  }

  lemma Digits2(k: nat)
    requires k < 16
    ensures DecodeBase64("ghijklmnopqrstuv"[k]) == Some(32 + k)
  {
    match k {
      case 0 =>
      case 1 =>
      case 2 =>
      case 3 =>
      case 4 =>
      case 5 =>
      case 6 =>
      case 7 =>
      case 8 =>
      case 9 =>
      case 10 =>
      case 11 =>
      case 12 =>
      case 13 =>
      case 14 =>
      case 15 =>
    }
  }

  lemma Digits3(k: nat)
    requires k < 16
    ensures DecodeBase64("wxyz0123456789+/"[k]) == Some(48 + k)
  {
    match k {
      case 0 =>
      case 1 =>
      case 2 =>
      case 3 =>
      case 4 =>
      case 5 =>
      case 6 =>
      case 7 =>
      case 8 =>
      case 9 =>
      case 10 =>
      case 11 =>
      case 12 =>
      case 13 =>
      case 14 =>
      case 15 =>
    }
  }

  // ---------------------------------------------------------------- variable-length quantities

  const VLQ_SHIFT := 5
  const VLQ_CONTINUATION_BIT := 32

  /** The result of a JavaScript bit operation: the signed 32-bit number congruent to n. */
  function ToInt32(n: int): int {
    var m := n % 0x1_0000_0000;
    if m >= 0x8000_0000 then m - 0x1_0000_0000 else m
  }

  /** A signed 32-bit number is itself. */
  lemma ToInt32Small(n: int)
    requires -0x8000_0000 <= n < 0x8000_0000
    ensures ToInt32(n) == n
  {
    var q, m := n / 0x1_0000_0000, n % 0x1_0000_0000;
    assert n == q * 0x1_0000_0000 + m;
  }

  lemma ToInt32Bounds(n: int)
    ensures -0x8000_0000 <= ToInt32(n) < 0x8000_0000
    ensures exists q :: n == q * 0x1_0000_0000 + ToInt32(n)
  {
    var q, m := n / 0x1_0000_0000, n % 0x1_0000_0000;
    assert n == q * 0x1_0000_0000 + m;
    if m >= 0x8000_0000 { assert n == (q + 1) * 0x1_0000_0000 + ToInt32(n); } else { assert n == q * 0x1_0000_0000 + ToInt32(n); }
  }

  function Abs(n: int): nat { if n < 0 then -n else n }

  /** `(Math.abs(value) << 1) + signBit` */
  function SignedToVlq(value: int): int {
    ToInt32(ToInt32(Abs(value)) * 2) + (if value < 0 then 1 else 0)
  }

  /** The number a quantity stands for: the lowest bit is the sign. */
  function VlqToSigned(n: nat): int {
    if n % 2 == 1 then -(n / 2) else n / 2
  }

  /** The digits of a quantity, five bits each, lowest first, all but the last with the continuation bit. */
  function VlqDigits(n: nat): string {
    if n < 32 then [EncodeBase64(n)] else [EncodeBase64(n % 32 + 32)] + VlqDigits(n / 32)
  }

  /** Reads one quantity off the front of a string. */
  function ReadVlq(s: string): (r: Option<(nat, string)>)
    ensures r.Some? ==> |r.value.1| < |s|
  {
    if s == "" then None
    else
      match DecodeBase64(s[0])
      case None => None
      case Some(d) =>
        if d < 32 then Some((d, s[1..]))
        else
          match ReadVlq(s[1..])
          case None => None
          case Some(r) => Some((d - 32 + 32 * r.0, r.1))
  }

  /** Quantities are prefix-free: whatever follows, exactly the quantity written is read. */
  lemma {:induction false} VlqRoundTrip(n: nat, rest: string)
    ensures ReadVlq(VlqDigits(n) + rest) == Some((n, rest))
  {
    hide EncodeBase64, DecodeBase64;
    var s := VlqDigits(n) + rest;
    if n < 32 {
      Base64RoundTrip(n);
      assert s[1..] == rest;
    } else {
      Base64RoundTrip(n % 32 + 32);
      assert s[1..] == VlqDigits(n / 32) + rest;
      VlqRoundTrip(n / 32, rest);
    }
  }

  lemma SmallIsExact(value: int)
    requires Abs(value) < 0x4000_0000
    ensures SignedToVlq(value) == 2 * Abs(value) + (if value < 0 then 1 else 0)
    ensures VlqToSigned(SignedToVlq(value)) == value
  {
    ToInt32Small(Abs(value));
    ToInt32Small(Abs(value) * 2);
    hide ToInt32;
  }

  /** Shifting in 32 bits keeps a number exactly when its magnitude is below 2^30; beyond that the quantity
      is negative, for which printing would not end, or stands for another number. */
  lemma {:induction false} VlqExact(value: int)
    ensures SignedToVlq(value) >= 0 && VlqToSigned(SignedToVlq(value)) == value <==> Abs(value) < 0x4000_0000
  {
    if Abs(value) < 0x4000_0000 {
      SmallIsExact(value);
    } else {
      var k := ToInt32(Abs(value));
      ToInt32Bounds(k * 2);
      ShiftIsEven(k);
      hide ToInt32;
    }
  }

  /** At 2^30 the quantity is negative. */
  lemma VlqAtLimit()
    ensures SignedToVlq(0x4000_0000) == -0x8000_0000
  {
  }

  lemma ShiftIsEven(k: int)
    ensures ToInt32(k * 2) % 2 == 0
  {
    ToInt32Bounds(k * 2);
    var q :| k * 2 == q * 0x1_0000_0000 + ToInt32(k * 2);
    assert ToInt32(k * 2) == 2 * (k - q * 0x8000_0000);
  }

  /** `encodeVlq` */
  method EncodeVlq(value: int) returns (answer: string)
    requires SignedToVlq(value) >= 0
    ensures answer == VlqDigits(SignedToVlq(value))
  {
    answer := "";
    var toEncode: int := SignedToVlq(value);
    while toEncode != 0 || answer == ""
      invariant toEncode >= 0
      invariant toEncode == 0 && answer != "" ==> answer == VlqDigits(SignedToVlq(value))
      invariant toEncode != 0 || answer == "" ==> answer + VlqDigits(toEncode) == VlqDigits(SignedToVlq(value))
      decreases toEncode, answer == ""
    {
      var chunk := toEncode % 32;
      ghost var before := toEncode;
      toEncode := toEncode / 32;
      if toEncode != 0 { chunk := chunk + VLQ_CONTINUATION_BIT; }
      answer := answer + [EncodeBase64(chunk)];
    }
  }

  // ---------------------------------------------------------------- recorded positions

  /** One recorded position: a place in the generated code and where it comes from. */
  datatype Entry = Entry(line: nat, column: nat, sourceLine: nat, sourceColumn: nat)

  /** The positions recorded for one generated line, by column. */
  datatype LineMap = LineMap(line: nat, columns: seq<Option<Entry>>)

  /** The positions of a line from column d on, in order. */
  function LineEntries(columns: seq<Option<Entry>>, d: nat): seq<Entry>
    requires d <= |columns|
    decreases |columns| - d
  {
    if d == |columns| then []
    else (if columns[d].Some? then [columns[d].value] else []) + LineEntries(columns, d + 1)
  }

  /** All positions from line a on, in order. */
  function Entries(lines: seq<Option<LineMap>>, a: nat): seq<Entry>
    requires a <= |lines|
    decreases |lines| - a
  {
    if a == |lines| then []
    else (if lines[a].Some? then LineEntries(lines[a].value.columns, 0) else []) + Entries(lines, a + 1)
  }

  /** The position recorded for a place. */
  function Recorded(lines: seq<Option<LineMap>>, line: nat, column: nat): Option<Entry> {
    if At(lines, line).Some? then At(At(lines, line).value.columns, column) else None
  }

  /** Everything is stored under its own line and column. */
  ghost predicate Filed(lines: seq<Option<LineMap>>) {
    && (forall a :: 0 <= a < |lines| && lines[a].Some? ==> lines[a].value.line == a)
    && (forall a: nat, c: nat :: Recorded(lines, a, c).Some? ==>
          Recorded(lines, a, c).value.line == a && Recorded(lines, a, c).value.column == c)
  }

  const LIMIT := 0x4000_0000

  /** Before, by line and then by column. */
  predicate Earlier(a: Entry, b: Entry) {
    a.line < b.line || (a.line == b.line && a.column < b.column)
  }

  // ---------------------------------------------------------------- printing

  /** Where printing or reading stands: the line being written and the values differences refer to. */
  datatype Cursor = Cursor(line: nat, column: int, sourceLine: int, sourceColumn: int) {
    function NextLine(): Cursor { Cursor(line + 1, 0, sourceLine, sourceColumn) }
  }

  function Vlq(value: int): string {
    if SignedToVlq(value) >= 0 then VlqDigits(SignedToVlq(value)) else ""
  }

  /** One segment: four differences, the index of the only source among them. */
  function Segment(e: Entry, c: Cursor): string {
    Vlq(e.column - c.column) + Vlq(0) + Vlq(e.sourceLine - c.sourceLine) + Vlq(e.sourceColumn - c.sourceColumn)
  }

  function Advanced(e: Entry, c: Cursor): Cursor {
    Cursor(c.line, e.column, e.sourceLine, e.sourceColumn)
  }

  /** The printed mappings of entries in order of their lines: `;` ends a line, `,` separates segments. */
  function Mappings(es: seq<Entry>, c: Cursor, needComma: bool): string
    requires es == [] || es[0].line >= c.line
    requires InLineOrder(es)
    decreases |es|, if es == [] then 0 else es[0].line - c.line
  {
    if es == [] then ""
    else if es[0].line > c.line then ";" + Mappings(es, c.NextLine(), false)
    else (if needComma then "," else "") + Segment(es[0], c) + Mappings(es[1..], Advanced(es[0], c), true)
  }

  predicate InLineOrder(es: seq<Entry>) {
    forall i, j :: 0 <= i < j < |es| ==> es[i].line <= es[j].line
  }

  /** The numbers that are printed for entries: of each how far its column is from that of the last one in its line, and its
      source position from that of the last one. */
  function Differences(es: seq<Entry>, c: Cursor): seq<int>
    decreases |es|
  {
    if es == [] then []
    else
      var e := es[0];
      [e.column - (if e.line > c.line then 0 else c.column), e.sourceLine - c.sourceLine, e.sourceColumn - c.sourceColumn]
      + Differences(es[1..], Cursor(e.line, e.column, e.sourceLine, e.sourceColumn))
  }

  /** Printing ends: no quantity is negative. */
  predicate Printable(es: seq<Entry>, c: Cursor) {
    forall d :: d in Differences(es, c) ==> SignedToVlq(d) >= 0
  }

  predicate InReach(es: seq<Entry>, c: Cursor) {
    forall d :: d in Differences(es, c) ==> Abs(d) < LIMIT
  }

  lemma InReachIsPrintable(es: seq<Entry>, c: Cursor)
    requires InReach(es, c)
    ensures Printable(es, c)
  {
    forall d | d in Differences(es, c) ensures SignedToVlq(d) >= 0 { SmallIsExact(d); }
  }

  /** Differences of numbers below the limit are in reach. */
  lemma {:induction false} SmallInReach(es: seq<Entry>, c: Cursor)
    requires 0 <= c.column < LIMIT && 0 <= c.sourceLine < LIMIT && 0 <= c.sourceColumn < LIMIT
    requires forall e :: e in es ==> e.column < LIMIT && e.sourceLine < LIMIT && e.sourceColumn < LIMIT
    ensures InReach(es, c)
    decreases |es|
  {
    if es != [] {
      var e := es[0];
      assert e in es && forall x :: x in es[1..] ==> x in es;
      SmallInReach(es[1..], Cursor(e.line, e.column, e.sourceLine, e.sourceColumn));
    }
  }

  /** The differences of a line do not begin before it. */
  lemma SkippedLine(es: seq<Entry>, c: Cursor)
    requires es != [] && es[0].line > c.line
    ensures Differences(es, c.NextLine()) == Differences(es, c)
  {
  }

  lemma FirstDifferences(es: seq<Entry>, c: Cursor)
    requires es != [] && es[0].line == c.line
    ensures var e := es[0];
            Differences(es, c) == [e.column - c.column, e.sourceLine - c.sourceLine, e.sourceColumn - c.sourceColumn]
                                  + Differences(es[1..], Advanced(e, c))
  {
  }

  lemma FirstPrintable(es: seq<Entry>, c: Cursor)
    requires es != [] && es[0].line == c.line
    ensures Printable(es, c) <==> EntryPrintable(es[0], c) && Printable(es[1..], Advanced(es[0], c))
    ensures InReach(es, c) <==> EntryInReach(es[0], c) && InReach(es[1..], Advanced(es[0], c))
  {
    hide Differences, SignedToVlq;
    FirstDifferences(es, c);
    var e := es[0];
    var first := [e.column - c.column, e.sourceLine - c.sourceLine, e.sourceColumn - c.sourceColumn];
    assert first[0] in first && first[1] in first && first[2] in first;
    assert forall d :: d in Differences(es, c) <==> d in first || d in Differences(es[1..], Advanced(e, c));
  }

  predicate EntryPrintable(e: Entry, c: Cursor) {
    && SignedToVlq(e.column - c.column) >= 0
    && SignedToVlq(e.sourceLine - c.sourceLine) >= 0
    && SignedToVlq(e.sourceColumn - c.sourceColumn) >= 0
  }

  predicate EntryInReach(e: Entry, c: Cursor) {
    Abs(e.column - c.column) < LIMIT && Abs(e.sourceLine - c.sourceLine) < LIMIT && Abs(e.sourceColumn - c.sourceColumn) < LIMIT
  }

  // ---------------------------------------------------------------- reading back

  predicate EndsSegment(s: string) {
    s == "" || s[0] == ',' || s[0] == ';'
  }

  /** The fields of a segment, which ends at a `,`, a `;` or the end of the string. */
  function ReadFields(s: string): (r: Option<(seq<int>, string)>)
    ensures r.Some? ==> EndsSegment(r.value.1) && |r.value.1| <= |s| && (r.value.0 != [] ==> |r.value.1| < |s|)
    decreases |s|
  {
    if EndsSegment(s) then Some(([], s))
    else
      match ReadVlq(s)
      case None => None
      case Some(f) =>
        match ReadFields(f.1)
        case None => None
        case Some(r) => Some(([VlqToSigned(f.0)] + r.0, r.1))
  }

  /** Where a position comes from: the index of a source, and the place in it. */
  datatype Origin = Origin(source: int, line: int, column: int)

  /** A position as read: a segment of one field has no origin, and only one of five has the index of a name. */
  datatype Decoded = Decoded(line: nat, column: int, origin: Option<Origin>, name: Option<int>)

  /** What the fields of later segments count from. */
  datatype Reader = Reader(line: nat, column: int, origin: Origin, name: int)

  const READER := Reader(0, 0, Origin(0, 0, 0), 0)

  function Shifted(o: Origin, fields: seq<int>): Origin
    requires |fields| >= 4
  {
    Origin(o.source + fields[1], o.line + fields[2], o.column + fields[3])
  }

  /** A segment has one, four or five fields. */
  function Position(fields: seq<int>, c: Reader): Option<Decoded> {
    match |fields|
    case 1 => Some(Decoded(c.line, c.column + fields[0], None, None))
    case 4 => Some(Decoded(c.line, c.column + fields[0], Some(Shifted(c.origin, fields)), None))
    case 5 => Some(Decoded(c.line, c.column + fields[0], Some(Shifted(c.origin, fields)), Some(c.name + fields[4])))
    case _ => None
  }

  function After(c: Reader, d: Decoded): Reader {
    Reader(c.line, d.column, if d.origin.Some? then d.origin.value else c.origin, if d.name.Some? then d.name.value else c.name)
  }

  /** Decodes mappings by the proposal's rules: lines are ended by `;`, within a line segments are separated
      by `,`; the generated column starts again at 0 in each line, the other values carry on. */
  function Decode(s: string, c: Reader, inLine: bool): Option<seq<Decoded>>
    decreases |s|
  {
    if s == "" then Some([])
    else if s[0] == ';' then Decode(s[1..], c.(line := c.line + 1, column := 0), false)
    else if inLine && s[0] != ',' then None
    else
      match ReadFields(if inLine then s[1..] else s)
      case None => None
      case Some(r) =>
        match Position(r.0, c)
        case None => None
        case Some(d) =>
          match Decode(r.1, After(c, d), true)
          case None => None
          case Some(ds) => Some([d] + ds)
  }

  function ToDecoded(e: Entry): Decoded {
    Decoded(e.line, e.column, Some(Origin(0, e.sourceLine, e.sourceColumn)), None)
  }

  /** The positions of a map as they should be read: all in its only source, and without names. */
  function WithSource(es: seq<Entry>): seq<Decoded> {
    seq(|es|, k requires 0 <= k < |es| => ToDecoded(es[k]))
  }

  function ReaderAt(c: Cursor): Reader {
    Reader(c.line, c.column, Origin(0, c.sourceLine, c.sourceColumn), 0)
  }

  /** The number that is read back. */
  function Meant(value: int): int
    requires SignedToVlq(value) >= 0
  {
    VlqToSigned(SignedToVlq(value))
  }

  lemma ReadBack(value: int, rest: string)
    requires SignedToVlq(value) >= 0
    ensures ReadVlq(Vlq(value) + rest) == Some((SignedToVlq(value), rest))
    ensures |Vlq(value)| >= 1 && Vlq(value)[0] != ';' && Vlq(value)[0] != ','
  {
    VlqRoundTrip(SignedToVlq(value), rest);
    FirstDigit(SignedToVlq(value));
  }

  lemma FirstDigit(n: nat)
    ensures |VlqDigits(n)| >= 1 && VlqDigits(n)[0] != ';' && VlqDigits(n)[0] != ','
  {
    var d: Digit := if n < 32 then n else n % 32 + 32;
    Base64RoundTrip(d);
  }

  /** The fields of a segment as they are read. */
  function Fields(e: Entry, c: Cursor): (r: seq<int>)
    requires EntryPrintable(e, c)
    ensures |r| == 4
  {
    [Meant(e.column - c.column), 0, Meant(e.sourceLine - c.sourceLine), Meant(e.sourceColumn - c.sourceColumn)]
  }

  lemma {:induction false} SegmentRoundTrip(e: Entry, c: Cursor, rest: string)
    requires EntryPrintable(e, c) && EndsSegment(rest)
    ensures ReadFields(Segment(e, c) + rest) == Some((Fields(e, c), rest))
    ensures |Segment(e, c)| >= 1 && Segment(e, c)[0] != ';' && Segment(e, c)[0] != ','
  {
    Zero();
    hide Vlq, ReadVlq, VlqToSigned, ReadFields, EndsSegment, SignedToVlq, Meant;
    var a, b, d := e.column - c.column, e.sourceLine - c.sourceLine, e.sourceColumn - c.sourceColumn;
    var r3 := Vlq(d) + rest;
    var r2 := Vlq(b) + r3;
    var r1 := Vlq(0) + r2;
    NoFields(rest);
    ReadOne(d, rest, []);
    ReadOne(b, r3, [Meant(d)]);
    ReadOne(0, r2, [Meant(b)] + [Meant(d)]);
    ReadOne(a, r1, [0] + ([Meant(b)] + [Meant(d)]));
    ReadBack(a, r1);
    assert Segment(e, c) + rest == Vlq(a) + r1;
    assert [Meant(d)] + [] == [Meant(d)];
    assert [Meant(a)] + ([0] + ([Meant(b)] + [Meant(d)])) == Fields(e, c);
  }

  lemma Zero()
    ensures SignedToVlq(0) == 0 && Meant(0) == 0
  {
  }

  /** They give the position that was recorded exactly when the three differences are in reach. */
  lemma PositionExact(e: Entry, c: Cursor)
    requires EntryPrintable(e, c) && e.line == c.line
    ensures Position(Fields(e, c), ReaderAt(c)).Some?
    ensures Position(Fields(e, c), ReaderAt(c)) == Some(ToDecoded(e)) <==> EntryInReach(e, c)
    ensures EntryInReach(e, c) ==> After(ReaderAt(c), ToDecoded(e)) == ReaderAt(Advanced(e, c))
  {
    hide SignedToVlq, VlqToSigned;
    VlqExact(e.column - c.column);
    VlqExact(e.sourceLine - c.sourceLine);
    VlqExact(e.sourceColumn - c.sourceColumn);
  }

  lemma NoFields(rest: string)
    requires EndsSegment(rest)
    ensures ReadFields(rest) == Some(([], rest))
  {
  }

  /** One field in front of others. */
  lemma ReadOne(value: int, more: string, fields: seq<int>)
    requires SignedToVlq(value) >= 0 && ReadFields(more).Some? && ReadFields(more).value.0 == fields
    ensures ReadFields(Vlq(value) + more) == Some(([Meant(value)] + fields, ReadFields(more).value.1))
  {
    ReadBack(value, more);
    hide Vlq, ReadVlq, VlqToSigned, SignedToVlq;
    assert (Vlq(value) + more)[0] == Vlq(value)[0];
  }

  lemma DecodeSegment(segment: string, rest: string, c: Reader, needComma: bool, fields: seq<int>, d: Decoded)
    requires |segment| >= 1 && segment[0] != ';' && segment[0] != ','
    requires ReadFields(segment + rest) == Some((fields, rest)) && Position(fields, c) == Some(d)
    ensures Decode((if needComma then "," else "") + segment + rest, c, needComma) ==
            match Decode(rest, After(c, d), true)
            case None => None
            case Some(ds) => Some([d] + ds)
  {
    hide ReadFields, Position;
    var from := segment + rest;
    var s := (if needComma then "," else "") + segment + rest;
    assert s == if needComma then "," + from else from;
    assert needComma ==> s[1..] == from;
    assert !needComma ==> s[0] == segment[0];
  }

  lemma RestEnds(es: seq<Entry>, c: Cursor)
    requires InLineOrder(es) && (es == [] || es[0].line >= c.line)
    ensures EndsSegment(Mappings(es, c, true))
  {
    hide Segment, InLineOrder;
  }

  /** Decoding what was printed gives back the recorded positions, in order, if and only if all differences are in reach. */
  lemma {:induction false} MappingsRoundTrip(es: seq<Entry>, c: Cursor, needComma: bool)
    requires InLineOrder(es) && (es == [] || es[0].line >= c.line) && Printable(es, c)
    ensures Decode(Mappings(es, c, needComma), ReaderAt(c), needComma) == Some(WithSource(es)) <==> InReach(es, c)
    decreases |es|, if es == [] then 0 else es[0].line - c.line
  {
    hide Segment, ReadFields, Vlq, Differences, SignedToVlq, Printable, InReach;
    if es == [] {
      NothingPrinted(c);
      assert WithSource(es) == [];
    } else if es[0].line > c.line {
      SkippedAlike(es, c);
      MappingsRoundTrip(es, c.NextLine(), false);
      assert (";" + Mappings(es, c.NextLine(), false))[1..] == Mappings(es, c.NextLine(), false);
    } else {
      hide Decode, EndsSegment, EntryPrintable, EntryInReach, Position, Fields;
      var e, next := es[0], Advanced(es[0], c);
      var rest := Mappings(es[1..], next, true);
      FirstPrintable(es, c);
      MappingsRoundTrip(es[1..], next, true);
      RestEnds(es[1..], next);
      SegmentRoundTrip(e, c, rest);
      PositionExact(e, c);
      var d := Position(Fields(e, c), ReaderAt(c)).value;
      DecodeSegment(Segment(e, c), rest, ReaderAt(c), needComma, Fields(e, c), d);
      FirstRead(es, d);
    }
  }

  lemma NothingPrinted(c: Cursor)
    ensures InReach([], c)
  {
  }

  lemma SkippedAlike(es: seq<Entry>, c: Cursor)
    requires es != [] && es[0].line > c.line
    ensures (Printable(es, c) <==> Printable(es, c.NextLine())) && (InReach(es, c) <==> InReach(es, c.NextLine()))
  {
    SkippedLine(es, c);
  }

  lemma FirstRead(es: seq<Entry>, d: Decoded)
    requires es != []
    ensures forall ds :: [d] + ds == WithSource(es) <==> d == ToDecoded(es[0]) && ds == WithSource(es[1..])
  {
    var ws := WithSource(es);
    assert ws == [ToDecoded(es[0])] + WithSource(es[1..]);
    forall ds ensures [d] + ds == ws <==> d == ToDecoded(es[0]) && ds == WithSource(es[1..]) {
      assert ([d] + ds)[0] == d && ([d] + ds)[1..] == ds && ws[1..] == WithSource(es[1..]);
    }
  }

  // ---------------------------------------------------------------- what is recorded, in order

  ghost predicate InOrder(es: seq<Entry>) {
    forall i, j :: 0 <= i < j < |es| ==> Earlier(es[i], es[j])
  }

  lemma JoinInOrder(xs: seq<Entry>, ys: seq<Entry>)
    requires InOrder(xs) && InOrder(ys) && (forall x, y :: x in xs && y in ys ==> Earlier(x, y))
    ensures InOrder(xs + ys)
  {
    var es := xs + ys;
    forall i, j | 0 <= i < j < |es| ensures Earlier(es[i], es[j]) {
      if i < |xs| && j >= |xs| { assert es[i] in xs && es[j] in ys; }
    }
  }

  /** The entries from a line on: in order, none in an earlier line, and exactly those recorded. */
  lemma {:induction false} EntriesFollow(lines: seq<Option<LineMap>>, a: nat)
    requires Filed(lines) && a <= |lines|
    ensures InOrder(Entries(lines, a)) && InLineOrder(Entries(lines, a)) && Started(Entries(lines, a), a)
    ensures forall e :: e in Entries(lines, a) <==> e.line >= a && Recorded(lines, e.line, e.column) == Some(e)
    decreases |lines| - a
  {
    hide InOrder, Earlier, LineEntries, InLineOrder, Filed, Started;
    if a < |lines| {
      EntriesFollow(lines, a + 1);
      var rest := Entries(lines, a + 1);
      NextLineEntries(lines, a);
      if lines[a].Some? {
        LineRecorded(lines, a);
        var here := LineEntries(lines[a].value.columns, 0);
        LaterLines(a, here, rest);
        JoinInOrder(here, rest);
        hide Entries;
        assert forall e :: e in here + rest <==> e in here || e in rest;
      } else {
        NotRecorded(lines, a);
      }
    } else {
      NoneInOrder();
      NotRecordedPast(lines);
    }
    Ordered(Entries(lines, a), a);
  }

  lemma NotRecorded(lines: seq<Option<LineMap>>, a: nat)
    requires a < |lines| && lines[a].None?
    ensures forall e: Entry :: Recorded(lines, e.line, e.column) == Some(e) ==> e.line != a
  {
  }

  lemma NotRecordedPast(lines: seq<Option<LineMap>>)
    ensures forall e: Entry :: Recorded(lines, e.line, e.column) == Some(e) ==> e.line < |lines|
  {
  }

  lemma NoneInOrder()
    ensures InOrder([])
  {
  }

  lemma LaterLines(a: nat, here: seq<Entry>, rest: seq<Entry>)
    requires (forall e :: e in here ==> e.line == a) && (forall e :: e in rest ==> e.line > a)
    ensures forall x, y :: x in here && y in rest ==> Earlier(x, y)
  {
  }

  lemma Ordered(es: seq<Entry>, a: nat)
    requires InOrder(es) && forall e :: e in es ==> e.line >= a
    ensures InLineOrder(es) && Started(es, a)
  {
    if es != [] { assert es[0] in es; }
  }

  lemma LineRecorded(lines: seq<Option<LineMap>>, a: nat)
    requires Filed(lines) && a < |lines| && lines[a].Some?
    ensures var here := LineEntries(lines[a].value.columns, 0);
            InOrder(here) && forall e :: e in here <==> e.line == a && Recorded(lines, e.line, e.column) == Some(e)
  {
    var columns := lines[a].value.columns;
    forall c: nat | At(columns, c).Some? ensures At(columns, c).value.line == a && At(columns, c).value.column == c {
      assert Recorded(lines, a, c) == At(columns, c);
    }
    LineFollows(columns, a, 0);
    hide InOrder, LineEntries;
  }

  lemma {:induction false} LineFollows(columns: seq<Option<Entry>>, line: nat, d: nat)
    requires d <= |columns|
    requires forall c: nat :: At(columns, c).Some? ==> At(columns, c).value.line == line && At(columns, c).value.column == c
    ensures InOrder(LineEntries(columns, d))
    ensures forall e :: e in LineEntries(columns, d) <==> e.line == line && e.column >= d && At(columns, e.column) == Some(e)
    decreases |columns| - d
  {
    hide InOrder, Earlier;
    if d < |columns| {
      LineFollows(columns, line, d + 1);
      var rest := LineEntries(columns, d + 1);
      assert At(columns, d) == columns[d];
      if columns[d].Some? {
        FirstInOrder(columns[d].value, rest);
        assert LineEntries(columns, d) == [columns[d].value] + rest;
      } else {
        assert LineEntries(columns, d) == rest;
      }
    } else {
      NoneInOrder();
    }
  }

  lemma FirstInOrder(e: Entry, rest: seq<Entry>)
    requires InOrder(rest) && forall x :: x in rest ==> x.line == e.line && x.column > e.column
    ensures InOrder([e] + rest)
    ensures forall x :: x in [e] + rest <==> x == e || x in rest
  {
    assert InOrder([e]);
    JoinInOrder([e], rest);
  }

  const BEGINNING := Cursor(0, 0, 0, 0)

  /** What is generated decodes, by the proposal's rules, to the recorded positions in order of place: if and only if every
      difference that is printed is below 2^30 in magnitude. */
  lemma GenerateIsLossless(lines: seq<Option<LineMap>>)
    requires Filed(lines) && Printable(Entries(lines, 0), BEGINNING)
    ensures InLineOrder(Entries(lines, 0)) && Started(Entries(lines, 0), 0)
    ensures Decode(Mappings(Entries(lines, 0), BEGINNING, false), READER, false) == Some(WithSource(Entries(lines, 0)))
            <==> InReach(Entries(lines, 0), BEGINNING)
    ensures forall e :: e in Entries(lines, 0) <==> Recorded(lines, e.line, e.column) == Some(e)
  {
    EntriesFollow(lines, 0);
    MappingsRoundTrip(Entries(lines, 0), BEGINNING, false);
  }

  /** The entries to come are not in lines already written. */
  predicate Started(es: seq<Entry>, line: nat) {
    es == [] || es[0].line >= line
  }

  /** Line a is the last one up to `line` that has a map, and c the last column in it up to `column` with a position. */
  ghost predicate Nearest(lines: seq<Option<LineMap>>, line: nat, column: nat, a: nat, c: nat) {
    && a <= line && c <= column && Recorded(lines, a, c).Some?
    && (forall b :: a < b <= line ==> At(lines, b) == None)
    && (forall d :: c < d <= column ==> At(At(lines, a).value.columns, d) == None)
  }

  // ---------------------------------------------------------------- the class

  class SourceMap {
    var lines: seq<Option<LineMap>>

    constructor ()
      ensures lines == [] && Filed(lines)
    {
      lines := [];
    }

    /** Records a position; with `noReplace` an earlier one for the same place is kept. */
    method Add(sourceLine: nat, sourceColumn: nat, line: nat, column: nat, noReplace: bool)
      requires Filed(lines)
      modifies this
      ensures Filed(lines)
      ensures forall a: nat, c: nat :: (a, c) != (line, column) ==> Recorded(lines, a, c) == old(Recorded(lines, a, c))
      ensures Recorded(lines, line, column) ==
              if noReplace && old(Recorded(lines, line, column)).Some? then old(Recorded(lines, line, column))
              else Some(Entry(line, column, sourceLine, sourceColumn))
    {
      ghost var before := lines;
      if At(lines, line) == None {
        lines := Put(lines, line, Some(LineMap(line, [])));
        FiledPut(before, LineMap(line, []));
      }
      var lineMap := At(lines, line).value;
      if !(At(lineMap.columns, column).Some? && noReplace) {
        var entry := Entry(lineMap.line, column, sourceLine, sourceColumn);
        ghost var was := lines;
        lineMap := lineMap.(columns := Put(lineMap.columns, column, Some(entry)));
        lines := Put(lines, line, Some(lineMap));
        forall c: nat | At(lineMap.columns, c).Some? ensures At(lineMap.columns, c).value.line == line && At(lineMap.columns, c).value.column == c {
          assert c != column ==> Recorded(was, line, c) == At(lineMap.columns, c);
        }
        FiledPut(was, lineMap);
      }
    }

    /** The source position of a generated one: the nearest recorded at or before its column, in the nearest
        line at or before it that has a map. */
    method SourceLocation(line: nat, column: nat) returns (location: Option<(nat, nat)>)
      ensures forall a: nat, c: nat :: a <= line && c <= column && Nearest(lines, line, column, a, c) ==>
                location == Some((Recorded(lines, a, c).value.sourceLine, Recorded(lines, a, c).value.sourceColumn))
      ensures (forall a: nat, c: nat :: !Nearest(lines, line, column, a, c)) ==> location == None
    {
      var a := line;
      while At(lines, a) == None && a > 0
        invariant a <= line && forall b :: a < b <= line ==> At(lines, b) == None
      {
        a := a - 1;
      }
      location := None;
      if At(lines, a).Some? {
        var columns := At(lines, a).value.columns;
        var c := column;
        while At(columns, c) == None && c > 0
          invariant c <= column && forall d :: c < d <= column ==> At(columns, d) == None
        {
          c := c - 1;
        }
        if At(columns, c).Some? {
          assert Nearest(lines, line, column, a, c);
          location := Some((At(columns, c).value.sourceLine, At(columns, c).value.sourceColumn));
        }
      }
    }

    /** The `mappings` of the map. */
    method Generate() returns (mappings: string)
      requires Filed(lines) && Printable(Entries(lines, 0), BEGINNING)
      ensures InLineOrder(Entries(lines, 0))
      ensures mappings == Mappings(Entries(lines, 0), BEGINNING, false)
    {
      hide Printing, InLineOrder, Printable, LineEntries, Entries, Filed, Started, Mappings, InOrder, Recorded;
      EntriesFollow(lines, 0);
      StartsWhole(Entries(lines, 0));
      ghost var whole := Mappings(Entries(lines, 0), BEGINNING, false);
      mappings := "";
      var cursor, needComma := BEGINNING, false;
      var a := 0;
      while a < |lines|
        invariant a <= |lines| && Printing(whole, mappings, Entries(lines, a), cursor, needComma)
      {
        NextLineEntries(lines, a);
        if lines[a].Some? {
          mappings, cursor, needComma := PrintLine(lines[a].value.columns, mappings, cursor, needComma, whole, Entries(lines, a + 1));
        }
        a := a + 1;
      }
      NoEntries(lines);
      AllPrinted(whole, mappings, cursor, needComma);
    }
  }

  /** Putting a line's map in its place changes what is recorded for that line only. */
  lemma FiledPut(lines: seq<Option<LineMap>>, m: LineMap)
    requires Filed(lines)
    requires forall c: nat :: At(m.columns, c).Some? ==> At(m.columns, c).value.line == m.line && At(m.columns, c).value.column == c
    ensures Filed(Put(lines, m.line, Some(m)))
    ensures forall a: nat, c: nat :: Recorded(Put(lines, m.line, Some(m)), a, c) == if a == m.line then At(m.columns, c) else Recorded(lines, a, c)
  {
    var now := Put(lines, m.line, Some(m));
    forall a | 0 <= a < |now| && now[a].Some? ensures now[a].value.line == a {
      assert At(now, a) == now[a];
      if a != m.line {
        assert At(now, a) == At(lines, a);
        assert a < |lines| && lines[a].Some?;
      }
    }
    forall a: nat, c: nat | Recorded(now, a, c).Some?
      ensures Recorded(now, a, c).value.line == a && Recorded(now, a, c).value.column == c
    {
      assert At(now, a) == if a == m.line then Some(m) else At(lines, a);
      if a != m.line { assert Recorded(lines, a, c) == Recorded(now, a, c); }
    }
  }

  /** What is written so far, continued with what the entries to come are printed as, is the whole. */
  ghost predicate Printing(whole: string, mappings: string, rest: seq<Entry>, c: Cursor, needComma: bool) {
    && InLineOrder(rest) && Printable(rest, c) && Started(rest, c.line)
    && mappings + Mappings(rest, c, needComma) == whole
  }

  lemma StartsWhole(all: seq<Entry>)
    requires InLineOrder(all) && Printable(all, BEGINNING) && Started(all, 0)
    ensures Printing(Mappings(all, BEGINNING, false), "", all, BEGINNING, false)
  {
    assert "" + Mappings(all, BEGINNING, false) == Mappings(all, BEGINNING, false);
  }

  lemma AllPrinted(whole: string, mappings: string, c: Cursor, needComma: bool)
    requires Printing(whole, mappings, [], c, needComma)
    ensures mappings == whole
  {
    assert mappings + "" == mappings;
  }

  lemma NextEntry(columns: seq<Option<Entry>>, d: nat, more: seq<Entry>)
    requires d < |columns|
    ensures columns[d].Some? ==> LineEntries(columns, d) + more == [columns[d].value] + (LineEntries(columns, d + 1) + more)
    ensures columns[d].None? ==> LineEntries(columns, d) + more == LineEntries(columns, d + 1) + more
  {
    if columns[d].None? { assert LineEntries(columns, d) == LineEntries(columns, d + 1); }
  }

  lemma NextLineEntries(lines: seq<Option<LineMap>>, a: nat)
    requires a < |lines|
    ensures lines[a].Some? ==> Entries(lines, a) == LineEntries(lines[a].value.columns, 0) + Entries(lines, a + 1)
    ensures lines[a].None? ==> Entries(lines, a) == Entries(lines, a + 1)
  {
    hide LineEntries;
  }

  lemma NoEntries(lines: seq<Option<LineMap>>)
    ensures Entries(lines, |lines|) == []
  {
  }

  lemma NoMoreEntries(columns: seq<Option<Entry>>, more: seq<Entry>)
    ensures LineEntries(columns, |columns|) + more == more
  {
  }

  /** Prints the entries of one line. */
  method PrintLine(columns: seq<Option<Entry>>, written: string, c: Cursor, due: bool, ghost whole: string, ghost more: seq<Entry>)
      returns (mappings: string, cursor: Cursor, needComma: bool)
    requires Printing(whole, written, LineEntries(columns, 0) + more, c, due)
    ensures Printing(whole, mappings, more, cursor, needComma)
  {
    hide Printing, LineEntries;
    mappings, cursor, needComma := written, c, due;
    var d := 0;
    while d < |columns|
      invariant d <= |columns|
      invariant Printing(whole, mappings, LineEntries(columns, d) + more, cursor, needComma)
    {
      NextEntry(columns, d, more);
      if columns[d].Some? {
        mappings, cursor, needComma := Print(columns[d].value, mappings, cursor, needComma, whole, LineEntries(columns, d + 1) + more);
      }
      d := d + 1;
    }
    NoMoreEntries(columns, more);
  }

  /** Prints the next entry: the ends of the lines before it, a comma if one is due, its segment. */
  method Print(e: Entry, written: string, c: Cursor, due: bool, ghost whole: string, ghost rest: seq<Entry>)
      returns (mappings: string, cursor: Cursor, needComma: bool)
    requires Printing(whole, written, [e] + rest, c, due)
    ensures Printing(whole, mappings, rest, cursor, needComma)
  {
    mappings, cursor, needComma := written, c, due;
    while e.line > cursor.line
      invariant Printing(whole, mappings, [e] + rest, cursor, needComma)
      decreases e.line - cursor.line
    {
      LineEnds(whole, mappings, e, rest, cursor, needComma);
      mappings, cursor, needComma := mappings + ";", cursor.NextLine(), false;
    }
    EntryPrinted(e, rest, cursor, needComma);
    Zero();
    assert forall v :: SignedToVlq(v) >= 0 ==> Vlq(v) == VlqDigits(SignedToVlq(v));
    hide Vlq, VlqDigits, SignedToVlq, Mappings, InLineOrder, Printable;
    StringSteps(mappings, if needComma then "," else "", Vlq(e.column - cursor.column), Vlq(0), Vlq(e.sourceLine - cursor.sourceLine),
                Vlq(e.sourceColumn - cursor.sourceColumn), Mappings(rest, Advanced(e, cursor), true));
    if !needComma { assert mappings + "" == mappings; }
    if needComma { mappings, needComma := mappings + ",", false; }
    var v := EncodeVlq(e.column - cursor.column);
    mappings := mappings + v;
    v := EncodeVlq(0);
    mappings := mappings + v;
    v := EncodeVlq(e.sourceLine - cursor.sourceLine);
    mappings := mappings + v;
    v := EncodeVlq(e.sourceColumn - cursor.sourceColumn);
    mappings := mappings + v;
    cursor, needComma := Advanced(e, cursor), true;
  }

  lemma LineEnds(whole: string, written: string, e: Entry, rest: seq<Entry>, c: Cursor, needComma: bool)
    requires Printing(whole, written, [e] + rest, c, needComma) && e.line > c.line
    ensures Printing(whole, written + ";", [e] + rest, c.NextLine(), false)
  {
    hide InLineOrder, Printable;
    var es := [e] + rest;
    assert es[0] == e;
    SkippedAlike(es, c);
    LineStep(es, c, needComma);
    hide Mappings;
    Joined(written, ";", Mappings(es, c.NextLine(), false));
  }

  lemma LineStep(es: seq<Entry>, c: Cursor, needComma: bool)
    requires es != [] && InLineOrder(es) && es[0].line > c.line
    ensures Mappings(es, c, needComma) == ";" + Mappings(es, c.NextLine(), false)
  {
    hide InLineOrder;
  }

  lemma Joined(a: string, b: string, c: string)
    ensures a + (b + c) == (a + b) + c
  {
  }

  /** The text of the next entry, and what is left to print after it. */
  lemma EntryPrinted(e: Entry, rest: seq<Entry>, c: Cursor, needComma: bool)
    requires InLineOrder([e] + rest) && Printable([e] + rest, c) && Started([e] + rest, c.line) && e.line <= c.line
    ensures InLineOrder(rest) && Printable(rest, Advanced(e, c)) && EntryPrintable(e, c) && Started(rest, c.line)
    ensures Mappings([e] + rest, c, needComma) ==
            (if needComma then "," else "") + (Vlq(e.column - c.column) + Vlq(0) + Vlq(e.sourceLine - c.sourceLine) + Vlq(e.sourceColumn - c.sourceColumn))
            + Mappings(rest, Advanced(e, c), true)
  {
    var es := [e] + rest;
    assert es[1..] == rest && es[0] == e;
    FirstPrintable(es, c);
    RestOrder(e, rest);
    hide InLineOrder, Printable, Vlq, EntryPrintable;
    MappingsStep(e, rest, c, needComma);
  }

  lemma RestOrder(e: Entry, rest: seq<Entry>)
    requires InLineOrder([e] + rest)
    ensures InLineOrder(rest) && Started(rest, e.line)
  {
    var es := [e] + rest;
    forall i, j | 0 <= i < j < |rest| ensures rest[i].line <= rest[j].line {
      assert rest[i] == es[i + 1] && rest[j] == es[j + 1];
    }
    if rest != [] { assert es[0].line <= es[1].line; }
  }

  lemma MappingsStep(e: Entry, rest: seq<Entry>, c: Cursor, needComma: bool)
    requires InLineOrder([e] + rest) && InLineOrder(rest) && e.line == c.line && Started(rest, c.line)
    ensures Mappings([e] + rest, c, needComma) ==
            (if needComma then "," else "") + Segment(e, c) + Mappings(rest, Advanced(e, c), true)
  {
    hide Segment, InLineOrder;
    assert ([e] + rest)[1..] == rest;
  }

  lemma StringSteps(s: string, comma: string, a: string, b: string, c: string, d: string, rest: string)
    ensures s + (comma + (a + b + c + d) + rest) == (s + comma) + a + b + c + d + rest
  {
  }
}
