/** Lines of text, positions in them, and their relation to one flat string.
    A string is a sequence of UTF-16 code units, as in JavaScript. */
module TextModel {

  type Unit = u: int | 0 <= u < 0x1_0000
  type Text = seq<Unit>

  const NL: Unit := 10
  const CR: Unit := 13

  predicate IsLine(t: Text) {
    NL !in t && CR !in t
  }

  predicate AllLines(lines: seq<Text>) {
    forall k :: 0 <= k < |lines| ==> IsLine(lines[k])
  }

  // ---------------------------------------------------------------- splitting

  /** `text.split(/\r\n|\r|\n/)` */
  function Split(t: Text): (r: seq<Text>)
    ensures |r| >= 1
    ensures AllLines(r)
  {
    if t == [] then [[]]
    else if t[0] == CR && |t| > 1 && t[1] == NL then [[]] + Split(t[2..])
    else if t[0] == CR || t[0] == NL then [[]] + Split(t[1..])
    else var rest := Split(t[1..]); [[t[0]] + rest[0]] + rest[1..]
  }

  /** `text.replace(/\r\n|\r/g, "\n")` */
  function Normalize(t: Text): (r: Text)
    ensures CR !in r
  {
    if t == [] then []
    else if t[0] == CR && |t| > 1 && t[1] == NL then [NL] + Normalize(t[2..])
    else if t[0] == CR then [NL] + Normalize(t[1..])
    else [t[0]] + Normalize(t[1..])
  }

  /** `text.split("\n")` */
  function SplitNewLines(t: Text): (r: seq<Text>)
    ensures |r| >= 1
  {
    if t == [] then [[]]
    else if t[0] == NL then [[]] + SplitNewLines(t[1..])
    else var rest := SplitNewLines(t[1..]); [[t[0]] + rest[0]] + rest[1..]
  }

  /** `lines.join("\n")` */
  function Flat(lines: seq<Text>): Text {
    if |lines| == 0 then []
    else if |lines| == 1 then lines[0]
    else lines[0] + [NL] + Flat(lines[1..])
  }

  lemma {:induction false} FlatCons(line: Text, rest: seq<Text>)
    ensures Flat([line] + rest) == if rest == [] then line else line + [NL] + Flat(rest)
  {
    assert ([line] + rest)[1..] == rest;
  }

  /** Putting a character in front of the first line puts it in front of the flat text. */
  lemma {:induction false} FlatPush(u: Unit, rest: seq<Text>)
    requires |rest| >= 1
    ensures Flat([[u] + rest[0]] + rest[1..]) == [u] + Flat(rest)
  {
    FlatCons([u] + rest[0], rest[1..]);
    assert rest == [rest[0]] + rest[1..];
    FlatCons(rest[0], rest[1..]);
  }

  lemma FlatNothing()
    ensures Flat([[]]) == []
  {
  }

  /** The two ways of splitting agree, and joining the pieces normalises the newlines. */
  lemma {:induction false} SplitAgrees(t: Text)
    ensures Split(t) == SplitNewLines(Normalize(t))
    ensures Flat(Split(t)) == Normalize(t)
  {
    hide Flat;
    if t == [] {
      FlatNothing();
    } else if t[0] == CR && |t| > 1 && t[1] == NL {
      SplitAgrees(t[2..]);
      FlatCons([], Split(t[2..]));
      assert Normalize(t)[1..] == Normalize(t[2..]);
    } else if t[0] == CR || t[0] == NL {
      SplitAgrees(t[1..]);
      FlatCons([], Split(t[1..]));
      assert Normalize(t)[1..] == Normalize(t[1..]);
    } else {
      SplitAgrees(t[1..]);
      FlatPush(t[0], Split(t[1..]));
      assert Normalize(t)[1..] == Normalize(t[1..]);
    }
  }

  /** The flat text determines the lines: splitting undoes joining. */
  lemma {:induction false} SplitFlat(lines: seq<Text>)
    requires |lines| >= 1 && AllLines(lines)
    ensures Split(Flat(lines)) == lines
    decreases |lines|, if |lines| > 0 then |lines[0]| else 0
  {
    if lines[0] == [] {
      if |lines| > 1 {
        SplitFlat(lines[1..]);
        assert Flat(lines)[1..] == Flat(lines[1..]);
      }
    } else {
      var u := lines[0][0];
      assert u in lines[0];
      var shorter := [lines[0][1..]] + lines[1..];
      assert forall x :: x in lines[0][1..] ==> x in lines[0];
      SplitFlat(shorter);
      FlatPush(u, shorter);
      assert [u] + shorter[0] == lines[0];
      assert [[u] + shorter[0]] + shorter[1..] == lines;
      assert Flat(lines)[1..] == Flat(shorter);
    }
  }

  lemma {:induction false} SplitPlain(t: Text)
    requires IsLine(t)
    ensures Split(t) == [t] && Normalize(t) == t
  {
    assert Flat([t]) == t;
    SplitFlat([t]);
    SplitAgrees(t);
  }

  /** Flat text of proper lines has no carriage return, so normalising leaves it alone. */
  lemma {:induction false} NormalizeFlat(lines: seq<Text>)
    requires |lines| >= 1 && AllLines(lines)
    ensures Normalize(Flat(lines)) == Flat(lines)
  {
    SplitFlat(lines);
    SplitAgrees(Flat(lines));
  }

  // ---------------------------------------------------------------- joining line lists

  /** Concatenation of two texts given as lines: the last line of one runs into the first of the next. */
  function Join(a: seq<Text>, b: seq<Text>): (r: seq<Text>)
    requires |a| >= 1 && |b| >= 1
    ensures |r| == |a| + |b| - 1
  {
    a[..|a| - 1] + [a[|a| - 1] + b[0]] + b[1..]
  }

  lemma {:induction false} FlatJoin(a: seq<Text>, b: seq<Text>)
    requires |a| >= 1 && |b| >= 1
    ensures Flat(Join(a, b)) == Flat(a) + Flat(b)
  {
    if |a| == 1 {
      assert b == [b[0]] + b[1..];
      FlatCons(b[0], b[1..]);
      FlatCons(a[0] + b[0], b[1..]);
      assert Join(a, b) == [a[0] + b[0]] + b[1..];
    } else {
      FlatJoin(a[1..], b);
      assert Join(a, b) == [a[0]] + Join(a[1..], b);
      FlatCons(a[0], Join(a[1..], b));
    }
  }

  // ---------------------------------------------------------------- positions

  datatype Pos = Pos(row: nat, column: nat)

  predicate ValidPos(lines: seq<Text>, p: Pos) {
    p.row < |lines| && p.column <= |lines[p.row]|
  }

  /** Document order: by row, then by column. */
  predicate AtMost(p: Pos, q: Pos) {
    p.row < q.row || (p.row == q.row && p.column <= q.column)
  }

  /** The last position of the lines up to p. */
  ghost predicate LastUpTo(lines: seq<Text>, p: Pos, q: Pos) {
    ValidPos(lines, q) && AtMost(q, p) && forall v :: ValidPos(lines, v) && AtMost(v, p) ==> AtMost(v, q)
  }

  /** Flat offset of the start of a row. */
  function RowStart(lines: seq<Text>, row: nat): nat
    requires row <= |lines|
  {
    if row == 0 then 0 else RowStart(lines, row - 1) + |lines[row - 1]| + 1
  }

  function Offset(lines: seq<Text>, p: Pos): nat
    requires p.row <= |lines|
  {
    RowStart(lines, p.row) + p.column
  }

  function Before(lines: seq<Text>, p: Pos): seq<Text>
    requires ValidPos(lines, p)
  {
    lines[..p.row] + [lines[p.row][..p.column]]
  }

  function After(lines: seq<Text>, p: Pos): seq<Text>
    requires ValidPos(lines, p)
  {
    [lines[p.row][p.column..]] + lines[p.row + 1..]
  }

  lemma {:induction false} FlatBeforeLength(lines: seq<Text>, row: nat, last: Text)
    requires row <= |lines|
    ensures |Flat(lines[..row] + [last])| == RowStart(lines, row) + |last|
  {
    if row == 0 {
      assert lines[..0] + [last] == [last];
    } else {
      FlatBeforeLength(lines, row - 1, []);
      var init := lines[..row - 1] + [[]];
      assert init[row - 1] + lines[row - 1] == lines[row - 1];
      assert Join(init, [lines[row - 1], last]) == lines[..row] + [last];
      FlatJoin(init, [lines[row - 1], last]);
      assert [lines[row - 1], last][1..] == [last];
    }
  }

  /** A valid position cuts the flat text at its offset. */
  lemma {:induction false} FlatCut(lines: seq<Text>, p: Pos)
    requires ValidPos(lines, p)
    ensures Offset(lines, p) <= |Flat(lines)|
    ensures Flat(Before(lines, p)) == Flat(lines)[..Offset(lines, p)]
    ensures Flat(After(lines, p)) == Flat(lines)[Offset(lines, p)..]
  {
    var a, b := Before(lines, p), After(lines, p);
    assert Join(a, b) == lines by {
      assert lines[p.row][..p.column] + lines[p.row][p.column..] == lines[p.row];
    }
    FlatJoin(a, b);
    FlatBeforeLength(lines, p.row, lines[p.row][..p.column]);
  }

  lemma {:induction false} RowStartMonotone(lines: seq<Text>, i: nat, j: nat)
    requires i < j <= |lines|
    ensures RowStart(lines, i) + |lines[i]| + 1 <= RowStart(lines, j)
  {
    if i + 1 < j { RowStartMonotone(lines, i, j - 1); }
  }

  /** Offsets order positions exactly as (row, column) does; in particular they are injective. */
  lemma {:induction false} OffsetOrder(lines: seq<Text>, p: Pos, q: Pos)
    requires ValidPos(lines, p) && ValidPos(lines, q)
    ensures AtMost(p, q) <==> Offset(lines, p) <= Offset(lines, q)
    ensures Offset(lines, p) == Offset(lines, q) ==> p == q
  {
    if p.row < q.row { RowStartMonotone(lines, p.row, q.row); }
    if q.row < p.row { RowStartMonotone(lines, q.row, p.row); }
  }

  lemma {:induction false} FlatLength(lines: seq<Text>)
    requires |lines| >= 1
    ensures |Flat(lines)| + 1 == RowStart(lines, |lines|)
  {
    FlatBeforeLength(lines, |lines| - 1, lines[|lines| - 1]);
    assert lines[..|lines| - 1] + [lines[|lines| - 1]] == lines;
  }

  lemma {:induction false} RowStartPrefix(a: seq<Text>, b: seq<Text>, row: nat)
    requires row <= |a| && row <= |b| && a[..row] == b[..row]
    ensures RowStart(a, row) == RowStart(b, row)
  {
    if row > 0 {
      assert a[..row - 1] == a[..row][..row - 1] == b[..row - 1];
      assert a[row - 1] == a[..row][row - 1] == b[row - 1];
      RowStartPrefix(a, b, row - 1);
    }
  }

  /** Equal stretches of lines span equally many characters. */
  lemma {:induction false} RowStartShift(a: seq<Text>, i: nat, b: seq<Text>, j: nat, k: nat)
    requires i + k <= |a| && j + k <= |b| && a[i..i + k] == b[j..j + k]
    ensures RowStart(a, i + k) - RowStart(a, i) == RowStart(b, j + k) - RowStart(b, j)
  {
    if k > 0 {
      assert a[i..i + k][..k - 1] == a[i..i + k - 1] && b[j..j + k][..k - 1] == b[j..j + k - 1];
      assert a[i..i + k][k - 1] == a[i + k - 1] && b[j..j + k][k - 1] == b[j + k - 1];
      RowStartShift(a, i, b, j, k - 1);
    }
  }

  lemma {:induction false} RowStartTail(a: seq<Text>, i: nat, b: seq<Text>, j: nat, k: nat)
    requires i + k <= |a| && j + k <= |b| && a[i..] == b[j..]
    ensures RowStart(a, i + k) - RowStart(a, i) == RowStart(b, j + k) - RowStart(b, j)
  {
    assert a[i..][..k] == a[i..i + k] && b[j..][..k] == b[j..j + k];
    RowStartShift(a, i, b, j, k);
  }

  // ---------------------------------------------------------------- replacing a stretch

  /** The lines with everything between two positions replaced by the given piece of text. */
  function Replaced(lines: seq<Text>, from: Pos, to: Pos, pieces: seq<Text>): seq<Text>
    requires ValidPos(lines, from) && ValidPos(lines, to) && |pieces| >= 1
  {
    Join(Join(Before(lines, from), pieces), After(lines, to))
  }

  /** Replacing on lines is splicing on the flat string. */
  lemma {:induction false} ReplacedIsSplice(lines: seq<Text>, from: Pos, to: Pos, pieces: seq<Text>)
    requires ValidPos(lines, from) && ValidPos(lines, to) && |pieces| >= 1
    ensures Offset(lines, from) <= |Flat(lines)| && Offset(lines, to) <= |Flat(lines)|
    ensures Flat(Replaced(lines, from, to, pieces)) ==
            Flat(lines)[..Offset(lines, from)] + Flat(pieces) + Flat(lines)[Offset(lines, to)..]
  {
    FlatCut(lines, from);
    FlatCut(lines, to);
    FlatJoin(Before(lines, from), pieces);
    FlatJoin(Join(Before(lines, from), pieces), After(lines, to));
  }
}
