/** The primitive changes a document announces, and what each does to the lines. */
module Deltas {
  import opened TextModel

  datatype Delta =
    | InsertText(start: Pos, end: Pos, text: Text)
    | InsertLines(start: Pos, end: Pos, lines: seq<Text>)
    | RemoveText(start: Pos, end: Pos, text: Text)
    | RemoveLines(start: Pos, end: Pos, lines: seq<Text>)
  {
    predicate Inserts() { InsertText? || InsertLines? }

    /** The characters of the flat string that come or go. */
    function Content(): Text {
      match this
      case InsertText(_, _, text) => text
      case RemoveText(_, _, text) => text
      case InsertLines(_, _, lines) => Flat(lines) + [NL]
      case RemoveLines(_, _, lines) => Flat(lines) + [NL]
    }

    /** The lines put in place of what the change covers. */
    function Pieces(): (r: seq<Text>)
      ensures |r| >= 1
    {
      match this
      case InsertText(_, _, text) => if text == [NL] then [[], []] else [text]
      case InsertLines(_, _, lines) => lines + [[]]
      case _ => [[]]
    }

    /** Number of characters of the flat string that come or go. */
    function Size(): nat {
      match this
      case InsertText(_, _, text) => |text|
      case RemoveText(_, _, text) => |text|
      case InsertLines(_, _, lines) => RowStart(lines, |lines|)
      case RemoveLines(_, _, lines) => RowStart(lines, |lines|)
    }

    /** Number of rows that come or go. */
    function Rows(): int {
      end.row - start.row
    }
  }

  /** A text delta covers either part of one line, or exactly one newline. */
  predicate TextSpan(start: Pos, end: Pos, text: Text) {
    || (text == [NL] && end == Pos(start.row + 1, 0))
    || (text != [] && IsLine(text) && end == Pos(start.row, start.column + |text|))
  }

  predicate LineSpan(start: Pos, end: Pos, lines: seq<Text>) {
    && lines != [] && AllLines(lines)
    && start.column == 0 && end == Pos(start.row + |lines|, 0)
  }

  /** The delta describes a change that can happen to these lines, and some line is left. */
  predicate Fits(lines: seq<Text>, d: Delta) {
    match d
    case InsertText(start, end, text) =>
      ValidPos(lines, start) && TextSpan(start, end, text)
    case InsertLines(start, end, added) =>
      lines != [] && start.row <= |lines| && LineSpan(start, end, added)
    case RemoveText(start, end, text) =>
      && ValidPos(lines, start) && ValidPos(lines, end) && TextSpan(start, end, text)
      && (if end.row == start.row then text == lines[start.row][start.column..end.column]
          else start.column == |lines[start.row]|)
    case RemoveLines(start, end, removed) =>
      LineSpan(start, end, removed) && end.row <= |lines| && |removed| < |lines| && lines[start.row..end.row] == removed
  }

  function Apply(lines: seq<Text>, d: Delta): seq<Text>
    requires Fits(lines, d)
  {
    var r := d.start.row;
    match d
    case InsertText(start, end, text) =>
      var head, tail := lines[r][..start.column], lines[r][start.column..];
      if end.row == r then lines[r := head + text + tail]
      else lines[..r] + [head, tail] + lines[r + 1..]
    case InsertLines(_, _, added) =>
      lines[..r] + added + lines[r..]
    case RemoveText(start, end, _) =>
      if end.row == r then lines[r := lines[r][..start.column] + lines[r][end.column..]]
      else lines[..r] + [lines[r] + lines[r + 1]] + lines[r + 2..]
    case RemoveLines(_, end, _) =>
      lines[..r] + lines[end.row..]
  }

  lemma SliceIsLine(t: Text, i: nat, j: nat)
    requires IsLine(t) && i <= j <= |t|
    ensures IsLine(t[i..j])
  {
  }

  lemma ApplyKeepsLines(lines: seq<Text>, d: Delta)
    requires AllLines(lines) && Fits(lines, d)
    ensures AllLines(Apply(lines, d))
  {
    if d.InsertText? || d.RemoveText? {
      var line := lines[d.start.row];
      SliceIsLine(line, 0, d.start.column);
      SliceIsLine(line, d.start.column, |line|);
      if d.end.row == d.start.row && d.RemoveText? { SliceIsLine(line, d.end.column, |line|); }
    }
  }

  // ---------------------------------------------------------------- single lines

  /** `doc.getLine(k)` */
  function LineAt(doc: seq<Text>, k: int): Text {
    if 0 <= k < |doc| then doc[k] else []
  }

  /** Which line of the old document a row of the new one is. */
  lemma LinesAfterInsert(before: seq<Text>, d: Delta, j: int)
    requires Fits(before, d) && d.Inserts()
    ensures j < d.start.row ==> LineAt(Apply(before, d), j) == LineAt(before, j)
    ensures j > d.end.row ==> LineAt(Apply(before, d), j) == LineAt(before, j - d.Rows())
  {
    var now := Apply(before, d);
    if d.InsertLines? {
      assert |now| == |before| + |d.lines|;
      if d.end.row <= j < |now| { assert now[j] == before[d.start.row..][j - d.end.row]; }
    } else if d.end.row > d.start.row {
      if d.end.row < j < |now| { assert now[j] == before[d.start.row + 1..][j - d.end.row - 1]; }
    }
  }

  lemma LinesAfterRemove(before: seq<Text>, d: Delta, j: int)
    requires Fits(before, d) && !d.Inserts()
    ensures j < d.start.row ==> LineAt(Apply(before, d), j) == LineAt(before, j)
    ensures j > d.start.row ==> LineAt(Apply(before, d), j) == LineAt(before, j + d.Rows())
  {
    var now := Apply(before, d);
    if d.RemoveLines? {
      assert |now| == |before| - |d.lines|;
      if d.start.row < j < |now| { assert now[j] == before[d.end.row..][j - d.start.row]; }
    } else if d.end.row > d.start.row {
      if d.start.row < j < |now| { assert now[j] == before[d.start.row + 2..][j - d.start.row - 1]; }
    }
  }

  lemma LinesAfter(before: seq<Text>, d: Delta, j: int)
    requires Fits(before, d)
    ensures j < d.start.row ==> LineAt(Apply(before, d), j) == LineAt(before, j)
    ensures d.Inserts() && j > d.end.row ==> LineAt(Apply(before, d), j) == LineAt(before, j - d.Rows())
    ensures !d.Inserts() && j > d.start.row ==> LineAt(Apply(before, d), j) == LineAt(before, j + d.Rows())
  {
    hide Apply, Fits, LineAt;
    if d.Inserts() { LinesAfterInsert(before, d, j); } else { LinesAfterRemove(before, d, j); }
  }

  lemma ApplyLength(lines: seq<Text>, d: Delta)
    requires Fits(lines, d)
    ensures lines != [] && Apply(lines, d) != []
    ensures |Apply(lines, d)| == |lines| + (if d.Inserts() then d.Rows() else -d.Rows())
    ensures d.start.row <= d.end.row && d.start.row <= |Apply(lines, d)|
    ensures !d.Inserts() ==> d.end.row <= |lines|
    ensures d.InsertLines? ==> d.Rows() == |d.lines|
    ensures d.RemoveLines? ==> d.Rows() == |d.lines|
  {
  }

  lemma ApplyKeepsPrefix(lines: seq<Text>, d: Delta)
    requires Fits(lines, d)
    ensures d.start.row <= |lines| && d.start.row <= |Apply(lines, d)|
    ensures Apply(lines, d)[..d.start.row] == lines[..d.start.row]
  {
  }

  lemma FitsRows(lines: seq<Text>, d: Delta)
    requires Fits(lines, d)
    ensures d.end.row >= d.start.row
  {
  }

  // ---------------------------------------------------------------- histories

  /** The log of deltas leads from one state of the lines to another. */
  predicate Leads(from: seq<Text>, log: seq<Delta>, to: seq<Text>)
    decreases |log|
  {
    if log == [] then from == to
    else Fits(from, log[0]) && Leads(Apply(from, log[0]), log[1..], to)
  }

  lemma {:induction false} LeadsTrans(a: seq<Text>, log1: seq<Delta>, b: seq<Text>, log2: seq<Delta>, c: seq<Text>)
    requires Leads(a, log1, b) && Leads(b, log2, c)
    ensures Leads(a, log1 + log2, c)
    decreases |log1|
  {
    hide Apply, Fits;
    if log1 == [] {
      assert log1 + log2 == log2;
    } else {
      var log := log1 + log2;
      assert log[0] == log1[0] && log[1..] == log1[1..] + log2;
      var next := Apply(a, log1[0]);
      LeadsTrans(next, log1[1..], b, log2, c);
    }
  }

  lemma LeadsNothing(a: seq<Text>)
    ensures Leads(a, [], a)
  {
  }

  lemma LeadsFromNothing(a: seq<Text>, log: seq<Delta>, b: seq<Text>)
    requires log == [] && Leads(a, log, b)
    ensures a == b
  {
  }

  /** The state before the last delta of a log. */
  lemma {:induction false} LeadsLast(a: seq<Text>, log: seq<Delta>, c: seq<Text>) returns (b: seq<Text>)
    requires log != [] && Leads(a, log, c)
    ensures Leads(a, log[..|log| - 1], b)
    ensures Fits(b, log[|log| - 1]) && Apply(b, log[|log| - 1]) == c
    decreases |log|
  {
    if |log| == 1 {
      b := a;
    } else {
      b := LeadsLast(Apply(a, log[0]), log[1..], c);
      assert log[1..][..|log| - 2] == log[..|log| - 1][1..];
    }
  }

  lemma {:induction false} LeadsKeepsLines(a: seq<Text>, log: seq<Delta>, b: seq<Text>)
    requires AllLines(a) && a != [] && Leads(a, log, b)
    ensures AllLines(b) && b != []
    decreases |log|
  {
    if log != [] {
      ApplyKeepsLines(a, log[0]);
      ApplyLength(a, log[0]);
      hide Apply, Fits;
      LeadsKeepsLines(Apply(a, log[0]), log[1..], b);
    }
  }

  // ---------------------------------------------------------------- flat meaning

  /** The change does not touch the end of the document by whole lines, so that
      its start is still a position afterwards. */
  predicate Inner(lines: seq<Text>, d: Delta) {
    && Fits(lines, d)
    && (d.InsertLines? ==> d.start.row < |lines|)
    && (d.RemoveLines? ==> d.end.row < |lines|)
  }

  lemma {:induction false} RowStartsBefore(lines: seq<Text>, d: Delta, k: nat)
    requires Inner(lines, d) && k <= d.start.row
    ensures |Apply(lines, d)| == |lines| + (if d.Inserts() then d.Rows() else -d.Rows())
    ensures RowStart(Apply(lines, d), k) == RowStart(lines, k)
  {
    var now := Apply(lines, d);
    assert now[..k] == lines[..k];
    RowStartPrefix(now, lines, k);
  }

  lemma {:induction false} InsertedTail(lines: seq<Text>, d: Delta)
    requires Fits(lines, d) && d.InsertText?
    ensures |Apply(lines, d)| == |lines| + d.Rows()
    ensures Apply(lines, d)[d.end.row + 1..] == lines[d.start.row + 1..]
    ensures RowStart(Apply(lines, d), d.end.row + 1) ==
            RowStart(Apply(lines, d), d.start.row) + (RowStart(lines, d.start.row + 1) - RowStart(lines, d.start.row)) + d.Size()
    ensures RowStart(Apply(lines, d), d.end.row) + d.end.column ==
            RowStart(Apply(lines, d), d.start.row) + d.start.column + d.Size()
  {
  }

  lemma {:induction false} RemovedTail(lines: seq<Text>, d: Delta)
    requires Fits(lines, d) && d.RemoveText?
    ensures |Apply(lines, d)| == |lines| - d.Rows()
    ensures Apply(lines, d)[d.start.row + 1..] == lines[d.end.row + 1..]
    ensures RowStart(Apply(lines, d), d.start.row + 1) + d.Size() - RowStart(Apply(lines, d), d.start.row) ==
            RowStart(lines, d.end.row + 1) - RowStart(lines, d.start.row)
  {
  }

  /** Rows below an insertion: where they start afterwards. */
  lemma {:induction false} RowStartsInserted(lines: seq<Text>, d: Delta, k: nat)
    requires Inner(lines, d) && d.Inserts() && k <= |lines|
    requires if d.InsertLines? then k >= d.start.row else k > d.start.row
    ensures k + d.Rows() <= |Apply(lines, d)|
    ensures RowStart(Apply(lines, d), k + d.Rows()) == RowStart(lines, k) + d.Size()
  {
    hide Apply, RowStart;
    var r := d.start.row;
    if d.InsertText? {
      RowStartsBefore(lines, d, r);
      InsertedTail(lines, d);
      RowStartTail(Apply(lines, d), d.end.row + 1, lines, r + 1, k - r - 1);
    } else {
      InsertedLines(lines, d);
      RowStartsLines(lines, Apply(lines, d), r, d.lines, k);
    }
  }

  lemma InsertedLines(lines: seq<Text>, d: Delta)
    requires Fits(lines, d) && d.InsertLines?
    ensures Apply(lines, d) == lines[..d.start.row] + d.lines + lines[d.start.row..]
    ensures d.Rows() == |d.lines|
  {
  }

  /** Rows below a removal: where they start afterwards. */
  lemma {:induction false} RowStartsRemoved(lines: seq<Text>, d: Delta, k: nat)
    requires Inner(lines, d) && !d.Inserts() && k <= |lines|
    requires if d.RemoveLines? then k >= d.end.row else k > d.end.row
    ensures 0 <= k - d.Rows() <= |Apply(lines, d)|
    ensures RowStart(Apply(lines, d), k - d.Rows()) == RowStart(lines, k) - d.Size()
  {
    hide Apply, RowStart;
    var r := d.start.row;
    if d.RemoveText? {
      RowStartsBefore(lines, d, r);
      RemovedTail(lines, d);
      RowStartTail(Apply(lines, d), r + 1, lines, d.end.row + 1, k - d.end.row - 1);
    } else {
      RemovedLines(lines, d);
      RowStartsLines(Apply(lines, d), lines, r, d.lines, k - d.Rows());
    }
  }

  lemma RemovedLines(lines: seq<Text>, d: Delta)
    requires Fits(lines, d) && d.RemoveLines?
    ensures |Apply(lines, d)| == |lines| - |d.lines| && d.start.row <= |Apply(lines, d)|
    ensures lines == Apply(lines, d)[..d.start.row] + d.lines + Apply(lines, d)[d.start.row..]
    ensures d.Rows() == |d.lines|
  {
  }

  lemma {:induction false} RowStartsLines(few: seq<Text>, many: seq<Text>, r: nat, extra: seq<Text>, k: nat)
    requires r <= k <= |few| && many == few[..r] + extra + few[r..]
    ensures RowStart(many, k + |extra|) == RowStart(few, k) + RowStart(extra, |extra|)
  {
    hide RowStart;
    assert many[..r] == few[..r];
    RowStartPrefix(many, few, r);
    assert many[r..r + |extra|] == extra[0..0 + |extra|];
    RowStartShift(many, r, extra, 0, |extra|);
    assert many[r + |extra|..] == few[r..];
    RowStartTail(many, r + |extra|, few, r, k - r);
    assert RowStart(extra, 0) == 0 by { RowStartZero(extra); }
  }

  lemma RowStartZero(lines: seq<Text>)
    ensures RowStart(lines, 0) == 0
  {
  }

  lemma {:induction false} InsertIsReplaced(lines: seq<Text>, d: Delta)
    requires Fits(lines, d) && d.InsertText?
    ensures Apply(lines, d) == Replaced(lines, d.start, d.start, d.Pieces())
  {
    var head, tail := lines[d.start.row][..d.start.column], lines[d.start.row][d.start.column..];
    assert Before(lines, d.start)[d.start.row] == head;
    if d.text == [NL] {
      assert head + [] == head && [] + tail == tail;
      assert Join(Before(lines, d.start), [[], []]) == lines[..d.start.row] + [head, []];
    } else {
      assert Join(Before(lines, d.start), [d.text]) == lines[..d.start.row] + [head + d.text];
    }
  }

  lemma {:induction false} InsertLinesIsReplaced(lines: seq<Text>, d: Delta)
    requires Inner(lines, d) && d.InsertLines?
    ensures Apply(lines, d) == Replaced(lines, d.start, d.start, d.Pieces())
  {
    var r, added := d.start.row, d.lines;
    assert lines[r][..0] == [] && lines[r][0..] == lines[r] && [] + added[0] == added[0] && [] + lines[r] == lines[r];
    assert Before(lines, d.start) == lines[..r] + [[]];
    assert Join(lines[..r] + [[]], added + [[]]) == lines[..r] + added + [[]];
    assert After(lines, d.start) == [lines[r]] + lines[r + 1..];
    assert lines[r..] == [lines[r]] + lines[r + 1..];
  }

  /** A delta as an edit of the flat string: what it deletes at its offset and what it puts there. */
  lemma {:induction false} DeltaIsFlatEdit(lines: seq<Text>, d: Delta)
    requires AllLines(lines) && Inner(lines, d)
    ensures ValidPos(lines, d.start)
    ensures |d.Content()| == d.Size()
    ensures Offset(lines, d.start) + (if d.Inserts() then 0 else d.Size()) <= |Flat(lines)|
    ensures d.Inserts() ==>
              Flat(Apply(lines, d)) ==
              Flat(lines)[..Offset(lines, d.start)] + d.Content() + Flat(lines)[Offset(lines, d.start)..]
    ensures !d.Inserts() ==>
              && Flat(Apply(lines, d)) ==
                 Flat(lines)[..Offset(lines, d.start)] + Flat(lines)[Offset(lines, d.start) + d.Size()..]
              && Flat(lines)[Offset(lines, d.start)..Offset(lines, d.start) + d.Size()] == d.Content()
  {
    hide Apply, Replaced, Flat, RowStart, Fits, Offset;
    DeltaReplaces(lines, d);
    InnerSpan(lines, d);
    if d.Inserts() {
      ReplacedIsSplice(lines, d.start, d.start, d.Pieces());
      PiecesContent(d);
    } else {
      RemovedIsCut(lines, d.start, d.end);
      RemovedContent(lines, d);
    }
  }

  lemma InnerSpan(lines: seq<Text>, d: Delta)
    requires Inner(lines, d)
    ensures d.InsertText? ==> TextSpan(d.start, d.end, d.text)
    ensures d.InsertLines? ==> d.lines != []
    ensures !d.Inserts() ==> AtMost(d.start, d.end)
  {
  }

  /** Every inner delta replaces a stretch of the document by its pieces. */
  lemma {:induction false} DeltaReplaces(lines: seq<Text>, d: Delta)
    requires Inner(lines, d)
    ensures ValidPos(lines, d.start) && (d.Inserts() || ValidPos(lines, d.end))
    ensures Apply(lines, d) == Replaced(lines, d.start, if d.Inserts() then d.start else d.end, d.Pieces())
  {
    hide Replaced, Apply;
    match d {
      case InsertText(_, _, _) => InsertIsReplaced(lines, d);
      case InsertLines(_, _, _) => InsertLinesIsReplaced(lines, d);
      case RemoveText(_, _, _) =>
        RemovedShape(lines, d.start, d.end);
        RemovedTextShape(lines, d);
      case RemoveLines(_, _, _) =>
        RemovedShape(lines, d.start, d.end);
        RemovedLinesShape(lines, d);
    }
  }

  lemma {:induction false} PiecesContent(d: Delta)
    requires d.InsertText? ==> TextSpan(d.start, d.end, d.text)
    requires d.InsertLines? ==> d.lines != []
    requires d.Inserts()
    ensures Flat(d.Pieces()) == d.Content() && |d.Content()| == d.Size()
  {
    if d.InsertLines? {
      FlatLines(d.lines);
    } else {
      FlatCons([], [[]]);
    }
  }

  lemma {:induction false} RemovedContent(lines: seq<Text>, d: Delta)
    requires Inner(lines, d) && !d.Inserts()
    ensures Offset(lines, d.end) == Offset(lines, d.start) + d.Size() <= |Flat(lines)|
    ensures Flat(lines)[Offset(lines, d.start)..Offset(lines, d.start) + d.Size()] == d.Content()
    ensures |d.Content()| == d.Size()
  {
    if d.RemoveLines? {
      FlatLines(d.lines);
      LinesSlice(lines, d.start, d.end, d.lines);
    } else if d.end.row > d.start.row {
      NewLineAt(lines, d.start);
    } else {
      LineSlice(lines, d.start, d.end);
    }
  }

  lemma {:induction false} FlatLines(added: seq<Text>)
    requires added != []
    ensures Flat(added + [[]]) == Flat(added) + [NL]
    ensures |Flat(added)| + 1 == RowStart(added, |added|)
  {
    FlatLength(added);
    assert added[|added| - 1] + [] == added[|added| - 1];
    assert Join(added, [[], []]) == added + [[]];
    FlatJoin(added, [[], []]);
    FlatCons([], [[]]);
  }

  lemma {:induction false} RemovedShape(lines: seq<Text>, from: Pos, to: Pos)
    requires ValidPos(lines, from) && ValidPos(lines, to)
    ensures Replaced(lines, from, to, [[]]) ==
            lines[..from.row] + [lines[from.row][..from.column] + lines[to.row][to.column..]] + lines[to.row + 1..]
  {
    var head := lines[from.row][..from.column];
    assert head + [] == head;
    assert Join(Before(lines, from), [[]]) == lines[..from.row] + [head];
  }

  lemma {:induction false} RemovedTextShape(lines: seq<Text>, d: Delta)
    requires Fits(lines, d) && d.RemoveText?
    ensures Apply(lines, d) == lines[..d.start.row] +
            [lines[d.start.row][..d.start.column] + lines[d.end.row][d.end.column..]] + lines[d.end.row + 1..]
  {
    if d.end.row > d.start.row {
      var line := lines[d.start.row];
      assert line[..d.start.column] == line && lines[d.end.row][0..] == lines[d.end.row];
    }
  }

  lemma {:induction false} RemovedLinesShape(lines: seq<Text>, d: Delta)
    requires Inner(lines, d) && d.RemoveLines?
    ensures Apply(lines, d) == lines[..d.start.row] +
            [lines[d.start.row][..d.start.column] + lines[d.end.row][d.end.column..]] + lines[d.end.row + 1..]
  {
    var last := lines[d.end.row];
    assert lines[d.start.row][..0] + last[0..] == last;
    assert lines[d.end.row..] == [last] + lines[d.end.row + 1..];
  }

  lemma {:induction false} RemovedIsCut(lines: seq<Text>, from: Pos, to: Pos)
    requires ValidPos(lines, from) && ValidPos(lines, to) && AtMost(from, to)
    ensures Offset(lines, from) <= Offset(lines, to) <= |Flat(lines)|
    ensures Flat(Replaced(lines, from, to, [[]])) == Flat(lines)[..Offset(lines, from)] + Flat(lines)[Offset(lines, to)..]
  {
    OffsetOrder(lines, from, to);
    ReplacedIsSplice(lines, from, to, [[]]);
  }

  /** The flat text between two positions, as the text of the lines between them. */
  function Between(lines: seq<Text>, from: Pos, to: Pos): (r: seq<Text>)
    requires ValidPos(lines, from) && ValidPos(lines, to) && AtMost(from, to)
    ensures 1 <= |r| == to.row - from.row + 1
  {
    if from.row == to.row then [lines[from.row][from.column..to.column]]
    else [lines[from.row][from.column..]] + lines[from.row + 1..to.row] + [lines[to.row][..to.column]]
  }

  lemma {:induction false} BetweenJoins(lines: seq<Text>, from: Pos, to: Pos)
    requires ValidPos(lines, from) && ValidPos(lines, to) && AtMost(from, to)
    ensures Join(Before(lines, from), Between(lines, from, to)) == Before(lines, to)
  {
    var line := lines[from.row];
    var head := line[..from.column];
    if from.row == to.row {
      assert head + line[from.column..to.column] == line[..to.column];
    } else {
      assert head + line[from.column..] == line;
      assert Join(Before(lines, from), Between(lines, from, to)) ==
             lines[..from.row] + [line] + lines[from.row + 1..to.row] + [lines[to.row][..to.column]];
    }
  }

  lemma {:induction false} BetweenIsSlice(lines: seq<Text>, from: Pos, to: Pos)
    requires ValidPos(lines, from) && ValidPos(lines, to) && AtMost(from, to)
    ensures Offset(lines, from) <= Offset(lines, to) <= |Flat(lines)|
    ensures Flat(Between(lines, from, to)) == Flat(lines)[Offset(lines, from)..Offset(lines, to)]
  {
    OffsetOrder(lines, from, to);
    FlatCut(lines, from);
    FlatCut(lines, to);
    var a, m := Before(lines, from), Between(lines, from, to);
    FlatJoin(a, m);
    BetweenJoins(lines, from, to);
  }

  lemma {:induction false} NewLineAt(lines: seq<Text>, p: Pos)
    requires p.row + 1 < |lines| && p.column == |lines[p.row]|
    ensures Offset(lines, p) + 1 == Offset(lines, Pos(p.row + 1, 0)) <= |Flat(lines)|
    ensures Flat(lines)[Offset(lines, p)..Offset(lines, p) + 1] == [NL]
  {
    var q := Pos(p.row + 1, 0);
    BetweenIsSlice(lines, p, q);
    assert Between(lines, p, q) == [[], []];
    FlatCons([], [[]]);
  }

  lemma {:induction false} LineSlice(lines: seq<Text>, p: Pos, q: Pos)
    requires ValidPos(lines, p) && ValidPos(lines, q) && p.row == q.row && p.column <= q.column
    ensures Offset(lines, q) == Offset(lines, p) + (q.column - p.column) <= |Flat(lines)|
    ensures Flat(lines)[Offset(lines, p)..Offset(lines, q)] == lines[p.row][p.column..q.column]
  {
    BetweenIsSlice(lines, p, q);
  }

  lemma {:induction false} LinesSlice(lines: seq<Text>, p: Pos, q: Pos, whole: seq<Text>)
    requires whole != [] && p.column == 0 && q == Pos(p.row + |whole|, 0) && q.row < |lines|
    requires lines[p.row..q.row] == whole
    ensures Offset(lines, q) == Offset(lines, p) + RowStart(whole, |whole|) <= |Flat(lines)|
    ensures Flat(lines)[Offset(lines, p)..Offset(lines, q)] == Flat(whole) + [NL]
  {
    BetweenIsSlice(lines, p, q);
    assert lines[p.row][0..] == lines[p.row] == whole[0];
    assert lines[p.row + 1..q.row] == whole[1..];
    assert Between(lines, p, q) == whole + [[]];
    FlatLines(whole);
    assert whole == whole[0..0 + |whole|];
    RowStartShift(lines, p.row, whole, 0, |whole|);
  }

  // ---------------------------------------------------------------- positions under a delta

  /** Where a delta takes a position: one past the change keeps its distance to the end of the change.
      `stay` keeps a position right at an insertion in front of it. */
  function Moved(d: Delta, p: Pos, stay: bool): Pos {
    if d.Inserts() then
      if !AtMost(d.start, p) || (p == d.start && stay) then p
      else if p.row > d.start.row then Pos(p.row + (d.end.row - d.start.row), p.column)
      else Pos(d.end.row, d.end.column + p.column - d.start.column)
    else if AtMost(p, d.start) then p
    else if !AtMost(d.end, p) then d.start
    else if p.row > d.end.row then Pos(p.row - (d.end.row - d.start.row), p.column)
    else Pos(d.start.row, d.start.column + p.column - d.end.column)
  }

  /** Insertions one after the other, each at the end of the one before. */
  predicate InsertTrain(lines: seq<Text>, ds: seq<Delta>, at: Pos, last: Pos)
    decreases |ds|
  {
    if ds == [] then at == last
    else
      && Inner(lines, ds[0]) && ds[0].Inserts() && ds[0].start == at
      && InsertTrain(Apply(lines, ds[0]), ds[1..], ds[0].end, last)
  }

  /** Removals inside a stretch of text, whose end moves with them up to `left`; when that is the start,
      nothing is left of the stretch. */
  predicate RemoveTrain(lines: seq<Text>, ds: seq<Delta>, from: Pos, to: Pos, left: Pos)
    decreases |ds|
  {
    if ds == [] then to == left
    else
      && ValidPos(lines, from) && ValidPos(lines, to) && Inner(lines, ds[0]) && !ds[0].Inserts()
      && AtMost(from, ds[0].start) && AtMost(ds[0].end, to)
      && RemoveTrain(Apply(lines, ds[0]), ds[1..], from, Moved(ds[0], to, false), left)
  }

  lemma {:induction false} RemoveTrainTrans(lines: seq<Text>, ds: seq<Delta>, from: Pos, to: Pos, mid: Pos, now: seq<Text>, more: seq<Delta>, left: Pos)
    requires RemoveTrain(lines, ds, from, to, mid) && Leads(lines, ds, now) && RemoveTrain(now, more, from, mid, left)
    ensures RemoveTrain(lines, ds + more, from, to, left)
    decreases |ds|
  {
    hide Apply, Inner, Fits, Moved;
    if ds == [] {
      assert ds + more == more;
    } else {
      var all := ds + more;
      assert all[0] == ds[0] && all[1..] == ds[1..] + more;
      RemoveTrainTrans(Apply(lines, ds[0]), ds[1..], from, Moved(ds[0], to, false), mid, now, more, left);
    }
  }

  lemma {:induction false} InsertTrainTrans(lines: seq<Text>, ds: seq<Delta>, at: Pos, mid: Pos, now: seq<Text>, more: seq<Delta>, last: Pos)
    requires InsertTrain(lines, ds, at, mid) && Leads(lines, ds, now) && InsertTrain(now, more, mid, last)
    ensures InsertTrain(lines, ds + more, at, last)
    decreases |ds|
  {
    hide Apply, Inner, Fits;
    if ds == [] {
      assert ds + more == more;
    } else {
      var all := ds + more;
      assert all[0] == ds[0] && all[1..] == ds[1..] + more;
      InsertTrainTrans(Apply(lines, ds[0]), ds[1..], ds[0].end, mid, now, more, last);
    }
  }
}
