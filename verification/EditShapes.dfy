/** The shapes that edits of lines take: each way of carrying out an edit by primitive changes comes to
    one replacement of a stretch of the document. */
module EditShapes {
  import opened JsArray
  import opened TextModel
  import opened Deltas

  /** `$clipPosition`: the row is clipped to the document, the column is not looked at. */
  function ClipRow(lines: seq<Text>, p: Pos): Pos
    requires lines != []
  {
    if p.row >= |lines| then Pos(|lines| - 1, |lines[|lines| - 1]|) else p
  }

  /** A position an edit may name: a row past the end, or a column inside its line. */
  predicate Editable(lines: seq<Text>, p: Pos) {
    lines != [] && ValidPos(lines, ClipRow(lines, p))
  }

  /** An edit takes place at the last position of the document up to the one it names. */
  lemma EditedAtLast(lines: seq<Text>, p: Pos)
    requires Editable(lines, p)
    ensures LastUpTo(lines, p, ClipRow(lines, p))
  {
  }

  // ---------------------------------------------------------------- replacements, line by line

  /** Pieces of text between the two halves of a line, in lines that go before and after. */
  function Woven(above: seq<Text>, head: Text, pieces: seq<Text>, tail: Text, below: seq<Text>): seq<Text>
    requires |pieces| >= 1
  {
    if |pieces| == 1 then above + [head + pieces[0] + tail] + below
    else above + [head + pieces[0]] + pieces[1..|pieces| - 1] + [pieces[|pieces| - 1] + tail] + below
  }

  lemma {:induction false} ReplacedShape(lines: seq<Text>, from: Pos, to: Pos, pieces: seq<Text>)
    requires ValidPos(lines, from) && ValidPos(lines, to) && |pieces| >= 1
    ensures Replaced(lines, from, to, pieces) ==
            Woven(lines[..from.row], lines[from.row][..from.column], pieces, lines[to.row][to.column..], lines[to.row + 1..])
  {
    var head := lines[from.row][..from.column];
    assert Join(Before(lines, from), pieces) == lines[..from.row] + [head + pieces[0]] + pieces[1..];
  }

  /** Putting pieces at the seam of a line. */
  lemma {:induction false} SeamReplaced(above: seq<Text>, head: Text, tail: Text, below: seq<Text>, pieces: seq<Text>)
    requires |pieces| >= 1
    ensures var lines := above + [head + tail] + below;
            var p := Pos(|above|, |head|);
            ValidPos(lines, p) && Replaced(lines, p, p, pieces) == Woven(above, head, pieces, tail, below)
  {
    var lines := above + [head + tail] + below;
    var p := Pos(|above|, |head|);
    assert lines[|above|] == head + tail;
    assert lines[..|above|] == above && lines[|above| + 1..] == below;
    assert lines[|above|][..|head|] == head && lines[|above|][|head|..] == tail;
    ReplacedShape(lines, p, p, pieces);
  }

  lemma {:induction false} LineAsSeam(lines: seq<Text>, p: Pos)
    requires ValidPos(lines, p)
    ensures lines[p.row] == lines[p.row][..p.column] + lines[p.row][p.column..]
    ensures lines == lines[..p.row] + [lines[p.row][..p.column] + lines[p.row][p.column..]] + lines[p.row + 1..]
  {
  }

  /** Nothing between the halves. */
  lemma WovenNothing(above: seq<Text>, head: Text, tail: Text, below: seq<Text>)
    ensures Woven(above, head, [[]], tail, below) == above + [head + tail] + below
  {
    assert head + [] == head;
  }

  lemma NothingReplaced(lines: seq<Text>, p: Pos)
    requires ValidPos(lines, p)
    ensures Replaced(lines, p, p, Split([])) == lines
    ensures Leads(lines, [], lines) && RemoveTrain(lines, [], p, p, p)
  {
    ReplacedShape(lines, p, p, [[]]);
    hide Replaced;
    WovenNothing(lines[..p.row], lines[p.row][..p.column], lines[p.row][p.column..], lines[p.row + 1..]);
    LineAsSeam(lines, p);
  }

  lemma {:induction false} RemovedThenInserted(lines: seq<Text>, from: Pos, to: Pos, text: Text)
    requires ValidPos(lines, from) && ValidPos(lines, to)
    ensures ValidPos(Replaced(lines, from, to, [[]]), from)
    ensures Replaced(Replaced(lines, from, to, [[]]), from, from, Split(text)) == Replaced(lines, from, to, Split(text))
    ensures text == [] ==> Replaced(lines, from, to, [[]]) == Replaced(lines, from, to, Split(text))
  {
    ReplacedShape(lines, from, to, [[]]);
    ReplacedShape(lines, from, to, Split(text));
    var above, head, tail, below := lines[..from.row], lines[from.row][..from.column], lines[to.row][to.column..], lines[to.row + 1..];
    hide Replaced, Woven;
    WovenNothing(above, head, tail, below);
    SeamReplaced(above, head, tail, below, Split(text));
  }

  lemma {:induction false} InsertedInEmpty(text: Text)
    ensures Replaced([[]], Pos(0, 0), Pos(0, 0), Split(text)) == Split(text)
  {
    var pieces := Split(text);
    SeamReplaced([], [], [], [], pieces);
    hide Replaced;
    var none: Text := [];
    assert none + none == none && [] + [none] + [] == [none];
    assert [] + pieces[0] == pieces[0] && pieces[0] + [] == pieces[0] && pieces[|pieces| - 1] + [] == pieces[|pieces| - 1];
    assert Woven([], [], pieces, [], []) == pieces;
  }

  lemma AllRemoved(lines: seq<Text>)
    requires lines != []
    ensures Replaced(lines, Pos(0, 0), Pos(|lines| - 1, |lines[|lines| - 1]|), [[]]) == [[]]
  {
    var last := lines[|lines| - 1];
    RemovedShape(lines, Pos(0, 0), Pos(|lines| - 1, |last|));
    assert lines[0][..0] + last[|last|..] == [];
  }

  lemma {:induction false} AppendedAsText(lines: seq<Text>, added: seq<Text>)
    requires lines != [] && AllLines(added) && added != []
    ensures var end := Pos(|lines| - 1, |lines[|lines| - 1]|);
            Replaced(lines, end, end, Split([NL] + Flat(added))) == Spliced(lines, |lines|, added)
  {
    hide Split, Flat, Replaced, Woven, AllLines;
    var n := |lines|;
    var last := lines[n - 1];
    var end := Pos(n - 1, |last|);
    SplitAfterNewLine(added);
    assert last[..|last|] == last && last[|last|..] == [] && lines[n..] == [];
    ReplacedShape(lines, end, end, [[]] + added);
    LinesAppended(lines[..n - 1], last, added);
    assert lines[..n - 1] + [last] == lines && lines[..n] == lines && lines + added + [] == lines + added;
  }

  lemma SplitAfterNewLine(added: seq<Text>)
    requires AllLines(added) && added != []
    ensures Split([NL] + Flat(added)) == [[]] + added
  {
    SplitFlat(added);
    hide Flat;
    assert ([NL] + Flat(added))[1..] == Flat(added);
  }

  lemma LinesAppended(above: seq<Text>, last: Text, added: seq<Text>)
    requires added != []
    ensures Woven(above, last, [[]] + added, [], []) == above + [last] + added
  {
    var pieces := [[]] + added;
    assert last + pieces[0] == last && added[|added| - 1] + [] == added[|added| - 1];
    assert pieces[1..|pieces| - 1] == added[..|added| - 1];
  }

  lemma ClippedTail(lines: seq<Text>, firstRow: nat)
    requires lines != []
    ensures var end := Pos(|lines| - 1, |lines[|lines| - 1]|);
            && (firstRow < |lines| ==> Replaced(lines, Pos(firstRow, 0), end, [[]]) == lines[..firstRow] + [[]])
            && Replaced(lines, end, end, [[]]) == lines
  {
    var end := Pos(|lines| - 1, |lines[|lines| - 1]|);
    NothingReplaced(lines, end);
    hide Replaced;
    if firstRow < |lines| { RemovedShape(lines, Pos(firstRow, 0), end); }
  }

  // ---------------------------------------------------------------- reading a range

  /** The lines `getTextRange` joins. */
  function RangeLines(lines: seq<Text>, start: Pos, end: Pos): seq<Text>
    requires Editable(lines, start) && Editable(lines, end)
    requires AtMost(ClipRow(lines, start), ClipRow(lines, end))
  {
    if start.row == end.row then
      var line := LineAt(lines, start.row);
      var i, j := Min(start.column, |line|), Min(end.column, |line|);
      [line[i..Max(i, j)]]
    else
      var i, j := Min(start.row, |lines|), Min(end.row + 1, |lines|);
      var t := lines[i..Max(i, j)];
      if t == [] then [[]]
      else
        var t1 := t[0 := t[0][start.column..]];
        var n := |t| - 1;
        if n > 0 && end.row - start.row == n then t1[n := t1[n][..end.column]] else t1
  }

  /** `getTextRange` */
  function GetTextRange(lines: seq<Text>, start: Pos, end: Pos): Text
    requires Editable(lines, start) && Editable(lines, end)
    requires AtMost(ClipRow(lines, start), ClipRow(lines, end))
  {
    Flat(RangeLines(lines, start, end))
  }

  /** It reads the text between the two positions, for rows past the end too. */
  lemma {:induction false} TextRangeIsBetween(lines: seq<Text>, start: Pos, end: Pos)
    requires Editable(lines, start) && Editable(lines, end)
    requires AtMost(ClipRow(lines, start), ClipRow(lines, end))
    ensures RangeLines(lines, start, end) == Between(lines, ClipRow(lines, start), ClipRow(lines, end))
  {
    if start.row >= |lines| {
      RangePastEnd(lines, start, end);
    } else if start.row == end.row {
    } else if end.row < |lines| {
      RowsBetween(lines, start, end);
    } else {
      RangeToEnd(lines, start, end);
    }
  }

  lemma RangePastEnd(lines: seq<Text>, start: Pos, end: Pos)
    requires Editable(lines, start) && Editable(lines, end) && start.row >= |lines|
    requires AtMost(ClipRow(lines, start), ClipRow(lines, end))
    ensures RangeLines(lines, start, end) == Between(lines, ClipRow(lines, start), ClipRow(lines, end))
  {
    var last := lines[|lines| - 1];
    assert last[|last|..|last|] == [];
  }

  lemma RangeToEnd(lines: seq<Text>, start: Pos, end: Pos)
    requires Editable(lines, start) && start.row < |lines| <= end.row
    ensures RangeLines(lines, start, end) == Between(lines, start, ClipRow(lines, end))
  {
    var last := lines[|lines| - 1];
    var t := lines[start.row..|lines|];
    var t1 := t[0 := t[0][start.column..]];
    assert RangeLines(lines, start, end) == t1;
    hide RangeLines;
    if start.row == |lines| - 1 {
      assert last[start.column..|last|] == last[start.column..];
    } else {
      RowsBetween(lines, start, Pos(|lines| - 1, |last|));
      assert last[..|last|] == last;
    }
  }

  lemma RowsBetween(lines: seq<Text>, from: Pos, to: Pos)
    requires ValidPos(lines, from) && ValidPos(lines, to) && from.row < to.row
    ensures var t := lines[from.row..to.row + 1];
            var t1 := t[0 := t[0][from.column..]];
            t1[|t| - 1 := t1[|t| - 1][..to.column]] == Between(lines, from, to)
  {
    var t, n := lines[from.row..to.row + 1], to.row - from.row;
    var t1 := t[0 := t[0][from.column..]];
    var u, w := t1[n := t1[n][..to.column]], Between(lines, from, to);
    assert |u| == |w| == n + 1;
    forall k | 0 <= k <= n ensures u[k] == w[k] {
      assert t[k] == lines[from.row + k];
      if 0 < k < n { assert w[k] == lines[from.row + 1..to.row][k - 1]; }
    }
    assert u == w;
  }

  lemma SameText(lines: seq<Text>, start: Pos, end: Pos)
    requires AllLines(lines) && Editable(lines, start) && Editable(lines, end)
    requires AtMost(ClipRow(lines, start), ClipRow(lines, end))
    ensures Replaced(lines, ClipRow(lines, start), ClipRow(lines, end), Split(GetTextRange(lines, start, end))) == lines
  {
    hide Split, Flat, AllLines, RangeLines, Between, ClipRow, AtMost, Join;
    var from, to := ClipRow(lines, start), ClipRow(lines, end);
    TextRangeIsBetween(lines, start, end);
    BetweenLines(lines, from, to);
    SplitFlat(Between(lines, from, to));
    BetweenJoins(lines, from, to);
    CutJoins(lines, to);
  }

  lemma CutJoins(lines: seq<Text>, p: Pos)
    requires ValidPos(lines, p)
    ensures Join(Before(lines, p), After(lines, p)) == lines
  {
    LineAsSeam(lines, p);
  }

  lemma BetweenLines(lines: seq<Text>, from: Pos, to: Pos)
    requires AllLines(lines) && ValidPos(lines, from) && ValidPos(lines, to) && AtMost(from, to)
    ensures AllLines(Between(lines, from, to))
  {
    SliceIsLine(lines[from.row], from.column, |lines[from.row]|);
    SliceIsLine(lines[to.row], 0, to.column);
    if from.row == to.row { SliceIsLine(lines[from.row], from.column, to.column); }
  }

  /** What doing a delta again amounts to. */
  lemma AppliedShapes(lines: seq<Text>, d: Delta)
    requires AllLines(lines) && Fits(lines, d)
    ensures d.InsertText? ==> Apply(lines, d) == Replaced(lines, d.start, d.start, Split(d.text))
    ensures d.RemoveText? ==> Apply(lines, d) == Replaced(lines, d.start, d.end, [[]]) && AtMost(d.start, d.end)
    ensures d.InsertLines? ==> Apply(lines, d) == Spliced(lines, d.start.row, d.lines) && AllLines(d.lines)
    ensures d.RemoveLines? ==> Apply(lines, d) == lines[..d.start.row] + lines[d.end.row..]
  {
    hide Replaced;
    match d {
      case InsertText(_, _, text) =>
        InsertIsReplaced(lines, d);
        PiecesOfText(d);
      case RemoveText(_, _, _) =>
        RemovedShape(lines, d.start, d.end);
        RemovedTextShape(lines, d);
      case InsertLines(_, _, _) =>
      case RemoveLines(_, _, _) =>
    }
  }

  // ---------------------------------------------------------------- deltas done again and taken back

  /** The rows from one to another, but not all there are. */
  predicate SomeRows(lines: seq<Text>, first: nat, end: nat) {
    first < end <= |lines| && end - first < |lines|
  }

  predicate EditableRange(lines: seq<Text>, start: Pos, end: Pos) {
    Editable(lines, start) && Editable(lines, end) && AtMost(ClipRow(lines, start), ClipRow(lines, end))
  }

  /** The delta can be done to these lines, which need not be those it was recorded for. */
  predicate Reapplicable(lines: seq<Text>, d: Delta) {
    match d
    case InsertLines(_, _, added) => lines != [] && AllLines(added)
    case InsertText(start, _, _) => Editable(lines, start)
    case RemoveLines(start, end, _) => SomeRows(lines, start.row, end.row)
    case RemoveText(start, end, _) => EditableRange(lines, start, end)
  }

  /** What `applyDeltas` makes of one delta. */
  function Reapplied(lines: seq<Text>, d: Delta): (r: seq<Text>)
    requires Reapplicable(lines, d)
    ensures r != []
  {
    match d
    case InsertLines(start, _, added) =>
      if start.row < |lines| then Spliced(lines, start.row, added) else lines + (if added == [] then [[]] else added)
    case InsertText(start, _, text) => Replaced(lines, ClipRow(lines, start), ClipRow(lines, start), Split(text))
    case RemoveLines(start, end, _) => lines[..start.row] + lines[end.row..]
    case RemoveText(start, end, _) => Replaced(lines, ClipRow(lines, start), ClipRow(lines, end), [[]])
  }

  /** The delta can be taken back from these lines. */
  predicate Revertible(lines: seq<Text>, d: Delta) {
    match d
    case InsertLines(start, end, _) => SomeRows(lines, start.row, end.row)
    case InsertText(start, end, _) => EditableRange(lines, start, end)
    case RemoveLines(start, _, removed) => lines != [] && start.row <= |lines| && AllLines(removed)
    case RemoveText(start, _, _) => Editable(lines, start)
  }

  /** What `revertDeltas` makes of one delta. */
  function Reverted(lines: seq<Text>, d: Delta): (r: seq<Text>)
    requires Revertible(lines, d)
    ensures r != []
  {
    match d
    case InsertLines(start, end, _) => lines[..start.row] + lines[end.row..]
    case InsertText(start, end, _) => Replaced(lines, ClipRow(lines, start), ClipRow(lines, end), [[]])
    case RemoveLines(start, _, removed) => Spliced(lines, start.row, removed)
    case RemoveText(start, _, text) => Replaced(lines, ClipRow(lines, start), ClipRow(lines, start), Split(text))
  }

  predicate ReapplicableAll(lines: seq<Text>, log: seq<Delta>)
    decreases |log|
  {
    log == [] || (Reapplicable(lines, log[0]) && ReapplicableAll(Reapplied(lines, log[0]), log[1..]))
  }

  function ReappliedAll(lines: seq<Text>, log: seq<Delta>): seq<Text>
    requires ReapplicableAll(lines, log)
    decreases |log|
  {
    if log == [] then lines else ReappliedAll(Reapplied(lines, log[0]), log[1..])
  }

  predicate RevertibleAll(lines: seq<Text>, log: seq<Delta>)
    decreases |log|
  {
    log == [] || (Revertible(lines, log[|log| - 1]) && RevertibleAll(Reverted(lines, log[|log| - 1]), log[..|log| - 1]))
  }

  function RevertedAll(lines: seq<Text>, log: seq<Delta>): seq<Text>
    requires RevertibleAll(lines, log)
    decreases |log|
  {
    if log == [] then lines else RevertedAll(Reverted(lines, log[|log| - 1]), log[..|log| - 1])
  }

  /** On the lines it fits, a delta done again has its own effect. */
  lemma ReappliedIs(lines: seq<Text>, d: Delta)
    requires lines != [] && AllLines(lines) && Fits(lines, d)
    ensures Reapplicable(lines, d) && Reapplied(lines, d) == Apply(lines, d)
  {
    AppliedShapes(lines, d);
    if d.InsertLines? { SplicedAtEnd(lines, d.lines); }
  }

  /** After its own effect, a delta taken back restores the lines before it. */
  lemma RevertedIs(was: seq<Text>, d: Delta)
    requires was != [] && AllLines(was) && Fits(was, d)
    ensures Revertible(Apply(was, d), d) && Reverted(Apply(was, d), d) == was
  {
    RevertedShapes(was, d);
    ApplyKeepsLines(was, d);
    ApplyLength(was, d);
    hide Apply, Fits, AllLines, Replaced;
  }

  /** Doing a log again, however each delta is carried out, leads where it led. */
  lemma {:induction false} ReappliedAllIs(lines: seq<Text>, log: seq<Delta>, to: seq<Text>)
    requires lines != [] && AllLines(lines) && Leads(lines, log, to)
    ensures ReapplicableAll(lines, log) && ReappliedAll(lines, log) == to
    decreases |log|
  {
    if log != [] {
      hide Apply, Fits, AllLines, Reapplicable, Reapplied;
      ReappliedIs(lines, log[0]);
      ApplyKeepsLines(lines, log[0]);
      ReappliedAllIs(Apply(lines, log[0]), log[1..], to);
    }
  }

  /** Taking a log back restores the lines it started from. */
  lemma {:induction false} RevertedAllIs(was: seq<Text>, log: seq<Delta>, now: seq<Text>)
    requires was != [] && AllLines(was) && Leads(was, log, now)
    ensures RevertibleAll(now, log) && RevertedAll(now, log) == was
    decreases |log|
  {
    hide Apply, Fits, AllLines, Revertible, Reverted, Leads;
    if log != [] {
      var prior := LeadsLast(was, log, now);
      LeadsKeepsLines(was, log[..|log| - 1], prior);
      RevertedIs(prior, log[|log| - 1]);
      RevertedAllIs(was, log[..|log| - 1], prior);
    } else {
      LeadsFromNothing(was, log, now);
    }
  }

  lemma PiecesOfText(d: Delta)
    requires d.InsertText? && TextSpan(d.start, d.end, d.text)
    ensures Split(d.text) == d.Pieces()
  {
    if d.text == [NL] {
      assert Split([NL][1..]) == [[]];
    } else {
      SplitPlain(d.text);
    }
  }

  lemma NoRemovals(lines: seq<Text>, from: Pos, to: Pos)
    ensures RemoveTrain(lines, [], from, to, to)
  {
  }

  lemma OneRemoval(before: seq<Text>, d: Delta, from: Pos, to: Pos)
    requires Inner(before, d) && !d.Inserts() && ValidPos(before, from) && ValidPos(before, to)
    requires AtMost(from, d.start) && AtMost(d.end, to)
    ensures RemoveTrain(before, [d], from, to, Moved(d, to, false))
  {
    hide Apply, Inner, Moved;
    assert [d][1..] == [] && [d][0] == d;
  }

  /** The deltas are one removal of text, inside the document. */
  predicate OneTextRemoved(lines: seq<Text>, ds: seq<Delta>, start: Pos, end: Pos) {
    |ds| == 1 && ds[0].RemoveText? && ds[0].start == start && ds[0].end == end && Inner(lines, ds[0])
  }

  lemma TextTrain(before: seq<Text>, ds: seq<Delta>, start: Pos, end: Pos, from: Pos, to: Pos)
    requires OneTextRemoved(before, ds, start, end) && ValidPos(before, from) && ValidPos(before, to)
    requires AtMost(from, start) && AtMost(end, to)
    ensures RemoveTrain(before, ds, from, to, Moved(ds[0], to, false))
  {
    assert ds == [ds[0]];
    OneRemoval(before, ds[0], from, to);
  }

  /** Cutting off the end of a row leaves a later row's position alone. */
  lemma RowTrain(before: seq<Text>, ds: seq<Delta>, start: Pos, end: Pos, to: Pos)
    requires OneTextRemoved(before, ds, start, end) && ValidPos(before, start) && ValidPos(before, to)
    requires end.row < to.row && end.row == start.row
    ensures RemoveTrain(before, ds, start, to, to)
  {
    hide RemoveTrain, Inner;
    TextTrain(before, ds, start, end, start, to);
  }

  /** Removing exactly the stretch leaves nothing of it. */
  lemma WholeTrain(before: seq<Text>, ds: seq<Delta>, start: Pos, end: Pos)
    requires OneTextRemoved(before, ds, start, end) && ValidPos(before, start) && ValidPos(before, end)
    requires AtMost(start, end) && start != end
    ensures RemoveTrain(before, ds, start, end, start)
  {
    hide RemoveTrain, Inner;
    TextTrain(before, ds, start, end, start, end);
  }

  /** Cutting the start of a row takes its end there to the start of the row. */
  lemma HeadTrain(before: seq<Text>, ds: seq<Delta>, from: Pos, to: Pos)
    requires OneTextRemoved(before, ds, Pos(to.row, 0), to) && ValidPos(before, from) && ValidPos(before, to)
    requires AtMost(from, Pos(to.row, 0))
    ensures RemoveTrain(before, ds, from, to, Pos(to.row, 0))
  {
    hide RemoveTrain, Inner;
    TextTrain(before, ds, Pos(to.row, 0), to, from, to);
  }

  lemma RowsTrain(before: seq<Text>, d: Delta, from: Pos, to: Pos)
    requires Inner(before, d) && d.RemoveLines? && ValidPos(before, from) && ValidPos(before, to)
    requires AtMost(from, d.start) && d.end == to && to.column == 0
    ensures RemoveTrain(before, [d], from, to, Pos(d.start.row, 0))
  {
    OneRemoval(before, d, from, to);
  }

  /** The three ways the removal is carried out come to the same replacement. */
  lemma RemovedShapes(before: seq<Text>, from: Pos, to: Pos)
    requires ValidPos(before, from) && ValidPos(before, to) && AtMost(from, to)
    ensures var head, tail := before[from.row][..from.column], before[to.row][to.column..];
            && (from.row == to.row ==> Replaced(before, from, to, [[]]) == before[from.row := head + tail])
            && (from.column == 0 ==> Replaced(before, from, to, [[]]) == before[..from.row] + [tail] + before[to.row + 1..])
            && (from.row < to.row ==>
                 var l2 := before[..from.row + 1] + [tail] + before[to.row + 1..];
                 from.row + 1 < |l2| && l2[from.row] == before[from.row] &&
                 Replaced(before, from, to, [[]]) ==
                   l2[..from.row] + [l2[from.row][..from.column] + l2[from.row + 1]] + l2[from.row + 2..])
  {
    RemovedShape(before, from, to);
    hide Replaced;
    var head, tail := before[from.row][..from.column], before[to.row][to.column..];
    if from.column == 0 { assert head + tail == tail; }
    if from.row < to.row {
      var l2 := before[..from.row + 1] + [tail] + before[to.row + 1..];
      assert l2[from.row] == before[from.row] && l2[from.row + 1] == tail && l2[from.row + 2..] == before[to.row + 1..];
      assert l2[..from.row] == before[..from.row];
    }
  }

  /** A row cut off at a column and then joined with the next. */
  lemma RowCut(before: seq<Text>, at: Pos)
    requires ValidPos(before, at) && at.row + 1 < |before|
    ensures var l1 := before[at.row := before[at.row][..at.column] + before[at.row][|before[at.row]|..]];
            && |l1[at.row]| == at.column
            && l1[..at.row] + [l1[at.row] + l1[at.row + 1]] + l1[at.row + 2..] ==
               before[..at.row] + [before[at.row][..at.column] + before[at.row + 1]] + before[at.row + 2..]
  {
    assert before[at.row][..at.column] + before[at.row][|before[at.row]|..] == before[at.row][..at.column];
  }

  lemma TailCut(before: seq<Text>, first: nat, to: Pos)
    requires ValidPos(before, to) && first <= to.row
    ensures var l1 := before[to.row := before[to.row][..0] + before[to.row][to.column..]];
            && l1[..first] + l1[to.row..] == before[..first] + [before[to.row][to.column..]] + before[to.row + 1..]
            && l1 == before[..to.row] + [before[to.row][to.column..]] + before[to.row + 1..]
  {
    assert before[to.row][..0] + before[to.row][to.column..] == before[to.row][to.column..];
  }

  lemma StaysValid(before: seq<Text>, row: nat, line: Text, p: Pos)
    requires row < |before| && ValidPos(before, p) && AtMost(p, Pos(row, 0))
    ensures ValidPos(before[row := line], p) && ValidPos(before[row := line], Pos(row, 0))
  {
  }

  /** A line broken in two with all but the first of the pieces in the break. */
  function Broken(lines: seq<Text>, p: Pos, pieces: seq<Text>): seq<Text>
    requires ValidPos(lines, p) && |pieces| >= 2
  {
    lines[..p.row] + [lines[p.row][..p.column]] + pieces[1..|pieces| - 1] +
    [pieces[|pieces| - 1] + lines[p.row][p.column..]] + lines[p.row + 1..]
  }

  lemma BrokenSteps(before: seq<Text>, p: Pos, pieces: seq<Text>, l2: seq<Text>, l3: seq<Text>)
    requires ValidPos(before, p) && |pieces| >= 2
    requires l2 == before[..p.row] + [before[p.row][..p.column], before[p.row][p.column..]] + before[p.row + 1..]
    requires l3 == Spliced(l2, p.row + 1, pieces[1..|pieces| - 1])
    ensures p.row + |pieces| - 1 < |l3|
    ensures var k := p.row + |pieces| - 1;
            l3[k := l3[k][..0] + pieces[|pieces| - 1] + l3[k][0..]] == Broken(before, p, pieces)
  {
    var head, tail := before[p.row][..p.column], before[p.row][p.column..];
    var k := p.row + |pieces| - 1;
    assert l3 == before[..p.row] + [head] + pieces[1..|pieces| - 1] + [tail] + before[p.row + 1..];
    assert l3[k] == tail;
    assert l3[k][..0] + pieces[|pieces| - 1] + l3[k][0..] == pieces[|pieces| - 1] + tail;
  }

  lemma InsertedPieces(before: seq<Text>, p: Pos, pieces: seq<Text>, l1: seq<Text>, after: seq<Text>)
    requires ValidPos(before, p) && |pieces| >= 2
    requires l1 == before[p.row := before[p.row][..p.column] + pieces[0] + before[p.row][p.column..]]
    requires after == Broken(l1, Pos(p.row, p.column + |pieces[0]|), pieces)
    ensures after == Replaced(before, p, p, pieces)
  {
    ReplacedShape(before, p, p, pieces);
    hide Replaced;
    var head, tail := before[p.row][..p.column], before[p.row][p.column..];
    assert l1[p.row] == (head + pieces[0]) + tail;
    assert l1[p.row][..p.column + |pieces[0]|] == head + pieces[0];
    assert l1[p.row][p.column + |pieces[0]|..] == tail;
  }

  lemma OneLineShape(lines: seq<Text>, p: Pos, text: Text)
    requires ValidPos(lines, p)
    ensures lines[p.row := lines[p.row][..p.column] + text + lines[p.row][p.column..]] ==
            lines[..p.row] + [lines[p.row][..p.column] + text + lines[p.row][p.column..]] + lines[p.row + 1..]
  {
  }

  lemma NotEmptyPiece(text: Text)
    requires text != [] && |Split(text)| == 1
    ensures Split(text)[0] != []
  {
  }

  lemma PiecesAreLines(pieces: seq<Text>)
    requires AllLines(pieces) && pieces != []
    ensures IsLine(pieces[0]) && IsLine(pieces[|pieces| - 1])
    ensures |pieces| >= 2 ==> AllLines(pieces[1..|pieces| - 1])
  {
  }

  /** `lines.splice(row, 0, ...added)` */
  function Spliced(lines: seq<Text>, row: nat, added: seq<Text>): seq<Text>
    requires row <= |lines|
  {
    lines[..row] + added + lines[row..]
  }

  lemma NoDeltas(lines: seq<Text>, p: Pos)
    ensures Leads(lines, [], lines) && InsertTrain(lines, [], p, p)
  {
  }

  lemma NoRowsSpliced(before: seq<Text>, row: nat, added: seq<Text>)
    requires row <= |before|
    ensures Spliced(before, row, []) == before && Spliced(before, row, added[..0]) == before
  {
  }

  lemma SplicedAtEnd(before: seq<Text>, added: seq<Text>)
    ensures Spliced(before, |before|, added) == before + added
  {
  }

  lemma JoinedEmpty()
    ensures Flat([]) == [] && Flat([[]]) == [] && AllLines([[]])
  {
  }

  lemma SplicedLength(before: seq<Text>, row: nat, added: seq<Text>)
    requires row <= |before|
    ensures |Spliced(before, row, added)| == |before| + |added|
  {
  }

  lemma ChunkInserted(before: seq<Text>, row: nat, added: seq<Text>, done: nat, n: nat)
    requires row <= |before| && done + n <= |added|
    ensures Spliced(Spliced(before, row, added[..done]), row + done, added[done..done + n]) == Spliced(before, row, added[..done + n])
  {
    assert added[..done] + added[done..done + n] == added[..done + n];
  }

  lemma OneDelta(before: seq<Text>, d: Delta)
    requires Fits(before, d)
    ensures Leads(before, [d], Apply(before, d))
    ensures Inner(before, d) && d.Inserts() ==> InsertTrain(before, [d], d.start, d.end)
  {
    hide Apply, Fits, Moved;
    assert [d][1..] == [] && [d][0] == d;
  }

  /** What taking a delta back amounts to. */
  lemma RevertedShapes(was: seq<Text>, d: Delta)
    requires AllLines(was) && Fits(was, d)
    ensures d.InsertText? ==> Removes(Apply(was, d), d.start, d.end, was)
    ensures d.RemoveText? ==> ValidPos(Apply(was, d), d.start) && Replaced(Apply(was, d), d.start, d.start, Split(d.text)) == was
    ensures d.InsertLines? ==> RemovesRows(Apply(was, d), d.start.row, d.end.row, was)
    ensures d.RemoveLines? ==>
              AllLines(d.lines) && d.start.row <= |Apply(was, d)| && Spliced(Apply(was, d), d.start.row, d.lines) == was
  {
    hide Replaced, Apply;
    match d {
      case InsertText(_, _, _) => RevertedInsertText(was, d);
      case RemoveText(_, _, _) => RevertedRemoveText(was, d);
      case InsertLines(_, _, _) => RevertedInsertLines(was, d);
      case RemoveLines(_, _, _) => RemovedLines(was, d);
    }
  }

  predicate Removes(now: seq<Text>, start: Pos, end: Pos, was: seq<Text>) {
    ValidPos(now, start) && ValidPos(now, end) && AtMost(start, end) && Replaced(now, start, end, [[]]) == was
  }

  predicate RemovesRows(now: seq<Text>, first: nat, end: nat, was: seq<Text>) {
    first < end <= |now| && end - first < |now| && now[..first] + now[end..] == was
  }

  lemma RevertedInsertLines(was: seq<Text>, d: Delta)
    requires Fits(was, d) && d.InsertLines?
    ensures RemovesRows(Apply(was, d), d.start.row, d.end.row, was)
  {
  }

  lemma RevertedInsertText(was: seq<Text>, d: Delta)
    requires Fits(was, d) && d.InsertText?
    ensures Removes(Apply(was, d), d.start, d.end, was)
  {
    InsertedHalves(was, d);
    hide Apply, Fits;
    RemovedShape(Apply(was, d), d.start, d.end);
    LineAsSeam(was, d.start);
  }

  /** After an insertion of text the two halves of its line are around it. */
  lemma InsertedHalves(was: seq<Text>, d: Delta)
    requires Fits(was, d) && d.InsertText?
    ensures var now := Apply(was, d);
            && ValidPos(was, d.start) && ValidPos(now, d.start) && ValidPos(now, d.end) && AtMost(d.start, d.end)
            && now[..d.start.row] == was[..d.start.row] && now[d.end.row + 1..] == was[d.start.row + 1..]
            && now[d.start.row][..d.start.column] == was[d.start.row][..d.start.column]
            && now[d.end.row][d.end.column..] == was[d.start.row][d.start.column..]
  {
    var now := Apply(was, d);
    var head, tail := was[d.start.row][..d.start.column], was[d.start.row][d.start.column..];
    if d.end.row == d.start.row {
      assert now[d.start.row] == head + d.text + tail;
    } else {
      assert now[d.start.row] == head && now[d.end.row] == tail;
    }
  }

  lemma RevertedRemoveText(was: seq<Text>, d: Delta)
    requires Fits(was, d) && d.RemoveText?
    ensures ValidPos(Apply(was, d), d.start)
    ensures Replaced(Apply(was, d), d.start, d.start, Split(d.text)) == was
  {
    RemovedTextShape(was, d);
    SplitOfText(d.text);
    hide Apply, Replaced, Split, Woven;
    var above, below := was[..d.start.row], was[d.end.row + 1..];
    var head, tail := was[d.start.row][..d.start.column], was[d.end.row][d.end.column..];
    SeamReplaced(above, head, tail, below, Split(d.text));
    RemovedBack(was, d);
  }

  lemma RemovedBack(was: seq<Text>, d: Delta)
    requires Fits(was, d) && d.RemoveText?
    ensures Woven(was[..d.start.row], was[d.start.row][..d.start.column], if d.end.row == d.start.row then [d.text] else [[], []],
                  was[d.end.row][d.end.column..], was[d.end.row + 1..]) == was
  {
    hide Woven;
    var line := was[d.start.row];
    var above, below := was[..d.start.row], was[d.end.row + 1..];
    var head, tail := line[..d.start.column], was[d.end.row][d.end.column..];
    if d.end.row == d.start.row {
      WovenLine(above, head, d.text, tail, below);
      assert head + d.text + tail == line && above + [line] + below == was;
    } else {
      WovenBreak(above, head, tail, below);
      assert head == line && tail == was[d.end.row] && above + [line, was[d.end.row]] + below == was;
    }
  }

  lemma WovenLine(above: seq<Text>, head: Text, text: Text, tail: Text, below: seq<Text>)
    ensures Woven(above, head, [text], tail, below) == above + [head + text + tail] + below
  {
  }

  lemma WovenBreak(above: seq<Text>, head: Text, tail: Text, below: seq<Text>)
    ensures Woven(above, head, [[], []], tail, below) == above + [head, tail] + below
  {
    assert head + [] == head && [] + tail == tail;
  }

  lemma SplitOfText(text: Text)
    ensures text == [NL] ==> Split(text) == [[], []]
    ensures IsLine(text) ==> Split(text) == [text]
  {
    if text == [NL] { assert Split([NL][1..]) == [[]]; }
    if IsLine(text) { SplitPlain(text); }
  }

  lemma NothingRemoved(lines: seq<Text>, p: Pos)
    requires ValidPos(lines, p)
    ensures Replaced(lines, p, p, [[]]) == lines
    ensures Leads(lines, [], lines) && RemoveTrain(lines, [], p, p, p)
  {
    NothingReplaced(lines, p);
  }
}
