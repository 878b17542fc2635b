/** Anchors: positions that move with the text. */
module Anchors {
  import opened JsArray
  import opened TextModel
  import opened Deltas

  /** Where offset `a` of a flat string moves when `size` characters appear at, or disappear from, `off`.
      `stay` says that an offset right at an insertion stays in front of it. */
  function Shift(a: nat, off: nat, size: nat, inserts: bool, stay: bool): nat {
    if inserts then (if a < off || (a == off && stay) then a else a + size)
    else if a <= off then a
    else if a < off + size then off
    else a - size
  }

  lemma TextInsertValid(lines: seq<Text>, d: Delta, p: Pos, stay: bool)
    requires Fits(lines, d) && ValidPos(lines, p) && d.InsertText?
    ensures ValidPos(Apply(lines, d), Moved(d, p, stay))
  {
    InsertedTail(lines, d);
    hide RowStart;
    if p.row > d.start.row {
      assert Apply(lines, d)[d.end.row + 1..][p.row - d.start.row - 1] == lines[d.start.row + 1..][p.row - d.start.row - 1];
    }
  }

  lemma LinesInsertValid(lines: seq<Text>, d: Delta, p: Pos, stay: bool)
    requires Inner(lines, d) && ValidPos(lines, p) && d.InsertLines?
    ensures !(p == d.start && stay) ==> ValidPos(Apply(lines, d), Moved(d, p, stay))
  {
  }

  lemma TextRemoveValid(lines: seq<Text>, d: Delta, p: Pos, stay: bool)
    requires Fits(lines, d) && ValidPos(lines, p) && d.RemoveText?
    ensures ValidPos(Apply(lines, d), Moved(d, p, stay))
  {
    hide RowStart;
    RemovedTail(lines, d);
    var now := Apply(lines, d);
    assert d.start.row < |now| && d.start.column <= |now[d.start.row]|;
    assert AtMost(d.end, p) && p.row == d.end.row ==>
      d.start.column + p.column - d.end.column <= |now[d.start.row]|;
    assert p.row < d.start.row ==> now[p.row] == lines[p.row];
    hide Apply;
    if p.row > d.end.row {
      assert Apply(lines, d)[d.start.row + 1..][p.row - d.end.row - 1] == lines[d.end.row + 1..][p.row - d.end.row - 1];
    }
  }

  lemma LinesRemoveValid(lines: seq<Text>, d: Delta, p: Pos, stay: bool)
    requires Inner(lines, d) && ValidPos(lines, p) && d.RemoveLines?
    ensures ValidPos(Apply(lines, d), Moved(d, p, stay))
  {
    if p.row >= d.end.row {
      assert Apply(lines, d)[p.row - d.Rows()] == lines[d.end.row..][p.row - d.end.row] == lines[p.row];
    }
  }

  /** The shape of a delta, as far as an anchor at p can tell: text within a line, one newline that
      ends the start's line, or whole lines. */
  predicate Shaped(d: Delta, p: Pos) {
    if d.InsertText? || d.RemoveText? then
      && (d.end == Pos(d.start.row + 1, 0) || (d.end.row == d.start.row && d.start.column < d.end.column))
      && (d.RemoveText? && d.end.row > d.start.row && p.row == d.start.row ==> p.column <= d.start.column)
    else
      d.start.row < d.end.row && d.start.column == 0 && d.end.column == 0
  }

  lemma InnerShaped(lines: seq<Text>, d: Delta, p: Pos)
    requires Inner(lines, d) && ValidPos(lines, p)
    ensures Shaped(d, p)
  {
  }

  lemma {:induction false} MovedByInsert(lines: seq<Text>, d: Delta, p: Pos, stay: bool)
    requires Inner(lines, d) && ValidPos(lines, p) && d.Inserts() && (stay ==> d.InsertText?)
    ensures ValidPos(Apply(lines, d), Moved(d, p, stay))
    ensures Offset(Apply(lines, d), Moved(d, p, stay)) ==
            Shift(Offset(lines, p), Offset(lines, d.start), d.Size(), true, stay)
  {
    hide Apply;
    if d.InsertText? { TextInsertValid(lines, d, p, stay); } else { LinesInsertValid(lines, d, p, stay); }
    OffsetOrder(lines, d.start, p);
    if !AtMost(d.start, p) || (p == d.start && stay) {
      RowStartsBefore(lines, d, p.row);
    } else if p.row > d.start.row || d.InsertLines? {
      RowStartsInserted(lines, d, p.row);
    } else {
      RowStartsBefore(lines, d, p.row);
      InsertedTail(lines, d);
    }
  }

  lemma {:induction false} MovedByRemove(lines: seq<Text>, d: Delta, p: Pos, stay: bool)
    requires Inner(lines, d) && ValidPos(lines, p) && !d.Inserts()
    ensures ValidPos(Apply(lines, d), Moved(d, p, stay))
    ensures Offset(Apply(lines, d), Moved(d, p, stay)) ==
            Shift(Offset(lines, p), Offset(lines, d.start), d.Size(), false, stay)
  {
    hide Apply;
    if d.RemoveText? { TextRemoveValid(lines, d, p, stay); } else { LinesRemoveValid(lines, d, p, stay); }
    OffsetOrder(lines, d.start, p);
    OffsetOrder(lines, d.end, p);
    RemovedContent(lines, d);
    RowStartsBefore(lines, d, d.start.row);
    if AtMost(p, d.start) {
      RowStartsBefore(lines, d, p.row);
    } else if p.row > d.end.row || (d.RemoveLines? && p.row == d.end.row) {
      RowStartsRemoved(lines, d, p.row);
    }
  }

  /** The row and column arithmetic is offset arithmetic on the flat string. */
  lemma {:induction false} MovedIsShift(lines: seq<Text>, d: Delta, p: Pos, stay: bool)
    requires Inner(lines, d) && ValidPos(lines, p) && (stay ==> d.InsertText?)
    ensures ValidPos(Apply(lines, d), Moved(d, p, stay))
    ensures Offset(Apply(lines, d), Moved(d, p, stay)) ==
            Shift(Offset(lines, p), Offset(lines, d.start), d.Size(), d.Inserts(), stay)
  {
    if d.Inserts() { MovedByInsert(lines, d, p, stay); } else { MovedByRemove(lines, d, p, stay); }
  }

  class Anchor {
    var row: nat
    var column: nat
    var insertRight: bool

    constructor (p: Pos)
      ensures Here() == p && !insertRight
    {
      row, column, insertRight := p.row, p.column, false;
    }

    function Here(): Pos
      reads this
    {
      Pos(row, column)
    }

    /** One delta, by the row and column arithmetic of the source. */
    method OnChange(d: Delta)
      requires Shaped(d, Here())
      modifies this`row, this`column
      ensures Here() == Moved(d, old(Here()), insertRight && d.InsertText?)
    {
      var start, end := d.start, d.end;
      if start.row == end.row && start.row != row { return; }
      if start.row > row { return; }
      if start.row == row && start.column > column { return; }
      var r, i := row, column;
      match d {
        case InsertText(_, _, _) =>
          if start.row == r && start.column <= i {
            if start.column != i || !insertRight {
              if start.row == end.row {
                i := i + (end.column - start.column);
              } else {
                i, r := i - start.column, r + (end.row - start.row);
              }
            }
          } else if start.row != end.row && start.row < r {
            r := r + (end.row - start.row);
          }
        case InsertLines(_, _, _) =>
          if start.row <= r { r := r + (end.row - start.row); }
        case RemoveText(_, _, _) =>
          if start.row == r && start.column < i {
            i := if end.column >= i then start.column else Max(0, i - (end.column - start.column));
          } else if start.row != end.row && start.row < r {
            if end.row == r { i := Max(0, i - end.column) + start.column; }
            r := r - (end.row - start.row);
          } else if end.row == r {
            r := r - (end.row - start.row);
            i := Max(0, i - end.column) + start.column;
          }
        case RemoveLines(_, _, _) =>
          if start.row <= r {
            if end.row <= r { r := r - (end.row - start.row); } else { r, i := start.row, 0; }
          }
      }
      row, column := r, i;
    }

    /** The deltas of one edit, one event each. */
    method Follow(ds: seq<Delta>, ghost lines: seq<Text>, ghost after: seq<Text>)
      requires Leads(lines, ds, after) && ValidPos(lines, Here())
      requires AllInner(lines, ds)
      modifies this`row, this`column
      ensures Here() == MovedAll(ds, old(Here()), insertRight)
      ensures ValidPos(after, Here())
    {
      hide Apply, Fits, Inner, Moved, Offset, Shift, ValidPos;
      ghost var now := lines;
      for k := 0 to |ds|
        invariant ValidPos(now, Here()) && Leads(now, ds[k..], after) && AllInner(now, ds[k..])
        invariant MovedAll(ds[k..], Here(), insertRight) == MovedAll(ds, old(Here()), insertRight)
      {
        assert ds[k..][0] == ds[k] && ds[k..][1..] == ds[k + 1..];
        InnerShaped(now, ds[k], Here());
        MovedIsShift(now, ds[k], Here(), insertRight && ds[k].InsertText?);
        OnChange(ds[k]);
        now := Apply(now, ds[k]);
      }
    }
  }

  function MovedAll(ds: seq<Delta>, p: Pos, insertRight: bool): Pos
    decreases |ds|
  {
    if ds == [] then p else MovedAll(ds[1..], Moved(ds[0], p, insertRight && ds[0].InsertText?), insertRight)
  }

  predicate AllInner(lines: seq<Text>, ds: seq<Delta>)
    decreases |ds|
  {
    ds == [] || (Inner(lines, ds[0]) && AllInner(Apply(lines, ds[0]), ds[1..]))
  }

  lemma FlatGrows(lines: seq<Text>, d: Delta)
    requires AllLines(lines) && Inner(lines, d)
    ensures d.Inserts() ==> |Flat(Apply(lines, d))| == |Flat(lines)| + d.Size()
    ensures !d.Inserts() ==> |Flat(Apply(lines, d))| + d.Size() == |Flat(lines)|
  {
    hide Apply, Flat, RowStart;
    DeltaIsFlatEdit(lines, d);
  }

  /** The end of an insertion lies its length further on. */
  lemma {:induction false} InsertedEnd(lines: seq<Text>, d: Delta)
    requires Inner(lines, d) && d.Inserts()
    ensures ValidPos(lines, d.start) && ValidPos(Apply(lines, d), d.end)
    ensures Offset(Apply(lines, d), d.end) == Offset(lines, d.start) + d.Size()
  {
    hide Apply;
    MovedIsShift(lines, d, d.start, false);
  }

  /** An insertion made of several deltas moves an anchor as the one insertion into the flat string does:
      before the place it stays, from there on it moves by the whole length. An anchor that sticks to the
      right stays when it is right at the place, unless lines are put there by a delta of their own. */
  lemma {:induction false} AnchorFollowsInsert(lines: seq<Text>, ds: seq<Delta>, at: Pos, last: Pos, after: seq<Text>, p: Pos, insertRight: bool)
    requires AllLines(lines) && ValidPos(lines, at) && ValidPos(lines, p)
    requires InsertTrain(lines, ds, at, last) && Leads(lines, ds, after)
    requires insertRight && p == at && ds != [] ==> ds[0].InsertText?
    ensures AllInner(lines, ds) && ValidPos(after, MovedAll(ds, p, insertRight)) && ValidPos(after, last)
    ensures |Flat(after)| >= |Flat(lines)|
    ensures Offset(after, last) == Offset(lines, at) + (|Flat(after)| - |Flat(lines)|)
    ensures Offset(after, MovedAll(ds, p, insertRight)) ==
            Shift(Offset(lines, p), Offset(lines, at), |Flat(after)| - |Flat(lines)|, true, insertRight)
    decreases |ds|
  {
    hide Apply, Fits, Inner, Moved, Offset, Flat;
    if ds != [] {
      var d := ds[0];
      var now := Apply(lines, d);
      ApplyKeepsLines(lines, d);
      MovedIsShift(lines, d, p, insertRight && d.InsertText?);
      InsertedEnd(lines, d);
      FlatGrows(lines, d);
      OffsetOrder(lines, p, at);
      InnerSize(lines, d);
      AnchorFollowsInsert(now, ds[1..], d.end, last, after, Moved(d, p, insertRight && d.InsertText?), insertRight);
    }
  }

  lemma InnerSize(lines: seq<Text>, d: Delta)
    requires Inner(lines, d)
    ensures d.Size() > 0
  {
    if d.InsertLines? || d.RemoveLines? { RowStartMonotone(d.lines, 0, |d.lines|); }
  }

  /** A removal made of several deltas moves an anchor as the one removal from the flat string does:
      before it unchanged, inside it to its start, after it back by the whole length. */
  lemma {:induction false} AnchorFollowsRemove(lines: seq<Text>, ds: seq<Delta>, from: Pos, to: Pos, after: seq<Text>, p: Pos, insertRight: bool)
    requires AllLines(lines) && ValidPos(lines, from) && ValidPos(lines, to) && ValidPos(lines, p)
    requires AtMost(from, to) && RemoveTrain(lines, ds, from, to, from) && Leads(lines, ds, after)
    ensures AllInner(lines, ds) && ValidPos(after, MovedAll(ds, p, insertRight))
    ensures Offset(lines, to) - Offset(lines, from) == |Flat(lines)| - |Flat(after)|
    ensures Offset(lines, to) >= Offset(lines, from)
    ensures Offset(after, MovedAll(ds, p, insertRight)) ==
            Shift(Offset(lines, p), Offset(lines, from), Offset(lines, to) - Offset(lines, from), false, insertRight)
    decreases |ds|
  {
    hide Apply, Fits, Inner, Moved, Offset, Flat;
    OffsetOrder(lines, from, to);
    if ds != [] {
      var d := ds[0];
      var now := Apply(lines, d);
      var to', p' := Moved(d, to, false), Moved(d, p, false);
      ApplyKeepsLines(lines, d);
      RemovedPositions(lines, d);
      MovedIsShift(lines, d, p, false);
      MovedIsShift(lines, d, to, false);
      MovedIsShift(lines, d, from, false);
      StaysBefore(d, from);
      OffsetOrder(lines, from, d.start);
      OffsetOrder(lines, d.end, to);
      FlatGrows(lines, d);
      OffsetOrder(now, from, to');
      AnchorFollowsRemove(now, ds[1..], from, to', after, p', insertRight);
    }
  }

  lemma RemovedPositions(lines: seq<Text>, d: Delta)
    requires Inner(lines, d) && !d.Inserts()
    ensures ValidPos(lines, d.start) && ValidPos(lines, d.end)
    ensures Offset(lines, d.end) == Offset(lines, d.start) + d.Size()
  {
    hide Apply;
    RemovedContent(lines, d);
  }

  lemma StaysBefore(d: Delta, p: Pos)
    requires !d.Inserts() && AtMost(p, d.start)
    ensures Moved(d, p, false) == p
  {
  }

  /** Whole lines removed up to the end of the document leave an anchor in them nowhere: its position is
      outside the document, until it is clipped. */
  lemma AnchorInRemovedTail(lines: seq<Text>, d: Delta, p: Pos)
    requires Fits(lines, d) && d.RemoveLines? && d.end.row == |lines| && ValidPos(lines, p)
    ensures ValidPos(Apply(lines, d), Moved(d, p, false)) <==> p.row < d.start.row
  {
  }

  /** The last of two lines is removed: the anchor on it is left on a row that there is not. */
  lemma AnchorLeftOutside()
    ensures var lines: seq<Text>, d := [[], []], RemoveLines(Pos(1, 0), Pos(2, 0), [[]]);
            Fits(lines, d) && ValidPos(lines, Pos(1, 0)) && Moved(d, Pos(1, 0), false) == Pos(1, 0) && !ValidPos(Apply(lines, d), Pos(1, 0))
  {
    var lines: seq<Text> := [[], []];
    assert lines[1..2] == [[]];
  }
}
