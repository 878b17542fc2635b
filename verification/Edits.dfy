/** What an edit means: on the flat string, for the anchors, and for the position it returns. */
module Edits {
  import opened TextModel
  import opened Deltas
  import opened Anchors
  import opened EditShapes

  /** Inserting text is one insertion of the normalised text into the flat string; the position
      returned is its end; and every anchor moves as an offset does under that one insertion. */
  lemma {:induction false} InsertIsFlatInsert(before: seq<Text>, at: Pos, text: Text, ds: seq<Delta>, q: Pos, after: seq<Text>, p: Pos, insertRight: bool)
    requires before != [] && AllLines(before) && ValidPos(before, at) && ValidPos(before, p)
    requires after == Replaced(before, at, at, Split(text)) && Leads(before, ds, after)
    requires InsertTrain(before, ds, at, q) && ds != [] && ds[0].InsertText?
    ensures Offset(before, at) <= |Flat(before)|
    ensures Flat(after) == Flat(before)[..Offset(before, at)] + Normalize(text) + Flat(before)[Offset(before, at)..]
    ensures ValidPos(after, q) && Offset(after, q) == Offset(before, at) + |Normalize(text)|
    ensures ValidPos(after, MovedAll(ds, p, insertRight))
    ensures Offset(after, MovedAll(ds, p, insertRight)) ==
            Shift(Offset(before, p), Offset(before, at), |Normalize(text)|, true, insertRight)
  {
    hide Replaced, Flat, Split, Leads, InsertTrain, MovedAll, Offset;
    ReplacedIsSplice(before, at, at, Split(text));
    SplitAgrees(text);
    AnchorFollowsInsert(before, ds, at, q, after, p, insertRight);
  }

  /** Removing a range is one removal from the flat string, and so it is for the anchors. */
  lemma {:induction false} RemoveIsFlatRemove(before: seq<Text>, from: Pos, to: Pos, ds: seq<Delta>, after: seq<Text>, p: Pos, insertRight: bool)
    requires AllLines(before) && ValidPos(before, from) && ValidPos(before, to) && AtMost(from, to) && ValidPos(before, p)
    requires Leads(before, ds, after) && RemoveTrain(before, ds, from, to, from)
    ensures Offset(before, from) <= Offset(before, to) <= |Flat(before)|
    ensures Flat(after) == Flat(before)[..Offset(before, from)] + Flat(before)[Offset(before, to)..]
    ensures ValidPos(after, from) && Offset(after, from) == Offset(before, from)
    ensures ValidPos(after, MovedAll(ds, p, insertRight))
    ensures Offset(after, MovedAll(ds, p, insertRight)) ==
            Shift(Offset(before, p), Offset(before, from), Offset(before, to) - Offset(before, from), false, insertRight)
  {
    hide Flat, Leads, RemoveTrain, MovedAll, Offset;
    TrainCuts(before, ds, from, to, after);
    AnchorFollowsRemove(before, ds, from, to, after, p, insertRight);
  }

  /** The removals of a train cut exactly the stretch out of the flat string. */
  lemma {:induction false} TrainCuts(lines: seq<Text>, ds: seq<Delta>, from: Pos, to: Pos, after: seq<Text>)
    requires AllLines(lines) && ValidPos(lines, from) && ValidPos(lines, to)
    requires AtMost(from, to) && RemoveTrain(lines, ds, from, to, from) && Leads(lines, ds, after)
    ensures Offset(lines, from) <= Offset(lines, to) <= |Flat(lines)|
    ensures Flat(after) == Flat(lines)[..Offset(lines, from)] + Flat(lines)[Offset(lines, to)..]
    ensures ValidPos(after, from) && Offset(after, from) == Offset(lines, from)
    decreases |ds|
  {
    hide Apply, Fits, Inner, Moved, Offset, Flat;
    OffsetOrder(lines, from, to);
    FlatCut(lines, to);
    if ds == [] {
      assert Flat(lines) == Flat(lines)[..Offset(lines, from)] + Flat(lines)[Offset(lines, from)..];
    } else {
      var d := ds[0];
      var now := Apply(lines, d);
      var to' := Moved(d, to, false);
      ApplyKeepsLines(lines, d);
      RemovedPositions(lines, d);
      MovedIsShift(lines, d, to, false);
      MovedIsShift(lines, d, from, false);
      StaysBefore(d, from);
      OffsetOrder(lines, from, d.start);
      OffsetOrder(lines, d.end, to);
      OffsetOrder(now, from, to');
      DeltaIsFlatEdit(lines, d);
      TrainCuts(now, ds[1..], from, to', after);
      CutInside(Flat(lines), Offset(lines, from), Offset(lines, d.start), d.Size(), Offset(lines, to));
    }
  }

  lemma CutInside(flat: Text, from: nat, at: nat, size: nat, to: nat)
    requires from <= at && at + size <= to <= |flat|
    ensures var cut := flat[..at] + flat[at + size..];
            cut[..from] + cut[to - size..] == flat[..from] + flat[to..]
  {
  }

  /** The range already holds the text, so that `replace` does nothing. */
  predicate Skips(lines: seq<Text>, start: Pos, end: Pos, text: Text)
    requires Editable(lines, start) && Editable(lines, end)
    requires AtMost(ClipRow(lines, start), ClipRow(lines, end))
  {
    (text == [] && start == end) || text == GetTextRange(lines, start, end)
  }

  /** The position of the caller that `replace` then returns as it is. */
  function Skipped(start: Pos, end: Pos, text: Text): Pos {
    if text == [] && start == end then start else end
  }

  /** It is where the text ends, unless it names a row past the end. */
  lemma {:induction false} SkippedOffset(lines: seq<Text>, start: Pos, end: Pos, text: Text)
    requires AllLines(lines) && Editable(lines, start) && Editable(lines, end)
    requires AtMost(ClipRow(lines, start), ClipRow(lines, end)) && Skips(lines, start, end, text)
    ensures var q := Skipped(start, end, text);
            && (ValidPos(lines, q) <==> q.row < |lines|)
            && (ValidPos(lines, q) ==> Offset(lines, q) == Offset(lines, ClipRow(lines, start)) + |Normalize(text)|)
  {
    var from, to := ClipRow(lines, start), ClipRow(lines, end);
    if !(text == [] && start == end) {
      TextRangeIsBetween(lines, start, end);
      BetweenLines(lines, from, to);
      hide AllLines, Flat, Offset, Between, RangeLines, Normalize;
      NormalizeFlat(Between(lines, from, to));
      BetweenIsSlice(lines, from, to);
    }
  }

  /** After the removal the start is where it was. */
  lemma {:induction false} RemovedReturns(before: seq<Text>, from: Pos, to: Pos, ds: seq<Delta>, after: seq<Text>)
    requires AllLines(before) && ValidPos(before, from) && ValidPos(before, to) && AtMost(from, to)
    requires RemoveTrain(before, ds, from, to, from) && Leads(before, ds, after)
    ensures ValidPos(after, from) && Offset(after, from) == Offset(before, from) && Normalize([]) == []
  {
    hide RemoveTrain, Leads, Offset, Flat;
    TrainCuts(before, ds, from, to, after);
  }

  /** The insertion ends behind its text. */
  lemma {:induction false} InsertedReturns(before: seq<Text>, at: Pos, text: Text, ds: seq<Delta>, q: Pos, after: seq<Text>)
    requires before != [] && AllLines(before) && ValidPos(before, at)
    requires after == Replaced(before, at, at, Split(text)) && Leads(before, ds, after)
    requires InsertTrain(before, ds, at, q) && ds != [] && ds[0].InsertText?
    ensures ValidPos(after, q) && Offset(after, q) == Offset(before, at) + |Normalize(text)|
  {
    hide Replaced, Flat, Split, Leads, InsertTrain, MovedAll, Offset, Shift;
    InsertIsFlatInsert(before, at, text, ds, q, after, at, false);
  }

  /** Replacing a range is one splice of the flat string, and the position returned, where it is one of the
      document, lies between the text that was put there and what follows. */
  lemma {:induction false} ReplaceIsFlatSplice(before: seq<Text>, from: Pos, to: Pos, text: Text, q: Pos)
    requires ValidPos(before, from) && ValidPos(before, to)
    ensures Offset(before, from) <= |Flat(before)| && Offset(before, to) <= |Flat(before)|
    ensures var after := Replaced(before, from, to, Split(text));
            && Flat(after) == Flat(before)[..Offset(before, from)] + Normalize(text) + Flat(before)[Offset(before, to)..]
            && (ValidPos(after, q) && Offset(after, q) == Offset(before, from) + |Normalize(text)| ==>
                && Flat(Before(after, q)) == Flat(before)[..Offset(before, from)] + Normalize(text)
                && Flat(After(after, q)) == Flat(before)[Offset(before, to)..])
  {
    hide Replaced, Flat, Split, Offset, Before, After;
    var after := Replaced(before, from, to, Split(text));
    ReplacedIsSplice(before, from, to, Split(text));
    SplitAgrees(text);
    if ValidPos(after, q) { FlatCut(after, q); }
  }
}
