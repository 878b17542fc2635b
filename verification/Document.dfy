/** The document: an array of lines edited in place, which announces every primitive change to its
    session as a delta. */
module Documents {
  import opened JsArray
  import opened TextModel
  import opened Deltas
  import opened EditShapes
  import opened Edits
  import opened EditSessions

  /** Lines are inserted at most this many at a time. */
  const CHUNK: nat := 61440

  /** A run of deltas leads from some lines to others; a log takes it up, but not while undoing or redoing. */
  predicate Logged(a: seq<Text>, ds: seq<Delta>, b: seq<Text>, fromUndo: bool, before: seq<Delta>, after: seq<Delta>) {
    Leads(a, ds, b) && after == if fromUndo then before else before + ds
  }

  lemma LoggedTrans(a: seq<Text>, ds: seq<Delta>, b: seq<Text>, more: seq<Delta>, c: seq<Text>,
                    fromUndo: bool, log0: seq<Delta>, log1: seq<Delta>, log2: seq<Delta>)
    requires Logged(a, ds, b, fromUndo, log0, log1) && Logged(b, more, c, fromUndo, log1, log2)
    ensures Logged(a, ds + more, c, fromUndo, log0, log2) && Leads(a, ds, b)
  {
    hide Leads;
    LeadsTrans(a, ds, b, more, c);
    assert log0 + ds + more == log0 + (ds + more);
  }

  lemma LoggedLeads(a: seq<Text>, ds: seq<Delta>, b: seq<Text>, fromUndo: bool, before: seq<Delta>, after: seq<Delta>)
    requires Logged(a, ds, b, fromUndo, before, after)
    ensures Leads(a, ds, b)
  {
  }

  lemma NotLogged(a: seq<Text>, fromUndo: bool, log: seq<Delta>)
    ensures Logged(a, [], a, fromUndo, log, log)
  {
    LeadsNothing(a);
    hide Leads;
    assert log + [] == log;
  }

  class Document {
    var lines: seq<Text>
    const session: EditSession

    constructor (text: Text, session: EditSession)
      requires session.Config().Ok() && session.InSync(Split(text))
      ensures Valid() && this.session == session && lines == Split(text)
    {
      lines := Split(text);
      this.session := session;
    }

    /** There is a line, lines hold no newline characters, and the session follows them. */
    ghost predicate Valid()
      reads this, session, session.bgTokenizer
    {
      lines != [] && AllLines(lines) && session.InSync(lines)
    }

    /** One run of deltas took the document to its present lines, and the session recorded
        them unless they come from undoing or redoing. */
    twostate predicate Announced(ds: seq<Delta>)
      reads this, session
    {
      && session.fromUndo == old(session.fromUndo)
      && Logged(old(lines), ds, lines, session.fromUndo, old(session.deltasDoc), session.deltasDoc)
    }

    /** The change event. */
    method Signal(d: Delta, ghost before: seq<Text>)
      requires Fits(before, d) && lines == Apply(before, d)
      requires AllLines(before) && session.InSync(before)
      modifies session`docRowCache, session`screenRowCache, session`wrapData, session`deltasDoc, session.bgTokenizer
      ensures Valid()
      ensures session.deltasDoc == if session.fromUndo then old(session.deltasDoc) else old(session.deltasDoc) + [d]
    {
      ApplyKeepsLines(before, d);
      ApplyLength(before, d);
      session.OnChange(d, lines, before);
    }

    method InsertInLine(p: Pos, text: Text) returns (q: Pos, ghost ds: seq<Delta>)
      requires Valid() && ValidPos(lines, p) && IsLine(text)
      modifies this`lines, session`docRowCache, session`screenRowCache, session`wrapData, session`deltasDoc, session.bgTokenizer
      ensures Valid() && Announced(ds)
      ensures lines == old(lines)[p.row := old(lines)[p.row][..p.column] + text + old(lines)[p.row][p.column..]]
      ensures q == Pos(p.row, p.column + |text|) && InsertTrain(old(lines), ds, p, q)
      ensures ds == if text == [] then [] else [InsertText(p, q, text)]
    {
      if |text| == 0 {
        assert lines[p.row][..p.column] + text + lines[p.row][p.column..] == lines[p.row];
        return p, [];
      }
      var line := lines[p.row];
      lines := lines[p.row := line[..p.column] + text + line[p.column..]];
      q := Pos(p.row, p.column + |text|);
      var d := InsertText(p, q, text);
      ds := [d];
      OneDelta(old(lines), d);
      Signal(d, old(lines));
    }

    method InsertNewLine(p: Pos) returns (q: Pos, ghost ds: seq<Delta>)
      requires Valid() && ValidPos(lines, p)
      modifies this`lines, session`docRowCache, session`screenRowCache, session`wrapData, session`deltasDoc, session.bgTokenizer
      ensures Valid() && Announced(ds)
      ensures lines == old(lines)[..p.row] + [old(lines)[p.row][..p.column], old(lines)[p.row][p.column..]] + old(lines)[p.row + 1..]
      ensures q == Pos(p.row + 1, 0) && InsertTrain(old(lines), ds, p, q)
      ensures ds == [InsertText(p, q, [NL])]
    {
      var line := lines[p.row];
      lines := lines[p.row := line[..p.column]];
      lines := Splice(lines, p.row + 1, 0, [line[p.column..]]);
      q := Pos(p.row + 1, 0);
      var d := InsertText(p, q, [NL]);
      ds := [d];
      OneDelta(old(lines), d);
      Signal(d, old(lines));
    }

    method InsertChunk(row: nat, added: seq<Text>) returns (ghost ds: seq<Delta>)
      requires Valid() && row <= |lines| && AllLines(added) && added != []
      modifies this`lines, session`docRowCache, session`screenRowCache, session`wrapData, session`deltasDoc, session.bgTokenizer
      ensures Valid() && Announced(ds)
      ensures lines == Spliced(old(lines), row, added)
      ensures row < |old(lines)| ==> InsertTrain(old(lines), ds, Pos(row, 0), Pos(row + |added|, 0))
    {
      lines := Splice(lines, row, 0, added);
      var d := InsertLines(Pos(row, 0), Pos(row + |added|, 0), added);
      ds := [d];
      OneDelta(old(lines), d);
      Signal(d, old(lines));
    }

    /** `_insertLines`: chunk after chunk, each announced on its own. */
    method InsertLinesAt(row: nat, added: seq<Text>) returns (q: Pos, ghost ds: seq<Delta>)
      requires Valid() && row <= |lines| && AllLines(added)
      modifies this`lines, session`docRowCache, session`screenRowCache, session`wrapData, session`deltasDoc, session.bgTokenizer
      ensures Valid() && Announced(ds)
      ensures lines == Spliced(old(lines), row, added)
      ensures q == Pos(row + |added|, 0)
      ensures row < |old(lines)| ==> InsertTrain(old(lines), ds, Pos(row, 0), q)
    {
      hide Leads, InsertTrain, AllLines, Logged, Spliced, EditSession.InSync;
      ghost var before, log0 := lines, session.deltasDoc;
      ds := [];
      q := Pos(row, 0);
      NoDeltas(lines, q);
      NotLogged(lines, session.fromUndo, log0);
      NoRowsSpliced(lines, row, added);
      if |added| == 0 { return; }
      var rest, done: nat := added, 0;
      while |rest| > CHUNK
        invariant Valid() && Announced(ds)
        invariant 0 <= done < |added| && rest == added[done..]
        invariant lines == Spliced(before, row, added[..done])
        invariant row < |before| ==> InsertTrain(before, ds, Pos(row, 0), Pos(row + done, 0))
        decreases |rest|
      {
        ds := InsertNextChunk(before, row, added, done, CHUNK, ds, log0);
        rest, done := rest[CHUNK..], done + CHUNK;
      }
      ds := InsertNextChunk(before, row, added, done, |rest|, ds, log0);
      assert added[..|added|] == added;
      q := Pos(row + |added|, 0);
    }

    /** One more chunk of the lines being inserted at `row` of `before`. */
    method InsertNextChunk(ghost before: seq<Text>, row: nat, added: seq<Text>, done: nat, n: nat, ghost ds: seq<Delta>, ghost log0: seq<Delta>)
      returns (ghost all: seq<Delta>)
      requires Valid() && row <= |before| && AllLines(added) && 0 < n && done + n <= |added|
      requires lines == Spliced(before, row, added[..done]) && Logged(before, ds, lines, session.fromUndo, log0, session.deltasDoc)
      requires row < |before| ==> InsertTrain(before, ds, Pos(row, 0), Pos(row + done, 0))
      modifies this`lines, session`docRowCache, session`screenRowCache, session`wrapData, session`deltasDoc, session.bgTokenizer
      ensures Valid() && lines == Spliced(before, row, added[..done + n])
      ensures Logged(before, all, lines, session.fromUndo, log0, session.deltasDoc)
      ensures row < |before| ==> InsertTrain(before, all, Pos(row, 0), Pos(row + done + n, 0))
    {
      hide Leads, InsertTrain, Logged, Spliced, EditSession.InSync;
      ghost var now, log1 := lines, session.deltasDoc;
      SplicedLength(before, row, added[..done]);
      ghost var more := InsertChunk(row + done, added[done..done + n]);
      ChunkInserted(before, row, added, done, n);
      LoggedTrans(before, ds, now, more, lines, session.fromUndo, log0, log1, session.deltasDoc);
      if row < |before| {
        InsertTrainTrans(before, ds, Pos(row, 0), Pos(row + done, 0), now, more, Pos(row + done + n, 0));
      }
      all := ds + more;
    }

    /** Inserting text: on the flat string it is one splice of the text with its newlines normalised, and
        the position returned is the end of it. */
    method Insert(p: Pos, text: Text) returns (q: Pos, ghost ds: seq<Delta>)
      requires Valid() && Editable(lines, p)
      modifies this`lines, session`docRowCache, session`screenRowCache, session`wrapData, session`deltasDoc, session.bgTokenizer
      ensures Valid() && Announced(ds)
      ensures lines == Replaced(old(lines), ClipRow(old(lines), p), ClipRow(old(lines), p), Split(text))
      ensures text == [] ==> q == p
      ensures text != [] ==> InsertTrain(old(lines), ds, ClipRow(old(lines), p), q) && ds != [] && ds[0].InsertText?
    {
      hide Replaced, Leads, InsertTrain, ClipRow, AllLines, EditSession.InSync, Inner, Fits, Apply, Logged, Split;
      ghost var log0 := session.deltasDoc;
      if |text| == 0 {
        NotLogged(lines, session.fromUndo, log0);
        NothingReplaced(lines, ClipRow(lines, p));
        NoDeltas(lines, p);
        return p, [];
      }
      ghost var before := lines;
      var at := ClipRow(lines, p);
      var pieces := Split(text);
      PiecesAreLines(pieces);
      q, ds := InsertInLine(at, pieces[0]);
      if |pieces| == 1 {
        ReplacedShape(before, at, at, pieces);
        OneLineShape(before, at, pieces[0]);
        NotEmptyPiece(text);
      } else {
        ghost var l1, log1 := lines, session.deltasDoc;
        ghost var more;
        q, more := InsertRest(q, pieces);
        LoggedTrans(before, ds, l1, more, lines, session.fromUndo, log0, log1, session.deltasDoc);
        InsertTrainTrans(before, ds, at, Pos(at.row, at.column + |pieces[0]|), l1, more, q);
        ds := ds + more;
        InsertedPieces(before, at, pieces, l1, lines);
      }
    }

    /** What follows the first piece: a line break, the lines between, the last piece. */
    method InsertRest(p: Pos, pieces: seq<Text>) returns (q: Pos, ghost ds: seq<Delta>)
      requires Valid() && ValidPos(lines, p) && |pieces| >= 2 && AllLines(pieces)
      modifies this`lines, session`docRowCache, session`screenRowCache, session`wrapData, session`deltasDoc, session.bgTokenizer
      ensures Valid() && Announced(ds)
      ensures lines == Broken(old(lines), p, pieces)
      ensures InsertTrain(old(lines), ds, p, q) && ds != [] && ds[0].InsertText?
    {
      hide Leads, InsertTrain, AllLines, Broken, EditSession.InSync, Spliced, Inner, Fits, Apply, Logged;
      PiecesAreLines(pieces);
      ghost var before, log0 := lines, session.deltasDoc;
      q, ds := InsertNewLine(p);
      ghost var l2, log2 := lines, session.deltasDoc;
      ghost var q2, ds2 := q, ds;
      q, ds := InsertLinesAt(q.row, pieces[1..|pieces| - 1]);
      ghost var l3, log3 := lines, session.deltasDoc;
      LoggedTrans(before, ds2, l2, ds, l3, session.fromUndo, log0, log2, log3);
      InsertTrainTrans(before, ds2, p, q2, l2, ds, q);
      BrokenSteps(before, p, pieces, l2, l3);
      ghost var q3, ds3 := q, ds2 + ds;
      q, ds := InsertInLine(q, pieces[|pieces| - 1]);
      LoggedTrans(before, ds3, l3, ds, lines, session.fromUndo, log0, log3, session.deltasDoc);
      InsertTrainTrans(before, ds3, p, q3, l3, ds, q);
      ds := ds3 + ds;
    }

    method RemoveInLine(row: nat, startColumn: nat, endColumn: nat) returns (ghost ds: seq<Delta>)
      requires Valid() && row < |lines| && startColumn <= endColumn <= |lines[row]|
      modifies this`lines, session`docRowCache, session`screenRowCache, session`wrapData, session`deltasDoc, session.bgTokenizer
      ensures Valid() && Announced(ds)
      ensures lines == old(lines)[row := old(lines)[row][..startColumn] + old(lines)[row][endColumn..]]
      ensures if startColumn == endColumn then ds == [] else OneTextRemoved(old(lines), ds, Pos(row, startColumn), Pos(row, endColumn))
    {
      if startColumn == endColumn {
        assert lines[row][..startColumn] + lines[row][endColumn..] == lines[row];
        return [];
      }
      var line := lines[row];
      var removed := line[startColumn..endColumn];
      SliceIsLine(line, startColumn, endColumn);
      var d := RemoveText(Pos(row, startColumn), Pos(row, endColumn), removed);
      lines := lines[row := line[..startColumn] + line[endColumn..]];
      ds := [d];
      OneDelta(old(lines), d);
      Signal(d, old(lines));
    }

    method RemoveNewLine(row: nat) returns (ghost ds: seq<Delta>)
      requires Valid() && row + 1 < |lines|
      modifies this`lines, session`docRowCache, session`screenRowCache, session`wrapData, session`deltasDoc, session.bgTokenizer
      ensures Valid() && Announced(ds)
      ensures lines == old(lines)[..row] + [old(lines)[row] + old(lines)[row + 1]] + old(lines)[row + 2..]
      ensures OneTextRemoved(old(lines), ds, Pos(row, |old(lines)[row]|), Pos(row + 1, 0))
    {
      var d := RemoveText(Pos(row, |lines[row]|), Pos(row + 1, 0), [NL]);
      lines := Splice(lines, row, 2, [lines[row] + lines[row + 1]]);
      ds := [d];
      OneDelta(old(lines), d);
      Signal(d, old(lines));
    }

    /** `_removeLines` */
    method RemoveLinesAt(firstRow: nat, lastRow: nat) returns (removed: seq<Text>, ghost ds: seq<Delta>)
      requires Valid() && firstRow <= lastRow < |lines| && lastRow - firstRow + 1 < |lines|
      modifies this`lines, session`docRowCache, session`screenRowCache, session`wrapData, session`deltasDoc, session.bgTokenizer
      ensures Valid() && Announced(ds)
      ensures removed == old(lines)[firstRow..lastRow + 1]
      ensures lines == old(lines)[..firstRow] + old(lines)[lastRow + 1..]
      ensures ds == [RemoveLines(Pos(firstRow, 0), Pos(lastRow + 1, 0), removed)]
      ensures lastRow + 1 < |old(lines)| ==> Inner(old(lines), ds[0])
    {
      removed := lines[firstRow..lastRow + 1];
      var d := RemoveLines(Pos(firstRow, 0), Pos(lastRow + 1, 0), removed);
      lines := Splice(lines, firstRow, lastRow - firstRow + 1, []);
      ds := [d];
      OneDelta(old(lines), d);
      Signal(d, old(lines));
    }

    /** Removing the text between two positions. */
    method Remove(start: Pos, end: Pos) returns (q: Pos, ghost ds: seq<Delta>)
      requires Valid() && Editable(lines, start) && Editable(lines, end)
      requires AtMost(ClipRow(lines, start), ClipRow(lines, end))
      modifies this`lines, session`docRowCache, session`screenRowCache, session`wrapData, session`deltasDoc, session.bgTokenizer
      ensures Valid() && Announced(ds)
      ensures q == ClipRow(old(lines), start)
      ensures lines == Replaced(old(lines), q, ClipRow(old(lines), end), [[]])
      ensures RemoveTrain(old(lines), ds, q, ClipRow(old(lines), end), q)
    {
      hide Replaced, Leads, RemoveTrain, AllLines, EditSession.InSync, Logged;
      ghost var before, log0 := lines, session.deltasDoc;
      q := ClipRow(lines, start);
      var to := ClipRow(lines, end);
      if q == to {
        NotLogged(lines, session.fromUndo, log0);
        NothingRemoved(lines, q);
        return q, [];
      }
      RemovedShapes(lines, q, to);
      if q.row == to.row {
        ds := RemoveInLine(q.row, q.column, to.column);
        WholeTrain(before, ds, q, to);
        return;
      }
      var first := if q.column == 0 then q.row else q.row + 1;
      ds := CutRows(first, to, q);
      if first != q.row {
        ghost var l2, log2 := lines, session.deltasDoc;
        ghost var more := JoinRows(q);
        LoggedTrans(before, ds, l2, more, lines, session.fromUndo, log0, log2, session.deltasDoc);
        RemoveTrainTrans(before, ds, q, to, Pos(first, 0), l2, more, q);
        ds := ds + more;
      }
    }

    /** Removes the rows from `first` up to the row of `to`, and that row up to its column. */
    method CutRows(first: nat, to: Pos, ghost from: Pos) returns (ghost ds: seq<Delta>)
      requires Valid() && ValidPos(lines, to) && first <= to.row
      requires ValidPos(lines, from) && AtMost(from, Pos(first, 0))
      modifies this`lines, session`docRowCache, session`screenRowCache, session`wrapData, session`deltasDoc, session.bgTokenizer
      ensures Valid() && Announced(ds)
      ensures lines == old(lines)[..first] + [old(lines)[to.row][to.column..]] + old(lines)[to.row + 1..]
      ensures RemoveTrain(old(lines), ds, from, to, Pos(first, 0))
    {
      hide Leads, RemoveTrain, AllLines, EditSession.InSync, Inner, Fits, Apply, Moved, Logged;
      ghost var before, log0 := lines, session.deltasDoc;
      TailCut(before, first, to);
      StaysValid(before, to.row, before[to.row][..0] + before[to.row][to.column..], from);
      hide ValidPos;
      ds := RemoveInLine(to.row, 0, to.column);
      ghost var l1, log1 := lines, session.deltasDoc;
      if ds == [] { NoRemovals(before, from, to); } else { HeadTrain(before, ds, from, to); }
      if to.row > first {
        var _, more := RemoveLinesAt(first, to.row - 1);
        RowsTrain(l1, more[0], from, Pos(to.row, 0));
        LoggedTrans(before, ds, l1, more, lines, session.fromUndo, log0, log1, session.deltasDoc);
        RemoveTrainTrans(before, ds, from, to, Pos(to.row, 0), l1, more, Pos(first, 0));
        ds := ds + more;
      }
    }

    /** Removes the text of a row from a column on, and the line break after it. */
    method JoinRows(at: Pos) returns (ghost ds: seq<Delta>)
      requires Valid() && ValidPos(lines, at) && at.row + 1 < |lines|
      modifies this`lines, session`docRowCache, session`screenRowCache, session`wrapData, session`deltasDoc, session.bgTokenizer
      ensures Valid() && Announced(ds)
      ensures lines == old(lines)[..at.row] + [old(lines)[at.row][..at.column] + old(lines)[at.row + 1]] + old(lines)[at.row + 2..]
      ensures RemoveTrain(old(lines), ds, at, Pos(at.row + 1, 0), at)
    {
      hide Leads, RemoveTrain, AllLines, EditSession.InSync, Inner, Fits, Apply, Moved, Logged;
      ghost var before, log0 := lines, session.deltasDoc;
      ghost var to := Pos(at.row + 1, 0);
      RowCut(before, at);
      ds := RemoveInLine(at.row, at.column, |lines[at.row]|);
      ghost var l1, log1 := lines, session.deltasDoc;
      if ds == [] { NoRemovals(before, at, to); } else { RowTrain(before, ds, at, Pos(at.row, |before[at.row]|), to); }
      ghost var more := RemoveNewLine(at.row);
      WholeTrain(l1, more, at, to);
      LoggedTrans(before, ds, l1, more, lines, session.fromUndo, log0, log1, session.deltasDoc);
      RemoveTrainTrans(before, ds, at, to, to, l1, more, at);
      ds := ds + more;
    }

    /** Replacing text, which does nothing at all when the range already holds it. */
    method Replace(start: Pos, end: Pos, text: Text) returns (q: Pos, ghost ds: seq<Delta>)
      requires Valid() && Editable(lines, start) && Editable(lines, end)
      requires AtMost(ClipRow(lines, start), ClipRow(lines, end))
      modifies this`lines, session`docRowCache, session`screenRowCache, session`wrapData, session`deltasDoc, session.bgTokenizer
      ensures Valid() && Announced(ds)
      ensures lines == Replaced(old(lines), ClipRow(old(lines), start), ClipRow(old(lines), end), Split(text))
      ensures Skips(old(lines), start, end, text) ==> q == Skipped(start, end, text)
      ensures ValidPos(lines, q) <==> !(Skips(old(lines), start, end, text) && Skipped(start, end, text).row >= |old(lines)|)
      ensures ValidPos(lines, q) ==> Offset(lines, q) == Offset(old(lines), ClipRow(old(lines), start)) + |Normalize(text)|
    {
      hide Replaced, Leads, InsertTrain, RemoveTrain, AllLines, EditSession.InSync, Inner, Fits, Apply, GetTextRange, AtMost, Logged, Split, Offset, Normalize;
      if Skips(lines, start, end, text) { SkippedOffset(lines, start, end, text); }
      ghost var log0 := session.deltasDoc;
      NotLogged(lines, session.fromUndo, log0);
      ghost var from, to := ClipRow(lines, start), ClipRow(lines, end);
      if |text| == 0 && start == end {
        NothingReplaced(lines, from);
        NoDeltas(lines, from);
        return start, [];
      }
      if text == GetTextRange(lines, start, end) {
        SameText(lines, start, end);
        NoDeltas(lines, from);
        return end, [];
      }
      ghost var before := lines;
      q, ds := Remove(start, end);
      ghost var l1, log1 := lines, session.deltasDoc;
      RemovedThenInserted(before, from, to, text);
      LoggedLeads(before, ds, l1, session.fromUndo, log0, log1);
      RemovedReturns(before, from, to, ds, l1);
      if text != [] {
        ghost var more;
        q, more := Insert(q, text);
        LoggedLeads(l1, more, lines, session.fromUndo, log1, session.deltasDoc);
        InsertedReturns(l1, from, text, more, q, lines);
        LoggedTrans(before, ds, l1, more, lines, session.fromUndo, log0, log1, session.deltasDoc);
        ds := ds + more;
      }
    }

    method SetValue(text: Text) returns (ghost ds: seq<Delta>)
      requires Valid()
      modifies this`lines, session`docRowCache, session`screenRowCache, session`wrapData, session`deltasDoc, session.bgTokenizer
      ensures Valid() && Announced(ds)
      ensures lines == Split(text)
    {
      hide Leads, InsertTrain, RemoveTrain, AllLines, EditSession.InSync, Inner, Fits, Apply, Replaced, Split, Logged;
      ghost var before, log0 := lines, session.deltasDoc;
      var len := |lines|;
      var _, more := Remove(Pos(0, 0), Pos(len, |lines[len - 1]|));
      AllRemoved(before);
      ghost var l1, log1 := lines, session.deltasDoc;
      var _, rest := Insert(Pos(0, 0), text);
      InsertedInEmpty(text);
      LoggedTrans(before, more, l1, rest, lines, session.fromUndo, log0, log1, session.deltasDoc);
      ds := more + rest;
    }

    /** Public `insertLines`: at or past the end the lines are appended as text, so that no lines at all are
        appended as an empty one. */
    method PublicInsertLines(row: nat, added: seq<Text>) returns (ghost ds: seq<Delta>)
      requires Valid() && AllLines(added)
      modifies this`lines, session`docRowCache, session`screenRowCache, session`wrapData, session`deltasDoc, session.bgTokenizer
      ensures Valid() && Announced(ds)
      ensures lines == if row < |old(lines)| then Spliced(old(lines), row, added)
                       else old(lines) + (if added == [] then [[]] else added)
    {
      hide Leads, InsertTrain, EditSession.InSync, Inner, Fits, Apply, Replaced, Logged;
      if row >= |lines| {
        ghost var all := if added == [] then [[]] else added;
        JoinedEmpty();
        AppendedAsText(lines, all);
        SplicedAtEnd(lines, all);
        var _, more := Insert(Pos(row, 0), [NL] + Flat(added));
        ds := more;
      } else {
        var _, more := InsertLinesAt(row, added);
        ds := more;
      }
    }

    /** Public `removeLines`; the whole document cannot be removed by its exact row numbers, because that
        would leave no line. */
    method PublicRemoveLines(firstRow: nat, lastRow: nat) returns (ghost ds: seq<Delta>)
      requires Valid() && firstRow <= lastRow && !(firstRow == 0 && lastRow == |lines| - 1)
      modifies this`lines, session`docRowCache, session`screenRowCache, session`wrapData, session`deltasDoc, session.bgTokenizer
      ensures Valid() && Announced(ds)
      ensures lastRow < |old(lines)| ==> lines == old(lines)[..firstRow] + old(lines)[lastRow + 1..]
      ensures lastRow >= |old(lines)| > firstRow ==> lines == old(lines)[..firstRow] + [[]]
      ensures firstRow >= |old(lines)| ==> lines == old(lines)
    {
      hide Leads, RemoveTrain, AllLines, EditSession.InSync, Inner, Fits, Apply, Logged;
      if lastRow >= |lines| {
        ClippedTail(lines, firstRow);
        var _, more := Remove(Pos(firstRow, 0), Pos(lastRow + 1, 0));
        ds := more;
      } else {
        var _, more := RemoveLinesAt(firstRow, lastRow);
        ds := more;
      }
    }

    /** Doing one delta again, through the public edits. The deltas it announces in turn may be other ones. */
    method ApplyDelta(d: Delta) returns (ghost ds: seq<Delta>)
      requires Valid() && Reapplicable(lines, d)
      modifies this`lines, session`docRowCache, session`screenRowCache, session`wrapData, session`deltasDoc, session.bgTokenizer
      ensures Valid() && Announced(ds)
      ensures lines == Reapplied(old(lines), d)
    {
      hide Leads, InsertTrain, RemoveTrain, EditSession.InSync, Replaced, Spliced, Inner, Split, Logged;
      match d {
        case InsertLines(start, end, added) =>
          ds := PublicInsertLines(start.row, added);
        case InsertText(start, end, text) =>
          var _, more := Insert(start, text);
          ds := more;
        case RemoveLines(start, end, _) =>
          var _, more := RemoveLinesAt(start.row, end.row - 1);
          ds := more;
        case RemoveText(start, end, _) =>
          var _, more := Remove(start, end);
          ds := more;
      }
    }

    /** Taking one delta back. */
    method RevertDelta(d: Delta) returns (ghost ds: seq<Delta>)
      requires Valid() && Revertible(lines, d)
      modifies this`lines, session`docRowCache, session`screenRowCache, session`wrapData, session`deltasDoc, session.bgTokenizer
      ensures Valid() && Announced(ds)
      ensures lines == Reverted(old(lines), d)
    {
      hide Leads, InsertTrain, RemoveTrain, EditSession.InSync, Replaced, Spliced, Inner, Split, Logged;
      match d {
        case InsertLines(start, end, _) =>
          var _, more := RemoveLinesAt(start.row, end.row - 1);
          ds := more;
        case InsertText(start, end, _) =>
          var _, more := Remove(start, end);
          ds := more;
        case RemoveLines(start, end, removed) =>
          var _, more := InsertLinesAt(start.row, removed);
          ds := more;
        case RemoveText(start, end, text) =>
          var _, more := Insert(start, text);
          ds := more;
      }
    }

    /** `applyDeltas` */
    method ApplyDeltas(log: seq<Delta>) returns (ghost ds: seq<Delta>)
      requires Valid() && ReapplicableAll(lines, log)
      modifies this`lines, session`docRowCache, session`screenRowCache, session`wrapData, session`deltasDoc, session.bgTokenizer
      ensures Valid() && Announced(ds)
      ensures lines == ReappliedAll(old(lines), log)
    {
      hide Reapplied, Reapplicable, AllLines, EditSession.InSync, Logged;
      ds := [];
      ghost var before, log0 := lines, session.deltasDoc;
      NotLogged(before, session.fromUndo, log0);
      assert log[0..] == log;
      for t := 0 to |log|
        invariant Valid() && Announced(ds)
        invariant ReapplicableAll(lines, log[t..]) && ReappliedAll(lines, log[t..]) == ReappliedAll(before, log)
      {
        ghost var now, log1 := lines, session.deltasDoc;
        assert log[t..][0] == log[t] && log[t..][1..] == log[t + 1..];
        ghost var more := ApplyDelta(log[t]);
        LoggedTrans(before, ds, now, more, lines, session.fromUndo, log0, log1, session.deltasDoc);
        ds := ds + more;
      }
    }

    /** `revertDeltas` */
    method RevertDeltas(log: seq<Delta>) returns (ghost ds: seq<Delta>)
      requires Valid() && RevertibleAll(lines, log)
      modifies this`lines, session`docRowCache, session`screenRowCache, session`wrapData, session`deltasDoc, session.bgTokenizer
      ensures Valid() && Announced(ds)
      ensures lines == RevertedAll(old(lines), log)
    {
      hide Reverted, Revertible, AllLines, EditSession.InSync, Logged;
      ds := [];
      ghost var before, log0 := lines, session.deltasDoc;
      NotLogged(before, session.fromUndo, log0);
      var t := |log|;
      assert log[..t] == log;
      while t > 0
        invariant t <= |log| && Valid() && Announced(ds)
        invariant RevertibleAll(lines, log[..t]) && RevertedAll(lines, log[..t]) == RevertedAll(before, log)
      {
        ghost var now, log1 := lines, session.deltasDoc;
        assert log[..t][..t - 1] == log[..t - 1] && log[..t][t - 1] == log[t - 1];
        t := t - 1;
        ghost var more := RevertDelta(log[t]);
        LoggedTrans(before, ds, now, more, lines, session.fromUndo, log0, log1, session.deltasDoc);
        ds := ds + more;
      }
    }

    /** The offset of a position, counted from the start of a row. */
    method PositionToIndex(p: Pos, startRow: nat) returns (index: nat)
      requires startRow <= |lines|
      ensures Min(p.row, |lines|) >= startRow ==>
                index == RowStart(lines, Min(p.row, |lines|)) - RowStart(lines, startRow) + p.column
      ensures Min(p.row, |lines|) < startRow ==> index == p.column
    {
      index := 0;
      var row, last := startRow, Min(p.row, |lines|);
      while row < last
        invariant startRow <= row && (row <= last || row == startRow)
        invariant index == RowStart(lines, row) - RowStart(lines, startRow)
      {
        index := index + |lines[row]| + 1;
        row := row + 1;
      }
      index := index + p.column;
    }

    /** The position at an offset counted from the start of a row; past the end, the end. */
    method IndexToPosition(index: nat, startRow: nat) returns (p: Pos)
      requires startRow < |lines|
      ensures ValidPos(lines, p) && p.row >= startRow
      ensures RowStart(lines, startRow) + index <= |Flat(lines)| ==> Offset(lines, p) == RowStart(lines, startRow) + index
      ensures RowStart(lines, startRow) + index > |Flat(lines)| ==> Offset(lines, p) == |Flat(lines)|
    {
      FlatLength(lines);
      var rest: int, row := index, startRow;
      while row < |lines|
        invariant startRow <= row <= |lines|
        invariant rest == RowStart(lines, startRow) + index - RowStart(lines, row) >= 0
      {
        rest := rest - (|lines[row]| + 1);
        if rest < 0 {
          p := Pos(row, rest + |lines[row]| + 1);
          if row + 1 < |lines| { RowStartMonotone(lines, row + 1, |lines|); }
          return;
        }
        row := row + 1;
      }
      p := Pos(|lines| - 1, |lines[|lines| - 1]|);
    }
  }
}
