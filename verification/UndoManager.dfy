/** The undo manager: two stacks of delta groups and a counter of how far the document is from the state
    last marked clean. */
module UndoManagers {
  import opened TextModel
  import opened Deltas
  import opened EditShapes
  import opened EditSessions
  import opened Documents

  /** What one call to `execute` pushes: groups of deltas. */
  type Entry = seq<seq<Delta>>

  /** A JavaScript number that is an integer or NaN. */
  datatype Counter = Num(n: int) | NaN {
    function Plus(k: int): Counter { if NaN? then NaN else Num(n + k) }
    predicate Negative() { Num? && n < 0 }
  }

  datatype Stacks = Stacks(undo: seq<Entry>, redo: seq<Entry>, dirty: Counter) {
    /** A new edit, alone or merged into the last one. */
    function Execute(entry: Entry, merge: bool): Stacks {
      var merges := merge && undo != [];
      var d := if merges then dirty.Plus(-1) else dirty;
      var stack := if merges then undo[..|undo| - 1] + [undo[|undo| - 1] + entry] else undo + [entry];
      Stacks(stack, [], (if d.Negative() then NaN else d).Plus(1))
    }

    function Undo(): Stacks {
      if undo == [] then this
      else Stacks(undo[..|undo| - 1], redo + [undo[|undo| - 1]], dirty.Plus(-1))
    }

    function Redo(): Stacks {
      if redo == [] then this
      else Stacks(undo + [redo[|redo| - 1]], redo[..|redo| - 1], dirty.Plus(1))
    }
  }

  // ---------------------------------------------------------------- the timeline

  function Concat(entry: Entry): seq<Delta> {
    if entry == [] then [] else entry[0] + Concat(entry[1..])
  }

  lemma {:induction false} ConcatAppend(a: Entry, b: Entry)
    ensures Concat(a + b) == Concat(a) + Concat(b)
  {
    if a == [] {
      assert a + b == b;
    } else {
      assert (a + b)[1..] == a[1..] + b;
      ConcatAppend(a[1..], b);
    }
  }

  predicate EntryLeads(a: seq<Text>, entry: Entry, b: seq<Text>) {
    Leads(a, Concat(entry), b)
  }

  /** States of the document that the stacks lead through, the present one in between; and, as long as the
      counter is a number, the state marked clean that far from the present one. */
  ghost predicate Timeline(s: Stacks, hist: seq<seq<Text>>, clean: seq<Text>) {
    && |hist| == |s.undo| + |s.redo| + 1
    && (forall i :: 0 <= i < |hist| ==> AllLines(hist[i]) && hist[i] != [])
    && (forall i :: 0 <= i < |s.undo| ==> EntryLeads(hist[i], s.undo[i], hist[i + 1]))
    && (forall j :: 0 <= j < |s.redo| ==> EntryLeads(hist[|hist| - 2 - j], s.redo[j], hist[|hist| - 1 - j]))
    && (s.dirty.Num? ==> 0 <= |s.undo| - s.dirty.n < |hist| && hist[|s.undo| - s.dirty.n] == clean)
  }

  /** The states after a new edit: what had been undone is forgotten, a merge replaces the last state. */
  function Extended(s: Stacks, hist: seq<seq<Text>>, merge: bool, now: seq<Text>): seq<seq<Text>>
    requires |s.undo| < |hist|
  {
    hist[..|s.undo| + (if merge && s.undo != [] then 0 else 1)] + [now]
  }

  lemma PushedLength(s: Stacks, entry: Entry, merge: bool)
    ensures |s.Execute(entry, merge).undo| == |s.undo| + (if merge && s.undo != [] then 0 else 1)
  {
  }

  lemma CleanedKeeps(s: Stacks, hist: seq<seq<Text>>, clean: seq<Text>)
    requires Timeline(s, hist, clean)
    ensures Timeline(s.(dirty := Num(0)), hist, hist[|s.undo|])
  {
    hide EntryLeads, AllLines;
  }

  lemma ExtendedAt(s: Stacks, hist: seq<seq<Text>>, clean: seq<Text>, merge: bool, now: seq<Text>)
    requires Timeline(s, hist, clean)
    ensures |s.undo| < |hist|
    ensures var at := |s.undo| + (if merge && s.undo != [] then 0 else 1);
            |Extended(s, hist, merge, now)| == at + 1 && Extended(s, hist, merge, now)[at] == now
  {
  }

  lemma {:induction false} ExecuteKeeps(s: Stacks, hist: seq<seq<Text>>, clean: seq<Text>, entry: Entry, merge: bool, now: seq<Text>)
    requires Timeline(s, hist, clean) && EntryLeads(hist[|s.undo|], entry, now)
    ensures Timeline(s.Execute(entry, merge), Extended(s, hist, merge, now), clean)
  {
    hide Leads, Concat, EntryLeads, AllLines, Stacks.Execute;
    EntryKeepsLines(hist[|s.undo|], entry, now);
    if merge && s.undo != [] { MergeKeeps(s, hist, clean, entry, now); } else { PushKeeps(s, hist, clean, entry, merge, now); }
  }

  lemma EntryKeepsLines(a: seq<Text>, entry: Entry, b: seq<Text>)
    requires AllLines(a) && a != [] && EntryLeads(a, entry, b)
    ensures AllLines(b) && b != []
  {
    LeadsKeepsLines(a, Concat(entry), b);
  }

  lemma PushKeeps(s: Stacks, hist: seq<seq<Text>>, clean: seq<Text>, entry: Entry, merge: bool, now: seq<Text>)
    requires Timeline(s, hist, clean) && EntryLeads(hist[|s.undo|], entry, now) && AllLines(now) && now != []
    requires !(merge && s.undo != [])
    ensures Timeline(s.Execute(entry, merge), Extended(s, hist, merge, now), clean)
  {
    hide EntryLeads, AllLines;
    var t, h := s.Execute(entry, merge), Extended(s, hist, merge, now);
    assert t.undo == s.undo + [entry] && h == hist[..|s.undo| + 1] + [now];
    forall i | 0 <= i < |t.undo| ensures EntryLeads(h[i], t.undo[i], h[i + 1]) {
      if i < |s.undo| { assert EntryLeads(hist[i], s.undo[i], hist[i + 1]); }
    }
  }

  lemma MergeKeeps(s: Stacks, hist: seq<seq<Text>>, clean: seq<Text>, entry: Entry, now: seq<Text>)
    requires Timeline(s, hist, clean) && EntryLeads(hist[|s.undo|], entry, now) && AllLines(now) && now != []
    requires s.undo != []
    ensures Timeline(s.Execute(entry, true), Extended(s, hist, true, now), clean)
  {
    hide EntryLeads, AllLines;
    var last := |s.undo| - 1;
    var t, h := s.Execute(entry, true), Extended(s, hist, true, now);
    assert t.undo == s.undo[..last] + [s.undo[last] + entry] && h == hist[..|s.undo|] + [now];
    forall i | 0 <= i < |t.undo| ensures EntryLeads(h[i], t.undo[i], h[i + 1]) {
      assert EntryLeads(hist[i], s.undo[i], hist[i + 1]);
      if i == last { EntryTrans(hist[last], s.undo[last], hist[last + 1], entry, now); }
    }
  }

  lemma EntryTrans(a: seq<Text>, entry: Entry, b: seq<Text>, more: Entry, c: seq<Text>)
    requires EntryLeads(a, entry, b) && EntryLeads(b, more, c)
    ensures EntryLeads(a, entry + more, c)
  {
    ConcatAppend(entry, more);
    hide Leads, Concat;
    LeadsTrans(a, Concat(entry), b, Concat(more), c);
  }

  lemma {:induction false} UndoKeeps(s: Stacks, hist: seq<seq<Text>>, clean: seq<Text>)
    requires Timeline(s, hist, clean)
    ensures Timeline(s.Undo(), hist, clean)
  {
    hide Leads, Concat;
    if s.undo != [] {
      var t := s.Undo();
      forall j | 0 <= j < |t.redo| ensures EntryLeads(hist[|hist| - 2 - j], t.redo[j], hist[|hist| - 1 - j]) {
        if j == |s.redo| { assert EntryLeads(hist[|s.undo| - 1], s.undo[|s.undo| - 1], hist[|s.undo|]); }
      }
    }
  }

  lemma {:induction false} RedoKeeps(s: Stacks, hist: seq<seq<Text>>, clean: seq<Text>)
    requires Timeline(s, hist, clean)
    ensures Timeline(s.Redo(), hist, clean)
  {
    hide Leads, Concat;
    if s.redo != [] {
      var t := s.Redo();
      forall i | 0 <= i < |t.undo| ensures EntryLeads(hist[i], t.undo[i], hist[i + 1]) {
        if i == |s.undo| { assert EntryLeads(hist[|hist| - 1 - |s.redo|], s.redo[|s.redo| - 1], hist[|hist| - |s.redo|]); }
      }
    }
  }

  /** Undoing and redoing cancel out, the counter included. */
  lemma {:induction false} UndoRedoCancel(s: Stacks)
    ensures s.undo != [] ==> s.Undo().Redo() == s
    ensures s.redo != [] ==> s.Redo().Undo() == s
  {
    if s.undo != [] { BackAndForth(s.undo, s.redo); }
    if s.redo != [] { BackAndForth(s.redo, s.undo); }
  }

  /** The last entry is moved over and back. */
  lemma BackAndForth(from: seq<Entry>, to: seq<Entry>)
    requires from != []
    ensures var n, x := |from| - 1, from[|from| - 1];
            && from[..n] + [(to + [x])[|to + [x]| - 1]] == from
            && (to + [x])[..|to + [x]| - 1] == to
  {
  }

  /** The counter is lost exactly when a new edit takes the clean state off the timeline: it is among the states that
      had been undone, or it is the one the edit is merged into. Else it stays where it is. */
  lemma {:induction false} CleanLost(s: Stacks, hist: seq<seq<Text>>, clean: seq<Text>, entry: Entry, merge: bool, now: seq<Text>)
    requires Timeline(s, hist, clean) && s.dirty.Num?
    ensures |s.undo| < |hist|
    ensures var (t, h, at) := (s.Execute(entry, merge), Extended(s, hist, merge, now), |s.undo| - s.dirty.n);
            && 0 <= at < |hist| && hist[at] == clean
            && (t.dirty.NaN? <==> at >= |h| - 1)
            && (at < |h| - 1 ==> h[at] == clean && |t.undo| - t.dirty.n == at)
  {
    hide EntryLeads, AllLines;
  }

  // ---------------------------------------------------------------- the class

  datatype Step =
    | Insertion(p: Pos, text: Text)
    | Removal(start: Pos, end: Pos)
    | Replacement(start: Pos, end: Pos, text: Text)
    | Flush(merge: bool)
    | UndoStep
    | RedoStep
    | MarkCleanStep
    | ResetStep

  /** What a user sees: the states that undo and redo lead through, which of them is the last one made, the present
      lines, whether there are edits not made into an entry yet, the lines when the document was last marked
      clean, the state that was then the last one made, and the counter of unsaved changes. */
  datatype World = World(hist: seq<seq<Text>>, at: nat, lines: seq<Text>, pending: bool, marked: seq<Text>, clean: seq<Text>, dirty: Counter)

  /** The lines after an edit; one that names no place in the document changes nothing. */
  function Edited(lines: seq<Text>, step: Step): seq<Text>
    requires lines != []
  {
    match step
    case Insertion(p, text) =>
      if Editable(lines, p) then Replaced(lines, ClipRow(lines, p), ClipRow(lines, p), Split(text)) else lines
    case Removal(start, end) =>
      if InOrder(lines, start, end) then Replaced(lines, ClipRow(lines, start), ClipRow(lines, end), [[]]) else lines
    case Replacement(start, end, text) =>
      if InOrder(lines, start, end) then Replaced(lines, ClipRow(lines, start), ClipRow(lines, end), Split(text)) else lines
    case _ => lines
  }

  predicate InOrder(lines: seq<Text>, start: Pos, end: Pos) {
    Editable(lines, start) && Editable(lines, end) && AtMost(ClipRow(lines, start), ClipRow(lines, end))
  }

  /** The edits so far are made into an entry, or merged into the last one; what had been undone is forgotten. */
  function Flushed(w: World, merge: bool): World {
    if !w.pending then w
    else
      var merges := merge && w.at > 0;
      var d := if merges then w.dirty.Plus(-1) else w.dirty;
      var kept := if merges then w.at else w.at + 1;
      World((if kept <= |w.hist| then w.hist[..kept] else w.hist) + [w.lines], kept, w.lines, false, w.marked, w.clean,
            (if d.Negative() then NaN else d).Plus(1))
  }

  /** One step on the level of whole documents. */
  ghost predicate Follows(w: World, step: Step, v: World) {
    match step
    case Flush(merge) => v == Flushed(w, merge)
    case UndoStep =>
      var f := Flushed(w, false);
      v == if 0 < f.at <= |f.hist| then f.(at := f.at - 1, lines := f.hist[f.at - 1], dirty := f.dirty.Plus(-1)) else f
    case RedoStep =>
      var f := Flushed(w, false);
      v == if f.at + 1 < |f.hist| then f.(at := f.at + 1, lines := f.hist[f.at + 1], dirty := f.dirty.Plus(1)) else f
    case MarkCleanStep => w.at < |w.hist| && v == w.(marked := w.lines, clean := w.hist[w.at], dirty := Num(0))
    case ResetStep => w.at < |w.hist| && v == World([w.hist[w.at]], 0, w.lines, w.pending, w.lines, w.hist[w.at], Num(0))
    case _ =>
      && w.lines != [] && v == w.(lines := Edited(w.lines, step), pending := v.pending)
      && (w.pending ==> v.pending) && (!v.pending ==> v.lines == w.lines)
  }

  class UndoManager {
    var undoStack: seq<Entry>
    var redoStack: seq<Entry>
    var dirtyCounter: Counter
    ghost var hist: seq<seq<Text>>
    ghost var clean: seq<Text>
    ghost var marked: seq<Text>

    constructor (ghost lines: seq<Text>)
      requires AllLines(lines) && lines != []
      ensures State() == Stacks([], [], Num(0)) && hist == [lines] && clean == marked == lines
      ensures Timeline(State(), hist, clean)
    {
      undoStack, redoStack, dirtyCounter := [], [], Num(0);
      hist, clean, marked := [lines], lines, lines;
    }

    function State(): Stacks
      reads this
    {
      Stacks(undoStack, redoStack, dirtyCounter)
    }

    /** The present state of the timeline is the document without its pending deltas. */
    ghost predicate Tracks(doc: Document)
      reads this, doc, doc.session, doc.session.bgTokenizer
    {
      && doc.Valid() && !doc.session.fromUndo
      && Timeline(State(), hist, clean)
      && Leads(hist[|undoStack|], doc.session.deltasDoc, doc.lines)
    }

    ghost function View(doc: Document): World
      reads this, doc, doc.session
    {
      World(hist, |undoStack|, doc.lines, doc.session.deltasDoc != [], marked, clean, dirtyCounter)
    }

    method Execute(entry: Entry, merge: bool, ghost now: seq<Text>)
      requires Timeline(State(), hist, clean) && EntryLeads(hist[|undoStack|], entry, now)
      modifies this
      ensures State() == old(State()).Execute(entry, merge)
      ensures hist == Extended(old(State()), old(hist), merge, now) && clean == old(clean) && marked == old(marked)
      ensures Timeline(State(), hist, clean) && hist[|undoStack|] == now
    {
      ExecuteKeeps(State(), hist, clean, entry, merge, now);
      ExtendedAt(State(), hist, clean, merge, now);
      hide *;
      hist := Extended(State(), hist, merge, now);
      Push(entry, merge);
      PushedLength(old(State()), entry, merge);
    }

    method Push(entry: Entry, merge: bool)
      modifies this`undoStack, this`redoStack, this`dirtyCounter
      ensures State() == old(State()).Execute(entry, merge)
    {
      var deltas := entry;
      if merge && HasUndo() {
        dirtyCounter := dirtyCounter.Plus(-1);
        var last := undoStack[|undoStack| - 1];
        undoStack := undoStack[..|undoStack| - 1];
        deltas := last + deltas;
      }
      undoStack := undoStack + [deltas];
      redoStack := [];
      if dirtyCounter.Negative() { dirtyCounter := NaN; }
      dirtyCounter := dirtyCounter.Plus(1);
    }

    predicate HasUndo()
      reads this
    {
      |undoStack| > 0
    }

    /** `$syncInformUndoManager`: the pending deltas become one edit. */
    method Sync(doc: Document, merge: bool)
      requires Tracks(doc)
      modifies this, doc.session`deltasDoc
      ensures Tracks(doc) && doc.session.deltasDoc == [] && hist[|undoStack|] == doc.lines
      ensures View(doc) == Flushed(old(View(doc)), merge)
      ensures State() == if old(doc.session.deltasDoc) == [] then old(State())
                         else old(State()).Execute([old(doc.session.deltasDoc)], merge)
    {
      Spans(doc);
      OneEntry(hist[|undoStack|], doc.session.deltasDoc, doc.lines);
      hide Leads, Timeline, EditSession.InSync, AllLines, Concat, EntryLeads;
      var pending := doc.session.deltasDoc;
      if |pending| > 0 {
        doc.session.deltasDoc := [];
        Execute([pending], merge, doc.lines);
      }
    }

    /** Takes back the last entry. Edits made since stay pending, and the entry is taken back from the lines as they are;
        without such edits the document is then the one before the entry. */
    method Undo(doc: Document)
      requires Tracks(doc)
      requires doc.session.deltasDoc != [] && undoStack != [] ==> RevertibleAll(doc.lines, Concat(undoStack[|undoStack| - 1]))
      modifies this`undoStack, this`redoStack, this`dirtyCounter, doc`lines, doc.session`fromUndo
      modifies doc.session`docRowCache, doc.session`screenRowCache, doc.session`wrapData, doc.session`deltasDoc, doc.session.bgTokenizer
      ensures doc.Valid() && !doc.session.fromUndo && doc.session.deltasDoc == old(doc.session.deltasDoc)
      ensures State() == old(State()).Undo()
      ensures old(undoStack) != [] ==> RevertibleAll(old(doc.lines), Concat(old(undoStack)[|old(undoStack)| - 1]))
      ensures doc.lines == if old(undoStack) == [] then old(doc.lines) else RevertedAll(old(doc.lines), Concat(old(undoStack)[|old(undoStack)| - 1]))
      ensures doc.session.deltasDoc == [] ==> Tracks(doc) && doc.lines == hist[|undoStack|]
    {
      hide Leads, EditSession.InSync, AllLines, Concat, RevertibleAll, RevertedAll, Timeline;
      Undoable(doc);
      UndoKeeps(State(), hist, clean);
      LeadsNothing(doc.lines);
      if |undoStack| > 0 {
        var deltas := undoStack[|undoStack| - 1];
        undoStack := undoStack[..|undoStack| - 1];
        UndoChanges(doc, deltas);
        redoStack := redoStack + [deltas];
        dirtyCounter := dirtyCounter.Plus(-1);
        LeadsNothing(doc.lines);
      }
    }

    /** With nothing pending an entry can be taken back, and that leads to the state before it. */
    lemma Undoable(doc: Document)
      requires Tracks(doc)
      ensures |hist| == |undoStack| + |redoStack| + 1
      ensures doc.session.deltasDoc == [] ==> doc.lines == hist[|undoStack|]
      ensures doc.session.deltasDoc == [] && undoStack != [] ==>
                var log := Concat(undoStack[|undoStack| - 1]);
                RevertibleAll(doc.lines, log) && RevertedAll(doc.lines, log) == hist[|undoStack| - 1]
    {
      var n := |undoStack|;
      if doc.session.deltasDoc == [] {
        LeadsFromNothing(hist[n], doc.session.deltasDoc, doc.lines);
        if n > 0 {
          assert EntryLeads(hist[n - 1], undoStack[n - 1], hist[n]);
          hide Leads, Concat, AllLines, RevertibleAll, RevertedAll;
          RevertedAllIs(hist[n - 1], Concat(undoStack[n - 1]), hist[n]);
        }
      }
    }

    /** Does the last entry that was taken back again. */
    method Redo(doc: Document)
      requires Tracks(doc)
      requires doc.session.deltasDoc != [] && redoStack != [] ==> ReapplicableAll(doc.lines, Concat(redoStack[|redoStack| - 1]))
      modifies this`undoStack, this`redoStack, this`dirtyCounter, doc`lines, doc.session`fromUndo
      modifies doc.session`docRowCache, doc.session`screenRowCache, doc.session`wrapData, doc.session`deltasDoc, doc.session.bgTokenizer
      ensures doc.Valid() && !doc.session.fromUndo && doc.session.deltasDoc == old(doc.session.deltasDoc)
      ensures State() == old(State()).Redo()
      ensures old(redoStack) != [] ==> ReapplicableAll(old(doc.lines), Concat(old(redoStack)[|old(redoStack)| - 1]))
      ensures doc.lines == if old(redoStack) == [] then old(doc.lines) else ReappliedAll(old(doc.lines), Concat(old(redoStack)[|old(redoStack)| - 1]))
      ensures doc.session.deltasDoc == [] ==> Tracks(doc) && doc.lines == hist[|undoStack|]
    {
      hide Leads, EditSession.InSync, AllLines, Concat, ReapplicableAll, ReappliedAll, Timeline;
      Redoable(doc);
      RedoKeeps(State(), hist, clean);
      LeadsNothing(doc.lines);
      if |redoStack| > 0 {
        var deltas := redoStack[|redoStack| - 1];
        redoStack := redoStack[..|redoStack| - 1];
        RedoChanges(doc, deltas);
        undoStack := undoStack + [deltas];
        dirtyCounter := dirtyCounter.Plus(1);
        LeadsNothing(doc.lines);
      }
    }

    lemma Redoable(doc: Document)
      requires Tracks(doc)
      ensures |hist| == |undoStack| + |redoStack| + 1
      ensures doc.session.deltasDoc == [] ==> doc.lines == hist[|undoStack|]
      ensures doc.session.deltasDoc == [] && redoStack != [] ==>
                var log := Concat(redoStack[|redoStack| - 1]);
                ReapplicableAll(doc.lines, log) && ReappliedAll(doc.lines, log) == hist[|undoStack| + 1]
    {
      var n, m := |undoStack|, |redoStack|;
      if doc.session.deltasDoc == [] {
        LeadsFromNothing(hist[n], doc.session.deltasDoc, doc.lines);
        if m > 0 {
          assert EntryLeads(hist[|hist| - 2 - (m - 1)], redoStack[m - 1], hist[|hist| - 1 - (m - 1)]);
          hide Leads, Concat, AllLines, ReapplicableAll, ReappliedAll;
          ReappliedAllIs(hist[n], Concat(redoStack[m - 1]), hist[n + 1]);
        }
      }
    }

    /** What is pending stays so. */
    method Reset(doc: Document)
      requires Tracks(doc)
      modifies this
      ensures Tracks(doc) && State() == Stacks([], [], Num(0))
      ensures |old(undoStack)| < |old(hist)| && hist == [old(hist)[|old(undoStack)|]] && clean == hist[0] && marked == doc.lines
    {
      hide Leads, EditSession.InSync, AllLines;
      undoStack, redoStack, dirtyCounter, hist, clean, marked := [], [], Num(0), [hist[|undoStack|]], hist[|undoStack|], doc.lines;
    }

    method MarkClean(doc: Document)
      requires Tracks(doc)
      modifies this`dirtyCounter, this`clean, this`marked
      ensures Tracks(doc) && IsClean() && marked == doc.lines
      ensures |undoStack| < |hist| && clean == hist[|undoStack|]
    {
      Spans(doc);
      CleanedKeeps(State(), hist, clean);
      hide Leads, EditSession.InSync, AllLines, EntryLeads, Timeline;
      dirtyCounter := Num(0);
      clean, marked := hist[|undoStack|], doc.lines;
    }

    predicate IsClean()
      reads this
    {
      dirtyCounter == Num(0)
    }

    method FlushAndUndo(doc: Document)
      requires Tracks(doc)
      modifies this, doc`lines, doc.session`fromUndo
      modifies doc.session`docRowCache, doc.session`screenRowCache, doc.session`wrapData, doc.session`deltasDoc, doc.session.bgTokenizer
      ensures Tracks(doc) && Follows(old(View(doc)), UndoStep, View(doc))
    {
      hide Leads, Timeline, Edited, RevertedAll, RevertibleAll, ReappliedAll, ReapplicableAll, Concat, EditSession.InSync, AllLines;
      Sync(doc, false);
      Spans(doc);
      Undo(doc);
    }

    method FlushAndRedo(doc: Document)
      requires Tracks(doc)
      modifies this, doc`lines, doc.session`fromUndo
      modifies doc.session`docRowCache, doc.session`screenRowCache, doc.session`wrapData, doc.session`deltasDoc, doc.session.bgTokenizer
      ensures Tracks(doc) && Follows(old(View(doc)), RedoStep, View(doc))
    {
      hide Leads, Timeline, Edited, RevertedAll, RevertibleAll, ReappliedAll, ReapplicableAll, Concat, EditSession.InSync, AllLines;
      Sync(doc, false);
      Spans(doc);
      Redo(doc);
    }

    /** One step of a user. Undo and redo come after the pending deltas are flushed. */
    method Take(doc: Document, step: Step)
      requires Tracks(doc)
      modifies this, doc`lines, doc.session`fromUndo
      modifies doc.session`docRowCache, doc.session`screenRowCache, doc.session`wrapData, doc.session`deltasDoc, doc.session.bgTokenizer
      ensures Tracks(doc) && Follows(old(View(doc)), step, View(doc))
    {
      hide Leads, Timeline, Edited, RevertedAll, RevertibleAll, ReappliedAll, ReapplicableAll, Concat;
      Spans(doc);
      match step {
        case Flush(merge) => Sync(doc, merge);
        case UndoStep => FlushAndUndo(doc);
        case RedoStep => FlushAndRedo(doc);
        case MarkCleanStep => MarkClean(doc);
        case ResetStep => Reset(doc);
        case _ => Edit(doc, step);
      }
    }

    lemma Spans(doc: Document)
      requires Tracks(doc)
      ensures |hist| == |undoStack| + |redoStack| + 1
    {
    }

    method Edit(doc: Document, step: Step)
      requires Tracks(doc) && (step.Insertion? || step.Removal? || step.Replacement?)
      modifies doc`lines
      modifies doc.session`docRowCache, doc.session`screenRowCache, doc.session`wrapData, doc.session`deltasDoc, doc.session.bgTokenizer
      ensures Tracks(doc) && Follows(old(View(doc)), step, View(doc))
    {
      hide Leads, Replaced, InsertTrain, RemoveTrain, EditSession.InSync, AllLines, Timeline, Logged, ClipRow, Editable, AtMost, Split;
      Spans(doc);
      ghost var base, pending, before := hist[|undoStack|], doc.session.deltasDoc, doc.lines;
      ghost var ds: seq<Delta> := [];
      NotLogged(before, false, pending);
      match step {
        case Insertion(p, text) =>
          if Editable(doc.lines, p) { var _, more := doc.Insert(p, text); ds := more; }
        case Removal(start, end) =>
          if InOrder(doc.lines, start, end) { var _, more := doc.Remove(start, end); ds := more; }
        case Replacement(start, end, text) =>
          if InOrder(doc.lines, start, end) { var _, more := doc.Replace(start, end, text); ds := more; }
      }
      LoggedMeans(before, ds, doc.lines, pending, doc.session.deltasDoc);
      LeadsTrans(base, pending, before, ds, doc.lines);
    }

    /** Any run of steps goes as on the level of whole documents. When nothing is pending and the manager says clean,
        the lines are those of the state marked clean; and if nothing was pending either when the document
        was marked so, they are those the document had then. */
    method Run(doc: Document, steps: seq<Step>) returns (ghost trace: seq<World>)
      requires Tracks(doc)
      modifies this, doc`lines, doc.session`fromUndo
      modifies doc.session`docRowCache, doc.session`screenRowCache, doc.session`wrapData, doc.session`deltasDoc, doc.session.bgTokenizer
      ensures Tracks(doc)
      ensures |trace| == |steps| + 1 && trace[0] == old(View(doc)) && trace[|steps|] == View(doc)
      ensures forall k :: 0 <= k < |steps| ==> Follows(trace[k], steps[k], trace[k + 1])
      ensures IsClean() && doc.session.deltasDoc == [] ==> doc.lines == clean
      ensures IsClean() && doc.session.deltasDoc == [] && old(marked == clean) && MarkedFlushed(trace, steps) ==> doc.lines == marked
    {
      hide Follows, Timeline, Leads, EditSession.InSync, AllLines, MarkedFlushed;
      trace := [View(doc)];
      SettledView(doc);
      for k := 0 to |steps|
        invariant Tracks(doc)
        invariant |trace| == k + 1 && trace[0] == old(View(doc)) && trace[k] == View(doc)
        invariant forall m :: 0 <= m <= k ==> Settled(trace[m])
        invariant forall m :: 0 <= m < k ==> Follows(trace[m], steps[m], trace[m + 1])
      {
        Take(doc, steps[k]);
        SettledView(doc);
        trace := trace + [View(doc)];
      }
      CleanMeans(doc);
      if trace[0].marked == trace[0].clean && MarkedFlushed(trace, steps) { MarkedIsClean(trace, steps, |steps|); }
    }

    lemma SettledView(doc: Document)
      requires Tracks(doc)
      ensures Settled(View(doc))
    {
    }

    lemma CleanMeans(doc: Document)
      requires Tracks(doc)
      ensures IsClean() && doc.session.deltasDoc == [] ==> doc.lines == clean
    {
    }
  }

  /** With nothing pending the lines are those of the state made last. */
  ghost predicate Settled(w: World) {
    w.at < |w.hist| && (!w.pending ==> w.lines == w.hist[w.at])
  }

  /** Nothing is pending whenever the document is marked clean or reset. */
  ghost predicate MarkedFlushed(trace: seq<World>, steps: seq<Step>)
    requires |trace| == |steps| + 1
  {
    forall k :: 0 <= k < |steps| && (steps[k].MarkCleanStep? || steps[k].ResetStep?) ==> !trace[k].pending
  }

  lemma {:induction false} MarkedIsClean(trace: seq<World>, steps: seq<Step>, n: nat)
    requires |trace| == |steps| + 1 && n <= |steps| && MarkedFlushed(trace, steps)
    requires trace[0].marked == trace[0].clean && forall k :: 0 <= k <= |steps| ==> Settled(trace[k])
    requires forall k :: 0 <= k < |steps| ==> Follows(trace[k], steps[k], trace[k + 1])
    ensures trace[n].marked == trace[n].clean
    decreases n
  {
    if n > 0 {
      MarkedIsClean(trace, steps, n - 1);
      assert Follows(trace[n - 1], steps[n - 1], trace[n]) && Settled(trace[n - 1]);
      hide Edited;
    }
  }

  lemma OneEntry(a: seq<Text>, log: seq<Delta>, b: seq<Text>)
    requires Leads(a, log, b)
    ensures EntryLeads(a, [log], b) && (log == [] ==> a == b) && Leads(b, [], b)
  {
    assert Concat([log]) == log;
  }

  lemma LoggedMeans(a: seq<Text>, ds: seq<Delta>, b: seq<Text>, before: seq<Delta>, after: seq<Delta>)
    requires Logged(a, ds, b, false, before, after)
    ensures Leads(a, ds, b) && after == before + ds && (ds == [] ==> a == b)
  {
  }

  /** Turns the recording of deltas off and on. */
  method SetFromUndo(doc: Document, on: bool)
    requires doc.Valid()
    modifies doc.session`fromUndo
    ensures doc.Valid() && doc.session.fromUndo == on
  {
    doc.session.fromUndo := on;
  }

  /** `EditSession.undoChanges`: the groups of an entry are reverted last to first, and what that changes is
      not recorded. */
  method UndoChanges(doc: Document, entry: Entry)
    requires doc.Valid() && !doc.session.fromUndo && RevertibleAll(doc.lines, Concat(entry))
    modifies doc`lines, doc.session`fromUndo
    modifies doc.session`docRowCache, doc.session`screenRowCache, doc.session`wrapData, doc.session`deltasDoc, doc.session.bgTokenizer
    ensures doc.Valid() && doc.lines == RevertedAll(old(doc.lines), Concat(entry))
    ensures !doc.session.fromUndo && doc.session.deltasDoc == old(doc.session.deltasDoc)
  {
    hide RevertibleAll, RevertedAll, AllLines, EditSession.InSync, Leads;
    SetFromUndo(doc, true);
    var r := |entry|;
    assert entry[..r] == entry;
    while r > 0
      invariant 0 <= r <= |entry| && doc.Valid() && doc.session.fromUndo
      invariant RevertibleAll(doc.lines, Concat(entry[..r]))
      invariant RevertedAll(doc.lines, Concat(entry[..r])) == RevertedAll(old(doc.lines), Concat(entry))
      invariant doc.session.deltasDoc == old(doc.session.deltasDoc)
    {
      r := r - 1;
      assert entry[..r + 1] == entry[..r] + [entry[r]];
      ConcatAppend(entry[..r], [entry[r]]);
      assert Concat([entry[r]]) == entry[r];
      RevertedSplit(doc.lines, Concat(entry[..r]), entry[r]);
      ghost var _ := doc.RevertDeltas(entry[r]);
    }
    NothingReverted(doc.lines, Concat(entry[..0]));
    SetFromUndo(doc, false);
  }

  /** `EditSession.redoChanges` */
  method RedoChanges(doc: Document, entry: Entry)
    requires doc.Valid() && !doc.session.fromUndo && ReapplicableAll(doc.lines, Concat(entry))
    modifies doc`lines, doc.session`fromUndo
    modifies doc.session`docRowCache, doc.session`screenRowCache, doc.session`wrapData, doc.session`deltasDoc, doc.session.bgTokenizer
    ensures doc.Valid() && doc.lines == ReappliedAll(old(doc.lines), Concat(entry))
    ensures !doc.session.fromUndo && doc.session.deltasDoc == old(doc.session.deltasDoc)
  {
    hide ReapplicableAll, ReappliedAll, AllLines, EditSession.InSync, Leads;
    SetFromUndo(doc, true);
    assert entry[0..] == entry;
    for r := 0 to |entry|
      invariant doc.Valid() && doc.session.fromUndo
      invariant ReapplicableAll(doc.lines, Concat(entry[r..]))
      invariant ReappliedAll(doc.lines, Concat(entry[r..])) == ReappliedAll(old(doc.lines), Concat(entry))
      invariant doc.session.deltasDoc == old(doc.session.deltasDoc)
    {
      assert entry[r..][0] == entry[r] && entry[r..][1..] == entry[r + 1..];
      ReappliedSplit(doc.lines, entry[r], Concat(entry[r + 1..]));
      ghost var _ := doc.ApplyDeltas(entry[r]);
    }
    NothingReapplied(doc.lines, Concat(entry[|entry|..]));
    SetFromUndo(doc, false);
  }

  lemma NothingReverted(lines: seq<Text>, log: seq<Delta>)
    requires log == [] && RevertibleAll(lines, log)
    ensures RevertedAll(lines, log) == lines
  {
  }

  lemma NothingReapplied(lines: seq<Text>, log: seq<Delta>)
    requires log == [] && ReapplicableAll(lines, log)
    ensures ReappliedAll(lines, log) == lines
  {
  }

  lemma {:induction false} RevertedSplit(lines: seq<Text>, a: seq<Delta>, b: seq<Delta>)
    requires RevertibleAll(lines, a + b)
    ensures RevertibleAll(lines, b) && RevertibleAll(RevertedAll(lines, b), a)
    ensures RevertedAll(RevertedAll(lines, b), a) == RevertedAll(lines, a + b)
    decreases |b|
  {
    hide Revertible, Reverted;
    if b == [] {
      assert a + b == a;
    } else {
      var n := |b| - 1;
      assert (a + b)[|a + b| - 1] == b[n] && (a + b)[..|a + b| - 1] == a + b[..n];
      RevertedSplit(Reverted(lines, b[n]), a, b[..n]);
    }
  }

  lemma {:induction false} ReappliedSplit(lines: seq<Text>, a: seq<Delta>, b: seq<Delta>)
    requires ReapplicableAll(lines, a + b)
    ensures ReapplicableAll(lines, a) && ReapplicableAll(ReappliedAll(lines, a), b)
    ensures ReappliedAll(ReappliedAll(lines, a), b) == ReappliedAll(lines, a + b)
    decreases |a|
  {
    hide Reapplicable, Reapplied;
    if a == [] {
      assert a + b == b;
    } else {
      assert (a + b)[0] == a[0] && (a + b)[1..] == a[1..] + b;
      ReappliedSplit(Reapplied(lines, a[0]), a[1..], b);
    }
  }

  // ---------------------------------------------------------------- pending edits

  const EMPTY: seq<Text> := [[]]
  const A: seq<Text> := [[97]]
  const NEW := World([EMPTY], 0, EMPTY, false, EMPTY, EMPTY, Num(0))
  const TYPE_A := Insertion(Pos(0, 0), [97])

  lemma TypedA()
    ensures Edited(EMPTY, TYPE_A) == A
  {
    hide Replaced;
    InsertedInEmpty([97]);
    SplitPlain([97]);
  }

  /** Asked while an edit is pending, the manager says clean though the document has changed. */
  lemma CleanWhilePending()
    ensures var w := NEW.(lines := A, pending := true);
            Follows(NEW, TYPE_A, w) && w.dirty == Num(0) && w.lines != w.marked
  {
    TypedA();
    hide Edited;
  }

  /** Marked clean while an edit is pending, the document can be said to be clean, with nothing pending, when it is
      another one: after an insertion, `markClean`, a flush and an undo. */
  lemma MarkedWhilePending()
    ensures var w1 := NEW.(lines := A, pending := true);
            var w2 := w1.(marked := A);
            var w3 := World([EMPTY] + [A], 1, A, false, A, EMPTY, Num(1));
            var w4 := w3.(at := 0, lines := EMPTY, dirty := Num(0));
            && Follows(NEW, TYPE_A, w1) && Follows(w1, MarkCleanStep, w2) && Follows(w2, Flush(false), w3) && Follows(w3, UndoStep, w4)
            && w4.dirty == Num(0) && !w4.pending && w4.lines != w4.marked
  {
    TypedA();
    hide Edited;
    assert [EMPTY][..1] == [EMPTY];
  }

  /** With nothing pending and the manager saying clean, the lines are those the document was marked with if and only
      if these were the lines of its last entry then. */
  lemma CleanMeansMarked(s: Stacks, w: World)
    requires Timeline(s, w.hist, w.clean) && Settled(w) && |s.undo| == w.at && s.dirty == w.dirty == Num(0) && !w.pending
    ensures w.lines == w.marked <==> w.clean == w.marked
  {
  }

  /** An undo while an edit is pending takes the entry back from other lines than those it left: typing a letter in front
      of the one of the last entry, and undoing that entry, removes the letter just typed. */
  lemma UndoWhilePending()
    ensures var d := InsertText(Pos(0, 0), Pos(0, 1), [97]);
            && Fits(EMPTY, d) && Apply(EMPTY, d) == A
            && RevertibleAll([[98, 97]], [d]) && RevertedAll([[98, 97]], [d]) == A
  {
    var d := InsertText(Pos(0, 0), Pos(0, 1), [97]);
    var lines: seq<Text> := [[98, 97]];
    var none: Text := [];
    assert none + [97] + none == [97];
    RemovedShape(lines, Pos(0, 0), Pos(0, 1));
    hide Replaced;
    assert lines[0][..0] + lines[0][1..] == [97];
    assert Reverted(lines, d) == A;
    assert [d][..0] == [];
  }
}
