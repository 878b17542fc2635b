/** Incremental lexing: tokens and end states are cached per row, dropped around edits, and
    recomputed lazily by queries and by a worker that runs in slices. */
module Tokenizing {
  import opened JsArray
  import opened TextModel
  import opened Deltas

  type State = string
  type Tokens = seq<string>
  datatype LexedLine = LexedLine(tokens: Tokens, state: State)

  /** The language mode: a line and the state before it (missing means "start") give tokens and a state. */
  type Lexer = (Text, Option<State>) -> LexedLine

  /** Lexing the document from its first row: the state in front of row k. */
  function FullState(lex: Lexer, doc: seq<Text>, k: nat): Option<State>
    decreases k, 0
  {
    if k == 0 then None else Some(FullRow(lex, doc, k - 1).state)
  }

  /** Lexing the document from its first row: row k. */
  function FullRow(lex: Lexer, doc: seq<Text>, k: nat): LexedLine
    decreases k, 1
  {
    lex(LineAt(doc, k), FullState(lex, doc, k))
  }

  /** A cached row was lexed from its present text and the cached state in front of it, unless that
      state has been dropped, in which case nothing is known about the row. */
  ghost predicate RowOk(lex: Lexer, doc: seq<Text>, lines: seq<Option<Tokens>>, states: seq<Option<State>>, k: nat) {
    At(lines, k).Some? ==>
      && At(states, k).Some?
      && (k == 0 || At(states, k - 1).Some? ==>
            LexedLine(At(lines, k).value, At(states, k).value) == lex(LineAt(doc, k), At(states, k - 1)))
  }

  ghost predicate Consistent(lex: Lexer, doc: seq<Text>, lines: seq<Option<Tokens>>, states: seq<Option<State>>) {
    forall k: nat :: RowOk(lex, doc, lines, states, k)
  }

  ghost predicate FilledTo(lines: seq<Option<Tokens>>, n: nat) {
    forall k :: 0 <= k < n ==> At(lines, k).Some?
  }

  /** Once a prefix of the rows is filled, it is what lexing from the start would give. */
  lemma {:induction false} FilledIsFull(lex: Lexer, doc: seq<Text>, lines: seq<Option<Tokens>>, states: seq<Option<State>>, n: nat, k: nat)
    requires Consistent(lex, doc, lines, states) && FilledTo(lines, n) && k < n
    ensures At(lines, k) == Some(FullRow(lex, doc, k).tokens)
    ensures At(states, k) == Some(FullRow(lex, doc, k).state)
    ensures At(states, k - 1) == FullState(lex, doc, k)
  {
    assert RowOk(lex, doc, lines, states, k);
    if k > 0 {
      FilledIsFull(lex, doc, lines, states, n, k - 1);
      assert RowOk(lex, doc, lines, states, k - 1);
    }
  }

  /** A cache after an edit: rows before the edit keep their entries, the edited row and new rows
      have none, rows after it are moved. */
  ghost predicate MovedOne<T>(was: seq<Option<T>>, now: seq<Option<T>>, row: nat, holes: nat, shift: int) {
    && (forall j: int :: j < row ==> At(now, j) == At(was, j))
    && (forall j: int :: row <= j < row + holes ==> At(now, j) == None)
    && (forall j: int :: j >= row + holes ==> At(now, j) == At(was, j - shift))
  }

  ghost predicate Moved(old1: seq<Option<Tokens>>, new1: seq<Option<Tokens>>, old2: seq<Option<State>>, new2: seq<Option<State>>,
                        row: nat, holes: nat, shift: int)
  {
    MovedOne(old1, new1, row, holes, shift) && MovedOne(old2, new2, row, holes, shift)
  }

  lemma {:induction false} SplicedMoved<T>(was: seq<Option<T>>, row: nat, gone: nat, holes: nat)
    ensures MovedOne(was, Splice(was, row, gone, Holes(holes)), row, holes, holes - gone)
  {
    var now := Splice(was, row, gone, Holes(holes));
    forall j: int
      ensures At(now, j) == if j < row then At(was, j) else if j < row + holes then None else At(was, j - (holes - gone))
    {
      SpliceHolesAt(was, row, gone, holes, j);
    }
  }

  /** Within one line: only that line's tokens are dropped, its end state is kept. */
  lemma {:induction false} DroppedConsistent(lex: Lexer, before: seq<Text>, d: Delta, lines: seq<Option<Tokens>>, states: seq<Option<State>>)
    requires Fits(before, d) && Consistent(lex, before, lines, states) && d.Rows() == 0
    ensures Consistent(lex, Apply(before, d), Put(lines, d.start.row, None), states)
  {
    hide Apply, Fits, LineAt;
    forall k: nat ensures RowOk(lex, Apply(before, d), Put(lines, d.start.row, None), states, k) {
      assert RowOk(lex, before, lines, states, k);
      LinesAfter(before, d, k);
    }
  }

  lemma {:induction false} MovedConsistent(lex: Lexer, before: seq<Text>, d: Delta,
      old1: seq<Option<Tokens>>, new1: seq<Option<Tokens>>, old2: seq<Option<State>>, new2: seq<Option<State>>)
    requires Fits(before, d) && Consistent(lex, before, old1, old2) && d.Rows() != 0
    requires Moved(old1, new1, old2, new2, d.start.row, if d.Inserts() then d.Rows() + 1 else 1, if d.Inserts() then d.Rows() else -d.Rows())
    ensures Consistent(lex, Apply(before, d), new1, new2)
  {
    hide Apply;
    var shift := if d.Inserts() then d.Rows() else -d.Rows();
    forall k: nat ensures RowOk(lex, Apply(before, d), new1, new2, k) {
      LinesAfter(before, d, k);
      if k < d.start.row {
        assert RowOk(lex, before, old1, old2, k);
      } else if k > d.start.row && k >= d.start.row + (if d.Inserts() then d.Rows() + 1 else 1) {
        assert RowOk(lex, before, old1, old2, k - shift);
      }
    }
  }

  /** What an edit across rows does to a cache. */
  function Updated<T>(s: seq<Option<T>>, d: Delta): seq<Option<T>>
    requires d.end.row > d.start.row
  {
    if d.Inserts() then Splice(s, d.start.row, 1, Holes(d.Rows() + 1))
    else Splice(s, d.start.row, d.Rows() + 1, Holes(1))
  }

  lemma UpdatedMoved<T>(s: seq<Option<T>>, d: Delta)
    requires d.end.row > d.start.row
    ensures MovedOne(s, Updated(s, d), d.start.row, if d.Inserts() then d.Rows() + 1 else 1, if d.Inserts() then d.Rows() else -d.Rows())
  {
    hide Splice, At, MovedOne;
    var gone, holes := if d.Inserts() then 1 else d.Rows() + 1, if d.Inserts() then d.Rows() + 1 else 1;
    SplicedMoved(s, d.start.row, gone, holes);
  }

  lemma FilledMoved<T>(s: seq<Option<T>>, d: Delta, n: nat)
    requires d.end.row > d.start.row && forall k :: 0 <= k < n ==> At(s, k).Some?
    ensures forall k :: 0 <= k < Min(d.start.row, n) ==> At(Updated(s, d), k).Some?
  {
    hide At, Updated;
    UpdatedMoved(s, d);
  }

  lemma {:induction false} UpdatedConsistent(lex: Lexer, before: seq<Text>, d: Delta,
      lines: seq<Option<Tokens>>, states: seq<Option<State>>, n: nat)
    requires Fits(before, d) && d.end.row > d.start.row
    requires Consistent(lex, before, lines, states) && FilledTo(lines, n)
    ensures Consistent(lex, Apply(before, d), Updated(lines, d), Updated(states, d))
    ensures FilledTo(Updated(lines, d), Min(d.start.row, n))
  {
    hide Apply, Fits, At, Consistent, Updated, MovedOne;
    UpdatedMoved(lines, d);
    UpdatedMoved(states, d);
    FilledMoved(lines, d, n);
    MovedConsistent(lex, before, d, lines, Updated(lines, d), states, Updated(states, d));
  }

  /** How many rows a slice lexes at most: the first multiple of five that reaches the patience of the clock. */
  function Turn(patience: nat): (n: nat)
    ensures n > 0 && n % 5 == 0 && n >= patience && (n > 5 ==> n - 5 < patience)
  {
    if patience <= 5 then 5 else (patience + 4) / 5 * 5
  }

  lemma TurnEnds(processed: nat, patience: nat)
    requires 0 < processed <= Turn(patience)
    ensures processed % 5 == 0 && processed >= patience <==> processed == Turn(patience)
  {
  }

  lemma TurnStarts(patience: nat)
    ensures Turn(patience) > 0
  {
  }

  /** The rows lexed in a slice, from one row on. */
  ghost predicate Ascending(lexed: seq<nat>, from: nat, to: int) {
    forall j :: 0 <= j < |lexed| ==> from <= lexed[j] < to && (j > 0 ==> lexed[j - 1] < lexed[j])
  }

  /** Only rows that are lexed change, and the rows after them. */
  ghost predicate OnlyAround(was: seq<Option<Tokens>>, now: seq<Option<Tokens>>, lexed: seq<nat>) {
    forall k: int :: At(now, k) != At(was, k) ==> exists j :: 0 <= j < |lexed| && lexed[j] <= k <= lexed[j] + 1
  }

  lemma Ascends(lexed: seq<nat>, from: nat, t: nat, n: nat)
    requires Ascending(lexed, from, Min(t, n))
    ensures Ascending(lexed, from, n)
  {
  }

  lemma NoRowYet(lines: seq<Option<Tokens>>, from: nat)
    ensures OnlyAround(lines, lines, []) && forall to :: Ascending([], from, to)
  {
  }

  lemma OneRowMore(was: seq<Option<Tokens>>, before: seq<Option<Tokens>>, now: seq<Option<Tokens>>, lexed: seq<nat>, t: nat, from: nat, n: nat)
    requires Ascending(lexed, from, Min(t, n)) && OnlyAround(was, before, lexed) && from <= t < n
    requires forall k: int :: k != t && k != t + 1 ==> At(now, k) == At(before, k)
    ensures OnlyAround(was, now, lexed + [t])
    ensures forall u: nat :: u > t ==> Ascending(lexed + [t], from, Min(u, n))
    ensures Ascending(lexed, from, n) && Ascending(lexed + [t], from, n)
  {
    var more := lexed + [t];
    forall k: int | At(now, k) != At(was, k) ensures exists j :: 0 <= j < |more| && more[j] <= k <= more[j] + 1 {
      if k == t || k == t + 1 {
        assert more[|lexed|] == t;
      } else {
        var j :| 0 <= j < |lexed| && lexed[j] <= k <= lexed[j] + 1;
        assert more[j] == lexed[j];
      }
    }
  }

  /** An empty state counts as none. */
  function OrStart(state: State): State { if state == "" then "start" else state }

  class BackgroundTokenizer {
    var running: bool
    var lines: seq<Option<Tokens>>
    var states: seq<Option<State>>
    var currentLine: nat
    var tokenizer: Lexer

    constructor (tokenizer: Lexer)
      ensures this.tokenizer == tokenizer && !running && currentLine == 0
      ensures forall doc :: Valid(doc)
    {
      this.tokenizer := tokenizer;
      running, lines, states, currentLine := false, [], [], 0;
    }

    /** The caches agree with the document, and every row below `currentLine` is filled. */
    ghost predicate Valid(doc: seq<Text>)
      reads this
    {
      Consistent(tokenizer, doc, lines, states) && FilledTo(lines, currentLine)
    }

    /** Every row has the tokens and the state that lexing the whole document gives it. */
    ghost predicate Full(doc: seq<Text>)
      reads this
    {
      forall k :: 0 <= k < |doc| ==>
        && At(lines, k) == Some(FullRow(tokenizer, doc, k).tokens)
        && At(states, k) == Some(FullRow(tokenizer, doc, k).state)
    }

    method SetTokenizer(tokenizer: Lexer, doc: seq<Text>)
      modifies this
      ensures this.tokenizer == tokenizer && running && currentLine == 0 && Valid(doc)
    {
      this.tokenizer := tokenizer;
      lines, states := [], [];
      Start(0, doc);
    }

    /** Attaching a document drops the caches but keeps `currentLine`, so that the rows below it are
        filled exactly when it is 0. */
    method SetDocument(doc: seq<Text>)
      modifies this
      ensures tokenizer == old(tokenizer) && currentLine == old(currentLine) && !running
      ensures lines == [] && states == []
      ensures Valid(doc) <==> currentLine == 0
    {
      lines, states := [], [];
      Stop();
      assert currentLine > 0 ==> At(lines, 0) == None;
    }

    method Stop()
      modifies this`running
      ensures !running
    {
      running := false;
    }

    method ScheduleStart()
      modifies this`running
      ensures running
    {
      if !running { running := true; }
    }

    /** Restarts the worker at a row; valid whenever the caches are consistent up to that row. */
    method Start(row: nat, doc: seq<Text>)
      requires Consistent(tokenizer, doc, lines, states)
      requires FilledTo(lines, Min(row, currentLine))
      modifies this
      ensures tokenizer == old(tokenizer) && running
      ensures currentLine == Min(row, Min(old(currentLine), |doc|)) && Valid(doc)
      ensures forall k :: currentLine <= k ==> At(lines, k) == None && At(states, k) == None
    {
      ghost var lines0, states0 := lines, states;
      currentLine := Min(row, Min(currentLine, |doc|));
      lines := Splice(lines, currentLine, |lines|, []);
      states := Splice(states, currentLine, |states|, []);
      Stop();
      running := true;
      forall k: nat
        ensures RowOk(tokenizer, doc, lines, states, k)
        ensures k < currentLine ==> At(lines, k).Some?
      {
        assert RowOk(tokenizer, doc, lines0, states0, k);
        assert k < currentLine ==> At(lines0, k).Some?;
      }
    }

    /** An edit of the document. */
    method UpdateOnChange(d: Delta, doc: seq<Text>, ghost before: seq<Text>)
      requires Fits(before, d) && doc == Apply(before, d) && Valid(before)
      modifies this
      ensures tokenizer == old(tokenizer) && !running
      ensures currentLine == Min(d.start.row, Min(old(currentLine), |doc|)) && Valid(doc)
    {
      FitsRows(before, d);
      hide Apply, Fits, LineAt, Splice, At, Consistent;
      ghost var lines0, states0 := lines, states;
      var row := d.start.row;
      var len := d.end.row - row;
      if len == 0 {
        lines := Put(lines, row, None);
        DroppedConsistent(tokenizer, before, d, lines0, states0);
      } else {
        if d.RemoveText? || d.RemoveLines? {
          lines := Splice(lines, row, len + 1, Holes(1));
          states := Splice(states, row, len + 1, Holes(1));
        } else {
          lines := Splice(lines, row, 1, Holes(len + 1));
          states := Splice(states, row, 1, Holes(len + 1));
        }
        UpdatedConsistent(tokenizer, before, d, lines0, states0, currentLine);
      }
      currentLine := Min(row, Min(currentLine, |doc|));
      Stop();
    }

    /** Lexes one row from the cached state in front of it. */
    method TokenizeRow(row: nat, doc: seq<Text>) returns (tokens: Tokens)
      requires Valid(doc)
      modifies this`lines, this`states, this`currentLine
      ensures Valid(doc)
      ensures At(lines, row) == Some(tokens)
      ensures tokens == tokenizer(LineAt(doc, row), At(old(states), row - 1)).tokens
      ensures forall k: int :: k != row && k != row + 1 ==> At(lines, k) == old(At(lines, k))
      ensures At(lines, row + 1) == old(At(lines, row + 1)) || (At(lines, row + 1) == None && currentLine <= row + 1)
      ensures forall k: int :: k != row ==> At(states, k) == old(At(states, k))
      ensures currentLine <= Max(old(currentLine), row + 1)
      ensures currentLine >= Min(old(currentLine), row + 1)
    {
      ghost var lines0, states0 := lines, states;
      var line := LineAt(doc, row);
      var state := At(states, row - 1);
      var data := tokenizer(line, state);
      if At(states, row) != Some(data.state) {
        states := Put(states, row, Some(data.state));
        lines := Put(lines, row + 1, None);
        if currentLine > row + 1 { currentLine := row + 1; }
      } else if currentLine == row {
        currentLine := row + 1;
      }
      lines := Put(lines, row, Some(data.tokens));
      tokens := data.tokens;
      forall k: nat ensures RowOk(tokenizer, doc, lines, states, k) {
        assert RowOk(tokenizer, doc, lines0, states0, k);
      }
    }

    method GetTokens(row: nat, doc: seq<Text>) returns (tokens: Tokens)
      requires Valid(doc)
      modifies this`lines, this`states, this`currentLine
      ensures Valid(doc) && At(lines, row) == Some(tokens)
      ensures old(FilledTo(lines, row)) ==> tokens == FullRow(tokenizer, doc, row).tokens
    {
      ghost var lines0, states0 := lines, states;
      if At(lines, row).Some? {
        tokens := At(lines, row).value;
        if FilledTo(lines0, row) { FilledIsFull(tokenizer, doc, lines0, states0, row + 1, row); }
      } else {
        tokens := TokenizeRow(row, doc);
        if FilledTo(lines0, row) && row > 0 { FilledIsFull(tokenizer, doc, lines0, states0, row, row - 1); }
        assert RowOk(tokenizer, doc, lines0, states0, 0);
      }
    }

    /** The state at the end of a row; asked for at the worker's own row it is lexed on the spot. Up to that row, and behind it
        as far as all rows are filled, it is what lexing the whole document gives. */
    method GetState(row: nat, doc: seq<Text>) returns (state: State)
      requires Valid(doc)
      modifies this`lines, this`states, this`currentLine
      ensures Valid(doc)
      ensures row <= old(currentLine) || old(FilledTo(lines, row + 1)) ==> state == OrStart(FullRow(tokenizer, doc, row).state)
      ensures old(currentLine) != row ==> lines == old(lines) && states == old(states)
      ensures state == if At(states, row).Some? then OrStart(At(states, row).value) else "start"
    {
      if currentLine == row { var _ := TokenizeRow(row, doc); }
      if FilledTo(lines, row + 1) { FilledIsFull(tokenizer, doc, lines, states, row + 1, row); }
      state := if At(states, row).Some? && At(states, row).value != "" then At(states, row).value else "start";
    }

    /** One run of the worker. It lexes every unfilled row it meets and gives up its turn after a
        multiple of five rows once the clock says so, which is from row number `patience` on.
        The rows it announces at the end are those of this slice. */
    method Worker(doc: seq<Text>, patience: nat) returns (announced: Option<(nat, nat)>, ghost lexed: seq<nat>)
      requires Valid(doc)
      modifies this
      ensures Valid(doc) && tokenizer == old(tokenizer)
      ensures old(running) ==> running || Full(doc)
      ensures old(running) ==> if running then currentLine >= old(currentLine) + 5 && old(currentLine) < |doc| else currentLine >= |doc|
      ensures !old(running) ==> !running && lines == old(lines) && states == old(states)
      ensures running ==> announced == None
      ensures !running ==> forall k :: 0 <= k < |doc| && At(lines, k) != old(At(lines, k)) ==>
                announced.Some? && announced.value.0 <= k <= announced.value.1
      ensures Ascending(lexed, old(currentLine), |doc|) && OnlyAround(old(lines), lines, lexed)
      ensures |lexed| <= Turn(patience) && (running ==> |lexed| == Turn(patience))
    {
      hide Ascending, OnlyAround, Turn, Consistent, FullRow;
      announced, lexed := None, [];
      NoRowYet(lines, currentLine);
      TurnStarts(patience);
      if !running { return; }
      var t := currentLine;
      t := SkipFilled(t);
      var first, last, processed := t, -1, 0;
      running := false;
      while t < |doc|
        invariant Valid(doc) && FilledTo(lines, t) && tokenizer == old(tokenizer) && !running
        invariant t >= old(currentLine) + processed && first <= t && -1 <= last < t
        invariant last == -1 ==> lines == old(lines)
        invariant last >= 0 ==> first <= last
        invariant forall k: int :: 0 <= k < |doc| && k != t && !(first <= k <= last) ==> At(lines, k) == old(At(lines, k))
        invariant currentLine <= t
        invariant |lexed| == processed < Turn(patience)
        invariant Ascending(lexed, old(currentLine), Min(t, |doc|)) && OnlyAround(old(lines), lines, lexed)
        decreases |doc| - t
      {
        TurnEnds(processed + 1, patience);
        ghost var before := lines;
        var _ := TokenizeRow(t, doc);
        OneRowMore(old(lines), before, lines, lexed, t, old(currentLine), |doc|);
        lexed := lexed + [t];
        last := t;
        t := SkipFilled(t + 1);
        processed := processed + 1;
        if processed % 5 == 0 && processed >= patience {
          running, currentLine := true, t;
          return;
        }
      }
      currentLine := t;
      Ascends(lexed, old(currentLine), t, |doc|);
      if first <= last { announced := Some((first, last)); }
      AllLexed(doc, t);
    }

    lemma AllLexed(doc: seq<Text>, n: nat)
      requires Consistent(tokenizer, doc, lines, states) && FilledTo(lines, n) && n >= |doc|
      ensures Full(doc)
    {
      forall k | 0 <= k < |doc|
        ensures At(lines, k) == Some(FullRow(tokenizer, doc, k).tokens)
        ensures At(states, k) == Some(FullRow(tokenizer, doc, k).state)
      {
        FilledIsFull(tokenizer, doc, lines, states, n, k);
      }
    }

    /** `while (lines[t]) t++` */
    method SkipFilled(start: nat) returns (t: nat)
      requires FilledTo(lines, start)
      ensures t >= start && FilledTo(lines, t) && At(lines, t) == None
    {
      t := start;
      while At(lines, t).Some?
        invariant t >= start && FilledTo(lines, t)
        decreases |lines| - t
      {
        t := t + 1;
      }
    }

    /** Running the worker's slices until it is done, whatever the clock does: it ends, fully lexed. */
    method Drain(doc: seq<Text>, clock: nat -> nat)
      requires Valid(doc)
      modifies this
      ensures Valid(doc) && Full(doc) && !running
    {
      ScheduleStart();
      var slice := 0;
      while running
        invariant Valid(doc) && (running || Full(doc))
        decreases if running then 1 + Max(0, |doc| - currentLine) else 0
      {
        var _, _ := Worker(doc, clock(slice));
        slice := slice + 1;
      }
    }
  }
}
