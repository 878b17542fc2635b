/** What the layout tokens say of the lines of a program: where one ends, and how deep the next one is. */
module LexerLines {
  import opened JsArray
  import opened Nesting
  import opened LexerSteps
  import opened LexerContents

  // ---------------------------------------------------------------- the end of a line

  /** The tokens of a line that is ended: those at its end whose text is a semicolon are gone, and there is one line
      terminator behind what is left. */
  ghost predicate Ended(was: seq<Token>, now: seq<Token>) {
    exists n :: 0 <= n <= |was| && Stripped(was, n) &&
      now == if n > 0 && was[n - 1].Terminator? then was[..n] else was[..n] + [Terminator(false)]
  }

  ghost predicate Stripped(was: seq<Token>, n: nat)
    requires n <= |was|
  {
    (forall k :: n <= k < |was| ==> was[k].Value() == ";") && (n > 0 ==> was[n - 1].Value() != ";")
  }

  /** The tokens of a line that goes on: no token is added, and all that may go are some at the end with one of these texts. */
  ghost predicate GoesOn(was: seq<Token>, now: seq<Token>, text: string) {
    now <= was && forall k :: |now| <= k < |was| ==> was[k].Value() == text
  }

  lemma PopStrips(ts: seq<Token>)
    ensures Stripped(ts, |PopSemicolons(ts)|) && ts[..|PopSemicolons(ts)|] == PopSemicolons(ts)
  {
    hide PopSemicolons;
    var r := PopSemicolons(ts);
    if r != [] { assert Last(r) == ts[|r| - 1]; }
  }

  lemma TerminatedEnds(ts: seq<Token>)
    ensures Ended(ts, Terminated(ts))
  {
    PopStrips(ts);
    hide PopSemicolons, Stripped;
    assert |PopSemicolons(ts)| <= |ts|;
  }

  lemma EndedLast(was: seq<Token>, now: seq<Token>)
    requires Ended(was, now)
    ensures now != [] && Last(now) == Terminator(false)
  {
    var n :| 0 <= n <= |was| && Stripped(was, n) &&
      now == if n > 0 && was[n - 1].Terminator? then was[..n] else was[..n] + [Terminator(false)];
    if n > 0 && was[n - 1].Terminator? { NotASemicolon(was[n - 1]); }
  }

  lemma NotASemicolon(t: Token)
    requires t.Terminator? && t.Value() != ";"
    ensures t == Terminator(false)
  {
  }

  // ---------------------------------------------------------------- moving out

  /** Indentations are closed from the innermost on, each by one outdent. */
  ghost predicate Closed(was: seq<int>, now: seq<int>, outs: seq<Token>) {
    now <= was && |outs| == |was| - |now| && forall t :: t in outs ==> t.Outdent?
  }

  lemma RoundCloses(m: Moving, closerAhead: bool) returns (outs: seq<Token>)
    requires Sane(m.s) && m.dent >= 0 && m.move > 0 && Round(m, closerAhead).Some?
    ensures var r := Round(m, closerAhead).value;
            Closed(m.s.indents, r.s.indents, outs) && r.s.tokens == m.s.tokens + outs && r.s.baseIndent == m.s.baseIndent && r.s.indebt == m.s.indebt
  {
    hide Outdents;
    var s, r := m.s, Round(m, closerAhead).value.s;
    outs := if r.indents == s.indents then [] else [Outdent(if closerAhead then Last(s.indents) + s.outdebt else m.move)];
  }

  lemma {:induction false} MoveOutCloses(m: Moving, closerAhead: bool) returns (outs: seq<Token>)
    requires Sane(m.s) && m.dent >= 0 && MoveOut(m, closerAhead).Some?
    ensures var r := MoveOut(m, closerAhead).value;
            Closed(m.s.indents, r.s.indents, outs) && r.s.tokens == m.s.tokens + outs && r.s.baseIndent == m.s.baseIndent && r.s.indebt == m.s.indebt
    decreases m.move
  {
    hide Round, Outdents;
    if m.move <= 0 { return []; }
    var r := Round(m, closerAhead).value;
    var a := RoundCloses(m, closerAhead);
    var b := MoveOutCloses(r, closerAhead);
    outs := a + b;
    assert m.s.tokens + a + b == m.s.tokens + outs;
  }

  // ---------------------------------------------------------------- columns

  function Sum(xs: seq<int>): int {
    if xs == [] then 0 else Sum(Init(xs)) + Last(xs)
  }

  lemma SumPush(xs: seq<int>, x: int)
    ensures Sum(xs + [x]) == Sum(xs) + x
  {
    assert Init(xs + [x]) == xs;
  }

  /** The column of a line is that of its innermost indentation, and what it stands in from there. */
  predicate Leveled(s: State) {
    s.indent == s.baseIndent + Sum(s.indents) + s.outdebt
  }

  /** The indentations left when a line begins at a column: exactly those that are not deeper than it. */
  ghost predicate NotDeeper(base: int, was: seq<int>, column: int, now: seq<int>) {
    && now <= was && base + Sum(now) <= column
    && (|now| < |was| ==> base + Sum(was[..|now| + 1]) > column)
  }

  /** While nothing is owed, the loop closes just those. */
  lemma {:induction false} MoveOutLevels(m: Moving) returns (outs: seq<Token>)
    requires Sane(m.s) && m.dent >= 0 && m.s.outdebt == 0 && m.move <= Sum(m.s.indents) && MoveOut(m, false).Some?
    ensures var r := MoveOut(m, false).value;
            && r.s.outdebt == 0 && Sum(r.s.indents) - r.move == Sum(m.s.indents) - m.move
            && NotDeeper(0, m.s.indents, Sum(m.s.indents) - m.move, r.s.indents)
            && (r.dent == 0 ==> r == m)
            && Closed(m.s.indents, r.s.indents, outs) && r.s.tokens == m.s.tokens + outs
            && Numbered(0, m.s.indents, Sum(m.s.indents) - m.move, outs)
    decreases m.move
  {
    hide Round, Outdents, NotDeeper, Numbered, Closed, Sum;
    outs := [];
    if m.move > 0 {
      RoundLevels(m, false);
      var n := Round(m, false).value;
      var more := MoveOutLevels(n);
      outs := [Outdent(m.move)] + more;
      OneNumberMore(m.s.indents, Sum(m.s.indents) - m.move, more);
      OneCloses(m.s.indents, Sum(m.s.indents) - m.move, MoveOut(n, false).value.s.indents, more, m.move);
      assert m.s.tokens + [Outdent(m.move)] + more == m.s.tokens + outs;
    } else {
      NoneCloses(m.s.indents, Sum(m.s.indents) - m.move);
      assert m.s.tokens + [] == m.s.tokens;
    }
  }

  lemma NoneCloses(was: seq<int>, column: int)
    requires Sum(was) <= column
    ensures NotDeeper(0, was, column, was) && Closed(was, was, []) && Numbered(0, was, column, [])
  {
    assert was[..|was|] == was;
  }

  lemma OneCloses(was: seq<int>, column: int, now: seq<int>, outs: seq<Token>, move: int)
    requires was != [] && NotDeeper(0, Init(was), column, now) && Closed(Init(was), now, outs) && Sum(was) > column
    ensures NotDeeper(0, was, column, now) && Closed(was, now, [Outdent(move)] + outs)
  {
    hide Sum;
    if |now| < |Init(was)| {
      assert was[..|now| + 1] == Init(was)[..|now| + 1];
    } else {
      assert was[..|now| + 1] == was;
    }
  }

  lemma OneNumberMore(was: seq<int>, column: int, outs: seq<Token>)
    requires was != [] && Numbered(0, Init(was), column, outs)
    ensures Numbered(0, was, column, [Outdent(Sum(was) - column)] + outs)
  {
    var all := [Outdent(Sum(was) - column)] + outs;
    forall k | 0 <= k < |all| ensures all[k] == Outdent(0 + Sum(was[..|was| - k]) - column) {
      if k == 0 {
        assert was[..|was|] == was;
      } else {
        assert Init(was)[..|Init(was)| - (k - 1)] == was[..|was| - k];
      }
    }
  }

  lemma NumberedFrom(base: int, was: seq<int>, column: int, outs: seq<Token>)
    requires Numbered(0, was, column, outs)
    ensures Numbered(base, was, base + column, outs)
  {
  }

  lemma RoundLevels(m: Moving, closerAhead: bool)
    requires Sane(m.s) && m.dent >= 0 && m.s.outdebt == 0 && 0 < m.move <= Sum(m.s.indents) && Round(m, closerAhead).Some?
    ensures m.s.indents != []
    ensures var n := Round(m, closerAhead).value;
            && n.s.outdebt == 0 && n.s.indents == Init(m.s.indents) && n.dent == Last(m.s.indents) > 0
            && n.move == (if closerAhead then 0 else m.move - n.dent) && n.s.baseIndent == m.s.baseIndent
            && n.decreased == (if closerAhead then m.decreased - (n.dent - m.move) else m.decreased)
            && Sum(n.s.indents) == Sum(m.s.indents) - n.dent
            && n.s.tokens == m.s.tokens + [Outdent(if closerAhead then n.dent else m.move)]
  {
    hide Outdents;
  }

  /** The columns of the line that comes after moving out, while nothing was owed. */
  lemma {:induction false} OutdentedLevels(s: State, columns: int, noNewlines: bool, closerAhead: bool)
    requires Sane(s) && Leveled(s) && s.outdebt == 0 && 0 <= columns <= Sum(s.indents)
    requires Outdented(s, columns, noNewlines, closerAhead).Some?
    ensures var t := Outdented(s, columns, noNewlines, closerAhead).value;
            && Leveled(t) && t.baseIndent == s.baseIndent
            && (!closerAhead ==>
                  && t.indent == s.indent - columns && NotDeeper(s.baseIndent, s.indents, s.indent - columns, t.indents)
                  && exists outs :: Closed(s.indents, t.indents, outs) && Numbered(s.baseIndent, s.indents, s.indent - columns, outs) &&
                       if noNewlines then GoesOn(s.tokens + outs, t.tokens, ";") else Ended(s.tokens + outs, t.tokens))
  {
    hide Outdents, Round, PopSemicolons, Terminated, Ended, Numbered;
    var m := Moving(s, columns, s.indent - columns, 0);
    if closerAhead {
      if columns > 0 {
        RoundLevels(m, true);
        assert MoveOut(Round(m, true).value, true) == Round(m, true);
      }
    } else {
      var outs := MoveOutLevels(m);
      MoveOutShrinks(m, false);
      var _ := MoveOutCloses(m, false);
      NumberedFrom(s.baseIndent, s.indents, Sum(s.indents) - columns, outs);
      PopStrips(s.tokens + outs);
      TerminatedEnds(s.tokens + outs);
    }
  }

  // ---------------------------------------------------------------- lines

  /** What the line break in front of a line leaves that begins at column `size`, the line before it being ended. */
  ghost predicate LineEnds(s: State, size: nat, t: State) {
    if size - s.indebt == s.indent then
      t.indents == s.indents && t.ends == s.ends && t.indent == s.indent && t.indebt == s.indebt && Ended(s.tokens, t.tokens)
    else if size > s.indent then
      && t.indent == size
      && if s.tokens == [] then t.tokens == [] && t.baseIndent == size && t.indents == s.indents && t.ends == s.ends
         else exists d :: d > 0 && (s.outdebt == 0 ==> d == size - s.indent) && t.outdebt == t.indebt == 0 &&
                t.tokens == s.tokens + [Indent(d)] && t.indents == s.indents + [d] && t.ends == s.ends + [OUTDENT]
    else t.indebt == 0 && exists outs :: Closed(s.indents, t.indents, outs) && Ended(s.tokens + outs, t.tokens)
  }

  /** ... and the line before it going on: no terminator is added, and no indentation. */
  ghost predicate LineGoesOn(s: State, size: nat, t: State) {
    if size - s.indebt == s.indent || size > s.indent then
      && t.indents == s.indents && t.ends == s.ends && t.indent == s.indent
      && t.indebt == (if size - s.indebt == s.indent then s.indebt else size - s.indent)
      && GoesOn(s.tokens, t.tokens, "\\") && |s.tokens| - |t.tokens| <= 1
    else t.indebt == 0 && exists outs :: Closed(s.indents, t.indents, outs) && GoesOn(s.tokens + outs, t.tokens, ";")
  }

  /** Outdents for indentations that are closed: each says how far the line is to the left of the one it closes. */
  ghost predicate Numbered(base: int, was: seq<int>, column: int, outs: seq<Token>) {
    |outs| <= |was| && forall k :: 0 <= k < |outs| ==> outs[k] == Outdent(base + Sum(was[..|was| - k]) - column)
  }

  /** A line that is not deeper closes exactly the indentations deeper than it, where nothing is owed and no closer is ahead. */
  ghost predicate LineCloses(s: State, size: nat, unfinished: bool, closerAhead: bool, t: State) {
    size - s.indebt != s.indent && size <= s.indent && s.outdebt == 0 && Leveled(s) && !closerAhead ==>
      && t.indent == size && NotDeeper(s.baseIndent, s.indents, size, t.indents)
      && exists outs :: Closed(s.indents, t.indents, outs) && Numbered(s.baseIndent, s.indents, size, outs) &&
           if unfinished then GoesOn(s.tokens + outs, t.tokens, ";") else Ended(s.tokens + outs, t.tokens)
  }

  lemma {:induction false} LinedMeans(s: State, size: nat, unfinished: bool, closerAhead: bool)
    requires Sane(s) && Lined(s, size, unfinished, closerAhead).Some?
    ensures var t := Lined(s, size, unfinished, closerAhead).value;
            && (if unfinished then LineGoesOn(s, size, t) else LineEnds(s, size, t))
            && LineCloses(s, size, unfinished, closerAhead, t)
  {
    hide Outdented, Outdents, Ended, GoesOn, Terminated, Suppressed, NotDeeper, Leveled;
    var t := Lined(s, size, unfinished, closerAhead).value;
    TerminatedEnds(s.tokens);
    SuppressedGoesOn(s.tokens);
    if size - s.indebt == s.indent {
    } else if size > s.indent {
      if s.tokens != [] && !unfinished { assert size - s.indent + s.outdebt > 0; }
    } else {
      var u := s.(seenFor := false, indebt := 0);
      var outs := OutdentedCloses(u, s.indent - size, unfinished, closerAhead);
      LinedLevels(s, size, unfinished, closerAhead);
    }
  }

  lemma SuppressedGoesOn(ts: seq<Token>)
    ensures GoesOn(ts, Suppressed(ts), "\\") && |ts| - |Suppressed(ts)| <= 1
  {
  }

  lemma OutdentedCloses(s: State, columns: int, noNewlines: bool, closerAhead: bool) returns (outs: seq<Token>)
    requires Sane(s) && Outdented(s, columns, noNewlines, closerAhead).Some?
    ensures var t := Outdented(s, columns, noNewlines, closerAhead).value;
            && Closed(s.indents, t.indents, outs) && t.baseIndent == s.baseIndent && t.indebt == s.indebt
            && (if noNewlines then GoesOn(s.tokens + outs, t.tokens, ";") else Ended(s.tokens + outs, t.tokens))
  {
    hide MoveOut, Round, Outdents, PopSemicolons, Terminated, Ended;
    var m := Moving(s, columns, s.indent - columns, 0);
    outs := MoveOutCloses(m, closerAhead);
    PopStrips(s.tokens + outs);
    TerminatedEnds(s.tokens + outs);
  }

  lemma {:induction false} LinedLevels(s: State, size: nat, unfinished: bool, closerAhead: bool)
    requires Sane(s) && Lined(s, size, unfinished, closerAhead).Some? && size <= s.indent && size - s.indebt != s.indent
    ensures LineCloses(s, size, unfinished, closerAhead, Lined(s, size, unfinished, closerAhead).value)
    ensures Leveled(s) && s.outdebt == 0 ==> Leveled(Lined(s, size, unfinished, closerAhead).value)
  {
    hide Outdented, Outdents, NotDeeper, Numbered, Ended, GoesOn, Closed;
    if Leveled(s) && s.outdebt == 0 { OutdentedLevels(s.(seenFor := false, indebt := 0), s.indent - size, unfinished, closerAhead); }
  }

  // ---------------------------------------------------------------- runs

  lemma NothingOpen(s: State)
    requires Sane(s) && Balanced(s) && s.tokens == []
    ensures s.indents == []
  {
  }

  lemma {:induction false} PairedLevels(s: State, b: Bracket)
    requires Sane(s) && Leveled(s) && s.outdebt == 0 && Paired(s, b).Some?
    ensures Leveled(Paired(s, b).value)
    decreases |s.ends|
  {
    hide Outdented, Outdents, Sum;
    if Last(s.ends) != Closing(b) {
      PairRound(s);
      OutdentedLevels(s, Last(s.indents), true, false);
      OutdentedMeans(s, Last(s.indents), true, false);
      var t := Outdented(s, Last(s.indents), true, false).value;
      LastClosed(s, t);
      PairedLevels(t, b);
    }
  }

  lemma PairRound(s: State)
    requires Sane(s) && s.ends != [] && Last(s.ends).OUTDENT?
    ensures s.indents != [] && 0 < Last(s.indents) <= Sum(s.indents)
  {
    OutdentsInit(s.ends);
    SumPositive(Init(s.indents));
  }

  lemma {:induction false} SumPositive(xs: seq<int>)
    requires forall k :: 0 <= k < |xs| ==> xs[k] > 0
    ensures Sum(xs) >= 0
  {
    if xs != [] { SumPositive(Init(xs)); }
  }

  lemma LastClosed(s: State, t: State)
    requires Sane(s) && s.indents != [] && Leveled(s) && Leveled(t) && s.outdebt == 0 && t.baseIndent == s.baseIndent
    requires t.indent == s.indent - Last(s.indents) && NotDeeper(s.baseIndent, s.indents, t.indent, t.indents)
    ensures t.indents == Init(s.indents) && t.outdebt == 0
  {
    assert Sum(s.indents) == Sum(Init(s.indents)) + Last(s.indents);
    var n := |t.indents|;
    assert t.indents == s.indents[..n];
    assert s.indents[..|s.indents|] == s.indents;
    SumGrows(s.indents, n + 1, |s.indents| - 1);
    SumGrows(s.indents, n, |s.indents| - 1);
  }

  lemma {:induction false} SumGrows(xs: seq<int>, i: nat, j: int)
    requires (forall k :: 0 <= k < |xs| ==> xs[k] > 0) && j <= |xs|
    ensures i <= j ==> Sum(xs[..i]) + (j - i) <= Sum(xs[..j])
    decreases j - i
  {
    if i < j {
      SumGrows(xs, i, j - 1);
      assert Init(xs[..j]) == xs[..j - 1] && Last(xs[..j]) == xs[j - 1];
    }
  }

  lemma {:induction false} NextLevels(s: State, e: Event)
    requires Sane(s) && Balanced(s) && Leveled(s) && s.outdebt == 0 && Next(s, e).Some?
    ensures Leveled(Next(s, e).value)
  {
    hide Outdented, Outdents, Paired, Pieces, Strung, Balanced, Forbidden;
    match e
    case Newline(size, unfinished, closerAhead) =>
      if size - s.indebt != s.indent && size <= s.indent {
        LinedLevels(s, size, unfinished, closerAhead);
      } else if s.tokens == [] {
        NothingOpen(s);
      } else {
        SumPush(s.indents, size - s.indent + s.outdebt);
      }
    case ClosingBracket(b) => PairedLevels(s, b);
    case _ =>
  }

  /** No line before it has moved out to a column between two indentations. */
  ghost predicate NeverOwed(events: seq<Event>) {
    forall k :: 0 <= k < |events| && Run(events[..k]).Some? ==> Run(events[..k]).value.outdebt == 0
  }

  lemma {:induction false} RunLevels(events: seq<Event>)
    requires Run(events).Some? && NeverOwed(events)
    ensures Leveled(Run(events).value)
    decreases |events|
  {
    if events != [] {
      var init := Init(events);
      hide Next, Leveled;
      assert events[..|init|] == init;
      forall k | 0 <= k < |init| && Run(init[..k]).Some? ensures Run(init[..k]).value.outdebt == 0 {
        assert init[..k] == events[..k];
      }
      RunLevels(init);
      RunNests(init);
      NextLevels(Run(init).value, Last(events));
    }
  }

  /** A `for` that waits for its `in` or `of`: none has come since, and the line has not ended. */
  function ForOpen(events: seq<Event>): bool {
    events != [] &&
    match Last(events)
    case For => true
    case Newline(_, _, _) => false
    case Semicolon => false
    case Relation(word) => word.InstanceOf? && ForOpen(Init(events))
    case _ => ForOpen(Init(events))
  }

  lemma {:induction false} SeenForMeans(events: seq<Event>)
    requires Run(events).Some?
    ensures Run(events).value.seenFor <==> ForOpen(events)
    decreases |events|
  {
    if events != [] {
      SeenForMeans(Init(events));
      NextSeen(Run(Init(events)).value, Last(events));
    }
  }

  lemma {:induction false} NextSeen(s: State, e: Event)
    requires Sane(s) && Next(s, e).Some?
    ensures Next(s, e).value.seenFor <==>
            match e
            case For => true
            case Newline(_, _, _) => false
            case Semicolon => false
            case Relation(word) => word.InstanceOf? && s.seenFor
            case _ => s.seenFor
  {
    hide Outdented, Outdents, Paired, Pieces, Strung, Forbidden;
    match e
    case Newline(size, unfinished, closerAhead) =>
      if size - s.indebt != s.indent && size <= s.indent {
        OutdentedSeen(s.(seenFor := false, indebt := 0), s.indent - size, unfinished, closerAhead);
      }
    case ClosingBracket(b) => PairedSeen(s, b);
    case _ =>
  }

  lemma {:induction false} MoveOutSeen(m: Moving, closerAhead: bool)
    requires Sane(m.s) && m.dent >= 0 && MoveOut(m, closerAhead).Some?
    ensures MoveOut(m, closerAhead).value.s.seenFor == m.s.seenFor
    decreases m.move
  {
    hide Outdents;
    if m.move > 0 { MoveOutSeen(Round(m, closerAhead).value, closerAhead); }
  }

  lemma OutdentedSeen(s: State, columns: int, noNewlines: bool, closerAhead: bool)
    requires Sane(s) && Outdented(s, columns, noNewlines, closerAhead).Some?
    ensures Outdented(s, columns, noNewlines, closerAhead).value.seenFor == s.seenFor
  {
    hide MoveOut, Outdents, PopSemicolons, Terminated;
    MoveOutSeen(Moving(s, columns, s.indent - columns, 0), closerAhead);
  }

  lemma {:induction false} PairedSeen(s: State, b: Bracket)
    requires Sane(s) && Paired(s, b).Some?
    ensures Paired(s, b).value.seenFor == s.seenFor
    decreases |s.ends|, s.outdebt
  {
    hide Outdented, Outdents;
    if Last(s.ends) != Closing(b) {
      PairRound(s);
      OutdentedSeen(s, Last(s.indents), true, false);
      OutdentedMeans(s, Last(s.indents), true, false);
      PairedSeen(Outdented(s, Last(s.indents), true, false).value, b);
    }
  }

  // ---------------------------------------------------------------- what stays

  /** Tokens at whose end none is looked for by its text stay in front of all that come. */
  predicate Fixed(a: seq<Token>) {
    a == [] || Last(a).Value() !in TAKEN
  }

  lemma {:induction false} PopStays(a: seq<Token>, ts: seq<Token>)
    requires a <= ts && Fixed(a)
    ensures a <= PopSemicolons(ts)
    decreases |ts|
  {
    if EndsWith(ts, ";") {
      assert ts != a;
      PopStays(a, Init(ts));
    }
  }

  lemma EndStays(a: seq<Token>, ts: seq<Token>, t: Token, text: string)
    requires a <= ts && Fixed(a) && text in TAKEN
    ensures a <= ts + [t] && a <= Suppressed(ts) && a <= Terminated(ts)
    ensures EndsWith(ts, text) ==> a <= Init(ts) && a <= Init(ts) + [t]
  {
    PopStays(a, ts);
    hide PopSemicolons;
    assert EndsWith(ts, "\\") ==> a != ts;
  }

  lemma {:induction false} OutdentedStays(a: seq<Token>, s: State, columns: int, noNewlines: bool, closerAhead: bool)
    requires a <= s.tokens && Fixed(a) && Sane(s) && Outdented(s, columns, noNewlines, closerAhead).Some?
    ensures a <= Outdented(s, columns, noNewlines, closerAhead).value.tokens
  {
    hide MoveOut, PopSemicolons, Terminated, Outdents, Fixed, TAKEN;
    var m := Moving(s, columns, s.indent - columns, 0);
    var outs := MoveOutCloses(m, closerAhead);
    PopStays(a, s.tokens + outs);
    assert ";" in TAKEN by { TakenTexts(); }
    EndStays(a, s.tokens + outs, Backslash, ";");
  }

  lemma TakenTexts()
    ensures TAKEN == {";", "\\", "!", "||", "&&"}
  {
  }

  lemma {:induction false} PairedStays(a: seq<Token>, s: State, b: Bracket)
    requires a <= s.tokens && Fixed(a) && Sane(s) && Paired(s, b).Some?
    ensures a <= Paired(s, b).value.tokens
    decreases |s.ends|, s.outdebt
  {
    hide Outdented, Outdents, Fixed;
    if Last(s.ends) != Closing(b) {
      PairRound(s);
      OutdentedStays(a, s, Last(s.indents), true, false);
      OutdentedMeans(s, Last(s.indents), true, false);
      PairedStays(a, Outdented(s, Last(s.indents), true, false).value, b);
    }
  }

  lemma {:induction false} NextStays(a: seq<Token>, s: State, e: Event)
    requires a <= s.tokens && Fixed(a) && Sane(s) && Next(s, e).Some?
    ensures a <= Next(s, e).value.tokens
  {
    TakenTexts();
    hide Outdented, Outdents, Paired, Pieces, Strung, Forbidden, Terminated, Suppressed, Fixed, TAKEN;
    EndStays(a, s.tokens, Backslash, "!");
    match e
    case Newline(size, unfinished, closerAhead) =>
      if size - s.indebt != s.indent && size <= s.indent {
        OutdentedStays(a, s.(seenFor := false, indebt := 0), s.indent - size, unfinished, closerAhead);
      }
    case ClosingBracket(b) => PairedStays(a, s, b);
    case Relation(word) =>
      EndStays(a, s.tokens, Other("!" + word.Text(), false), "!");
    case Assign =>
      EndStays(a, s.tokens, Other("||=", false), "||");
      EndStays(a, s.tokens, Other("&&=", false), "&&");
    case _ =>
  }

  lemma {:induction false} RunStays(a: seq<Token>, events: seq<Event>, k: nat)
    requires k <= |events| && Run(events).Some?
    ensures Run(events[..k]).Some?
    ensures a <= Run(events[..k]).value.tokens && Fixed(a) ==> a <= Run(events).value.tokens
    decreases |events|
  {
    hide Fixed, Next;
    if k < |events| {
      assert Init(events)[..k] == events[..k];
      RunStays(a, Init(events), k);
      if a <= Run(events[..k]).value.tokens && Fixed(a) { NextStays(a, Run(Init(events)).value, Last(events)); }
    } else {
      assert events[..k] == events;
    }
  }

  // ---------------------------------------------------------------- the tokens of a program

  /** What a line break leaves. The tokens up to the end of a line that is ended stay in front of all others, hold what the
      program consists of up to there, and end with the terminator, or with the indentation of the next line. */
  ghost predicate LineLaid(events: seq<Event>, k: nat, tokens: seq<Token>)
    requires k < |events| && events[k].Newline? && Run(events[..k]).Some? && Run(events[..k + 1]).Some?
  {
    var s, t, size := Run(events[..k]).value, Run(events[..k + 1]).value, events[k].size;
    && (if events[k].unfinished then LineGoesOn(s, size, t) else LineEnds(s, size, t))
    && LineCloses(s, size, events[k].unfinished, events[k].closerAhead, t) && (NeverOwed(events[..k]) ==> Leveled(s))
    && (!events[k].unfinished ==>
          && t.tokens <= tokens && Accounts(Solid(t.tokens), Contents(events[..k + 1]), FateOfRun(events[..k + 1]))
          && (t.tokens != [] ==> Last(t.tokens) == Terminator(false) || (size > s.indent && Last(t.tokens).Indent?)))
  }

  ghost predicate LaidOut(events: seq<Event>, tokens: seq<Token>) {
    forall k :: 0 <= k < |events| && events[k].Newline? ==>
      Run(events[..k]).Some? && Run(events[..k + 1]).Some? && LineLaid(events, k, tokens)
  }

  lemma {:induction false} LexLines(events: seq<Event>)
    requires Lex(events).Some?
    ensures LaidOut(events, Lex(events).value)
  {
    hide Outdented, Fixed, LineLaid;
    forall k | 0 <= k < |events| && events[k].Newline?
      ensures Run(events[..k]).Some? && Run(events[..k + 1]).Some? && LineLaid(events, k, Lex(events).value)
    {
      RunStays([], events, k);
      RunStays([], events, k + 1);
      OneLineLaid(events, k);
    }
  }

  lemma {:induction false} OneLineLaid(events: seq<Event>, k: nat)
    requires k < |events| && events[k].Newline? && Lex(events).Some? && Run(events[..k]).Some? && Run(events[..k + 1]).Some?
    ensures LineLaid(events, k, Lex(events).value)
  {
    hide Outdented, Fixed, LineGoesOn, LineEnds, LineCloses, Accounts, Solid, Contents, FateOfRun, NeverOwed, Leveled, Lined;
    var e := events[k];
    assert Init(events[..k + 1]) == events[..k] && Last(events[..k + 1]) == e;
    var s, t := Run(events[..k]).value, Run(events[..k + 1]).value;
    LinedMeans(s, e.size, e.unfinished, e.closerAhead);
    if NeverOwed(events[..k]) { RunLevels(events[..k]); }
    RunSolid(events[..k + 1]);
    if !e.unfinished {
      LineEndsFixed(s, e.size, t);
      RunStays(t.tokens, events, k + 1);
      var u := Run(events).value;
      OutdentedStays(t.tokens, u, u.indent, false, false);
    }
  }

  lemma LineEndsFixed(s: State, size: nat, t: State)
    requires LineEnds(s, size, t)
    ensures Fixed(t.tokens)
    ensures t.tokens != [] ==> Last(t.tokens) == Terminator(false) || (size > s.indent && Last(t.tokens).Indent?)
  {
    hide Ended, TAKEN;
    LayoutFixed();
    if size - s.indebt == s.indent {
      EndedLast(s.tokens, t.tokens);
    } else if size > s.indent {
    } else {
      var outs :| Closed(s.indents, t.indents, outs) && Ended(s.tokens + outs, t.tokens);
      EndedLast(s.tokens + outs, t.tokens);
    }
  }

  lemma LayoutFixed()
    ensures Terminator(false).Value() !in TAKEN && forall n :: Indent(n).Value() !in TAKEN
  {
    assert "\n"[0] == '\n' && |""| == 0 && |";"| == 1 && |"\\"| == 1 && |"!"| == 1 && |"||"| == 2 && |"&&"| == 2;
    assert ";"[0] == ';' && "\\"[0] == '\\' && "!"[0] == '!' && |"\n"| == 1;
  }
}
