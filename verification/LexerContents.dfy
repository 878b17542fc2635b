/** Which part of a text the lexer keeps: tokens are taken off, and made into one, by their text, whatever they are. */
module LexerContents {
  import opened JsArray
  import opened Nesting
  import opened LexerSteps

  /** Tokens that stand for something in the text, and not for its layout. */
  predicate IsSolid(t: Token) { t.Other? || ((t.Open? || t.Close?) && !t.made) }

  function Solid(ts: seq<Token>): seq<Token> {
    if ts == [] then [] else Solid(Init(ts)) + if IsSolid(Last(ts)) then [Last(ts)] else []
  }

  lemma SolidPush(ts: seq<Token>, t: Token)
    ensures Solid(ts + [t]) == if IsSolid(t) then Solid(ts) + [t] else Solid(ts)
  {
    assert Init(ts + [t]) == ts;
  }

  lemma {:induction false} SolidAppend(a: seq<Token>, b: seq<Token>)
    ensures Solid(a + b) == Solid(a) + Solid(b)
    decreases |b|
  {
    if b == [] {
      assert a + b == a;
    } else {
      SolidAppend(a, Init(b));
      assert Init(a + b) == a + Init(b) && Last(a + b) == Last(b);
      JoinFlat(Solid(a), Solid(Init(b)), if IsSolid(Last(b)) then [Last(b)] else []);
    }
  }

  /** What the text of some events consists of. */
  function Contents(events: seq<Event>): seq<Token>
    decreases events
  {
    if events == [] then [] else Contents(Init(events)) + ContentOf(Last(events))
  }

  function ContentOf(e: Event): seq<Token>
    decreases e
  {
    match e
    case Opening(b) => [Open(b, false)]
    case ClosingBracket(b) => [Close(b, false)]
    case For => [Other("for", false)]
    case Relation(word) => [Other(word.Text(), false)]
    case Assign => [Other("=", false)]
    case Property(text) => [Other(text, Forbidden(text))]
    case Plain(text) => [Other(text, false)]
    case Interpolated(parts) => ContentOfParts(parts)
    case _ => []
  }

  function ContentOfParts(parts: seq<Part>): seq<Token>
    decreases parts
  {
    if parts == [] then []
    else ContentOfParts(Init(parts)) + match Last(parts)
                                       case Text(text) => [Other(Quoted(text), false)]
                                       case Code(events) => Contents(events)
  }

  /** The texts of some tokens, one after the other. */
  function Joined(ts: seq<Token>): string {
    if ts == [] then "" else Joined(Init(ts)) + Last(ts).Value()
  }

  lemma {:induction false} JoinedAppend(a: seq<Token>, b: seq<Token>)
    ensures Joined(a + b) == Joined(a) + Joined(b)
    decreases |b|
  {
    if b == [] {
      assert a + b == a;
    } else {
      JoinedAppend(a, Init(b));
      assert Init(a + b) == a + Init(b) && Last(a + b) == Last(b);
      JoinTexts(Joined(a), Joined(Init(b)), Last(b).Value());
    }
  }

  lemma JoinTexts(a: string, b: string, c: string)
    ensures a + (b + c) == (a + b) + c
  {
  }

  lemma JoinedOne(t: Token)
    ensures Joined([t]) == t.Value()
  {
    assert Init([t]) == [] && "" + t.Value() == t.Value();
  }

  // ---------------------------------------------------------------- what becomes of the text

  /** Nothing of the text is lost; and no two tokens of it have become one. */
  datatype Fate = Fate(kept: bool, whole: bool) {
    function And(f: Fate): Fate { Fate(kept && f.kept, whole && f.whole) }
  }

  const UNHARMED := Fate(true, true)

  /** Something solid is among the tokens that are taken off the end. */
  predicate SolidTail(ts: seq<Token>) {
    EndsWith(ts, ";") && (IsSolid(Last(ts)) || SolidTail(Init(ts)))
  }

  predicate SolidBackslash(ts: seq<Token>) {
    EndsWith(ts, "\\") && IsSolid(Last(ts))
  }

  /** `outdentToken` closes nothing, so that the end of the tokens is still what it was. */
  predicate OutdentLoses(s: State, columns: int, closerAhead: bool)
    requires Sane(s)
  {
    var m := MoveOut(Moving(s, columns, s.indent - columns, 0), closerAhead);
    m.Some? && m.value.dent == 0 && SolidTail(s.tokens)
  }

  predicate PairLoses(s: State, b: Bracket)
    requires Sane(s)
    decreases |s.ends|, s.outdebt
  {
    && s.ends != [] && Last(s.ends).OUTDENT?
    && var t := Outdented(s, Last(s.indents), true, false);
       t.Some? && (OutdentLoses(s, Last(s.indents), false) || (OutdentedMeans(s, Last(s.indents), true, false); PairLoses(t.value, b)))
  }

  /** A line break takes something off the end that stands for something in the text. */
  predicate LineLoses(s: State, size: nat, unfinished: bool, closerAhead: bool)
    requires Sane(s)
  {
    if size - s.indebt == s.indent then (if unfinished then SolidBackslash(s.tokens) else SolidTail(s.tokens))
    else if size > s.indent then unfinished && SolidBackslash(s.tokens)
    else s.baseIndent <= size && OutdentLoses(s.(seenFor := false, indebt := 0), s.indent - size, closerAhead)
  }

  /** What one event does to the text. */
  function FateOf(s: State, e: Event): Fate
    requires Sane(s)
    decreases e
  {
    match e
    case Newline(size, unfinished, closerAhead) => Fate(!LineLoses(s, size, unfinished, closerAhead), true)
    case ClosingBracket(b) => Fate(!PairLoses(s, b), true)
    case Relation(word) => Fate(true, (s.seenFor && !word.InstanceOf?) || !EndsWith(s.tokens, "!"))
    case Assign => Fate(true, !EndsWith(s.tokens, "||") && !EndsWith(s.tokens, "&&"))
    case Interpolated(parts) => FateOfParts(parts)
    case _ => UNHARMED
  }

  function FateOfParts(parts: seq<Part>): Fate
    decreases parts
  {
    if parts == [] then UNHARMED
    else FateOfParts(Init(parts)).And(if Last(parts).Code? then FateOfProgram(Last(parts).events) else UNHARMED)
  }

  function FateOfRun(events: seq<Event>): Fate
    decreases events, 0
  {
    if events == [] then UNHARMED
    else FateOfRun(Init(events)).And(if Run(Init(events)).Some? then FateOf(Run(Init(events)).value, Last(events)) else UNHARMED)
  }

  /** ... and what a whole program does, with the indentation closed at its end. */
  function FateOfProgram(events: seq<Event>): Fate
    decreases events, 1
  {
    FateOfRun(events).And(Fate(Run(events).Some? ==> !OutdentLoses(Run(events).value, Run(events).value.indent, false), true))
  }

  /** No event takes off something of the text. */
  predicate Keeps(events: seq<Event>) { FateOfProgram(events).kept }

  /** No event makes two tokens of the text into one. */
  predicate Whole(events: seq<Event>) { FateOfProgram(events).whole }

  /** The solid tokens hold all of the text, unless some of it is lost; and they are the tokens it consists of, unless
      some are made into one. Else there is less. */
  predicate Accounts(solid: seq<Token>, content: seq<Token>, f: Fate) {
    && (if f.kept then Joined(solid) == Joined(content) else |Joined(solid)| < |Joined(content)|)
    && (if f.kept && f.whole then solid == content else |solid| < |content|)
  }

  lemma {:induction false} PopSolid(ts: seq<Token>)
    ensures Accounts(Solid(PopSemicolons(ts)), Solid(ts), Fate(!SolidTail(ts), true))
    decreases |ts|
  {
    hide Solid, Joined, Accounts;
    AccountsSame(Solid(ts));
    if EndsWith(ts, ";") {
      var init, t := Init(ts), Last(ts);
      PopSolid(init);
      TakenOff(init, t);
      assert init + [t] == ts;
      AccountsTrans(Solid(PopSemicolons(init)), Solid(init), Solid(ts), Fate(!SolidTail(init), true), Fate(!IsSolid(t), true));
    }
  }

  lemma AccountsTrans(x: seq<Token>, y: seq<Token>, z: seq<Token>, f: Fate, g: Fate)
    requires Accounts(x, y, f) && Accounts(y, z, g)
    ensures Accounts(x, z, f.And(g))
  {
  }

  /** One token less, which has a text of one character. */
  lemma TakenOff(ts: seq<Token>, t: Token)
    requires |t.Value()| == 1
    ensures Accounts(Solid(ts), Solid(ts + [t]), Fate(!IsSolid(t), true))
  {
    SolidPush(ts, t);
    JoinedAppend(Solid(ts), [t]);
    JoinedOne(t);
  }

  lemma TerminatedSolid(ts: seq<Token>)
    ensures Accounts(Solid(Terminated(ts)), Solid(ts), Fate(!SolidTail(ts), true))
  {
    PopSolid(ts);
    SolidPush(PopSemicolons(ts), Terminator(false));
  }

  lemma SuppressedSolid(ts: seq<Token>)
    ensures Accounts(Solid(Suppressed(ts)), Solid(ts), Fate(!SolidBackslash(ts), true))
  {
    if EndsWith(ts, "\\") {
      TakenOff(Init(ts), Last(ts));
      assert Init(ts) + [Last(ts)] == ts;
    }
  }

  /** The last token gives way to one whose text goes on with that of the sign or word after it. */
  lemma FusedSolid(ts: seq<Token>, text: string, fused: string)
    requires ts != [] && Last(ts).Value() in TAKEN && Last(ts).Other? && fused == Last(ts).Value() + text
    ensures Accounts(Solid(Init(ts) + [Other(fused, false)]), Solid(ts) + [Other(text, false)], Fate(true, false))
  {
    hide Solid, Joined, TAKEN, Token.Value;
    var init, last := Init(ts), Last(ts);
    assert init + [last] == ts;
    SolidPush(init, last);
    SolidPush(init, Other(fused, false));
    JoinedAppend(Solid(init), [last]);
    JoinedAppend(Solid(ts), [Other(text, false)]);
    JoinedAppend(Solid(init), [Other(fused, false)]);
    JoinedOne(last);
    JoinedOne(Other(text, false));
    JoinedOne(Other(fused, false));
    TextOf(text);
    TextOf(fused);
    JoinTexts(Joined(Solid(init)), last.Value(), text);
  }

  lemma TextOf(text: string)
    ensures Other(text, false).Value() == text
  {
  }

  /** A token with one of these texts stands for something. */
  lemma TakenIsOther(t: Token)
    requires t.Value() in {"!", "||", "&&"}
    ensures t.Other? && t.Value() in TAKEN
  {
    NoBracket(t);
    assert "!"[0] == '!' && "||"[0] == '|' && "&&"[0] == '&' && |"!"| == 1 && |"||"| == 2 && |"&&"| == 2;
    assert "+"[0] == '+' && "\\"[0] == '\\' && "\"\""[0] == '"' && ";"[0] == ';' && "\n"[0] == '\n';
  }

  lemma RelatedSolid(s: State, word: Word)
    requires Sane(s)
    ensures Accounts(Solid(Related(s, word).tokens), Solid(s.tokens) + [Other(word.Text(), false)], FateOf(s, Relation(word)))
  {
    hide Solid, Joined, TAKEN;
    SolidPush(s.tokens, Other(word.Text(), false));
    if EndsWith(s.tokens, "!") {
      TakenIsOther(Last(s.tokens));
      FusedSolid(s.tokens, word.Text(), "!" + word.Text());
    }
  }

  lemma AssignedSolid(s: State)
    requires Sane(s) && Assigned(s.tokens).Some?
    ensures Accounts(Solid(Assigned(s.tokens).value), Solid(s.tokens) + [Other("=", false)], FateOf(s, Assign))
  {
    hide Solid, Joined, TAKEN, Forbidden;
    SolidPush(s.tokens, Other("=", false));
    if EndsWith(s.tokens, "||") || EndsWith(s.tokens, "&&") {
      TakenIsOther(Last(s.tokens));
      FusedSolid(s.tokens, "=", Last(s.tokens).Value() + "=");
    }
  }

  /** Closing indentations adds layout only, after which nothing solid is at the end. */
  lemma {:induction false} MoveOutSolid(m: Moving, closerAhead: bool)
    requires Sane(m.s) && m.dent >= 0 && MoveOut(m, closerAhead).Some?
    ensures LayoutOnly(m, MoveOut(m, closerAhead).value)
    decreases m.move
  {
    hide Solid, Round, Outdents;
    if m.move > 0 {
      RoundSolid(m, closerAhead);
      MoveOutSolid(Round(m, closerAhead).value, closerAhead);
    }
  }

  ghost predicate LayoutOnly(m: Moving, r: Moving) {
    && Solid(r.s.tokens) == Solid(m.s.tokens)
    && (r.s.tokens == m.s.tokens || (r.dent > 0 && r.s.tokens != [] && Last(r.s.tokens).Outdent?))
    && (r.dent == 0 ==> m.dent == 0 && r.s.tokens == m.s.tokens)
    && (m.dent == 0 && r.dent > 0 ==> r.s.tokens != [] && Last(r.s.tokens).Outdent?)
  }

  lemma RoundSolid(m: Moving, closerAhead: bool)
    requires Sane(m.s) && m.dent >= 0 && m.move > 0 && Round(m, closerAhead).Some?
    ensures LayoutOnly(m, Round(m, closerAhead).value)
  {
    hide Solid, Outdents;
    var s := m.s;
    if s.indents != [] { SolidPush(s.tokens, Outdent(if closerAhead then Last(s.indents) + s.outdebt else m.move)); }
  }

  lemma OutdentedSolid(s: State, columns: int, noNewlines: bool, closerAhead: bool)
    requires Sane(s) && Outdented(s, columns, noNewlines, closerAhead).Some?
    ensures Accounts(Solid(Outdented(s, columns, noNewlines, closerAhead).value.tokens), Solid(s.tokens), Fate(!OutdentLoses(s, columns, closerAhead), true))
  {
    hide Outdented, MoveOut, Solid, Joined, Accounts, SolidTail, OutdentLoses, PopSemicolons, Terminated, Sane;
    var ts := MovedOut(s, columns, noNewlines, closerAhead);
    PopSolid(ts);
    TerminatedSolid(ts);
  }

  /** The tokens when the loop of `outdentToken` is over: the layout it adds hides what was at the end. */
  lemma MovedOut(s: State, columns: int, noNewlines: bool, closerAhead: bool) returns (ts: seq<Token>)
    requires Sane(s) && Outdented(s, columns, noNewlines, closerAhead).Some?
    ensures Outdented(s, columns, noNewlines, closerAhead).value.tokens == if noNewlines then PopSemicolons(ts) else Terminated(ts)
    ensures Solid(ts) == Solid(s.tokens) && (SolidTail(ts) <==> OutdentLoses(s, columns, closerAhead))
  {
    hide MoveOut, Solid, PopSemicolons, Terminated;
    var m := Moving(s, columns, s.indent - columns, 0);
    MoveOutSolid(m, closerAhead);
    ts := MoveOut(m, closerAhead).value.s.tokens;
    assert |""| == 0 && |";"| == 1;
  }

  lemma {:induction false} PairedSolid(s: State, b: Bracket)
    requires Sane(s) && Paired(s, b).Some?
    ensures Accounts(Solid(Paired(s, b).value.tokens), Solid(s.tokens), Fate(!PairLoses(s, b), true))
    decreases |s.ends|, s.outdebt
  {
    hide Solid, OutdentLoses;
    if Last(s.ends).OUTDENT? {
      OutdentedMeans(s, Last(s.indents), true, false);
      OutdentedSolid(s, Last(s.indents), true, false);
      var t := Outdented(s, Last(s.indents), true, false).value;
      hide Outdented;
      PairedSolid(t, b);
    }
  }

  /** Where a piece of an interpolated string begins among its tokens, with a sign behind each piece before it. */
  function PieceStart(ps: seq<Piece>, k: nat): nat
    requires k <= |ps|
  {
    if k == 0 then 0 else PieceStart(ps, k - 1) + |PieceTokens(ps[k - 1])| + 1
  }

  /** The pieces stand there one after the other, and a plus sign is in front of each but the first. */
  lemma {:induction false} SummedAt(ps: seq<Piece>, k: nat)
    requires k < |ps|
    ensures |Summed(ps)| + 1 == PieceStart(ps, |ps|)
    ensures var at, n := PieceStart(ps, k), |PieceTokens(ps[k])|;
            at + n <= |Summed(ps)| && Summed(ps)[at..at + n] == PieceTokens(ps[k]) && (k > 0 ==> at > 0 && Summed(ps)[at - 1] == PlusSign)
    decreases |ps|
  {
    hide PieceTokens;
    var init := Init(ps);
    StartsAlike(init, ps, |init|);
    if |ps| > 1 {
      SummedAt(init, if k < |init| then k else 0);
      StartsAlike(init, ps, if k < |init| then k else 0);
      var before := Summed(init) + [PlusSign];
      assert Summed(ps) == before + PieceTokens(Last(ps));
      if k < |init| {
        var at, n := PieceStart(ps, k), |PieceTokens(ps[k])|;
        assert Summed(ps)[at..at + n] == Summed(init)[at..at + n];
      }
    }
  }

  lemma {:induction false} StartsAlike(a: seq<Piece>, b: seq<Piece>, k: nat)
    requires k <= |a| && a <= b
    ensures PieceStart(a, k) == PieceStart(b, k)
  {
    if k > 0 { StartsAlike(a, b, k - 1); }
  }

  /** A string with code in it begins with a text, and stands in brackets when it has several pieces. */
  lemma StrungMeans(ps: seq<Piece>)
    requires ps != []
    ensures var all, ts := if ps[0].Tokens? then [NeoEmpty] + ps else ps, Strung(ps);
            && (|all| == 1 ==> ts == PieceTokens(ps[0]))
            && (|all| > 1 ==> |ts| >= 2 && ts[0] == Open(Paren, true) && Last(ts) == Close(Paren, true) && ts[1..|ts| - 1] == Summed(all))
  {
    hide Summed, PieceTokens;
    if |ps| == 1 && !ps[0].Tokens? { OnePieceSummed(ps); }
  }

  lemma OnePieceSummed(ps: seq<Piece>)
    requires |ps| == 1
    ensures Summed(ps) == PieceTokens(ps[0])
  {
  }

  /** The code of a piece is one token, or several in brackets; where there is none there is no piece. */
  lemma CodeMeans(ts: seq<Token>)
    ensures var m := Trimmed(ts);
            && (m == [] ==> CodePieces(ts) == [])
            && (|m| == 1 ==> CodePieces(ts) == [Tokens(m)])
            && (|m| > 1 ==> CodePieces(ts) == [Tokens([Open(Paren, true)] + m + [Close(Paren, true)])])
  {
  }

  /** The code in a string comes without the terminator at its end, and without one at its start. */
  lemma TrimmedMeans(ts: seq<Token>)
    requires ts != [] && Last(ts) == Terminator(false)
    ensures var m := Trimmed(ts);
            || (ts == m + [Terminator(false)] && (m != [] ==> !m[0].Terminator?))
            || (|ts| > 1 && ts[0].Terminator? && ts == [ts[0]] + m + [Terminator(false)])
  {
  }

  lemma {:induction false} SummedSolid(ps: seq<Piece>)
    ensures Solid(Summed(ps)) == SolidPieces(ps)
    decreases |ps|
  {
    if |ps| > 1 {
      SummedSolid(Init(ps));
      hide Solid, Summed, PieceTokens;
      var a := Summed(Init(ps));
      SolidPush(a, PlusSign);
      SolidAppend(a + [PlusSign], PieceTokens(Last(ps)));
    } else if |ps| == 1 {
      assert SolidPieces(Init(ps)) == [];
    }
  }

  function SolidPieces(ps: seq<Piece>): seq<Token> {
    if ps == [] then [] else SolidPieces(Init(ps)) + Solid(PieceTokens(Last(ps)))
  }

  lemma {:induction false} SolidPiecesAppend(a: seq<Piece>, b: seq<Piece>)
    ensures SolidPieces(a + b) == SolidPieces(a) + SolidPieces(b)
    decreases |b|
  {
    hide Solid, PieceTokens;
    if b == [] {
      assert a + b == a;
    } else {
      SolidPiecesAppend(a, Init(b));
      assert Init(a + b) == a + Init(b) && Last(a + b) == Last(b);
      JoinFlat(SolidPieces(a), SolidPieces(Init(b)), Solid(PieceTokens(Last(b))));
    }
  }

  lemma SolidWrap(ts: seq<Token>)
    ensures Solid([Open(Paren, true)] + ts + [Close(Paren, true)]) == Solid(ts)
  {
    SolidPush([], Open(Paren, true));
    assert [] + [Open(Paren, true)] == [Open(Paren, true)];
    SolidAppend([Open(Paren, true)], ts);
    SolidPush([Open(Paren, true)] + ts, Close(Paren, true));
  }

  lemma StrungSolid(ps: seq<Piece>)
    ensures Solid(Strung(ps)) == SolidPieces(ps)
  {
    hide Solid, SolidPieces, Summed;
    MadeSolid();
    NoSolid();
    if ps != [] {
      var first := [NeoEmpty];
      var all := if ps[0].Tokens? then first + ps else ps;
      SummedSolid(all);
      SolidWrap(Summed(all));
      SolidPiecesAppend(first, ps);
    }
  }

  /** A text that only comes first stands for nothing. */
  lemma MadeSolid()
    ensures Solid([EmptyString]) == [] && SolidPieces([NeoEmpty]) == []
  {
    SolidPush([], EmptyString);
    assert [] + [EmptyString] == [EmptyString];
    OnePiece(NeoEmpty);
  }

  lemma TrimmedSolid(ts: seq<Token>)
    requires ts != [] && Last(ts) == Terminator(false)
    ensures Solid(Trimmed(ts)) == Solid(ts)
  {
    hide Solid;
    var init := Init(ts);
    SolidPush(init, Terminator(false));
    assert init + [Terminator(false)] == ts;
    if init != [] && init[0].Terminator? {
      assert init == [init[0]] + init[1..] && [] + [init[0]] == [init[0]];
      SolidPush([], init[0]);
      NoSolid();
      SolidAppend([init[0]], init[1..]);
    }
  }

  lemma NoSolid()
    ensures Solid([]) == [] && SolidPieces([]) == []
  {
  }

  lemma CodeSolid(ts: seq<Token>)
    requires ts != [] && Last(ts) == Terminator(false)
    ensures SolidPieces(CodePieces(ts)) == Solid(ts)
  {
    hide Solid, Trimmed, SolidPieces;
    var m := Trimmed(ts);
    TrimmedSolid(ts);
    NoSolid();
    SolidWrap(m);
    OnePiece(Tokens(if |m| > 1 then [Open(Paren, true)] + m + [Close(Paren, true)] else m));
  }

  lemma OnePiece(p: Piece)
    ensures SolidPieces([p]) == Solid(PieceTokens(p))
  {
    assert Init([p]) == [];
  }

  lemma AccountsMore(x: seq<Token>, y: seq<Token>, z: seq<Token>, more: seq<Token>, f: Fate, g: Fate)
    requires Accounts(x, y, f) && Accounts(z, x + more, g)
    ensures Accounts(z, y + more, f.And(g))
  {
    JoinedAppend(x, more);
    JoinedAppend(y, more);
  }

  lemma AccountsJoin(x: seq<Token>, y: seq<Token>, u: seq<Token>, v: seq<Token>, f: Fate, g: Fate)
    requires Accounts(x, y, f) && Accounts(u, v, g)
    ensures Accounts(x + u, y + v, f.And(g))
  {
    JoinedAppend(x, u);
    JoinedAppend(y, v);
  }

  lemma AccountsSame(x: seq<Token>)
    ensures Accounts(x, x, UNHARMED)
  {
  }

  lemma LinedSolid(s: State, size: nat, unfinished: bool, closerAhead: bool)
    requires Sane(s) && Lined(s, size, unfinished, closerAhead).Some?
    ensures Accounts(Solid(Lined(s, size, unfinished, closerAhead).value.tokens), Solid(s.tokens), Fate(!LineLoses(s, size, unfinished, closerAhead), true))
  {
    TerminatedSolid(s.tokens);
    SuppressedSolid(s.tokens);
    AccountsSame(Solid(s.tokens));
    hide Solid, Outdented, OutdentLoses, Terminated, Suppressed, SolidTail, SolidBackslash, Accounts;
    SolidPush(s.tokens, Indent(size - s.indent + s.outdebt));
    if size <= s.indent && Outdented(s.(seenFor := false, indebt := 0), s.indent - size, unfinished, closerAhead).Some? {
      OutdentedSolid(s.(seenFor := false, indebt := 0), s.indent - size, unfinished, closerAhead);
    }
  }

  lemma {:induction false} PiecesSolid(parts: seq<Part>)
    requires Pieces(parts).Some?
    ensures Accounts(SolidPieces(Pieces(parts).value), ContentOfParts(parts), FateOfParts(parts))
    decreases parts
  {
    if parts != [] {
      hide Solid, SolidPieces, Contents, Lex, FateOfProgram, CodePieces, Accounts;
      PiecesSolid(Init(parts));
      var ps := Pieces(Init(parts)).value;
      var before, fate := ContentOfParts(Init(parts)), FateOfParts(Init(parts));
      match Last(parts) {
        case Text(text) =>
          TextSolid(ps, before, fate, text);
        case Code(events) =>
          LexNests(events);
          LexSolid(events);
          var ts := Lex(events).value;
          CodeSolid(ts);
          SolidPiecesAppend(ps, CodePieces(ts));
          AccountsJoin(SolidPieces(ps), before, Solid(ts), Contents(events), fate, FateOfProgram(events));
      }
    } else {
      NoSolid();
      AccountsSame([]);
    }
  }

  lemma TextSolid(ps: seq<Piece>, before: seq<Token>, f: Fate, text: string)
    requires Accounts(SolidPieces(ps), before, f)
    ensures Accounts(SolidPieces(ps + [Neo(text)]), before + [Other(Quoted(text), false)], f)
  {
    hide Solid, SolidPieces;
    OnePiece(Neo(text));
    SolidPush([], Other(Quoted(text), false));
    NoSolid();
    assert [] + [Other(Quoted(text), false)] == [Other(Quoted(text), false)];
    SolidPiecesAppend(ps, [Neo(text)]);
    AccountsSame([Other(Quoted(text), false)]);
    AccountsJoin(SolidPieces(ps), before, [Other(Quoted(text), false)], [Other(Quoted(text), false)], f, UNHARMED);
  }

  lemma {:induction false} NextSolid(s: State, e: Event)
    requires Sane(s) && Next(s, e).Some?
    ensures Accounts(Solid(Next(s, e).value.tokens), Solid(s.tokens) + ContentOf(e), FateOf(s, e))
    decreases e
  {
    hide Solid, SolidPieces, Paired, PairLoses, Lined, LineLoses, Pieces, Strung, ContentOfParts, FateOfParts, Related, Assigned, Forbidden, Accounts;
    AccountsSame(Solid(Next(s, e).value.tokens));
    assert Solid(s.tokens) + [] == Solid(s.tokens);
    match e
    case Newline(size, unfinished, closerAhead) => LinedSolid(s, size, unfinished, closerAhead);
    case Opening(b) => SolidPush(s.tokens, Open(b, false));
    case ClosingBracket(b) =>
      PairedSolid(s, b);
      var t := Paired(s, b).value.tokens;
      SolidPush(t, Close(b, false));
      AccountsMore(Solid(t), Solid(s.tokens), Solid(t) + [Close(b, false)], [Close(b, false)], Fate(!PairLoses(s, b), true), UNHARMED);
    case Semicolon => SolidPush(s.tokens, Terminator(true));
    case Continuation => SolidPush(s.tokens, Backslash);
    case For => SolidPush(s.tokens, Other("for", false));
    case Relation(word) => RelatedSolid(s, word);
    case Assign => AssignedSolid(s);
    case Property(text) => SolidPush(s.tokens, Other(text, Forbidden(text)));
    case Plain(text) => SolidPush(s.tokens, Other(text, false));
    case Interpolated(parts) =>
      PiecesSolid(parts);
      StrungSolid(Pieces(parts).value);
      SolidAppend(s.tokens, Strung(Pieces(parts).value));
      AccountsSame(Solid(s.tokens));
      AccountsJoin(Solid(s.tokens), Solid(s.tokens), SolidPieces(Pieces(parts).value), ContentOfParts(parts), UNHARMED, FateOfParts(parts));
  }

  lemma {:induction false} RunSolid(events: seq<Event>)
    requires Run(events).Some?
    ensures Accounts(Solid(Run(events).value.tokens), Contents(events), FateOfRun(events))
    decreases events, 0
  {
    if events != [] {
      hide Solid, Next, FateOf, ContentOf, Accounts;
      RunSolid(Init(events));
      var s := Run(Init(events)).value;
      NextSolid(s, Last(events));
      AccountsMore(Solid(s.tokens), Contents(Init(events)), Solid(Run(events).value.tokens), ContentOf(Last(events)), FateOfRun(Init(events)), FateOf(s, Last(events)));
    } else {
      NoSolid();
      AccountsSame([]);
    }
  }

  lemma {:induction false} LexSolid(events: seq<Event>)
    requires Lex(events).Some?
    ensures Accounts(Solid(Lex(events).value), Contents(events), FateOfProgram(events))
    decreases events, 1
  {
    hide Solid, Contents, OutdentLoses, Accounts, Outdented, FateOfRun;
    RunSolid(events);
    var s := Run(events).value;
    OutdentedSolid(s, s.indent, false, false);
    assert Solid(s.tokens) + [] == Solid(s.tokens) && Contents(events) + [] == Contents(events);
    AccountsMore(Solid(s.tokens), Contents(events), Solid(Lex(events).value), [], FateOfRun(events), Fate(!OutdentLoses(s, s.indent, false), true));
  }

  /** Layout aside, the tokens hold the text if and only if nothing of it is taken off as if it were a semicolon or a
      backslash; and they are the tokens it consists of if and only if, besides, none is made part of the word or the
      sign after it. */
  lemma {:induction false} LexKeeps(events: seq<Event>)
    requires Lex(events).Some?
    ensures Joined(Solid(Lex(events).value)) == Joined(Contents(events)) <==> Keeps(events)
    ensures Solid(Lex(events).value) == Contents(events) <==> Keeps(events) && Whole(events)
  {
    hide Solid, Contents, Lex, FateOfProgram, Joined;
    LexSolid(events);
  }
}
