/** Programs of which the lexer loses nothing, and some of which it does not give the tokens as they are written. */
module PlainPrograms {
  import opened JsArray
  import opened Nesting
  import opened LexerSteps
  import opened LexerContents
  import opened LexerLines

  /** No token of the text is one of these. */
  predicate Plainly(events: seq<Event>, bad: set<string>)
    decreases events
  {
    forall k :: 0 <= k < |events| ==> PlainEvent(events[k], bad)
  }

  predicate PlainEvent(e: Event, bad: set<string>)
    decreases e
  {
    match e
    case Plain(text) => text !in bad
    case Property(text) => text !in bad
    case Interpolated(parts) => forall k :: 0 <= k < |parts| ==> PlainPart(parts[k], bad)
    case _ => true
  }

  predicate PlainPart(p: Part, bad: set<string>)
    decreases p
  {
    p.Code? ==> Plainly(p.events, bad)
  }

  // ---------------------------------------------------------------- tokens

  predicate Harmless(t: Token, bad: set<string>) {
    t.Other? ==> t.text !in bad
  }

  predicate AllHarmless(ts: seq<Token>, bad: set<string>) {
    forall t :: t in ts ==> Harmless(t, bad)
  }

  /** The pieces of an interpolated string. */
  predicate PiecesPlain(ps: seq<Piece>, bad: set<string>) {
    forall p :: p in ps ==> AllHarmless(PieceTokens(p), bad)
  }

  /** Where semicolons and backslashes are among the texts that do not occur, nothing is lost; where the others are, all tokens
      stay whole. */
  predicate Spares(f: Fate, bad: set<string>) {
    (";" in bad && "\\" in bad ==> f.kept) && ("!" in bad && "||" in bad && "&&" in bad ==> f.whole)
  }

  lemma SparesBoth(f: Fate, g: Fate, bad: set<string>)
    requires Spares(f, bad) && Spares(g, bad)
    ensures Spares(f.And(g), bad)
  {
  }

  lemma {:induction false} NoSolidTail(ts: seq<Token>, bad: set<string>)
    requires AllHarmless(ts, bad)
    ensures ";" in bad ==> !SolidTail(ts)
    decreases |ts|
  {
    if EndsWith(ts, ";") {
      assert Last(ts) in ts && Last(ts).Value() in TAKEN;
      NoBracket(Last(ts));
      NoSolidTail(Init(ts), bad);
    }
  }

  lemma NoSolidBackslash(ts: seq<Token>, bad: set<string>)
    requires AllHarmless(ts, bad)
    ensures "\\" in bad ==> !SolidBackslash(ts)
  {
    if EndsWith(ts, "\\") {
      assert Last(ts) in ts && Last(ts).Value() in TAKEN;
      NoBracket(Last(ts));
    }
  }

  lemma NothingTaken(ts: seq<Token>, text: string, bad: set<string>)
    requires AllHarmless(ts, bad) && text in bad && text in {"!", "||", "&&"}
    ensures !EndsWith(ts, text)
  {
    if EndsWith(ts, text) {
      assert Last(ts) in ts;
      TakenIsOther(Last(ts));
    }
  }

  lemma NoneHarmful(bad: set<string>)
    ensures AllHarmless([], bad) && PiecesPlain([], bad)
  {
  }

  lemma HarmlessPush(ts: seq<Token>, t: Token, bad: set<string>)
    requires AllHarmless(ts, bad) && Harmless(t, bad)
    ensures AllHarmless(ts + [t], bad)
  {
  }

  lemma HarmlessJoin(a: seq<Token>, b: seq<Token>, bad: set<string>)
    requires AllHarmless(a, bad) && AllHarmless(b, bad)
    ensures AllHarmless(a + b, bad)
  {
  }

  lemma HarmlessEnds(ts: seq<Token>, bad: set<string>)
    requires AllHarmless(ts, bad)
    ensures AllHarmless(PopSemicolons(ts), bad) && AllHarmless(Terminated(ts), bad) && AllHarmless(Suppressed(ts), bad)
    ensures ts != [] ==> AllHarmless(Init(ts), bad)
  {
  }

  /** The texts the lexer looks for are short and begin with a sign. */
  lemma TakenIsSign(text: string)
    requires text in TAKEN
    ensures 1 <= |text| <= 2 && text[0] in {';', '\\', '!', '|', '&'}
  {
    assert |";"| == 1 && |"\\"| == 1 && |"!"| == 1 && |"||"| == 2 && |"&&"| == 2;
  }

  /** A text that begins with another character, or is longer, is none of these. */
  lemma LongOrPlain(text: string, bad: set<string>)
    requires bad <= TAKEN && (|text| > 2 || (|text| > 0 && text[0] in {'i', 'o', '=', '"'}))
    ensures text !in bad
  {
    if text in bad { TakenIsSign(text); }
  }

  // ---------------------------------------------------------------- steps

  lemma RoundHarmless(m: Moving, closerAhead: bool, bad: set<string>)
    requires Sane(m.s) && m.dent >= 0 && m.move > 0 && AllHarmless(m.s.tokens, bad) && Round(m, closerAhead).Some?
    ensures AllHarmless(Round(m, closerAhead).value.s.tokens, bad)
  {
    hide AllHarmless, Outdents;
    var s := m.s;
    if s.indents != [] { HarmlessPush(s.tokens, Outdent(if closerAhead then Last(s.indents) + s.outdebt else m.move), bad); }
  }

  lemma {:induction false} MoveOutHarmless(m: Moving, closerAhead: bool, bad: set<string>)
    requires Sane(m.s) && m.dent >= 0 && AllHarmless(m.s.tokens, bad) && MoveOut(m, closerAhead).Some?
    ensures AllHarmless(MoveOut(m, closerAhead).value.s.tokens, bad)
    decreases m.move
  {
    hide AllHarmless, Round, Outdents;
    if m.move > 0 {
      RoundHarmless(m, closerAhead, bad);
      MoveOutHarmless(Round(m, closerAhead).value, closerAhead, bad);
    }
  }

  lemma OutdentedHarmless(s: State, columns: int, noNewlines: bool, closerAhead: bool, bad: set<string>)
    requires Sane(s) && AllHarmless(s.tokens, bad)
    ensures ";" in bad ==> !OutdentLoses(s, columns, closerAhead)
    ensures Outdented(s, columns, noNewlines, closerAhead).Some? ==> AllHarmless(Outdented(s, columns, noNewlines, closerAhead).value.tokens, bad)
  {
    NoSolidTail(s.tokens, bad);
    var m := Moving(s, columns, s.indent - columns, 0);
    hide AllHarmless, MoveOut, SolidTail;
    if MoveOut(m, closerAhead).Some? {
      MoveOutHarmless(m, closerAhead, bad);
      HarmlessEnds(MoveOut(m, closerAhead).value.s.tokens, bad);
    }
  }

  lemma {:induction false} PairedHarmless(s: State, b: Bracket, bad: set<string>)
    requires Sane(s) && AllHarmless(s.tokens, bad)
    ensures (";" in bad ==> !PairLoses(s, b)) && (Paired(s, b).Some? ==> AllHarmless(Paired(s, b).value.tokens, bad))
    decreases |s.ends|, s.outdebt
  {
    hide AllHarmless, OutdentLoses;
    if s.ends != [] && Last(s.ends).OUTDENT? {
      OutdentedHarmless(s, Last(s.indents), true, false, bad);
      var t := Outdented(s, Last(s.indents), true, false);
      if t.Some? {
        OutdentedMeans(s, Last(s.indents), true, false);
        PairedHarmless(t.value, b, bad);
      }
    }
  }

  lemma LinedHarmless(s: State, size: nat, unfinished: bool, closerAhead: bool, bad: set<string>)
    requires Sane(s) && AllHarmless(s.tokens, bad)
    ensures ";" in bad && "\\" in bad ==> !LineLoses(s, size, unfinished, closerAhead)
    ensures Lined(s, size, unfinished, closerAhead).Some? ==> AllHarmless(Lined(s, size, unfinished, closerAhead).value.tokens, bad)
  {
    NoSolidTail(s.tokens, bad);
    NoSolidBackslash(s.tokens, bad);
    HarmlessEnds(s.tokens, bad);
    HarmlessPush(s.tokens, Indent(size - s.indent + s.outdebt), bad);
    hide AllHarmless, Outdented, OutdentLoses, SolidTail, SolidBackslash, Terminated, Suppressed;
    if size <= s.indent { OutdentedHarmless(s.(seenFor := false, indebt := 0), s.indent - size, unfinished, closerAhead, bad); }
  }

  lemma RelatedHarmless(s: State, word: Word, bad: set<string>)
    requires Sane(s) && bad <= TAKEN && AllHarmless(s.tokens, bad)
    ensures Spares(FateOf(s, Relation(word)), bad) && AllHarmless(Related(s, word).tokens, bad)
  {
    hide AllHarmless, TAKEN;
    if "!" in bad { NothingTaken(s.tokens, "!", bad); }
    assert |word.Text()| > 0 && word.Text()[0] in {'i', 'o'} && |"!" + word.Text()| > 2;
    LongOrPlain(word.Text(), bad);
    LongOrPlain("!" + word.Text(), bad);
    HarmlessEnds(s.tokens, bad);
    HarmlessPush(s.tokens, Other(word.Text(), false), bad);
    if s.tokens != [] { HarmlessPush(Init(s.tokens), Other("!" + word.Text(), false), bad); }
  }

  lemma AssignedHarmless(s: State, bad: set<string>)
    requires Sane(s) && bad <= TAKEN && AllHarmless(s.tokens, bad)
    ensures Spares(FateOf(s, Assign), bad) && (Assigned(s.tokens).Some? ==> AllHarmless(Assigned(s.tokens).value, bad))
  {
    hide AllHarmless, TAKEN, Forbidden;
    if "||" in bad { NothingTaken(s.tokens, "||", bad); }
    if "&&" in bad { NothingTaken(s.tokens, "&&", bad); }
    assert "="[0] == '=' && |"||" + "="| == 3 && |"&&" + "="| == 3;
    LongOrPlain("=", bad);
    LongOrPlain("||" + "=", bad);
    LongOrPlain("&&" + "=", bad);
    HarmlessEnds(s.tokens, bad);
    HarmlessPush(s.tokens, Other("=", false), bad);
    if EndsWith(s.tokens, "||") || EndsWith(s.tokens, "&&") {
      HarmlessPush(Init(s.tokens), Other(Last(s.tokens).Value() + "=", false), bad);
    }
  }

  lemma {:induction false} SummedHarmless(ps: seq<Piece>, bad: set<string>)
    requires PiecesPlain(ps, bad)
    ensures AllHarmless(Summed(ps), bad)
    decreases |ps|
  {
    hide AllHarmless, PieceTokens;
    if |ps| > 1 {
      SummedHarmless(Init(ps), bad);
      assert Last(ps) in ps;
      HarmlessPush(Summed(Init(ps)), PlusSign, bad);
      HarmlessJoin(Summed(Init(ps)) + [PlusSign], PieceTokens(Last(ps)), bad);
    } else if |ps| == 1 {
      assert ps[0] in ps;
    } else {
      NoneHarmful(bad);
    }
  }

  lemma StrungHarmless(ps: seq<Piece>, bad: set<string>)
    requires PiecesPlain(ps, bad)
    ensures AllHarmless(Strung(ps), bad)
  {
    SummedHarmless(ps, bad);
    if ps != [] && ps[0].Tokens? { SummedHarmless([NeoEmpty] + ps, bad); }
  }

  lemma CodeHarmless(ts: seq<Token>, bad: set<string>)
    requires AllHarmless(ts, bad)
    ensures PiecesPlain(CodePieces(ts), bad)
  {
    var m := Trimmed(ts);
    assert AllHarmless(m, bad);
  }

  lemma {:induction false} PiecesHarmless(parts: seq<Part>, bad: set<string>)
    requires bad <= TAKEN && forall k :: 0 <= k < |parts| ==> PlainPart(parts[k], bad)
    ensures Spares(FateOfParts(parts), bad)
    ensures Pieces(parts).Some? ==> PiecesPlain(Pieces(parts).value, bad)
    decreases parts
  {
    hide AllHarmless, PieceTokens, CodePieces, FateOfProgram, Lex, TAKEN;
    if parts != [] {
      PiecesHarmless(Init(parts), bad);
      assert PlainPart(parts[|parts| - 1], bad);
      match Last(parts)
      case Text(text) => TextHarmless(text, bad);
      case Code(events) =>
        LexHarmless(events, bad);
        if Lex(events).Some? { CodeHarmless(Lex(events).value, bad); }
    }
  }

  lemma TextHarmless(text: string, bad: set<string>)
    requires bad <= TAKEN
    ensures AllHarmless(PieceTokens(Neo(text)), bad)
  {
    LongOrPlain(Quoted(text), bad);
  }

  lemma {:induction false} NextHarmless(s: State, e: Event, bad: set<string>)
    requires Sane(s) && bad <= TAKEN && AllHarmless(s.tokens, bad) && PlainEvent(e, bad)
    ensures Spares(FateOf(s, e), bad) && (Next(s, e).Some? ==> AllHarmless(Next(s, e).value.tokens, bad))
    decreases e
  {
    hide AllHarmless, Paired, PairLoses, Lined, LineLoses, Related, Assigned, Pieces, Strung, FateOfParts, Forbidden, TAKEN;
    match e
    case Newline(size, unfinished, closerAhead) => LinedHarmless(s, size, unfinished, closerAhead, bad);
    case Opening(b) => HarmlessPush(s.tokens, Open(b, false), bad);
    case ClosingBracket(b) =>
      PairedHarmless(s, b, bad);
      if Paired(s, b).Some? { HarmlessPush(Paired(s, b).value.tokens, Close(b, false), bad); }
    case Semicolon => HarmlessPush(s.tokens, Terminator(true), bad);
    case Continuation => HarmlessPush(s.tokens, Backslash, bad);
    case For =>
      LongOrPlain("for", bad);
      HarmlessPush(s.tokens, Other("for", false), bad);
    case Relation(word) => RelatedHarmless(s, word, bad);
    case Assign => AssignedHarmless(s, bad);
    case Property(text) => HarmlessPush(s.tokens, Other(text, Forbidden(text)), bad);
    case Plain(text) => HarmlessPush(s.tokens, Other(text, false), bad);
    case Interpolated(parts) =>
      PiecesHarmless(parts, bad);
      if Pieces(parts).Some? {
        StrungHarmless(Pieces(parts).value, bad);
        HarmlessJoin(s.tokens, Strung(Pieces(parts).value), bad);
      }
  }

  lemma {:induction false} RunHarmless(events: seq<Event>, bad: set<string>)
    requires bad <= TAKEN && Plainly(events, bad)
    ensures Spares(FateOfRun(events), bad) && (Run(events).Some? ==> AllHarmless(Run(events).value.tokens, bad))
    decreases events, 0
  {
    hide AllHarmless, FateOf, Next, TAKEN;
    if events != [] {
      RunHarmless(Init(events), bad);
      assert PlainEvent(events[|events| - 1], bad);
      if Run(Init(events)).Some? { NextHarmless(Run(Init(events)).value, Last(events), bad); }
    } else {
      NoneHarmful(bad);
    }
  }

  /** Where no token of the text is a lone semicolon or backslash, nothing is lost; where none is an exclamation mark, `||` or
      `&&` either, the tokens are those of the text. */
  lemma {:induction false} LexHarmless(events: seq<Event>, bad: set<string>)
    requires bad <= TAKEN && Plainly(events, bad)
    ensures ";" in bad && "\\" in bad ==> Keeps(events)
    ensures "!" in bad && "||" in bad && "&&" in bad ==> Whole(events)
    ensures Lex(events).Some? ==> AllHarmless(Lex(events).value, bad)
    decreases events, 1
  {
    hide AllHarmless, OutdentLoses, Plainly, FateOfRun, TAKEN;
    RunHarmless(events, bad);
    if Run(events).Some? {
      var s := Run(events).value;
      OutdentedHarmless(s, s.indent, false, false, bad);
    }
  }

  // ---------------------------------------------------------------- programs that are changed

  lemma RunMore(events: seq<Event>, e: Event)
    ensures Run(events).Some? ==> Run(events + [e]) == Next(Run(events).value, e)
    ensures Contents(events + [e]) == Contents(events) + ContentOf(e)
    ensures FateOfRun(events + [e]) == FateOfRun(events).And(if Run(events).Some? then FateOf(Run(events).value, e) else UNHARMED)
  {
    assert Init(events + [e]) == events && Last(events + [e]) == e;
  }

  /** A program of one line without indentation. */
  lemma OneLine(events: seq<Event>, s: State)
    requires Run(events) == Some(s) && s.indent == 0 && s.ends == [] && s.outdebt == 0
    ensures Lex(events) == Some(Terminated(s.tokens))
    ensures FateOfProgram(events) == FateOfRun(events).And(Fate(!SolidTail(s.tokens), true))
  {
    assert MoveOut(Moving(s, 0, 0, 0), false) == Some(Moving(s, 0, 0, 0));
    hide PopSemicolons, Terminated, SolidTail;
  }

  lemma Begun()
    ensures Run([]) == Some(START) && FateOfRun([]) == UNHARMED && Contents([]) == []
  {
  }

  /** A program of one token whose text is a semicolon, as JavaScript or a comment may be, loses it. */
  lemma SemicolonLost()
    ensures Lex([Plain(";")]) == Some([Terminator(false)]) && Contents([Plain(";")]) == [Other(";", false)] && !Keeps([Plain(";")])
  {
    hide Lex, Run, Contents, Outdented, Lined, Paired, Pieces, PopSemicolons, Terminated, SolidTail, Forbidden, FateOfRun;
    var ts := [Other(";", false)];
    assert [] + ts == ts && [] + [Plain(";")] == [Plain(";")];
    Begun();
    RunMore([], Plain(";"));
    OneLine([Plain(";")], START.(tokens := ts));
    OneSemicolon(ts);
  }

  lemma OneSemicolon(ts: seq<Token>)
    requires ts == [Other(";", false)]
    ensures Terminated(ts) == [Terminator(false)] && SolidTail(ts)
  {
    assert Init(ts) == [] && Last(ts).Value() == ";";
    assert PopSemicolons(ts) == PopSemicolons([]) == [];
    assert [] + [Terminator(false)] == [Terminator(false)];
  }

  /** `!` or `not` before `in`, `of` or `instanceof` becomes part of it: nothing is lost, and there is one token less. So it is
      with a comment or JavaScript of that text. */
  lemma NotBecomesPart(word: Word)
    ensures var events := [Plain("!"), Relation(word)];
            && Lex(events) == Some([Other("!" + word.Text(), false), Terminator(false)])
            && Contents(events) == [Other("!", false), Other(word.Text(), false)]
            && Keeps(events) && !Whole(events)
  {
    hide Lex, Run, Contents, Keeps, Whole, Outdented, Lined, Paired, Pieces, TAKEN;
    var before, after := [Other("!", false)], [Other("!" + word.Text(), false)];
    var s := START.(tokens := before);
    assert Init(before) == [] && [] + after == after && [] + before == before;
    assert |"!" + word.Text()| > 2;
    Fused(Plain("!"), Relation(word), s, START.(tokens := after), "!" + word.Text());
    assert [Other("!", false)] + [Other(word.Text(), false)] == [Other("!", false), Other(word.Text(), false)];
  }

  /** What some events on one line give, what they consist of, and what becomes of that. */
  ghost predicate Reads(events: seq<Event>, ts: seq<Token>, content: seq<Token>, f: Fate) {
    Run(events) == Some(START.(tokens := ts)) && Contents(events) == content && FateOfRun(events) == f
  }

  lemma ReadPlain(events: seq<Event>, ts: seq<Token>, content: seq<Token>, f: Fate, text: string)
    requires Reads(events, ts, content, f)
    ensures Reads(events + [Plain(text)], ts + [Other(text, false)], content + [Other(text, false)], f)
  {
    hide Run, Contents, FateOfRun;
    RunMore(events, Plain(text));
  }

  lemma ReadRelation(events: seq<Event>, ts: seq<Token>, content: seq<Token>, f: Fate, word: Word)
    requires Reads(events, ts + [Other("!", false)], content, f)
    ensures Reads(events + [Relation(word)], ts + [Other("!" + word.Text(), false)], content + [Other(word.Text(), false)], Fate(f.kept, false))
  {
    hide Run, Contents, FateOfRun, Word.Text;
    RunMore(events, Relation(word));
    assert Init(ts + [Other("!", false)]) == ts;
  }

  /** `x not in y` */
  lemma XNotInY()
    ensures var events := [Plain("x"), Plain("!"), Relation(In), Plain("y")];
            && Lex(events) == Some([Other("x", false), Other("!in", false), Other("y", false), Terminator(false)])
            && Contents(events) == [Other("x", false), Other("!", false), Other("in", false), Other("y", false)]
            && Keeps(events) && !Whole(events)
  {
    hide *;
    var x, not, rel, fused, y := Other("x", false), Other("!", false), Other(In.Text(), false), Other("!" + In.Text(), false), Other("y", false);
    NothingRead();
    ReadPlain([], [], [], UNHARMED, "x");
    ReadPlain([] + [Plain("x")], [] + [x], [] + [x], UNHARMED, "!");
    ReadRelation([] + [Plain("x")] + [Plain("!")], [] + [x], [] + [x] + [not], UNHARMED, In);
    ReadPlain([] + [Plain("x")] + [Plain("!")] + [Relation(In)], [] + [x] + [fused], [] + [x] + [not] + [rel], Fate(true, false), "y");
    var events := [Plain("x"), Plain("!"), Relation(In), Plain("y")];
    assert [] + [Plain("x")] + [Plain("!")] + [Relation(In)] + [Plain("y")] == events;
    assert [] + [x] + [fused] + [y] == [x, fused, y] && [] + [x] + [not] + [rel] + [y] == [x, not, rel, y];
    ReadLine(events, [x, fused, y], [x, not, rel, y], Fate(true, false));
    assert [x, fused, y] + [Terminator(false)] == [x, fused, y, Terminator(false)];
    assert fused == Other("!in", false) && rel == Other("in", false);
  }

  lemma NothingRead()
    ensures Reads([], [], [], UNHARMED) && UNHARMED == Fate(true, true) && In.Text() == "in" && "!" + In.Text() == "!in"
  {
  }

  lemma ReadLine(events: seq<Event>, ts: seq<Token>, content: seq<Token>, f: Fate)
    requires Reads(events, ts, content, f) && ts != [] && ts[|ts| - 1] == Other("y", false)
    ensures Lex(events) == Some(ts + [Terminator(false)]) && Contents(events) == content
    ensures (Keeps(events) <==> f.kept) && (Whole(events) <==> f.whole)
  {
    hide Run, Contents, FateOfRun, Outdented, Lex;
    OneLine(events, START.(tokens := ts));
    NotSemicolon(ts);
  }

  lemma NotSemicolon(ts: seq<Token>)
    requires ts != [] && Last(ts) == Other("y", false)
    ensures Terminated(ts) == ts + [Terminator(false)] && !SolidTail(ts)
  {
    assert "y"[0] != ";"[0];
  }

  /** `||` before `=` becomes a compound assignment. */
  lemma OrBecomesPart()
    ensures var events := [Plain("||"), Assign];
            && Lex(events) == Some([Other("||=", false), Terminator(false)])
            && Contents(events) == [Other("||", false), Other("=", false)]
            && Keeps(events) && !Whole(events)
  {
    hide Lex, Run, Contents, Keeps, Whole, Outdented, Lined, Paired, Pieces, TAKEN;
    var before, after := [Other("||", false)], [Other("||=", false)];
    var s := START.(tokens := before);
    assert "||" + "=" == "||=";
    OrAllowed();
    assert Init(before) == [] && [] + after == after && [] + before == before;
    hide Forbidden;
    Fused(Plain("||"), Assign, s, START.(tokens := after), "||=");
    assert [Other("||", false)] + [Other("=", false)] == [Other("||", false), Other("=", false)];
  }

  lemma OrAllowed()
    ensures !Forbidden("||")
  {
    assert |"||"| == 2 && "||"[0] == '|' && "in"[0] == 'i' && "do"[0] == 'd' && "if"[0] == 'i';
  }

  /** Two events that give one token. */
  lemma Fused(first: Event, second: Event, s: State, t: State, text: string)
    requires Next(START, first) == Some(s) && Next(s, second) == Some(t) && t == START.(tokens := [Other(text, false)]) && |text| > 2
    requires FateOf(START, first) == UNHARMED && FateOf(s, second) == Fate(true, false)
    ensures Lex([first, second]) == Some([Other(text, false), Terminator(false)])
    ensures Contents([first, second]) == ContentOf(first) + ContentOf(second)
    ensures Keeps([first, second]) && !Whole([first, second])
  {
    hide Next, FateOf, ContentOf, Forbidden, Outdented, Lex, Run, Contents, FateOfRun, Terminated, SolidTail;
    Begun();
    RunMore([], first);
    RunMore([first], second);
    LongStays(text);
    assert [] + [first] == [first] && [first] + [second] == [first, second];
    OneLine([first, second], t);
  }

  lemma LongStays(text: string)
    requires |text| > 2
    ensures Terminated([Other(text, false)]) == [Other(text, false), Terminator(false)] && !SolidTail([Other(text, false)])
  {
    assert [Other(text, false)] + [Terminator(false)] == [Other(text, false), Terminator(false)];
  }

  // ---------------------------------------------------------------- programs of several lines

  /** `a` and `b` on two lines: each ends with a terminator. */
  lemma TwoLines()
    ensures Lex([Plain("a"), Newline(0, false, false), Plain("b")]) ==
            Some([Other("a", false), Terminator(false), Other("b", false), Terminator(false)])
  {
    hide Lex, Run, Contents, FateOfRun, Outdented, Paired, Pieces, PopSemicolons, Terminated, SolidTail, FateOf;
    var a, b, t := Other("a", false), Other("b", false), Terminator(false);
    var n := Newline(0, false, false);
    Begun();
    RunMore([], Plain("a"));
    RunMore([] + [Plain("a")], n);
    RunMore([] + [Plain("a")] + [n], Plain("b"));
    EndsLine([] + [a]);
    EndsLine([] + [a] + [t] + [b]);
    OneLine([] + [Plain("a")] + [n] + [Plain("b")], START.(tokens := [] + [a] + [t] + [b]));
    assert [] + [Plain("a")] + [n] + [Plain("b")] == [Plain("a"), n, Plain("b")];
    assert [] + [a] + [t] + [b] + [t] == [a, t, b, t];
  }

  lemma EndsLine(ts: seq<Token>)
    requires ts != [] && (Last(ts) == Other("a", false) || Last(ts) == Other("b", false))
    ensures Terminated(ts) == ts + [Terminator(false)]
  {
    assert "a"[0] == 'a' && "b"[0] == 'b' && ";"[0] == ';';
  }

  /** Four columns in, out to two, out to one, and in to four again: the last line is three columns deeper than the one
      before it, and its indentation says five. */
  const OWED := [Newline(4, false, false), Newline(2, false, false), Newline(1, false, false), Newline(4, false, false)]

  lemma OwedLost(text: string)
    ensures var events := [Plain(text)] + OWED[..1] + [Plain(text)] + OWED[1..2] + OWED[2..3] + OWED[3..];
            && Run(events).Some? && !NeverOwed(events) && !Leveled(Run(events).value)
            && Run(events).value.indent == 4 && Run(events).value.indents == [5]
  {
    hide Run, Contents, FateOfRun, Outdented, Lined, Paired, Pieces, PopSemicolons, Terminated, SolidTail, FateOf, NeverOwed;
    Begun();
    var e0 := [] + [Plain(text)];
    RunMore([], Plain(text));
    var t0 := [] + [Other(text, false)];
    In4(t0);
    RunMore(e0, OWED[0]);
    var e1, t1 := e0 + [OWED[0]], t0 + [Indent(4)];
    RunMore(e1, Plain(text));
    var e2, t2 := e1 + [Plain(text)], t1 + [Other(text, false)];
    Out2(t2);
    RunMore(e2, OWED[1]);
    var e3, t3 := e2 + [OWED[1]], Terminated(t2 + [Outdent(2)]);
    Out1(t3);
    RunMore(e3, OWED[2]);
    var e4, t4 := e3 + [OWED[2]], Terminated(t3);
    InAgain(t4);
    RunMore(e4, OWED[3]);
    var events := [Plain(text)] + OWED[..1] + [Plain(text)] + OWED[1..2] + OWED[2..3] + OWED[3..];
    assert events == e4 + [OWED[3]] && events[..|e3|] == e3;
    Owed(events, |e3|);
    assert Init([5]) == [] && Last([5]) == 5;
  }

  lemma Owed(events: seq<Event>, k: nat)
    requires k < |events| && Run(events[..k]).Some? && Run(events[..k]).value.outdebt != 0
    ensures !NeverOwed(events)
  {
    hide Run;
  }

  lemma In4(ts: seq<Token>)
    requires ts != []
    ensures Lined(START.(tokens := ts), 4, false, false) == Some(State(4, 0, 0, 0, false, [4], [OUTDENT], ts + [Indent(4)]))
  {
    assert [] + [4] == [4] && [] + [OUTDENT] == [OUTDENT];
  }

  lemma Out2(ts: seq<Token>)
    ensures Sane(State(4, 0, 0, 0, false, [4], [OUTDENT], ts))
    ensures Lined(State(4, 0, 0, 0, false, [4], [OUTDENT], ts), 2, false, false) ==
            Some(State(2, 0, 0, 2, false, [], [], Terminated(ts + [Outdent(2)])))
  {
    hide Terminated;
    var s := State(4, 0, 0, 0, false, [4], [OUTDENT], ts);
    assert Init([OUTDENT]) == [] && Init([4]) == [] && Outdents([]) == 0 && Outdents([OUTDENT]) == 1;
    var m := Moving(s, 2, 2, 0);
    assert Round(m, false) == Some(Moving(State(4, 0, 0, 0, false, [], [], ts + [Outdent(2)]), -2, 2, 4));
    assert MoveOut(m, false) == Round(m, false);
  }

  lemma Out1(ts: seq<Token>)
    ensures Sane(State(2, 0, 0, 2, false, [], [], ts))
    ensures Lined(State(2, 0, 0, 2, false, [], [], ts), 1, false, false) == Some(State(1, 0, 0, 2, false, [], [], Terminated(ts)))
  {
    hide Terminated;
    var s := State(2, 0, 0, 2, false, [], [], ts);
    assert Round(Moving(s, 1, 1, 0), false) == Some(Moving(s, 0, 1, 0));
    assert MoveOut(Moving(s, 1, 1, 0), false) == Some(Moving(s, 0, 1, 0));
  }

  lemma InAgain(ts: seq<Token>)
    requires ts != []
    ensures Sane(State(1, 0, 0, 2, false, [], [], ts))
    ensures Lined(State(1, 0, 0, 2, false, [], [], ts), 4, false, false) ==
            Some(State(4, 0, 0, 0, false, [5], [OUTDENT], ts + [Indent(5)]))
  {
    assert [] + [5] == [5] && [] + [OUTDENT] == [OUTDENT];
  }
}
