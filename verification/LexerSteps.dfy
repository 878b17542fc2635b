/** What the layout side of the CoffeeScript lexer does to its fields: line breaks, indentation, brackets, and the
    stack of closers that are still to come. What the regular expressions recognise is given as events. */
module LexerSteps {
  import opened JsArray
  import opened Nesting

  /** What is recognised; the code inside an interpolated string is a program of its own. */
  datatype Event =
    | Newline(size: nat, unfinished: bool, closerAhead: bool)
    | Opening(b: Bracket)
    | ClosingBracket(b: Bracket)
    | Semicolon
    | Continuation
    | For
    | Relation(word: Word)
    | Assign
    | Property(text: string)
    | Plain(text: string)
    | Interpolated(parts: seq<Part>)

  datatype Word = In | Of | InstanceOf {
    function Text(): string {
      match this
      case In => "in"
      case Of => "of"
      case InstanceOf => "instanceof"
    }
  }

  datatype Part = Text(text: string) | Code(events: seq<Event>)

  /** The fields of a lexer. */
  datatype State = State(indent: int, baseIndent: int, indebt: int, outdebt: int,
                         seenFor: bool, indents: seq<int>, ends: seq<Closer>, tokens: seq<Token>)

  const START := State(0, 0, 0, 0, false, [], [], [])

  function Outdents(ends: seq<Closer>): nat {
    if ends == [] then 0 else Outdents(ends[..|ends| - 1]) + (if ends[|ends| - 1].OUTDENT? then 1 else 0)
  }

  lemma OutdentsPush(ends: seq<Closer>, c: Closer)
    ensures Outdents(ends + [c]) == Outdents(ends) + (if c.OUTDENT? then 1 else 0)
  {
    assert (ends + [c])[..|ends + [c]| - 1] == ends;
  }

  lemma OutdentsInit(ends: seq<Closer>)
    ensures ends != [] && Last(ends).OUTDENT? ==> Outdents(ends) == Outdents(Init(ends)) + 1
  {
  }

  /** Indentations are positive, and each has an OUTDENT to come. */
  predicate Sane(s: State) {
    && (forall k :: 0 <= k < |s.indents| ==> s.indents[k] > 0)
    && s.outdebt >= 0 && |s.indents| == Outdents(s.ends)
  }

  function Last<T>(s: seq<T>): T
    requires s != []
  {
    s[|s| - 1]
  }

  function Init<T>(s: seq<T>): seq<T>
    requires s != []
  {
    s[..|s| - 1]
  }

  // ---------------------------------------------------------------- the end of the tokens

  /** Tokens are taken off the end as long as their text is a semicolon, whatever they are. */
  function PopSemicolons(ts: seq<Token>): (r: seq<Token>)
    ensures r <= ts && !EndsWith(r, ";")
    ensures forall k :: |r| <= k < |ts| ==> ts[k].Value() == ";"
  {
    if EndsWith(ts, ";") then PopSemicolons(Init(ts)) else ts
  }

  /** `newlineToken` */
  function Terminated(ts: seq<Token>): (r: seq<Token>)
    ensures r != [] && Last(r) == Terminator(false)
  {
    var r := PopSemicolons(ts);
    if r != [] && Last(r).Terminator? then r else r + [Terminator(false)]
  }

  /** `suppressNewlines` */
  function Suppressed(ts: seq<Token>): seq<Token> {
    if EndsWith(ts, "\\") then Init(ts) else ts
  }

  // ---------------------------------------------------------------- words and signs

  /** `in`, `of` and `instanceof`: after a `for` the first two belong to it; else a token before them whose text is an
      exclamation mark, as that of `not` is, becomes part of them. */
  function Related(s: State, word: Word): State {
    if s.seenFor && !word.InstanceOf? then s.(seenFor := false, tokens := s.tokens + [Other(word.Text(), false)])
    else if EndsWith(s.tokens, "!") then s.(tokens := Init(s.tokens) + [Other("!" + word.Text(), false)])
    else s.(tokens := s.tokens + [Other(word.Text(), false)])
  }

  /** The words that cannot be assigned to. */
  predicate Forbidden(text: string) {
    text in {
      "true", "false", "null", "this", "new", "delete", "typeof", "in", "instanceof", "return", "throw", "break", "continue",
      "debugger", "if", "else", "switch", "for", "while", "do", "try", "catch", "finally", "class", "extends", "super",
      "case", "default", "function", "var", "void", "with", "const", "let", "enum", "export", "import", "native", "__hasProp",
      "__extends", "__slice", "__bind", "__indexOf", "implements", "interface", "package", "private", "protected", "public",
      "static", "yield", "arguments", "eval"}
  }

  /** `=`: a token before it whose text is `||` or `&&` becomes a compound assignment; None after a word that cannot be
      assigned to. */
  function Assigned(ts: seq<Token>): Option<seq<Token>> {
    if ts != [] && Forbidden(Last(ts).Value()) && !(Last(ts).Other? && Last(ts).name) then None
    else if EndsWith(ts, "||") || EndsWith(ts, "&&") then Some(Init(ts) + [Other(Last(ts).Value() + "=", false)])
    else Some(ts + [Other("=", false)])
  }

  predicate EndsWith(ts: seq<Token>, text: string) {
    ts != [] && Last(ts).Value() == text
  }

  // ---------------------------------------------------------------- moving out

  /** The loop of `outdentToken`: `dent` is the indentation closed last, 0 when none has been. */
  datatype Moving = Moving(s: State, move: int, decreased: int, dent: int)

  /** One round of it: the last indentation pays off what is owed, or is closed; None when something else has to be closed first. */
  function Round(m: Moving, closerAhead: bool): (r: Option<Moving>)
    requires Sane(m.s) && m.dent >= 0 && m.move > 0
    ensures r.Some? ==> Sane(r.value.s) && r.value.move < m.move && r.value.dent >= 0
  {
    var s := m.s;
    if s.indents == [] then Some(m.(move := 0))
    else
      var last := Last(s.indents);
      if last == s.outdebt then Some(m.(s := s.(outdebt := 0), move := m.move - last))
      else if s.outdebt > last then Some(m.(s := s.(outdebt := s.outdebt - last), move := m.move - last))
      else if s.ends == [] || !Last(s.ends).OUTDENT? then None
      else
        var dent := last + s.outdebt;
        var move := if closerAhead then dent else m.move;
        var t := s.(outdebt := 0, indents := Init(s.indents), ends := Init(s.ends), tokens := s.tokens + [Outdent(move)]);
        Some(Moving(t, move - dent, if closerAhead then m.decreased - (dent - m.move) else m.decreased, dent))
  }

  function MoveOut(m: Moving, closerAhead: bool): (r: Option<Moving>)
    requires Sane(m.s) && m.dent >= 0
    ensures r.Some? ==> Sane(r.value.s) && r.value.move <= 0 && r.value.dent >= 0
    decreases m.move
  {
    if m.move <= 0 then Some(m)
    else
      match Round(m, closerAhead)
      case None => None
      case Some(n) => MoveOut(n, closerAhead)
  }

  /** `outdentToken` */
  function Outdented(s: State, columns: int, noNewlines: bool, closerAhead: bool): (r: Option<State>)
    requires Sane(s)
    ensures r.Some? ==> Sane(r.value)
  {
    match MoveOut(Moving(s, columns, s.indent - columns, 0), closerAhead)
    case None => None
    case Some(m) =>
      Some(m.s.(outdebt := if m.dent != 0 then m.s.outdebt - m.move else m.s.outdebt,
                tokens := if noNewlines then PopSemicolons(m.s.tokens) else Terminated(m.s.tokens),
                indent := m.decreased))
  }

  /** From one state of the loop to a later one: nothing is opened, and what is not closed is left alone. */
  ghost predicate Shrunk(m: Moving, r: Moving, closerAhead: bool) {
    && |r.s.ends| <= |m.s.ends|
    && (|r.s.ends| == |m.s.ends| ==> r.s.outdebt <= m.s.outdebt && r.dent == m.dent && r.s == m.s.(outdebt := r.s.outdebt))
    && (r.dent == m.dent == 0 || m.dent > 0 || |r.s.ends| < |m.s.ends|)
    && (!closerAhead ==> r.decreased == m.decreased)
  }

  lemma RoundShrinks(m: Moving, closerAhead: bool)
    requires Sane(m.s) && m.dent >= 0 && m.move > 0 && Round(m, closerAhead).Some?
    ensures var r := Round(m, closerAhead).value;
            && Shrunk(m, r, closerAhead)
            && (m.s.indents != [] && |r.s.ends| == |m.s.ends| ==> r.s.outdebt < m.s.outdebt)
  {
    hide Outdents;
  }

  lemma {:induction false} MoveOutShrinks(m: Moving, closerAhead: bool)
    requires Sane(m.s) && m.dent >= 0 && MoveOut(m, closerAhead).Some?
    ensures var r := MoveOut(m, closerAhead).value;
            && Shrunk(m, r, closerAhead)
            && (m.move > 0 && m.s.indents != [] && |r.s.ends| == |m.s.ends| ==> r.s.outdebt < m.s.outdebt)
    decreases m.move
  {
    hide Round, Outdents;
    if m.move > 0 {
      RoundShrinks(m, closerAhead);
      MoveOutShrinks(Round(m, closerAhead).value, closerAhead);
    }
  }

  /** Moving out makes progress: it closes something, or else pays off outdentation owed. It ends at the
      column asked for unless a closer is ahead, and with a terminator unless told not to. */
  lemma {:induction false} OutdentedMeans(s: State, columns: int, noNewlines: bool, closerAhead: bool)
    requires Sane(s) && Outdented(s, columns, noNewlines, closerAhead).Some?
    ensures var t := Outdented(s, columns, noNewlines, closerAhead).value;
            && |t.ends| <= |s.ends|
            && (columns > 0 && s.indents != [] ==> |t.ends| < |s.ends| || t.outdebt < s.outdebt)
            && (!closerAhead ==> t.indent == s.indent - columns)
            && (!noNewlines ==> t.tokens != [] && Last(t.tokens) == Terminator(false))
  {
    MoveOutShrinks(Moving(s, columns, s.indent - columns, 0), closerAhead);
  }

  // ---------------------------------------------------------------- events

  /** `pair` for a bracket: indentations in front of it are closed first. */
  function Paired(s: State, b: Bracket): (r: Option<State>)
    requires Sane(s)
    ensures r.Some? ==> Sane(r.value)
    decreases |s.ends|, s.outdebt
  {
    if s.ends == [] then None
    else if Last(s.ends) == Closing(b) then Some(s.(ends := Init(s.ends)))
    else if !Last(s.ends).OUTDENT? then None
    else
      match Outdented(s, Last(s.indents), true, false)
      case None => None
      case Some(t) => OutdentedMeans(s, Last(s.indents), true, false); Paired(t, b)
  }

  /** `lineToken` */
  function Lined(s: State, size: nat, unfinished: bool, closerAhead: bool): (r: Option<State>)
    requires Sane(s)
    ensures r.Some? ==> Sane(r.value)
  {
    if size - s.indebt == s.indent then
      Some(s.(seenFor := false, tokens := if unfinished then Suppressed(s.tokens) else Terminated(s.tokens)))
    else if size > s.indent then
      if unfinished then Some(s.(seenFor := false, indebt := size - s.indent, tokens := Suppressed(s.tokens)))
      else if s.tokens == [] then Some(s.(seenFor := false, baseIndent := size, indent := size))
      else
        var diff := size - s.indent + s.outdebt;
        OutdentsPush(s.ends, OUTDENT);
        Some(State(size, s.baseIndent, 0, 0, false, s.indents + [diff], s.ends + [OUTDENT], s.tokens + [Indent(diff)]))
    else if s.baseIndent > size then None
    else Outdented(s.(seenFor := false, indebt := 0), s.indent - size, unfinished, closerAhead)
  }

  /** The tokens of a part of an interpolated string. */
  datatype Piece = Neo(text: string) | NeoEmpty | Tokens(ts: seq<Token>)

  function Quoted(text: string): string { "\"" + text + "\"" }

  function Trimmed(ts: seq<Token>): seq<Token> {
    var init := if ts == [] then ts else Init(ts);
    if init != [] && init[0].Terminator? then init[1..] else init
  }

  function PieceTokens(p: Piece): seq<Token> {
    match p
    case Neo(text) => [Other(Quoted(text), false)]
    case NeoEmpty => [EmptyString]
    case Tokens(ts) => ts
  }

  /** What a program gives inside a string: its tokens without the terminator at the end and one at the
      start, in brackets when there are several. */
  function CodePieces(ts: seq<Token>): seq<Piece> {
    var m := Trimmed(ts);
    if m == [] then [] else [Tokens(if |m| > 1 then [Open(Paren, true)] + m + [Close(Paren, true)] else m)]
  }

  /** The pieces with a plus between them. */
  function Summed(ps: seq<Piece>): seq<Token> {
    if ps == [] then [] else if |ps| == 1 then PieceTokens(ps[0]) else Summed(Init(ps)) + [PlusSign] + PieceTokens(Last(ps))
  }

  /** `interpolateString`: a text comes first, and brackets go around several pieces. */
  function Strung(ps: seq<Piece>): seq<Token> {
    if ps == [] then [EmptyString]
    else
      var all := if ps[0].Tokens? then [NeoEmpty] + ps else ps;
      if |all| > 1 then [Open(Paren, true)] + Summed(all) + [Close(Paren, true)] else Summed(all)
  }

  function Pieces(parts: seq<Part>): Option<seq<Piece>>
    decreases parts
  {
    if parts == [] then Some([])
    else
      match Pieces(Init(parts))
      case None => None
      case Some(ps) =>
        match Last(parts)
        case Text(text) => Some(ps + [Neo(text)])
        case Code(events) =>
          match Lex(events)
          case None => None
          case Some(ts) => Some(ps + CodePieces(ts))
  }

  function Next(s: State, e: Event): (r: Option<State>)
    requires Sane(s)
    ensures r.Some? ==> Sane(r.value)
    decreases e
  {
    match e
    case Newline(size, unfinished, closerAhead) => Lined(s, size, unfinished, closerAhead)
    case Opening(b) =>
      OutdentsPush(s.ends, Closing(b));
      Some(s.(ends := s.ends + [Closing(b)], tokens := s.tokens + [Open(b, false)]))
    case ClosingBracket(b) =>
      (match Paired(s, b)
       case None => None
       case Some(t) => Some(t.(tokens := t.tokens + [Close(b, false)])))
    case Semicolon => Some(s.(seenFor := false, tokens := s.tokens + [Terminator(true)]))
    case Continuation => Some(s.(tokens := s.tokens + [Backslash]))
    case For => Some(s.(seenFor := true, tokens := s.tokens + [Other("for", false)]))
    case Relation(word) => Some(Related(s, word))
    case Assign =>
      (match Assigned(s.tokens)
       case None => None
       case Some(ts) => Some(s.(tokens := ts)))
    case Property(text) => Some(s.(tokens := s.tokens + [Other(text, Forbidden(text))]))
    case Plain(text) => Some(s.(tokens := s.tokens + [Other(text, false)]))
    case Interpolated(parts) =>
      match Pieces(parts)
      case None => None
      case Some(ps) => Some(s.(tokens := s.tokens + Strung(ps)))
  }

  function Run(events: seq<Event>): (r: Option<State>)
    ensures r.Some? ==> Sane(r.value)
    decreases events, 0
  {
    if events == [] then Some(START)
    else
      match Run(Init(events))
      case None => None
      case Some(s) => Next(s, Last(events))
  }

  /** `tokenize` with rewriting off; None when it reports an error. */
  function Lex(events: seq<Event>): Option<seq<Token>>
    decreases events, 1
  {
    match Run(events)
    case None => None
    case Some(s) =>
      match Outdented(s, s.indent, false, false)
      case None => None
      case Some(t) => if t.ends == [] then Some(t.tokens) else None
  }

  // ---------------------------------------------------------------- nesting

  lemma NestedJoin(a: seq<Token>, b: seq<Token>)
    requires ProperlyNested(a) && ProperlyNested(b)
    ensures ProperlyNested(a + b)
  {
    NestAppend([], a, b);
  }

  lemma NestedOne(t: Token)
    requires t.Opens().None? && t.Closes().None?
    ensures ProperlyNested([t])
  {
    OneToken([], t);
  }

  lemma NestedWrap(ts: seq<Token>)
    requires ProperlyNested(ts)
    ensures ProperlyNested([Open(Paren, true)] + ts + [Close(Paren, true)])
  {
    hide Nest;
    var open := [Closing(Paren)];
    OneToken([], Open(Paren, true));
    assert [] + open == open;
    NestAbove(open, [], ts);
    assert open + [] == open;
    NestAppend([], [Open(Paren, true)], ts);
    NestPush([], [Open(Paren, true)] + ts, Close(Paren, true));
  }

  lemma {:induction false} PopNests(ts: seq<Token>)
    ensures Nest([], PopSemicolons(ts)) == Nest([], ts)
    decreases |ts|
  {
    if EndsWith(ts, ";") {
      PopNests(Init(ts));
      NoBracket(Last(ts));
    }
  }

  /** The texts that the lexer looks for at the end of its tokens. */
  const TAKEN: set<string> := {";", "\\", "!", "||", "&&"}

  /** No token that opens or closes has such a text. */
  lemma NoBracket(t: Token)
    requires t.Value() in TAKEN
    ensures t.Opens().None? && t.Closes().None?
  {
    assert |";"| == 1 && |"\\"| == 1 && |"!"| == 1 && |"||"| == 2 && |"&&"| == 2;
    assert forall text :: text in TAKEN ==> |text| > 0 && text[0] in {';', '\\', '!', '|', '&'};
    assert "("[0] == '(' && ")"[0] == ')' && "{"[0] == '{' && "}"[0] == '}' && "["[0] == '[' && "]"[0] == ']' && |""| == 0;
  }

  /** One token at the end gives way to another, neither of which opens or closes anything. */
  lemma LastChanged(ts: seq<Token>, text: string)
    requires ts != [] && Last(ts).Value() in TAKEN
    ensures Nest([], Init(ts) + [Other(text, false)]) == Nest([], ts)
  {
    NoBracket(Last(ts));
    assert (Init(ts) + [Other(text, false)])[..|Init(ts)|] == Init(ts);
  }

  lemma RelatedNests(s: State, word: Word)
    ensures Nest([], Related(s, word).tokens) == Nest([], s.tokens) && Related(s, word).ends == s.ends
  {
    if EndsWith(s.tokens, "!") { LastChanged(s.tokens, "!" + word.Text()); }
    LeafNests(s.tokens, Other(word.Text(), false));
  }

  lemma AssignedNests(ts: seq<Token>)
    requires Assigned(ts).Some?
    ensures Nest([], Assigned(ts).value) == Nest([], ts)
  {
    hide Nest;
    if EndsWith(ts, "||") || EndsWith(ts, "&&") { LastChanged(ts, Last(ts).Value() + "="); }
    LeafNests(ts, Other("=", false));
  }

  lemma LeafNests(ts: seq<Token>, t: Token)
    requires t.Other?
    ensures Nest([], ts + [t]) == Nest([], ts)
  {
    assert (ts + [t])[..|ts|] == ts;
  }

  lemma TerminatedNests(ts: seq<Token>)
    ensures Nest([], Terminated(ts)) == Nest([], ts)
  {
    PopNests(ts);
    var r := PopSemicolons(ts);
    assert (r + [Terminator(false)])[..|r|] == r;
  }

  lemma SuppressedNests(ts: seq<Token>)
    ensures Nest([], Suppressed(ts)) == Nest([], ts)
  {
    if EndsWith(ts, "\\") { NoBracket(Last(ts)); }
  }

  /** `ends` holds exactly the closers that the tokens leave open. */
  predicate Balanced(s: State) {
    Nest([], s.tokens) == Some(s.ends)
  }

  lemma RoundNests(m: Moving, closerAhead: bool)
    requires Sane(m.s) && m.dent >= 0 && m.move > 0 && Balanced(m.s) && Round(m, closerAhead).Some?
    ensures Balanced(Round(m, closerAhead).value.s)
  {
    hide Nest, Outdents;
    var s := m.s;
    if s.indents != [] { NestPush([], s.tokens, Outdent(if closerAhead then Last(s.indents) + s.outdebt else m.move)); }
  }

  lemma {:induction false} MoveOutNests(m: Moving, closerAhead: bool)
    requires Sane(m.s) && m.dent >= 0 && Balanced(m.s) && MoveOut(m, closerAhead).Some?
    ensures Balanced(MoveOut(m, closerAhead).value.s)
    decreases m.move
  {
    hide Round, Balanced, Outdents;
    if m.move > 0 {
      RoundNests(m, closerAhead);
      MoveOutNests(Round(m, closerAhead).value, closerAhead);
    }
  }

  lemma OutdentedNests(s: State, columns: int, noNewlines: bool, closerAhead: bool)
    requires Sane(s) && Balanced(s) && Outdented(s, columns, noNewlines, closerAhead).Some?
    ensures Balanced(Outdented(s, columns, noNewlines, closerAhead).value)
  {
    hide MoveOut, PopSemicolons, Nest, Terminated, Outdents;
    var m := Moving(s, columns, s.indent - columns, 0);
    MoveOutNests(m, closerAhead);
    PopNests(MoveOut(m, closerAhead).value.s.tokens);
    TerminatedNests(MoveOut(m, closerAhead).value.s.tokens);
  }

  lemma {:induction false} PairedNests(s: State, b: Bracket)
    requires Sane(s) && Balanced(s) && Paired(s, b).Some?
    ensures Nest([], Paired(s, b).value.tokens) == Some(Paired(s, b).value.ends + [Closing(b)])
    decreases |s.ends|, s.outdebt
  {
    if Last(s.ends) == Closing(b) {
      assert Init(s.ends) + [Closing(b)] == s.ends;
    } else {
      OutdentedMeans(s, Last(s.indents), true, false);
      OutdentedNests(s, Last(s.indents), true, false);
      PairedNests(Outdented(s, Last(s.indents), true, false).value, b);
    }
  }

  lemma LinedNests(s: State, size: nat, unfinished: bool, closerAhead: bool)
    requires Sane(s) && Balanced(s) && Lined(s, size, unfinished, closerAhead).Some?
    ensures Balanced(Lined(s, size, unfinished, closerAhead).value)
  {
    hide Outdented, Nest, Terminated, Suppressed;
    TerminatedNests(s.tokens);
    SuppressedNests(s.tokens);
    NestPush([], s.tokens, Indent(size - s.indent + s.outdebt));
    if size <= s.indent && Outdented(s.(seenFor := false, indebt := 0), s.indent - size, unfinished, closerAhead).Some? {
      OutdentedNests(s.(seenFor := false, indebt := 0), s.indent - size, unfinished, closerAhead);
    }
  }

  lemma {:induction false} SummedNests(ps: seq<Piece>)
    requires forall p :: p in ps ==> ProperlyNested(PieceTokens(p))
    ensures ProperlyNested(Summed(ps))
    decreases |ps|
  {
    if |ps| > 1 {
      hide PieceTokens, ProperlyNested;
      SummedNests(Init(ps));
      assert Last(ps) in ps;
      NestedOne(PlusSign);
      NestedJoin(Summed(Init(ps)), [PlusSign]);
      NestedJoin(Summed(Init(ps)) + [PlusSign], PieceTokens(Last(ps)));
    } else if |ps| == 1 {
      assert ps[0] in ps;
    } else {
      assert Nest([], []) == Some([]);
    }
  }

  lemma StrungNests(ps: seq<Piece>)
    requires PiecesNested(ps)
    ensures ProperlyNested(Strung(ps))
  {
    hide ProperlyNested, Summed;
    NestedOne(EmptyString);
    if ps != [] {
      var all := if ps[0].Tokens? then [NeoEmpty] + ps else ps;
      SummedNests(all);
      NestedWrap(Summed(all));
    }
  }

  lemma TrimmedNests(ts: seq<Token>)
    requires ProperlyNested(ts) && ts != [] && Last(ts) == Terminator(false)
    ensures ProperlyNested(Trimmed(ts))
  {
    var init := Init(ts);
    if init != [] && init[0].Terminator? {
      assert init == [init[0]] + init[1..];
      OneToken([], init[0]);
      NestAppend([], [init[0]], init[1..]);
    }
  }

  /** The pieces of a string are properly nested, each by itself. */
  ghost predicate PiecesNested(ps: seq<Piece>) {
    forall p :: p in ps ==> ProperlyNested(PieceTokens(p))
  }

  lemma TextNests(text: string)
    ensures PiecesNested([Neo(text)])
  {
    NestedOne(Other(Quoted(text), false));
  }

  lemma CodeNests(ts: seq<Token>)
    requires ProperlyNested(ts) && ts != [] && Last(ts) == Terminator(false)
    ensures PiecesNested(CodePieces(ts))
  {
    hide ProperlyNested, Trimmed;
    TrimmedNests(ts);
    NestedWrap(Trimmed(ts));
  }

  lemma PiecesJoin(a: seq<Piece>, b: seq<Piece>)
    requires PiecesNested(a) && PiecesNested(b)
    ensures PiecesNested(a + b)
  {
    hide ProperlyNested, PieceTokens;
  }

  lemma {:induction false} PiecesNest(parts: seq<Part>)
    requires Pieces(parts).Some?
    ensures PiecesNested(Pieces(parts).value)
    decreases parts
  {
    if parts != [] {
      hide Lex, CodePieces, PiecesNested, ProperlyNested;
      PiecesNest(Init(parts));
      var ps := Pieces(Init(parts)).value;
      match Last(parts)
      case Text(text) =>
        TextNests(text);
        PiecesJoin(ps, [Neo(text)]);
      case Code(events) =>
        LexNests(events);
        CodeNests(Lex(events).value);
        PiecesJoin(ps, CodePieces(Lex(events).value));
    }
  }

  lemma {:induction false} NextNests(s: State, e: Event)
    requires Sane(s) && Balanced(s) && Next(s, e).Some?
    ensures Balanced(Next(s, e).value)
    decreases e
  {
    hide Nest, Outdents, Paired, Lined, Strung, Pieces, Related, Assigned, Forbidden;
    match e
    case Newline(size, unfinished, closerAhead) => LinedNests(s, size, unfinished, closerAhead);
    case Opening(b) => NestPush([], s.tokens, Open(b, false));
    case ClosingBracket(b) =>
      PairedNests(s, b);
      var t := Paired(s, b).value;
      NestPush([], t.tokens, Close(b, false));
      assert (t.ends + [Closing(b)])[..|t.ends|] == t.ends;
    case Semicolon => NestPush([], s.tokens, Terminator(true));
    case Continuation => NestPush([], s.tokens, Backslash);
    case For => LeafNests(s.tokens, Other("for", false));
    case Relation(word) => RelatedNests(s, word);
    case Assign => AssignedNests(s.tokens);
    case Property(text) => LeafNests(s.tokens, Other(text, Forbidden(text)));
    case Plain(text) => LeafNests(s.tokens, Other(text, false));
    case Interpolated(parts) =>
      var ps := Pieces(parts).value;
      PiecesNest(parts);
      StrungNests(ps);
      NestAppend([], s.tokens, Strung(ps));
      NestAbove(s.ends, [], Strung(ps));
      assert s.ends + [] == s.ends;
  }

  lemma {:induction false} RunNests(events: seq<Event>)
    requires Run(events).Some?
    ensures Balanced(Run(events).value)
    decreases events, 0
  {
    if events != [] {
      RunNests(Init(events));
      NextNests(Run(Init(events)).value, Last(events));
    } else {
      assert Nest([], []) == Some([]);
    }
  }

  /** What `tokenize` returns is properly nested, and ends with a line terminator. */
  lemma {:induction false} LexNests(events: seq<Event>)
    requires Lex(events).Some?
    ensures ProperlyNested(Lex(events).value)
    ensures Lex(events).value != [] && Last(Lex(events).value) == Terminator(false)
    decreases events, 1
  {
    RunNests(events);
    var s := Run(events).value;
    OutdentedNests(s, s.indent, false, false);
    OutdentedMeans(s, s.indent, false, false);
  }
}
