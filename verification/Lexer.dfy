/** The lexer itself. */
module Lexing {
  import opened JsArray
  import opened Nesting
  import opened LexerSteps
  import opened LexerContents
  import opened LexerLines

  class Lexer {
    var indent: int
    var baseIndent: int
    var indebt: int
    var outdebt: int
    var seenFor: bool
    var indents: seq<int>
    var ends: seq<Closer>
    var tokens: seq<Token>

    constructor ()
      ensures Now() == START
    {
      indent, baseIndent, indebt, outdebt := 0, 0, 0, 0;
      seenFor, indents, ends, tokens := false, [], [], [];
    }

    function Now(): State
      reads this
    {
      State(indent, baseIndent, indebt, outdebt, seenFor, indents, ends, tokens)
    }

    /** `while value() is ";"`: the last token goes. */
    method TakeSemicolons()
      modifies this`tokens
      ensures tokens == PopSemicolons(old(tokens))
    {
      while EndsWith(tokens, ";")
        invariant PopSemicolons(tokens) == PopSemicolons(old(tokens))
        decreases |tokens|
      {
        tokens := Init(tokens);
      }
    }

    method NewlineToken()
      modifies this`tokens
      ensures tokens == Terminated(old(tokens))
    {
      TakeSemicolons();
      if !(tokens != [] && Last(tokens).Terminator?) { tokens := tokens + [Terminator(false)]; }
    }

    method SuppressNewlines()
      modifies this`tokens
      ensures tokens == Suppressed(old(tokens))
    {
      if EndsWith(tokens, "\\") { tokens := Init(tokens); }
    }

    /** `lineToken`: a line break and the indentation after it. */
    method LineToken(size: nat, unfinished: bool, closerAhead: bool) returns (ok: bool)
      requires Sane(Now())
      modifies this
      ensures ok == Lined(old(Now()), size, unfinished, closerAhead).Some?
      ensures ok ==> Now() == Lined(old(Now()), size, unfinished, closerAhead).value
    {
      hide Outdented, Outdents, Terminated, Suppressed;
      ok, seenFor := true, false;
      if size - indebt == indent {
        if unfinished { SuppressNewlines(); } else { NewlineToken(); }
      } else if size > indent {
        if unfinished {
          indebt := size - indent;
          SuppressNewlines();
        } else if tokens == [] {
          baseIndent, indent := size, size;
        } else {
          var diff := size - indent + outdebt;
          tokens := tokens + [Indent(diff)];
          indents := indents + [diff];
          ends := ends + [OUTDENT];
          outdebt, indebt, indent := 0, 0, size;
        }
      } else if baseIndent > size {
        ok := false;  // missing indentation
      } else {
        indebt := 0;
        ok := OutdentToken(indent - size, unfinished, closerAhead);
      }
    }

    /** `outdentToken`: moves out by some columns, closing the indentations that are left. */
    method OutdentToken(columns: int, noNewlines: bool, closerAhead: bool) returns (ok: bool)
      requires Sane(Now())
      modifies this
      ensures ok == Outdented(old(Now()), columns, noNewlines, closerAhead).Some?
      ensures ok ==> Now() == Outdented(old(Now()), columns, noNewlines, closerAhead).value
      decreases |ends|, outdebt, 1
    {
      hide PopSemicolons, Terminated, Outdents, Nest, MoveOut, Paired;
      ok := true;
      var moveOut, decreased := columns, indent - columns;
      var dent := 0;
      while moveOut > 0
        invariant Sane(Now()) && dent >= 0 && |ends| <= old(|ends|)
        invariant outdebt <= old(outdebt)
        invariant MoveOut(Moving(Now(), moveOut, decreased, dent), closerAhead)
               == MoveOut(Moving(old(Now()), columns, old(indent) - columns, 0), closerAhead)
        decreases moveOut
      {
        OneRound(Moving(Now(), moveOut, decreased, dent), closerAhead);
        var last := if indents == [] then 0 else Last(indents);
        if last == 0 {
          moveOut := 0;
        } else if last == outdebt {
          moveOut, outdebt := moveOut - outdebt, 0;
        } else if outdebt > last {
          outdebt, moveOut := outdebt - last, moveOut - last;
        } else {
          dent := last + outdebt;
          indents := Init(indents);
          if closerAhead { decreased, moveOut := decreased - (dent - moveOut), dent; }
          outdebt := 0;
          OutdentsInit(ends);
          ok := Pair(OUTDENT);
          if !ok { return; }
          tokens := tokens + [Outdent(moveOut)];
          moveOut := moveOut - dent;
        }
      }
      NoRound(Moving(Now(), moveOut, decreased, dent), closerAhead);
      if dent != 0 { outdebt := outdebt - moveOut; }
      EndLine(noNewlines);
      indent := decreased;
    }

    method EndLine(noNewlines: bool)
      modifies this`tokens
      ensures tokens == if noNewlines then PopSemicolons(old(tokens)) else Terminated(old(tokens))
    {
      TakeSemicolons();
      if !((tokens != [] && Last(tokens).Terminator?) || noNewlines) { tokens := tokens + [Terminator(false)]; }
    }

    /** `pair`: takes the expected closer off `ends`, closing indentations in front of it first. */
    method Pair(tag: Closer) returns (ok: bool)
      requires tag.Closing? ==> Sane(Now())
      modifies this
      ensures tag.OUTDENT? ==> ok == (old(ends) != [] && Last(old(ends)).OUTDENT?)
      ensures tag.OUTDENT? && ok ==> Now() == old(Now()).(ends := Init(old(ends)))
      ensures tag.Closing? ==> ok == Paired(old(Now()), tag.b).Some?
      ensures tag.Closing? && ok ==> Now() == Paired(old(Now()), tag.b).value
      decreases |ends|, outdebt, if tag.OUTDENT? then 0 else 2
    {
      if ends == [] || Last(ends) != tag {
        if ends == [] || !Last(ends).OUTDENT? { return false; }  // unmatched tag
        ghost var s := Now();
        ok := OutdentToken(Last(indents), true, false);
        if ok {
          OutdentedMeans(s, Last(s.indents), true, false);
          ok := Pair(tag);
        }
      } else {
        ok := true;
        ends := Init(ends);
      }
    }

    /** `identifierToken` at `in`, `of` and `instanceof`. */
    method RelationToken(word: Word)
      modifies this`seenFor, this`tokens
      ensures Now() == Related(old(Now()), word)
    {
      var text := word.Text();
      if seenFor && !word.InstanceOf? {
        seenFor := false;
      } else if EndsWith(tokens, "!") {
        tokens := Init(tokens);
        text := "!" + text;
      }
      tokens := tokens + [Other(text, false)];
    }

    /** `literalToken` at `=`. */
    method AssignToken() returns (ok: bool)
      modifies this`tokens
      ensures ok == Assigned(old(tokens)).Some?
      ensures ok ==> tokens == Assigned(old(tokens)).value
    {
      hide Forbidden;
      if tokens != [] {
        var prev := Last(tokens);
        if !(prev.Other? && prev.name) && Forbidden(prev.Value()) { return false; }  // a reserved word
        if prev.Value() == "||" || prev.Value() == "&&" {
          tokens := tokens[|tokens| - 1 := Other(prev.Value() + "=", false)];
          return true;
        }
      }
      tokens := tokens + [Other("=", false)];
      ok := true;
    }

    /** `literalToken` at a bracket or a semicolon. */
    method LiteralToken(e: Event) returns (ok: bool)
      requires Sane(Now()) && (e.Opening? || e.ClosingBracket? || e.Semicolon?)
      modifies this
      ensures ok == Next(old(Now()), e).Some?
      ensures ok ==> Now() == Next(old(Now()), e).value
    {
      ok := true;
      match e {
        case Opening(b) =>
          ends := ends + [Closing(b)];
          tokens := tokens + [Open(b, false)];
        case ClosingBracket(b) =>
          ok := Pair(Closing(b));
          if ok { tokens := tokens + [Close(b, false)]; }
        case Semicolon =>
          seenFor := false;
          tokens := tokens + [Terminator(true)];
      }
    }

    /** The loop of `tokenize`, with rewriting off. */
    method Tokenize(events: seq<Event>) returns (ok: bool)
      modifies this
      ensures ok == Lex(events).Some?
      ensures ok ==> tokens == Lex(events).value && ends == [] && ProperlyNested(tokens)
      ensures ok ==> (Joined(Solid(tokens)) == Joined(Contents(events)) <==> Keeps(events))
      ensures ok ==> (Solid(tokens) == Contents(events) <==> Keeps(events) && Whole(events))
      ensures ok ==> LaidOut(events, tokens)
      decreases events, 1
    {
      indent, baseIndent, indebt, outdebt := 0, 0, 0, 0;
      seenFor, indents, ends, tokens := false, [], [], [];
      ok := true;
      for k := 0 to |events|
        invariant Run(events[..k]) == Some(Now())
      {
        assert Init(events[..k + 1]) == events[..k] && Last(events[..k + 1]) == events[k];
        ok := Read(events[k]);
        if !ok {
          Stuck(events, k + 1);
          return;
        }
      }
      assert events[..|events|] == events;
      ok := CloseIndentation();
      if ok && ends != [] { ok := false; }  // missing closer
      if ok {
        LexNests(events);
        LexKeeps(events);
        LexLines(events);
      }
    }

    method Read(e: Event) returns (ok: bool)
      requires Sane(Now())
      modifies this
      ensures ok == Next(old(Now()), e).Some?
      ensures ok ==> Now() == Next(old(Now()), e).value
      decreases e
    {
      ok := true;
      match e {
        case Newline(size, unfinished, closerAhead) => ok := LineToken(size, unfinished, closerAhead);
        case Continuation => tokens := tokens + [Backslash];
        case For =>
          seenFor := true;
          tokens := tokens + [Other("for", false)];
        case Relation(word) => RelationToken(word);
        case Assign => ok := AssignToken();
        case Property(text) => tokens := tokens + [Other(text, Forbidden(text))];
        case Plain(text) => tokens := tokens + [Other(text, false)];
        case Interpolated(parts) => ok := InterpolateString(parts);
        case _ => ok := LiteralToken(e);
      }
    }

    /** `interpolateString`: the code in it is given to lexers of its own. */
    method InterpolateString(parts: seq<Part>) returns (ok: bool)
      modifies this`tokens
      ensures ok == Pieces(parts).Some?
      ensures ok ==> tokens == old(tokens) + Strung(Pieces(parts).value)
      decreases parts
    {
      hide Lex, Strung, FateOfProgram, Contents, Solid, Joined;
      var pieces: seq<Piece> := [];
      for k := 0 to |parts|
        invariant tokens == old(tokens)
        invariant Pieces(parts[..k]) == Some(pieces)
      {
        assert Init(parts[..k + 1]) == parts[..k] && Last(parts[..k + 1]) == parts[k];
        match parts[k] {
          case Text(text) => pieces := pieces + [Neo(text)];
          case Code(events) =>
            var inner := new Lexer();
            ok := inner.Tokenize(events);
            if !ok {
              StuckPart(parts, k + 1);
              return;
            }
            pieces := pieces + CodePieces(inner.tokens);
        }
      }
      assert parts[..|parts|] == parts;
      tokens := tokens + Strung(pieces);
      ok := true;
    }

    method CloseIndentation() returns (ok: bool)
      requires Sane(Now())
      modifies this
      ensures ok == Outdented(old(Now()), old(indent), false, false).Some?
      ensures ok ==> Now() == Outdented(old(Now()), old(indent), false, false).value && indent == 0
    {
      OutdentedEnds(Now(), indent);
      ok := OutdentToken(indent, false, false);
    }
  }

  lemma OneRound(m: Moving, closerAhead: bool)
    requires Sane(m.s) && m.dent >= 0 && m.move > 0
    ensures MoveOut(m, closerAhead) == if Round(m, closerAhead).None? then None else MoveOut(Round(m, closerAhead).value, closerAhead)
  {
  }

  lemma NoRound(m: Moving, closerAhead: bool)
    requires Sane(m.s) && m.dent >= 0 && m.move <= 0
    ensures MoveOut(m, closerAhead) == Some(m)
  {
  }

  lemma OutdentedEnds(s: State, columns: int)
    requires Sane(s)
    ensures Outdented(s, columns, false, false).Some? ==> Outdented(s, columns, false, false).value.indent == s.indent - columns
  {
    if Outdented(s, columns, false, false).Some? { OutdentedMeans(s, columns, false, false); }
  }

  /** An error ends the run. */
  lemma {:induction false} Stuck(events: seq<Event>, k: nat)
    requires k <= |events| && Run(events[..k]).None?
    ensures Lex(events).None?
    decreases |events| - k
  {
    if k < |events| {
      assert Init(events[..k + 1]) == events[..k];
      Stuck(events, k + 1);
    } else {
      assert events[..k] == events;
    }
  }

  lemma {:induction false} StuckPart(parts: seq<Part>, k: nat)
    requires k <= |parts| && Pieces(parts[..k]).None?
    ensures Pieces(parts).None?
    decreases |parts| - k
  {
    if k < |parts| {
      assert Init(parts[..k + 1]) == parts[..k];
      StuckPart(parts, k + 1);
    } else {
      assert parts[..k] == parts;
    }
  }
}
