/** Tokens that open and close, and what it means that they are properly nested. */
module Nesting {
  import opened JsArray

  datatype Bracket = Paren | Brace | Square

  /** The tag that has to come after an opening token. */
  datatype Closer = Closing(b: Bracket) | OUTDENT

  /** A bracket is `made` when it stands for nothing in the text, as an empty string and a plus sign around the code in
      a string do; a reserved word can be the name of a property. */
  datatype Token =
    | Indent(n: int)
    | Outdent(n: int)
    | Open(b: Bracket, made: bool)
    | Close(b: Bracket, made: bool)
    | Terminator(semicolon: bool)
    | Backslash
    | EmptyString
    | PlusSign
    | Other(text: string, name: bool)
  {
    /** The closer an opening token asks for. */
    function Opens(): Option<Closer> {
      match this
      case Indent(_) => Some(OUTDENT)
      case Open(b, _) => Some(Closing(b))
      case _ => None
    }

    /** The closer a closing token is. */
    function Closes(): Option<Closer> {
      match this
      case Outdent(_) => Some(OUTDENT)
      case Close(b, _) => Some(Closing(b))
      case _ => None
    }

    /** The text of a token; the numbers of indentation are no text. */
    function Value(): string {
      match this
      case Open(b, _) => (match b case Paren => "(" case Brace => "{" case Square => "[")
      case Close(b, _) => (match b case Paren => ")" case Brace => "}" case Square => "]")
      case Terminator(semicolon) => if semicolon then ";" else "\n"
      case Backslash => "\\"
      case EmptyString => "\"\""
      case PlusSign => "+"
      case Other(text, _) => text
      case _ => ""
    }
  }

  /** The closers still open after a token; None when it closes something else than the last one opened. */
  function Step(open: seq<Closer>, t: Token): Option<seq<Closer>> {
    if t.Opens().Some? then Some(open + [t.Opens().value])
    else if t.Closes().Some? then
      if open != [] && open[|open| - 1] == t.Closes().value then Some(open[..|open| - 1]) else None
    else Some(open)
  }

  /** ... after a run of tokens. */
  function Nest(open: seq<Closer>, ts: seq<Token>): Option<seq<Closer>>
    decreases |ts|
  {
    if ts == [] then Some(open)
    else match Nest(open, ts[..|ts| - 1])
      case None => None
      case Some(now) => Step(now, ts[|ts| - 1])
  }

  predicate ProperlyNested(ts: seq<Token>) {
    Nest([], ts) == Some([])
  }

  lemma NestPush(open: seq<Closer>, ts: seq<Token>, t: Token)
    requires Nest(open, ts).Some?
    ensures Nest(open, ts + [t]) == Step(Nest(open, ts).value, t)
  {
    assert (ts + [t])[..|ts + [t]| - 1] == ts;
  }

  lemma {:induction false} NestAppend(open: seq<Closer>, a: seq<Token>, b: seq<Token>)
    requires Nest(open, a).Some?
    ensures Nest(open, a + b) == Nest(Nest(open, a).value, b)
    decreases |b|
  {
    if b == [] {
      assert a + b == a;
    } else {
      NestAppend(open, a, b[..|b| - 1]);
      assert (a + b)[..|a + b| - 1] == a + b[..|b| - 1];
    }
  }

  /** What is open below does not matter to a properly nested run. */
  lemma {:induction false} NestAbove(below: seq<Closer>, open: seq<Closer>, ts: seq<Token>)
    requires Nest(open, ts).Some?
    ensures Nest(below + open, ts) == Some(below + Nest(open, ts).value)
    decreases |ts|
  {
    if ts != [] {
      NestAbove(below, open, ts[..|ts| - 1]);
      var now := Nest(open, ts[..|ts| - 1]).value;
      var t := ts[|ts| - 1];
      if t.Opens().Some? {
        assert below + (now + [t.Opens().value]) == (below + now) + [t.Opens().value];
      } else if t.Closes().Some? {
        assert (below + now)[..|below + now| - 1] == below + now[..|now| - 1];
      }
    }
  }

  // ---------------------------------------------------------------- what properly nested means

  /** Tokens as a tree: single tokens, and groups between an opening token and the closing one for it. */
  datatype Forest =
    | Nil
    | Leaf(t: Token, rest: Forest)
    | Group(open: Token, inner: Forest, close: Token, rest: Forest)
  {
    predicate Matched() {
      match this
      case Nil => true
      case Leaf(t, rest) => t.Opens().None? && t.Closes().None? && rest.Matched()
      case Group(o, inner, c, rest) => o.Opens().Some? && o.Opens() == c.Closes() && c.Opens().None? && inner.Matched() && rest.Matched()
    }

    function Flatten(): seq<Token> {
      match this
      case Nil => []
      case Leaf(t, rest) => [t] + rest.Flatten()
      case Group(o, inner, c, rest) => [o] + inner.Flatten() + [c] + rest.Flatten()
    }

    function Then(after: Forest): Forest {
      match this
      case Nil => after
      case Leaf(t, rest) => Leaf(t, rest.Then(after))
      case Group(o, inner, c, rest) => Group(o, inner, c, rest.Then(after))
    }
  }

  lemma {:induction false} ThenFlattens(f: Forest, g: Forest)
    requires f.Matched() && g.Matched()
    ensures f.Then(g).Matched() && f.Then(g).Flatten() == f.Flatten() + g.Flatten()
  {
    match f
    case Nil =>
    case Leaf(t, rest) =>
      ThenFlattens(rest, g);
      JoinFlat([t], rest.Flatten(), g.Flatten());
    case Group(o, inner, c, rest) =>
      ThenFlattens(rest, g);
      JoinFlat([o] + inner.Flatten() + [c], rest.Flatten(), g.Flatten());
  }

  lemma JoinFlat(a: seq<Token>, b: seq<Token>, c: seq<Token>)
    ensures a + (b + c) == a + b + c
  {
  }

  /** A run of tokens that leaves `open` on top of what was open: the trees between the openers left. */
  ghost predicate Splits(ts: seq<Token>, open: seq<Closer>, parts: seq<Forest>, openers: seq<Token>) {
    && |parts| == |open| + 1 && |openers| == |open|
    && (forall k :: 0 <= k < |parts| ==> parts[k].Matched())
    && (forall k :: 0 <= k < |open| ==> openers[k].Opens() == Some(open[k]))
    && ts == Interleave(parts, openers)
  }

  function Interleave(parts: seq<Forest>, openers: seq<Token>): seq<Token>
    requires |parts| == |openers| + 1
  {
    if openers == [] then parts[0].Flatten()
    else Interleave(parts[..|parts| - 1], openers[..|openers| - 1]) + [openers[|openers| - 1]] + parts[|parts| - 1].Flatten()
  }

  /** Every run that can be nested is trees with the openers still open between them. */
  lemma {:induction false} NestSplits(ts: seq<Token>) returns (parts: seq<Forest>, openers: seq<Token>)
    requires Nest([], ts).Some?
    ensures Splits(ts, Nest([], ts).value, parts, openers)
    decreases |ts|
  {
    hide Splits, Interleave, Nest;
    if ts == [] {
      NoneSplit();
      return [Nil], [];
    }
    NestLast(ts);
    var init, t := ts[..|ts| - 1], ts[|ts| - 1];
    var open := Nest([], init).value;
    parts, openers := NestSplits(init);
    SplitsShape(init, open, parts, openers);
    var n := |openers|;
    if t.Opens().Some? {
      OpenSplits(init, open, parts, openers, t);
      parts, openers := parts + [Nil], openers + [t];
    } else if t.Closes().Some? {
      CloseSplits(init, open, parts, openers, t);
      parts, openers := parts[..n - 1] + [parts[n - 1].Then(Group(openers[n - 1], parts[n], t, Nil))], openers[..n - 1];
    } else {
      LeafSplits(init, open, parts, openers, t);
      parts := parts[..n] + [parts[n].Then(Leaf(t, Nil))];
    }
    assert init + [t] == ts;
  }

  lemma NoneSplit()
    ensures Nest([], []) == Some([]) && Splits([], [], [Nil], [])
  {
  }

  lemma NestLast(ts: seq<Token>)
    requires ts != [] && Nest([], ts).Some?
    ensures var init, t := ts[..|ts| - 1], ts[|ts| - 1];
            Nest([], init).Some? && Step(Nest([], init).value, t) == Nest([], ts)
  {
  }

  lemma SplitsShape(ts: seq<Token>, open: seq<Closer>, parts: seq<Forest>, openers: seq<Token>)
    requires Splits(ts, open, parts, openers)
    ensures |parts| == |open| + 1 && |openers| == |open|
  {
  }

  lemma OpenSplits(init: seq<Token>, open: seq<Closer>, parts: seq<Forest>, openers: seq<Token>, t: Token)
    requires Splits(init, open, parts, openers) && t.Opens().Some?
    ensures Splits(init + [t], open + [t.Opens().value], parts + [Nil], openers + [t])
  {
    assert (parts + [Nil])[..|parts|] == parts && (openers + [t])[..|openers|] == openers;
  }

  lemma LeafSplits(init: seq<Token>, open: seq<Closer>, parts: seq<Forest>, openers: seq<Token>, t: Token)
    requires Splits(init, open, parts, openers) && t.Opens().None? && t.Closes().None?
    ensures Splits(init + [t], open, parts[..|openers|] + [parts[|openers|].Then(Leaf(t, Nil))], openers)
  {
    var n := |openers|;
    var last := parts[n].Then(Leaf(t, Nil));
    ThenFlattens(parts[n], Leaf(t, Nil));
    assert Leaf(t, Nil).Flatten() == [t];
    LastGrows(parts, openers, last, [t]);
  }

  lemma CloseSplits(init: seq<Token>, open: seq<Closer>, parts: seq<Forest>, openers: seq<Token>, t: Token)
    requires Splits(init, open, parts, openers) && t.Opens().None? && t.Closes().Some?
    requires open != [] && open[|open| - 1] == t.Closes().value
    ensures var n := |openers|;
            Splits(init + [t], open[..n - 1], parts[..n - 1] + [parts[n - 1].Then(Group(openers[n - 1], parts[n], t, Nil))], openers[..n - 1])
  {
    var n := |openers|;
    hide Forest.Flatten, Forest.Matched, Forest.Then;
    var g := Group(openers[n - 1], parts[n], t, Nil);
    OneGroup(openers[n - 1], parts[n], t);
    ThenFlattens(parts[n - 1], g);
    LastGrows(parts[..n], openers[..n - 1], parts[n - 1].Then(g), g.Flatten());
    assert parts[..n][..n - 1] == parts[..n - 1];
    var before := Interleave(parts[..n], openers[..n - 1]);
    JoinFlat(before, [openers[n - 1]] + parts[n].Flatten(), [t]);
    JoinFlat(before, [openers[n - 1]], parts[n].Flatten());
  }

  lemma OneGroup(o: Token, inner: Forest, c: Token)
    requires o.Opens().Some? && o.Opens() == c.Closes() && c.Opens().None? && inner.Matched()
    ensures var g := Group(o, inner, c, Nil); g.Matched() && g.Flatten() == [o] + inner.Flatten() + [c]
  {
  }

  lemma LastGrows(parts: seq<Forest>, openers: seq<Token>, last: Forest, more: seq<Token>)
    requires |parts| == |openers| + 1 && last.Flatten() == parts[|openers|].Flatten() + more
    ensures Interleave(parts[..|openers|] + [last], openers) == Interleave(parts, openers) + more
  {
    hide Forest.Flatten;
    var now := parts[..|openers|] + [last];
    assert now[..|now| - 1] == parts[..|parts| - 1];
    if openers != [] {
      var before := Interleave(parts[..|parts| - 1], openers[..|openers| - 1]) + [openers[|openers| - 1]];
      assert before + (parts[|openers|].Flatten() + more) == before + parts[|openers|].Flatten() + more;
    }
  }

  lemma {:induction false} MatchedNests(f: Forest, open: seq<Closer>)
    requires f.Matched()
    ensures Nest(open, f.Flatten()) == Some(open)
  {
    match f
    case Nil =>
    case Leaf(t, rest) =>
      OneToken(open, t);
      NestAppend(open, [t], rest.Flatten());
      MatchedNests(rest, open);
    case Group(o, inner, c, rest) =>
      var inside := open + [o.Opens().value];
      OneToken(open, o);
      MatchedNests(inner, inside);
      NestAppend(open, [o], inner.Flatten());
      OneToken(inside, c);
      NestAppend(open, [o] + inner.Flatten(), [c]);
      assert inside[..|inside| - 1] == open;
      NestAppend(open, [o] + inner.Flatten() + [c], rest.Flatten());
      MatchedNests(rest, open);
  }

  lemma OneToken(open: seq<Closer>, t: Token)
    ensures Nest(open, [t]) == Step(open, t)
  {
    assert [t][..0] == [];
  }

  /** Properly nested is what it should be: the tokens of a tree whose groups are closed by what they ask for. */
  lemma {:induction false} ProperlyNestedIsTree(ts: seq<Token>)
    ensures ProperlyNested(ts) <==> exists f: Forest :: f.Matched() && f.Flatten() == ts
  {
    if ProperlyNested(ts) {
      var parts, openers := NestSplits(ts);
      assert parts[0].Matched() && parts[0].Flatten() == ts;
    }
    forall f: Forest | f.Matched() && f.Flatten() == ts ensures ProperlyNested(ts) {
      MatchedNests(f, []);
    }
  }
}
