/** Soft wrapping of one line: display tokens, screen widths, the choice of break points, and the
    correspondence between columns of the line and rows and columns on the screen. */
module Wrapping {
  import opened JsArray
  import opened TextModel

  const CHAR := 1
  const CHAR_EXT := 2
  const PLACEHOLDER_START := 3
  const PLACEHOLDER_BODY := 4
  const PUNCTUATION := 9
  const SPACE := 10
  const TAB := 11
  const TAB_SPACE := 12

  type Token = t: nat | t in {1, 2, 9, 10, 11, 12} witness 1

  /** Code points drawn two cells wide. */
  const FULL_WIDTH: seq<(int, int)> := [
    (4352, 4447), (4515, 4519), (4602, 4607), (9001, 9002), (11904, 11929), (11931, 12019), (12032, 12245),
    (12272, 12283), (12288, 12350), (12353, 12438), (12441, 12543), (12549, 12589), (12593, 12686), (12688, 12730),
    (12736, 12771), (12784, 12830), (12832, 12871), (12880, 13054), (13056, 19903), (19968, 42124), (42128, 42182),
    (43360, 43388), (44032, 55203), (55216, 55238), (55243, 55291), (63744, 64255), (65040, 65049), (65072, 65106),
    (65108, 65126), (65128, 65131), (65281, 65376), (65504, 65510)]

  predicate IsFullWidth(u: Unit) {
    exists k | 0 <= k < |FULL_WIDTH| :: FULL_WIDTH[k].0 <= u <= FULL_WIDTH[k].1
  }

  /** Cells from a screen column to the next tab stop. */
  function ScreenTabSize(column: nat, tab: nat): (r: nat)
    requires tab >= 1
    ensures 1 <= r <= tab && (column + r) % tab == 0
  {
    TabStop(column, tab);
    tab - column % tab
  }

  lemma TabStop(column: nat, tab: nat)
    requires tab >= 1
    ensures (column + (tab - column % tab)) % tab == 0
  {
    var q := column / tab;
    var stop := column + (tab - column % tab);
    assert stop == (q + 1) * tab;
    var q', r' := stop / tab, stop % tab;
    assert stop == q' * tab + r';
    assert (q + 1 - q') * tab == r';
    if q + 1 - q' >= 1 { AtLeast(q + 1 - q', tab); }
    if q + 1 - q' <= -1 { AtLeast(q' - q - 1, tab); }
  }

  lemma AtLeast(x: int, y: nat)
    requires x >= 1
    ensures x * y >= y
  {
  }

  function CharWidth(u: Unit, column: nat, tab: nat): (w: nat)
    requires tab >= 1
    ensures w >= 1
  {
    if u == 9 then ScreenTabSize(column, tab) else if IsFullWidth(u) then 2 else 1
  }

  function CharTokens(u: Unit, column: nat, tab: nat): (r: seq<Token>)
    requires tab >= 1
    ensures |r| == CharWidth(u, column, tab)
  {
    if u == 9 then [TAB] + seq(ScreenTabSize(column, tab) - 1, _ => TAB_SPACE)
    else if u == 32 then NotWide(u); [SPACE]
    else if 39 < u < 48 || 57 < u < 64 then NotWide(u); [PUNCTUATION]
    else if IsFullWidth(u) then [CHAR, CHAR_EXT]
    else [CHAR]
  }

  /** A character begins with a token of its kind, and goes on with tokens that begin none. */
  lemma CharKinds(u: Unit, column: nat, tab: nat)
    requires tab >= 1
    ensures var r := CharTokens(u, column, tab);
            && (r[0] >= SPACE <==> u == 32 || u == 9)
            && (r[0] == PUNCTUATION <==> 39 < u < 48 || 57 < u < 64)
            && (forall k :: 1 <= k < |r| ==> r[k] == if u == 9 then TAB_SPACE else CHAR_EXT)
            && (|r| == 2 && u != 9 <==> IsFullWidth(u) && u != 9)
  {
    if u < 4352 { NotWide(u); }
  }

  lemma NotWide(u: Unit)
    requires u < 4352
    ensures !IsFullWidth(u)
  {
  }

  /** Screen column after the first n characters of a line that starts in column `start`. */
  function Width(line: Text, n: nat, start: nat, tab: nat): (w: nat)
    requires n <= |line| && tab >= 1
    ensures w >= start + n
  {
    if n == 0 then start
    else var w := Width(line, n - 1, start, tab); w + CharWidth(line[n - 1], w, tab)
  }

  /** The display tokens of the first n characters. */
  function Tokens(line: Text, n: nat, start: nat, tab: nat): (r: seq<Token>)
    requires n <= |line| && tab >= 1
    ensures start + |r| == Width(line, n, start, tab)
  {
    if n == 0 then []
    else var r := Tokens(line, n - 1, start, tab); r + CharTokens(line[n - 1], start + |r|, tab)
  }

  /** Number of tokens that begin a character. */
  function Columns(tokens: seq<Token>): nat {
    if tokens == [] then 0
    else Columns(tokens[..|tokens| - 1]) + (if tokens[|tokens| - 1] in {CHAR_EXT, TAB_SPACE} then 0 else 1)
  }

  lemma {:induction false} ColumnsAppend(a: seq<Token>, b: seq<Token>)
    ensures Columns(a + b) == Columns(a) + Columns(b)
  {
    if b == [] {
      assert a + b == a;
    } else {
      ColumnsAppend(a, b[..|b| - 1]);
      assert (a + b)[..|a + b| - 1] == a + b[..|b| - 1];
    }
  }

  lemma {:induction false} ColumnsOfChar(u: Unit, column: nat, tab: nat, k: nat)
    requires tab >= 1 && 1 <= k <= CharWidth(u, column, tab)
    ensures Columns(CharTokens(u, column, tab)[..k]) == 1
  {
    var ts := CharTokens(u, column, tab);
    if k == 1 {
      assert ts[..1][..0] == [] && ts[..1] == [ts[0]];
    } else {
      ColumnsOfChar(u, column, tab, k - 1);
      assert ts[..k][..k - 1] == ts[..k - 1];
    }
  }

  /** Every character has exactly one token that begins it, so token counts turn into columns: a cut
      after e tokens lies after the first token of its last column's character, and not beyond it. */
  lemma {:induction false} TokenCut(line: Text, n: nat, tab: nat, e: nat) returns (column: nat)
    requires n <= |line| && tab >= 1 && 1 <= e <= |Tokens(line, n, 0, tab)|
    ensures column == Columns(Tokens(line, n, 0, tab)[..e])
    ensures 1 <= column <= n
    ensures |Tokens(line, column - 1, 0, tab)| < e <= |Tokens(line, column, 0, tab)|
  {
    hide CharTokens, CharWidth, Width;
    var before := Tokens(line, n - 1, 0, tab);
    var last := CharTokens(line[n - 1], |before|, tab);
    if e <= |before| {
      column := TokenCut(line, n - 1, tab, e);
      assert (before + last)[..e] == before[..e];
    } else {
      column := n;
      ColumnsOfChar(line[n - 1], |before|, tab, e - |before|);
      ColumnsAppend(before, last[..e - |before|]);
      assert (before + last)[..e] == before + last[..e - |before|];
      AllColumns(line, n - 1, tab);
    }
  }

  lemma {:induction false} AllColumns(line: Text, n: nat, tab: nat)
    requires n <= |line| && tab >= 1
    ensures Columns(Tokens(line, n, 0, tab)) == n
  {
    hide CharTokens, CharWidth, Width;
    if n > 0 {
      var before := Tokens(line, n - 1, 0, tab);
      var last := CharTokens(line[n - 1], |before|, tab);
      AllColumns(line, n - 1, tab);
      ColumnsAppend(before, last);
      ColumnsOfChar(line[n - 1], |before|, tab, |last|);
      assert last[..|last|] == last;
    }
  }

  method PushTab(tokens: seq<Token>, size: nat) returns (r: seq<Token>)
    requires size >= 1
    ensures r == tokens + ([TAB] + seq(size - 1, _ => TAB_SPACE))
  {
    r := tokens + [TAB];
    for a := 1 to size
      invariant r == tokens + ([TAB] + seq(a - 1, _ => TAB_SPACE))
    {
      r := r + [TAB_SPACE];
    }
  }

  /** `$getDisplayTokens` */
  method GetDisplayTokens(line: Text, offset: nat, tab: nat) returns (tokens: seq<Token>)
    requires tab >= 1
    ensures tokens == Tokens(line, |line|, offset, tab)
  {
    hide IsFullWidth, Width, CharTokens;
    tokens := [];
    for k := 0 to |line|
      invariant tokens == Tokens(line, k, offset, tab)
    {
      tokens := PushChar(tokens, line[k], offset + |tokens|, tab);
    }
  }

  method PushChar(tokens: seq<Token>, u: Unit, column: nat, tab: nat) returns (r: seq<Token>)
    requires tab >= 1
    ensures r == tokens + CharTokens(u, column, tab)
  {
    hide IsFullWidth, ScreenTabSize;
    if u == 9 {
      r := PushTab(tokens, ScreenTabSize(column, tab));
    } else if u == 32 {
      r := tokens + [SPACE];
    } else if (u > 39 && u < 48) || (u > 57 && u < 64) {
      r := tokens + [PUNCTUATION];
    } else if u >= 4352 && IsFullWidth(u) {
      r := tokens + [CHAR, CHAR_EXT];
    } else {
      if u < 4352 { NotWide(u); }
      r := tokens + [CHAR];
    }
  }

  // ---------------------------------------------------------------- widths

  /** How many characters fit into `max` screen columns. */
  function Fit(line: Text, max: nat, tab: nat): (n: nat)
    requires tab >= 1
    ensures n <= |line| && Width(line, n, 0, tab) <= max
    ensures n < |line| ==> Width(line, n + 1, 0, tab) > max
  {
    FitFrom(line, max, tab, 0)
  }

  function FitFrom(line: Text, max: nat, tab: nat, k: nat): (n: nat)
    requires tab >= 1 && k <= |line| && Width(line, k, 0, tab) <= max
    ensures k <= n <= |line| && Width(line, n, 0, tab) <= max
    ensures n < |line| ==> Width(line, n + 1, 0, tab) > max
    decreases |line| - k
  {
    if k < |line| && Width(line, k + 1, 0, tab) <= max then FitFrom(line, max, tab, k + 1) else k
  }

  lemma {:induction false} WidthMonotone(line: Text, i: nat, j: nat, tab: nat)
    requires tab >= 1 && i <= j <= |line|
    ensures Width(line, i, 0, tab) + (j - i) <= Width(line, j, 0, tab)
  {
    if i < j { WidthMonotone(line, i, j - 1, tab); }
  }

  /** Measuring a prefix and fitting it back are inverse, whatever tabs and wide characters it holds. */
  lemma {:induction false} FitWidth(line: Text, n: nat, tab: nat)
    requires tab >= 1 && n <= |line|
    ensures Fit(line, Width(line, n, 0, tab), tab) == n
  {
    var m := Fit(line, Width(line, n, 0, tab), tab);
    if m < n { WidthMonotone(line, m + 1, n, tab); }
    if n < m { WidthMonotone(line, n, m, tab); }
  }

  lemma {:induction false} WidthPrefix(line: Text, k: nat, n: nat, tab: nat)
    requires tab >= 1 && n <= k <= |line|
    ensures Width(line[..k], n, 0, tab) == Width(line, n, 0, tab)
  {
    if n > 0 { WidthPrefix(line, k, n - 1, tab); }
  }

  /** `$getStringScreenWidth`: the width reached (past `max` by the character that overflowed it), and
      the number of characters that fit. */
  method GetStringScreenWidth(line: Text, max: Option<nat>, tab: nat) returns (width: nat, count: nat)
    requires tab >= 1
    ensures max == None ==> count == |line| && width == Width(line, |line|, 0, tab)
    ensures max.Some? ==> count == Fit(line, max.value, tab)
    ensures max.Some? && max.value > 0 ==> width == Width(line, Min(count + 1, |line|), 0, tab)
    ensures max == Some(0) ==> width == 0
  {
    if max == Some(0) { return 0, 0; }
    width, count := 0, 0;
    while count < |line|
      invariant count <= |line| && width == Width(line, count, 0, tab)
      invariant max.Some? ==> width <= max.value
      decreases |line| - count
    {
      var u := line[count];
      if u == 9 {
        width := width + ScreenTabSize(width, tab);
      } else if u >= 4352 && IsFullWidth(u) {
        width := width + 2;
      } else {
        if u < 4352 { NotWide(u); }
        width := width + 1;
      }
      if max.Some? && width > max.value {
        FitUnique(line, max.value, tab, count);
        return;
      }
      count := count + 1;
    }
    if max.Some? { FitUnique(line, max.value, tab, count); }
  }

  lemma {:induction false} FitUnique(line: Text, max: nat, tab: nat, n: nat)
    requires tab >= 1 && n <= |line| && Width(line, n, 0, tab) <= max
    requires n < |line| ==> Width(line, n + 1, 0, tab) > max
    ensures Fit(line, max, tab) == n
  {
    var m := Fit(line, max, tab);
    if m < n { WidthMonotone(line, m + 1, n, tab); }
    if n < m { WidthMonotone(line, n + 1, m, tab); }
  }

  // ---------------------------------------------------------------- counting columns by digits

  function Digits(t: Token): string {
    if t == 1 then "1" else if t == 2 then "2" else if t == 9 then "9"
    else if t == 10 then "10" else if t == 11 then "11" else "12"
  }

  /** `tokens.join("")` */
  function JoinDigits(tokens: seq<Token>): string {
    if tokens == [] then "" else JoinDigits(tokens[..|tokens| - 1]) + Digits(tokens[|tokens| - 1])
  }

  /** `s.replace(/12/g, ...)` with a callback that returns nothing: the matches found, and the text left,
      in which each match has become "undefined". */
  function Replace12(s: string): (nat, string) {
    if s == "" then (0, "")
    else if |s| >= 2 && s[0] == '1' && s[1] == '2' then
      var r := Replace12(s[2..]); (r.0 + 1, "undefined" + r.1)
    else
      var r := Replace12(s[1..]); (r.0, [s[0]] + r.1)
  }

  /** Matches of `/2/g`. */
  function Twos(s: string): nat {
    if s == "" then 0 else (if s[0] == '2' then 1 else 0) + Twos(s[1..])
  }

  lemma {:induction false} TwosAppend(a: string, b: string)
    ensures Twos(a + b) == Twos(a) + Twos(b)
  {
    if a == "" {
      assert a + b == b;
    } else {
      TwosAppend(a[1..], b);
      assert (a + b)[1..] == a[1..] + b;
    }
  }

  /** The two replacements together find every digit 2 once, however the digits of neighbouring
      tokens run together. */
  lemma {:induction false} ReplacementsFindTwos(s: string)
    ensures Replace12(s).0 + Twos(Replace12(s).1) == Twos(s)
  {
    if s == "" {
    } else if |s| >= 2 && s[0] == '1' && s[1] == '2' {
      ReplacementsFindTwos(s[2..]);
      var r := Replace12(s[2..]);
      TwosAppend("undefined", r.1);
      NoTwos();
      assert s[1..][1..] == s[2..];
    } else {
      ReplacementsFindTwos(s[1..]);
      var r := Replace12(s[1..]);
      assert ([s[0]] + r.1)[1..] == r.1;
    }
  }

  lemma NoTwos()
    ensures Twos("undefined") == 0
  {
    assert "undefined" == "und" + "efi" + "ned";
    TwosAppend("und" + "efi", "ned");
    TwosAppend("und", "efi");
    NoTwo('u', 'n', 'd');
    NoTwo('e', 'f', 'i');
    NoTwo('n', 'e', 'd');
  }

  lemma NoTwo(a: char, b: char, c: char)
    requires '2' !in {a, b, c}
    ensures Twos([a, b, c]) == 0
  {
    assert [c][1..] == [] && Twos([c]) == 0;
    assert [b, c][1..] == [c] && Twos([b, c]) == 0;
    assert [a, b, c][1..] == [b, c];
  }

  lemma TwosInToken(t: Token)
    ensures Twos(Digits(t)) == if t in {CHAR_EXT, TAB_SPACE} then 1 else 0
  {
    assert "12"[1..] == "2" && "10"[1..] == "0" && "11"[1..] == "1";
  }

  lemma {:induction false} TwosAreExtensions(tokens: seq<Token>)
    ensures Twos(JoinDigits(tokens)) == |tokens| - Columns(tokens)
  {
    if tokens != [] {
      var last := tokens[|tokens| - 1];
      TwosAreExtensions(tokens[..|tokens| - 1]);
      TwosAppend(JoinDigits(tokens[..|tokens| - 1]), Digits(last));
      TwosInToken(last);
      hide Twos, Digits;
    }
  }

  /** The document columns of a chunk of tokens, counted as the source does. */
  method ChunkColumns(chunk: seq<Token>) returns (columns: nat)
    ensures columns == Columns(chunk)
  {
    var joined := JoinDigits(chunk);
    var replaced := Replace12(joined);
    ReplacementsFindTwos(joined);
    TwosAreExtensions(chunk);
    columns := |chunk| - replaced.0 - Twos(replaced.1);
  }

  // ---------------------------------------------------------------- break points

  datatype Skip = Chars | Punctuation | NotSpace

  predicate Skips(kind: Skip, t: Token) {
    match kind
    case Chars => t < PLACEHOLDER_START
    case Punctuation => t == PUNCTUATION
    case NotSpace => t < SPACE
  }

  /** `while (f > c && ...) f--` */
  function ScanBack(tokens: seq<Token>, f: int, c: int, kind: Skip): (r: int)
    requires -1 <= c <= f < |tokens|
    ensures c <= r <= f
    ensures r > c ==> !Skips(kind, tokens[r])
    ensures forall x :: r < x <= f ==> Skips(kind, tokens[x])
    decreases f - c
  {
    if f > c && Skips(kind, tokens[f]) then ScanBack(tokens, f - 1, c, kind) else f
  }

  /** The end of the chunk that begins at token i, when the rest is longer than the limit: right at the
      limit between two blanks; else after the last break opportunity in a window before the limit
      (a blank, or for code a blank or what precedes the trailing punctuation); else at the limit. */
  function ChunkEnd(tokens: seq<Token>, limit: nat, asCode: bool, i: nat): (e: nat)
    requires limit >= 1 && i + limit < |tokens|
    ensures i < e <= i + limit + 1 && e <= |tokens|
  {
    var f := i + limit;
    if tokens[f - 1] >= SPACE && tokens[f] >= SPACE then f
    else
      var c := Max(f - (if asCode then 10 else limit - limit / 4), i - 1);
      var b := BreakAt(tokens, f, c, asCode);
      if b > c then b + 1 else f
  }

  /** The last break opportunity from f back to c. */
  function BreakAt(tokens: seq<Token>, f: int, c: int, asCode: bool): (b: int)
    requires -1 <= c <= f < |tokens|
    ensures c <= b <= f
  {
    var b := ScanBack(tokens, f, c, Chars);
    if asCode then ScanBack(tokens, b, c, Punctuation) else ScanBack(tokens, b, c, NotSpace)
  }

  // ---------------------------------------------------------------- where a chunk ends

  /** Where looking back from the limit stops: behind a quarter of the limit, or ten tokens for code, and not before the chunk. */
  function WindowStart(limit: nat, asCode: bool, i: nat): int {
    Max(i + limit - (if asCode then 10 else limit - limit / 4), i - 1)
  }

  predicate NoneAbove(tokens: seq<Token>, t: nat, from: int, to: int)
    requires -1 <= from && to < |tokens|
  {
    forall x :: from < x <= to ==> tokens[x] < t
  }

  /** Text ends right behind the last blank of the window, or at the limit when it holds none. */
  ghost predicate TextBreak(tokens: seq<Token>, f: int, c: int, e: nat)
    requires -1 <= c <= f < |tokens|
  {
    if NoneAbove(tokens, SPACE, c, f) then e == f
    else exists b :: c < b <= f && tokens[b] >= SPACE && NoneAbove(tokens, SPACE, b, f) && e == b + 1
  }

  /** Code ends right behind the last blank of the window if no punctuation comes after it; else in front of the last run of
      punctuation, if that begins inside the window; else at the limit. */
  ghost predicate CodeBreak(tokens: seq<Token>, f: int, c: int, e: nat)
    requires -1 <= c <= f < |tokens|
  {
    if NoneAbove(tokens, PUNCTUATION, c, f) then e == f
    else
      exists b :: c < b <= f && tokens[b] >= PUNCTUATION && NoneAbove(tokens, PUNCTUATION, b, f) &&
        if tokens[b] >= SPACE then e == b + 1 else PunctuationBreak(tokens, f, c, b, e)
  }

  ghost predicate PunctuationBreak(tokens: seq<Token>, f: int, c: int, b: int, e: nat)
    requires -1 <= c < b <= f < |tokens|
  {
    if forall x :: c < x <= b ==> tokens[x] == PUNCTUATION then e == f
    else c + 1 < e <= b && tokens[e - 1] != PUNCTUATION && forall x :: e <= x <= b ==> tokens[x] == PUNCTUATION
  }

  /** Where a chunk that begins at token i ends: at the limit between two blanks, else at a break opportunity. */
  ghost predicate Breaks(tokens: seq<Token>, limit: nat, asCode: bool, i: nat, e: nat)
    requires limit >= 1 && i + limit < |tokens|
  {
    var f, c := i + limit, WindowStart(limit, asCode, i);
    if tokens[f - 1] >= SPACE && tokens[f] >= SPACE then e == f
    else if asCode then CodeBreak(tokens, f, c, e) else TextBreak(tokens, f, c, e)
  }

  /** The end computed by looking back is that one, and the only one. */
  lemma ChunkBreaks(tokens: seq<Token>, limit: nat, asCode: bool, i: nat, e: nat)
    requires limit >= 1 && i + limit < |tokens|
    ensures Breaks(tokens, limit, asCode, i, e) <==> e == ChunkEnd(tokens, limit, asCode, i)
  {
    hide TextBreak, CodeBreak, BreakAt;
    var f, c := i + limit, WindowStart(limit, asCode, i);
    if tokens[f - 1] >= SPACE && tokens[f] >= SPACE {
    } else if asCode {
      CodeBreaks(tokens, f, c, e);
    } else {
      TextBreaks(tokens, f, c, e);
    }
  }

  lemma TextBreaks(tokens: seq<Token>, f: int, c: int, e: nat)
    requires -1 <= c <= f < |tokens|
    ensures var b := BreakAt(tokens, f, c, false);
            TextBreak(tokens, f, c, e) <==> e == if b > c then b + 1 else f
  {
    hide ScanBack;
    var a := ScanBack(tokens, f, c, Chars);
    var b := ScanBack(tokens, a, c, NotSpace);
    assert forall x :: b < x <= f ==> tokens[x] < SPACE;
    if b > c { assert tokens[b] >= SPACE; }
  }

  lemma CodeBreaks(tokens: seq<Token>, f: int, c: int, e: nat)
    requires -1 <= c <= f < |tokens|
    ensures var b := BreakAt(tokens, f, c, true);
            CodeBreak(tokens, f, c, e) <==> e == if b > c then b + 1 else f
  {
    hide ScanBack, PunctuationBreak;
    var a := ScanBack(tokens, f, c, Chars);
    var b := ScanBack(tokens, a, c, Punctuation);
    assert NoneAbove(tokens, PUNCTUATION, a, f);
    if a > c {
      assert tokens[a] >= PUNCTUATION;
      assert forall x :: c < x <= f && tokens[x] >= PUNCTUATION && NoneAbove(tokens, PUNCTUATION, x, f) ==> x == a;
      if tokens[a] == PUNCTUATION { PunctuationBreaks(tokens, f, c, a, e); }
    }
  }

  lemma PunctuationBreaks(tokens: seq<Token>, f: int, c: int, a: int, e: nat)
    requires -1 <= c < a <= f < |tokens| && tokens[a] == PUNCTUATION
    ensures var b := ScanBack(tokens, a, c, Punctuation);
            PunctuationBreak(tokens, f, c, a, e) <==> e == if b > c then b + 1 else f
  {
    hide ScanBack;
    var b := ScanBack(tokens, a, c, Punctuation);
    if b > c {
      assert tokens[b] != PUNCTUATION && forall x :: b < x <= a ==> tokens[x] == PUNCTUATION;
      assert PunctuationBreak(tokens, f, c, a, e) ==> c + 1 < e <= a;
      assert c + 1 < e <= b ==> tokens[b] != PUNCTUATION;
      assert b < e - 1 <= a ==> tokens[e - 1] == PUNCTUATION;
    }
  }

  /** Chunk after chunk from token i on, each ends where it should, and the rest is no longer than the limit. */
  ghost predicate WellBroken(tokens: seq<Token>, limit: nat, asCode: bool, i: nat, ends: seq<nat>)
    requires limit >= 1
  {
    && Chunked(tokens, limit, i, ends)
    && forall k :: 0 <= k < |ends| ==>
         ChunkStart(ends, i, k) + limit < |tokens| && Breaks(tokens, limit, asCode, ChunkStart(ends, i, k), ends[k])
  }

  /** The splits are the columns in front of such ends. */
  ghost predicate WellSplit(tokens: seq<Token>, limit: nat, asCode: bool, splits: seq<nat>)
    requires limit >= 1
  {
    exists ends :: WellBroken(tokens, limit, asCode, 0, ends) && |ends| == |splits| &&
      forall k :: 0 <= k < |ends| ==> splits[k] == Columns(tokens[..ends[k]])
  }

  lemma {:induction false} ChunksBreak(tokens: seq<Token>, limit: nat, asCode: bool, i: nat)
    requires limit >= 1 && i <= |tokens|
    ensures WellBroken(tokens, limit, asCode, i, ChunkEnds(tokens, limit, asCode, i))
    decreases |tokens| - i
  {
    hide ChunkEnd, Breaks, Chunked;
    ChunkBounds(tokens, limit, asCode, i);
    if |tokens| - i > limit {
      var e := ChunkEnd(tokens, limit, asCode, i);
      ChunkBreaks(tokens, limit, asCode, i, e);
      ChunksBreak(tokens, limit, asCode, e);
      var rest := ChunkEnds(tokens, limit, asCode, e);
      var ends := ChunkEnds(tokens, limit, asCode, i);
      assert ends == [e] + rest;
      forall k | 0 <= k < |ends|
        ensures ChunkStart(ends, i, k) + limit < |tokens| && Breaks(tokens, limit, asCode, ChunkStart(ends, i, k), ends[k])
      {
        if k > 0 { assert ends[k] == rest[k - 1] && ChunkStart(ends, i, k) == ChunkStart(rest, e, k - 1); }
      }
    }
  }

  lemma WrapsWell(tokens: seq<Token>, limit: nat, asCode: bool)
    requires limit >= 1
    ensures WellSplit(tokens, limit, asCode, WrapSplits(tokens, limit, asCode, 0))
  {
    hide ChunkEnds, WellBroken, WrapSplits;
    ChunksBreak(tokens, limit, asCode, 0);
    SplitsAtEnds(tokens, limit, asCode, 0);
  }

  function ChunkEnds(tokens: seq<Token>, limit: nat, asCode: bool, i: nat): (ends: seq<nat>)
    requires limit >= 1 && i <= |tokens|
    ensures forall k :: 0 <= k < |ends| ==> ends[k] <= |tokens|
    decreases |tokens| - i
  {
    if |tokens| - i <= limit then []
    else var e := ChunkEnd(tokens, limit, asCode, i); [e] + ChunkEnds(tokens, limit, asCode, e)
  }

  /** The document columns in front of each chunk end. */
  function ColumnsAt(tokens: seq<Token>, ends: seq<nat>): seq<nat>
    requires forall k :: 0 <= k < |ends| ==> ends[k] <= |tokens|
  {
    seq(|ends|, k requires 0 <= k < |ends| && ends[k] <= |tokens| => Columns(tokens[..ends[k]]))
  }

  /** The ends cut the tokens from i on into chunks of 1 to limit + 1 tokens and a rest of at most limit. */
  predicate Chunked(tokens: seq<Token>, limit: nat, i: nat, ends: seq<nat>) {
    && (forall k :: 0 <= k < |ends| ==> ends[k] <= |tokens|)
    && (forall k :: 0 <= k < |ends| ==> ChunkStart(ends, i, k) < ends[k] <= ChunkStart(ends, i, k) + limit + 1)
    && |tokens| - ChunkStart(ends, i, |ends|) <= limit
  }

  function ChunkStart(ends: seq<nat>, i: nat, k: nat): nat
    requires k <= |ends|
  {
    if k == 0 then i else ends[k - 1]
  }

  lemma {:induction false} ChunkBounds(tokens: seq<Token>, limit: nat, asCode: bool, i: nat)
    requires limit >= 1 && i <= |tokens|
    ensures Chunked(tokens, limit, i, ChunkEnds(tokens, limit, asCode, i))
    decreases |tokens| - i
  {
    if |tokens| - i > limit {
      var e := ChunkEnd(tokens, limit, asCode, i);
      ChunkBounds(tokens, limit, asCode, e);
      var rest := ChunkEnds(tokens, limit, asCode, e);
      var ends := ChunkEnds(tokens, limit, asCode, i);
      assert ends == [e] + rest;
      assert ChunkStart(ends, i, |ends|) == ChunkStart(rest, e, |rest|);
      forall k | 0 <= k < |ends|
        ensures ChunkStart(ends, i, k) < ends[k] <= ChunkStart(ends, i, k) + limit + 1 && ends[k] <= |tokens|
      {
        if k > 0 {
          assert ends[k] == rest[k - 1];
          assert ChunkStart(ends, i, k) == ChunkStart(rest, e, k - 1);
        }
      }
    }
  }

  /** The recorded splits of the chunks from token i on: the document columns in front of each end. */
  function WrapSplits(tokens: seq<Token>, limit: nat, asCode: bool, i: nat): seq<nat>
    requires limit >= 1 && i <= |tokens|
    decreases |tokens| - i
  {
    if |tokens| - i <= limit then []
    else
      var e := ChunkEnd(tokens, limit, asCode, i);
      [Columns(tokens[..e])] + WrapSplits(tokens, limit, asCode, e)
  }

  lemma {:induction false} SplitsAtEnds(tokens: seq<Token>, limit: nat, asCode: bool, i: nat)
    requires limit >= 1 && i <= |tokens|
    ensures WrapSplits(tokens, limit, asCode, i) == ColumnsAt(tokens, ChunkEnds(tokens, limit, asCode, i))
    decreases |tokens| - i
  {
    hide Columns, ChunkEnd, ColumnsAt;
    if |tokens| - i > limit {
      var e := ChunkEnd(tokens, limit, asCode, i);
      SplitsAtEnds(tokens, limit, asCode, e);
      ColumnsAtCons(tokens, e, ChunkEnds(tokens, limit, asCode, e));
    } else {
      NoColumns(tokens);
    }
  }

  lemma ColumnsAtCons(tokens: seq<Token>, e: nat, ends: seq<nat>)
    requires e <= |tokens| && (forall k :: 0 <= k < |ends| ==> ends[k] <= |tokens|)
    ensures ColumnsAt(tokens, [e] + ends) == [Columns(tokens[..e])] + ColumnsAt(tokens, ends)
  {
    hide Columns;
  }

  lemma NoColumns(tokens: seq<Token>)
    ensures ColumnsAt(tokens, []) == []
  {
  }

  /** `$computeWrapSplits`, on tokens without fold placeholders. */
  method ComputeWrapSplits(tokens: seq<Token>, limit: nat, asCode: bool) returns (splits: seq<nat>)
    requires limit >= 1
    ensures splits == WrapSplits(tokens, limit, asCode, 0) && WellSplit(tokens, limit, asCode, splits)
  {
    hide ChunkEnd, WellSplit, WrapSplits, Columns, Breaks;
    WrapsWell(tokens, limit, asCode);
    WrapsFrom(tokens, limit, asCode, 0);
    NoColumnsYet(tokens);
    splits := [];
    if |tokens| == 0 { return; }
    var displayLength := |tokens|;
    var lastSplit, lastDocSplit := 0, 0;
    while displayLength - lastSplit > limit
      invariant 0 <= lastSplit <= displayLength
      invariant lastDocSplit == Columns(tokens[..lastSplit])
      invariant splits + WrapSplits(tokens, limit, asCode, lastSplit) == WrapSplits(tokens, limit, asCode, 0)
      decreases displayLength - lastSplit
    {
      var split := NextSplit(tokens, limit, asCode, lastSplit);
      var columns := ChunkColumns(tokens[lastSplit..split]);
      ColumnsSplit(tokens, lastSplit, split);
      WrapsFrom(tokens, limit, asCode, lastSplit);
      lastDocSplit := lastDocSplit + columns;
      splits := splits + [lastDocSplit];
      lastSplit := split;
    }
    WrapsFrom(tokens, limit, asCode, lastSplit);
  }

  lemma WrapsFrom(tokens: seq<Token>, limit: nat, asCode: bool, i: nat)
    requires limit >= 1 && i <= |tokens|
    ensures WrapSplits(tokens, limit, asCode, i) ==
            if |tokens| - i <= limit then []
            else [Columns(tokens[..ChunkEnd(tokens, limit, asCode, i)])] + WrapSplits(tokens, limit, asCode, ChunkEnd(tokens, limit, asCode, i))
  {
    hide ChunkEnd, Columns;
  }

  lemma NoColumnsYet(tokens: seq<Token>)
    ensures Columns(tokens[..0]) == 0
  {
  }

  lemma ColumnsSplit(tokens: seq<Token>, i: nat, j: nat)
    requires i <= j <= |tokens|
    ensures Columns(tokens[..j]) == Columns(tokens[..i]) + Columns(tokens[i..j])
  {
    ColumnsAppend(tokens[..i], tokens[i..j]);
    assert tokens[..i] + tokens[i..j] == tokens[..j];
  }

  method NextSplit(tokens: seq<Token>, limit: nat, asCode: bool, lastSplit: nat) returns (split: nat)
    requires limit >= 1 && lastSplit + limit < |tokens|
    ensures split == ChunkEnd(tokens, limit, asCode, lastSplit) && Breaks(tokens, limit, asCode, lastSplit, split)
  {
    hide Skips, ScanBack, BreakAt, Breaks;
    ChunkBreaks(tokens, limit, asCode, lastSplit, ChunkEnd(tokens, limit, asCode, lastSplit));
    split := lastSplit + limit;
    if tokens[split - 1] >= SPACE && tokens[split] >= SPACE { return; }
    var minSplit := Max(split - (if asCode then 10 else limit - limit / 4), lastSplit - 1);
    var f := BreakBefore(tokens, split, minSplit, asCode);
    if f > minSplit { split := f + 1; }
  }

  method BreakBefore(tokens: seq<Token>, split: int, minSplit: int, asCode: bool) returns (f: int)
    requires -1 <= minSplit <= split < |tokens|
    ensures f == BreakAt(tokens, split, minSplit, asCode)
  {
    hide Skips;
    f := ScanBackLoop(tokens, split, minSplit, Chars);
    if asCode {
      f := ScanBackLoop(tokens, f, minSplit, Chars);
      f := ScanBackLoop(tokens, f, minSplit, Punctuation);
    } else {
      f := ScanBackLoop(tokens, f, minSplit, NotSpace);
    }
  }

  method ScanBackLoop(tokens: seq<Token>, start: int, c: int, kind: Skip) returns (f: int)
    requires -1 <= c <= start < |tokens|
    ensures f == ScanBack(tokens, start, c, kind)
  {
    f := start;
    while f > c && Skips(kind, tokens[f])
      invariant c <= f <= start
      invariant ScanBack(tokens, f, c, kind) == ScanBack(tokens, start, c, kind)
      decreases f - c
    {
      f := f - 1;
    }
  }

  // ---------------------------------------------------------------- splits as columns of the line

  /** The splits of a line are columns of it, in order. */
  predicate ColumnSplits(v: seq<nat>, line: Text) {
    && (forall k :: 0 <= k < |v| ==> 1 <= v[k] <= |line|)
    && (forall k :: 0 < k < |v| ==> v[k - 1] <= v[k])
  }

  function LineSplits(line: Text, limit: nat, asCode: bool, tab: nat): seq<nat>
    requires limit >= 1 && tab >= 1
  {
    WrapSplits(Tokens(line, |line|, 0, tab), limit, asCode, 0)
  }

  lemma {:induction false} SplitsAreColumns(line: Text, limit: nat, asCode: bool, tab: nat)
    requires limit >= 1 && tab >= 1
    ensures ColumnSplits(LineSplits(line, limit, asCode, tab), line)
  {
    hide ChunkEnds, Tokens, Columns, Chunked, WrapSplits;
    var tokens := Tokens(line, |line|, 0, tab);
    var ends := ChunkEnds(tokens, limit, asCode, 0);
    var v := LineSplits(line, limit, asCode, tab);
    ChunkBounds(tokens, limit, asCode, 0);
    SplitsAtEnds(tokens, limit, asCode, 0);
    forall k | 0 <= k < |v|
      ensures 1 <= v[k] <= |line|
      ensures k > 0 ==> v[k - 1] <= v[k]
    {
      OneSplit(line, tab, limit, ends, k);
    }
  }

  lemma {:induction false} OneSplit(line: Text, tab: nat, limit: nat, ends: seq<nat>, k: nat)
    requires tab >= 1 && Chunked(Tokens(line, |line|, 0, tab), limit, 0, ends) && k < |ends|
    ensures ends[k] <= |Tokens(line, |line|, 0, tab)|
    ensures 1 <= Columns(Tokens(line, |line|, 0, tab)[..ends[k]]) <= |line|
    ensures k > 0 ==> ends[k - 1] <= |Tokens(line, |line|, 0, tab)|
    ensures k > 0 ==>
              Columns(Tokens(line, |line|, 0, tab)[..ends[k - 1]]) <= Columns(Tokens(line, |line|, 0, tab)[..ends[k]])
  {
    hide Tokens, Columns;
    var tokens := Tokens(line, |line|, 0, tab);
    ChunksIncrease(tokens, limit, 0, ends, k);
    var _ := TokenCut(line, |line|, tab, ends[k]);
    if k > 0 { ColumnsSplit(tokens, ends[k - 1], ends[k]); }
  }

  lemma {:induction false} ChunksIncrease(tokens: seq<Token>, limit: nat, i: nat, ends: seq<nat>, k: nat)
    requires Chunked(tokens, limit, i, ends) && k < |ends|
    ensures i < ends[k] && (k > 0 ==> ends[k - 1] < ends[k])
  {
    assert ChunkStart(ends, i, k) < ends[k];
    if k > 0 { ChunksIncrease(tokens, limit, i, ends, k - 1); }
  }

  /** The wrapped row a column is on: `while (column >= v[m]) m++`. */
  function WrappedRow(v: seq<nat>, column: nat, m: nat): (r: nat)
    requires m <= |v|
    ensures m <= r <= |v|
    ensures r < |v| ==> v[r] > column
    ensures r > m ==> v[r - 1] <= column
    decreases |v| - m
  {
    if m < |v| && column >= v[m] then WrappedRow(v, column, m + 1) else m
  }

  /** The column a wrapped row starts at. */
  function WrappedStart(v: seq<nat>, m: nat): nat
    requires m <= |v|
  {
    if m == 0 then 0 else v[m - 1]
  }

  /** A column of the line as a screen column of its wrapped row. */
  function ScreenColumn(line: Text, v: seq<nat>, column: nat, tab: nat): nat
    requires tab >= 1 && column <= |line|
  {
    var s := WrappedStart(v, WrappedRow(v, column, 0));
    Width(line[s..column], column - s, 0, tab)
  }

  /** The column of the line shown on wrapped row m at a screen column; a screen column past the row
      gives the last column before the next split. */
  function LineColumn(line: Text, v: seq<nat>, m: nat, column: nat, tab: nat): int
    requires tab >= 1 && m <= |v| && WrappedStart(v, m) <= |line|
  {
    var c := WrappedStart(v, m) + Fit(line[WrappedStart(v, m)..], column, tab);
    if m < |v| && c >= v[m] then v[m] - 1 else c
  }

  /** A column of wrapped row m of a line, from the start of the row and below the next split. */
  predicate OnRow(line: Text, v: seq<nat>, m: nat, column: int)
    requires m <= |v|
  {
    WrappedStart(v, m) <= column <= |line| && (m < |v| ==> column < v[m])
  }

  /** A column is on one row only. */
  lemma OneRow(line: Text, v: seq<nat>, column: int, m: nat, n: nat)
    requires ColumnSplits(v, line) && m <= |v| && n <= |v| && OnRow(line, v, m, column) && OnRow(line, v, n, column)
    ensures m == n
  {
    SplitsIncrease(v, line);
    RowsOrdered(v, m, n);
    RowsOrdered(v, n, m);
  }

  lemma RowsOrdered(v: seq<nat>, m: nat, n: nat)
    requires (forall i, j :: 0 <= i <= j < |v| ==> v[i] <= v[j]) && m <= |v| && n <= |v|
    ensures m < n ==> v[m] <= WrappedStart(v, n)
  {
  }

  /** How far right of the start of its wrapped row a column is drawn. */
  function DrawnAt(line: Text, v: seq<nat>, m: nat, column: int, tab: nat): nat
    requires tab >= 1 && m <= |v| && OnRow(line, v, m, column)
  {
    Width(line[WrappedStart(v, m)..column], column - WrappedStart(v, m), 0, tab)
  }

  /** The last column of a wrapped row that is drawn at or before a screen column; of a row that holds none, the column
      before the next split. */
  ghost predicate Shown(line: Text, v: seq<nat>, m: nat, x: nat, tab: nat, column: int)
    requires tab >= 1 && m <= |v|
  {
    if m < |v| && WrappedStart(v, m) >= v[m] then column + 1 == v[m]
    else
      && OnRow(line, v, m, column) && DrawnAt(line, v, m, column, tab) <= x
      && forall d: int :: OnRow(line, v, m, d) && d > column ==> DrawnAt(line, v, m, d, tab) > x
  }

  /** So the column looked up is that one, and the only one. */
  lemma {:induction false} ColumnShown(line: Text, v: seq<nat>, m: nat, x: nat, tab: nat, column: int)
    requires tab >= 1 && m <= |v| && ColumnSplits(v, line)
    ensures WrappedStart(v, m) <= |line|
    ensures Shown(line, v, m, x, tab, column) <==> column == LineColumn(line, v, m, x, tab)
  {
    hide Width;
    var s := WrappedStart(v, m);
    var c := LineColumn(line, v, m, x, tab);
    forall d: int | OnRow(line, v, m, d) ensures DrawnAt(line, v, m, d, tab) <= x <==> d <= c {
      DrawnUpTo(line, v, m, x, tab, d);
    }
    if m == |v| || s < v[m] {
      assert OnRow(line, v, m, c);
      if OnRow(line, v, m, column) && column < c { assert DrawnAt(line, v, m, c, tab) <= x; }
    }
  }

  lemma {:induction false} DrawnUpTo(line: Text, v: seq<nat>, m: nat, x: nat, tab: nat, d: int)
    requires tab >= 1 && m <= |v| && OnRow(line, v, m, d)
    ensures DrawnAt(line, v, m, d, tab) <= x <==> d <= LineColumn(line, v, m, x, tab)
  {
    hide Width;
    var s := WrappedStart(v, m);
    var rest := line[s..];
    var n := Fit(rest, x, tab);
    assert line[s..d] == rest[..d - s];
    WidthPrefix(rest, d - s, d - s, tab);
    if d - s <= n { WidthMonotone(rest, d - s, n, tab); } else { WidthMonotone(rest, n + 1, d - s, tab); }
  }

  lemma {:induction false} LineRoundTrip(line: Text, v: seq<nat>, column: nat, tab: nat)
    requires tab >= 1 && column <= |line| && ColumnSplits(v, line)
    ensures LineColumn(line, v, WrappedRow(v, column, 0), ScreenColumn(line, v, column, tab), tab) == column
  {
    var s := WrappedStart(v, WrappedRow(v, column, 0));
    var rest := line[s..];
    assert line[s..column] == rest[..column - s];
    WidthPrefix(rest, column - s, column - s, tab);
    FitWidth(rest, column - s, tab);
  }

  /** Going the other way the wrapped row is kept, whatever the screen column, exactly when the row
      holds a column at all: a tab or wide character cut by the limit can leave it none. */
  lemma {:induction false} RowRoundTrip(line: Text, v: seq<nat>, m: nat, column: nat, tab: nat)
    requires tab >= 1 && m <= |v| && ColumnSplits(v, line)
    ensures WrappedStart(v, m) <= |line| && 0 <= LineColumn(line, v, m, column, tab) <= |line|
    ensures WrappedRow(v, LineColumn(line, v, m, column, tab), 0) == m <==>
            (m == |v| || WrappedStart(v, m) < v[m])
  {
    var c := LineColumn(line, v, m, column, tab);
    SplitsIncrease(v, line);
  }

  lemma {:induction false} SplitsIncrease(v: seq<nat>, line: Text)
    requires ColumnSplits(v, line)
    ensures forall i, j :: 0 <= i <= j < |v| ==> v[i] <= v[j]
  {
    if |v| > 0 {
      SplitsIncrease(v[..|v| - 1], line);
      forall i, j | 0 <= i <= j < |v| ensures v[i] <= v[j] {
        var w := v[..|v| - 1];
        if j < |v| - 1 {
          assert w[i] <= w[j];
        } else if i < j {
          assert w[i] <= w[j - 1] && v[j - 1] <= v[j];
        }
      }
    }
  }

  /** A line of one tab of eight cells, wrapped at two: three splits, all behind its only column. */
  lemma TabSplits(asCode: bool)
    ensures LineSplits([9], 2, asCode, 8) == [1, 1, 1]
  {
    hide *;
    TabTokens();
    var ts := Tokens([9], 1, 0, 8);
    TabWraps(ts, asCode, 0);
    TabWraps(ts, asCode, 2);
    TabWraps(ts, asCode, 4);
    TabWraps(ts, asCode, 6);
    assert [1] + ([1] + ([1] + [])) == [1, 1, 1];
    SplitsOf([9], 2, asCode, 8);
  }

  lemma SplitsOf(line: Text, limit: nat, asCode: bool, tab: nat)
    requires limit >= 1 && tab >= 1
    ensures LineSplits(line, limit, asCode, tab) == WrapSplits(Tokens(line, |line|, 0, tab), limit, asCode, 0)
  {
  }

  lemma TabTokens()
    ensures var ts := Tokens([9], 1, 0, 8);
            |ts| == 8 && ts[0] == TAB && forall k :: 1 <= k < 8 ==> ts[k] == TAB_SPACE
  {
    hide WrapSplits, Columns;
    assert Tokens([9], 0, 0, 8) == [] && ScreenTabSize(0, 8) == 8;
    assert Tokens([9], 1, 0, 8) == CharTokens(9, 0, 8);
  }

  /** Between two blanks a chunk ends at the limit. */
  lemma TabWraps(ts: seq<Token>, asCode: bool, i: nat)
    requires |ts| == 8 && ts[0] == TAB && (forall k :: 1 <= k < 8 ==> ts[k] == TAB_SPACE) && i <= 6
    ensures WrapSplits(ts, 2, asCode, i) == if i + 2 >= 8 then [] else [1] + WrapSplits(ts, 2, asCode, i + 2)
  {
    if i + 2 < 8 { TabColumns(ts, i + 2); }
  }

  lemma TabColumns(ts: seq<Token>, n: nat)
    requires 1 <= n <= |ts| && ts[0] == TAB && forall k :: 1 <= k < |ts| ==> ts[k] == TAB_SPACE
    ensures Columns(ts[..n]) == 1
  {
    if n > 1 {
      assert ts[..n][..n - 1] == ts[..n - 1];
      TabColumns(ts, n - 1);
    } else {
      assert ts[..1][..0] == [];
    }
  }
}
