/** The screen as a function of the document: where each row starts, and the two conversions between
    document and screen positions, computed from scratch. */
module Screen {
  import opened JsArray
  import opened TextModel
  import opened Wrapping

  datatype Settings = Settings(wrap: bool, limit: nat, asCode: bool, tab: nat) {
    predicate Ok() { limit >= 1 && tab >= 1 }

    /** The splits in force for a line. */
    function Splits(line: Text): (v: seq<nat>)
      requires Ok()
    {
      if wrap then LineSplits(line, limit, asCode, tab) else []
    }
  }

  /** Screen rows above a document row. */
  function ScreenStart(cfg: Settings, doc: seq<Text>, row: nat): nat
    requires cfg.Ok() && row <= |doc|
  {
    if row == 0 then 0 else ScreenStart(cfg, doc, row - 1) + |cfg.Splits(doc[row - 1])| + 1
  }

  lemma {:induction false} ScreenStartPrefix(cfg: Settings, a: seq<Text>, b: seq<Text>, row: nat)
    requires cfg.Ok() && row <= |a| && row <= |b| && a[..row] == b[..row]
    ensures ScreenStart(cfg, a, row) == ScreenStart(cfg, b, row)
  {
    if row > 0 {
      assert a[..row - 1] == a[..row][..row - 1] == b[..row - 1];
      assert a[row - 1] == a[..row][row - 1] == b[row - 1];
      ScreenStartPrefix(cfg, a, b, row - 1);
    }
  }

  lemma {:induction false} ScreenStartIncreases(cfg: Settings, doc: seq<Text>, i: nat, j: nat)
    requires cfg.Ok() && i <= j <= |doc|
    ensures ScreenStart(cfg, doc, i) + (j - i) <= ScreenStart(cfg, doc, j)
  {
    if i < j { ScreenStartIncreases(cfg, doc, i, j - 1); }
  }

  datatype ScreenPos = ScreenPos(row: nat, column: nat)

  /** `$clipPositionToDocument` */
  function Clip(doc: seq<Text>, p: Pos): (q: Pos)
    requires doc != []
    ensures ValidPos(doc, q) && (ValidPos(doc, p) ==> q == p)
  {
    if p.row >= |doc| then Pos(|doc| - 1, |doc[|doc| - 1]|) else Pos(p.row, Min(p.column, |doc[p.row]|))
  }

  /** The last position of the document up to p. */
  lemma ClippedToLast(doc: seq<Text>, p: Pos)
    requires doc != []
    ensures LastUpTo(doc, p, Clip(doc, p))
  {
  }

  function ToScreen(cfg: Settings, doc: seq<Text>, p: Pos): ScreenPos
    requires cfg.Ok() && ValidPos(doc, p)
  {
    var line, v := doc[p.row], cfg.Splits(doc[p.row]);
    ScreenPos(ScreenStart(cfg, doc, p.row) + WrappedRow(v, p.column, 0), ScreenColumn(line, v, p.column, cfg.tab))
  }

  /** The last document row, from r on, that starts at or above a screen row. */
  function RowAt(cfg: Settings, doc: seq<Text>, screenRow: nat, r: nat): (q: nat)
    requires cfg.Ok() && r < |doc| && ScreenStart(cfg, doc, r) <= screenRow
    ensures r <= q < |doc| && ScreenStart(cfg, doc, q) <= screenRow
    ensures q + 1 < |doc| ==> ScreenStart(cfg, doc, q + 1) > screenRow
    decreases |doc| - r
  {
    if r + 1 < |doc| && ScreenStart(cfg, doc, r + 1) <= screenRow then RowAt(cfg, doc, screenRow, r + 1) else r
  }

  lemma {:induction false} RowAtUnique(cfg: Settings, doc: seq<Text>, screenRow: nat, r: nat, q: nat)
    requires cfg.Ok() && r < |doc| && ScreenStart(cfg, doc, r) <= screenRow
    requires q < |doc| && ScreenStart(cfg, doc, q) <= screenRow
    requires q + 1 < |doc| ==> ScreenStart(cfg, doc, q + 1) > screenRow
    ensures RowAt(cfg, doc, screenRow, r) == q
  {
    var found := RowAt(cfg, doc, screenRow, r);
    if found < q { ScreenStartIncreases(cfg, doc, found + 1, q); }
    if q < found { ScreenStartIncreases(cfg, doc, q + 1, found); }
  }

  lemma SplitsOk(cfg: Settings, line: Text)
    requires cfg.Ok()
    ensures ColumnSplits(cfg.Splits(line), line)
  {
    if cfg.wrap { SplitsAreColumns(line, cfg.limit, cfg.asCode, cfg.tab); }
  }

  function ToDocument(cfg: Settings, doc: seq<Text>, s: ScreenPos): (p: Pos)
    requires cfg.Ok() && doc != []
    ensures ValidPos(doc, p)
  {
    var row := RowAt(cfg, doc, s.row, 0);
    if s.row >= ScreenStart(cfg, doc, |doc|) then Pos(|doc| - 1, |doc[|doc| - 1]|)
    else
      var line, v := doc[row], cfg.Splits(doc[row]);
      SplitsOk(cfg, line);
      RowRoundTrip(line, v, s.row - ScreenStart(cfg, doc, row), s.column, cfg.tab);
      Pos(row, LineColumn(line, v, s.row - ScreenStart(cfg, doc, row), s.column, cfg.tab))
  }

  /** The document position at a screen position: in the row that is drawn there, the last column drawn at or before it; past
      the document its end. */
  ghost predicate DrawnThere(cfg: Settings, doc: seq<Text>, s: ScreenPos, p: Pos)
    requires cfg.Ok() && doc != []
  {
    if s.row >= ScreenStart(cfg, doc, |doc|) then p == Pos(|doc| - 1, |doc[|doc| - 1]|)
    else
      && p.row < |doc| && ScreenStart(cfg, doc, p.row) <= s.row <= ScreenStart(cfg, doc, p.row) + |cfg.Splits(doc[p.row])|
      && Shown(doc[p.row], cfg.Splits(doc[p.row]), s.row - ScreenStart(cfg, doc, p.row), s.column, cfg.tab, p.column)
  }

  lemma {:induction false} ThereIsOne(cfg: Settings, doc: seq<Text>, s: ScreenPos, p: Pos)
    requires cfg.Ok() && doc != []
    ensures DrawnThere(cfg, doc, s, p) <==> p == ToDocument(cfg, doc, s)
  {
    hide Settings.Splits, LineColumn, Shown;
    if s.row < ScreenStart(cfg, doc, |doc|) {
      var row := RowAt(cfg, doc, s.row, 0);
      ScreenRows(cfg, doc, row);
      if p.row < |doc| && ScreenStart(cfg, doc, p.row) <= s.row <= ScreenStart(cfg, doc, p.row) + |cfg.Splits(doc[p.row])| {
        ScreenRows(cfg, doc, p.row);
        RowAtUnique(cfg, doc, s.row, 0, p.row);
        SplitsOk(cfg, doc[row]);
        ColumnShown(doc[row], cfg.Splits(doc[row]), s.row - ScreenStart(cfg, doc, row), s.column, cfg.tab, p.column);
      }
    }
  }

  /** The screen position of a document position: on the wrapped row that holds its column, as far right as it is drawn. */
  ghost predicate DrawnHere(cfg: Settings, doc: seq<Text>, p: Pos, s: ScreenPos)
    requires cfg.Ok() && ValidPos(doc, p)
  {
    var line, v, m := doc[p.row], cfg.Splits(doc[p.row]), s.row - ScreenStart(cfg, doc, p.row);
    0 <= m <= |v| && OnRow(line, v, m, p.column) && s.column == DrawnAt(line, v, m, p.column, cfg.tab)
  }

  lemma {:induction false} HereIsOne(cfg: Settings, doc: seq<Text>, p: Pos, s: ScreenPos)
    requires cfg.Ok() && ValidPos(doc, p)
    ensures DrawnHere(cfg, doc, p, s) <==> s == ToScreen(cfg, doc, p)
  {
    hide Settings.Splits, Width, ScreenStart;
    var line, v := doc[p.row], cfg.Splits(doc[p.row]);
    SplitsOk(cfg, line);
    var m := WrappedRow(v, p.column, 0);
    assert OnRow(line, v, m, p.column);
    assert forall n: nat :: n <= |v| && OnRow(line, v, n, p.column) ==> n == m by {
      forall n: nat | n <= |v| && OnRow(line, v, n, p.column) ensures n == m {
        OneRow(line, v, p.column, n, m);
      }
    }
  }

  lemma ScreenRows(cfg: Settings, doc: seq<Text>, row: nat)
    requires cfg.Ok() && row < |doc|
    ensures ScreenStart(cfg, doc, row + 1) == ScreenStart(cfg, doc, row) + |cfg.Splits(doc[row])| + 1
  {
    hide Settings.Splits;
  }

  /** Going to the screen and back returns every document position: wrapped or not, with tabs and wide
      characters. */
  lemma {:induction false} ScreenRoundTrip(cfg: Settings, doc: seq<Text>, p: Pos)
    requires cfg.Ok() && ValidPos(doc, p)
    ensures ToDocument(cfg, doc, ToScreen(cfg, doc, p)) == p
  {
    hide ScreenColumn, LineColumn, Settings.Splits;
    var line, v := doc[p.row], cfg.Splits(doc[p.row]);
    var s := ToScreen(cfg, doc, p);
    assert ScreenStart(cfg, doc, p.row + 1) == ScreenStart(cfg, doc, p.row) + |v| + 1;
    ScreenStartIncreases(cfg, doc, p.row + 1, |doc|);
    RowAtUnique(cfg, doc, s.row, 0, p.row);
    SplitsOk(cfg, line);
    LineRoundTrip(line, v, p.column, cfg.tab);
  }

  /** A screen row inside the document shows some document position exactly when its part of the line is
      not empty or is the last part of its line; then converting any of its columns stays on it. */
  lemma {:induction false} ScreenRowKept(cfg: Settings, doc: seq<Text>, s: ScreenPos)
    requires cfg.Ok() && doc != [] && s.row < ScreenStart(cfg, doc, |doc|)
    ensures var row := RowAt(cfg, doc, s.row, 0);
            var v, m := cfg.Splits(doc[row]), s.row - ScreenStart(cfg, doc, row);
            m <= |v| &&
            (ToScreen(cfg, doc, ToDocument(cfg, doc, s)).row == s.row <==> m == |v| || WrappedStart(v, m) < v[m])
  {
    hide ScreenColumn, LineColumn, Settings.Splits;
    var row := RowAt(cfg, doc, s.row, 0);
    var line, v := doc[row], cfg.Splits(doc[row]);
    SplitsOk(cfg, line);
    assert ScreenStart(cfg, doc, row + 1) == ScreenStart(cfg, doc, row) + |v| + 1;
    RowRoundTrip(line, v, s.row - ScreenStart(cfg, doc, row), s.column, cfg.tab);
  }

  /** A line of one tab of eight cells, wrapped at two: its second screen row has no column, and going to the document
      and back leaves it. */
  lemma TabRowLost(asCode: bool)
    ensures var cfg := Settings(true, 2, asCode, 8);
            1 < ScreenStart(cfg, [[9]], 1) && ToScreen(cfg, [[9]], ToDocument(cfg, [[9]], ScreenPos(1, 0))).row != 1
  {
    var cfg, doc, s := Settings(true, 2, asCode, 8), [[9]], ScreenPos(1, 0);
    TabSplits(asCode);
    assert cfg.Splits(doc[0]) == [1, 1, 1];
    hide Settings.Splits, ScreenColumn, LineColumn;
    assert ScreenStart(cfg, doc, 0) == 0 && ScreenStart(cfg, doc, 1) == 4;
    RowAtUnique(cfg, doc, 1, 0, 0);
    ScreenRowKept(cfg, doc, s);
  }
}
