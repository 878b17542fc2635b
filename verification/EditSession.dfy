/** An edit session: the wrap data, the two row caches, the pending deltas and the tokenizer that follow
    a document through the deltas it announces. */
module EditSessions {
  import opened JsArray
  import opened TextModel
  import opened Deltas
  import opened Wrapping
  import opened Screen
  import opened Tokenizing

  type WrapData = seq<Option<seq<nat>>>

  /** One entry per line, each what wrapping that line from scratch gives. */
  predicate WrapOk(cfg: Settings, doc: seq<Text>, wrapData: WrapData)
    requires cfg.Ok()
  {
    cfg.wrap ==> |wrapData| == |doc| && WrapOkExcept(cfg, doc, wrapData, 0, 0)
  }

  /** ... except in the rows from `first` up to, but not including, `end`. */
  predicate WrapOkExcept(cfg: Settings, doc: seq<Text>, wrapData: WrapData, first: nat, end: nat)
    requires cfg.Ok()
  {
    forall k :: 0 <= k < |doc| && !(first <= k < end) ==> At(wrapData, k) == Some(LineSplits(doc[k], cfg.limit, cfg.asCode, cfg.tab))
  }

  /** The cached pairs are rows 1, 2, 3, ... with the screen rows they start at. */
  predicate CacheOk(cfg: Settings, doc: seq<Text>, docRows: seq<nat>, screenRows: seq<nat>)
    requires cfg.Ok()
  {
    && |docRows| == |screenRows| <= |doc|
    && forall k :: 0 <= k < |docRows| ==> docRows[k] == k + 1 && screenRows[k] == ScreenStart(cfg, doc, k + 1)
  }

  predicate Increasing(s: seq<nat>) {
    forall i, j :: 0 <= i < j < |s| ==> s[i] < s[j]
  }

  lemma {:induction false} CachesIncrease(cfg: Settings, doc: seq<Text>, docRows: seq<nat>, screenRows: seq<nat>)
    requires cfg.Ok() && CacheOk(cfg, doc, docRows, screenRows)
    ensures Increasing(docRows) && Increasing(screenRows)
  {
    forall i, j | 0 <= i < j < |screenRows| ensures screenRows[i] < screenRows[j] {
      ScreenStartIncreases(cfg, doc, i + 1, j + 1);
    }
  }

  /** The wrap data after an edit, before the touched rows are wrapped again. */
  function SplicedWrap(wrapData: WrapData, d: Delta): WrapData
    requires d.start.row <= d.end.row
  {
    if d.Inserts() then Splice(wrapData, d.start.row, 0, Holes(d.end.row - d.start.row))
    else Splice(wrapData, d.start.row, d.end.row - d.start.row, [])
  }

  /** The last row that is wrapped again. */
  function LastTouched(d: Delta): nat {
    if d.Inserts() then d.end.row else d.start.row
  }

  lemma SplicedWrapAt(wrapData: WrapData, d: Delta, k: int)
    requires d.start.row <= d.end.row
    ensures k < d.start.row ==> At(SplicedWrap(wrapData, d), k) == At(wrapData, k)
    ensures k > LastTouched(d) ==>
              At(SplicedWrap(wrapData, d), k) == At(wrapData, if d.Inserts() then k - d.Rows() else k + d.Rows())
  {
    if d.Inserts() {
      SpliceHolesAt(wrapData, d.start.row, 0, d.end.row - d.start.row, k);
    } else {
      assert Holes<seq<nat>>(0) == [];
      SpliceHolesAt(wrapData, d.start.row, d.end.row - d.start.row, 0, k);
    }
  }

  /** Splicing the wrap data where an edit changed rows leaves every other row right. */
  lemma {:induction false} WrapSpliced(cfg: Settings, before: seq<Text>, d: Delta, wrapData: WrapData)
    requires cfg.Ok() && cfg.wrap && Fits(before, d) && WrapOk(cfg, before, wrapData)
    ensures d.start.row <= d.end.row && |SplicedWrap(wrapData, d)| == |Apply(before, d)|
    ensures WrapOkExcept(cfg, Apply(before, d), SplicedWrap(wrapData, d), d.start.row, LastTouched(d) + 1)
  {
    ApplyLength(before, d);
    hide Apply, Fits, LineSplits, At;
    var doc := Apply(before, d);
    forall k | 0 <= k < |doc| && !(d.start.row <= k < LastTouched(d) + 1)
      ensures At(SplicedWrap(wrapData, d), k) == Some(LineSplits(doc[k], cfg.limit, cfg.asCode, cfg.tab))
    {
      SplicedWrapAt(wrapData, d, k);
      LinesAfter(before, d, k);
    }
  }

  class EditSession {
    var useWrapMode: bool
    var wrapLimit: nat
    var wrapAsCode: bool
    const tabSize: nat
    var wrapData: WrapData
    var docRowCache: seq<nat>
    var screenRowCache: seq<nat>
    var deltasDoc: seq<Delta>
    var fromUndo: bool
    const bgTokenizer: BackgroundTokenizer

    constructor (tabSize: nat, asCode: bool, lexer: Lexer)
      requires tabSize >= 1
      ensures forall doc :: InSync(doc)
      ensures this.tabSize == tabSize && !useWrapMode && deltasDoc == [] && !fromUndo
      ensures fresh(bgTokenizer) && bgTokenizer.tokenizer == lexer
    {
      this.tabSize := tabSize;
      useWrapMode, wrapLimit, wrapAsCode := false, 80, asCode;
      wrapData, docRowCache, screenRowCache := [], [], [];
      deltasDoc, fromUndo := [], false;
      bgTokenizer := new BackgroundTokenizer(lexer);
    }

    function Config(): Settings
      reads this
    {
      Settings(useWrapMode, wrapLimit, wrapAsCode, tabSize)
    }

    ghost predicate Layout(doc: seq<Text>)
      reads this
    {
      && Config().Ok()
      && WrapOk(Config(), doc, wrapData)
      && CacheOk(Config(), doc, docRowCache, screenRowCache)
    }

    ghost predicate InSync(doc: seq<Text>)
      reads this, bgTokenizer
    {
      Layout(doc) && bgTokenizer.Valid(doc)
    }

    /** Binary search: the last entry that is at most `val`, or -1. */
    method GetRowCacheIndex(cache: seq<nat>, val: nat) returns (index: int)
      requires Increasing(cache)
      ensures -1 <= index < |cache|
      ensures forall k :: 0 <= k < |cache| ==> (cache[k] <= val <==> k <= index)
    {
      var low, high := 0, |cache| - 1;
      while low <= high
        invariant 0 <= low <= high + 1 <= |cache|
        invariant forall k :: 0 <= k < low ==> cache[k] < val
        invariant forall k :: high < k < |cache| ==> cache[k] > val
        decreases high - low
      {
        var mid := (low + high) / 2;
        if val > cache[mid] {
          low := mid + 1;
        } else {
          if !(val < cache[mid]) { return mid; }
          high := mid - 1;
        }
      }
      return low - 1;
    }

    /** Drops the cached rows after `docRow`; what is left only depends on the lines before it. */
    method ResetRowCache(docRow: nat, ghost before: seq<Text>, ghost after: seq<Text>, ghost cfg: Settings)
      requires Config().Ok() && CacheOk(Config(), before, docRowCache, screenRowCache)
      requires cfg.Ok() && (docRow > 0 ==> cfg == Config())
      requires docRow <= |before| && docRow <= |after| && before[..docRow] == after[..docRow]
      modifies this`docRowCache, this`screenRowCache
      ensures CacheOk(cfg, after, docRowCache, screenRowCache)
    {
      hide Settings.Splits, CacheOk, ScreenStart;
      if docRow == 0 {
        NothingCached(cfg, after);
        docRowCache, screenRowCache := [], [];
        return;
      }
      CachesIncrease(Config(), before, docRowCache, screenRowCache);
      var l := |docRowCache|;
      var i := GetRowCacheIndex(docRowCache, docRow);
      i := i + 1;
      RowsKept(cfg, before, after, docRowCache, screenRowCache, docRow, Min(i, l));
      if l > i {
        docRowCache := Splice(docRowCache, i, l, []);
        screenRowCache := Splice(screenRowCache, i, l, []);
      }
      assert docRowCache == old(docRowCache)[..Min(i, l)] && screenRowCache == old(screenRowCache)[..Min(i, l)];
    }

    /** Recomputes the wrap data of some rows. */
    method UpdateWrapData(firstRow: nat, lastRow: int, doc: seq<Text>)
      requires Config().Ok() && |wrapData| == |doc| && lastRow >= -1
      requires WrapOkExcept(Config(), doc, wrapData, firstRow, lastRow + 1)
      modifies this`wrapData
      ensures |wrapData| == |doc| && WrapOkExcept(Config(), doc, wrapData, 0, 0)
    {
      var last := Min(lastRow, |doc| - 1);
      var row := firstRow;
      while row <= last
        invariant firstRow <= row && |wrapData| == |doc|
        invariant WrapOkExcept(Config(), doc, wrapData, row, lastRow + 1)
        decreases last - row
      {
        var tokens := GetDisplayTokens(doc[row], 0, tabSize);
        var splits := ComputeWrapSplits(tokens, wrapLimit, wrapAsCode);
        wrapData := Put(wrapData, row, Some(splits));
        row := row + 1;
      }
    }

    /** Splices the wrap data and wraps the touched rows again. */
    method UpdateInternalDataOnChange(d: Delta, doc: seq<Text>, ghost before: seq<Text>)
      requires Fits(before, d) && doc == Apply(before, d)
      requires Config().Ok() && WrapOk(Config(), before, wrapData)
      modifies this`wrapData
      ensures WrapOk(Config(), doc, wrapData)
    {
      hide Fits, Apply, LineSplits, Splice, At, SplicedWrap;
      if !useWrapMode { return; }
      WrapSpliced(Config(), before, d, wrapData);
      ApplyLength(before, d);
      ghost var was := wrapData;
      var removes := d.RemoveText? || d.RemoveLines?;
      var firstRow, lastRow := d.start.row, d.end.row;
      var len := lastRow - firstRow;
      if d.InsertLines? || d.RemoveLines? {
        lastRow := if d.InsertLines? then firstRow + |d.lines| else firstRow;
        len := |d.lines|;
      }
      if len != 0 {
        if removes {
          wrapData := Splice(wrapData, firstRow, len, []);
          lastRow := firstRow;
        } else {
          wrapData := Splice(wrapData, firstRow, 0, Holes(len));
        }
      }
      SplicedAs(was, d, if d.InsertLines? || d.RemoveLines? then |d.lines| else d.end.row - d.start.row);
      UpdateWrapData(firstRow, lastRow, doc);
    }

    /** The document's change event. */
    method OnChange(d: Delta, doc: seq<Text>, ghost before: seq<Text>)
      requires Fits(before, d) && doc == Apply(before, d) && InSync(before)
      modifies this`docRowCache, this`screenRowCache, this`wrapData, this`deltasDoc, bgTokenizer
      ensures InSync(doc)
      ensures deltasDoc == if fromUndo then old(deltasDoc) else old(deltasDoc) + [d]
      ensures bgTokenizer.tokenizer == old(bgTokenizer.tokenizer)
    {
      ApplyKeepsPrefix(before, d);
      hide Fits, Apply, WrapOk, CacheOk, Consistent, FilledTo;
      ResetRowCache(d.start.row, before, doc, Config());
      UpdateInternalDataOnChange(d, doc, before);
      if !fromUndo { deltasDoc := deltasDoc + [d]; }
      bgTokenizer.UpdateOnChange(d, doc, before);
    }

    method SetUseWrapMode(useWrap: bool, doc: seq<Text>)
      requires Layout(doc) && doc != []
      modifies this`useWrapMode, this`docRowCache, this`screenRowCache, this`wrapData
      ensures Layout(doc) && useWrapMode == useWrap
    {
      if useWrap != useWrapMode {
        useWrapMode := useWrap;
        docRowCache, screenRowCache := [], [];
        if useWrap {
          wrapData := Holes(|doc|);
          UpdateWrapData(0, |doc| - 1, doc);
        }
      }
    }

    /** A new wrap limit from the width of the window; limits of 1 and less are refused. */
    method AdjustWrapLimit(desired: int, min: Option<int>, max: Option<int>, printMargin: int, doc: seq<Text>) returns (changed: bool)
      requires Layout(doc) && doc != []
      modifies this`wrapLimit, this`docRowCache, this`screenRowCache, this`wrapData
      ensures Layout(doc)
      ensures var fixed := max.Some? && max.value < 0;
              var limit := ConstrainWrapLimit(desired, if fixed then Some(printMargin) else min, if fixed then Some(printMargin) else max);
              changed == (limit != old(wrapLimit) && limit > 1) && wrapLimit == if changed then limit else old(wrapLimit)
    {
      var lo, hi := min, max;
      if max.Some? && max.value < 0 { lo, hi := Some(printMargin), Some(printMargin); }
      var limit := ConstrainWrapLimit(desired, lo, hi);
      changed := limit != wrapLimit && limit > 1;
      if changed {
        wrapLimit := limit;
        if useWrapMode {
          UpdateWrapData(0, |doc| - 1, doc);
        }
        docRowCache, screenRowCache := if useWrapMode then [] else docRowCache, if useWrapMode then [] else screenRowCache;
        UnwrappedCaches(Settings(useWrapMode, old(wrapLimit), wrapAsCode, tabSize), Config(), doc, docRowCache, screenRowCache);
      }
    }

    method SetWrapMethod(asCode: bool, doc: seq<Text>)
      requires Layout(doc) && doc != []
      modifies this`wrapAsCode, this`docRowCache, this`screenRowCache, this`wrapData
      ensures Layout(doc) && wrapAsCode == asCode
    {
      if asCode != wrapAsCode {
        wrapAsCode := asCode;
        if useWrapMode {
          docRowCache, screenRowCache := [], [];
          UpdateWrapData(0, |doc| - 1, doc);
        }
        UnwrappedCaches(Settings(useWrapMode, wrapLimit, old(wrapAsCode), tabSize), Config(), doc, docRowCache, screenRowCache);
      }
    }

    method GetRowLength(row: nat, doc: seq<Text>) returns (n: nat)
      requires Layout(doc)
      ensures n == if row < |doc| then |Config().Splits(doc[row])| + 1 else 1
    {
      hide LineSplits;
      if !useWrapMode || At(wrapData, row) == None { return 1; }
      return |At(wrapData, row).value| + 1;
    }

    method DocumentToScreenPosition(p: Pos, doc: seq<Text>) returns (s: ScreenPos)
      requires Layout(doc) && doc != []
      modifies this`docRowCache, this`screenRowCache
      ensures Layout(doc)
      ensures s == ToScreen(Config(), doc, Clip(doc, p)) && DrawnHere(Config(), doc, Clip(doc, p), s)
    {
      hide DrawnHere, ScreenStart, ScreenColumn, WrappedRow, CacheOk, LineSplits;
      var clipped := Clip(doc, p);
      var docRow, docColumn := clipped.row, clipped.column;
      var screenRow := ScreenRowOf(docRow, doc);
      var v := GetRowSplitData(docRow, doc);
      var m, column := WrappedPosition(doc[docRow], v, docColumn);
      s := ScreenPos(screenRow + m, column);
      HereIsOne(Config(), doc, clipped, s);
    }

    /** The splits of a row, none without wrapping. */
    method GetRowSplitData(row: nat, doc: seq<Text>) returns (v: seq<nat>)
      requires Layout(doc) && row < |doc|
      ensures v == Config().Splits(doc[row])
    {
      hide LineSplits, CacheOk;
      if useWrapMode {
        assert At(wrapData, row).Some?;
        v := wrapData[row].value;
      } else {
        v := [];
      }
    }

    /** Which wrapped row of its line a column is on, and where on it. */
    method WrappedPosition(line: Text, v: seq<nat>, docColumn: nat) returns (m: nat, column: nat)
      requires tabSize >= 1 && docColumn <= |line|
      ensures m == WrappedRow(v, docColumn, 0)
      ensures column == ScreenColumn(line, v, docColumn, tabSize)
    {
      var textLine := line[..docColumn];
      m := 0;
      while m < |v| && |textLine| >= v[m]
        invariant m <= |v| && WrappedRow(v, docColumn, m) == WrappedRow(v, docColumn, 0)
      {
        m := m + 1;
      }
      textLine := textLine[if m > 0 then v[m - 1] else 0..];
      assert textLine == line[WrappedStart(v, m)..docColumn];
      var width, _ := GetStringScreenWidth(textLine, None, tabSize);
      column := width;
    }

    /** The screen row a document row starts at, from the caches, which a query below them extends. */
    method ScreenRowOf(docRow: nat, doc: seq<Text>) returns (screenRow: nat)
      requires Layout(doc) && docRow < |doc|
      modifies this`docRowCache, this`screenRowCache
      ensures Layout(doc)
      ensures screenRow == ScreenStart(Config(), doc, docRow)
    {
      hide ScreenStart, CacheOk, WrapOk, Settings.Splits;
      ghost var cfg := Config();
      CachesIncrease(cfg, doc, docRowCache, screenRowCache);
      ScreenStep(cfg, doc, 0);
      var row, doCache := 0, false;
      screenRow := 0;
      var i := GetRowCacheIndex(docRowCache, docRow);
      var l := |docRowCache|;
      CacheEntry(cfg, doc, docRowCache, screenRowCache, i);
      CacheEntry(cfg, doc, docRowCache, screenRowCache, l - 1);
      if l > 0 && i >= 0 {
        row, screenRow := docRowCache[i], screenRowCache[i];
        doCache := docRow > docRowCache[l - 1];
      } else {
        doCache := l == 0;
      }
      while row < docRow
        invariant row <= docRow && Layout(doc) && Config() == cfg
        invariant screenRow == ScreenStart(cfg, doc, row)
        invariant doCache ==> |docRowCache| == row
      {
        ScreenStep(cfg, doc, row);
        var n := GetRowLength(row, doc);
        screenRow := screenRow + n;
        row := row + 1;
        if doCache {
          CacheGrow(cfg, doc, docRowCache, screenRowCache);
          docRowCache, screenRowCache := docRowCache + [row], screenRowCache + [screenRow];
        }
      }
    }

    method ScreenToDocumentPosition(s: ScreenPos, doc: seq<Text>) returns (p: Pos)
      requires Layout(doc) && doc != []
      modifies this`docRowCache, this`screenRowCache
      ensures Layout(doc)
      ensures p == ToDocument(Config(), doc, s) && DrawnThere(Config(), doc, s, p)
    {
      hide DrawnThere, ToDocument;
      p := PositionAt(s, doc);
      ThereIsOne(Config(), doc, s, p);
    }

    method PositionAt(s: ScreenPos, doc: seq<Text>) returns (p: Pos)
      requires Layout(doc) && doc != []
      modifies this`docRowCache, this`screenRowCache
      ensures Layout(doc)
      ensures p == ToDocument(Config(), doc, s)
    {
      hide ScreenStart, LineColumn, CacheOk, WrapOk, Settings.Splits;
      var docRow, row, rowLength := DocRowOf(s.row, doc);
      var maxRow := |doc| - 1;
      ghost var cfg := Config();
      if docRow < |doc| { ScreenStep(cfg, doc, docRow); }
      if row + rowLength <= s.row || docRow > maxRow {
        return Pos(maxRow, |doc[maxRow]|);
      }
      ScreenStartIncreases(cfg, doc, docRow + 1, |doc|);
      RowAtUnique(cfg, doc, s.row, 0, docRow);
      SplitsOk(cfg, doc[docRow]);
      var v := GetRowSplitData(docRow, doc);
      var column := ColumnOfScreen(doc[docRow], v, s.row - row, s.column);
      p := Pos(docRow, column);
    }

    /** The column of a line shown at a column of one of its wrapped rows. */
    method ColumnOfScreen(docLine: Text, v: seq<nat>, m: nat, x: nat) returns (column: nat)
      requires tabSize >= 1 && ColumnSplits(v, docLine) && m <= |v|
      ensures column == LineColumn(docLine, v, m, x, tabSize)
    {
      var line := docLine;
      column := 0;
      if m > 0 && |v| > 0 {
        column := v[m - 1];  // never 0, so the source's fallback to the last split is not taken
        line := docLine[column..];
      }
      assert line == docLine[WrappedStart(v, m)..];
      var _, count := GetStringScreenWidth(line, Some(x), tabSize);
      column := column + count;
      if m < |v| && column >= v[m] { column := v[m] - 1; }
    }

    /** The document row shown at a screen row, the screen row it starts at, and its height; past the
        document, the last row or the row after it. */
    method DocRowOf(screenRow: nat, doc: seq<Text>) returns (docRow: nat, row: nat, rowLength: nat)
      requires Layout(doc) && doc != []
      modifies this`docRowCache, this`screenRowCache
      ensures Layout(doc)
      ensures docRow <= |doc| && row == ScreenStart(Config(), doc, docRow) <= screenRow
      ensures docRow < |doc| ==> rowLength == |Config().Splits(doc[docRow])| + 1
      ensures docRow + 1 < |doc| ==> row + rowLength > screenRow
    {
      hide ScreenStart, CacheOk, WrapOk, Settings.Splits;
      ghost var cfg := Config();
      CachesIncrease(cfg, doc, docRowCache, screenRowCache);
      ScreenStep(cfg, doc, 0);
      docRow, row, rowLength := 0, 0, 0;
      var doCache;
      var i := GetRowCacheIndex(screenRowCache, screenRow);
      var l := |screenRowCache|;
      CacheEntry(cfg, doc, docRowCache, screenRowCache, i);
      CacheEntry(cfg, doc, docRowCache, screenRowCache, l - 1);
      if l > 0 && i >= 0 {
        row, docRow := screenRowCache[i], docRowCache[i];
        doCache := screenRow > screenRowCache[l - 1];
      } else {
        doCache := l == 0;
      }
      var maxRow := |doc| - 1;
      while row <= screenRow
        invariant docRow <= |doc| && row == ScreenStart(cfg, doc, docRow) <= screenRow
        invariant Layout(doc) && Config() == cfg
        invariant doCache ==> |docRowCache| == docRow
        decreases |doc| - docRow
      {
        rowLength := GetRowLength(docRow, doc);
        if row + rowLength > screenRow || docRow >= maxRow { break; }
        ScreenStep(cfg, doc, docRow);
        row := row + rowLength;
        docRow := docRow + 1;
        if doCache {
          CacheGrow(cfg, doc, docRowCache, screenRowCache);
          docRowCache, screenRowCache := docRowCache + [docRow], screenRowCache + [row];
        }
      }
    }
  }

  lemma ScreenStep(cfg: Settings, doc: seq<Text>, row: nat)
    requires cfg.Ok() && row < |doc|
    ensures ScreenStart(cfg, doc, 0) == 0
    ensures ScreenStart(cfg, doc, row + 1) == ScreenStart(cfg, doc, row) + |cfg.Splits(doc[row])| + 1
  {
    hide Settings.Splits;
  }

  lemma CacheEntry(cfg: Settings, doc: seq<Text>, docRows: seq<nat>, screenRows: seq<nat>, i: int)
    requires cfg.Ok() && CacheOk(cfg, doc, docRows, screenRows)
    ensures |docRows| == |screenRows|
    ensures 0 <= i < |docRows| ==> i + 1 <= |doc| && docRows[i] == i + 1 && screenRows[i] == ScreenStart(cfg, doc, i + 1)
  {
    hide ScreenStart;
  }

  lemma CacheGrow(cfg: Settings, doc: seq<Text>, docRows: seq<nat>, screenRows: seq<nat>)
    requires cfg.Ok() && CacheOk(cfg, doc, docRows, screenRows) && |docRows| < |doc|
    ensures CacheOk(cfg, doc, docRows + [|docRows| + 1], screenRows + [ScreenStart(cfg, doc, |docRows| + 1)])
  {
    hide ScreenStart;
  }

  lemma NothingCached(cfg: Settings, doc: seq<Text>)
    requires cfg.Ok()
    ensures CacheOk(cfg, doc, [], [])
  {
  }

  /** The first entries of the caches hold for every document that begins with the same lines. */
  lemma RowsKept(cfg: Settings, before: seq<Text>, after: seq<Text>, docRows: seq<nat>, screenRows: seq<nat>, docRow: nat, n: nat)
    requires cfg.Ok() && CacheOk(cfg, before, docRows, screenRows) && n <= |docRows|
    requires docRow <= |before| && docRow <= |after| && before[..docRow] == after[..docRow]
    requires forall k :: 0 <= k < n ==> docRows[k] <= docRow
    ensures n <= |screenRows| && CacheOk(cfg, after, docRows[..n], screenRows[..n])
    ensures |docRows| == |screenRows|
  {
    hide ScreenStart;
    forall k | 0 <= k < n ensures docRows[k] == k + 1 <= docRow && screenRows[k] == ScreenStart(cfg, after, k + 1) {
      assert docRows[k] == k + 1;
      assert before[..k + 1] == before[..docRow][..k + 1] == after[..docRow][..k + 1] == after[..k + 1];
      ScreenStartPrefix(cfg, before, after, k + 1);
    }
    if n > 0 { assert docRows[n - 1] == n; }
  }

  lemma SplicedAs(wrapData: WrapData, d: Delta, len: nat)
    requires d.start.row <= d.end.row && len == d.end.row - d.start.row
    ensures SplicedWrap(wrapData, d) == if len == 0 then wrapData
                                        else if d.Inserts() then Splice(wrapData, d.start.row, 0, Holes(len))
                                        else Splice(wrapData, d.start.row, len, [])
  {
  }

  /** Without wrapping every row is one screen row, whatever the other settings are. */
  lemma {:induction false} UnwrappedCaches(a: Settings, b: Settings, doc: seq<Text>, docRows: seq<nat>, screenRows: seq<nat>)
    requires a.Ok() && b.Ok() && a.wrap == b.wrap
    requires docRows == screenRows == [] || (!a.wrap && CacheOk(a, doc, docRows, screenRows))
    ensures CacheOk(b, doc, docRows, screenRows)
  {
    if docRows != [] {
      forall k | 0 <= k < |docRows| ensures screenRows[k] == ScreenStart(b, doc, k + 1) {
        UnwrappedStart(a, doc, k + 1);
        UnwrappedStart(b, doc, k + 1);
      }
    }
  }

  lemma {:induction false} UnwrappedStart(cfg: Settings, doc: seq<Text>, row: nat)
    requires cfg.Ok() && !cfg.wrap && row <= |doc|
    ensures ScreenStart(cfg, doc, row) == row
  {
    if row > 0 { UnwrappedStart(cfg, doc, row - 1); }
  }

  predicate Bounds(bound: Option<int>) { bound.Some? && bound.value != 0 }

  predicate InBounds(limit: int, min: Option<int>, max: Option<int>) {
    (Bounds(min) ==> min.value <= limit) && (Bounds(max) ==> limit <= max.value)
  }

  /** `$constrainWrapLimit`: missing and zero bounds do not count. */
  function ConstrainWrapLimit(limit: int, min: Option<int>, max: Option<int>): (r: int)
    ensures max.Some? && max.value != 0 ==> r <= max.value
    ensures min.Some? && min.value != 0 && (max.Some? && max.value != 0 ==> min.value <= max.value) ==> r >= min.value
    ensures r == limit || (min.Some? && r == min.value) || (max.Some? && r == max.value)
    ensures InBounds(limit, min, max) ==> r == limit
    ensures Bounds(max) && limit > max.value ==> r == max.value
    ensures Bounds(min) && limit < min.value && (Bounds(max) ==> min.value <= max.value) ==> r == min.value
    ensures Bounds(min) && Bounds(max) && min.value > max.value ==> r == max.value
  {
    var lo := if min.Some? && min.value != 0 then Max(min.value, limit) else limit;
    if max.Some? && max.value != 0 then Min(max.value, lo) else lo
  }
}
