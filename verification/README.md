# A model of Koding's incremental text buffer, callbacks, lexer and document updates

The repository holds several pieces of code that keep something incrementally, or in a mutable and indirect
way, for which a simple description exists. This project models four groups of them and proves that the code
agrees with the simple description.

**The Ace text buffer.** A document is an array of lines edited by splices. Every public edit is carried out by
primitive changes (deltas), and five things follow the document through them: anchors, the undo and redo
stacks, the wrap data of each line, two row caches, and a lazily refilled table of tokens and lexer states.
The simple descriptions are: splices of the newline-joined string, offsets in that string, a timeline of
documents, wrapping every line from scratch, sums of row lengths, and lexing from row 0.

**dnode callbacks.** Two sessions pass functions to each other as numeric ids. A state machine of two sessions
over first-in-first-out channels gives the lifetime of ids; trees of arguments give the round trip of scrubbing
and unscrubbing; a class carries out the steps of a session, scrubbing objects in memory by a walk over copies of
them. `traverse`'s walk and clone are also treated on graphs with cycles.

**The CoffeeScript lexer's layout** (what its stacks of indentations and closers do to the tokens, and which tokens are
lost on the way), **the source map printer**, and **`jspath` with `mongoop`**.

| file | models |
|---|---|
| `TextModel.dfy`, `Deltas.dfy`, `EditShapes.dfy`, `Edits.dfy` | texts, lines, positions, deltas, and what edits come to on the flat string |
| `Document.dfy`, `Anchor.dfy`, `UndoManager.dfy` | the classes of the same names |
| `BackgroundTokenizer.dfy` | the token and state table |
| `Wrapping.dfy`, `Screen.dfy`, `EditSession.dfy` | wrap splits, screen positions, and the session that keeps them |
| `RangeList.dfy` | ordered ranges |
| `DnodeProtocol.dfy`, `DnodeStart.dfy`, `Scrubber.dfy`, `ScrubWalk.dfy`, `DnodeSession.dfy` | the callback protocol, which functions run, the trees, the walk in memory, the session class |
| `Traverse.dfy` | walk and clone on graphs |
| `JsPath.dfy`, `JsObjects.dfy` | paths into objects, on values and in memory |
| `MongoOp.dfy`, `MongoOrder.dfy`, `MongoEffect.dfy` | update operators, their order, what they leave |
| `Nesting.dfy`, `LexerSteps.dfy`, `LexerContents.dfy`, `LexerLines.dfy`, `PlainPrograms.dfy`, `Lexer.dfy` | tokens that open and close, the lexer's steps, what they keep of the text, what they say of its lines, examples, the class |
| `SourceMap.dfy` | the source map |
| `JsArray.dfy` | array indexing and splicing as in JavaScript |

## Where the code does not keep a promise

In each case the model follows the code; where the failure has a condition that a caller could check, that condition is
proved to be exact. Where the condition does not show an input by itself, a lemma gives one.

- The lexer looks at the end of its tokens by their text, whatever they are. Its loops take tokens off while their text is
  `;`, and a line break does so with a backslash: a program of the JavaScript `;` between backticks comes out empty
  (`PlainPrograms.SemicolonLost`). `in`, `of` and `instanceof` take in a token before them whose text is `!`, as that of `not`
  is, and `=` one whose text is `||` or `&&`, a comment or JavaScript as well (`PlainPrograms.XNotInY`,
  `PlainPrograms.NotBecomesPart`, `PlainPrograms.OrBecomesPart`). `LexerContents.LexKeeps` says exactly when no text is lost, and exactly when the tokens
  are those of the text one by one; `PlainPrograms.LexHarmless` that this is so where no token has such a text.
- A line that moves out to a column between two indentations leaves outdentation owed, and when the lines move out further
  with no indentation left it is never paid: a line three columns deeper then opens an indentation of five
  (`PlainPrograms.OwedLost`). As long as nothing is owed, indentations are exactly the columns of the lines
  (`LexerLines.RunLevels`), and a line closes exactly those deeper than it (`LexerLines.LinedMeans`).
- `removeLines(0, length - 1)` leaves no line at all, so it is excluded (`Documents.Document.PublicRemoveLines`).
- `replace` of a range by what it holds already returns the caller's position as it is: outside the document exactly when
  that names a row past the end (`Documents.Document.Replace`).
- `BackgroundTokenizer.setDocument` keeps `currentLine`: rows below it are taken for filled though the lists are
  empty, unless it is 0. A slice of the worker that runs out of time announces nothing.
- An anchor inside whole lines removed at the end of a document is outside it until it is clipped
  (`Anchors.AnchorInRemovedTail`, `Anchors.AnchorLeftOutside`).
- `isClean` looks at flushed entries only. With edits pending it says clean for a changed document
  (`UndoManagers.CleanWhilePending`); and after `markClean` with edits pending it can say so for another document than the
  one marked, even with nothing pending any more (`UndoManagers.MarkedWhilePending`). With nothing pending at each
  `markClean` and `reset` and when it is asked, it is right (`UndoManagers.UndoManager.Run`); with nothing pending when
  it is asked, it is right exactly when the marked lines were those of the last entry (`UndoManagers.CleanMeansMarked`).
- `undo` does not flush pending edits: the flush is a timer of 0 ms or `markUndoGroup`. Called before it, `undo` takes its
  entry back from lines it was not made for (`UndoManagers.UndoWhilePending`).
- A screen row that holds no column of its own, because a tab or a wide character is cut by the wrap limit, is not
  kept by going to the document and back (`Screen.ScreenRowKept`, `Screen.TabRowLost`).
- `RangeList.add` of an empty range right between two touching ranges removes one of them only and leaves the list
  overlapping (`RangeLists.AddResult`, `RangeLists.BetweenTouching`).
- `encodeVlq` is exact below 2^30 in magnitude only (`SourceMaps.VlqExact`, `SourceMaps.VlqAtLimit`).
- A dnode function that throws is not culled and may be started again (`DnodeProtocol.StartsCounted`,
  `DnodeProtocol.ThrowingStartsTwice`); one that is passed on again while it runs is culled right behind that message,
  exactly when it runs under the first id it is stored under (`DnodeProtocol.ResentWhileRunning`,
  `DnodeProtocol.ResentRun`).
- A function behind an empty object key is not put back at its place (`DnodeSessions.RoundTrip`,
  `DnodeSessions.PutBesideEmptyKey`).
- `$inc` and `$rename` behind a null depend on the order of the operation, though no path leads through another
  (`MongoOrders.OrderIrrelevantIff`, `MongoOrders.NullDecides`).

## Assumptions

- Text is a sequence of UTF-16 code units; the newline of a document is `\n`; positions have columns inside their line.
- No folds, no line widgets; the tab size is constant. The tokenizer is a function of a line and the state before it,
  and equal states lex alike.
- A key of an object is told apart from the inherited ones, and from the `length` of an array. Objects are trees of
  values in `JsPath.dfy`, `MongoOp.dfy` and `Scrubber.dfy`; functions have no properties of their own, and in `Traverse.dfy`
  no primitive value has, texts included. The order in which `Object.keys` lists keys is a parameter and may differ from
  object to object, and every order is covered; so is the comparison that `$addToSet` uses.
- The arguments of a call are objects without a cycle; one object may stand at several places of them. The proxy that is
  made for an id is a parameter.
- What the lexer recognises is given as events, with the text of each token: the matches of its regular expressions, which
  words are names of properties, `for` and relations, whether a line break comes after an unfinished line, and whether a closer
  follows it. The code inside an interpolated string is a list of events of its own. What the lexer then does with the tokens
  it has is modelled, `for` before `in` and `of` and the words that cannot be assigned to included.
- Scrubbing a message is not interrupted (no middleware of the user), the channels between two sessions keep messages
  in order, and a session handles the next message when no function it has been called for is running any more; it may emit
  calls at any time.

## Model

| member | source | states |
|---|---|---|
| TextModel.Split | client/thirdparty/ace/_ace.js:1 | `$split`: the pieces between newlines, at least one, none of them with a newline character in it |
| TextModel.SplitAgrees | client/thirdparty/ace/_ace.js:1 | splitting a text is splitting its normalised form at `\n` only: `\r\n`, `\r` and `\n` are one line break each |
| TextModel.SplitFlat | client/thirdparty/ace/_ace.js:1 | splitting the joined lines of a document gives those lines back |
| TextModel.NormalizeFlat | client/thirdparty/ace/_ace.js:1 | the joined lines are already normalised |
| TextModel.FlatJoin | client/thirdparty/ace/_ace.js:1 | joining two runs of lines at a seam joins their flat strings |
| TextModel.FlatCut | client/thirdparty/ace/_ace.js:1 | a valid position cuts the flat string at its offset |
| TextModel.OffsetOrder | client/thirdparty/ace/_ace.js:1 | positions are ordered as their offsets are |
| TextModel.ReplacedIsSplice | client/thirdparty/ace/_ace.js:1 | replacing the lines between two positions by pieces is one splice of the flat string |
| TextModel.RowStartShift | client/thirdparty/ace/_ace.js:1 | rows that two documents share start at offsets that differ by a constant |
| Deltas.ApplyKeepsLines | client/thirdparty/ace/_ace.js:1 | a primitive change keeps every line free of newline characters |
| Deltas.ApplyLength | client/thirdparty/ace/_ace.js:1 | how many lines a primitive change leaves |
| Deltas.LinesAfter | client/thirdparty/ace/_ace.js:1 | which old line each line outside the change is |
| Deltas.LeadsTrans | client/thirdparty/ace/_ace.js:1 | logs of deltas compose |
| Deltas.LeadsLast | client/thirdparty/ace/_ace.js:1 | a log can be taken apart at its last delta |
| Deltas.DeltaIsFlatEdit | client/thirdparty/ace/_ace.js:1 | each of the four deltas inserts or removes exactly its content in the flat string, at the offset of its start |
| Deltas.DeltaReplaces | client/thirdparty/ace/_ace.js:1 | each delta is one replacement of the stretch between its two positions |
| Deltas.RowStartsInserted | client/thirdparty/ace/_ace.js:1 | row offsets after an insertion: those behind it move by its size |
| Deltas.RowStartsRemoved | client/thirdparty/ace/_ace.js:1 | row offsets after a removal |
| Deltas.BetweenIsSlice | client/thirdparty/ace/_ace.js:1 | the lines between two positions, joined, are that slice of the flat string |
| Deltas.InsertTrainTrans | client/thirdparty/ace/_ace.js:1 | the deltas of one insertion, each starting where the one before ended, compose |
| Deltas.RemoveTrainTrans | client/thirdparty/ace/_ace.js:1 | the deltas of one removal, each inside what is left to remove, compose |
| EditShapes.ReplacedShape | client/thirdparty/ace/_ace.js:1 | the lines an edit leaves, line by line |
| EditShapes.RemovedThenInserted | client/thirdparty/ace/_ace.js:1 | `replace` as removal and insertion is one replacement |
| EditShapes.TextRangeIsBetween | client/thirdparty/ace/_ace.js:1 | `getTextRange` reads what lies between the two positions, rows past the end included |
| EditShapes.EditedAtLast | client/thirdparty/ace/_ace.js:1 | `$clipPosition`: an edit takes place at the last position of the document up to the one it names |
| EditShapes.SameText | client/thirdparty/ace/_ace.js:1 | replacing a range by the text it holds changes nothing, so `replace` may skip it |
| EditShapes.AppliedShapes | client/thirdparty/ace/_ace.js:1 | the public edit that `applyDeltas` calls has the effect of the delta itself |
| EditShapes.RevertedShapes | client/thirdparty/ace/_ace.js:1 | the public edit that `revertDeltas` calls undoes the delta |
| EditShapes.ReappliedIs | client/thirdparty/ace/_ace.js:1 | on the lines it fits, a delta done again through the public edits has its own effect |
| EditShapes.RevertedIs | client/thirdparty/ace/_ace.js:1 | after its own effect, a delta taken back restores the lines before it |
| EditShapes.ReappliedAllIs | client/thirdparty/ace/_ace.js:1 | `applyDeltas` of any log on the lines it was recorded for leads to the lines the log led to |
| EditShapes.RevertedAllIs | client/thirdparty/ace/_ace.js:1 | `revertDeltas` of any log restores the lines the log started from |
| EditShapes.AppendedAsText | client/thirdparty/ace/_ace.js:1 | `insertLines` past the end, done as text, appends the lines |
| EditShapes.ChunkInserted | client/thirdparty/ace/_ace.js:1 | lines inserted chunk after chunk are inserted at once |
| Documents.Document.constructor | client/thirdparty/ace/_ace.js:1 | a document of a text holds its pieces, in step with its session |
| Documents.Document.Signal | client/thirdparty/ace/_ace.js:1 | after a primitive change is announced, the session is in step with the new lines and has recorded the delta, unless it comes from undoing |
| Documents.Document.InsertInLine | client/thirdparty/ace/_ace.js:1 | `insertInLine`: the new line, the end of the text, one announced delta or none |
| Documents.Document.InsertNewLine | client/thirdparty/ace/_ace.js:1 | `insertNewLine`: the line in two, one announced delta |
| Documents.Document.InsertLinesAt | client/thirdparty/ace/_ace.js:1 | `_insertLines`: chunks of 61440 lines, each announced on its own, come to one insertion |
| Documents.Document.Insert | client/thirdparty/ace/_ace.js:1 | `insert`: for every text and position one replacement by the split text, announced as a train of insertions that ends at the position returned |
| Documents.Document.RemoveInLine | client/thirdparty/ace/_ace.js:1 | `removeInLine` |
| Documents.Document.RemoveNewLine | client/thirdparty/ace/_ace.js:1 | `removeNewLine` |
| Documents.Document.RemoveLinesAt | client/thirdparty/ace/_ace.js:1 | `_removeLines`: returns the rows it removes, one announced delta |
| Documents.Document.Remove | client/thirdparty/ace/_ace.js:1 | `remove`: for every pair of positions one replacement by nothing, announced as a train of removals inside the range |
| Documents.Document.Replace | client/thirdparty/ace/_ace.js:1 | `replace`: one replacement by the split text, also where it does nothing; the position returned lies behind the text, and is outside the document exactly when a skipped replacement was asked for past the end |
| Documents.Document.SetValue | client/thirdparty/ace/_ace.js:1 | `setValue`: the lines are the split text |
| Documents.Document.PublicInsertLines | client/thirdparty/ace/_ace.js:1 | `insertLines`, at or past the end too, where no lines at all are appended as an empty one |
| Documents.Document.PublicRemoveLines | client/thirdparty/ace/_ace.js:1 | `removeLines`, for rows past the end too |
| Documents.Document.ApplyDelta | client/thirdparty/ace/_ace.js:1 | doing a delta through the public edits, on whatever lines it can be done to: the lines this leads to |
| Documents.Document.RevertDelta | client/thirdparty/ace/_ace.js:1 | taking a delta back through the public edits, from whatever lines it can be taken back from |
| Documents.Document.ApplyDeltas | client/thirdparty/ace/_ace.js:1 | `applyDeltas`: the deltas one after the other |
| Documents.Document.RevertDeltas | client/thirdparty/ace/_ace.js:1 | `revertDeltas`: last to first |
| Documents.Document.PositionToIndex | client/thirdparty/ace/_ace.js:1 | `positionToIndex` is the offset counted from a row, rows past the end clipped |
| Documents.Document.IndexToPosition | client/thirdparty/ace/_ace.js:1 | `indexToPosition` is a valid position with that offset, or the end: the inverse of `positionToIndex` |
| Anchors.MovedIsShift | client/thirdparty/ace/_ace.js:1 | moving an anchor by row and column is shifting its offset: before the change unchanged, behind it moved by its size, inside a removal to its start |
| Anchors.Anchor.OnChange | client/thirdparty/ace/_ace.js:1 | `onChange` moves the anchor as one delta requires |
| Anchors.Anchor.Follow | client/thirdparty/ace/_ace.js:1 | over a run of deltas inside the document the anchor stays valid |
| Anchors.AnchorFollowsInsert | client/thirdparty/ace/_ace.js:1 | over all deltas of one insertion an anchor moves as in a string buffer; at the insertion it goes right, or stays with `$insertRight` |
| Anchors.AnchorFollowsRemove | client/thirdparty/ace/_ace.js:1 | over all deltas of one removal an anchor moves as in a string buffer |
| Anchors.AnchorInRemovedTail | client/thirdparty/ace/_ace.js:1 | an anchor among whole lines removed at the end of the document is left outside it: exactly when its row was removed |
| Anchors.AnchorLeftOutside | client/thirdparty/ace/_ace.js:1 | such an anchor: at the second of two lines when that is removed |
| Edits.InsertIsFlatInsert | client/thirdparty/ace/_ace.js:1 | `insert` as a whole: flat string, returned position and every anchor at once |
| Edits.RemoveIsFlatRemove | client/thirdparty/ace/_ace.js:1 | `remove` as a whole: flat string, returned position and every anchor at once |
| Edits.TrainCuts | client/thirdparty/ace/_ace.js:1 | the deltas of one removal, however it was split up, cut exactly the range out of the flat string |
| Edits.SkippedOffset | client/thirdparty/ace/_ace.js:1 | the position a skipped `replace` returns is one of the document exactly when its row is, and then lies behind the text |
| UndoManagers.UndoManager.Edit | client/thirdparty/ace/_ace.js:1 | an edit changes the lines as its position and text say and leaves its deltas pending |
| Edits.ReplaceIsFlatSplice | client/thirdparty/ace/_ace.js:1 | `replace` splices the normalised text into the flat string; the position returned lies between that text and what follows |
| Tokenizing.FilledIsFull | client/thirdparty/ace/_ace.js:1 | rows filled from the top, each lexed from the state before it, hold what lexing the document from row 0 gives |
| Tokenizing.MovedConsistent | client/thirdparty/ace/_ace.js:1 | splicing holes into the token and state lists keeps every entry that is left consistent with the edited document |
| Tokenizing.UpdatedConsistent | client/thirdparty/ace/_ace.js:1 | the update for a delta of several rows keeps the lists consistent, and filled as far as before the edit |
| Tokenizing.BackgroundTokenizer.SetTokenizer | client/thirdparty/ace/_ace.js:1 | `setTokenizer` starts over from row 0 |
| Tokenizing.BackgroundTokenizer.SetDocument | client/thirdparty/ace/_ace.js:1 | `setDocument` empties the lists and keeps `currentLine`: rows below it are filled afterwards if and only if it is 0 |
| Tokenizing.BackgroundTokenizer.Start | client/thirdparty/ace/_ace.js:1 | `start` drops all rows from the given one on; what is above stays filled |
| Tokenizing.BackgroundTokenizer.UpdateOnChange | client/thirdparty/ace/_ace.js:1 | `$updateOnChange` keeps the tokenizer valid for the edited document and restarts at the edited row at the latest |
| Tokenizing.BackgroundTokenizer.TokenizeRow | client/thirdparty/ace/_ace.js:1 | `$tokenizeRow` fills its row, drops the row after it only if its state has changed, and leaves all others |
| Tokenizing.BackgroundTokenizer.GetTokens | client/thirdparty/ace/_ace.js:1 | `getTokens` gives what full lexing gives for every row whose predecessors are filled |
| Tokenizing.BackgroundTokenizer.GetState | client/thirdparty/ace/_ace.js:1 | `getState`: up to the worker's row, and as far as rows are filled, the state that lexing from row 0 gives, an empty or missing one being the start state; no other row than the worker's is lexed for it |
| Tokenizing.BackgroundTokenizer.Worker | client/thirdparty/ace/_ace.js:1 | a slice of the worker ends with every row lexed, or gives up its turn after as many rows as the first multiple of five that reaches the patience of the clock; only the rows it lexes and those after them change, and it announces all rows it changed only when it ends |
| Tokenizing.BackgroundTokenizer.Drain | client/thirdparty/ace/_ace.js:1 | the worker ends after finitely many slices for any clock, and then every row is what lexing from row 0 gives |
| Wrapping.ScreenTabSize | client/thirdparty/ace/_ace.js:1 | `getScreenTabSize` ends at a multiple of the tab size |
| Wrapping.AllColumns | client/thirdparty/ace/_ace.js:1 | a line has as many columns as its display tokens count |
| Wrapping.TokenCut | client/thirdparty/ace/_ace.js:1 | the tokens up to any point count exactly the columns begun before it |
| Wrapping.GetDisplayTokens | client/thirdparty/ace/_ace.js:1 | `$getDisplayTokens`: the loop gives the tokens of each character, tab stops and wide characters included |
| Wrapping.CharKinds | client/thirdparty/ace/_ace.js:1 | which token begins a character: blanks, punctuation, and others; the rest of a tab or a wide character begins none |
| Wrapping.Fit | client/thirdparty/ace/_ace.js:1 | how many characters fit a width: that many do, one more does not |
| Wrapping.FitWidth | client/thirdparty/ace/_ace.js:1 | the characters that fit the width of a prefix are that prefix |
| Wrapping.GetStringScreenWidth | client/thirdparty/ace/_ace.js:1 | `$getStringScreenWidth`: width and count, with and without a limit |
| Wrapping.ReplacementsFindTwos | client/thirdparty/ace/_ace.js:1 | `addSplit`: the two replacements of 12 and of 2 find every digit 2 exactly once |
| Wrapping.TwosAreExtensions | client/thirdparty/ace/_ace.js:1 | in the joined digits of a chunk the digit 2 stands exactly for the CHAR_EXT and TAB_SPACE tokens |
| Wrapping.ChunkColumns | client/thirdparty/ace/_ace.js:1 | so the length `addSplit` computes is the number of columns of the chunk |
| Wrapping.ChunkEnd | client/thirdparty/ace/_ace.js:1 | every branch of `$computeWrapSplits` makes progress, by limit + 1 tokens at most |
| Wrapping.ChunkBreaks | client/thirdparty/ace/_ace.js:1 | where a chunk ends, and nowhere else: at the limit between two blanks; else for text right behind the last blank of the window in front of the limit; for code the same unless punctuation follows it, and then in front of the last run of punctuation; at the limit when the window holds none |
| Wrapping.WrapsWell | client/thirdparty/ace/_ace.js:1 | so it is for every split of a line: each is the columns in front of such an end, chunk after chunk |
| Wrapping.ChunkBounds | client/thirdparty/ace/_ace.js:1 | every chunk has between 1 and limit + 1 tokens and the rest at most limit |
| Wrapping.SplitsAtEnds | client/thirdparty/ace/_ace.js:1 | each recorded split is the number of columns before the end of its chunk |
| Wrapping.ComputeWrapSplits | client/thirdparty/ace/_ace.js:1 | `$computeWrapSplits`: the loop computes those splits, each in front of a break as it should be |
| Wrapping.NextSplit | client/thirdparty/ace/_ace.js:1 | one round of its loop, with the scans back for code and for text, ends at such a break |
| Wrapping.SplitsAreColumns | client/thirdparty/ace/_ace.js:1 | the splits of a line are columns of it, in order |
| Wrapping.LineRoundTrip | client/thirdparty/ace/_ace.js:1 | inside one line, wrapped or not: document column to screen column and back |
| Wrapping.RowRoundTrip | client/thirdparty/ace/_ace.js:1 | inside one line: which screen rows come back, exactly |
| Wrapping.ColumnShown | client/thirdparty/ace/_ace.js:1 | the column looked up on a wrapped row is the last one of that row that is drawn at or before the screen column, and so the last of the row past its end; a row without a column gives the one before the next split |
| Screen.ScreenStartIncreases | client/thirdparty/ace/_ace.js:1 | screen rows grow with document rows |
| Screen.RowAtUnique | client/thirdparty/ace/_ace.js:1 | the document row of a screen row is the only one that starts at or before it with the next one after it |
| Screen.ClippedToLast | client/thirdparty/ace/_ace.js:1 | `$clipPositionToDocument`: the last position of the document up to the one asked for |
| Screen.HereIsOne | client/thirdparty/ace/_ace.js:1 | the screen position of a document position is the only one on the wrapped row that holds its column, as far right as it is drawn |
| Screen.ThereIsOne | client/thirdparty/ace/_ace.js:1 | the document position at a screen position is the only one in the row drawn there whose column is the last drawn at or before it; past the document it is its end |
| Screen.ScreenRoundTrip | client/thirdparty/ace/_ace.js:1 | document to screen and back is the identity on every valid position, with wrapping on or off |
| Screen.ScreenRowKept | client/thirdparty/ace/_ace.js:1 | screen to document and back keeps the screen row exactly when that row has a column of its own |
| Screen.TabRowLost | client/thirdparty/ace/_ace.js:1 | such a row: the second screen row of a tab of eight cells that is wrapped at two |
| EditSessions.CachesIncrease | client/thirdparty/ace/_ace.js:1 | both row caches are strictly increasing |
| EditSessions.WrapSpliced | client/thirdparty/ace/_ace.js:1 | splicing the wrap data leaves only the touched rows to wrap again |
| EditSessions.UnwrappedCaches | client/thirdparty/ace/_ace.js:1 | without wrapping the caches do not depend on the wrap limit |
| EditSessions.ConstrainWrapLimit | client/thirdparty/ace/_ace.js:1 | `$constrainWrapLimit`: a limit within its bounds stays, any other becomes the bound it passes, the upper one when the two are crossed |
| EditSessions.EditSession.GetRowCacheIndex | client/thirdparty/ace/_ace.js:1 | `$getRowCacheIndex`: the binary search finds the last entry not above the value |
| EditSessions.EditSession.ResetRowCache | client/thirdparty/ace/_ace.js:1 | `$resetRowCache` keeps exactly cache entries that still hold for the edited document |
| EditSessions.EditSession.UpdateWrapData | client/thirdparty/ace/_ace.js:1 | `$updateWrapData` completes the wrap data |
| EditSessions.EditSession.UpdateInternalDataOnChange | client/thirdparty/ace/_ace.js:1 | after an edit the wrap data has one entry per line, each what wrapping from scratch gives |
| EditSessions.EditSession.OnChange | client/thirdparty/ace/_ace.js:1 | wrap data, row caches and tokenizer all stay in step with any delta; the delta is recorded unless it comes from undoing |
| EditSessions.EditSession.SetUseWrapMode | client/thirdparty/ace/_ace.js:1 | turning wrapping on or off keeps wrap data and caches right |
| EditSessions.EditSession.AdjustWrapLimit | client/thirdparty/ace/_ace.js:1 | `adjustWrapLimit`: which limit is taken, and that wrap data and caches stay right |
| EditSessions.EditSession.SetWrapMethod | client/thirdparty/ace/_ace.js:1 | `setWrapMethod` keeps them right too |
| EditSessions.EditSession.GetRowLength | client/thirdparty/ace/_ace.js:1 | `getRowLength` |
| EditSessions.EditSession.DocumentToScreenPosition | client/thirdparty/ace/_ace.js:1 | for any content of the caches, the screen position where the column is drawn; the caches may grow |
| EditSessions.EditSession.ScreenToDocumentPosition | client/thirdparty/ace/_ace.js:1 | for any content of the caches, the document position drawn there: on a wrapped row the last column at or before the screen column; the caches may grow |
| EditSessions.EditSession.ScreenRowOf | client/thirdparty/ace/_ace.js:1 | its row loop, started from the cache: the sum of the row lengths above |
| EditSessions.EditSession.DocRowOf | client/thirdparty/ace/_ace.js:1 | its row loop, started from the cache: the document row at a screen row |
| UndoManagers.ExecuteKeeps | client/thirdparty/ace/_ace.js:1 | `execute`, merging or not, extends the timeline and keeps what a clean counter means, the NaN case included |
| UndoManagers.UndoKeeps | client/thirdparty/ace/_ace.js:1 | `undo` moves back on the same timeline |
| UndoManagers.RedoKeeps | client/thirdparty/ace/_ace.js:1 | `redo` moves forward on the same timeline |
| UndoManagers.UndoRedoCancel | client/thirdparty/ace/_ace.js:1 | undo and redo cancel, counter included |
| UndoManagers.CleanLost | client/thirdparty/ace/_ace.js:1 | a new edit loses the counter exactly when it takes the clean state off the timeline; else the clean state stays at its distance |
| UndoManagers.UndoChanges | client/thirdparty/ace/_ace.js:1 | `undoChanges` takes the deltas of an entry back last to first and records nothing |
| UndoManagers.RedoChanges | client/thirdparty/ace/_ace.js:1 | `redoChanges` does them again and records nothing |
| UndoManagers.UndoManager.Execute | client/thirdparty/ace/_ace.js:1 | `execute` on the stacks |
| UndoManagers.UndoManager.Sync | client/thirdparty/ace/_ace.js:1 | pending deltas become one entry that leads to the present lines |
| UndoManagers.UndoManager.Undo | client/thirdparty/ace/_ace.js:1 | `undo`, with edits pending or not: the entry is taken back from the present lines and the pending edits stay; with none pending the document is at the timeline's state one step back |
| UndoManagers.UndoManager.Redo | client/thirdparty/ace/_ace.js:1 | `redo` likewise: with no edits pending the document is at the timeline's state one step forward |
| UndoManagers.UndoManager.Reset | client/thirdparty/ace/_ace.js:1 | `reset` empties the stacks and is clean; the timeline starts again at the last entry, and pending edits stay |
| UndoManagers.UndoManager.MarkClean | client/thirdparty/ace/_ace.js:1 | `markClean` makes the state of the last entry the clean one, whatever is pending |
| UndoManagers.UndoManager.Take | client/thirdparty/ace/_ace.js:1 | every step of a user has exactly its effect on the level of whole documents: the lines after an edit, the states undo and redo lead through after a flush, the counter |
| UndoManagers.UndoManager.Run | client/thirdparty/ace/_ace.js:1 | any run of edits, flushes, undo, redo, reset and markClean goes as on the level of whole documents; when the manager says clean with nothing pending, the lines are those of the clean state, and if nothing was pending at any markClean or reset either, those the document had then |
| UndoManagers.CleanMeansMarked | client/thirdparty/ace/_ace.js:1 | when the manager says clean with nothing pending, the lines are the marked ones if and only if these were the lines of the last entry when they were marked |
| UndoManagers.CleanWhilePending | client/thirdparty/ace/_ace.js:1 | a document that has changed while the manager says clean: after one edit that is not flushed |
| UndoManagers.MarkedWhilePending | client/thirdparty/ace/_ace.js:1 | a document that is not the marked one, with nothing pending and the manager saying clean: insert, `markClean`, flush, undo |
| UndoManagers.UndoWhilePending | client/thirdparty/ace/_ace.js:1 | an undo before the flush: with a letter just typed in front of the entry's letter, the letter just typed is removed |
| RangeLists.RangeList.PointIndex | client/thirdparty/ace/_ace.js:1 | `pointIndex` looks at the first range that does not end before the point |
| RangeLists.RangeList.ContainsPoint | client/thirdparty/ace/_ace.js:1 | a point is found if and only if some range covers it |
| RangeLists.RangeList.Add | client/thirdparty/ace/_ace.js:1 | `add`: the result is the old list with the returned ranges replaced by the new one; they are exactly the overlapping ones, and the list stays separated, if and only if the new range is not an empty one between two touching ranges |
| RangeLists.RangeList.Merge | client/thirdparty/ace/_ace.js:1 | `merge` separates the ranges and covers the same points; the ranges returned and those kept are the old ones, each kept one stays where it starts and may reach further, and each returned one lies inside a range of the result |
| RangeLists.AddEmpty | client/thirdparty/ace/_ace.js:1 | where an empty range goes |
| RangeLists.AddNonEmpty | client/thirdparty/ace/_ace.js:1 | where any other range goes |
| RangeLists.AddResult | client/thirdparty/ace/_ace.js:1 | the exact condition under which adding keeps the list separated |
| RangeLists.BetweenTouching | client/thirdparty/ace/_ace.js:1 | such a range: one of the two goes, and the list overlaps |
| RangeLists.MergeSorted | client/thirdparty/ace/_ace.js:1 | the loop that splices while it goes on, for any order by start |
| RangeLists.MergedCovers | client/thirdparty/ace/_ace.js:1 | merging two neighbours covers the same points |
| SourceMaps.Base64RoundTrip | website/coffee-script.js:11 | the base64 alphabet is invertible |
| SourceMaps.VlqRoundTrip | website/coffee-script.js:11 | VLQ digits are prefix-free: reading stops where the number ends |
| SourceMaps.VlqExact | website/coffee-script.js:11 | a signed value survives the 32-bit shift of `encodeVlq` if and only if it is below 2^30 in magnitude |
| SourceMaps.VlqAtLimit | website/coffee-script.js:11 | at 2^30 the quantity to be printed is negative |
| SourceMaps.EncodeVlq | website/coffee-script.js:11 | `encodeVlq` writes those digits |
| SourceMaps.SegmentRoundTrip | website/coffee-script.js:11 | the four fields of a printed segment are read back, up to the separator that follows, each as the number its quantity stands for |
| SourceMaps.PositionExact | website/coffee-script.js:11 | they give the recorded position if and only if its three differences are below 2^30 in magnitude |
| SourceMaps.MappingsRoundTrip | website/coffee-script.js:11 | decoding printed mappings by the rules of the Source Map Revision 3 Proposal, section Proposed Format, with segments of one, four or five fields, gives the entries back if and only if every printed difference is below 2^30 in magnitude |
| SourceMaps.EntriesFollow | website/coffee-script.js:11 | the entries printed are exactly those recorded, in order of line and column |
| SourceMaps.GenerateIsLossless | website/coffee-script.js:11 | where printing ends, the printed string determines every recorded position if and only if every printed difference is below 2^30 in magnitude |
| SourceMaps.SmallInReach | website/coffee-script.js:11 | which is so where all rows and columns are below 2^30 |
| SourceMaps.InReachIsPrintable | website/coffee-script.js:11 | and then printing ends |
| SourceMaps.SourceMap.Add | website/coffee-script.js:11 | `add` records one position, keeps it with noReplace, and changes no other |
| SourceMaps.SourceMap.SourceLocation | website/coffee-script.js:11 | `sourceLocation` finds the nearest recorded position at or before a place |
| SourceMaps.SourceMap.Generate | website/coffee-script.js:11 | the loops of `generate` print those mappings |
| Nesting.NestAppend | website/coffee-script.js:8 | nesting is read run by run |
| Nesting.NestAbove | website/coffee-script.js:8 | a properly nested run can stand anywhere |
| Nesting.ProperlyNestedIsTree | website/coffee-script.js:8 | tokens are properly nested if and only if they are the tokens of a tree with matching brackets |
| LexerSteps.MoveOutShrinks | website/coffee-script.js:8 | the loop of `outdentToken` never opens anything, and with an indentation to move out of it closes something or pays off outdentation owed; what it does not close it leaves alone |
| LexerSteps.OutdentedMeans | website/coffee-script.js:8 | `outdentToken` makes progress, ends at the column asked for unless a closer is ahead, and with a line terminator unless told not to |
| LexerSteps.PopNests | website/coffee-script.js:8 | taking tokens off the end by their text never touches the nesting |
| LexerSteps.RelatedNests | website/coffee-script.js:8 | nor does making one part of a relation |
| LexerSteps.AssignedNests | website/coffee-script.js:8 | or of an assignment |
| LexerSteps.OutdentedNests | website/coffee-script.js:8 | `outdentToken` keeps the closers due exactly those that the tokens leave open |
| LexerSteps.PairedNests | website/coffee-script.js:8 | `pair` for a bracket closes what is open inside it, so that its closer fits |
| LexerSteps.LinedNests | website/coffee-script.js:8 | `lineToken` keeps the closers due exactly those left open, in each of its branches |
| LexerSteps.PiecesNest | website/coffee-script.js:8 | what the lexers started for the code in an interpolated string return is properly nested, at any depth |
| LexerSteps.StrungNests | website/coffee-script.js:8 | `interpolateString` puts it together properly nested |
| LexerSteps.NextNests | website/coffee-script.js:8 | every event keeps the closers due exactly those left open |
| LexerSteps.LexNests | website/coffee-script.js:8 | what `tokenize` returns is properly nested and ends with a line terminator |
| LexerLines.LinedMeans | website/coffee-script.js:8 | `lineToken`: a line that is ended leaves one terminator in place of the semicolons at its end, or one indentation when the next is deeper; a line that goes on adds none; a line that is not deeper closes exactly the indentations deeper than it, each outdent saying by how much, where nothing is owed |
| LexerLines.OutdentedLevels | website/coffee-script.js:8 | `outdentToken` while nothing is owed: which indentations are left, and in which column the line stands |
| LexerLines.NextLevels | website/coffee-script.js:8 | every event keeps the column of a line that of its innermost indentation and what it stands in from there, while nothing is owed |
| LexerLines.RunLevels | website/coffee-script.js:8 | so it is for a whole program in which nothing is ever owed |
| LexerLines.SeenForMeans | website/coffee-script.js:8 | `seenFor` says that a `for` of this line waits for its `in` or `of` |
| LexerLines.NextStays | website/coffee-script.js:8 | tokens up to one whose text is not looked for stay in front of all later ones |
| LexerLines.LexLines | website/coffee-script.js:8 | in the tokens of a program every line that is ended is followed by its terminator or by the indentation of the next line, right behind what the program consists of up to there |
| LexerContents.TerminatedSolid | website/coffee-script.js:8 | `newlineToken` keeps everything that stands for the text unless such a token is among those at the end whose text is a semicolon; then there are fewer |
| LexerContents.SuppressedSolid | website/coffee-script.js:8 | `suppressNewlines` likewise, for a token at the end whose text is a backslash |
| LexerContents.FusedSolid | website/coffee-script.js:8 | a token made part of the next one: the texts joined stay the same, with one token less |
| LexerContents.RelatedSolid | website/coffee-script.js:8 | `in`, `of` and `instanceof` keep all of the text; they take in the token before them exactly when its text is an exclamation mark, and none after a `for` with the first two |
| LexerContents.AssignedSolid | website/coffee-script.js:8 | `=` keeps all of the text, and takes in the token before it exactly when its text is `||` or `&&` |
| LexerContents.OutdentedSolid | website/coffee-script.js:8 | `outdentToken` keeps everything that stands for the text, unless it closes nothing and finds something of the text at the end whose own text is a semicolon; then there are fewer |
| LexerContents.PairedSolid | website/coffee-script.js:8 | `pair` keeps everything that stands for the text unless one of its outdents does not |
| LexerContents.StrungSolid | website/coffee-script.js:8 | an interpolated string is its pieces, with signs and brackets between them that stand for nothing |
| LexerContents.SummedAt | website/coffee-script.js:8 | the pieces of an interpolated string stand one after the other with one plus sign between each two |
| LexerContents.StrungMeans | website/coffee-script.js:8 | it begins with a text, and is in brackets when it has several pieces |
| LexerContents.CodeMeans | website/coffee-script.js:8 | the code of a piece is one token or several in brackets |
| LexerContents.TrimmedMeans | website/coffee-script.js:8 | without the terminator at its end and one at its start |
| LexerContents.NextSolid | website/coffee-script.js:8 | every event adds what it stands for; when text is lost and when tokens are made into one is said by its branch, and there is less exactly then |
| LexerContents.LexKeeps | website/coffee-script.js:8 | layout aside, the texts of the tokens joined are those of the program if and only if no event takes off a token of it as if it were a semicolon or a backslash; and the tokens are those of the program if and only if, besides, none is made part of the relation or assignment after it |
| PlainPrograms.LexHarmless | website/coffee-script.js:8 | no text is lost where no token of the program is a lone semicolon or backslash, and the tokens stay as they are where none is `!`, `||` or `&&` |
| PlainPrograms.SemicolonLost | website/coffee-script.js:8 | a program of one token whose text is a semicolon comes out empty |
| PlainPrograms.NotBecomesPart | website/coffee-script.js:8 | `!` or `not` before a relation: one token, and no text lost |
| PlainPrograms.XNotInY | website/coffee-script.js:8 | the tokens of `x not in y` are three and a line terminator |
| PlainPrograms.OrBecomesPart | website/coffee-script.js:8 | `||` before `=`: one token, and no text lost |
| PlainPrograms.TwoLines | website/coffee-script.js:8 | two lines of one word each: a terminator behind each |
| PlainPrograms.OwedLost | website/coffee-script.js:8 | a program after which the indentation is not the column of the line |
| Lexing.Lexer.TakeSemicolons | website/coffee-script.js:8 | the loop that takes tokens off the end while their text is a semicolon |
| Lexing.Lexer.LineToken | website/coffee-script.js:8 | `lineToken` on the fields of the lexer, the errors included; what that means is `LexerLines.LinedMeans` |
| Lexing.Lexer.OutdentToken | website/coffee-script.js:8 | `outdentToken` with its loop, its calls of `pair`, and the errors; it ends by the measure of closers and outdentation owed |
| Lexing.Lexer.Pair | website/coffee-script.js:8 | `pair`, which calls `outdentToken` and itself until the closer expected is at the end |
| Lexing.Lexer.InterpolateString | website/coffee-script.js:8 | `interpolateString` with a lexer of its own for each piece of code |
| Lexing.Lexer.Tokenize | website/coffee-script.js:8 | `tokenize` with rewriting off: it fails exactly when some step fails; else no closer is left, the tokens are properly nested, every line is laid out as `LexLines` says, and layout aside they hold the text, and are its tokens, exactly under the conditions of `LexKeeps` |
| DnodeProtocol.ScrubKeeps | node_modules_koding/koding-dnode-protocol/index.js:174-193 | every function of a message gets an id of its own, live and standing for that very function, however often it occurs or has been passed before |
| DnodeProtocol.SendKeeps | node_modules_koding/koding-dnode-protocol/index.js:65-76 | `request` keeps the invariant of a session |
| DnodeProtocol.ReceiveKeeps | node_modules_koding/koding-dnode-protocol/index.js:89-127 | `handle` keeps it |
| DnodeProtocol.FinishKeeps | node_modules_koding/koding-dnode-protocol/index.js:276-295 | a function that returns is culled, and the news goes out behind all messages that mention it |
| DnodeProtocol.ThrowKeeps | node_modules_koding/koding-dnode-protocol/index.js:276-283 | a function that throws keeps its id |
| DnodeProtocol.ReceiveRemote | node_modules_koding/koding-dnode-protocol/index.js:89-115 | handling one more message keeps the proxies those that are mentioned and not culled so far |
| DnodeProtocol.Reachable | node_modules_koding/koding-dnode-protocol/index.js:43-59 | the invariant of two sessions over first-in-first-out channels holds in every reachable state |
| DnodeProtocol.ProxiesAreLive | node_modules_koding/koding-dnode-protocol/index.js:50-58 | in every reachable state each id with a proxy is live at its owner or the news of its culling is in flight, and no message after that news mentions the id |
| DnodeProtocol.StartsCounted | node_modules_koding/koding-dnode-protocol/index.js:285-295 | over a whole run the function of an id starts exactly once for each throw, once if it is running, and once if it has returned, which culls the id; so without throws at most once |
| DnodeStarts.HandledStarts | node_modules_koding/koding-dnode-protocol/index.js:123-124 | a message that calls a live id starts the function given that id, and any other message none |
| DnodeStarts.StartsAreCalls | node_modules_koding/koding-dnode-protocol/index.js:117-127 | over a whole run the functions started in a session are exactly those of the live ids that its messages call, in that order |
| DnodeStarts.ReturnCulls | node_modules_koding/koding-dnode-protocol/index.js:276-295 | a function that returns culls the very id it was started under |
| DnodeStarts.SentGiven | node_modules_koding/koding-dnode-protocol/index.js:174-193 | the ids in a message are given to the functions it passes on |
| DnodeStarts.PassedFunctionRuns | node_modules_koding/koding-dnode-protocol/index.js:117-127 | calling the id that a message gave to an occurrence of a function runs that very function, if the id is live when the call is handled |
| DnodeProtocol.GivenForGood | node_modules_koding/koding-dnode-protocol/index.js:256-270 | over a whole run the store holds under an id the function it was given to, or nothing for good once that is culled |
| DnodeProtocol.StoreKept | node_modules_koding/koding-dnode-protocol/index.js:256-270 | what a grown session has in its store |
| DnodeProtocol.WhichIds | node_modules_koding/koding-dnode-protocol/index.js:174-193 | a message uses an id that is live already if and only if it holds its function and the id is the first one of that |
| DnodeProtocol.ThrowingStartsTwice | node_modules_koding/koding-dnode-protocol/index.js:276-283 | a run in which a function that throws is started twice |
| DnodeProtocol.ResentWhileRunning | node_modules_koding/koding-dnode-protocol/index.js:178-186 | all ids of a message sent while a function runs are still live after that function has returned, unless the message holds that very function and it runs under the first id it is stored under: then, and only then, the id is culled right behind the message |
| DnodeProtocol.ResentRun | node_modules_koding/koding-dnode-protocol/index.js:178-186 | a run from the start that gets there |
| Scrubbing.WalkMeets | node_modules_koding/traverse/index.js:111-227 | the walk meets every node of a tree |
| Scrubbing.WalkSound | node_modules_koding/traverse/index.js:111-227 | and each at the path it says |
| Scrubbing.WalkOnce | node_modules_koding/traverse/index.js:111-227 | and none twice |
| Scrubbing.FunctionsMet | node_modules_koding/scrubber/index.js:46-77 | the functions a scrub meets are exactly those of the tree, at paths of their own |
| Scrubbing.FillNode | node_modules_koding/traverse/index.js:149-154 | the tree with functions replaced: what is at each path |
| Scrubbing.ReplaceFills | node_modules_koding/traverse/index.js:149-154 | updating the node of one cursor replaces the function at its path and nothing else |
| Scrubbing.SetIsReplace | node_modules_koding/jspath/index.js:77-96 | `setAt` along an existing path without an empty key before its end replaces exactly what is there |
| Scrubbing.SetAllFills | node_modules_koding/koding-dnode-protocol/index.js:197-212 | setting values at function paths one after the other fills them all in |
| Scrubbing.NeverSetAll | node_modules_koding/jspath/index.js:77-96 | no `setAt` puts a function where a path leads through an empty key |
| Scrubbing.FillSame | node_modules_koding/traverse/index.js:149-154 | only what replaces the functions of a tree matters |
| ScrubWalks.ChildStands | node_modules_koding/traverse/index.js:111-227 | what an object in memory holds under a key is the child of the tree |
| ScrubWalks.OneKeyMore | node_modules_koding/traverse/index.js:149-154 | a copy of which one property more has been replaced by the copy of its child |
| ScrubWalks.WalkObject | node_modules_koding/traverse/index.js:111-227 | `walk` with `immutable`: new objects hold the same tree, and the cursors are those of the walk of the tree, each with the copy that holds its node |
| ScrubWalks.Update | node_modules_koding/traverse/index.js:149-154 | `update` after the walk: the tree of copies is the tree with the node of that cursor replaced |
| ScrubWalks.Serialize | node_modules_koding/koding-dnode-protocol/index.js:214-224 | the message carries exactly the tree that the copies hold by then |
| DnodeSessions.MessageMeans | node_modules_koding/koding-dnode-protocol/index.js:174-224 | the callbacks of a message: distinct ids, each with the path of the very function it is live for |
| DnodeSessions.ProxyOfEach | node_modules_koding/koding-dnode-protocol/index.js:197-207 | the proxy expected at the path of each function |
| DnodeSessions.RoundTrip | node_modules_koding/koding-dnode-protocol/index.js:174-224 | unscrubbing a scrubbed tree, in any order of the ids, gives the tree with every function replaced by the proxy of its id and nothing else changed, if and only if no function lies behind an empty key |
| DnodeSessions.PutBesideEmptyKey | node_modules_koding/jspath/index.js:77-96 | such a function: it goes out under its path and its proxy is put beside the empty key |
| DnodeSessions.DnodeStore.Find | node_modules_koding/koding-dnode-protocol/index.js:272-274 | `indexOf` |
| DnodeSessions.DnodeSession.IdFor | node_modules_koding/koding-dnode-protocol/index.js:174-193 | the function mutator: reuse of an id not yet in the message, or a new one with one more time to run |
| DnodeSessions.DnodeSession.Scrub | node_modules_koding/scrubber/index.js:46-77 | `scrub`: the objects of the arguments are unchanged; new objects hold the arguments with every function replaced, and each function has its id and path |
| DnodeSessions.DnodeSession.Request | node_modules_koding/koding-dnode-protocol/index.js:65-76 | `request`: the session takes the step of the protocol and emits the message of the tree its arguments hold, and no object of them changes |
| DnodeSessions.DnodeSession.Unscrub | node_modules_koding/koding-dnode-protocol/index.js:197-212 | `unscrub`: the proxies are made and set, whatever the order of the ids, up to the path that fails, if one does |
| DnodeSessions.DnodeSession.Handle | node_modules_koding/koding-dnode-protocol/index.js:89-127 | `handle`: the session takes the step of the protocol, and its arguments are the unscrubbed ones; when that fails, proxies have been made for the ids up to the one that fails, and nothing else has happened |
| DnodeSessions.DnodeSession.Return | node_modules_koding/koding-dnode-protocol/index.js:276-295 | `wrap` and `autoCull` after the function returns |
| DnodeSessions.DnodeSession.Fail | node_modules_koding/koding-dnode-protocol/index.js:276-283 | `wrap` when the function throws |
| JsPaths.PutGrows | node_modules_koding/jspath/index.js:77-96 | assigning to an index makes an array just long enough |
| JsPaths.ReadAt | node_modules_koding/jspath/index.js:51-62 | the loop of `getAt` |
| JsPaths.StepRead | node_modules_koding/jspath/index.js:77-137 | what was set is read back; what was deleted is gone |
| JsPaths.StepTwice | node_modules_koding/jspath/index.js:77-96 | only the last of several writes to a path counts |
| JsPaths.StepSame | node_modules_koding/jspath/index.js:77-96 | writing back what is there changes nothing |
| JsPaths.StepFrame | node_modules_koding/jspath/index.js:51-137 | a step along one path is read along no path apart from it, except that a null on the shared way becomes undefined |
| JsPaths.StepsCommute | node_modules_koding/jspath/index.js:77-137 | steps along paths that are apart commute, failing included |
| JsPaths.NullSharedMeans | node_modules_koding/jspath/index.js:51-62 | the null on the shared way, said by the common beginnings of the two paths |
| JsPaths.SharedFrame | node_modules_koding/jspath/index.js:77-137 | no step along a third path brings such a null about |
| JsObjects.PutAll | node_modules_koding/jspath/index.js:77-96 | after one object of a tree is changed, which objects hold which node: all others hold what they held |
| JsObjects.PutInPlace | node_modules_koding/jspath/index.js:77-96 | one assignment in memory, of a plain value or of an object with all that is in it, turns the tree there into the tree with that property set, and no object is shared |
| JsObjects.StepFrom | node_modules_koding/jspath/index.js:77-96 | the walk of `setAt` can be cut at any key |
| JsObjects.StepMade | node_modules_koding/jspath/index.js:77-96 | making an empty object where one is missing does not change where `setAt` leads |
| JsObjects.SetAtInPlace | node_modules_koding/jspath/index.js:77-96 | `setAt` on objects in memory, for any value that is no part of them: its loop makes the missing objects, changes nothing when it fails, and leaves the tree that `setAt` is specified to give |
| MongoOps.AddedAllKeeps | node_modules_koding/mongoop/index.js:57-97 | `$addToSet` keeps an array without repeats so, adds only values of the field, and all of them are found afterwards |
| MongoOps.AddEach | node_modules_koding/mongoop/index.js:57-97 | its loops |
| MongoOps.AddToSetKeeps | node_modules_koding/mongoop/index.js:57-97 | the same on a document: an array without repeats, or nothing, becomes an array without repeats |
| MongoEffects.ExecLeaves | node_modules_koding/mongoop/index.js:57-171 | what each operator leaves, by what is read afterwards: `$inc` the number gone up, `$set` its value, `$unset` nothing, `$push` and `$pushAll` the items followed by the new ones, `$pop` all but the last, `$rename` the value at the new path and none at the old one, `$addToSet` the items followed by those values that were not found |
| MongoEffects.AddedIncludes | node_modules_koding/mongoop/index.js:57-97 | `$addToSet` on any collection: no value is added that was found before it, and all are found in the end |
| MongoEffects.LeavesStay | node_modules_koding/mongoop/index.js:21-55 | what an update leaves is still there after updates apart from it |
| MongoEffects.RunEffects | node_modules_koding/mongoop/index.js:21-171 | an operation whose paths are apart leaves what each of its updates leaves, from what was there before, except behind a null that a clash replaces; what is apart from all its paths stays |
| MongoEffects.Succeeds | node_modules_koding/mongoop/index.js:57-171 | when an update succeeds: no primitive value on the way, and a number or an array where one is needed |
| MongoEffects.HalfwayLeaves | node_modules_koding/mongoop/index.js:57-159 | what an update that fails leaves |
| MongoEffects.ApplyTo | node_modules_koding/mongoop/index.js:21-33 | `applyTo`: all updates in order, until one fails, and what each leaves in the end; of a failing one only the deletion of a `$rename`, or the new array of an `$addToSet` without a value, is left |
| MongoOrders.StepsFrame | node_modules_koding/jspath/index.js:51-137 | what a list of steps leaves of what can be read apart from them |
| MongoOrders.ListsCommute | node_modules_koding/jspath/index.js:77-137 | lists of steps that are apart commute |
| MongoOrders.PlanKept | node_modules_koding/mongoop/index.js:139-171 | without a clash an update does after another what it would have done before |
| MongoOrders.OpsCommute | node_modules_koding/mongoop/index.js:21-171 | two updates that are apart and do not clash give the same in both orders, failing included |
| MongoOrders.RunSucceeds | node_modules_koding/mongoop/index.js:21-55 | an operation whose paths are apart succeeds, in any order, exactly when each of its updates would on its own |
| MongoOrders.AnyOrder | node_modules_koding/mongoop/index.js:21-171 | without a clash every order of an operation does the same, failing included |
| MongoOrders.MissingStays | node_modules_koding/mongoop/index.js:21-55 | what reads as missing does so after any updates apart from it |
| MongoOrders.GroupedFirst | node_modules_koding/mongoop/index.js:21-55 | an operation can begin with any of its updates, the fields of each operator together |
| MongoOrders.ClashShows | node_modules_koding/mongoop/index.js:152-171 | after a clash, an order that begins with the sensitive update and one that begins with the other leave different values where it shows what it has read |
| MongoOrders.OrderIrrelevantIff | node_modules_koding/mongoop/index.js:21-171 | an operation whose paths are apart and which succeeds leaves the same document in every order it can have, the fields of an operator together, if and only if no update reads, to increment or rename it, what lies behind a null that another one replaces |
| MongoOrders.NullDecides | node_modules_koding/mongoop/index.js:161-171 | such an operation: `$inc` of `a.x` and `$set` of `a.y` where `a` is null, in the two orders of its operators |
| Traversals.GetPush | node_modules_koding/traverse/index.js:9-20 | `get` along one key more |
| Traversals.VisitsSound | node_modules_koding/traverse/index.js:65-79 | `get` of the path of a visit is its node, on any graph |
| Traversals.VisitsComplete | node_modules_koding/traverse/index.js:111-227 | everything behind an entered object is visited, and a visited object is entered there or as a parent |
| Traversals.WalkIsComplete | node_modules_koding/traverse/index.js:111-227 | a walk visits whatever any path through objects leads to, however often the path goes around cycles |
| Traversals.WalkPaths | node_modules_koding/traverse/index.js:111-227 | the paths visited are exactly those that enter no object a second time, each once, and after its beginnings |
| Traversals.WalkCircles | node_modules_koding/traverse/index.js:130-151 | a visit is circular exactly when its node is one of those it is inside of |
| Traversals.Traverse.Walk | node_modules_koding/traverse/index.js:111-227 | `walk` with its stacks of path and parents ends on every finite graph and makes those visits |
| Traversals.CopiedFrame | node_modules_koding/traverse/index.js:81-109 | a copy depends on its own new objects only |
| Traversals.Objects.Clone | node_modules_koding/traverse/index.js:81-109 | `clone` ends on every finite graph, leaves all old objects as they are, and makes a copy of new objects |
| Traversals.Objects.CloneUnder | node_modules_koding/traverse/index.js:100-102 | the copies of all keys |
| Traversals.SamePaths | node_modules_koding/traverse/index.js:81-109 | every path leads to the same primitive value, or to objects with the same keys, in original and copy, around cycles too |
| Traversals.AncestorEdge | node_modules_koding/traverse/index.js:85-89 | an edge to an ancestor becomes an edge to the copy of that ancestor |
| Traversals.CloneAll | node_modules_koding/traverse/index.js:81-109 | a whole clone has all of these properties |

## Left out

- Folding, line widgets, placeholders, `RangeList.$onChange`, `addList` and `clipRows`, and the selections that `$getUndoSelection` computes: heuristics without a simple description.
- `$rowLengthCache` and the screen width: the cache of widths is not spliced while wrapping is on, so it has no description that every edit keeps.
- Changing the tab size, `resetCaches` and `setDocument` of a session, newline modes other than `\n`, and `$autoNewLine`, which undo does not restore.
- Documents made from an array of lines: the constructor modelled takes a text.
- Rendering, events other than the change events the modelled listeners depend on, and timers: the clock of the tokenizer's worker is a number of rows it may still do.
- Documents.Document.PublicRemoveLines: requires that it is not asked to remove all rows by their exact numbers, because the result would have no line.
- Documents.Document.RemoveLinesAt: likewise requires that a row is left.
- UndoManagers.UndoManager.Undo: with edits pending, requires that each delta of the entry names rows and columns the present lines have, or rows past the end that are clipped.
- UndoManagers.UndoManager.Redo: the same for doing an entry again.
- UndoManagers.UndoManager.Run: undo and redo come after a flush; without one they are `Undo` and `Redo` alone, after which the entries need not fit the lines any more.
- Lexing.Lexer.Tokenize: the rewriter that runs after it is not modelled; what the columns say is stated as long as no outdentation is owed, and else only that they follow the code. Of tags only those that open, close and end a line are told apart, so `tagParameters` is not modelled.
- Lexing.Lexer.InterpolateString: strings and heredocs; interpolated regular expressions (`heregexToken`) put their pieces together in another way and are not modelled. Errors in a single word or number (a reserved word, an octal literal) are not events.
- SourceMaps.SourceMap.Generate: the mappings only, without the JSON object around them; line maps are values inside the map.
- dnode: what the named methods of an instance do, the exchange of method tables, `error` messages, JSON, transports, `links` (never filled by the scrubber), and proxies whose functions are removed from the remote store by anything but a cull message.
- DnodeSessions.DnodeSession.Unscrub: the arguments that arrive are a value of their own, so that setting proxies in place is `JsObjects.SetAtInPlace` and not repeated here.
- DnodeSessions.DnodeSession.Scrub: arguments with a cycle are not modelled.
- DnodeSessions.DnodeSession.Handle: requires that no function of the session is running, as the assumption above says; a transport that delivers at once could call it from within one.
- ScrubWalks.WalkObject: the copy of an array has the length of the original; in the source it is one more than the last index, so trailing holes are lost.
- JsPaths.StepRead: a function on the way counts as a failure, because functions have no properties here; the source enters it. `deleteAt` gives the changed object as a value, and so do the operators of `mongoop`; only `setAt` is also carried out on objects in memory. Objects shared between two places are not captured.
- JsPaths.StepsCommute: a function on the way likewise counts as a failure.
- JsObjects.SetAtInPlace: the value that is set has no object in common with the tree it is set in, nor one twice in itself.
- MongoEffects.ApplyTo: the values recorded in `result` are not modelled.
- MongoOps.AddToSetKeeps: requires that the array has no repeats before; `$pull` is not implemented in the source and `$pullAll` skips entries, so neither is modelled.
- `$inc` of a text or an object, which joins texts, is treated as a failure; so is setting a property of a function.
- Traversals.Objects.Clone: objects have keys and values only; dates, regular expressions and other built-in kinds, prototypes, and the length of arrays with trailing holes are not modelled.
- Traversals.Traverse.Walk: callbacks that update, delete or stop are not modelled; nor are `set`, `has` and `reduce`.
