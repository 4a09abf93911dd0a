# ChessTrainer core, modelled in Dafny

ChessTrainer turns a player's own mistakes into exercises. The pipeline works in four stages:

- It imports games and parses the PGN into moves, positions and any evaluation annotations.
- It asks the Stockfish engine for a best move, a score and a principal variation.
- It classifies each costly move by how much it lost and by the game phase, which is read from the material on the board.
- It writes an explanation, either asking a language model or filling in built-in French templates.

The trainee then replays the exercises. On the web page, the exercise board grades each dropped piece against the solution, and the training page runs sessions over the uncompleted exercises, largest loss first.

The model has one Dafny module per core file, plus three support modules:

- `Optional`: the `Option` type.
- `JsStrings`: the JavaScript string built-ins the source relies on, such as `split`, `trim`, `slice` and `toLowerCase`, and decimal printing of numbers.
- `ChessTypes`: the shared types of `packages/types`.

| module | file | form |
|---|---|---|
| `PhaseDetector` | packages/chess-engine/src/phase-detector.ts | a method with the nested loop, proved against a fold function |
| `Analyzer` | packages/chess-engine/src/analyzer.ts | pure functions |
| `PgnParser` | packages/chess-engine/src/pgn-parser.ts | methods with the two loops, proved against `Replay` and `EvalAnnotations` |
| `Stockfish` | apps/api/src/services/stockfish.ts | a method with the line loop, proved against the fold `Outcome`; both take the text that introduces the variation, `pv ` as written and ` pv ` as corrected |
| `OpenRouter` | apps/api/src/services/openrouter.ts | pure functions; the HTTP exchange is a parameter |
| `Puzzle` | apps/web/src/components/Chessboard/PuzzleBoard.tsx | the class `PuzzleBoard`, with the component's state as fields, proved against pure transition functions |
| `Training` | apps/web/src/pages/Training.tsx | the class `TrainingPage`, with the session state as fields; pure queue selection |

Calls into code the model cannot see become parameters:

- The chess rules library becomes two parameters: the board grid with the full-move number for the phase detector, and `play`/`apply` for move application, which return `None` where chess.js throws.
- `parseFloat(x) * 100` becomes `centipawns`.
- `JSON.parse` becomes `parse`.
- The outcome of `fetch` becomes a `Reply`.

## Model

| member | source | states |
|---|---|---|
| `PhaseDetector.PhaseOf` | packages/chess-engine/src/phase-detector.ts:30-32 | opening exactly up to move 12; endgame exactly past move 12 with material ≤ 16, or no queen and material ≤ 24; middlegame otherwise |
| `PhaseDetector.BoardMaterial` | packages/chess-engine/src/phase-detector.ts:15-26 | the material total over all rows, 9/5/3/3/1 per queen, rook, bishop, knight and pawn; its properties are `MaterialCoversQueens` and `RemovePieceMaterial` |
| `PhaseDetector.GamePhaseOf` | packages/chess-engine/src/phase-detector.ts:8-33 | the phase of a board and move number: the thresholds of `PhaseOf` applied to the board's material and queen totals |
| `PhaseDetector.DetectGamePhase` | packages/chess-engine/src/phase-detector.ts:8-33 | the nested loop's material and queen totals give the phase of the board's fold `GamePhaseOf` |
| `PhaseDetector.RowMaterialCoversQueens` | packages/chess-engine/src/phase-detector.ts:15-26 | a row's material is at least nine times its queen count |
| `PhaseDetector.MaterialCoversQueens` | packages/chess-engine/src/phase-detector.ts:15-26 | every queen contributes 9, so the material is at least nine times the queen count |
| `PhaseDetector.PhaseIndependentOfLateMoveNumber` | packages/chess-engine/src/phase-detector.ts:30-32 | past move 12 the phase depends on the board alone |
| `PhaseDetector.NeverRevertsToOpening` | packages/chess-engine/src/phase-detector.ts:30-32 | for a fixed board, a later move number never returns to the opening or changes a non-opening phase |
| `PhaseDetector.RowRemove` | packages/chess-engine/src/phase-detector.ts:15-26 | emptying a square of a row removes exactly its material and queen |
| `PhaseDetector.BoardReplaceRow` | packages/chess-engine/src/phase-detector.ts:15-26 | replacing a row changes the totals by the difference of the two rows |
| `PhaseDetector.RemovePieceMaterial` | packages/chess-engine/src/phase-detector.ts:15-26 | emptying a square removes exactly that square's material and queen from the board totals |
| `PhaseDetector.RemovePieceKeepsEndgame` | packages/chess-engine/src/phase-detector.ts:31 | a capture never turns an endgame back into a middlegame |
| `Analyzer.Abs` | packages/chess-engine/src/analyzer.ts:15 | the loss is the non-negative difference in one direction or the other |
| `Analyzer.DetectTacticalTheme` | packages/chess-engine/src/analyzer.ts:39-43 | the detector finds no theme in any position |
| `Analyzer.SeverityOf` | packages/chess-engine/src/analyzer.ts:19-22 | blunder exactly from 200, mistake exactly from 80 below 200, inaccuracy exactly below 80 |
| `Analyzer.ClassifyMistake` | packages/chess-engine/src/analyzer.ts:8-33 | loss = abs(before − after), severity from the loss, never a tactical miss; from 200: endgame error in the endgame, else positional blunder; below 200: opening deviation in the opening, else inaccuracy |
| `Analyzer.BlunderTypesMatchSeverity` | packages/chess-engine/src/analyzer.ts:19-28 | the type is an endgame error or a positional blunder exactly when the severity is blunder |
| `Analyzer.TypeFollowsMoveNumber` | packages/chess-engine/src/analyzer.ts:24-32 | an opening deviation happens only up to move 12, an endgame error only after it |
| `Analyzer.ClassificationSymmetric` | packages/chess-engine/src/analyzer.ts:15 | swapping the two evaluations leaves the classification unchanged |
| `Analyzer.MovesIgnored` | packages/chess-engine/src/analyzer.ts:8-14 | the played and best moves do not influence the result |
| `Analyzer.SeverityMonotone` | packages/chess-engine/src/analyzer.ts:19-22 | a larger loss never gets a lower tier |
| `PgnParser.MoveNumberOfPly` | packages/chess-engine/src/pgn-parser.ts:33 | the move-number formula for ply n equals n / 2 + 1, shared by each white–black pair |
| `PgnParser.Replay` | packages/chess-engine/src/pgn-parser.ts:27-38 | when the history replays, each position is the previous one with that ply played |
| `PgnParser.ReplayPrefixFails` | packages/chess-engine/src/pgn-parser.ts:30-31 | a history whose prefix cannot be played cannot be played |
| `PgnParser.NumberEnd` | packages/chess-engine/src/pgn-parser.ts:41 | a greedy match of `[+-]?\d+\.?\d*` covers a well-formed number; by `NumberEndOf`, a well-formed number followed by `]` is matched up to the `]` |
| `PgnParser.NumberDigits` | packages/chess-engine/src/pgn-parser.ts:41 | past the sign and away from the dot, a well-formed number is all digits |
| `PgnParser.NumberEndOf` | packages/chess-engine/src/pgn-parser.ts:41 | a well-formed number followed by `]` is matched greedily, ending exactly at the `]` |
| `PgnParser.NumberEndDotted` | packages/chess-engine/src/pgn-parser.ts:41 | with a dot, `\d+` stops at the dot and `\d*` at the `]` |
| `PgnParser.NumberEndWhole` | packages/chess-engine/src/pgn-parser.ts:41 | without a dot, `\d+` stops at the `]` and the optional fraction is empty |
| `PgnParser.NumberEndSteps` | packages/chess-engine/src/pgn-parser.ts:41 | the greedy match is the sign, a non-empty digit run, and the fraction when a dot follows |
| `PgnParser.EvalMatchAt` | packages/chess-engine/src/pgn-parser.ts:41 | a match of the eval pattern ends inside the text and captures a well-formed number; by `EvalMatchOf`, every `[%eval n]` with a well-formed n matches with capture n |
| `PgnParser.EvalMatchOf` | packages/chess-engine/src/pgn-parser.ts:41 | `[%eval n]` with a well-formed number n is a match at its `[`, capturing n and ending right after the `]` |
| `PgnParser.NextEvalFinds` | packages/chess-engine/src/pgn-parser.ts:41-44 | with no match between `lastIndex` and a `[%eval n]`, the next `exec` returns that annotation with capture n |
| `PgnParser.NextEval` | packages/chess-engine/src/pgn-parser.ts:44 | the global `exec` returns the leftmost match at or after `lastIndex`, which ends past it and captures a well-formed number; `null` exactly when no position at or after `lastIndex` matches |
| `PgnParser.EvalAnnotations` | packages/chess-engine/src/pgn-parser.ts:41-46 | the captures of successive `exec` calls, each starting where the previous match ended; its properties are `AnnotationsStep`, `AnnotationsAreNumbers` and `AnnotationsAppend` |
| `PgnParser.AnnotationsStep` | packages/chess-engine/src/pgn-parser.ts:44-47 | the annotation list is the next match's capture followed by the annotations after that match |
| `PgnParser.AnnotationsAreNumbers` | packages/chess-engine/src/pgn-parser.ts:41 | every captured annotation is a plain signed decimal |
| `PgnParser.MateAnnotationIgnored` | packages/chess-engine/src/pgn-parser.ts:41 | `[%eval #n]` mate annotations are not picked up |
| `PgnParser.ReplayStep` | packages/chess-engine/src/pgn-parser.ts:30-37 | one more ply extends the replayed positions by the position it reaches, and the replay fails when that ply cannot be played |
| `PgnParser.AppendParsed` | packages/chess-engine/src/pgn-parser.ts:32-37 | pushing the parsed move of ply i keeps the earlier parsed moves and records ply i's number, colour, SAN and position |
| `PgnParser.ReplayedMoves` | packages/chess-engine/src/pgn-parser.ts:30-38 | when every parsed move records its ply and the positions play through, each move's position is its ply played on the previous move's position |
| `PgnParser.ReplayHistory` | packages/chess-engine/src/pgn-parser.ts:27-38 | one parsed move per ply, with its move number, colour, SAN and the position after it; fails exactly when the replay fails |
| `PgnParser.AnnotationsAppend` | packages/chess-engine/src/pgn-parser.ts:44-46 | each `exec` match appends its capture to the annotations read so far, which stay a prefix of all of them |
| `PgnParser.LayNext` | packages/chess-engine/src/pgn-parser.ts:45-46 | setting the next move's eval keeps the earlier evals and leaves the later moves untouched |
| `PgnParser.AssignedEvals` | packages/chess-engine/src/pgn-parser.ts:44-47 | when the scan stops, because no match is left or every move has an eval, each move carries the annotation of its index if there is one, and none otherwise |
| `PgnParser.AssignEvals` | packages/chess-engine/src/pgn-parser.ts:40-47 | the k-th annotation becomes the k-th move's eval while both last; later moves keep none |
| `PgnParser.ParsePgn` | packages/chess-engine/src/pgn-parser.ts:19-50 | the headers pass through; moves numbered i / 2 + 1, each played on the previous position; evals assigned in order |
| `PgnParser.MoveNumbersPairPlies` | packages/chess-engine/src/pgn-parser.ts:33 | move numbers never decrease, grow by at most one, and a white ply shares its number with the next black ply |
| `Stockfish.CpScore` | apps/api/src/services/stockfish.ts:21-23 | `parseInt` of the capture of `/score cp (-?\d+)/`, absent when it does not match; its properties are `CpScoreRoundTrip` and `UnreadableScoreKeepsEval` |
| `Stockfish.CpMatchAt` | apps/api/src/services/stockfish.ts:21-23 | the value `parseInt` reads from `score cp ` followed by an optional `-` and a digit run, at one position; its properties are `CpMatchNegative`, `CpMatchNonNegative` and `CpMatchAtPrinted` |
| `Stockfish.PvMatchAt` | apps/api/src/services/stockfish.ts:22 | the capture of `(.+)` after the tag at one position: at least one character, up to the first line terminator; its properties are `CaptureToEnd` and `LineRunEndAt` |
| `Stockfish.PvMoves` | apps/api/src/services/stockfish.ts:24 | `trim().split(' ')` of the capture; its property is `PvRoundTrip` |
| `Stockfish.IsBestMoveLine` | apps/api/src/services/stockfish.ts:27 | `startsWith('bestmove')`; its properties are `PendingWithoutBestMove` and `FirstBestMoveDecides` |
| `Stockfish.PvCapture` | apps/api/src/services/stockfish.ts:22 | the capture of the variation pattern introduced by the given text, up to the line end; its properties are `PvRoundTrip` and `MultipvCaptureAsWritten` |
| `Stockfish.IsScoreLine` | apps/api/src/services/stockfish.ts:20 | the guard: the line starts with `info depth <depth>` and contains `score cp` |
| `Stockfish.BestMoveToken` | apps/api/src/services/stockfish.ts:28 | `line.split(' ')[1]`, absent when there is no second piece; its property is `BestMoveTokenRoundTrip` |
| `Stockfish.HandleInfoWith` | apps/api/src/services/stockfish.ts:20-25 | one score line: the eval from `CpScore` if it reads, the variation from `PvCapture` if it matches, each kept otherwise |
| `Stockfish.HandleInfoAsWritten` | apps/api/src/services/stockfish.ts:20-25 | the handler with the variation after the first `pv ` |
| `Stockfish.HandleInfo` | apps/api/src/services/stockfish.ts:20-25 | the handler with the variation after the ` pv ` token, the corrected reading |
| `Stockfish.StateAfter` | apps/api/src/services/stockfish.ts:14-25 | the running eval and variation after a sequence of lines, starting from 0 and the empty variation |
| `Stockfish.CpMatchIndex` | apps/api/src/services/stockfish.ts:21 | the leftmost match of `/score cp (-?\d+)/` |
| `Stockfish.PvMatchIndex` | apps/api/src/services/stockfish.ts:22 | the leftmost match of the variation pattern |
| `Stockfish.Outcome` | apps/api/src/services/stockfish.ts:17-31 | the result carries the requested depth; the other properties of the fold are `PendingWithoutBestMove`, `FirstBestMoveDecides` and `LaterLinesIgnored` |
| `Stockfish.AnalyzeOutput` | apps/api/src/services/stockfish.ts:10-31 | the line loop with `currentEval` and `pv`, at depth 20 and with the variation after the first `pv ` unless told otherwise, resolves to the fold `Outcome` over the lines for the same depth and tag |
| `Stockfish.AnalyzeAtDefaultDepth` | apps/api/src/services/stockfish.ts:10-31 | `analyzePosition` without a depth is the loop as written at depth 20, and its result reports depth 20 |
| `Stockfish.OnlyScoreLinesUpdate` | apps/api/src/services/stockfish.ts:20-25 | lines other than `info depth <depth>` with `score cp` (for example `score mate`) leave the eval and variation alone |
| `Stockfish.UnreadableScoreKeepsEval` | apps/api/src/services/stockfish.ts:23 | without a readable centipawn score the eval is kept |
| `Stockfish.StartsAtZero` | apps/api/src/services/stockfish.ts:14-15 | until a score line arrives, the eval is 0 and the variation empty |
| `Stockfish.PendingWithoutBestMove` | apps/api/src/services/stockfish.ts:27-31 | the promise is pending exactly while no line starts with `bestmove` |
| `Stockfish.FirstBestMoveDecides` | apps/api/src/services/stockfish.ts:27-30 | the first `bestmove` line resolves with its second token and the state reached at that line |
| `Stockfish.LaterLinesIgnored` | apps/api/src/services/stockfish.ts:27-31 | lines after the resolution do not change the result |
| `Stockfish.BestMoveTokenRoundTrip` | apps/api/src/services/stockfish.ts:28 | `bestmove <m> …` yields `m` |
| `JsStrings.DigitRunEndAt` | apps/api/src/services/stockfish.ts:21 | the `\d+` run ends at the first non-digit |
| `Stockfish.LineRunEndAt` | apps/api/src/services/stockfish.ts:22 | the `.+` run ends at the first line terminator |
| `Stockfish.DigitsAt` | apps/api/src/services/stockfish.ts:21-23 | the printed digits of n, not followed by a digit, form the `\d+` run and `parseInt` reads n |
| `Stockfish.CpMatchNegative` | apps/api/src/services/stockfish.ts:21-23 | `score cp -` followed by the printed digits of n reads −n |
| `Stockfish.CpMatchNonNegative` | apps/api/src/services/stockfish.ts:21-23 | `score cp ` followed by the printed digits of n reads n |
| `Stockfish.CpMatchAtPrinted` | apps/api/src/services/stockfish.ts:21-23 | `score cp ` followed by a printed integer, at a match position, reads back that integer |
| `Stockfish.CpScoreRoundTrip` | apps/api/src/services/stockfish.ts:21-23 | a printed centipawn score, negative ones included, reads back as the same integer |
| `Stockfish.JoinedMoves` | apps/api/src/services/stockfish.ts:24 | a space-joined move list has no line terminator and no white space at either end |
| `Stockfish.PvRoundTrip` | apps/api/src/services/stockfish.ts:22-24 | ` pv ` followed by space-joined moves captures and splits back into the same moves |
| `Stockfish.ScoreLineRoundTrip` | apps/api/src/services/stockfish.ts:20-25 | a score line of the requested depth sets the eval and the variation to the printed ones |
| `Stockfish.ScoreLineParts` | apps/api/src/services/stockfish.ts:20-21 | a printed score line starts with its head and has `score cp ` right after it |
| `Stockfish.UpdateFromParts` | apps/api/src/services/stockfish.ts:20-25 | a score line whose score reads v and whose variation splits into the moves sets the state to exactly v and those moves |
| `Stockfish.ScoreLineGuard` | apps/api/src/services/stockfish.ts:20 | a line starting with `info depth <depth>` and containing `score cp ` passes the guard |
| `Stockfish.MultipvLineIsScoreLine` | apps/api/src/services/stockfish.ts:20 | the sample multi-variation line passes the guard at depth 1 |
| `Stockfish.MultipvFirstPv` | apps/api/src/services/stockfish.ts:22 | in that line, the first `pv ` is the tail of `multipv` |
| `Stockfish.MultipvCaptureAsWritten` | apps/api/src/services/stockfish.ts:22 | as written, the capture starts inside `multipv 1` |
| `Stockfish.CaptureToEnd` | apps/api/src/services/stockfish.ts:22 | a tag followed by a non-empty rest of line without terminators captures all of that rest |
| `Stockfish.FirstPvMatch` | apps/api/src/services/stockfish.ts:22 | `match` returns the capture at the first position where the pattern matches |
| `Stockfish.PvMatchFrom` | apps/api/src/services/stockfish.ts:22 | scanning from a position, the search stops at the first index where the pattern matches |
| `Stockfish.MultipvTailIsNotVariation` | apps/api/src/services/stockfish.ts:24 | that capture does not split into the one-move variation |
| `Stockfish.MultipvCaptureCorrected` | apps/api/src/services/stockfish.ts:22 | the corrected pattern captures exactly `e2e4` |
| `Stockfish.MultipvScore` | apps/api/src/services/stockfish.ts:21-23 | the sample line's score reads 5 |
| `Stockfish.BestMoveLineE2e4` | apps/api/src/services/stockfish.ts:27-28 | `bestmove e2e4` resolves with `e2e4` and is no score line; the sample line is no `bestmove` line |
| `Stockfish.ScoreThenBestMove` | apps/api/src/services/stockfish.ts:17-31 | a line that does not resolve, then a `bestmove` line that is no score line: the result is the second token with the state after the first line |
| `Stockfish.MultipvLineMisread` | apps/api/src/services/stockfish.ts:22-24 | as written the variation of the line is wrong; corrected it is `[e2e4]` |
| `Stockfish.MultipvAnalysisMisread` | apps/api/src/services/stockfish.ts:17-31 | the whole analysis of the sample line then `bestmove e2e4`: as written it resolves with move `e2e4`, eval 5 and a variation other than `[e2e4]`; corrected, with the variation `[e2e4]` |
| `Stockfish.AsWrittenAgreesAfterSpace` | apps/api/src/services/stockfish.ts:22 | when the first `pv ` follows a space, both handlers capture the same text |
| `OpenRouter.ThemeLabel` | apps/api/src/services/openrouter.ts:7-17 | the French label of each theme; its property is `ThemeLabelsDistinct` |
| `OpenRouter.FallbackTexts` | apps/api/src/services/openrouter.ts:137-174 | the four template texts chosen by the `switch` on the mistake type, `INACCURACY` in the default branch; its properties are `FallbackFollowsType` and `TacticalSummaryNamesTheme` |
| `OpenRouter.LabelOf` | apps/api/src/services/openrouter.ts:135 | a label exactly when a theme is given, and it is that theme's label |
| `OpenRouter.BuildEvalContext` | apps/api/src/services/openrouter.ts:114-131 | delta = abs(before − after); each of the five sentences applies exactly when its condition holds and no earlier one does |
| `OpenRouter.BuildFallbackExplanation` | apps/api/src/services/openrouter.ts:133-185 | the four texts are the templates for the context's mistake type; the theme, its label and the evaluation context come from the context |
| `OpenRouter.GenerateExplanation` | apps/api/src/services/openrouter.ts:32-88 | whatever the exchange, the theme, label and evaluation context come from the context |
| `OpenRouter.FailureGivesFallback` | apps/api/src/services/openrouter.ts:33-87 | no key, a thrown error, a non-ok status, empty content or unparsable content all give the fallback |
| `OpenRouter.SuccessUsesModelTexts` | apps/api/src/services/openrouter.ts:73-79 | on success the four texts are the model's, and a missing field becomes the empty text |
| `OpenRouter.OnlyTextsComeFromModel` | apps/api/src/services/openrouter.ts:75-83 | success and fallback agree on theme, label and evaluation context |
| `OpenRouter.FallbackFollowsType` | apps/api/src/services/openrouter.ts:142-174 | two contexts with the same mistake type and moves get the same fallback reason, weakness and tip, and the same summary unless the type is a missed tactic (whose summary also names the theme) |
| `OpenRouter.TacticalSummaryNamesTheme` | apps/api/src/services/openrouter.ts:143-146 | a missed tactic's summary names the lower-cased theme label exactly when a theme is present |
| `OpenRouter.ThemeLabelsDistinct` | apps/api/src/services/openrouter.ts:7-17 | no two themes share a label |
| `OpenRouter.ContextAgreesWithSeverity` | apps/api/src/services/openrouter.ts:114-131 | a lost advantage and a massive loss are blunders; a significant loss is at least a mistake; a plain loss is not a blunder |
| `OpenRouter.ContextLossBounds` | apps/api/src/services/openrouter.ts:118-123 | a lost advantage costs more than 200 centipawns, and a swing from winning to losing costs at least 2 |
| `Puzzle.NextPlayerStep` | apps/web/src/components/Chessboard/PuzzleBoard.tsx:66-74 | the first trainee step at or after the step index, none when none remains |
| `Puzzle.FirstAlternative` | apps/web/src/components/Chessboard/PuzzleBoard.tsx:172 | an alternative whose UCI prefix is the dropped move and no earlier alternative has that prefix, so the first one; none when none matches |
| `Puzzle.ScheduleV2` | apps/web/src/components/Chessboard/PuzzleBoard.tsx:91-96 | `playOpponentMoveV2`: a reply is scheduled only when the step at the index is the opponent's; its property is `ReplyOnlyForOpponentStep` |
| `Puzzle.AdvanceV2` | apps/web/src/components/Chessboard/PuzzleBoard.tsx:156-168 | after an accepted trainee step: solved with one `onSolved` past the last step, else the next step, with a reply when it is the opponent's; its property is `AcceptedStepAdvances` |
| `Puzzle.DropV2` | apps/web/src/components/Chessboard/PuzzleBoard.tsx:140-214 | the version-2 grading: best move, then the first matching alternative, else a failure; its properties are `BestMoveFirst`, `AlternativePlaysBestMove` and `WrongMoveFails` |
| `Puzzle.LegacyCorrect` | apps/web/src/components/Chessboard/PuzzleBoard.tsx:221-226 | the legacy check: both squares equal and, when the expected move promotes, the piece letter in lower case equal to the promotion letter |
| `Puzzle.ScheduleLegacy` | apps/web/src/components/Chessboard/PuzzleBoard.tsx:114-131 | `playOpponentMoveLegacy`: a reply is scheduled only while the list has a move at the index; by `LegacyReply`, an accepted non-final drop schedules the next move of the list on the new position, and a final one schedules nothing |
| `Puzzle.DropLegacy` | apps/web/src/components/Chessboard/PuzzleBoard.tsx:217-256 | the legacy grading; its properties are `LegacyGrading` and `LegacyReply` |
| `Puzzle.Drop` | apps/web/src/components/Chessboard/PuzzleBoard.tsx:134-262 | `onDrop`: refused unless playing; version-2 grading while a trainee step remains, legacy grading on even indices, refused otherwise; its properties are `FinishedRejectsDrops` and `OneCallbackPerDrop` |
| `Puzzle.FireOpponent` | apps/web/src/components/Chessboard/PuzzleBoard.tsx:97-111 | the oldest pending reply is played on the position it was scheduled with and moves the index past its step, or is dropped when illegal; its property is `FiredReplyAdvances` |
| `Puzzle.ResetState` | apps/web/src/components/Chessboard/PuzzleBoard.tsx:264-270 | back to the start position, step 0, playing, no feedback, with pending replies and fired callbacks kept; its property is `OnlyResetRestarts` |
| `Puzzle.IsWaiting` | apps/web/src/components/Chessboard/PuzzleBoard.tsx:272-274 | playing with no trainee step left in version 2, or on an odd index in legacy mode; its property is `FinalOpponentStepWaitsForever` |
| `Puzzle.PuzzleBoard.constructor` | apps/web/src/components/Chessboard/PuzzleBoard.tsx:53-57 | the board starts at the exercise position, step 0, playing |
| `Puzzle.PuzzleBoard.CurrentPlayerStep` | apps/web/src/components/Chessboard/PuzzleBoard.tsx:66-74 | the search loop finds `NextPlayerStep` |
| `Puzzle.PuzzleBoard.Advance` | apps/web/src/components/Chessboard/PuzzleBoard.tsx:156-168 | after an accepted step: solved at the end, else the next step and a reply scheduled for an opponent step |
| `Puzzle.PuzzleBoard.OnDrop` | apps/web/src/components/Chessboard/PuzzleBoard.tsx:134-262 | the handler's new state and return value are those of the transition `Drop` |
| `Puzzle.PuzzleBoard.FireOpponentMove` | apps/web/src/components/Chessboard/PuzzleBoard.tsx:97-111 | the oldest pending reply is played as the transition `FireOpponent` says |
| `Puzzle.PuzzleBoard.Reset` | apps/web/src/components/Chessboard/PuzzleBoard.tsx:264-270 | back to the start position, step 0, playing, no feedback |
| `Puzzle.FinishedRejectsDrops` | apps/web/src/components/Chessboard/PuzzleBoard.tsx:136 | once solved or failed, a drop is refused and changes nothing |
| `Puzzle.OnlyResetRestarts` | apps/web/src/components/Chessboard/PuzzleBoard.tsx:136 | drops and replies keep a finished status; only reset returns to playing at step 0 |
| `Puzzle.BestMoveFirst` | apps/web/src/components/Chessboard/PuzzleBoard.tsx:145-155 | the best move is checked before the alternatives; it is accepted exactly when it is legal, gets best feedback, and the dropped move is played |
| `Puzzle.AlternativePlaysBestMove` | apps/web/src/components/Chessboard/PuzzleBoard.tsx:172-188 | an alternative is accepted with its own quality, but the board plays the best move |
| `Puzzle.AcceptedStepAdvances` | apps/web/src/components/Chessboard/PuzzleBoard.tsx:156-168 | an accepted step i moves to i + 1; it solves, with one `onSolved`, exactly when no step follows |
| `Puzzle.ReplyOnlyForOpponentStep` | apps/web/src/components/Chessboard/PuzzleBoard.tsx:91-96 | a reply is scheduled exactly when the next step is the opponent's, and it is that step's best move |
| `Puzzle.WrongMoveFails` | apps/web/src/components/Chessboard/PuzzleBoard.tsx:205-213 | a drop matching neither the best move nor an alternative fails the exercise once and leaves the position |
| `Puzzle.LegacyGrading` | apps/web/src/components/Chessboard/PuzzleBoard.tsx:217-258 | legacy mode: only even indices accept drops; a wrong drop fails exactly when the squares or promotion differ; an accepted drop advances and solves at the end |
| `Puzzle.LegacyReply` | apps/web/src/components/Chessboard/PuzzleBoard.tsx:217-256 | on the trainee's turn in legacy mode: a missing or empty expected move refuses the drop and changes nothing; a drop is accepted exactly when it is the expected move and can be played, and the position is then the dropped move with the expected promotion; an accepted non-final drop schedules the next move of the list for index i + 1, otherwise nothing is scheduled; no feedback is shown |
| `Puzzle.OneCallbackPerDrop` | apps/web/src/components/Chessboard/PuzzleBoard.tsx:134-262 | a drop fires at most one callback: `onSolved` exactly when it solves, `onFailed` exactly when it fails |
| `Puzzle.FinalOpponentStepWaitsForever` | apps/web/src/components/Chessboard/PuzzleBoard.tsx:272-274 | when a version-2 exercise ends on an opponent step, the board past that step refuses drops and waits for good |
| `Puzzle.FiredReplyAdvances` | apps/web/src/components/Chessboard/PuzzleBoard.tsx:104-110 | a played reply moves the step index past its step; an illegal one is dropped silently |
| `Training.SeverityLabel` | apps/web/src/pages/Training.tsx:31-32 | the label from the loss: `Blunder` from 200, `Mistake` from 80, `Inaccuracy` below; its property is `SeverityLabelMatchesTier` |
| `Training.SolutionMoves` | apps/web/src/pages/Training.tsx:128-133 | `getSolutionMoves`; its property is `SolutionMovesFallback` |
| `Training.Completed` | apps/web/src/pages/Training.tsx:68 | the completed exercises; its properties are `LobbyCountsAddUp` and `UncompletedCount` |
| `Training.SelectQueue` | apps/web/src/pages/Training.tsx:73-76 | filter, sort by decreasing loss, `slice(0, count)`; its properties are `QueueContents`, `QueueTakesLargestLosses` and `SessionStartsIffWork` |
| `Training.SolvedCount` | apps/web/src/pages/Training.tsx:139 | the number of solved results; its properties are `SessionCountsAddUp` and `RecordedResultCounts` |
| `Training.FailedCount` | apps/web/src/pages/Training.tsx:140 | the number of failed results; its properties are `SessionCountsAddUp` and `RecordedResultCounts` |
| `Training.Uncompleted` | apps/web/src/pages/Training.tsx:74 | the filter keeps only uncompleted exercises |
| `Training.UncompletedFromStored` | apps/web/src/pages/Training.tsx:74 | each kept exercise is stored, at most as often as it is stored |
| `Training.UncompletedKeepsAll` | apps/web/src/pages/Training.tsx:74 | every stored uncompleted exercise is kept |
| `Training.InsertByLoss` | apps/web/src/pages/Training.tsx:75 | inserting into a list sorted by decreasing loss keeps it sorted, adds one element, and puts it first or keeps the old first |
| `Training.InsertByLossPermutes` | apps/web/src/pages/Training.tsx:75 | insertion adds exactly the new element to the multiset of the list |
| `Training.SortByLoss` | apps/web/src/pages/Training.tsx:75 | the result has the input's length and is sorted by decreasing loss |
| `Training.SortByLossPermutes` | apps/web/src/pages/Training.tsx:75 | the result is a permutation of the input |
| `Training.Take` | apps/web/src/pages/Training.tsx:76 | `slice(0, count)` keeps a prefix of length min(count, length) |
| `Training.TrainingPage.constructor` | apps/web/src/pages/Training.tsx:42-50 | the page starts with no session |
| `Training.TrainingPage.StartSession` | apps/web/src/pages/Training.tsx:70-85 | with no exercise to do, nothing changes; otherwise an active, unfinished session over `SelectQueue`, at index 0, with no results |
| `Training.TrainingPage.HandleSolved` | apps/web/src/pages/Training.tsx:98-103 | appends one solved result with the current exercise's id; marks the result solved; the session is then finished exactly when that exercise was the last of the queue |
| `Training.TrainingPage.HandleFailed` | apps/web/src/pages/Training.tsx:105-110 | appends one failed result with the current exercise's id; marks the result failed; the session is then finished exactly when that exercise was the last of the queue |
| `Training.TrainingPage.NextExercise` | apps/web/src/pages/Training.tsx:112-121 | after the last exercise the session ends; otherwise the index moves on, the result is playing again and the session is not finished; an active session's index stays inside the queue |
| `Training.TrainingPage.EndSession` | apps/web/src/pages/Training.tsx:123-126 | the session ends and nothing else changes |
| `Training.TrainingPage.IsFinished` | apps/web/src/pages/Training.tsx:141-142 | a finished active session is at the last exercise of the queue, and that exercise has a result |
| `Training.SeverityLabelMatchesTier` | apps/web/src/pages/Training.tsx:31-32 | each severity label is shown exactly for the classifier's tier of the same loss |
| `Training.SolutionMovesFallback` | apps/web/src/pages/Training.tsx:128-133 | a move list, even an empty one, wins, then a non-empty best move, then a non-empty correct move; no moves exactly when the list is empty or nothing is given |
| `Training.LobbyCountsAddUp` | apps/web/src/pages/Training.tsx:67-68 | the unsolved and solved counters add up to the number of exercises |
| `Training.UncompletedCount` | apps/web/src/pages/Training.tsx:67-68 | the unsolved count is the number of exercises minus the solved count |
| `Training.SessionCountsAddUp` | apps/web/src/pages/Training.tsx:139-140 | the solved and failed counters add up to the number of results |
| `Training.RecordedResultCounts` | apps/web/src/pages/Training.tsx:101-108 | each recorded result moves exactly one counter by one |
| `Training.QueueFromUncompleted` | apps/web/src/pages/Training.tsx:70-76 | the queue draws on the uncompleted exercises, each at most as often as it is stored, and every queued exercise is stored and uncompleted |
| `Training.QueueContents` | apps/web/src/pages/Training.tsx:70-76 | the queue holds only uncompleted exercises, at most as often as stored, largest loss first, min(count, #uncompleted) of them |
| `Training.SortedSplit` | apps/web/src/pages/Training.tsx:75-76 | after sorting, nothing past the cut has a larger loss than anything before it |
| `Training.PrefixRemoved` | apps/web/src/pages/Training.tsx:75-76 | what the sorted list holds beyond the queue is what the uncompleted exercises hold beyond the queue |
| `Training.QueueTakesLargestLosses` | apps/web/src/pages/Training.tsx:73-76 | no uncompleted exercise left out of the queue has a larger loss than one in it |
| `Training.QueueTiersOrdered` | apps/web/src/pages/Training.tsx:71-75 | blunders come first in the queue, then mistakes, then inaccuracies |
| `Training.SessionStartsIffWork` | apps/web/src/pages/Training.tsx:78 | a session starts exactly when some exercise is uncompleted and the count is positive |
| `JsStrings.JoinSplit` | apps/api/src/services/stockfish.ts:18 | joining the pieces of `split` with the separator gives back the text |
| `JsStrings.CharIndex` | apps/api/src/services/stockfish.ts:28 | the first index of the separator, absent exactly when it does not occur |
| `JsStrings.Split` | apps/api/src/services/stockfish.ts:28 | `split` gives at least one piece, and no piece holds the separator |
| `JsStrings.CharIndexAt` | apps/api/src/services/stockfish.ts:28 | an occurrence with none before it is the one found |
| `JsStrings.SplitFirst` | apps/api/src/services/stockfish.ts:28 | the first separator cuts off the first piece; the other pieces are those of the rest |
| `JsStrings.SplitSecond` | apps/api/src/services/stockfish.ts:28 | `split(' ')[1]` is the text between the first separator and the next one or the end |
| `JsStrings.SplitJoin` | apps/api/src/services/stockfish.ts:24 | splitting separator-free pieces joined with the separator gives back the pieces |
| `JsStrings.JoinFirst` | apps/api/src/services/stockfish.ts:24 | a join of several pieces is the first piece, the separator, and the join of the others |
| `JsStrings.TrimUnchanged` | apps/api/src/services/stockfish.ts:24 | `trim` leaves an empty text, or one that starts and ends with a non-white-space character, unchanged |
| `JsStrings.NatToStringRoundTrip` | apps/api/src/services/stockfish.ts:20 | the printed depth reads back as the same number |

## Left out

- Starting the engine process, writing the commands to it, its error stream and the chunking of its output (stockfish.ts:11-13, 35-40) are I/O. The model takes the output as a sequence of lines. A line split across two chunks is not modelled.
- `Stockfish.CpScore`: `parseInt` is exact here, so the model keeps scores whose digits exceed double precision.
- The model has no rejection path for the promise. A line without a second token gives `None` where the source resolves with `undefined`.
- The prompt text, the HTTP request, `fetch`, the model's JSON decoding and logging (openrouter.ts:37-73, 90-112) are I/O or foreign calls. They are modelled by the `Reply` parameter and the `parse` parameter.
- `OpenRouter.BuildEvalContext`: the sentence is modelled as its kind and the loss in centipawns. `toFixed(1)` formatting of pawns is floating-point formatting.
- `FallbackTexts` lower-cases the theme label with an ASCII lower-casing. Every label starts with an ASCII capital, and its accented letters are already lower case.
- The phase detector and the PGN parser take the board grid, the full-move number, the headers and the move history from chess.js as inputs. FEN parsing, PGN loading and move legality are the chess library's and are not part of this model.
- `PgnParser.AssignEvals`: `parseFloat(x) * 100` is the parameter `centipawns`. Its floating-point result is not modelled.
- The exercise board leaves out the following presentation state:
  - square highlighting and its colours (PuzzleBoard.tsx:45-50, 79-84), including the 800 ms re-highlighting of the best move after a wrong drop (209-211, 231);
  - the feedback message texts and the 2500 ms timer that clears the toast (86-89).
  Only the feedback quality is kept, and it stays set until `Reset` clears it.
- `Puzzle.LegacyCorrect`: `toLowerCase` on the piece letter is modelled by an ASCII lower-casing. Piece codes such as `wQ` use ASCII letters only.
- Pending opponent replies are kept as a queue and fired in scheduling order. Timer cancellation does not exist in the source. The relative order of a reply and a later drop is left to the caller.
- The board orientation and the rendering (PuzzleBoard.tsx:59-60, 276 onwards) are presentation.
- `Training.TrainingPage`: the following are I/O and are not modelled:
  - `fetchExercises` (Training.tsx:52-65), also on leaving a session;
  - `submitAttempt` (87-96);
  - the loading flag.
  The exercise list stays as loaded.
- `MISTAKE_LABELS`, `SEVERITY_COLOR` and the page's rendering (Training.tsx:23-29, 34-39, 144 onwards) are presentation.
- `Training.SortByLoss`: the sort is stable in the source (`Array.prototype.sort`), but the model does not state that exercises of equal loss keep their stored order. It states sortedness and permutation only.
- `Training.TrainingPage.StartSession`: `count` is a natural number here. The page only passes 5, 10, 20 or the unsolved count, so the behaviour of `slice` with a negative count is not modelled.
- `Training.TrainingPage.HandleSolved` and `Training.TrainingPage.HandleFailed` require an active session. In the source, the callbacks exist only while the session view shows an exercise.

## Findings

| source | as written | input that shows it | evidently intended | confidence | as-written member | corrected member |
|---|---|---|---|---|---|---|
| apps/api/src/services/stockfish.ts:22 | `/pv (.+)/` matches the first `pv ` in the line. In every line Stockfish prints with a `multipv` field, that is the tail of `multipv`, so the "variation" begins with `1 score cp …` | `info depth 1 multipv 1 score cp 5 pv e2e4` | the variation after the ` pv ` token, here `[e2e4]` | high, not executed | `Stockfish.MultipvAnalysisMisread` (with `Stockfish.AnalyzeOutput` at its default tag `pv `) | `Stockfish.ScoreLineRoundTrip` (with `Stockfish.HandleInfo`, and `Stockfish.AnalyzeOutput` given ` pv `) |
