# Shashki (Russian draughts): rules engine and search engine

This project models the two engines of the Damka program, a Russian draughts game.

- **Rules engine (`Damka`).** The board is an N×N grid of tile colours: empty, unplayable, man, king, "chosen" variants, RED legal destinations and DEAD victims of a capture streak. The engine keeps:
  - the piece and king counters of each side;
  - the moves-without-progress counter;
  - the side to move;
  - the "forced" flag (a capture exists);
  - the "on a streak" flag.

  It answers the capture tests, marks legal destinations for men and kings (with the king's double-capture pruning), applies quiet moves and captures, passes the turn and decides stalemates.
- **Search engine (`Computer`).** It generates moves from the RED marks and makes and takes back moves on an explicit stack. It searches with alpha-beta, where a capture streak does not use up depth. It evaluates positions statically and chooses the move to play.

The model follows the two copies of the program (`src/main/java/main`, with an enum of tile colours, and `src/myproject`, with int-coded tiles). They have the same logic and are modelled once.

Layout:
- **`tiles.dfy`, `grids.dfy`:** the tile colours in the program's ordinal order, and the grid.
- **`rules.dfy`:** capture tests and `canPlay` as predicates, with iff lemmas.
- **`marks.dfy`, `kingmarks.dfy`:** the RED marking of man and king destinations, with iff lemmas against declarative definitions.
- **`engine.dfy`:** the rules engine as functions on a `State` value, with the invariant `WellFormed`. Its census says the counters count the pieces and kings on the grid, and no man stands on its crown row. Every move keeps it.
- **`damka.dfy`:** class `Board.Damka`. It holds the tiles in an `array2` and the counters and flags as fields. Every method ensures its new abstract state `Abs()` equals the engine function of the old one.
- **`search.dfy`, `generation.dfy`, `takeback.dfy`, `making.dfy`, `capturing.dfy`, `undoing.dfy`:** the search's moves, generation, make and undo as functions, and the round-trip lemmas.
- **`minimax.dfy`, `gametree.dfy`:** `miniMaxAlphaBeta` and `findBestMove` as functions, and the tree the search goes through. Plain minimax and the window theorem are stated on that tree.
- **`computer.dfy`:** class `Player.Computer`. It runs on a `Damka` board with the move stack as a field. Each method is proved equal to its function.

## Model

| member | source | states |
|---|---|---|
| Tiles.ChosenIsOrdinalPlusTwo | src/myproject/DamkaTile.java:18-33 | The chosen variant of a plain piece has ordinal + 2, its plain variant ordinal − 2. The two maps are inverse to each other and keep the occupant. |
| Rules.CanPawnCaptureIff | src/main/java/main/Damka.java:639-661 | canPawnCapture holds iff one of the four 2-square diagonal jumps lands in bounds on an empty square over a plain enemy piece. Men capture backwards too. |
| Rules.CanQueenCaptureIff | src/main/java/main/Damka.java:663-709 | canQueenCapture holds iff along some diagonal a run of empty or RED squares ends at a plain enemy piece with an empty square behind it. Own pieces and DEAD block. |
| Rules.CaptureExistsIff | src/main/java/main/Damka.java:599-637 | DoesCaptureExist holds iff some plain man of the side to move passes the man's test or some plain king passes the king's. |
| Rules.NoMoveAll | src/main/java/main/Damka.java:986-1015 | When canPlay's scan finds no man with an empty forward neighbour and no king with an empty diagonal neighbour, the side cannot play. |
| Grids.MarksOffClears | src/main/java/main/Damka.java:488-497 | turnRedSquaresOff leaves no RED, keeps occupants and every non-RED square, and keeps the colouring. |
| Grids.RemoveDeadClears | src/main/java/main/Damka.java:936-946 | removeDeadTiles leaves no DEAD tile and changes no other square. |
| Marks.PawnMarksSpec | src/main/java/main/Damka.java:303-353 | turnRedPawnSquaresOn only turns empty squares RED. Not forced: exactly the empty forward diagonals. Forced: exactly the jump landings in all four directions. |
| Marks.QueenMarksSound | src/main/java/main/Damka.java:362-483 | Every square turnRedQueenSquaresOn turns RED is on a diagonal of the king, and was empty. |
| KingMarks.QueenMarksQuiet | src/main/java/main/Damka.java:386-440 | Not forced: the king's RED squares are exactly the consecutive empty squares along each diagonal up to the first non-empty one. |
| KingCaptureMarks.QueenMarksForced | src/main/java/main/Damka.java:386-481 | Forced, with no RED on the king's diagonals: the squares turned RED are exactly the empty stretch right behind the first prey on each diagonal. When a further capture can be made from some square of that stretch (prey lifted), they are exactly those squares. |
| KingCaptureMarks.CaptureMarkVictim | src/myproject/Damka.java:884-913 | A king's capture onto a RED square has exactly one prey strictly between origin and destination, and it is the first prey along the ray. |
| Engine.InitialWellFormed | src/main/java/main/Damka.java:146-200 | For 4 ≤ N ≤ 12 and 1 ≤ PAWN_ROWS ≤ (N+1)/2 − 1, the start position satisfies the census invariant. The counters count the pieces and kings on the grid, and no man stands on its crown row. |
| Engine.ArmySize | src/main/java/main/Damka.java:107-108 | The playable squares of the first and of the last PAWN_ROWS rows number N·PAWN_ROWS/2 each, as the program's counters start. |
| Engine.ChangeTurn | src/main/java/main/Damka.java:568-597 | The turn flips. isForced holds iff a capture exists for the new side. Only the outcome may change besides, and only outside a search: a stalemated new side (not forced, at most 5 pieces, cannot play) loses. This happens whenever the computer is not about to reply. |
| Engine.ChangeTurnKeeps | src/main/java/main/Damka.java:568-597 | changeTurn keeps the census invariant. |
| Engine.PawnOffUnchooses | src/main/java/main/Damka.java:206-236 | turnPawnOff (and turnQueenOff for a chosen king) leaves no chosen piece and no RED. It puts the piece down with its rank and keeps every other non-RED square. |
| Engine.MovePawnCounters | src/main/java/main/Damka.java:504-538 | A man's quiet step to an empty square (with its crowning on the far row) keeps the counters matching the grid. |
| Engine.MovePawnWellFormed | src/main/java/main/Damka.java:504-538 | movePawn (crowning on the far row, progress counter reset, then changeTurn) keeps the census invariant. |
| Engine.MoveQueenCounters | src/main/java/main/Damka.java:545-559 | A king's quiet move to an empty square keeps the counters matching the grid. |
| Engine.MoveQueenWellFormed | src/main/java/main/Damka.java:545-559 | moveQueen (progress counter + 1, the draw at 15 outside a search, then changeTurn) keeps the census invariant. |
| Engine.CaptureWithPawnWellFormed | src/main/java/main/Damka.java:716-851 | capture by the chosen man is defined on every legal jump (two squares diagonally, over prey, onto an empty square) and keeps the census invariant. This covers the victim turned DEAD and counted off, crowning, and the streak going on or ending with DEAD tiles removed. |
| Engine.CaptureWithQueenWellFormed | src/main/java/main/Damka.java:852-934 | capture by the chosen king is defined on every legal capture (an empty square with prey ahead of the king on the diagonal towards it) and keeps the census invariant. |
| Engine.KingLandedCounters | src/main/java/main/Damka.java:884-902 | After a king lands, each side's counters count its pieces and kings: the victim's side has lost exactly the victim. |
| Board.Damka.Start | src/main/java/main/Damka.java:146-200 | start lays out the start grid. On the constructor's state the position then satisfies the census invariant. |
| Board.Damka.CanPawnCapture | src/main/java/main/Damka.java:639-661 | The method's answer equals the capture predicate (see CanPawnCaptureIff). |
| Board.Damka.CanQueenCapture | src/main/java/main/Damka.java:663-709 | The method's diagonal walk answers the king's capture predicate (see CanQueenCaptureIff). |
| Board.Damka.DoesCaptureExist | src/main/java/main/Damka.java:599-637 | The scan answers CaptureExists for the side to move. |
| Board.Damka.CanPlay | src/main/java/main/Damka.java:986-1015 | The scan answers whether the side to move has a quiet step. |
| Board.Damka.TurnRedSquaresOff | src/main/java/main/Damka.java:488-497 | The grid becomes MarksOff of the old grid. |
| Board.Damka.TurnPawnOff | src/main/java/main/Damka.java:206-236 | The new state is PawnOff of the old one. |
| Board.Damka.RemoveDeadTiles | src/main/java/main/Damka.java:936-946 | The grid becomes RemoveDead of the old grid. |
| Board.Damka.TurnRedPawnSquaresOn | src/main/java/main/Damka.java:303-353 | The grid becomes PawnMarks of the old grid. |
| Board.Damka.TurnRedQueenSquaresOn | src/main/java/main/Damka.java:362-483 | The grid becomes QueenMarks of the old grid, including the pruning walk back. |
| Board.Damka.EndGame | src/main/java/main/Damka.java:952-980 | The game's outcome becomes the message. |
| Board.Damka.ChangeTurn | src/main/java/main/Damka.java:568-597 | The new state is Engine.ChangeTurn of the old one. |
| Board.Damka.MovePawn | src/main/java/main/Damka.java:504-538 | The new state is Engine.MovePawn of the old one. The returned trace (whether the man crowned) is what makeMove writes to the stack top. |
| Board.Damka.MoveQueen | src/main/java/main/Damka.java:545-559 | The new state is Engine.MoveQueen of the old one. |
| Board.Damka.Capture | src/main/java/main/Damka.java:716-734 | The new state is Engine.Capture of the old one. The returned trace (victim square, victim tile, crowning) is what makeMove writes to the stack top. |
| Board.Damka.CaptureWithPawn | src/main/java/main/Damka.java:736-850 | From the prepared state, the new state is Engine.CaptureWithPawn. |
| Board.Damka.CaptureWithQueen | src/main/java/main/Damka.java:852-934 | From the prepared state, the new state is Engine.CaptureWithQueen. |
| Generation.GenerateSound | src/main/java/main/Computer.java:57-144 | Every generated move fits the position: a move of the side to move, a capture exactly when forced, from the chosen square on a streak. generateMoves gives the grid back as it found it. |
| Generation.StreakMovesExact | src/main/java/main/Computer.java:64-78 | On a streak, the moves are exactly one per RED square in scan order, each from the chosen square and flagged capture and on-streak. |
| Generation.PieceMarksSpec | src/main/java/main/Computer.java:93-141 | The marks made for one piece are squares it reaches. Clearing them gives back the grid. |
| Generation.RedsExact | src/main/java/main/Computer.java:64-78 | The RED scan lists exactly the RED playable squares, in row-major order. |
| Takeback.GenerateOk | src/main/java/main/Computer.java:57-144 | After generateMoves the board holds the same position, and every move fits it and can be made. |
| Undoing.MakeOk | src/main/java/main/Computer.java:241-270 | makeMove is defined on every fitting move. It lands as recorded, and the new position is again one the search can search. |
| Undoing.UndoOk | src/main/java/main/Computer.java:272-372 | undoMove after makeMove gives back the same position: occupants, counters, side to move, flags and progress counter. |
| Undoing.UndoExact | src/main/java/main/Computer.java:272-372 | Off a streak, on a board with no RED, DEAD or chosen tile, undoMove restores the state exactly, up to the chosen square. |
| Search.Eval | src/main/java/main/Computer.java:375-471 | evaluatePosition, from black's side: MAX_POS_VAL when white has no piece (checked first), MIN_POS_VAL when black has none. A blocked side to move, when not forced, is scored as lost for that side. The test uses white's piece count for both sides, as written. |
| Search.HeuristicWithin | src/myproject/Computer.java:438-478 | The heuristic value (material, tempo, advancement) lies within 2.6 a piece + 3.6, far from the won and lost values. |
| Search.EvalDecided | src/myproject/Computer.java:440-486 | The static value is MAX_POS_VAL iff white has no piece, or black has pieces and white is to move blocked. It is MIN_POS_VAL iff white has pieces and either black has none or black is to move blocked. |
| Minimax.EvalRange | src/main/java/main/Computer.java:375-471 | Every static value lies between MIN_POS_VAL and MAX_POS_VAL. |
| Minimax.Node | src/main/java/main/Computer.java:192-239 | miniMaxAlphaBeta's value is in range. The board afterwards holds the same position. A node with no moves is worth the side's lost value. |
| Minimax.Loop | src/main/java/main/Computer.java:204-235 | The loop's value is never worse than the best so far, and equals it when no move is left. |
| Minimax.NodeIsMinimax | src/main/java/main/Computer.java:192-239 | In a window alpha < beta, a value strictly inside is the plain minimax value of the tree the search went through. A value at or below alpha bounds it from above, one at or above beta from below. |
| GameTree.AlphaBetaWindow | src/main/java/main/Computer.java:204-235 | For every game tree, the search with strict improvement, window narrowing and cutoff at alpha ≥ beta satisfies the fail-soft window property against plain minimax. |
| GameTree.LoopWindow | src/main/java/main/Computer.java:212-235 | The same window property for the loop over a node's moves, started from any best-so-far value. |
| Minimax.Root | src/main/java/main/Computer.java:146-181 | findBestMove chooses nothing iff there is no move. With one move it takes that move without searching. Otherwise it chooses one of the generated moves. The board ends in the same position. |
| Minimax.BestLoopChoice | src/main/java/main/Computer.java:161-180 | findBestMove's loop searches no move after a MAX_POS_VAL value. If no value beats the best so far, it keeps the best move so far. Otherwise it keeps the first move whose value beats the best so far and every earlier value, with no later value beating it. The plain minimax value of the tree below that move is at least its value and at least that of every tree searched. |
| Minimax.RootBest | src/main/java/main/Computer.java:146-181 | findBestMove with two moves or more: moves[0] is the default, and the move chosen is the earliest strictly best candidate over MIN_POS_VAL. The search stops at a MAX_POS_VAL result. The chosen move's tree has the largest plain minimax value among the searched ones (by NodeIsMinimax in each window (bestValue, MAX_POS_VAL)). |
| Minimax.Played | src/main/java/main/Computer.java:477-491 | play with no move ends the game as "User Wins" on the same board. Otherwise it plays a generated move, the only one when there is one. |
| Minimax.PlayedBest | src/main/java/main/Computer.java:477-491 | With two moves or more, play makes the move findBestMove keeps, as RootBest characterises it. |
| Player.EvalBand | src/main/java/main/Damka.java:1020-1061 | The message index is in 0..4. It is "White better or winning" iff the value exceeds 0.6, "Black better or winning" iff it is at most −0.6, and "winning" beyond ±1.5. |
| Player.Computer.GenerateMoves | src/main/java/main/Computer.java:57-144 | The moves and the board afterwards are those of Generate. |
| Player.Computer.MakeMove | src/main/java/main/Computer.java:241-270 | The board becomes Make of the old one. While the computer searches and the stack is not empty, the trace (victim square and tile, crowning) is written into the move on top of the stack, which the caller pushed. Otherwise the stack is unchanged. |
| Player.Computer.UndoMove | src/main/java/main/Computer.java:272-372 | The board becomes Undo of the old one. |
| Player.Computer.EvaluatePosition | src/main/java/main/Computer.java:375-471 | The value equals Eval of the board. |
| Player.Computer.MiniMaxAlphaBeta | src/main/java/main/Computer.java:192-239 | Value and board equal Node's. The stack comes back as it was. |
| Player.Computer.FindBestMove | src/main/java/main/Computer.java:146-181 | The move chosen and the board equal Root's, so RootBest says which move it is. moveToPlay is kept when there is no move. |
| Player.Computer.Play | src/main/java/main/Computer.java:477-491 | The move to play and the board equal Played's, so PlayedBest says which move it is. |
| Player.Computer.Evaluate | src/myproject/Damka.java:1056-1097 | evaluate searches from depth 0 as the side to move and gives the value for White. It restores movesWithoutProgress and clears isComputerPlaying, and the board holds the same position. |

## Left out

- Board.Damka.ChangeTurn: does not run the re-entrant `Computer.comp.play()` call (the human-vs-computer driver). Neither do Board.Damka.CaptureWithPawn and Board.Damka.CaptureWithQueen, whose calls reach it through changeTurn.
- Board.Damka.ChangeTurn: does not run the `evaluate()` call made when the evaluation box is ticked (main Damka.java:593-594; ticked by default at line 116). That call is modelled on its own as Player.Computer.Evaluate. Its net effect on the board is a search's round trip: the same position (Undoing.UndoOk), and the exact state off a streak (Undoing.UndoExact). It also restores movesWithoutProgress and clears isComputerPlaying. It does not restore chosenPawnRow/chosenPawnCol, which generateMoves overwrites.
- Board.Damka.EndGame: the Swing frame, panels, checkbox, end-of-game dialog, `gamePanel.update` and `Thread.sleep` are presentation. The game's end is the `Outcome` value the model sets.
- Player.EvalBand: the label texts and colours of evaluate's panel are presentation. Only the band index is modelled.
- Search.Eval: float and double arithmetic and `Math.signum` are modelled on `real`, without IEEE rounding.
- Undoing.UndoOk: inside a capture streak the round trip is not exact. White's earlier victims are not re-marked DEAD, a man crowned mid-streak comes back plain, and RED marks differ. UndoOk therefore promises only the same position (occupants, counters, flags); Undoing.UndoExact gives exact restoration off a streak.
- Minimax.NodeIsMinimax: the minimax value is that of the tree the search went through (Minimax.NodeTree). Each searched move is made on the board the loop held at that point. The moves after a cutoff are made on the board it stopped with, and their full trees are taken. Because the round trip inside a streak is not exact (see Undoing.UndoOk), those boards can differ from the node's own in DEAD and RED tiles. No lemma equates this tree with the window-free tree Minimax.PlainTree.
- `miniMaxBestMove` (src/myproject/Computer.java:263-300) is never called and is not part of this model. Neither are the unused `Random` and `deadTiles` fields.
- The settings windows (Main.java, MyProject.java) and the tile buttons (DamkaPawn.java, DamkaTile.java, except the tile order) are not part of this model. The board size 4..12, the number of pawn rows and the search depth appear as preconditions.
