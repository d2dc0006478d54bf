# Board games: a verified model of the rule engines

This project models the rule logic of a collection of console board games:
Four-in-a-Row and its minimax computer player, S-U-S and its computer
player, infinity, numerical, 5 x 5, 6 x 6 obstacle, diamond, pyramid,
4 x 4 sliding and misère tic-tac-toe, the stand-alone misère console game,
memory tic-tac-toe, two ultimate tic-tac-toe boards and the word game.

Each game board keeps a matrix of cells, a move counter and, for some games,
extra state (scores, a move history, a set of used numbers, a forced
sub-board, a dictionary). A guarded `update_board` either refuses a move and
changes nothing, or writes one cell and counts the move. Pure predicates
decide whether a player has won or lost and whether the game is a draw or
over. Each board carries an invariant tying its move counter to its cells
(for example "moves plus blank cells is nine"), proved kept by every accepted
move, and every hand-written line scan is proved equal to a single reference
definition of "n in a straight line".

Modules:

- `Grids`: the board matrix as a `seq<seq<T>>`, single-cell writes, cell counting, and a reference
  definition of "n in a line" (`HasRun`). Every line scan of the boards is proved equal to it.
- `ConnectFour`: the 6 x 7 gravity board (`FourInARow_Board`).
- `GameSearch`: game trees, plain minimax (`Value`), and the alpha-beta search exactly as the
  computer player's loops compute it (`AlphaBeta`). It proves that the pruned search is a fail-soft
  approximation of minimax and is exact with the full window.
- `ConnectFourAI`: the Four-in-a-Row computer player. It works on a scratch `array2<char>`, placing a
  piece, searching, and taking the piece back; every method proves that it leaves the matrix as it
  found it.
- `Sus`, `SusAI`: the S-U-S board with its per-letter scores, and its computer player.
- `Infinity`: the board that removes the oldest mark after every third move.
- `Numerical`: numbers 1..9 summing to 15, with the players' odd and even number sets.
- `FiveByFive`: counting three-in-a-row windows on a 5 x 5 board.
- `Obstacles`: the 6 x 6 board that adds two obstacle cells after every second move.
- `Diamond`: the 25-cell diamond inside a 7 x 7 matrix, and its three-and-four win rule.
- `Pyramid`: the nine-cell pyramid inside a 3 x 5 matrix and its fifteen winning triples.
- `Adjacency`: the sliding-move generator shared by the two 4 x 4 source files.
- `FourByFour`: the 4 x 4 board that starts with four X and four O marks.
- `SlidingMisere`: the 3 x 3 board of the second 4 x 4 source file, whose update can also clear a cell.
- `Misere`: misère tic-tac-toe, where three in a row loses.
- `MisereConsole`: the stand-alone console misère game on a `char[3][3]` array.
- `Memory`: the actual board and the fake board that hides played cells behind `?`.
- `Encoding`: packing a sub-board and a cell into one coordinate, with C++ truncating `/` and `%`.
- `Ultimate`, `UltimateDecimal`: the two ultimate tic-tac-toe main boards (base 3 with a forced
  sub-board, and base 10 with free choice).
- `Word`: three-letter words from a dictionary on a 3 x 3 board.

## Model

| member | source | states |
|---|---|---|
| ConnectFour.LowestFrom | FourInARow.cpp:16-23 | the downward scan from `row` returns -1 exactly when rows 0..row of the column are all taken, otherwise the highest-numbered blank row at or below `row` |
| ConnectFour.LowestRow | Games/FourInARow_AI_Player.h:25-32 | find_lowest_row: -1 iff the column has no blank cell; otherwise a blank cell with only taken cells below it |
| ConnectFour.CheckFourInRowIsRun | FourInARow.cpp:46-106 | the horizontal, vertical and two diagonal scans together are true exactly when some straight line of four cells holds the symbol |
| ConnectFour.DropPreservesConsistent | FourInARow.cpp:34-43 | dropping a mark into a column with room keeps the gravity invariant and keeps `n_moves` plus the blank count at 42 |
| ConnectFour.FullColumnIffTopTaken | FourInARow.cpp:16-23 | on a stacked board a column is full exactly when its top cell is taken |
| ConnectFour.GameOverIffWinOrFull | FourInARow.cpp:121-125 | on a consistent board the game is over exactly when X or O has four or every column is full |
| ConnectFour.DrawIffOverWithoutWinner | FourInARow.cpp:116-119 | is_draw holds exactly when the game is over and neither X nor O has four |
| ConnectFour.Board.constructor | FourInARow.cpp:10-14 | a 6 x 7 board of blanks with no moves, which satisfies the gravity invariant |
| ConnectFour.Board.UpdateBoard | FourInARow.cpp:25-44 | refuses an out-of-range or full column and changes nothing; otherwise writes the mark at the landing row, adds one move, and keeps the gravity invariant |
| ConnectFour.UniformConsistent | FourInARow.cpp:10-14 | the empty board is consistent with zero moves |
| GameSearch.AlphaBetaFailSoft | Games/FourInARow_AI_Player.h:203-241 | the pruned search returns the exact minimax value inside the window and a bound on the correct side of it outside |
| GameSearch.ValueBounded | Games/FourInARow_AI_Player.h:192-242 | the minimax value of a tree with bounded leaves is within the same bounds |
| GameSearch.AlphaBetaExact | Games/FourInARow_AI_Player.h:192-242 | with a window wider than every leaf, the pruned search equals plain minimax |
| ConnectFourAI.WindowScore | Games/FourInARow_AI_Player.h:163-174 | evaluate_window lies in [-10000, 10000]; it is 10000 iff the AI holds all four cells and -10000 iff the opponent does and the AI does not |
| ConnectFourAI.WindowScoreSign | Games/FourInARow_AI_Player.h:163-174 | a real window scores positive iff the AI holds two or more cells and the opponent none, and negative in the mirror case |
| ConnectFourAI.TallyOf | Games/FourInARow_AI_Player.h:103-108 | every cell of a window is counted exactly once, as AI, opponent or other |
| ConnectFourAI.FilledFromTally | Games/FourInARow_AI_Player.h:103-109 | a window whose four cells all count for one side is a line of four of that side |
| ConnectFourAI.NonTerminalWindow | Games/FourInARow_AI_Player.h:94-109 | without four in a row on the board, every window scores between -400 and 500, so the ±10000 rules never fire |
| ConnectFourAI.EvaluationRange | Games/FourInARow_AI_Player.h:92-158 | evaluate_position is ±100000 on won or lost boards and otherwise lies in [-27600, 34530], the bounds of 69 windows plus the centre bonus |
| ConnectFourAI.TallyWindow | Games/FourInARow_AI_Player.h:103-108 | the counting loop over a window's four cells yields that window's counters |
| ConnectFourAI.RowWindows | Games/FourInARow_AI_Player.h:102-110 | the loop over start columns 0..3 of one row adds that row's window scores |
| ConnectFourAI.BandWindows | Games/FourInARow_AI_Player.h:101-111 | the horizontal and both diagonal blocks each add the scores of their rows of windows |
| ConnectFourAI.ColumnWindows | Games/FourInARow_AI_Player.h:115-123 | the loop over start rows 0..2 of one column adds that column's vertical window scores |
| ConnectFourAI.VerticalWindows | Games/FourInARow_AI_Player.h:113-124 | the vertical block adds the scores of all 21 vertical windows |
| ConnectFourAI.CentreBonus | Games/FourInARow_AI_Player.h:152-155 | adds 5 for every AI mark in column 3 |
| ConnectFourAI.EvaluatePosition | Games/FourInARow_AI_Player.h:92-158 | returns 100000 when the AI has four, -100000 when the opponent has, otherwise the sum of all window scores plus the centre bonus (`Evaluation`, bounded by EvaluationRange) |
| ConnectFourAI.ValidColumns | Games/FourInARow_AI_Player.h:179-187 | get_valid_columns returns columns of the board |
| ConnectFourAI.ValidColumnsSpec | Games/FourInARow_AI_Player.h:179-187 | the valid columns are strictly increasing, are exactly the columns with a blank top cell, and each has a landing row |
| ConnectFourAI.Drop | Games/FourInARow_AI_Player.h:207-209 | placing a piece at the landing row keeps a 6 x 7 board |
| ConnectFourAI.ChildListAt | Games/FourInARow_AI_Player.h:206-211 | the k-th subtree the search explores is the tree after dropping the mover's mark into the k-th valid column |
| ConnectFourAI.GameTreeBounded | Games/FourInARow_AI_Player.h:195-201 | within the search depth every terminal score and evaluation lies in [-100000, 100000] |
| ConnectFourAI.SearchIsExact | Games/FourInARow_AI_Player.h:192-242 | with the full window (int min, int max), minimax with pruning returns the exact minimax value of the position |
| ConnectFourAI.LaterWinScoresHigher | Games/FourInARow_AI_Player.h:198 | a win found with fewer plies left scores higher: `100000 - depth` favours the later win |
| ConnectFourAI.Minimax | Games/FourInARow_AI_Player.h:192-242 | returns the pruned search value of the game tree of the position (terminal tests in source order, depth decreasing), and leaves the scratch matrix as it found it |
| ConnectFourAI.LandingRow | Games/FourInARow_AI_Player.h:207 | find_lowest_row on the scratch matrix is the landing row of the board it holds |
| ConnectFourAI.Probe | Games/FourInARow_AI_Player.h:208-213 | places the mover's mark, searches the child with one ply less and the opposite role, and blanks the cell again |
| ConnectFourAI.MaxColumns | Games/FourInARow_AI_Player.h:203-221 | the maximizing loop, including the break once beta <= alpha, computes the pruned max over the children, and restores the matrix |
| ConnectFourAI.MinColumns | Games/FourInARow_AI_Player.h:222-241 | the minimizing loop computes the pruned min over the children, and restores the matrix |
| ConnectFourAI.RootChildValue | Games/FourInARow_AI_Player.h:292-299 | the value compared for a column is the minimax value of dropping the AI's mark there and searching MAX_DEPTH - 1 plies with the opponent to move |
| ConnectFourAI.RootScore | Games/FourInARow_AI_Player.h:286-307 | one root search with window (alpha, int max) returns the column's exact value when it beats alpha and an upper bound of it otherwise |
| ConnectFourAI.TacticalAt | Games/FourInARow_AI_Player.h:265-282 | the win test and then the block test for one column: true iff dropping either mark completes four for that mark; the matrix is restored |
| ConnectFourAI.TacticalColumn | Games/FourInARow_AI_Player.h:263-283 | returns the first valid column, left to right, that wins or blocks, or -1 when no column does |
| ConnectFourAI.ScoreColumn | Games/FourInARow_AI_Player.h:293-299 | one search of the root loop: the score is the column's value when it beats alpha and bounds it from above otherwise |
| ConnectFourAI.SearchColumn | Games/FourInARow_AI_Player.h:285-310 | returns the first valid column of strictly greatest minimax value (alpha-beta with a moving alpha picks the same column as plain minimax) |
| ConnectFourAI.BestColumn | Games/FourInARow_AI_Player.h:254-311 | get_best_column on a copy of the board: 3 when no column has room; otherwise the first column that wins or blocks, or failing that the first column of greatest minimax value |
| Sus.CountSus | sus.cpp:49-76 | count_sus_sequences counts each S-U-S row, column and diagonal once, at most eight |
| Sus.LinesThrough | sus.cpp:20-47 | the S-U-S lines through one cell: at most its row, its column and two diagonals |
| Sus.CountSusPut | sus.cpp:28-35 | filling a blank cell raises the S-U-S count by exactly the lines now through that cell |
| Sus.CountSusBlank | sus.cpp:13-18 | the fresh board has no S-U-S line |
| Sus.ExactlyOneOutcome | sus.cpp:78-93 | once nine moves are made, exactly one of: S wins, U wins, draw |
| Sus.AiScores | Games/sus.cpp:180-182 | the computer's own score is the S player's score exactly when it plays S |
| Sus.GameOverIffFull | sus.cpp:95-97 | on a consistent board the game is over exactly when no cell is blank |
| Sus.SusBoard.constructor | sus.cpp:13-18 | a 3 x 3 board of `.` with no moves and both scores 0, which is consistent |
| Sus.SusBoard.CountSusSequences | sus.cpp:49-76 | the row, column and diagonal scans return the S-U-S count of the board |
| Sus.SusBoard.UpdateBoard | sus.cpp:20-47 | accepts exactly an in-range blank cell and the letter S or U; otherwise changes nothing; on success writes the upper-case letter, counts the move, and credits the new S-U-S lines to the S player or the U player by the letter; scores never decrease and the count invariant is kept |
| SusAI.CreatesSusIffScores | SUS_AI_Player.h:36-63 | on a blank cell, the pattern test holds exactly when placing the letter there would raise the board's S-U-S count |
| SusAI.CreatesSusPattern | SUS_AI_Player.h:36-63 | the write-test-restore check returns the pattern test for the cell and leaves the matrix as it found it |
| SusAI.PositionValue | SUS_AI_Player.h:68-88 | 15 for the centre, 8 for a corner, 5 for an edge cell |
| SusAI.TallyOf | SUS_AI_Player.h:98-103 | each cell of a line is counted once, as S, U or other |
| SusAI.LinePotential | SUS_AI_Player.h:104-105 | a line is worth 0, 2 or 3 |
| SusAI.PotentialRange | SUS_AI_Player.h:93-143 | the potential of a cell is between 0 and 12, and at most 6 off the diagonals |
| SusAI.TallyLine | SUS_AI_Player.h:98-103 | the counting loop over a line's three cells yields that line's counters |
| SusAI.CountPotentialPatterns | SUS_AI_Player.h:93-143 | with the letter placed, sums the row and column potentials and each diagonal's only when the cell is on it, then restores the cell |
| SusAI.MoveScoreRange | SUS_AI_Player.h:148-171 | every cell scores between 5 and 269, above the -1000 of "no move" |
| SusAI.EvaluateMoveQuality | SUS_AI_Player.h:148-171 | 100 for an own pattern, 80 for a blocked one, the position value, the own potential and half the opponent's, matrix restored |
| SusAI.ScoreCell | SUS_AI_Player.h:188-204 | the quality plus 50 when behind and completing, or ahead and blocking |
| SusAI.BestStep | SUS_AI_Player.h:206-210 | the strict comparison keeps the first cell of greatest score |
| SusAI.ConsiderCell | SUS_AI_Player.h:188-211 | one iteration extends the best choice from the cells before (i, j) to the cells up to (i, j) |
| SusAI.GetBestMove | SUS_AI_Player.h:183-216 | returns (-1, -1, -1000) when no cell is blank, otherwise the first blank cell in row-major order of greatest score |
| SusAI.BestMoveIsBlank | SUS_AI_Player.h:183-216 | the move is "no move" exactly when the board is full; otherwise a blank cell whose score is its MoveScore and at least 5 |
| Infinity.WinIsRun | infinity_XO.cpp:63-91 | is_win holds exactly when the symbol is a real mark and fills some straight line of three |
| Infinity.MovesBounded | infinity_XO.cpp:93-98 | on every reachable board at most 13 moves have been made, so the fifty-move draw never fires |
| Infinity.InfinityBoard.constructor | infinity_XO.cpp:10-15 | a 3 x 3 board of `.` with an empty queue and no moves, which is reachable |
| Infinity.InfinityBoard.RemoveOldestMove | infinity_XO.cpp:48-61 | pops the front of the queue and blanks that cell; an empty queue leaves everything as it was |
| Infinity.InfinityBoard.UpdateBoard | infinity_XO.cpp:17-46 | accepts exactly an in-range `.` cell and otherwise changes nothing; on success moves to the `Placed` state and keeps the reachable-state invariant |
| Infinity.PlacedConsistent | infinity_XO.cpp:34-43 | a move on a blank cell of a reachable board (queue distinct, marks exactly the queued cells, length n - n/3) leads to a reachable board |
| Infinity.PlacePreserves | infinity_XO.cpp:34-37 | writing the mark and queueing its position keeps the queue distinct and equal to the marked cells, one entry ahead on every third move |
| Infinity.RemovePreserves | infinity_XO.cpp:41-43 | removing the oldest entry on every third move restores the queue-length invariant |
| Numerical.WinHasLine | Games/NumericalTicTacToe.cpp:44-83 | every scan that finds a full line summing to 15 names one of the eight lines |
| Numerical.LineIsWin | Games/NumericalTicTacToe.cpp:44-83 | every one of the eight lines that is full and sums to 15 is found by a scan |
| Numerical.IsWinIffSomeLine | Games/NumericalTicTacToe.cpp:44-83 | is_win holds exactly when some row, column or diagonal is full and sums to 15, whoever is playing |
| Numerical.OnBoardNumbers | Games/NumericalTicTacToe.cpp:37-39 | the numbers on the board are exactly its non-zero cells |
| Numerical.NinthMoveFillsBoard | Games/NumericalTicTacToe.cpp:85-87 | on a reachable board the draw's ninth move means no cell is blank |
| Numerical.PlacePreserves | Games/NumericalTicTacToe.cpp:27-39 | writing an unused non-zero number into a blank cell keeps the used set equal to the numbers on the board, with no number twice |
| Numerical.NumericalBoard.constructor | Games/NumericalTicTacToe.cpp:8-15 | a 3 x 3 board of zeros, no used numbers and no moves |
| Numerical.NumericalBoard.UpdateBoard | Games/NumericalTicTacToe.cpp:17-42 | refuses an off-board cell, a taken cell or a used number with no change; otherwise writes the number, records it and counts the move, keeping the invariant |
| Numerical.StartingNumbers | Games/NumericalTicTacToe.cpp:98-108 | player 1 holds exactly the odd numbers 1..9, every other player exactly the even ones |
| Numerical.NumbersPartition | Games/NumericalTicTacToe.cpp:98-108 | the two players' numbers are disjoint and together are 1..9 |
| Numerical.NumericalPlayer.constructor | Games/NumericalTicTacToe.cpp:98-108 | the player starts with its starting numbers |
| Numerical.NumericalPlayer.UseNumber | Games/NumericalTicTacToe.cpp:110-112 | removes exactly that number |
| FiveByFive.BlockHitsBound | XO_5X5_Classes.cpp:42-90 | one block of windows counts at most its number of windows |
| FiveByFive.ThreeCountRange | XO_5X5_Classes.cpp:42-90 | the count of three-in-a-row windows lies in 0..48 |
| FiveByFive.WinIsRun | XO_5X5_Classes.cpp:46-87 | a counted window is a straight run of three of the symbol |
| FiveByFive.RunIsScanned | XO_5X5_Classes.cpp:46-87 | every straight run of three on the board is one of the scanned windows |
| FiveByFive.ThreeCountPositiveIffRun | XO_5X5_Classes.cpp:42-90 | the count is positive exactly when the symbol has three in a straight line somewhere |
| FiveByFive.ExactlyOneOutcome | XO_5X5_Classes.cpp:92-118 | from move 24 on exactly one of X wins, O wins, draw holds, and the draw is the same for both; before it none does |
| FiveByFive.OverLeavesOneBlank | XO_5X5_Classes.cpp:116-118 | on a consistent board the game is over exactly when one blank cell is left |
| FiveByFive.Board5x5.constructor | XO_5X5_Classes.cpp:11-18 | a 5 x 5 board of blanks with no moves |
| FiveByFive.Board5x5.UpdateBoard | XO_5X5_Classes.cpp:20-40 | accepts exactly an in-range blank cell, otherwise changes nothing; writes the symbol and counts the move, keeping the move-count invariant |
| FiveByFive.Board5x5.WindowAt | XO_5X5_Classes.cpp:46-87 | the test of one window in one direction |
| FiveByFive.Board5x5.CountBlock | XO_5X5_Classes.cpp:46-87 | one of the four nested loops counts the windows of its block |
| FiveByFive.Board5x5.CountThreeInRow | XO_5X5_Classes.cpp:42-90 | the four loops together return the window count, between 0 and 48 |
| Obstacles.Win4IsRun | obstacles_6x6_tictactoe.h:24-72 | a window found by the scans is a straight run of four |
| Obstacles.CheckFourInRowIsRun | Games/obstacles_6x6_tictactoe.h:54-102 | the four scans together hold exactly when some straight line of four cells holds the symbol |
| Obstacles.ObstacleNeverWins | obstacles_6x6_tictactoe.cpp:67-70 | neither the blank nor the obstacle ever counts as four in a row |
| Obstacles.DrawIffFull | Games/obstacles_6x6_tictactoe.h:143-148 | on a reachable board, is_draw holds exactly when no cell is blank and there is no win |
| Obstacles.TwoBlanks | obstacles_6x6_tictactoe.cpp:24-36 | with two or more blanks the obstacle step can pick two distinct blank cells, so its retry loop ends |
| Obstacles.ObstaclesAddedCounts | Games/obstacles_6x6_tictactoe.h:157-162 | adding the obstacles raises the `'#'` count by two, lowers the blank count by two and keeps every earlier obstacle |
| Obstacles.PlaceCounts | obstacles_6x6_tictactoe.cpp:54-62 | a move lowers the blank count by one, and whenever the count becomes even two blanks are left for the obstacles |
| Obstacles.Board6x6.constructor | obstacles_6x6_tictactoe.cpp:11-22 | a 6 x 6 board of blanks, no moves, no obstacles |
| Obstacles.Board6x6.AddRandomObstacles | obstacles_6x6_tictactoe.cpp:24-36 | two distinct blank cells become `'#'` and the obstacle counter grows by two |
| Obstacles.Board6x6.UpdateBoard | obstacles_6x6_tictactoe.cpp:38-65 | refuses an off-board or non-blank cell with no change; otherwise writes the symbol, counts the move and on an even count adds two obstacles, keeping the counter equal to the `'#'` cells |
| Obstacles.TwoPutsCounts | obstacles_6x6_tictactoe.cpp:24-36 | turning two distinct blank cells into `'#'` raises the obstacle count by two, lowers the blank count by two and keeps every earlier obstacle |
| Obstacles.MoveConsistent | obstacles_6x6_tictactoe.cpp:54-62 | a move on a blank cell, followed on an even count by two new obstacles, keeps the invariant: obstacles are twice half the moves and moves, obstacles and blanks fill 36 cells |
| Grids.ThreeInRowIsRun | Games/MisereTicTacToe.cpp:39-73 | the 3 x 3 scan of rows, columns and both diagonals holds exactly when some straight line of three cells holds the symbol |
| Grids.CountPut | Games/MisereTicTacToe.cpp:33-35 | writing one cell changes the count of a value by at most one, exactly as the old and new contents say |
| Diamond.PlayableIffDistance | Games/Diamond_TicTacToe.h:28-40 | is_playable_cell holds exactly on the cells at Manhattan distance at most 3 from the centre |
| Diamond.PlayableSymmetric | Games/Diamond_TicTacToe.h:28-40 | the playable shape is symmetric top-to-bottom and left-to-right and lies inside the 7 x 7 matrix |
| Diamond.TwentyFiveCells | Diamond_TicTacToe.cpp:142-148 | the diamond has exactly 25 playable cells, the move count is_draw waits for |
| Diamond.CellsPut | Diamond_TicTacToe.cpp:16-42 | writing one cell changes the diamond's count of a value only when the cell is playable, by the old and new contents |
| Diamond.CommonAtMostOne | Diamond_TicTacToe.cpp:44-125 | two lines in different directions share at most one cell, and share one exactly when some cell lies on both |
| Diamond.CountThreeInRowIff | Diamond_TicTacToe.cpp:44-125 | count_three_in_row holds exactly when the symbol has a line of three and a line of four in different directions, so the shared-cell test never rejects a pair |
| Diamond.BlankNeverWins | Diamond_TicTacToe.cpp:44-125 | on an empty board no real symbol has a winning pair of lines |
| Diamond.LoseIsOpponentWin | Diamond_TicTacToe.cpp:132-152 | X loses exactly when O wins and the reverse; the game is over for either player exactly when someone wins or it is a draw; a draw excludes a win |
| Diamond.DrawMeansFull | Diamond_TicTacToe.cpp:142-148 | on a reachable board 25 moves means every diamond cell is taken, and there is never a 26th |
| Diamond.DiamondBoard.constructor | Diamond_TicTacToe.cpp:9-15 | a 7 x 7 blank matrix with no moves, which is reachable |
| Diamond.DiamondBoard.UpdateBoard | Diamond_TicTacToe.cpp:16-42 | accepts exactly an in-range playable blank cell, otherwise changes nothing; on success writes the symbol, counts the move and keeps the reachable-state invariant |
| Pyramid.Initial | pyramid_XO_Classes.cpp:10-28 | the starting matrix holds `.` exactly on the nine pyramid cells and `' '` everywhere else |
| Pyramid.IsWinIffTriple | pyramid_XO_Classes.cpp:61-94 | the fifteen hand-written tests agree with the table of triples (the table restates them as data; `RunIsWin` and `BentTripleWins` say what they accept) |
| Pyramid.RunIsWin | pyramid_XO_Classes.cpp:61-94 | every straight line of three on a pyramid-shaped board is found by is_win |
| Pyramid.BentTripleWins | pyramid_XO_Classes.cpp:72-74 | is_win also accepts triples that are not straight lines: a concrete board with no straight three still wins |
| Pyramid.NinthMoveFillsPyramid | pyramid_XO_Classes.cpp:96-98 | on a reachable board the ninth move leaves no pyramid cell blank, and there is no tenth |
| Pyramid.PlaceBlankCells | pyramid_XO_Classes.cpp:48-59 | filling a blank pyramid cell lowers the blank count by one |
| Pyramid.PlacePreserves | pyramid_XO_Classes.cpp:48-59 | filling a blank pyramid cell with a mark keeps the board reachable with one more move |
| Pyramid.PyramidBoard.constructor | pyramid_XO_Classes.cpp:10-28 | the starting matrix with no moves, which is reachable |
| Pyramid.PyramidBoard.UpdateBoard | pyramid_XO_Classes.cpp:48-59 | accepts exactly a pyramid cell holding `.`, otherwise changes nothing; writes the upper-cased mark, counts the move, and keeps the shape and the reachable-state invariant |
| Adjacency.AdjacentIffNeighbour | Project2/XO_4x4_Classes.cpp:80-93 | is_valid_adjacent_move holds exactly when both cells are on the board, the source is taken, the target is blank and the two are one step apart horizontally or vertically |
| Adjacency.StepsAreNeighbours | Project2/XO_4x4_Classes.cpp:101-109 | the four direction steps tried reach exactly the horizontal and vertical neighbours |
| Adjacency.TargetsSpec | Project2/XO_4x4_Classes.cpp:101-109 | the moves generated from one cell are exactly its blank on-board neighbours, labelled with the player's symbol |
| Adjacency.RowMovesSpec | Project2/XO_4x4_Classes.cpp:99-111 | the moves generated along a row come from exactly the cells of that row holding the symbol |
| Adjacency.PossibleMovesSpec | Project2/XO_4x4_Classes.cpp:95-114 | the moves of the first rows are exactly the moves of each of those rows |
| Adjacency.PossibleMovesAreAdjacent | Project2/XO_4x4_Classes.cpp:95-114 | for a real symbol, get_possible_moves returns exactly the targets of valid adjacent moves from the player's own cells |
| Adjacency.GetPossibleMoves | XO_4x4_Classes.cpp:70-89 | the nested row, column and direction loops return the specified move list |
| Adjacency.NeighbourTargets | XO_4x4_Classes.cpp:76-84 | the loop over the four steps returns the specified targets of one cell |
| FourByFour.InitialLayout | Project2/XO_4x4_Classes.cpp:9-18 | the start has X and O alternating on the top and bottom rows in opposite phase, the middle rows blank, eight blank cells |
| FourByFour.IsWinIsRun | Project2/XO_4x4_Classes.cpp:39-70 | the four window scans together hold exactly when some straight line of three cells holds the symbol |
| FourByFour.NeverDraw | Project2/XO_4x4_Classes.cpp:72-78 | on a reachable board at most eight moves are made, so the sixteen-move draw never fires and the game is over exactly on a win |
| FourByFour.SlideCopiesPiece | Project2/XO_4x4_Classes.cpp:20-37 | as written, a valid slide of X or O writes only the destination: the origin keeps the mark, the mover gains a mark and a blank cell is lost |
| FourByFour.SlideMovesPiece | Project2/XO_4x4_Classes.cpp:80-93 | the intended slide blanks the origin, marks the destination, leaves every other cell, and keeps the mover's mark count and the blank count |
| FourByFour.Board4x4.SlideMove | Project2/XO_4x4_Classes.cpp:180-185 | accepts exactly a valid adjacent move from a cell holding the mark, otherwise changes nothing; slides the piece, counts the move and keeps the number of blank cells |
| FourByFour.Board4x4.constructor | Project2/XO_4x4_Classes.cpp:9-18 | the starting layout with no moves, which is reachable |
| FourByFour.Board4x4.UpdateBoard | Project2/XO_4x4_Classes.cpp:20-37 | accepts exactly an in-range blank cell, otherwise changes nothing; writes the upper-cased mark, counts the move and keeps the reachable-state invariant |
| FourByFour.Board4x4.GetPossibleMoves | Project2/XO_4x4_Classes.cpp:95-114 | returns the board's adjacent-move list; for a real symbol every move lands on a blank on-board cell |
| SlidingMisere.WinIsRun | XO_4x4_Classes.cpp:36-56 | is_win holds exactly when a straight line of three holds the symbol; a win and a draw exclude each other; the game is over exactly on a win or nine moves |
| SlidingMisere.MisereBoard.constructor | XO_4x4_Classes.cpp:10-16 | a 3 x 3 matrix of the blank symbol with no moves |
| SlidingMisere.MisereBoard.UpdateBoard | XO_4x4_Classes.cpp:18-33 | off the board nothing changes; the clear mark `.` blanks the cell without counting and reports failure; any other mark overwrites the cell upper-cased and counts the move |
| SlidingMisere.MisereBoard.GetPossibleMoves | XO_4x4_Classes.cpp:70-89 | returns the board's adjacent-move list; for a real symbol every move lands on a blank on-board cell |
| Misere.WinIsOpponentLoss | Games/MisereTicTacToe.cpp:75-96 | a player wins exactly when the opponent has three in a row and loses exactly when they have; over means win, loss or draw; a draw excludes both |
| Grids.MovesFillBoard | Games/MisereTicTacToe.cpp:86-91 | when moves plus blank cells make up the board (as `Misere.Consistent` and `Memory.Consistent` keep for nine cells), the move count never exceeds the cells and reaches it exactly when no cell is blank; is_draw's nine-move test of the misère and memory boards therefore means a full board |
| Misere.MisereBoard.constructor | Games/MisereTicTacToe.cpp:9-14 | a blank 3 x 3 board with no moves, which is reachable |
| Misere.MisereBoard.UpdateBoard | Games/MisereTicTacToe.cpp:16-37 | accepts exactly an in-range blank cell, otherwise changes nothing; writes the mark, counts the move and keeps the reachable-state invariant |
| MisereConsole.StartIsPlaying | MisereTicTacToe.cpp:94-97 | the reset board with X to move is a game in progress |
| MisereConsole.StepPreserves | MisereTicTacToe.cpp:118-134 | a turn on a blank cell that continues leaves a game in progress with the other player to move; a drawn turn is X's fifth mark against four O |
| MisereConsole.MisereGame.constructor | MisereTicTacToe.cpp:12-16 | a blank array with X to move, a game in progress |
| MisereConsole.MisereGame.ResetBoard | MisereTicTacToe.cpp:18-22 | every cell of the array becomes blank |
| MisereConsole.MisereGame.FullBoard | MisereTicTacToe.cpp:46-51 | true exactly when no cell of the array is blank |
| MisereConsole.MisereGame.MakeMove | MisereTicTacToe.cpp:81-83 | writes the mover's mark into the one cell and leaves the others |
| MisereConsole.MisereGame.PlayTurn | MisereTicTacToe.cpp:118-134 | the array, the player to move and the outcome are those of the specified turn; a continuing turn keeps the game in progress |
| Memory.LoseIsOpponentWin | Games/Memory_TicTacToe.cpp:71-88 | for X and O one player's loss is the other's win, a win is a straight line of three, over means win, loss or draw, and a draw excludes both |
| Memory.ShadowsPreserved | Games/Memory_TicTacToe.cpp:98-109 | a move on a blank actual cell, replayed on the fake board, keeps the fake board showing `?` exactly on the played cells |
| Memory.MemoryBoard.constructor | Games/Memory_TicTacToe.cpp:9-13 | a blank 3 x 3 board with no moves, which is reachable |
| Memory.MemoryBoard.UpdateBoard | Games/Memory_TicTacToe.cpp:15-33 | accepts exactly an in-range blank cell, otherwise changes nothing; writes the mark, counts the move and keeps the reachable-state invariant |
| Memory.FakeBoard.constructor | Games/Memory_TicTacToe.cpp:91-96 | a blank 3 x 3 fake board with no moves |
| Memory.FakeBoard.UpdateBoard | Games/Memory_TicTacToe.cpp:98-109 | accepts any in-range cell, taken or not, shows `?` there and counts the move; otherwise changes nothing |
| Memory.PlayBoth | Games/Memory_TicTacToe.cpp:15-33 | the two boards driven by one move stay paired: the fake board shows exactly the played cells and both count the same moves |
| Encoding.TruncDivRem | ultimate_XO_Classes.cpp:47-50 | C++ quotient and remainder rebuild the coordinate, agree with Euclidean division on non-negative values and keep the sign of a negative one |
| Encoding.Decode | ultimate_XO_Classes.cpp:47-50 | the decoded pair rebuilds the coordinate as `board * base + cell` |
| Encoding.DecodeDigits | Games/ultimate_XO_Classes.cpp:39-50 | the decoded pair is two digits 0..2 exactly when the coordinate is non-negative with quotient and remainder at most 2, so a negative coordinate is always refused |
| Encoding.DecodeEncode | ultimate_XO_Classes.cpp:311-312 | unpacking a packed pair of digits gives the digits back |
| Encoding.EncodeDecode | Games/ultimate_XO_Classes.cpp:197-198 | packing a decoded pair gives the coordinate back |
| Ultimate.SubBoardWinner | ultimate_XO_Classes.cpp:99-117 | X when X has won the sub-board, else O when O has, else T when it is over, else blank |
| Ultimate.AdmitsForced | ultimate_XO_Classes.cpp:38-74 | an admitted move has both coordinates in 0..8, and lies in the forced sub-board whenever that sub-board is still open |
| Ultimate.OpenPrefixSpec | ultimate_XO_Classes.cpp:165-171 | the row-major scan lists exactly the open main cells among the first k, in that order |
| Ultimate.AvailableIsOpen | ultimate_XO_Classes.cpp:161-192 | get_available_boards lists exactly the sub-boards a move may be played in: the forced one when it is open, otherwise every open one |
| Ultimate.AvailableAdmits | ultimate_XO_Classes.cpp:38-74 | update_board admits exactly the moves whose sub-board is available and whose cell coordinates are 0..2 |
| Ultimate.WinIsRun | ultimate_XO_Classes.cpp:119-155 | is_win holds exactly when three sub-boards in a straight line are the player's, and a draw and a win exclude each other |
| Ultimate.TieKeepsBoardOpen | ultimate_XO_Classes.cpp:86-90 | as written, a sub-board that ends without a winner keeps a blank main cell, is still offered, and the main board cannot be drawn |
| Ultimate.FinishedBoardCloses | ultimate_XO_Classes.cpp:86-90 | with the intended recording, a won or tied sub-board gets a mark on the main board and is no longer offered under any forced board |
| Ultimate.UltimateBoard.constructor | ultimate_XO_Classes.cpp:13-27 | a blank main board, no forced sub-board and no moves |
| Ultimate.UltimateBoard.UpdateBoard | ultimate_XO_Classes.cpp:38-97 | accepts exactly an admitted move the sub-board takes, otherwise changes nothing; forces the cell's sub-board next, writes an X or O win of the sub-board to the main board but leaves a tied one blank (`Record`, see Findings) and counts the move; marks once written are never changed |
| Ultimate.UltimateBoard.UpdateBoardClosing | ultimate_XO_Classes.cpp:86-90 | the same update with the intended recording: the same acceptance, forced board and count, and a tied sub-board is marked T as well (`RecordClosing`) |
| Ultimate.UltimateBoard.OpenBoards | ultimate_XO_Classes.cpp:165-171 | the nested scan returns the open main cells in row-major order |
| Ultimate.UltimateBoard.GetAvailableBoards | ultimate_XO_Classes.cpp:161-192 | returns exactly the sub-boards a move may be played in |
| UltimateDecimal.SubBoardWinner | Games/ultimate_XO_Classes.cpp:76-96 | X when X has won the sub-board, else O, else T when drawn, else blank |
| UltimateDecimal.GetSubBoard | Games/ultimate_XO_Classes.cpp:154-159 | a sub-board exactly for coordinates on the main board, found at the row-major index |
| UltimateDecimal.AdmitsAvailable | Games/ultimate_XO_Classes.cpp:35-74 | update_board admits exactly a move in an available sub-board with cell coordinates 0..2, and every admitted coordinate is one of 0..2, 10..12, 20..22 |
| UltimateDecimal.EncodedMoveAdmitted | Games/ultimate_XO_Classes.cpp:195-198 | a move packed from an available sub-board and a cell is admitted |
| UltimateDecimal.FinishedBoardCloses | Games/ultimate_XO_Classes.cpp:67-71 | after the verdict is recorded the sub-board is available exactly when it was and nobody has won or drawn it |
| UltimateDecimal.WinAndDraw | Games/ultimate_XO_Classes.cpp:98-145 | a win is three sub-boards in a straight line, a draw excludes a win by X or O, and on a draw no sub-board is available |
| UltimateDecimal.UltimateBoard.constructor | Games/ultimate_XO_Classes.cpp:11-25 | a blank main board with no moves, every sub-board available |
| UltimateDecimal.UltimateBoard.UpdateBoard | Games/ultimate_XO_Classes.cpp:35-74 | accepts exactly an admitted move the sub-board takes, otherwise changes nothing; counts the move and records the sub-board's verdict; marks once written are never changed |
| Word.UpperWord | Word.cpp:28 | every character is upper-cased and the length is kept |
| Word.LoadDictionary | Word.cpp:17-41 | the dictionary is exactly the upper-cased three-letter tokens |
| Word.BlankTestRedundant | Word.cpp:43-52 | for a dictionary read word by word, a word is valid exactly when it is in the dictionary |
| Word.ExtractSpec | Word.cpp:54-63 | extract_word yields three letters exactly when all three cells are on the board, and then the letters of those cells |
| Word.LinesOnBoard | Word.cpp:65-99 | each of the eight lines has_valid_word reads is three on-board cells |
| Word.LinesThrough | Word.cpp:65-99 | a cell lies on its row, its column, and each diagonal it belongs to, and on no other line |
| Word.NewWordThroughMove | Word.cpp:124-164 | when a move creates the first word on the board, that word runs through the move's cell |
| Word.LineUnchanged | Word.cpp:124-164 | a move leaves every line not through its cell unchanged |
| Word.FullBoardEnds | Word.cpp:177-184 | on a reachable board nine moves means a full board, which ends the game |
| Word.WordBoard.constructor | Word.cpp:7-15 | a blank board, no moves and the loaded dictionary |
| Word.WordBoard.IsValidWord | Word.cpp:43-52 | a three-character word with no blank that is in the dictionary |
| Word.WordBoard.ExtractWord | Word.cpp:54-63 | the specified word of the line from the cell |
| Word.WordBoard.HasValidWord | Word.cpp:65-99 | true exactly when some row, column or diagonal spells a dictionary word |
| Word.WordBoard.UpdateBoard | Word.cpp:101-167 | accepts exactly an in-range blank cell and a letter, otherwise changes nothing; writes the upper-cased letter, counts the move and keeps the reachable-state invariant |

## Left out

- Console I/O: prompts, board display, and every message `update_board` prints. In `Word.WordBoard.UpdateBoard` the words printed after a move change no state and are not modelled.
- The user-interface classes, player objects, `Move` wrappers and game-manager loops; of the loops only one turn of the stand-alone misère game (`MisereConsole.MisereGame.PlayTurn`) is modelled.
- `MisereConsole.MisereGame.PlayTurn` requires a blank cell. The source's `play` loop guarantees this, for both its input check and the computer's choice.
- Random choices: the computer players that pick random cells, and the obstacle cells. The random retry loop of `Obstacles.Board6x6.AddRandomObstacles` becomes a nondeterministic choice of two distinct blank cells; it requires two blank cells, and `Obstacles.TwoBlanks` shows that two such cells then exist.
- Obstacles.Board6x6.UpdateBoard requires the reachable-state invariant. Without two blank cells, the source's random retry loop for obstacles would never end.
- The `X_O_Board` sub-boards of both ultimate boards are not part of this model. Their answers (whether they take a move, who has won, whether they are over) are parameters of `UpdateBoard`. `UltimateDecimal.GetSubBoard` returns the sub-board's index instead of a pointer.
- Word: reading the dictionary file, and the exit when the file is missing or yields no three-letter word. `Word.LoadDictionary` takes the tokens the file yields.
- SlidingMisere: the blank symbol comes from a header that is not part of this model, so it is a constructor parameter.
- Memory: the caller keeps the two boards paired. `Memory.PlayBoth` models that pairing; the fake board's four predicates always answer false, whoever the player is.
- Memory management (`new`/`delete` of moves and sub-boards) and C++ integer overflow: every count here stays far below 2^31.
- ConnectFour.Board: only the board matrix and the move counter are modelled; the player objects and `Move` wrappers of the framework are not.

## Findings

| source | as written | input that shows it | evidently intended | confidence | as-written member | corrected member |
|---|---|---|---|---|---|---|
| ultimate_XO_Classes.cpp:86-90 | a sub-board whose game ends without a winner is not recorded: its main cell stays blank | a sub-board filled without three in a row (check_sub_board_win returns T) | record T on the main board, so the tied sub-board closes (the comments at lines 144 and 180 speak of tied, T-marked main cells) and is_draw can hold | not executed; high, the T is never written anywhere else | Ultimate.TieKeepsBoardOpen | Ultimate.FinishedBoardCloses |
| Project2/XO_4x4_Classes.cpp:20-37 | update_board writes the destination of a sliding move and never blanks its origin, and the move built at line 183 carries only the destination | X slides from (0,0) to the blank (1,0) | the token moves: the origin becomes blank and the counts of marks and blanks stay the same (the prompt asks for "your token to move") | not executed; high | FourByFour.SlideCopiesPiece | FourByFour.SlideMovesPiece |

`Ultimate.Record` is the recording as written, which `Ultimate.UltimateBoard.UpdateBoard` uses. `Ultimate.RecordClosing` is the intended one, which `Ultimate.UltimateBoard.UpdateBoardClosing` uses.

In the 4 x 4 game the move prompt reads a source and a destination but passes only the destination on, so the sliding piece is copied. `FourByFour.Board4x4.UpdateBoard` models the code as written. `FourByFour.Board4x4.SlideMove` models the intended slide.
