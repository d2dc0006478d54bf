/**
 * Word tic-tac-toe: players write letters on a 3 x 3 board and the game is
 * won as soon as a row, a column or a diagonal, read in its scan
 * direction, spells a three-letter word of the dictionary.
 */
module Word {
  import opened Grids

  const Blank: char := ' '

  predicate OnBoard(r: int, c: int) {
    0 <= r < 3 && 0 <= c < 3
  }

  // ---------------------------------------------------------------- dictionary

  /** `toupper` applied to every character. */
  function UpperWord(t: string): (u: string)
    ensures |u| == |t| && forall i :: 0 <= i < |t| ==> u[i] == ToUpper(t[i])
  {
    if t == [] then [] else [ToUpper(t[0])] + UpperWord(t[1..])
  }

  /**
   * load_dictionary after the file is read: every token is upper-cased
   * and the three-letter ones are kept.
   */
  function LoadDictionary(tokens: seq<string>): (d: set<string>)
    ensures forall w :: w in d ==> |w| == 3 && forall i :: 0 <= i < 3 ==> !IsLower(w[i])
    ensures forall t :: t in tokens && |t| == 3 ==> UpperWord(t) in d
    ensures forall w :: w in d ==> exists t :: t in tokens && |t| == 3 && w == UpperWord(t)
  {
    set t | t in tokens && |t| == 3 :: UpperWord(t)
  }

  /** is_valid_word: three characters, none of them blank, and in the dictionary. */
  predicate ValidWord(dict: set<string>, w: string) {
    |w| == 3 && (forall i :: 0 <= i < |w| ==> w[i] != Blank) && w in dict
  }

  /**
   * Tokens read word by word hold no blank, so for a loaded dictionary the
   * blank test of is_valid_word never decides: a word is valid exactly when
   * it is in the dictionary.
   */
  lemma BlankTestRedundant(tokens: seq<string>, w: string)
    requires forall t, i :: t in tokens && 0 <= i < |t| ==> t[i] != Blank
    ensures ValidWord(LoadDictionary(tokens), w) <==> w in LoadDictionary(tokens)
  {
    var d := LoadDictionary(tokens);
    if w in d {
      var t :| t in tokens && |t| == 3 && w == UpperWord(t);
      forall i | 0 <= i < |w|
        ensures w[i] != Blank
      {
        ToUpperFacts(t[i]);
      }
    }
  }

  // ---------------------------------------------------------------- lines

  /**
   * extract_word: the three characters from (row, col) in steps of
   * (dr, dc), or the empty string when any of them is off the board.
   */
  function Extract(g: Grid<char>, row: int, col: int, dr: int, dc: int): (w: string)
    requires IsGrid(g, 3, 3)
    ensures |w| == 0 || |w| == 3
  {
    if OnBoard(row, col) && OnBoard(row + dr, col + dc) && OnBoard(row + 2 * dr, col + 2 * dc) then
      [g[row][col], g[row + dr][col + dc], g[row + 2 * dr][col + 2 * dc]]
    else
      ""
  }

  /** The extracted word is the line's three characters when the whole line is on the board, and empty otherwise. */
  lemma ExtractSpec(g: Grid<char>, row: int, col: int, dr: int, dc: int)
    requires IsGrid(g, 3, 3)
    ensures |Extract(g, row, col, dr, dc)| == 3 <==> forall i :: 0 <= i < 3 ==> OnBoard(row + i * dr, col + i * dc)
    ensures |Extract(g, row, col, dr, dc)| == 3 ==>
              forall i :: 0 <= i < 3 ==> Extract(g, row, col, dr, dc)[i] == g[row + i * dr][col + i * dc]
  {
    if forall i :: 0 <= i < 3 ==> OnBoard(row + i * dr, col + i * dc) {
      assert OnBoard(row + 0 * dr, col + 0 * dc) && OnBoard(row + 1 * dr, col + 1 * dc) && OnBoard(row + 2 * dr, col + 2 * dc);
    }
    if |Extract(g, row, col, dr, dc)| == 3 {
      forall i | 0 <= i < 3
        ensures OnBoard(row + i * dr, col + i * dc) && Extract(g, row, col, dr, dc)[i] == g[row + i * dr][col + i * dc]
      {
        assert i == 0 || i == 1 || i == 2;
      }
    }
  }

  /** The eight lines has_valid_word reads, as (row, col, dr, dc), in its order: rows, columns, the main diagonal, the anti-diagonal from the top right. */
  const Lines: seq<(int, int, int, int)> :=
    [(0, 0, 0, 1), (1, 0, 0, 1), (2, 0, 0, 1),
     (0, 0, 1, 0), (0, 1, 1, 0), (0, 2, 1, 0),
     (0, 0, 1, 1), (0, 2, 1, -1)]

  function LineWord(g: Grid<char>, k: int): string
    requires IsGrid(g, 3, 3) && 0 <= k < 8
  {
    Extract(g, Lines[k].0, Lines[k].1, Lines[k].2, Lines[k].3)
  }

  /** Cell `i` of line `k`. */
  function LineCell(k: int, i: int): (int, int)
    requires 0 <= k < 8
  {
    (Lines[k].0 + i * Lines[k].2, Lines[k].1 + i * Lines[k].3)
  }

  /** Every one of the eight lines lies on the board, so each reads three letters. */
  lemma LinesOnBoard(g: Grid<char>, k: int)
    requires IsGrid(g, 3, 3) && 0 <= k < 8
    ensures |LineWord(g, k)| == 3
    ensures forall i :: 0 <= i < 3 ==>
              (OnBoard(LineCell(k, i).0, LineCell(k, i).1) && LineWord(g, k)[i] == g[LineCell(k, i).0][LineCell(k, i).1])
  {
    ExtractSpec(g, Lines[k].0, Lines[k].1, Lines[k].2, Lines[k].3);
  }

  /**
   * The lines through (x, y) are the ones update_board's diagnostics look
   * at: row x, column y, the main diagonal when x == y and the
   * anti-diagonal when x + y == 2.
   */
  lemma LinesThrough(k: int, x: int, y: int)
    requires 0 <= k < 8 && OnBoard(x, y)
    ensures (exists i :: 0 <= i < 3 && LineCell(k, i) == (x, y)) <==>
              (k < 3 && x == k) || (3 <= k < 6 && y == k - 3) || (k == 6 && x == y) || (k == 7 && x + y == 2)
  {
    if (k < 3 && x == k) || (3 <= k < 6 && y == k - 3) || (k == 6 && x == y) {
      assert LineCell(k, if k < 3 then y else x) == (x, y);
    } else if k == 7 && x + y == 2 {
      assert LineCell(k, x) == (x, y);
    }
  }

  /** has_valid_word: one of the eight lines spells a valid word. */
  predicate HasWord(g: Grid<char>, dict: set<string>)
    requires IsGrid(g, 3, 3)
  {
    exists k :: 0 <= k < 8 && ValidWord(dict, LineWord(g, k))
  }

  /**
   * Writing a letter can only complete a word on a line through the cell
   * written: a word that appears after the move lies on one of the lines
   * the move's diagnostics examine.
   */
  lemma NewWordThroughMove(g: Grid<char>, dict: set<string>, x: int, y: int, ch: char)
    requires IsGrid(g, 3, 3) && OnBoard(x, y)
    requires !HasWord(g, dict) && HasWord(Put(g, x, y, ch), dict)
    ensures exists k :: 0 <= k < 8 && ValidWord(dict, LineWord(Put(g, x, y, ch), k)) &&
              exists i :: 0 <= i < 3 && LineCell(k, i) == (x, y)
  {
    var h := Put(g, x, y, ch);
    forall k | 0 <= k < 8 && !(exists i :: 0 <= i < 3 && LineCell(k, i) == (x, y))
      ensures LineWord(h, k) == LineWord(g, k)
    {
      LineUnchanged(g, k, x, y, ch);
    }
  }

  /** A line that does not pass through (x, y) reads the same after a write there. */
  lemma LineUnchanged(g: Grid<char>, k: int, x: int, y: int, ch: char)
    requires IsGrid(g, 3, 3) && 0 <= k < 8 && OnBoard(x, y)
    requires forall i :: 0 <= i < 3 ==> LineCell(k, i) != (x, y)
    ensures LineWord(Put(g, x, y, ch), k) == LineWord(g, k)
  {
    var h := Put(g, x, y, ch);
    LinesOnBoard(g, k);
    LinesOnBoard(h, k);
    forall i | 0 <= i < 3
      ensures LineWord(h, k)[i] == LineWord(g, k)[i]
    {
      assert LineCell(k, i) != (x, y);
    }
  }

  // ---------------------------------------------------------------- game state

  /** is_win: the board shows a word, whoever the player is. */
  predicate IsWin(g: Grid<char>, dict: set<string>)
    requires IsGrid(g, 3, 3)
  {
    HasWord(g, dict)
  }

  /** is_lose: never. */
  predicate IsLose(g: Grid<char>, dict: set<string>) {
    false
  }

  /** is_draw: exactly nine moves and no word on the board. */
  predicate IsDraw(g: Grid<char>, nMoves: int, dict: set<string>)
    requires IsGrid(g, 3, 3)
  {
    nMoves == 9 && !HasWord(g, dict)
  }

  predicate GameIsOver(g: Grid<char>, nMoves: int, dict: set<string>)
    requires IsGrid(g, 3, 3)
  {
    IsWin(g, dict) || IsDraw(g, nMoves, dict)
  }

  /** Every move filled one blank cell with an upper-case letter. */
  predicate Consistent(g: Grid<char>, nMoves: int) {
    IsGrid(g, 3, 3) && nMoves + Count(g, Blank) == 9 &&
    forall i, j :: 0 <= i < 3 && 0 <= j < 3 ==> g[i][j] == Blank || IsUpper(g[i][j])
  }

  /**
   * On a reachable board the nine-move count means a full board, so a full
   * board ends the game in a win or a draw.
   */
  lemma FullBoardEnds(g: Grid<char>, nMoves: int, dict: set<string>)
    requires Consistent(g, nMoves)
    ensures nMoves <= 9
    ensures nMoves == 9 <==> forall i, j :: OnBoard(i, j) ==> g[i][j] != Blank
    ensures nMoves == 9 ==> GameIsOver(g, nMoves, dict)
  {
    CountZero(g, Blank);
  }

  // ---------------------------------------------------------------- the board

  /** WordBoard: the letters, the move counter and the dictionary. */
  class WordBoard {
    var board: Grid<char>
    var nMoves: int
    const dictionary: set<string>

    ghost predicate Valid()
      reads this
    {
      IsGrid(board, 3, 3)
    }

    /** A blank board and the dictionary loaded from the file's tokens. */
    constructor (tokens: seq<string>)
      ensures Valid() && board == Uniform(3, 3, Blank) && nMoves == 0
      ensures dictionary == LoadDictionary(tokens)
      ensures Consistent(board, nMoves)
    {
      board := Uniform(3, 3, Blank);
      nMoves := 0;
      dictionary := LoadDictionary(tokens);
      new;
      CountAll(board, Blank, 3, 3);
    }

    /** is_valid_word, scanning the word for a blank. */
    method IsValidWord(word: string) returns (valid: bool)
      ensures valid == ValidWord(dictionary, word)
    {
      if |word| != 3 {
        return false;
      }
      var i := 0;
      while i < |word|
        invariant 0 <= i <= |word|
        invariant forall k :: 0 <= k < i ==> word[k] != Blank
      {
        if word[i] == Blank {
          return false;
        }
        i := i + 1;
      }
      return word in dictionary;
    }

    /** extract_word, appending one character per step. */
    method ExtractWord(row: int, col: int, dr: int, dc: int) returns (word: string)
      requires Valid()
      ensures word == Extract(board, row, col, dr, dc)
    {
      ExtractSpec(board, row, col, dr, dc);
      word := "";
      var i := 0;
      while i < 3
        invariant 0 <= i <= 3 && |word| == i
        invariant forall k :: 0 <= k < i ==> OnBoard(row + k * dr, col + k * dc) && word[k] == board[row + k * dr][col + k * dc]
      {
        var r := row + i * dr;
        var c := col + i * dc;
        if r < 0 || r >= 3 || c < 0 || c >= 3 {
          assert !OnBoard(row + i * dr, col + i * dc);
          return "";
        }
        word := word + [board[r][c]];
        i := i + 1;
      }
    }

    /** The scan of has_valid_word: rows, then columns, then the two diagonals, stopping at the first word. */
    method HasValidWord() returns (found: bool)
      requires Valid()
      ensures found == HasWord(board, dictionary)
    {
      var i := 0;
      while i < 3
        invariant 0 <= i <= 3
        invariant forall k :: 0 <= k < i ==> !ValidWord(dictionary, LineWord(board, k))
      {
        var word := ExtractWord(i, 0, 0, 1);
        assert word == LineWord(board, i);
        var valid := IsValidWord(word);
        if valid {
          return true;
        }
        i := i + 1;
      }
      var j := 0;
      while j < 3
        invariant 0 <= j <= 3
        invariant forall k :: 0 <= k < 3 + j ==> !ValidWord(dictionary, LineWord(board, k))
      {
        var word := ExtractWord(0, j, 1, 0);
        assert word == LineWord(board, 3 + j);
        var valid := IsValidWord(word);
        if valid {
          return true;
        }
        j := j + 1;
      }
      var diag1 := ExtractWord(0, 0, 1, 1);
      assert diag1 == LineWord(board, 6);
      var valid := IsValidWord(diag1);
      if valid {
        return true;
      }
      var diag2 := ExtractWord(0, 2, 1, -1);
      assert diag2 == LineWord(board, 7);
      valid := IsValidWord(diag2);
      if valid {
        return true;
      }
      return false;
    }

    /**
     * update_board: refuses an off-board cell, a taken cell or a character
     * that is not a letter, with no change; otherwise writes the letter in
     * upper case and counts the move.
     */
    method UpdateBoard(x: int, y: int, letter: char) returns (ok: bool)
      requires Valid()
      modifies this
      ensures Valid()
      ensures ok <==> OnBoard(x, y) && old(board)[x][y] == Blank && IsAlpha(letter)
      ensures !ok ==> board == old(board) && nMoves == old(nMoves)
      ensures ok ==> board == Put(old(board), x, y, ToUpper(letter)) && nMoves == old(nMoves) + 1
      ensures old(Consistent(board, nMoves)) ==> Consistent(board, nMoves)
    {
      if x < 0 || x >= 3 || y < 0 || y >= 3 {
        return false;
      }
      if board[x][y] != Blank {
        return false;
      }
      if !IsAlpha(letter) {
        return false;
      }
      ToUpperFacts(letter);
      CountPut(board, x, y, ToUpper(letter), Blank);
      board := Put(board, x, y, ToUpper(letter));
      nMoves := nMoves + 1;
      return true;
    }
  }
}
