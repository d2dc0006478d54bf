/**
 * The ultimate boards pack a sub-board index and a cell index into one
 * coordinate, `board * base + cell`, and unpack it with C++ integer
 * division and remainder, which truncate toward zero (Dafny's `/` and `%`
 * are Euclidean, so the C++ operators are written out here).
 */
module Encoding {

  /** C++ `a / b` for a positive divisor: the quotient truncated toward zero. */
  function TruncDiv(a: int, b: int): int
    requires b > 0
  {
    if a >= 0 then a / b else -((-a) / b)
  }

  /** C++ `a % b` for a positive divisor: the remainder takes the sign of `a`. */
  function TruncRem(a: int, b: int): int
    requires b > 0
  {
    a - b * TruncDiv(a, b)
  }

  /** The C++ guarantees: quotient and remainder rebuild `a`, and the remainder is smaller than the divisor and has the sign of `a`. */
  lemma TruncDivRem(a: int, b: int)
    requires b > 0
    ensures b * TruncDiv(a, b) + TruncRem(a, b) == a
    ensures a >= 0 ==> 0 <= TruncRem(a, b) < b && TruncDiv(a, b) == a / b && TruncRem(a, b) == a % b
    ensures a < 0 ==> -b < TruncRem(a, b) <= 0 && TruncDiv(a, b) <= 0
  {
    if a < 0 {
      var q := (-a) / b;
      assert -a == b * q + (-a) % b;
    }
  }

  predicate Digit(d: int) {
    0 <= d <= 2
  }

  /** The (sub-board, cell) pair a packed coordinate decodes to. */
  function Decode(x: int, base: int): (p: (int, int))
    requires base > 0
    ensures base * p.0 + p.1 == x
  {
    TruncDivRem(x, base);
    (TruncDiv(x, base), TruncRem(x, base))
  }

  function Encode(board: int, cell: int, base: int): int {
    board * base + cell
  }

  /**
   * With a base of at least 3, the decoded pair is a pair of digits 0..2
   * exactly when the coordinate is non-negative, its Euclidean quotient is
   * at most 2 and its Euclidean remainder at most 2: a negative coordinate
   * is always refused, so truncation and Euclidean division agree on every
   * coordinate that is accepted.
   */
  lemma DecodeDigits(x: int, base: int)
    requires base >= 3
    ensures Digit(Decode(x, base).0) && Digit(Decode(x, base).1)
            <==> 0 <= x && x / base <= 2 && x % base <= 2
    ensures 0 <= x ==> Decode(x, base) == (x / base, x % base)
  {
    TruncDivRem(x, base);
    if x < 0 && Digit(Decode(x, base).1) {
      assert TruncRem(x, base) == 0;
      assert base * TruncDiv(x, base) == x;
      assert TruncDiv(x, base) < 0;
    }
  }

  /** Unpacking a packed pair of digits gives the digits back. */
  lemma DecodeEncode(board: int, cell: int, base: int)
    requires Digit(board) && Digit(cell) && base >= 3
    ensures Decode(Encode(board, cell, base), base) == (board, cell)
  {
    var x := Encode(board, cell, base);
    DecodeDigits(x, base);
    assert x == base * board + cell;
    assert x / base == board && x % base == cell by {
      LemmaDivModUnique(x, base, board, cell);
    }
  }

  /** Packing a decoded pair gives the coordinate back. */
  lemma EncodeDecode(x: int, base: int)
    requires base > 0
    ensures Encode(Decode(x, base).0, Decode(x, base).1, base) == x
  {
  }

  /** Euclidean division is the unique quotient-remainder split with 0 <= r < b. */
  lemma LemmaDivModUnique(x: int, b: int, q: int, r: int)
    requires b > 0 && 0 <= r < b && x == b * q + r
    ensures x / b == q && x % b == r
  {
    var q', r' := x / b, x % b;
    var d := q' - q;
    assert b * q' == b * q + b * d;
    assert b * d == r - r';
    if d > 0 {
      MulAtLeast(b, d);
    } else if d < 0 {
      MulAtLeast(b, -d);
    }
  }

  lemma {:induction false} MulAtLeast(b: int, d: int)
    requires b > 0 && d >= 1
    ensures b * d >= b
  {
    if d > 1 {
      MulAtLeast(b, d - 1);
      assert b * d == b * (d - 1) + b;
    }
  }
}
