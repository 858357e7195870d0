/** Small value types shared by both variants of the dice toolkit. */
module Common {

  datatype Option<T> = None | Some(value: T)

  /** A computation that either produces a value or raises an error. */
  datatype Result<T, E> = Ok(value: T) | Err(error: E)

  /** A computation that produces nothing and may raise an error. */
  datatype Outcome<E> = Pass | Fail(error: E)

  /** The Python exception class by which an error reaches the caller. */
  datatype PyException = ValueError | KeyError | IndexError | AttributeError | TypeError

  /** What `float(new_weight)` makes of the argument of `change_weight`: a
      number; a `ValueError` for a string that does not spell a number; a
      `TypeError` for a value that is neither a number nor a string (`None`,
      a list), which the `except ValueError` of both variants lets through. */
  datatype WeightInput = Numeric(value: real) | Unparsable | WrongType

  /** The sum of a weight column. */
  function Total(ws: seq<real>): real
  {
    if ws == [] then 0.0 else Total(ws[..|ws| - 1]) + ws[|ws| - 1]
  }

  /** A column whose sum is positive holds a positive entry. */
  lemma {:induction false} PositiveTotalHasPositiveEntry(ws: seq<real>)
    requires Total(ws) > 0.0
    ensures exists i :: 0 <= i < |ws| && ws[i] > 0.0
  {
    var n := |ws|;
    if ws[n - 1] <= 0.0 {
      PositiveTotalHasPositiveEntry(ws[..n - 1]);
      var i :| 0 <= i < n - 1 && ws[..n - 1][i] > 0.0;
      assert ws[i] > 0.0;
    }
  }

  /** A column without negative entries sums to a non-negative number. */
  lemma {:induction false} NonNegativeTotal(ws: seq<real>)
    requires forall i :: 0 <= i < |ws| ==> ws[i] >= 0.0
    ensures Total(ws) >= 0.0
  {
    if ws != [] {
      NonNegativeTotal(ws[..|ws| - 1]);
    }
  }

  /** A column without negative entries that sums to zero holds only zeros. */
  lemma {:induction false} NonNegativeZeroTotal(ws: seq<real>)
    requires forall i :: 0 <= i < |ws| ==> ws[i] >= 0.0
    requires Total(ws) == 0.0
    ensures forall i :: 0 <= i < |ws| ==> ws[i] == 0.0
  {
    if ws != [] {
      var n := |ws|;
      NonNegativeTotal(ws[..n - 1]);
      NonNegativeZeroTotal(ws[..n - 1]);
      assert forall i :: 0 <= i < n - 1 ==> ws[i] == ws[..n - 1][i];
    }
  }

  /** `c.lower()` for one character; only ASCII capitals are folded. */
  function LowerChar(c: char): (r: char)
    ensures 'A' <= c <= 'Z' ==> 'a' <= r <= 'z' && r as int - c as int == 32
    ensures !('A' <= c <= 'Z') ==> r == c
  {
    if 'A' <= c <= 'Z' then (c as int + 32) as char else c
  }

  /** `s.lower()`, folding ASCII capitals only. */
  function Lower(s: string): (r: string)
    ensures |r| == |s|
    ensures forall i :: 0 <= i < |s| ==> r[i] == LowerChar(s[i])
  {
    if s == [] then [] else [LowerChar(s[0])] + Lower(s[1..])
  }
}
