/** The package variant of the toolkit (montecarlo/montecarlo.py).

    A die keeps a (face, weight) table; a game rolls each die `times` times
    in turn, lays the outcomes out die-major in one list and pivots them into
    a roll × die table; an analyzer replays its games to count combinations
    and jackpots. */
module Package {
  import opened Common
  import opened Counting
  import opened Weights
  import opened Layout

  /** `DEFAULT_WEIGHT`: the weight every face starts with. */
  const DefaultWeight: real := 1.0

  /** The ways a call of the package variant fails. */
  datatype Error =
    | UnknownFace     // `change_weight`: the face is not on the die
    | WeightNotFloat  // `change_weight`: `float(new_weight)` raised `ValueError`
    | WeightWrongType // `float(new_weight)` raised `TypeError`, which is not caught
    | NegativeCount   // `DataFrame.sample` asked for fewer than zero rows
    | NegativeWeight  // `DataFrame.sample` with a negative weight
    | ZeroWeightSum   // `DataFrame.sample` with weights summing to zero
    | InvalidDisplay  // `show` with a display other than "wide" and "narrow"
    | NoGames         // `compute_combo`: `pd.concat` of an empty list
  {
    /** The Python exception the failure surfaces as. */
    function Raised(): PyException
    {
      match this
      case UnknownFace => KeyError
      case WeightNotFloat => ValueError
      case WeightWrongType => TypeError
      case NegativeCount => ValueError
      case NegativeWeight => ValueError
      case ZeroWeightSum => ValueError
      case InvalidDisplay => ValueError
      case NoGames => ValueError
    }
  }

  /** A die: its faces in the order given, and one weight per face. */
  class Die<F(==)> {
    /** The "faces" column of `_my_die`. */
    const faces: seq<F>
    /** The "weights" column of `_my_die`, row for row with `faces`. */
    var weights: seq<real>

    ghost predicate Valid()
      reads this
    {
      |weights| == |faces|
    }

    /** Every face starts with `DefaultWeight`. */
    constructor (faces: seq<F>)
      ensures Valid() && this.faces == faces
      ensures forall i :: 0 <= i < |faces| ==> weights[i] == DefaultWeight
    {
      this.faces := faces;
      weights := seq(|faces|, _ => DefaultWeight);
    }

    /** `change_weight`: an unknown face, then a weight that is not a number,
        is refused before the table is written; otherwise every row showing
        `face` gets the new weight and no other row changes. */
    method ChangeWeight(face: F, newWeight: WeightInput) returns (r: Outcome<Error>)
      requires Valid()
      modifies this
      ensures Valid()
      ensures face !in faces ==> r == Fail(UnknownFace)
      ensures face in faces && newWeight.Unparsable? ==> r == Fail(WeightNotFloat)
      ensures face in faces && newWeight.WrongType? ==> r == Fail(WeightWrongType)
      ensures face in faces && newWeight.Numeric? ==> r == Pass
      ensures face !in faces ==> r.error.Raised() == KeyError
      ensures r.Fail? && face in faces ==> r.error.Raised() == if newWeight.WrongType? then TypeError else ValueError
      ensures r.Fail? ==> weights == old(weights)
      ensures r.Pass? ==> weights == Reweighted(faces, old(weights), face, newWeight.value)
    {
      if face !in faces {
        return Fail(UnknownFace);
      }
      match newWeight
      case Unparsable =>
        return Fail(WeightNotFloat);
      case WrongType =>
        return Fail(WeightWrongType);
      case Numeric(w) =>
        weights := Reweighted(faces, weights, face, w);
        return Pass;
    }

    /** Why `DataFrame.sample(n, weights=..., replace=True)` refuses to draw
        `n` rows, checked in pandas' order: a negative `n`, a negative
        weight, weights summing to zero. It draws exactly when `n` is not
        negative, no weight is negative and some weight is positive; the
        lemma `SampleErrorCases` states each case. */
    function SampleError(n: int): Option<Error>
      reads this
    {
      if n < 0 then Some(NegativeCount)
      else if exists i :: 0 <= i < |weights| && weights[i] < 0.0 then Some(NegativeWeight)
      else if Total(weights) == 0.0 then Some(ZeroWeightSum)
      else None
    }

    /** Each refusal of the sampler, and its absence, in terms of the count
        and the weights: with a count that is not negative and no negative
        weight, the weights sum to zero exactly when none is positive. */
    lemma SampleErrorCases(n: int)
      ensures SampleError(n) == Some(NegativeCount) <==> n < 0
      ensures SampleError(n) == Some(NegativeWeight) <==>
        n >= 0 && exists i :: 0 <= i < |weights| && weights[i] < 0.0
      ensures SampleError(n) == Some(ZeroWeightSum) <==>
        && n >= 0
        && (forall i :: 0 <= i < |weights| ==> weights[i] >= 0.0)
        && (forall i :: 0 <= i < |weights| ==> weights[i] == 0.0)
      ensures SampleError(n) == None <==>
        && n >= 0
        && (forall i :: 0 <= i < |weights| ==> weights[i] >= 0.0)
        && (exists i :: 0 <= i < |weights| && weights[i] > 0.0)
    {
      if n >= 0 && forall i :: 0 <= i < |weights| ==> weights[i] >= 0.0 {
        NonNegativeTotal(weights);
        if Total(weights) == 0.0 {
          NonNegativeZeroTotal(weights);
        } else {
          PositiveTotalHasPositiveEntry(weights);
        }
      }
    }

    /** `roll_die(n_rolls)` (the default is one roll): `n_rolls` faces of the
        die, drawn with replacement, each the face at the position the
        sampler drew, which has a positive weight. */
    function RollDie(n: int, draws: seq<nat>): (r: Result<seq<F>, Error>)
      reads this
      requires Valid()
      requires n >= 0 ==> |draws| == n
      requires SampleError(n) == None ==> ValidDraws(weights, draws)
      ensures r.Err? <==> SampleError(n).Some?
      ensures r.Err? ==> r.error == SampleError(n).value
      ensures r.Ok? ==> |r.value| == n && forall i :: 0 <= i < n ==>
        r.value[i] == faces[draws[i]] && r.value[i] in faces && weights[draws[i]] > 0.0
    {
      match SampleError(n)
      case Some(e) => Err(e)
      case None => Ok(Drawn(faces, draws))
    }

    /** `show`: the (face, weight) table in face order. */
    function Show(): (t: seq<(F, real)>)
      reads this
      requires Valid()
      ensures |t| == |faces|
      ensures forall i :: 0 <= i < |t| ==> t[i] == (faces[i], weights[i])
    {
      var ws := weights;
      seq(|faces|, i requires 0 <= i < |faces| => (faces[i], ws[i]))
    }
  }

  /** `len(range(1, times + 1))`: the number of rolls a play asks for. */
  function Rolls(times: int): nat
  {
    if times < 0 then 0 else times
  }

  /** `list(range(lo, hi))`. */
  function Range(lo: int, hi: int): (s: seq<int>)
    ensures |s| == if lo < hi then hi - lo else 0
    ensures forall i :: 0 <= i < |s| ==> s[i] == lo + i
    decreases hi - lo
  {
    if lo >= hi then [] else [lo] + Range(lo + 1, hi)
  }

  /** One block of roll numbers 1..times per die. */
  function RollBlocks(times: int, n: nat): (b: seq<seq<int>>)
    ensures |b| == n
    ensures forall d :: 0 <= d < n ==> |b[d]| == Rolls(times)
    ensures forall d, r :: 0 <= d < n && 0 <= r < Rolls(times) ==> b[d][r] == r + 1
  {
    seq(n, _ => Range(1, times + 1))
  }

  /** Block `d` repeats die number `d` once per roll. */
  function DieBlocks(times: int, n: nat): (b: seq<seq<int>>)
    ensures |b| == n
    ensures forall d :: 0 <= d < n ==> |b[d]| == Rolls(times)
    ensures forall d, r :: 0 <= d < n && 0 <= r < Rolls(times) ==> b[d][r] == d
  {
    seq(n, d => seq(Rolls(times), _ => d))
  }

  /** `roll_numbers`: the roll numbers 1..times, once for every die. */
  function RollNumbers(times: int, n: nat): (s: seq<int>)
    ensures |s| == Rolls(times) * n
  {
    ConcatAt(RollBlocks(times, n), Rolls(times));
    Concat(RollBlocks(times, n))
  }

  /** `die_numbers`: every die number 0..n-1, `times` times over. */
  function DieNumbers(times: int, n: nat): (s: seq<int>)
    ensures |s| == Rolls(times) * n
  {
    ConcatAt(DieBlocks(times, n), Rolls(times));
    Concat(DieBlocks(times, n))
  }

  /** Roll `r` of die `d` sits at `Offset(times, d, r)` of the long table
      built by `play`: entry `r` of block `d`. */
  lemma LayoutBlocks(times: nat, n: nat)
    ensures forall d, r :: 0 <= d < n && 0 <= r < times ==>
      Offset(times, d, r) < times * n &&
      RollNumbers(times, n)[Offset(times, d, r)] == r + 1 && DieNumbers(times, n)[Offset(times, d, r)] == d
  {
    ConcatAt(RollBlocks(times, n), times);
    ConcatAt(DieBlocks(times, n), times);
  }

  /** Position `k` of the long table built by `play` belongs to roll
      `k % times + 1` of die `k / times`; both columns have `times × dice`
      entries. */
  lemma LayoutAt(times: nat, n: nat)
    ensures |RollNumbers(times, n)| == times * n && |DieNumbers(times, n)| == times * n
    ensures forall k :: 0 <= k < times * n ==>
      RollNumbers(times, n)[k] == k % times + 1 && DieNumbers(times, n)[k] == k / times
  {
    LayoutBlocks(times, n);
    forall k | 0 <= k < times * n
      ensures RollNumbers(times, n)[k] == k % times + 1 && DieNumbers(times, n)[k] == k / times
    {
      OffsetOfPosition(k, times, n);
    }
  }

  /** No two positions of the long table share a (roll number, die number)
      pair, so `pivot` finds exactly one face for every cell. */
  lemma LayoutKeysUnique(times: nat, n: nat)
    ensures forall k, l :: 0 <= k < times * n && 0 <= l < times * n ==>
      (RollNumbers(times, n)[k], DieNumbers(times, n)[k]) == (RollNumbers(times, n)[l], DieNumbers(times, n)[l]) ==> k == l
  {
    LayoutAt(times, n);
    forall k, l | 0 <= k < times * n && 0 <= l < times * n &&
      (RollNumbers(times, n)[k], DieNumbers(times, n)[k]) == (RollNumbers(times, n)[l], DieNumbers(times, n)[l])
      ensures k == l
    {
      OffsetOfPosition(k, times, n);
      OffsetOfPosition(l, times, n);
    }
  }

  /** The face of cell (roll `r`, die `d`) in a die-major flat list. */
  function Cell<F>(flat: seq<F>, times: nat, n: nat, r: nat, d: nat): F
    requires |flat| == times * n && r < times && d < n
  {
    OffsetBound(times, n, d, r);
    flat[Offset(times, d, r)]
  }

  /** `pivot(index="roll_number", columns="die_number")` of the long table
      that `play` builds from the die-major list `flat`: one row per roll,
      one column per die; without dice there are no rows. */
  function Pivot<F>(flat: seq<F>, times: nat, n: nat): (t: seq<seq<F>>)
    requires |flat| == times * n
    ensures |t| == if n == 0 then 0 else times
    ensures forall r :: 0 <= r < |t| ==> |t[r]| == n
  {
    if n == 0 then []
    else seq(times, r requires 0 <= r < times => seq(n, d requires 0 <= d < n => Cell(flat, times, n, r, d)))
  }

  /** Every cell of the pivoted table holds the face at the position `k`
      of the long table whose roll number and die number are the cell's
      (and by `LayoutKeysUnique` no other position has them). */
  lemma PivotCell<F>(flat: seq<F>, times: nat, n: nat, r: nat, d: nat) returns (k: nat)
    requires |flat| == times * n && r < times && d < n
    ensures k < times * n && RollNumbers(times, n)[k] == r + 1 && DieNumbers(times, n)[k] == d
    ensures Pivot(flat, times, n)[r][d] == flat[k]
  {
    LayoutBlocks(times, n);
    k := Offset(times, d, r);
  }

  /** One row of the narrow form: the (roll number, die number) index and
      the face rolled. */
  datatype StackRow<F> = StackRow(rollNumber: int, dieNumber: nat, face: F)

  datatype Shown<F> = Wide(table: seq<seq<F>>) | Narrow(rows: seq<StackRow<F>>)

  /** The narrow rows of one roll, one per die. */
  function RollRows<F>(table: seq<seq<F>>, n: nat, r: nat): seq<StackRow<F>>
    requires r < |table| && |table[r]| == n
  {
    seq(n, d requires 0 <= d < n => StackRow(r + 1, d, table[r][d]))
  }

  /** The narrow rows of every roll, in roll order. */
  function RollBlocksOf<F>(table: seq<seq<F>>, n: nat): (b: seq<seq<StackRow<F>>>)
    requires forall r :: 0 <= r < |table| ==> |table[r]| == n
    ensures |b| == |table|
    ensures forall r :: 0 <= r < |table| ==> |b[r]| == n
    ensures forall r, d :: 0 <= r < |table| && 0 <= d < n ==> b[r][d] == StackRow(r + 1, d, table[r][d])
  {
    seq(|table|, r requires 0 <= r < |table| => RollRows(table, n, r))
  }

  /** `stack(level="die_number")`: the rolls in roll order, each holding
      every die in die order. */
  function Stack<F>(table: seq<seq<F>>, n: nat): (s: seq<StackRow<F>>)
    requires forall r :: 0 <= r < |table| ==> |table[r]| == n
    ensures |s| == n * |table|
  {
    ConcatAt(RollBlocksOf(table, n), n);
    Concat(RollBlocksOf(table, n))
  }

  /** Die `d` of roll `r` sits at `Offset(n, r, d)` of the narrow form. */
  lemma StackBlocks<F>(table: seq<seq<F>>, n: nat)
    requires forall r :: 0 <= r < |table| ==> |table[r]| == n
    ensures |Stack(table, n)| == n * |table|
    ensures forall r, d :: 0 <= r < |table| && 0 <= d < n ==>
      Offset(n, r, d) < |Stack(table, n)| && Stack(table, n)[Offset(n, r, d)] == StackRow(r + 1, d, table[r][d])
  {
    ConcatAt(RollBlocksOf(table, n), n);
  }

  /** The narrow form holds every cell of the wide table once, `rolls ×
      dice` rows, roll-major: position `k` holds roll `k / dice + 1`, die
      `k % dice`. */
  lemma StackAt<F>(table: seq<seq<F>>, n: nat)
    requires n > 0
    requires forall r :: 0 <= r < |table| ==> |table[r]| == n
    ensures |Stack(table, n)| == n * |table|
    ensures forall k :: 0 <= k < |Stack(table, n)| ==>
      k / n < |table| && Stack(table, n)[k] == StackRow(k / n + 1, k % n, table[k / n][k % n])
  {
    StackBlocks(table, n);
    forall k | 0 <= k < n * |table|
      ensures k / n < |table| && Stack(table, n)[k] == StackRow(k / n + 1, k % n, table[k / n][k % n])
    {
      OffsetOfPosition(k, n, |table|);
    }
  }

  /** A game: the dice it rolls (shared, not copied) and the table of its
      latest play. */
  class Game<F(==)> {
    /** `die_list`. */
    const dice: seq<Die<F>>
    /** `_dice_play`; `None` until the first play. */
    var dicePlay: Option<seq<seq<F>>>

    ghost predicate Valid()
      reads dice
    {
      forall d :: 0 <= d < |dice| ==> dice[d].Valid()
    }

    constructor (dice: seq<Die<F>>)
      requires forall d :: 0 <= d < |dice| ==> dice[d].Valid()
      ensures Valid() && this.dice == dice && dicePlay == None
    {
      this.dice := dice;
      dicePlay := None;
    }

    /** The draws of a play, die by die: `times` positions per die, each one
        the sampler may return for that die. */
    ghost predicate DrawsFit(times: int, draws: seq<seq<nat>>)
      reads dice
    {
      && |draws| == |dice|
      && (forall d :: 0 <= d < |dice| ==> (times >= 0 ==> |draws[d]| == times))
      && (forall d :: 0 <= d < |dice| && dice[d].SampleError(times) == None ==> ValidDraws(dice[d].weights, draws[d]))
    }

    /** Every die can be rolled `times` times. */
    ghost predicate Succeeds(times: int)
      reads dice
    {
      forall d :: 0 <= d < |dice| ==> dice[d].SampleError(times) == None
    }

    /** The failure of the first die from `d` on that cannot be rolled
        `times` times, if there is one. */
    function FailureFrom(times: int, d: nat): (e: Option<Error>)
      reads dice
      requires d <= |dice|
      ensures e == None <==> forall c :: d <= c < |dice| ==> dice[c].SampleError(times) == None
      decreases |dice| - d
    {
      if d == |dice| then None
      else if dice[d].SampleError(times).Some? then dice[d].SampleError(times)
      else FailureFrom(times, d + 1)
    }

    /** The failure of the first die that cannot be rolled `times` times;
        there is none exactly when the play succeeds. */
    function Failure(times: int): (e: Option<Error>)
      reads dice
      ensures e == None <==> Succeeds(times)
    {
      FailureFrom(times, 0)
    }

    /** Whether a play succeeds, and how it fails, depends on the dice alone. */
    twostate lemma KeptDice(times: int)
      requires unchanged(dice)
      ensures Succeeds(times) == old(Succeeds(times))
      ensures Failure(times) == old(Failure(times))
    {
    }

    /** Dice that can be rolled are passed over in the search for the first
        failure. */
    lemma {:induction false} FailureSkips(times: int, k: nat, d: nat)
      requires k <= d <= |dice|
      requires forall c :: k <= c < d ==> dice[c].SampleError(times) == None
      ensures FailureFrom(times, k) == FailureFrom(times, d)
      decreases d - k
    {
      if k < d {
        FailureSkips(times, k + 1, d);
      }
    }

    /** A failure from `k` on is the failure of die `d`, the first from `k`
        on that cannot be rolled. */
    lemma {:induction false} FirstFailing(times: int, k: nat) returns (d: nat)
      requires k <= |dice| && FailureFrom(times, k).Some?
      ensures k <= d < |dice| && dice[d].SampleError(times) == FailureFrom(times, k)
      ensures forall c :: k <= c < d ==> dice[c].SampleError(times) == None
      decreases |dice| - k
    {
      if dice[k].SampleError(times).Some? {
        d := k;
      } else {
        d := FirstFailing(times, k + 1);
      }
    }

    /** The rolls of the first `k` dice, one list per die. */
    function RolledBy(times: int, draws: seq<seq<nat>>, k: nat): (rolls: seq<seq<F>>)
      reads dice
      requires Valid() && DrawsFit(times, draws) && k <= |dice|
      requires forall d :: 0 <= d < k ==> dice[d].SampleError(times) == None
      ensures |rolls| == k
      ensures forall d :: 0 <= d < k ==> |rolls[d]| == Rolls(times) && rolls[d] == Drawn(dice[d].faces, draws[d])
    {
      if k == 0 then [] else RolledBy(times, draws, k - 1) + [Drawn(dice[k - 1].faces, draws[k - 1])]
    }

    /** `t` is the table of a play of `times` rolls with these draws: a row
        per roll (none without dice), a column per die, and cell (r, d) the
        face at die d's r-th draw. Faces are constant, so this reads nothing. */
    predicate IsPlay(t: seq<seq<F>>, times: int, draws: seq<seq<nat>>)
    {
      && |t| == (if dice == [] then 0 else Rolls(times))
      && (forall r :: 0 <= r < |t| ==> |t[r]| == |dice|)
      && (forall r, d :: 0 <= r < |t| && 0 <= d < |dice| ==>
            d < |draws| && r < |draws[d]| && draws[d][r] < |dice[d].faces| &&
            t[r][d] == dice[d].faces[draws[d][r]])
    }

    /** The draws determine the table. */
    lemma IsPlayUnique(t: seq<seq<F>>, u: seq<seq<F>>, times: int, draws: seq<seq<nat>>)
      requires IsPlay(t, times, draws) && IsPlay(u, times, draws)
      ensures t == u
    {
      assert |t| == |u|;
      forall r | 0 <= r < |t| ensures t[r] == u[r] {
        forall d | 0 <= d < |dice| ensures t[r][d] == u[r][d] {
          assert t[r][d] == dice[d].faces[draws[d][r]] == u[r][d];
        }
      }
    }

    /** The table a successful `play(times)` stores, the die-major list of
        every die's rolls pivoted, is the table of the play. */
    function PlayTable(times: int, draws: seq<seq<nat>>): (t: seq<seq<F>>)
      reads dice
      requires Valid() && DrawsFit(times, draws) && Succeeds(times)
      ensures IsPlay(t, times, draws)
    {
      var rolls := RolledBy(times, draws, |dice|);
      ConcatAt(rolls, Rolls(times));
      Pivot(Concat(rolls), Rolls(times), |dice|)
    }

    /** The loop of `play(times)`: every die rolled `times` times in turn,
        the outcomes appended die after die. The first die that cannot be
        rolled stops the loop with its failure. */
    method RollAll(times: int, draws: seq<seq<nat>>) returns (r: Result<seq<F>, Error>)
      requires Valid() && DrawsFit(times, draws)
      ensures r.Err? <==> !Succeeds(times)
      ensures r.Err? ==> Failure(times) == Some(r.error)
      ensures r.Ok? ==> r.value == Concat(RolledBy(times, draws, |dice|))
    {
      var results: seq<F> := [];
      var d := 0;
      while d < |dice|
        invariant 0 <= d <= |dice|
        invariant forall c :: 0 <= c < d ==> dice[c].SampleError(times) == None
        invariant results == Concat(RolledBy(times, draws, d))
      {
        var rolled := dice[d].RollDie(times, draws[d]);
        if rolled.Err? {
          FailureSkips(times, 0, d);
          return Err(rolled.error);
        }
        ConcatSnoc(RolledBy(times, draws, d), rolled.value);
        results := results + rolled.value;
        d := d + 1;
      }
      return Ok(results);
    }

    /** `play(times)`: every die is rolled `times` times in turn and the
        outcomes, die-major, are pivoted into the stored table, which
        replaces the previous one. The first die that cannot be rolled stops
        the play with its failure and leaves the stored table as it was. */
    method Play(times: int, draws: seq<seq<nat>>) returns (r: Result<seq<seq<F>>, Error>)
      requires Valid() && DrawsFit(times, draws)
      modifies this
      ensures r.Err? <==> !Succeeds(times)
      ensures r.Err? ==> Failure(times) == Some(r.error) && dicePlay == old(dicePlay)
      ensures r.Ok? ==> IsPlay(r.value, times, draws) && dicePlay == Some(r.value)
    {
      var results := RollAll(times, draws);
      if results.Err? {
        return Err(results.error);
      }
      ConcatAt(RolledBy(times, draws, |dice|), Rolls(times));
      var table := Pivot(results.value, Rolls(times), |dice|);
      assert table == PlayTable(times, draws);
      dicePlay := Some(table);
      return Ok(table);
    }

    /** `show(times, display)`: plays again, then compares the display, with
        case ignored, against "narrow" and "wide". The new table is stored
        even when the display is refused. */
    method Show(times: int, display: string, draws: seq<seq<nat>>) returns (r: Result<Shown<F>, Error>)
      requires Valid() && DrawsFit(times, draws)
      modifies this
      ensures !Succeeds(times) ==> r.Err? && Failure(times) == Some(r.error) && dicePlay == old(dicePlay)
      ensures Succeeds(times) ==> dicePlay.Some? && IsPlay(dicePlay.value, times, draws)
      ensures Succeeds(times) && Lower(display) == "narrow" ==>
        r == Ok(Narrow(Stack(dicePlay.value, |dice|)))
      ensures Succeeds(times) && Lower(display) == "wide" ==> r == Ok(Wide(dicePlay.value))
      ensures Succeeds(times) && Lower(display) != "narrow" && Lower(display) != "wide" ==> r == Err(InvalidDisplay)
    {
      var played := Play(times, draws);
      if played.Err? {
        return Err(played.error);
      }
      var table := played.value;
      var form := Lower(display);
      if form == "narrow" {
        return Ok(Narrow(Stack(table, |dice|)));
      } else if form == "wide" {
        return Ok(Wide(table));
      } else {
        return Err(InvalidDisplay);
      }
    }

    /** Five dice played five times: the wide form is 5 × 5 and the narrow
        form has 25 rows. */
    lemma ShowShapes(t: seq<seq<F>>, draws: seq<seq<nat>>)
      requires |dice| == 5 && IsPlay(t, 5, draws)
      ensures |t| == 5 && forall r :: 0 <= r < 5 ==> |t[r]| == 5
      ensures |Stack(t, 5)| == 25
    {
      StackAt(t, 5);
    }
  }

  /** `len(set(row)) == 1` as 0 or 1. */
  function JackpotOf<F(==)>(row: seq<F>): (j: nat)
    requires row != []
    ensures j == 1 <==> AllSame(row)
    ensures j == 0 <==> !AllSame(row)
  {
    DistinctCountIsSetSize(row);
    SingleDistinctIffConstant(row);
    if |set x | x in row| == 1 then 1 else 0
  }

  /** The jackpot indicators of one game's table, one per roll. */
  function Jackpots<F(==)>(table: seq<seq<F>>): (j: seq<nat>)
    requires forall r :: 0 <= r < |table| ==> table[r] != []
    ensures |j| == |table|
    ensures forall r :: 0 <= r < |table| ==> (j[r] == 1 <==> AllSame(table[r])) && (j[r] == 0 <==> !AllSame(table[r]))
  {
    seq(|table|, r requires 0 <= r < |table| => JackpotOf(table[r]))
  }

  /** The jackpot indicators of several games' tables, game after game
      (the `extend` of every game's indicators); each one is 0 or 1. */
  function AllJackpots<F(==)>(tables: seq<seq<seq<F>>>): (j: seq<nat>)
    requires forall g, r :: 0 <= g < |tables| && 0 <= r < |tables[g]| ==> tables[g][r] != []
    ensures forall i :: 0 <= i < |j| ==> j[i] == 0 || j[i] == 1
  {
    var blocks := seq(|tables|, g requires 0 <= g < |tables| => Jackpots(tables[g]));
    forall i | 0 <= i < |Concat(blocks)| ensures Concat(blocks)[i] == 0 || Concat(blocks)[i] == 1 {
      var g, r := ConcatFrom(blocks, i);
    }
    Concat(blocks)
  }

  /** With `times` rolls per game there are `times` indicators per game, and
      indicator `r` of game `g` is 1 exactly when every die of that roll
      shows the same face. */
  lemma JackpotsAt<F>(tables: seq<seq<seq<F>>>, times: nat)
    requires forall g :: 0 <= g < |tables| ==> |tables[g]| == times
    requires forall g, r :: 0 <= g < |tables| && 0 <= r < |tables[g]| ==> tables[g][r] != []
    ensures |AllJackpots(tables)| == times * |tables|
    ensures forall g, r :: 0 <= g < |tables| && 0 <= r < times ==>
      Offset(times, g, r) < |AllJackpots(tables)| &&
      (AllJackpots(tables)[Offset(times, g, r)] == 1 <==> AllSame(tables[g][r]))
  {
    var blocks := seq(|tables|, g requires 0 <= g < |tables| => Jackpots(tables[g]));
    ConcatAt(blocks, times);
  }

  /** An analyzer over a list of games. */
  class Analyzer<F(==)> {
    /** `games`. */
    const games: seq<Game<F>>
    /** `combo_df`, unset until `compute_combo` succeeds: per game, in game
        order (the outer level of its index), the distinct rolls of that
        game with their counts. */
    var comboTable: Option<seq<seq<(seq<F>, nat)>>>

    constructor (games: seq<Game<F>>)
      ensures this.games == games && comboTable == None
    {
      this.games := games;
      comboTable := None;
    }

    /** Game `g` does not occur again among the first `n` games: its play
        is the last one that game makes among them. */
    predicate LastIn(g: nat, n: nat)
    {
      forall k :: g < k < n && k < |games| ==> games[k] != games[g]
    }

    /** Game `h` does not occur among the first `n` games. */
    predicate NotIn(h: nat, n: nat)
      requires h < |games|
    {
      forall k :: 0 <= k < n && k < |games| ==> games[k] != games[h]
    }

    /** Plays game `g` of the round; the games among the first `g` keep the
        tables they stored, and so does every game not yet played, except
        game `g` itself when its play succeeds. */
    method PlayOne(g: nat, times: int, draws: seq<seq<nat>>, ghost tables: seq<seq<seq<F>>>, ghost stored: seq<Option<seq<seq<F>>>>)
      returns (r: Result<seq<seq<F>>, Error>)
      requires g < |games| && |tables| == g && |stored| == |games|
      requires games[g].Valid() && games[g].DrawsFit(times, draws)
      requires forall h {:trigger LastIn(h, g)} :: 0 <= h < g && LastIn(h, g) ==> games[h].dicePlay == Some(tables[h])
      requires forall h {:trigger NotIn(h, g)} :: 0 <= h < |games| && NotIn(h, g) ==> games[h].dicePlay == stored[h]
      modifies games[g]
      ensures r.Err? <==> !games[g].Succeeds(times)
      ensures r.Err? ==> games[g].Failure(times) == Some(r.error)
      ensures r.Err? ==> forall h {:trigger LastIn(h, g)} :: 0 <= h < g && LastIn(h, g) ==> games[h].dicePlay == Some(tables[h])
      ensures r.Err? ==> forall h {:trigger NotIn(h, g)} :: 0 <= h < |games| && NotIn(h, g) ==> games[h].dicePlay == stored[h]
      ensures r.Ok? ==> games[g].IsPlay(r.value, times, draws)
      ensures r.Ok? ==> forall h {:trigger LastIn(h, g + 1)} :: 0 <= h < g + 1 && LastIn(h, g + 1) ==>
        games[h].dicePlay == Some((tables + [r.value])[h])
      ensures r.Ok? ==> forall h {:trigger NotIn(h, g + 1)} :: 0 <= h < |games| && NotIn(h, g + 1) ==> games[h].dicePlay == stored[h]
    {
      r := games[g].Play(times, draws);
      if r.Ok? {
        forall h | 0 <= h < g && LastIn(h, g + 1)
          ensures games[h].dicePlay == Some(tables[h])
        {
          assert games[g] != games[h] && LastIn(h, g);
        }
        forall h | 0 <= h < |games| && NotIn(h, g + 1)
          ensures games[h].dicePlay == stored[h]
        {
          assert games[g] != games[h] && NotIn(h, g);
        }
      }
    }

    /** Every game played `times` times in game order, as `compute_combo`
        and `compute_jackpot` both do; the first game that cannot be
        played, `failed`, stops the round with its failure. Each play
        stores its table in its game, so a game listed more than once keeps
        the table of its last play; a game not reached keeps its table. */
    method PlayAll(times: int, draws: seq<seq<seq<nat>>>) returns (r: Result<seq<seq<seq<F>>>, Error>, ghost failed: nat)
      requires |draws| == |games|
      requires forall g :: 0 <= g < |games| ==> games[g].Valid() && games[g].DrawsFit(times, draws[g])
      modifies games
      ensures r.Ok? <==> forall g :: 0 <= g < |games| ==> old(games[g].Succeeds(times))
      ensures r.Err? ==> failed < |games| && old(games[failed].Failure(times)) == Some(r.error)
      ensures r.Err? ==> forall h :: 0 <= h < failed ==> old(games[h].Succeeds(times))
      ensures r.Err? ==> forall h {:trigger LastIn(h, failed)} :: 0 <= h < failed && LastIn(h, failed) ==>
        games[h].dicePlay.Some? && games[h].IsPlay(games[h].dicePlay.value, times, draws[h])
      ensures r.Err? ==> forall h {:trigger NotIn(h, failed)} :: 0 <= h < |games| && NotIn(h, failed) ==> games[h].dicePlay == old(games[h].dicePlay)
      ensures r.Ok? ==> |r.value| == |games| && forall g :: 0 <= g < |games| ==> games[g].IsPlay(r.value[g], times, draws[g])
      ensures r.Ok? ==> forall g {:trigger LastIn(g, |games|)} :: 0 <= g < |games| && LastIn(g, |games|) ==> games[g].dicePlay == Some(r.value[g])
    {
      ghost var stored := seq(|games|, h reads games requires 0 <= h < |games| => games[h].dicePlay);
      var tables: seq<seq<seq<F>>> := [];
      failed := 0;
      var g := 0;
      while g < |games|
        invariant 0 <= g <= |games|
        invariant forall h :: 0 <= h < g ==> old(games[h].Succeeds(times))
        invariant |tables| == g
        invariant forall h :: 0 <= h < g ==> games[h].IsPlay(tables[h], times, draws[h])
        invariant forall h {:trigger LastIn(h, g)} :: 0 <= h < g && LastIn(h, g) ==> games[h].dicePlay == Some(tables[h])
        invariant forall h {:trigger NotIn(h, g)} :: 0 <= h < |games| && NotIn(h, g) ==> games[h].dicePlay == stored[h]
      {
        var played := PlayOne(g, times, draws[g], tables, stored);
        games[g].KeptDice(times);
        if played.Err? {
          return Err(played.error), g;
        }
        tables := tables + [played.value];
        g := g + 1;
      }
      return Ok(tables), failed;
    }

    /** `compute_combo(times)`: replays every game in order and counts each
        distinct roll (as an ordered row) of each game; a game with dice has
        counts adding up to `times`. A game that cannot be played stops the
        computation with its failure, and without games `pd.concat` has
        nothing to join; either way `combo_df` keeps its old value. */
    method ComputeCombo(times: int, draws: seq<seq<seq<nat>>>)
      returns (r: Result<seq<seq<(seq<F>, nat)>>, Error>, ghost tables: seq<seq<seq<F>>>, ghost failed: nat)
      requires |draws| == |games|
      requires forall g :: 0 <= g < |games| ==> games[g].Valid() && games[g].DrawsFit(times, draws[g])
      modifies this, games
      ensures games == [] ==> r == Err(NoGames)
      ensures r.Ok? <==> games != [] && forall g :: 0 <= g < |games| ==> old(games[g].Succeeds(times))
      ensures r.Err? ==> comboTable == old(comboTable)
      ensures r.Err? && games != [] ==> failed < |games| && old(games[failed].Failure(times)) == Some(r.error)
      ensures r.Err? && games != [] ==> forall h :: 0 <= h < failed ==> old(games[h].Succeeds(times))
      ensures r.Err? && games != [] ==> forall h {:trigger LastIn(h, failed)} :: 0 <= h < failed && LastIn(h, failed) ==>
        games[h].dicePlay.Some? && games[h].IsPlay(games[h].dicePlay.value, times, draws[h])
      ensures r.Err? && games != [] ==> forall h {:trigger NotIn(h, failed)} :: 0 <= h < |games| && NotIn(h, failed) ==>
        games[h].dicePlay == old(games[h].dicePlay)
      ensures r.Ok? ==> comboTable == Some(r.value) && |r.value| == |games| && |tables| == |games|
      ensures r.Ok? ==> forall g :: 0 <= g < |games| ==> games[g].IsPlay(tables[g], times, draws[g])
      ensures r.Ok? ==> forall g {:trigger LastIn(g, |games|)} :: 0 <= g < |games| && LastIn(g, |games|) ==> games[g].dicePlay == Some(tables[g])
      ensures r.Ok? ==> forall g :: 0 <= g < |games| ==> r.value[g] == Tally(tables[g])
      ensures r.Ok? ==> forall g :: 0 <= g < |games| ==>
        TotalCount(r.value[g]) == if games[g].dice == [] then 0 else Rolls(times)
    {
      var played;
      played, failed := PlayAll(times, draws);
      if played.Err? {
        return Err(played.error), [], failed;
      }
      if games == [] {
        return Err(NoGames), [], failed;
      }
      var rounds := played.value;
      tables := rounds;
      var comboData := seq(|rounds|, g requires 0 <= g < |rounds| => Tally(rounds[g]));
      comboTable := Some(comboData);
      return Ok(comboData), tables, failed;
    }

    /** `compute_jackpot(times)`: replays every game in order and lists, game
        after game, one indicator per roll that is 1 exactly when all dice
        of the roll show the same face. A game that cannot be played stops
        the computation with its failure. */
    method ComputeJackpot(times: int, draws: seq<seq<seq<nat>>>)
      returns (r: Result<seq<nat>, Error>, ghost tables: seq<seq<seq<F>>>, ghost failed: nat)
      requires |draws| == |games|
      requires forall g :: 0 <= g < |games| ==> games[g].Valid() && games[g].DrawsFit(times, draws[g])
      modifies games
      ensures r.Ok? <==> forall g :: 0 <= g < |games| ==> old(games[g].Succeeds(times))
      ensures r.Err? ==> failed < |games| && old(games[failed].Failure(times)) == Some(r.error)
      ensures r.Err? ==> forall h :: 0 <= h < failed ==> old(games[h].Succeeds(times))
      ensures r.Err? ==> forall h {:trigger LastIn(h, failed)} :: 0 <= h < failed && LastIn(h, failed) ==>
        games[h].dicePlay.Some? && games[h].IsPlay(games[h].dicePlay.value, times, draws[h])
      ensures r.Err? ==> forall h {:trigger NotIn(h, failed)} :: 0 <= h < |games| && NotIn(h, failed) ==> games[h].dicePlay == old(games[h].dicePlay)
      ensures r.Ok? ==> |tables| == |games|
      ensures r.Ok? ==> forall g :: 0 <= g < |games| ==> games[g].IsPlay(tables[g], times, draws[g])
      ensures r.Ok? ==> forall g {:trigger LastIn(g, |games|)} :: 0 <= g < |games| && LastIn(g, |games|) ==> games[g].dicePlay == Some(tables[g])
      ensures r.Ok? ==> forall g, k :: 0 <= g < |games| && 0 <= k < |tables[g]| ==> tables[g][k] != []
      ensures r.Ok? ==> r.value == AllJackpots(tables)
    {
      var played;
      played, failed := PlayAll(times, draws);
      if played.Err? {
        return Err(played.error), [], failed;
      }
      var rounds := played.value;
      tables := rounds;
      return Ok(AllJackpots(rounds)), tables, failed;
    }
  }
}
