/** The notebook variant of the toolkit (montecarlo.py, a saved notebook
    whose code cells define `Die`, `Game` and `Analyzer`).

    A die keeps a table indexed by face with one weight per face; a game
    rolls every die once per roll and keeps one record per roll; an analyzer
    derives per-die face counts, a jackpot indicator and a combination table
    from the records of one game. */
module Notebook {
  import opened Common
  import opened Counting
  import opened Sorting
  import opened Weights
  import opened Layout

  /** The ways a call of the notebook variant fails. */
  datatype Error =
    | InvalidFace       // `_validate_face`: the face is not in the index
    | InvalidWeight     // `_validate_weight`: `float(weight)` raised `ValueError`
    | WeightWrongType   // `float(weight)` raised `TypeError`, which is not caught
    | TooFewRolls       // `roll` was asked for fewer than one roll
    | NoFaces           // `random.choices` over a die without faces
    | NonPositiveTotal  // `random.choices` with weights summing to zero or less
    | InvalidForm       // `show_results` with a form other than "wide" and "narrow"
    | NoResults         // `results` is still `None`: the game was never played
    | NoRollColumn      // a game played for no rolls has a table without "Roll Number"
    | NoDieColumns      // `iloc[0, 0]` on a table without die columns
  {
    /** The Python exception the failure surfaces as. */
    function Raised(): PyException
    {
      match this
      case InvalidFace => ValueError
      case InvalidWeight => ValueError
      case WeightWrongType => TypeError
      case TooFewRolls => ValueError
      case NonPositiveTotal => ValueError
      case InvalidForm => ValueError
      case NoFaces => IndexError
      case NoDieColumns => IndexError
      case NoResults => AttributeError
      case NoRollColumn => KeyError
    }
  }

  /** A die: its face index, and one weight per face. */
  class Die<F(==)> {
    /** The index of `_data`, in the order the faces were given. */
    const faces: seq<F>
    /** The "weight" column of `_data`, row for row with `faces`. */
    var weights: seq<real>

    ghost predicate Valid()
      reads this
    {
      |weights| == |faces|
    }

    /** Every face starts with weight 1.0. */
    constructor (faces: seq<F>)
      ensures Valid() && this.faces == faces
      ensures forall i :: 0 <= i < |faces| ==> weights[i] == 1.0
    {
      this.faces := faces;
      weights := seq(|faces|, _ => 1.0);
    }

    /** `_validate_face`: fails exactly for a face that is not in the index. */
    function ValidateFace(face: F): (r: Outcome<Error>)
      reads this
      ensures r.Pass? <==> face in faces
      ensures r.Fail? ==> r.error == InvalidFace && r.error.Raised() == ValueError
    {
      if face in faces then Pass else Fail(InvalidFace)
    }

    /** `_validate_weight`: the weight as a number; a string that is not a
        number is reported as `ValueError`, and the `TypeError` of any other
        value escapes as it is. */
    static function ValidateWeight(weight: WeightInput): (r: Result<real, Error>)
      ensures r.Ok? <==> weight.Numeric?
      ensures r.Ok? ==> r.value == weight.value
      ensures weight.Unparsable? ==> r == Err(InvalidWeight)
      ensures weight.WrongType? ==> r == Err(WeightWrongType)
      ensures r.Err? ==> r.error.Raised() == if weight.WrongType? then TypeError else ValueError
    {
      match weight
      case Numeric(v) => Ok(v)
      case Unparsable => Err(InvalidWeight)
      case WrongType => Err(WeightWrongType)
    }

    /** `change_weight`: both validations run before the table is written, so a
        failing call leaves every weight as it was; a successful one sets the
        weight of `face` and no other. */
    method ChangeWeight(face: F, newWeight: WeightInput) returns (r: Outcome<Error>)
      requires Valid()
      modifies this
      ensures Valid()
      ensures face !in faces ==> r == Fail(InvalidFace)
      ensures face in faces && newWeight.Unparsable? ==> r == Fail(InvalidWeight)
      ensures face in faces && newWeight.WrongType? ==> r == Fail(WeightWrongType)
      ensures face in faces && newWeight.Numeric? ==> r == Pass
      ensures r.Fail? ==> r.error.Raised() == if face in faces && newWeight.WrongType? then TypeError else ValueError
      ensures r.Fail? ==> weights == old(weights)
      ensures r.Pass? ==> weights == Reweighted(faces, old(weights), face, newWeight.value)
    {
      var checked := ValidateFace(face);
      if checked.Fail? {
        return checked;
      }
      var w := ValidateWeight(newWeight);
      if w.Err? {
        return Fail(w.error);
      }
      weights := Reweighted(faces, weights, face, w.value);
      r := Pass;
    }

    /** Why `random.choices` cannot draw from this die, if it cannot: it
        raises `IndexError` on an empty population and `ValueError` when the
        weights sum to zero or less. */
    function SamplerError(): (e: Option<Error>)
      reads this
      ensures e == None <==> |faces| > 0 && Total(weights) > 0.0
    {
      if |faces| == 0 then Some(NoFaces)
      else if Total(weights) <= 0.0 then Some(NonPositiveTotal)
      else None
    }

    /** One call of `random.choices(index, weights, k=1)[0]` whose outcome is
        the position `draw`. */
    function Choose(draw: nat): (r: Result<F, Error>)
      reads this
      requires Valid()
      requires SamplerError() == None ==> ValidDraw(weights, draw)
      ensures r.Err? <==> SamplerError().Some?
      ensures r.Err? ==> r.error == SamplerError().value
      ensures r.Ok? ==> r.value == faces[draw] && weights[draw] > 0.0
    {
      match SamplerError()
      case Some(e) => Err(e)
      case None => Ok(faces[draw])
    }

    /** `roll(rolls)`: fewer than one roll is refused; otherwise one face per
        roll, the face at the position the sampler drew for that roll. */
    method Roll(rolls: int, draws: seq<nat>) returns (r: Result<seq<F>, Error>)
      requires Valid()
      requires rolls >= 1 ==> |draws| == rolls
      requires SamplerError() == None ==> ValidDraws(weights, draws)
      ensures rolls < 1 ==> r == Err(TooFewRolls)
      ensures rolls >= 1 && SamplerError().Some? ==> r == Err(SamplerError().value)
      ensures rolls >= 1 && SamplerError() == None ==> r == Ok(Drawn(faces, draws))
    {
      if rolls < 1 {
        return Err(TooFewRolls);
      }
      var results: seq<F> := [];
      var i := 0;
      while i < rolls
        invariant 0 <= i <= rolls
        invariant i > 0 ==> SamplerError() == None
        invariant |results| == i
        invariant forall k :: 0 <= k < i ==> draws[k] < |faces| && results[k] == faces[draws[k]]
      {
        var result := Choose(draws[i]);
        if result.Err? {
          return Err(result.error);
        }
        results := results + [result.value];
        i := i + 1;
      }
      assert results == Drawn(faces, draws);
      return Ok(results);
    }

    /** `show_faces_and_weights`: the (face, weight) table in index order. */
    function ShowFacesAndWeights(): (t: seq<(F, real)>)
      reads this
      requires Valid()
      ensures |t| == |faces|
      ensures forall i :: 0 <= i < |t| ==> t[i] == (faces[i], weights[i])
    {
      var ws := weights;
      seq(|faces|, i requires 0 <= i < |faces| => (faces[i], ws[i]))
    }
  }

  /** One row of `Game.results`: "Roll Number" and the faces under the
      columns "Die 1", "Die 2", ... (entry `d` is the column "Die d+1"). */
  datatype RollRecord<F> = RollRecord(rollNumber: int, faces: seq<F>)

  /** The shape `play` gives its table: roll numbers 1, 2, ... in order, and
      one entry per die in every row. */
  predicate WellFormed<F>(t: seq<RollRecord<F>>, width: nat)
  {
    forall r :: 0 <= r < |t| ==> t[r].rollNumber == r + 1 && |t[r].faces| == width
  }

  /** One row of the narrow form: "Roll Number", "Die Number" (the label
      "Die k", kept as k) and "Face Rolled". */
  datatype NarrowRow<F> = NarrowRow(rollNumber: int, dieNumber: nat, face: F)

  datatype Shown<F> = Wide(records: seq<RollRecord<F>>) | Narrow(rows: seq<NarrowRow<F>>)

  /** A game: the dice it rolls (shared, not copied) and the records of its
      latest play. */
  class Game<F(==)> {
    const dice: seq<Die<F>>
    var results: Option<seq<RollRecord<F>>>

    ghost predicate Valid()
      reads this, dice
    {
      && (forall d :: 0 <= d < |dice| ==> dice[d].Valid())
      && (results.Some? ==> WellFormed(results.value, |dice|))
      && (results.Some? ==> forall r, d :: 0 <= r < |results.value| && 0 <= d < |dice| ==>
            results.value[r].faces[d] in dice[d].faces)
    }

    constructor (dice: seq<Die<F>>)
      requires forall d :: 0 <= d < |dice| ==> dice[d].Valid()
      ensures Valid() && this.dice == dice && results == None
    {
      this.dice := dice;
      results := None;
    }

    /** The draws of a play: one row per roll, one position per die, and each
        a position the sampler may return for that die. */
    ghost predicate DrawsFit(rolls: int, draws: seq<seq<nat>>)
      reads dice
    {
      && |draws| == (if rolls < 1 then 0 else rolls)
      && (forall k :: 0 <= k < |draws| ==> |draws[k]| == |dice|)
      && (forall k, d :: 0 <= k < |draws| && 0 <= d < |dice| && dice[d].SamplerError() == None ==>
            d < |draws[k]| && ValidDraw(dice[d].weights, draws[k][d]))
    }

    /** The records of a play whose draws are `draws`. */
    function Table(draws: seq<seq<nat>>): (t: seq<RollRecord<F>>)
      requires forall k, d :: 0 <= k < |draws| && 0 <= d < |dice| ==>
        |draws[k]| == |dice| && draws[k][d] < |dice[d].faces|
      ensures |t| == |draws|
      ensures WellFormed(t, |dice|)
      ensures forall k, d :: 0 <= k < |t| && 0 <= d < |dice| ==> t[k].faces[d] == dice[d].faces[draws[k][d]]
    {
      seq(|draws|, k requires 0 <= k < |draws| =>
        RollRecord(k + 1, seq(|dice|, d requires 0 <= d < |dice| => dice[d].faces[draws[k][d]])))
    }

    /** `e` is the failure of the first die the sampler cannot draw from. */
    ghost predicate FirstFailure(e: Error)
      reads dice
    {
      exists d :: 0 <= d < |dice| && dice[d].SamplerError() == Some(e)
        && forall c :: 0 <= c < d ==> dice[c].SamplerError() == None
    }

    /** One roll: every die rolled once, in die order, die `d` yielding the
        face at position `draw[d]`; the first die that cannot be rolled
        stops the roll with its failure. */
    method RollEach(draw: seq<nat>) returns (r: Result<seq<F>, Error>)
      requires forall d :: 0 <= d < |dice| ==> dice[d].Valid()
      requires |draw| == |dice|
      requires forall d :: 0 <= d < |dice| && dice[d].SamplerError() == None ==> ValidDraw(dice[d].weights, draw[d])
      ensures r.Err? <==> exists d :: 0 <= d < |dice| && dice[d].SamplerError().Some?
      ensures r.Err? ==> FirstFailure(r.error)
      ensures r.Ok? ==> |r.value| == |dice| && forall d :: 0 <= d < |dice| ==>
        draw[d] < |dice[d].faces| && r.value[d] == dice[d].faces[draw[d]]
    {
      var rollData: seq<F> := [];
      var d := 0;
      while d < |dice|
        invariant 0 <= d <= |dice|
        invariant forall c :: 0 <= c < d ==> dice[c].SamplerError() == None
        invariant |rollData| == d
        invariant forall c :: 0 <= c < d ==> draw[c] < |dice[c].faces| && rollData[c] == dice[c].faces[draw[c]]
      {
        var rolled := dice[d].Roll(1, [draw[d]]);
        if rolled.Err? {
          return Err(rolled.error);
        }
        rollData := rollData + [rolled.value[0]];
        d := d + 1;
      }
      return Ok(rollData);
    }

    /** The rolls of a play, in roll order: every roll rolls every die once,
        in die order, and the first die the sampler cannot draw from stops
        the play with its failure. Fewer than one roll gives no records. */
    method RollAll(rolls: int, draws: seq<seq<nat>>) returns (r: Result<seq<RollRecord<F>>, Error>)
      requires forall d :: 0 <= d < |dice| ==> dice[d].Valid()
      requires DrawsFit(rolls, draws)
      ensures r.Err? <==> rolls >= 1 && exists d :: 0 <= d < |dice| && dice[d].SamplerError().Some?
      ensures r.Err? ==> FirstFailure(r.error)
      ensures r.Ok? ==> forall k, d :: 0 <= k < |draws| && 0 <= d < |dice| ==> draws[k][d] < |dice[d].faces|
      ensures r.Ok? ==> r.value == Table(draws)
    {
      var table: seq<RollRecord<F>> := [];
      var rollNum := 1;
      while rollNum <= rolls
        invariant 1 <= rollNum && rollNum - 1 <= |draws|
        invariant rolls >= 1 ==> rollNum <= rolls + 1
        invariant rollNum > 1 ==> forall d :: 0 <= d < |dice| ==> dice[d].SamplerError() == None
        invariant |table| == rollNum - 1
        invariant forall k :: 0 <= k < rollNum - 1 ==> table[k].rollNumber == k + 1 && |table[k].faces| == |dice|
        invariant forall k, d :: 0 <= k < rollNum - 1 && 0 <= d < |dice| ==>
          draws[k][d] < |dice[d].faces| && table[k].faces[d] == dice[d].faces[draws[k][d]]
      {
        var rolled := RollEach(draws[rollNum - 1]);
        if rolled.Err? {
          return Err(rolled.error);
        }
        table := table + [RollRecord(rollNum, rolled.value)];
        rollNum := rollNum + 1;
      }
      forall k | 0 <= k < |draws| ensures table[k] == Table(draws)[k] {
        assert table[k].faces == Table(draws)[k].faces;
      }
      return Ok(table);
    }

    /** `play(rolls)`: the records of the rolls replace the previous ones; a
        failed roll leaves `results` as it was. */
    method Play(rolls: int, draws: seq<seq<nat>>) returns (r: Outcome<Error>)
      requires Valid()
      requires DrawsFit(rolls, draws)
      modifies this
      ensures Valid()
      ensures r.Fail? <==> rolls >= 1 && exists d :: 0 <= d < |dice| && dice[d].SamplerError().Some?
      ensures r.Fail? ==> FirstFailure(r.error)
      ensures r.Fail? ==> results == old(results)
      ensures r.Pass? ==> results == Some(Table(draws))
    {
      var rolled := RollAll(rolls, draws);
      if rolled.Err? {
        return Fail(rolled.error);
      }
      results := Some(rolled.value);
      r := Pass;
    }

    /** `show_results(form)`: the form is checked first; "wide" gives the
        records, "narrow" their melted form. A game never played, or played
        for no rolls, has no table to show. */
    function ShowResults(form: string): (r: Result<Shown<F>, Error>)
      reads this, dice
      requires Valid()
      ensures form != "wide" && form != "narrow" ==> r == Err(InvalidForm)
      ensures (form == "wide" || form == "narrow") && results.None? ==> r == Err(NoResults)
      ensures (form == "wide" || form == "narrow") && results == Some([]) ==> r == Err(NoRollColumn)
      ensures (form == "wide" || form == "narrow") && results.Some? && results.value != [] ==> r.Ok?
      ensures r.Ok? && form == "wide" ==> r == Ok(Wide(results.value))
      ensures r.Ok? && form == "narrow" ==> r == Ok(Narrow(Melt(results.value, |dice|)))
    {
      if form == "wide" then
        match results
        case None => Err(NoResults)
        case Some(t) => if t == [] then Err(NoRollColumn) else Ok(Wide(t))
      else if form == "narrow" then
        match results
        case None => Err(NoResults)
        case Some(t) => if t == [] then Err(NoRollColumn) else Ok(Narrow(Melt(t, |dice|)))
      else
        Err(InvalidForm)
    }
  }

  /** The narrow rows of die column `d`, one per roll. */
  function DieColumn<F>(t: seq<RollRecord<F>>, d: nat): (rows: seq<NarrowRow<F>>)
    requires forall r :: 0 <= r < |t| ==> d < |t[r].faces|
  {
    seq(|t|, r requires 0 <= r < |t| => NarrowRow(t[r].rollNumber, d + 1, t[r].faces[d]))
  }

  /** The die columns of the records, in column order. */
  function DieColumns<F>(t: seq<RollRecord<F>>, width: nat): (cols: seq<seq<NarrowRow<F>>>)
    requires forall r :: 0 <= r < |t| ==> |t[r].faces| == width
    ensures |cols| == width
    ensures forall d :: 0 <= d < width ==> |cols[d]| == |t|
    ensures forall d, r :: 0 <= d < width && 0 <= r < |t| ==>
      cols[d][r] == NarrowRow(t[r].rollNumber, d + 1, t[r].faces[d])
  {
    seq(width, d requires 0 <= d < width => DieColumn(t, d))
  }

  /** `melt(id_vars=["Roll Number"])`: the die columns in column order, each
      holding every roll in roll order. */
  function Melt<F>(t: seq<RollRecord<F>>, width: nat): (m: seq<NarrowRow<F>>)
    requires forall r :: 0 <= r < |t| ==> |t[r].faces| == width
    ensures |m| == |t| * width
  {
    ConcatAt(DieColumns(t, width), |t|);
    Concat(DieColumns(t, width))
  }

  /** Roll `r` of die column `d` sits at `Offset(|t|, d, r)` of the narrow
      form. */
  lemma MeltBlocks<F>(t: seq<RollRecord<F>>, width: nat)
    requires forall r :: 0 <= r < |t| ==> |t[r].faces| == width
    ensures |Melt(t, width)| == |t| * width
    ensures forall d, r :: 0 <= d < width && 0 <= r < |t| ==>
      Offset(|t|, d, r) < |Melt(t, width)| &&
      Melt(t, width)[Offset(|t|, d, r)] == NarrowRow(t[r].rollNumber, d + 1, t[r].faces[d])
  {
    ConcatAt(DieColumns(t, width), |t|);
  }

  /** The narrow form holds the same (roll, die, face) triples as the wide
      form, `rolls × dice` of them, die-major: position `k` holds die
      `k / rolls + 1` at roll position `k % rolls`. */
  lemma MeltAt<F>(t: seq<RollRecord<F>>, width: nat)
    requires t != []
    requires forall r :: 0 <= r < |t| ==> |t[r].faces| == width
    ensures |Melt(t, width)| == |t| * width
    ensures forall k :: 0 <= k < |Melt(t, width)| ==>
      k / |t| < width &&
      Melt(t, width)[k] == NarrowRow(t[k % |t|].rollNumber, k / |t| + 1, t[k % |t|].faces[k / |t|])
  {
    var n := |t|;
    MeltBlocks(t, width);
    forall k | 0 <= k < n * width
      ensures k / n < width
      ensures Melt(t, width)[k] == NarrowRow(t[k % n].rollNumber, k / n + 1, t[k % n].faces[k / n])
    {
      OffsetOfPosition(k, n, width);
    }
  }

  /** Every row of the records, narrowed to its faces: `roll_data`, the table
      without its "Roll Number" column. */
  function RollData<F>(t: seq<RollRecord<F>>): (data: seq<seq<F>>)
    ensures |data| == |t|
    ensures forall r :: 0 <= r < |t| ==> data[r] == t[r].faces
  {
    seq(|t|, r requires 0 <= r < |t| => t[r].faces)
  }

  // The notebook's analyzer calls `.apply` without `axis=1` for the jackpot
  // and the combination table, which applies the lambda to each die column
  // rather than to each roll; its docstrings, and the package variant's
  // `axis=1`, describe a per-roll computation, and that is what is modelled.

  /** The face-count table for keys `keys`: per key, its count in each column. */
  function FaceCountsFor<F(==)>(data: seq<seq<F>>, width: nat, keys: seq<F>): (t: seq<(F, seq<nat>)>)
    requires Rectangular(data, width)
    ensures |t| == |keys|
    ensures forall i :: 0 <= i < |t| ==> t[i].0 == keys[i] && |t[i].1| == width
    ensures forall i, c :: 0 <= i < |t| && 0 <= c < width ==> t[i].1[c] == Count(Column(data, c), keys[i])
  {
    if keys == [] then []
    else
      [(keys[0], seq(width, c requires 0 <= c < width => Count(Column(data, c), keys[0])))]
      + FaceCountsFor(data, width, keys[1..])
  }

  /** The sum of one column of a face-count table. */
  function ColumnTotal<F>(t: seq<(F, seq<nat>)>, c: nat): nat
    requires forall i :: 0 <= i < |t| ==> c < |t[i].1|
  {
    if t == [] then 0 else t[0].1[c] + ColumnTotal(t[1..], c)
  }

  lemma {:induction false} ColumnTotalIsTotalCount<F>(data: seq<seq<F>>, width: nat, keys: seq<F>, c: nat)
    requires Rectangular(data, width) && c < width
    ensures ColumnTotal(FaceCountsFor(data, width, keys), c) == TotalCount(CountsFor(Column(data, c), keys))
  {
    if keys != [] {
      ColumnTotalIsTotalCount(data, width, keys[1..], c);
    }
  }

  /** `compute_face_counts_per_roll`: a row per face seen anywhere in the
      table, in order of first appearance, holding its count in each die
      column. */
  function FaceCounts<F(==)>(data: seq<seq<F>>, width: nat): (t: seq<(F, seq<nat>)>)
    requires Rectangular(data, width)
    ensures forall i :: 0 <= i < |t| ==> |t[i].1| == width
    ensures forall i, c :: 0 <= i < |t| && 0 <= c < width ==> t[i].1[c] == Count(Column(data, c), t[i].0)
  {
    FaceCountsFor(data, width, Dedup(Flatten(data)))
  }

  lemma {:induction false} FlattenMember<F>(data: seq<seq<F>>, width: nat, x: F)
    requires Rectangular(data, width)
    requires x in Flatten(data)
    ensures exists r, c :: 0 <= r < |data| && 0 <= c < width && data[r][c] == x
  {
    if x in data[0] {
      var c :| 0 <= c < |data[0]| && data[0][c] == x;
      assert data[0][c] == x;
    } else {
      assert Flatten(data) == data[0] + Flatten(data[1..]);
      FlattenMember(data[1..], width, x);
      var r, c :| 0 <= r < |data[1..]| && 0 <= c < width && data[1..][r][c] == x;
      assert data[r + 1][c] == x;
    }
  }

  /** Every face that appears somewhere in the table has a row in the
      face-count table, and only one. */
  lemma FaceCountsListsSeenFaces<F>(data: seq<seq<F>>, width: nat)
    requires Rectangular(data, width)
    ensures var t := FaceCounts(data, width);
      && (forall i, j :: 0 <= i < j < |t| ==> t[i].0 != t[j].0)
      && (forall r, c :: 0 <= r < |data| && 0 <= c < width ==> exists i :: 0 <= i < |t| && t[i].0 == data[r][c])
  {
    var keys := Dedup(Flatten(data));
    var t := FaceCounts(data, width);
    forall r, c | 0 <= r < |data| && 0 <= c < width ensures exists i :: 0 <= i < |t| && t[i].0 == data[r][c] {
      var i :| 0 <= i < |keys| && keys[i] == data[r][c];
      assert t[i].0 == data[r][c];
    }
  }

  /** Every face of the face-count table appears somewhere in the table. */
  lemma FaceCountsOnlySeenFaces<F>(data: seq<seq<F>>, width: nat)
    requires Rectangular(data, width)
    ensures var t := FaceCounts(data, width);
      forall i :: 0 <= i < |t| ==> exists r, c :: 0 <= r < |data| && 0 <= c < width && data[r][c] == t[i].0
  {
    var keys := Dedup(Flatten(data));
    var t := FaceCounts(data, width);
    forall i | 0 <= i < |t| ensures exists r, c :: 0 <= r < |data| && 0 <= c < width && data[r][c] == t[i].0 {
      FlattenMember(data, width, keys[i]);
    }
  }

  /** A face a column never shows counts 0 there, any other face at least 1,
      and each column's counts add up to the number of rolls. */
  lemma FaceCountsTotals<F>(data: seq<seq<F>>, width: nat)
    requires Rectangular(data, width)
    ensures var t := FaceCounts(data, width);
      && (forall i, c :: 0 <= i < |t| && 0 <= c < width ==> (t[i].1[c] == 0 <==> t[i].0 !in Column(data, c)))
      && (forall c :: 0 <= c < width ==> ColumnTotal(t, c) == |data|)
  {
    var flat := Flatten(data);
    var keys := Dedup(flat);
    var t := FaceCounts(data, width);
    forall c | 0 <= c < width ensures ColumnTotal(t, c) == |data| {
      var col := Column(data, c);
      ColumnTotalIsTotalCount(data, width, keys, c);
      forall x | x in col ensures x in keys {
        var r :| 0 <= r < |col| && col[r] == x;
        assert data[r][c] in flat;
      }
      TotalCountCovers(col, keys);
    }
  }

  /** `row.nunique() == 1` as 0 or 1. */
  function JackpotOf<F(==)>(row: seq<F>): (j: nat)
    requires row != []
    ensures j == 1 <==> AllSame(row)
    ensures j == 0 <==> !AllSame(row)
  {
    SingleDistinctIffConstant(row);
    if DistinctCount(row) == 1 then 1 else 0
  }

  /** `compute_jackpot_results`, read per roll: 1 for a roll whose dice all
      show the same face, 0 for any other roll. */
  function Jackpots<F(==)>(data: seq<seq<F>>): (j: seq<nat>)
    requires forall r :: 0 <= r < |data| ==> data[r] != []
    ensures |j| == |data|
    ensures forall r :: 0 <= r < |data| ==> (j[r] == 1 <==> AllSame(data[r])) && (j[r] == 0 <==> !AllSame(data[r]))
  {
    seq(|data|, r requires 0 <= r < |data| => JackpotOf(data[r]))
  }

  /** A roll of two dice is a jackpot exactly when both show the same face. */
  lemma PairJackpot<F>(x: F, y: F)
    ensures JackpotOf([x, y]) == if x == y then 1 else 0
  {
    var row := [x, y];
    if x != y {
      assert row[0] != row[1];
    }
  }

  /** Five rolls of two dice, (A, A), (B, C), (A, A), (D, E), (F, G): the
      first and third are jackpots, the others are not. */
  lemma JackpotsExample<F>(a: F, b: F, c: F, d: F, e: F, f: F, g: F)
    requires b != c && d != e && f != g
    ensures Jackpots([[a, a], [b, c], [a, a], [d, e], [f, g]]) == [1, 0, 1, 0, 0]
  {
    PairJackpot(a, a);
    PairJackpot(b, c);
    PairJackpot(d, e);
    PairJackpot(f, g);
  }

  /** `tuple(sorted(row))`: the combination a roll shows, whatever die showed
      which face. */
  function ComboKey<F(==,!new)>(row: seq<F>, le: (F, F) -> bool): (key: seq<F>)
    ensures multiset(key) == multiset(row)
    ensures TotalOrder(le) ==> Sorted(key, le)
  {
    SortBy(row, le)
  }

  /** Rolls showing the same faces on differently ordered dice share their
      combination, and only such rolls do. */
  lemma ComboKeyIgnoresDieOrder<F(!new)>(a: seq<F>, b: seq<F>, le: (F, F) -> bool)
    requires TotalOrder(le)
    ensures ComboKey(a, le) == ComboKey(b, le) <==> multiset(a) == multiset(b)
  {
    if multiset(a) == multiset(b) {
      SortedUnique(ComboKey(a, le), ComboKey(b, le), le);
    }
  }

  /** The combination of every row. */
  function ComboKeys<F(==,!new)>(rows: seq<seq<F>>, le: (F, F) -> bool): (keys: seq<seq<F>>)
    ensures |keys| == |rows|
    ensures forall i :: 0 <= i < |rows| ==> keys[i] == ComboKey(rows[i], le)
  {
    if rows == [] then [] else [ComboKey(rows[0], le)] + ComboKeys(rows[1..], le)
  }

  /** The combinations of the distinct rolls, each once, in tuple order. */
  function ComboOrder<F(==,!new)>(data: seq<seq<F>>, le: (F, F) -> bool): (order: seq<seq<F>>)
    requires TotalOrder(le)
    ensures Distinct(order)
    ensures forall i, j :: 0 <= i < j < |order| ==> LexLe(order[i], order[j], le)
    ensures multiset(order) == multiset(Dedup(ComboKeys(Dedup(data), le)))
  {
    var distinctKeys := Dedup(ComboKeys(Dedup(data), le));
    var order := SortBy(distinctKeys, Lex(le));
    LexTotalOrder(le);
    PermutationKeepsDistinct(distinctKeys, order);
    assert Sorted(order, Lex(le));
    order
  }

  /** `compute_combo_results`: the distinct rolls (as ordered rows), each
      turned into its combination, counted per combination, with the
      combinations in tuple order. */
  function Combos<F(==,!new)>(data: seq<seq<F>>, le: (F, F) -> bool): (t: seq<(seq<F>, nat)>)
    requires TotalOrder(le)
    ensures forall i, j :: 0 <= i < j < |t| ==> LexLe(t[i].0, t[j].0, le) && t[i].0 != t[j].0
    ensures forall i :: 0 <= i < |t| ==> t[i].1 == Count(ComboKeys(Dedup(data), le), t[i].0)
  {
    CountsFor(ComboKeys(Dedup(data), le), ComboOrder(data, le))
  }

  /** The row of the combination table that holds the combination of roll `r`. */
  lemma ComboRow<F(!new)>(data: seq<seq<F>>, le: (F, F) -> bool, r: nat) returns (i: nat)
    requires TotalOrder(le) && r < |data|
    ensures i < |Combos(data, le)| && Combos(data, le)[i].0 == ComboKey(data[r], le)
  {
    var rows := Dedup(data);
    var keys := ComboKeys(rows, le);
    var order := ComboOrder(data, le);
    DedupSameValues(data, data[r]);
    var p :| 0 <= p < |rows| && rows[p] == data[r];
    DedupSameValues(keys, keys[p]);
    assert keys[p] in multiset(order);
    i :| 0 <= i < |order| && order[i] == keys[p];
  }

  /** The combination of every roll has its row in the combination table. */
  lemma CombosListRolledCombos<F(!new)>(data: seq<seq<F>>, le: (F, F) -> bool)
    requires TotalOrder(le)
    ensures var t := Combos(data, le);
      forall r :: 0 <= r < |data| ==> exists i :: 0 <= i < |t| && t[i].0 == ComboKey(data[r], le)
  {
    var t := Combos(data, le);
    forall r | 0 <= r < |data| ensures exists i :: 0 <= i < |t| && t[i].0 == ComboKey(data[r], le) {
      var i := ComboRow(data, le, r);
    }
  }

  /** The roll that distinct roll `p` comes from. */
  lemma ComboOfSomeRoll<F>(data: seq<seq<F>>, p: nat) returns (r: nat)
    requires p < |Dedup(data)|
    ensures r < |data| && data[r] == Dedup(data)[p]
  {
    DedupSameValues(data, Dedup(data)[p]);
    r :| 0 <= r < |data| && data[r] == Dedup(data)[p];
  }

  /** Every combination of the table is that of some roll. */
  lemma CombosOnlyRolledCombos<F(!new)>(data: seq<seq<F>>, le: (F, F) -> bool)
    requires TotalOrder(le)
    ensures var t := Combos(data, le);
      forall i :: 0 <= i < |t| ==> exists r :: 0 <= r < |data| && t[i].0 == ComboKey(data[r], le)
  {
    var rows := Dedup(data);
    var keys := ComboKeys(rows, le);
    var order := ComboOrder(data, le);
    var t := Combos(data, le);
    forall i | 0 <= i < |t| ensures exists r :: 0 <= r < |data| && t[i].0 == ComboKey(data[r], le) {
      assert order[i] in multiset(Dedup(keys));
      DedupSameValues(keys, order[i]);
      var p :| 0 <= p < |keys| && keys[p] == order[i];
      var r := ComboOfSomeRoll(data, p);
      assert t[i].0 == ComboKey(data[r], le);
    }
  }

  /** Every combination of the table is counted at least once. */
  lemma CombosCountsPositive<F(!new)>(data: seq<seq<F>>, le: (F, F) -> bool)
    requires TotalOrder(le)
    ensures var t := Combos(data, le);
      forall i :: 0 <= i < |t| ==> t[i].1 >= 1
  {
    var keys := ComboKeys(Dedup(data), le);
    var order := ComboOrder(data, le);
    var t := Combos(data, le);
    forall i | 0 <= i < |t| ensures t[i].1 >= 1 {
      assert order[i] in multiset(Dedup(keys));
      assert order[i] in keys;
    }
  }

  /** The counts of the combination table add up to the number of distinct
      rolls, not to the number of rolls: `drop_duplicates` runs first. */
  lemma CombosTotal<F(!new)>(data: seq<seq<F>>, le: (F, F) -> bool)
    requires TotalOrder(le)
    ensures TotalCount(Combos(data, le)) == DistinctCount(data)
  {
    var keys := ComboKeys(Dedup(data), le);
    var order := ComboOrder(data, le);
    forall x | x in keys ensures x in order {
      assert x in Dedup(keys);
      assert x in multiset(order);
    }
    TotalCountCovers(keys, order);
  }

  /** What an analyzer holds once constructed. */
  datatype Analyzer<F> = Analyzer(
    rollData: seq<seq<F>>,
    faceCountsPerRoll: seq<(F, seq<nat>)>,
    jackpotResults: seq<nat>,
    comboResults: seq<(seq<F>, nat)>)

  /** `Analyzer(game)`: takes the game's records without their roll numbers
      and computes the three statistics. A game never played has no records
      (`AttributeError`), one played for no rolls has no "Roll Number" column
      to drop (`KeyError`), and one without dice has no face at `iloc[0, 0]`
      (`IndexError`). */
  function NewAnalyzer<F(==,!new)>(game: Game<F>, le: (F, F) -> bool): (r: Result<Analyzer<F>, Error>)
    reads game, game.dice
    requires game.Valid() && TotalOrder(le)
    ensures game.results.None? ==> r == Err(NoResults)
    ensures game.results == Some([]) ==> r == Err(NoRollColumn)
    ensures game.results.Some? && game.results.value != [] && game.dice == [] ==> r == Err(NoDieColumns)
    ensures r.Ok? <==> game.results.Some? && game.results.value != [] && game.dice != []
    ensures game.results.None? ==> r.error.Raised() == AttributeError
    ensures game.results == Some([]) ==> r.error.Raised() == KeyError
    ensures r.Err? && game.results.Some? && game.results.value != [] ==> r.error.Raised() == IndexError
    ensures r.Ok? ==> var data := RollData(game.results.value);
      && r.value.rollData == data
      && r.value.faceCountsPerRoll == FaceCounts(data, |game.dice|)
      && r.value.jackpotResults == Jackpots(data)
      && r.value.comboResults == Combos(data, le)
  {
    match game.results
    case None => Err(NoResults)
    case Some(t) =>
      if t == [] then Err(NoRollColumn)
      else if game.dice == [] then Err(NoDieColumns)
      else
        var data := RollData(t);
        Ok(Analyzer(data, FaceCounts(data, |game.dice|), Jackpots(data), Combos(data, le)))
  }
}
