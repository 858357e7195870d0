/** The weight column of a die and the sampler that draws faces from it.
    The sampler (`random.choices` in the notebook, `DataFrame.sample` in the
    package) is not modelled as a distribution: a roll receives its draws,
    the positions of the chosen faces, from the caller, and the only thing
    the model assumes of a draw is what both samplers guarantee, namely that
    it names a face whose weight is positive. */
module Weights {
  import opened Common

  /** The weight column after every row showing `face` has been set to `w`
      (the masked assignment that `change_weight` performs). */
  function Reweighted<F(==)>(faces: seq<F>, weights: seq<real>, face: F, w: real): (r: seq<real>)
    requires |weights| == |faces|
    ensures |r| == |weights|
    ensures forall i :: 0 <= i < |r| ==> r[i] == if faces[i] == face then w else weights[i]
  {
    if faces == [] then []
    else [if faces[0] == face then w else weights[0]] + Reweighted(faces[1..], weights[1..], face, w)
  }

  /** Setting a face to the weight it already has changes nothing. */
  lemma ReweightedUnchanged<F>(faces: seq<F>, weights: seq<real>, face: F, w: real)
    requires |weights| == |faces|
    requires forall i :: 0 <= i < |faces| && faces[i] == face ==> weights[i] == w
    ensures Reweighted(faces, weights, face, w) == weights
  {
  }

  /** Of two weight changes to the same face, the later one wins. */
  lemma ReweightedLastWins<F>(faces: seq<F>, weights: seq<real>, face: F, v: real, w: real)
    requires |weights| == |faces|
    ensures Reweighted(faces, Reweighted(faces, weights, face, v), face, w) == Reweighted(faces, weights, face, w)
  {
  }

  /** Weight changes to different faces do not interfere. */
  lemma ReweightedCommute<F>(faces: seq<F>, weights: seq<real>, f: F, v: real, g: F, w: real)
    requires |weights| == |faces| && f != g
    ensures Reweighted(faces, Reweighted(faces, weights, f, v), g, w)
         == Reweighted(faces, Reweighted(faces, weights, g, w), f, v)
  {
  }

  /** A position the sampler may return: a face whose weight is positive. */
  predicate ValidDraw(weights: seq<real>, d: nat)
  {
    d < |weights| && weights[d] > 0.0
  }

  predicate ValidDraws(weights: seq<real>, draws: seq<nat>)
  {
    forall i :: 0 <= i < |draws| ==> ValidDraw(weights, draws[i])
  }

  /** When the weights sum to a positive number the sampler has a face to return. */
  lemma PositiveTotalHasValidDraw(weights: seq<real>)
    requires Total(weights) > 0.0
    ensures exists d: nat :: ValidDraw(weights, d)
  {
    PositiveTotalHasPositiveEntry(weights);
    var i :| 0 <= i < |weights| && weights[i] > 0.0;
    assert ValidDraw(weights, i);
  }

  /** The faces at the drawn positions, in draw order. */
  function Drawn<F>(faces: seq<F>, draws: seq<nat>): (r: seq<F>)
    requires forall i :: 0 <= i < |draws| ==> draws[i] < |faces|
    ensures |r| == |draws|
    ensures forall i :: 0 <= i < |r| ==> r[i] == faces[draws[i]]
  {
    if draws == [] then [] else [faces[draws[0]]] + Drawn(faces, draws[1..])
  }

  /** Every drawn face is a face of the die, and a face whose weight is zero
      (or below) in every row that shows it is never drawn. */
  lemma {:induction false} DrawnFaces<F>(faces: seq<F>, weights: seq<real>, draws: seq<nat>, f: F)
    requires |weights| == |faces| && ValidDraws(weights, draws)
    requires forall i :: 0 <= i < |faces| && faces[i] == f ==> weights[i] <= 0.0
    ensures forall i :: 0 <= i < |draws| ==> Drawn(faces, draws)[i] in faces
    ensures f !in Drawn(faces, draws)
  {
    var r := Drawn(faces, draws);
    forall i | 0 <= i < |r| ensures r[i] != f {
      assert ValidDraw(weights, draws[i]);
    }
  }
}
