/** Index arithmetic for tables laid out block by block: `q` whole blocks of
    `n` entries followed by `r` more entries. Both variants flatten a roll ×
    die table into one list this way, die-major or roll-major. */
module Layout {

  /** One more block of `n` entries. */
  lemma MulStep(n: nat, m: nat)
    requires m >= 1
    ensures n * m == n + n * (m - 1)
  {
  }

  /** Position `k` of `n`-entry blocks is entry `k % n` of block `k / n`. */
  lemma DivModSplit(k: nat, n: nat, m: nat)
    requires 0 < n && k < n * m
    ensures k / n < m && k == n * (k / n) + k % n && k % n < n
  {
  }

  /** The position of entry `r` after `q` whole blocks of `n` entries. */
  function Offset(n: nat, q: nat, r: nat): nat
  {
    if q == 0 then r else n + Offset(n, q - 1, r)
  }

  lemma {:induction false} OffsetIsProduct(n: nat, q: nat, r: nat)
    ensures Offset(n, q, r) == n * q + r
  {
    if q > 0 {
      OffsetIsProduct(n, q - 1, r);
      MulStep(n, q);
    }
  }

  /** Entry `r` of block `q` lies inside `m` blocks when `q < m` and `r < n`. */
  lemma {:induction false} OffsetBound(n: nat, m: nat, q: nat, r: nat)
    requires q < m && r < n
    ensures Offset(n, q, r) < n * m
  {
    if q > 0 {
      OffsetBound(n, m - 1, q - 1, r);
      MulStep(n, m);
    } else {
      MulStep(n, m);
    }
  }

  /** Position `k` of `n`-entry blocks is entry `k % n` of block `k / n`, in
      terms of `Offset`. */
  lemma OffsetOfPosition(k: nat, n: nat, m: nat)
    requires 0 < n && k < n * m
    ensures k / n < m && k % n < n && Offset(n, k / n, k % n) == k
  {
    DivModSplit(k, n, m);
    OffsetIsProduct(n, k / n, k % n);
  }

  /** The blocks, one after the other. */
  function Concat<T>(blocks: seq<seq<T>>): seq<T>
  {
    if blocks == [] then [] else blocks[0] + Concat(blocks[1..])
  }

  lemma {:induction false} ConcatSnoc<T>(blocks: seq<seq<T>>, last: seq<T>)
    ensures Concat(blocks + [last]) == Concat(blocks) + last
  {
    if blocks != [] {
      assert (blocks + [last])[1..] == blocks[1..] + [last];
      ConcatSnoc(blocks[1..], last);
    }
  }

  /** Every entry of the concatenation is entry `r` of some block `q`. */
  lemma {:induction false} ConcatFrom<T>(blocks: seq<seq<T>>, i: nat) returns (q: nat, r: nat)
    requires i < |Concat(blocks)|
    ensures q < |blocks| && r < |blocks[q]| && Concat(blocks)[i] == blocks[q][r]
  {
    if i < |blocks[0]| {
      q, r := 0, i;
    } else {
      var q', r' := ConcatFrom(blocks[1..], i - |blocks[0]|);
      q, r := q' + 1, r';
    }
  }

  /** Blocks of `n` entries concatenate to `n` entries per block, entry `r`
      of block `q` at position `Offset(n, q, r)`. */
  lemma {:induction false} ConcatAt<T>(blocks: seq<seq<T>>, n: nat)
    requires forall q :: 0 <= q < |blocks| ==> |blocks[q]| == n
    ensures |Concat(blocks)| == n * |blocks|
    ensures forall q, r :: 0 <= q < |blocks| && 0 <= r < n ==>
      Offset(n, q, r) < |Concat(blocks)| && Concat(blocks)[Offset(n, q, r)] == blocks[q][r]
  {
    if blocks != [] {
      var rest := Concat(blocks[1..]);
      ConcatAt(blocks[1..], n);
      MulStep(n, |blocks|);
      forall q, r | 0 <= q < |blocks| && 0 <= r < n
        ensures Offset(n, q, r) < |Concat(blocks)| && Concat(blocks)[Offset(n, q, r)] == blocks[q][r]
      {
        if q > 0 {
          assert blocks[q] == blocks[1..][q - 1];
          assert Concat(blocks)[n + Offset(n, q - 1, r)] == rest[Offset(n, q - 1, r)];
        }
      }
    }
  }
}
