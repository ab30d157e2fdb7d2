/**
 * Square matrices of exact probabilities, stored in two-dimensional arrays, and
 * the row-sum check the transition matrices must pass.
 */
module Matrices {
  import opened ExactProbability

  /** Every entry is a fraction in lowest terms. */
  ghost predicate Proper(m: array2<Probability>)
    reads m
  {
    forall r, c :: 0 <= r < m.Length0 && 0 <= c < m.Length1 ==> m[r, c].Valid()
  }

  /** Row `r` of `m`, as a sequence. */
  ghost function RowOf(m: array2<Probability>, r: nat): (row: seq<Probability>)
    reads m
    requires r < m.Length0
    ensures |row| == m.Length1 && forall c :: 0 <= c < m.Length1 ==> row[c] == m[r, c]
  {
    seq(m.Length1, c requires 0 <= c < m.Length1 reads m => m[r, c])
  }

  /** The values of row `r`. */
  ghost function RowValues(m: array2<Probability>, r: nat): (v: seq<real>)
    reads m
    requires Proper(m) && r < m.Length0
    ensures |v| == m.Length1 && forall c :: 0 <= c < m.Length1 ==> v[c] == m[r, c].Value()
  {
    seq(m.Length1, c requires 0 <= c < m.Length1 && m[r, c].denominator > 0 reads m => m[r, c].Value())
  }

  /** The exact sum of row `r`. */
  ghost function RowTotal(m: array2<Probability>, r: nat): real
    reads m
    requires Proper(m) && r < m.Length0
  {
    Total(RowOf(m, r))
  }

  /** Every row sums to exactly one. */
  ghost predicate Stochastic(m: array2<Probability>)
    reads m
    requires Proper(m)
  {
    forall r :: 0 <= r < m.Length0 ==> RowTotal(m, r) == 1.0
  }

  /** Replacing one entry changes the total by the difference of the two values. */
  lemma {:induction false} TotalUpdate(s: seq<Probability>, j: nat, x: Probability)
    requires forall k :: 0 <= k < |s| ==> s[k].denominator > 0
    requires j < |s| && x.denominator > 0
    ensures Total(s[j := x]) == Total(s) - s[j].Value() + x.Value()
    decreases |s|
  {
    var t := s[j := x];
    if j == |s| - 1 {
      assert t[..|t| - 1] == s[..|s| - 1];
    } else {
      assert t[..|t| - 1] == s[..|s| - 1][j := x];
      TotalUpdate(s[..|s| - 1], j, x);
    }
  }

  /** A sequence of copies of one fraction totals that many times its value. */
  lemma {:induction false} UniformTotal(s: seq<Probability>, x: Probability)
    requires x.denominator > 0 && forall k :: 0 <= k < |s| ==> s[k] == x
    ensures Total(s) == |s| as real * x.Value()
    decreases |s|
  {
    if s != [] {
      UniformTotal(s[..|s| - 1], x);
    }
  }

  /** Adding `p` to one entry of a row adds the value of `p` to the row total. */
  lemma AddToEntry(before: seq<Probability>, after: seq<Probability>, j: nat, p: Probability)
    requires forall k :: 0 <= k < |before| ==> before[k].denominator > 0
    requires j < |before| && p.denominator > 0
    requires after == before[j := Add(before[j], p)]
    ensures forall k :: 0 <= k < |after| ==> after[k].denominator > 0
    ensures Total(after) == Total(before) + p.Value()
  {
    TotalUpdate(before, j, Add(before[j], p));
  }

  /**
   * After `m[(r, c)] += p`, the values of row `r` are its earlier values `vals`, except at
   * column `c`, which was `prev` and grew by the value of `p`.
   */
  lemma RowValuesAdded(m: array2<Probability>, r: nat, c: nat, p: Probability, vals: seq<real>, prev: Probability)
    requires Proper(m) && r < m.Length0 && c < m.Length1 && p.denominator > 0 && prev.denominator > 0
    requires |vals| == m.Length1 && m[r, c] == Add(prev, p)
    requires forall c' :: 0 <= c' < m.Length1 && c' != c ==> vals[c'] == m[r, c'].Value()
    ensures RowValues(m, r) == vals[c := prev.Value() + p.Value()]
  {
  }

  /** `m[(r, c)] += p`: only that entry changes, and row `r` gains the value of `p`. */
  method AddTo(m: array2<Probability>, r: nat, c: nat, p: Probability)
    requires Proper(m) && r < m.Length0 && c < m.Length1 && p.denominator > 0
    modifies m
    ensures Proper(m)
    ensures m[r, c] == Add(old(m[r, c]), p)
    ensures forall r', c' :: 0 <= r' < m.Length0 && 0 <= c' < m.Length1 && (r' != r || c' != c) ==>
      m[r', c'] == old(m[r', c'])
    ensures RowTotal(m, r) == old(RowTotal(m, r)) + p.Value()
    ensures RowValues(m, r) == old(RowValues(m, r))[c := old(m[r, c]).Value() + p.Value()]
  {
    ghost var before, vals, prev := RowOf(m, r), RowValues(m, r), m[r, c];
    m[r, c] := Add(m[r, c], p);
    AddToEntry(before, RowOf(m, r), c, p);
    RowValuesAdded(m, r, c, p, vals, prev);
  }

  /**
   * `check_matrix`: the exact sum of every row of a stochastic matrix is `ALWAYS`,
   * so the debug assertion never fires.
   */
  lemma CheckMatrix(m: array2<Probability>)
    requires Proper(m) && Stochastic(m)
    ensures forall r :: 0 <= r < m.Length0 ==> Sum(RowOf(m, r)) == ALWAYS
  {
    forall r | 0 <= r < m.Length0
      ensures Sum(RowOf(m, r)) == ALWAYS
    {
      var row := RowOf(m, r);
      assert RowTotal(m, r) == 1.0;
      assert forall k :: 0 <= k < |row| ==> row[k].denominator > 0;
      SumIsAlways(row);
    }
  }
}
