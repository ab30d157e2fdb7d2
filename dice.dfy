/**
 * The 36 equally likely ordered throws of two dice, sorted by total, then by the
 * first die, then by the second, each with its total and whether it is a double.
 */
module Dice {
  type DiceValue = x: int | 1 <= x <= 6 witness 1

  datatype Roll = Roll(d1: DiceValue, d2: DiceValue, sum: nat, double: bool)

  /** The throws with first die `a` and second die `b` onwards, rising. */
  function RowFrom(a: DiceValue, b: nat): (r: seq<(DiceValue, DiceValue)>)
    requires 1 <= b <= 7
    decreases 7 - b
  {
    if b == 7 then [] else [(a, b)] + RowFrom(a, b + 1)
  }

  /** The throws with first die `a`, second die rising. */
  function Row(a: DiceValue): seq<(DiceValue, DiceValue)>
  {
    RowFrom(a, 1)
  }

  /** The cartesian product of the faces, first die `a` onwards. */
  function PairsFrom(a: nat): (r: seq<(DiceValue, DiceValue)>)
    requires 1 <= a <= 7
    ensures |r| == 6 * (7 - a)
    decreases 7 - a
  {
    if a == 7 then [] else RowLength(a, 1); Row(a) + PairsFrom(a + 1)
  }

  /** The cartesian product of the faces with itself, first die outermost. */
  function Pairs(): seq<(DiceValue, DiceValue)>
  {
    PairsFrom(1)
  }

  /** The sort key: total, then first die, then second die. */
  predicate Le(p: (DiceValue, DiceValue), q: (DiceValue, DiceValue))
  {
    var (s, t) := (p.0 as int + p.1, q.0 as int + q.1);
    s < t || (s == t && (p.0 < q.0 || (p.0 == q.0 && p.1 <= q.1)))
  }

  /** Each throw sorts no later than the next one. */
  predicate Sorted(s: seq<(DiceValue, DiceValue)>)
  {
    forall i :: 0 <= i < |s| - 1 ==> Le(s[i], s[i + 1])
  }

  /** The key order is total and transitive, so adjacent order gives order between any two. */
  lemma {:induction false} SortedPairwise(s: seq<(DiceValue, DiceValue)>, i: nat, j: nat)
    requires Sorted(s) && i <= j < |s|
    ensures Le(s[i], s[j])
    decreases j - i
  {
    if i < j {
      SortedPairwise(s, i + 1, j);
    }
  }

  /** Places `x` in front of the first element it sorts before. */
  function Insert(x: (DiceValue, DiceValue), s: seq<(DiceValue, DiceValue)>): (r: seq<(DiceValue, DiceValue)>)
    requires Sorted(s)
    ensures Sorted(r) && multiset(r) == multiset(s) + multiset{x} && |r| == |s| + 1
    ensures r[0] == x || (s != [] && r[0] == s[0])
  {
    if s == [] || Le(x, s[0]) then [x] + s
    else
      var t := Insert(x, s[1..]);
      assert s == [s[0]] + s[1..];
      [s[0]] + t
  }

  /** `sorted_by` with the key above. */
  function Sort(s: seq<(DiceValue, DiceValue)>): (r: seq<(DiceValue, DiceValue)>)
    ensures Sorted(r) && multiset(r) == multiset(s) && |r| == |s|
  {
    if s == [] then []
    else
      assert s == [s[0]] + s[1..];
      Insert(s[0], Sort(s[1..]))
  }

  /** The key tells throws apart: two throws that sort no later than each other are equal. */
  lemma LeAntisymmetric(p: (DiceValue, DiceValue), q: (DiceValue, DiceValue))
    requires Le(p, q) && Le(q, p)
    ensures p == q
  {
  }

  lemma TailMultiset(a: seq<(DiceValue, DiceValue)>)
    requires a != []
    ensures multiset(a[1..]) == multiset(a) - multiset{a[0]}
  {
    assert a == [a[0]] + a[1..];
  }

  /**
   * Any two sorted arrangements of the same throws coincide, so the result does not
   * depend on which sorting algorithm produced it.
   */
  lemma {:induction false} SortIsUnique(a: seq<(DiceValue, DiceValue)>, b: seq<(DiceValue, DiceValue)>)
    requires Sorted(a) && Sorted(b) && multiset(a) == multiset(b)
    ensures a == b
  {
    if a == [] {
      assert |b| == |multiset(b)| == 0;
    } else {
      assert |b| == |multiset(b)| > 0;
      assert a[0] in multiset(b) && b[0] in multiset(a);
      var i :| 0 <= i < |b| && b[i] == a[0];
      var j :| 0 <= j < |a| && a[j] == b[0];
      SortedPairwise(b, 0, i);
      SortedPairwise(a, 0, j);
      LeAntisymmetric(a[0], b[0]);
      TailMultiset(a);
      TailMultiset(b);
      SortIsUnique(a[1..], b[1..]);
    }
  }

  /** Attaches the total and the double flag to each throw. */
  function Annotate(s: seq<(DiceValue, DiceValue)>): (r: seq<Roll>)
    ensures |r| == |s|
    ensures forall i :: 0 <= i < |s| ==> r[i].d1 == s[i].0 && r[i].d2 == s[i].1
    ensures forall i :: 0 <= i < |s| ==> r[i].sum == r[i].d1 + r[i].d2 && (r[i].double <==> r[i].d1 == r[i].d2)
  {
    if s == [] then [] else [Roll(s[0].0, s[0].1, s[0].0 as nat + s[0].1 as nat, s[0].0 == s[0].1)] + Annotate(s[1..])
  }

  /** `dice_rolls`. */
  function DiceRolls(): (r: seq<Roll>)
    ensures |r| == 36
  {
    Annotate(Sort(Pairs()))
  }

  function CountDoubles(s: seq<(DiceValue, DiceValue)>): nat
  {
    if s == [] then 0 else (if s[0].0 == s[0].1 then 1 else 0) + CountDoubles(s[1..])
  }

  function CountDoubleRolls(s: seq<Roll>): nat
  {
    if s == [] then 0 else (if s[0].double then 1 else 0) + CountDoubleRolls(s[1..])
  }

  lemma {:induction false} CountDoublesAppend(a: seq<(DiceValue, DiceValue)>, b: seq<(DiceValue, DiceValue)>)
    ensures CountDoubles(a + b) == CountDoubles(a) + CountDoubles(b)
  {
    if a != [] {
      CountDoublesAppend(a[1..], b);
      assert a + b == [a[0]] + (a[1..] + b);
    } else {
      assert a + b == b;
    }
  }

  lemma {:induction false} CountDoublesInsert(x: (DiceValue, DiceValue), s: seq<(DiceValue, DiceValue)>)
    requires Sorted(s)
    ensures CountDoubles(Insert(x, s)) == CountDoubles([x]) + CountDoubles(s)
  {
    if s != [] && !Le(x, s[0]) {
      CountDoublesInsert(x, s[1..]);
      assert Insert(x, s)[1..] == Insert(x, s[1..]);
    }
  }

  /** Sorting neither adds nor loses doubles. */
  lemma {:induction false} CountDoublesSort(s: seq<(DiceValue, DiceValue)>)
    ensures CountDoubles(Sort(s)) == CountDoubles(s)
  {
    if s != [] {
      CountDoublesSort(s[1..]);
      CountDoublesInsert(s[0], Sort(s[1..]));
    }
  }

  lemma {:induction false} CountDoubleRollsAnnotate(s: seq<(DiceValue, DiceValue)>)
    ensures CountDoubleRolls(Annotate(s)) == CountDoubles(s)
  {
    if s != [] {
      CountDoubleRollsAnnotate(s[1..]);
    }
  }

  lemma {:induction false} CountDoublesPairs(a: nat)
    requires 1 <= a <= 7
    ensures CountDoubles(PairsFrom(a)) == 7 - a
    decreases 7 - a
  {
    if a < 7 {
      CountDoublesPairs(a + 1);
      CountDoublesAppend(Row(a), PairsFrom(a + 1));
      RowCountDoubles(a, 1);
    }
  }

  lemma {:induction false} RowLength(a: DiceValue, b: nat)
    requires 1 <= b <= 7
    ensures |RowFrom(a, b)| == 7 - b
    decreases 7 - b
  {
    if b < 7 {
      RowLength(a, b + 1);
    }
  }

  lemma {:induction false} RowFromCount(a: DiceValue, b: nat, p: (DiceValue, DiceValue))
    requires 1 <= b <= 7
    ensures multiset(RowFrom(a, b))[p] == if a == p.0 && b <= p.1 then 1 else 0
    decreases 7 - b
  {
    if b < 7 {
      RowFromCount(a, b + 1, p);
      assert p == (a, b) <==> a == p.0 && b == p.1;
    }
  }

  lemma {:induction false} RowCountDoubles(a: DiceValue, b: nat)
    requires 1 <= b <= 7
    ensures CountDoubles(RowFrom(a, b)) == if b <= a then 1 else 0
    decreases 7 - b
  {
    if b < 7 {
      RowCountDoubles(a, b + 1);
    }
  }

  lemma RowCount(a: DiceValue, p: (DiceValue, DiceValue))
    ensures multiset(Row(a))[p] == if a == p.0 then 1 else 0
  {
    RowFromCount(a, 1, p);
  }

  lemma PairsFromStep(a: nat, p: (DiceValue, DiceValue))
    requires 1 <= a < 7
    requires multiset(PairsFrom(a + 1))[p] == if a + 1 <= p.0 then 1 else 0
    ensures multiset(PairsFrom(a))[p] == if a <= p.0 then 1 else 0
  {
    RowCount(a, p);
    assert PairsFrom(a) == Row(a) + PairsFrom(a + 1);
  }

  /** Throws with first die `a` onwards hold each such ordered pair once. */
  lemma {:induction false} PairsFromCount(a: nat, p: (DiceValue, DiceValue))
    requires 1 <= a <= 7
    ensures multiset(PairsFrom(a))[p] == if a <= p.0 then 1 else 0
    decreases 7 - a
  {
    if a < 7 {
      PairsFromCount(a + 1, p);
      PairsFromStep(a, p);
    }
  }

  /** There are 36 throws, each ordered pair of faces exactly once. */
  lemma RollsAreAllPairs()
    ensures |DiceRolls()| == 36
    ensures forall p: (DiceValue, DiceValue) :: multiset(Sort(Pairs()))[p] == 1
  {
    PairsOnce();
    SortKeepsOnce(Pairs());
  }

  /** The cartesian product holds each ordered pair of faces once. */
  lemma PairsOnce()
    ensures forall p: (DiceValue, DiceValue) :: multiset(Pairs())[p] == 1
  {
    forall p: (DiceValue, DiceValue)
      ensures multiset(Pairs())[p] == 1
    {
      PairsFromCount(1, p);
    }
  }

  /** Sorting a list that holds each pair once gives a list that holds each pair once. */
  lemma SortKeepsOnce(s: seq<(DiceValue, DiceValue)>)
    requires forall p: (DiceValue, DiceValue) :: multiset(s)[p] == 1
    ensures forall p: (DiceValue, DiceValue) :: multiset(Sort(s))[p] == 1
  {
    assert multiset(Sort(s)) == multiset(s);
  }

  /** The sort key of an annotated throw. */
  function Key(r: Roll): (DiceValue, DiceValue)
  {
    (r.d1, r.d2)
  }

  /** Annotating keeps the order of the throws. */
  lemma AnnotateKeepsOrder(s: seq<(DiceValue, DiceValue)>)
    requires Sorted(s)
    ensures forall i, j :: 0 <= i < j < |Annotate(s)| ==> Le(Key(Annotate(s)[i]), Key(Annotate(s)[j]))
  {
    forall i, j | 0 <= i < j < |Annotate(s)|
      ensures Le(Key(Annotate(s)[i]), Key(Annotate(s)[j]))
    {
      SortedPairwise(s, i, j);
    }
  }

  /** Each throw carries its own total, from 2 to 12, and its double flag. */
  lemma RollsAnnotated()
    ensures forall i :: 0 <= i < |DiceRolls()| ==>
      2 <= DiceRolls()[i].sum <= 12 && DiceRolls()[i].sum == DiceRolls()[i].d1 + DiceRolls()[i].d2
      && (DiceRolls()[i].double <==> DiceRolls()[i].d1 == DiceRolls()[i].d2)
  {
    var sorted := Sort(Pairs());
    assert DiceRolls() == Annotate(sorted);
    AnnotateTotals(sorted);
  }

  /** The throws come in key order: by total, then first die, then second die. */
  lemma RollsInOrder()
    ensures forall i, j :: 0 <= i < j < |DiceRolls()| ==> Le(Key(DiceRolls()[i]), Key(DiceRolls()[j]))
  {
    AnnotateKeepsOrder(Sort(Pairs()));
  }

  /** The faces of each throw, in order. */
  function Keys(rolls: seq<Roll>): (r: seq<(DiceValue, DiceValue)>)
    ensures |r| == |rolls| && forall i :: 0 <= i < |rolls| ==> r[i] == Key(rolls[i])
  {
    seq(|rolls|, i requires 0 <= i < |rolls| => Key(rolls[i]))
  }

  /**
   * What `dice_rolls` promises its callers: 36 throws, each ordered pair of faces
   * exactly once, each with its own total and double flag.
   */
  ghost predicate AllThrows(rolls: seq<Roll>)
  {
    && |rolls| == 36
    && (forall i :: 0 <= i < |rolls| ==>
          rolls[i].sum == rolls[i].d1 + rolls[i].d2 && (rolls[i].double <==> rolls[i].d1 == rolls[i].d2))
    && forall p: (DiceValue, DiceValue) :: multiset(Keys(rolls))[p] == 1
  }

  /** Annotating does not change the faces. */
  lemma KeysAnnotate(s: seq<(DiceValue, DiceValue)>)
    ensures Keys(Annotate(s)) == s
  {
  }

  /** `dice_rolls` yields every throw once. */
  lemma RollsAreAllThrows()
    ensures AllThrows(DiceRolls())
  {
    RollsAreAllPairs();
    KeysAnnotate(Sort(Pairs()));
  }

  /** Every annotated throw has a total between 2 and 12. */
  lemma AnnotateTotals(s: seq<(DiceValue, DiceValue)>)
    ensures forall i :: 0 <= i < |Annotate(s)| ==> 2 <= Annotate(s)[i].sum <= 12
  {
    forall i | 0 <= i < |Annotate(s)|
      ensures 2 <= Annotate(s)[i].sum <= 12
    {
      var r := Annotate(s)[i];
      assert r.sum == r.d1 + r.d2;
    }
  }

  /** Exactly six of the throws are doubles. */
  lemma SixDoubles()
    ensures CountDoubleRolls(DiceRolls()) == 6
  {
    CountDoubleRollsAnnotate(Sort(Pairs()));
    CountDoublesSort(Pairs());
    CountDoublesPairs(1);
  }
}
