/** The polynomial null space of a thin-plate smooth: exponent vectors of bounded degree, enumerated by
    an odometer, and their number. */
module Odometer {
  import opened Arith

  type Powers = seq<nat>

  function Sum(v: Powers): nat {
    if v == [] then 0 else Sum(v[..|v| - 1]) + v[|v| - 1]
  }

  /** How many vectors of length d have total degree at most k. */
  function Count(d: nat, k: int): nat
    decreases d, 0
  {
    if k < 0 then 0 else if d == 0 then 1 else Below(d - 1, k, k + 1)
  }

  /** How many of them have a last exponent below a: the others' degrees sum to at most k less it. */
  function Below(d: nat, k: int, a: nat): nat
    decreases d, a + 1
  {
    if a == 0 then 0 else Below(d, k, a - 1) + Count(d, k - (a - 1))
  }

  /** A vector's place in the order that varies the first coordinate fastest. */
  function Rank(v: Powers, k: int): nat {
    if v == [] then 0
    else Rank(v[..|v| - 1], k - v[|v| - 1]) + Below(|v| - 1, k, v[|v| - 1])
  }

  // ------------------------------------------------------------ ranks are places

  lemma {:induction false} BelowMonotone(d: nat, k: int, a: nat, b: nat)
    requires a <= b
    ensures Below(d, k, a) <= Below(d, k, b)
  {
    if a < b {
      BelowMonotone(d, k, a, b - 1);
    }
  }

  lemma {:induction false} RankBound(v: Powers, k: int)
    requires Sum(v) <= k
    ensures Rank(v, k) < Count(|v|, k)
  {
    if v != [] {
      var n, a := |v| - 1, v[|v| - 1];
      RankBound(v[..n], k - a);
      BelowMonotone(n, k, a + 1, k + 1);
    }
  }

  lemma {:induction false} RankInjective(v: Powers, w: Powers, k: int)
    requires |v| == |w| && Sum(v) <= k && Sum(w) <= k && Rank(v, k) == Rank(w, k)
    ensures v == w
  {
    if v != [] {
      var n, a, b := |v| - 1, v[|v| - 1], w[|w| - 1];
      RankBound(v[..n], k - a);
      RankBound(w[..n], k - b);
      if a < b {
        BelowMonotone(n, k, a + 1, b);
      } else if b < a {
        BelowMonotone(n, k, b + 1, a);
      } else {
        RankInjective(v[..n], w[..n], k - a);
        assert v == v[..n] + [a] && w == w[..n] + [b];
      }
    }
  }

  /** The place of a vector whose coordinates before c are zero, relative to the same vector with
      coordinate c zero as well. */
  lemma {:induction false} RankClear(v: Powers, c: nat, k: int)
    requires c < |v| && ZeroBelow(v, c)
    ensures Rank(v, k) == Rank(v[c := 0], k) + Below(c, k - (Sum(v) - v[c]), v[c])
    ensures Sum(v[c := 0]) == Sum(v) - v[c]
  {
    var n := |v| - 1;
    var w := v[c := 0];
    if c < n {
      RankClear(v[..n], c, k - v[n]);
      assert w[..n] == v[..n][c := 0];
    } else {
      assert w[..n] == v[..n];
      ZeroRank(v[..n], k - v[n]);
      ZeroRank(v[..n], k);
    }
  }

  predicate ZeroBelow(v: Powers, c: nat)
    requires c <= |v|
  {
    forall i :: 0 <= i < c ==> v[i] == 0
  }

  lemma {:induction false} ZeroRank(v: Powers, k: int)
    requires ZeroBelow(v, |v|)
    ensures Rank(v, k) == 0 && Sum(v) == 0
  {
    if v != [] {
      ZeroRank(v[..|v| - 1], k);
    }
  }

  // ------------------------------------------------------------------- the step

  /** The carry: coordinate c goes up by one; if the degree then reaches the order, the coordinate goes
      back to zero and the next one takes the carry. */
  function Carry(v: Powers, c: nat, sum: int, order: nat): (r: Powers)
    requires c <= |v|
    ensures |r| == |v|
    decreases |v| - c
  {
    if c == |v| then v
    else if sum + 1 == order then Carry(v[c := 0], c + 1, sum - v[c], order)
    else v[c := v[c] + 1]
  }

  function Next(v: Powers, order: nat): (r: Powers)
    requires v != []
    ensures |r| == |v|
  {
    if Sum(v) + 1 < order then v[0 := v[0] + 1]
    else Carry(v[0 := 0], 1, Sum(v) - v[0], order)
  }

  lemma CountSplit(c: nat, a: nat)
    ensures Count(c + 1, a) == Below(c, a, a) + Count(c, 0)
  {
    assert Below(c, a, a + 1) == Below(c, a, a) + Count(c, a - a);
  }

  lemma BelowNext(c: nat, k: int, a: nat)
    ensures Below(c, k, a + 1) == Below(c, k, a) + Count(c, k - a)
  {
  }

  /** Raising coordinate c, all before it being zero, skips the vectors below it. */
  lemma RankRaise(v: Powers, c: nat, k: int)
    requires c < |v| && ZeroBelow(v, c)
    ensures Rank(v[c := v[c] + 1], k) == Rank(v, k) + Count(c, k - Sum(v)) && Sum(v[c := v[c] + 1]) == Sum(v) + 1
  {
    hide Rank, Count, Below, Sum;
    var r := v[c := v[c] + 1];
    RankClear(v, c, k);
    RankClear(r, c, k);
    assert r[c := 0] == v[c := 0];
    BelowNext(c, k - (Sum(v) - v[c]), v[c]);
  }

  /** `v` heads the block that follows the vectors just finished, those below coordinate c: the carry
      leads to the first vector after them, unless they were the last. */
  lemma {:induction false} CarryRank(v: Powers, c: nat, order: nat)
    requires c <= |v| && ZeroBelow(v, c) && Sum(v) < order
    ensures var place, r := Rank(v, order - 1) + Count(c, order - 1 - Sum(v)), Carry(v, c, Sum(v), order);
            place < Count(|v|, order - 1) ==> Sum(r) < order && Rank(r, order - 1) == place
    decreases |v| - c
  {
    hide Rank, Count, Below, Sum;
    var k := order - 1;
    if c == |v| {
      ZeroRank(v, k);
    } else if Sum(v) == k {
      RankClear(v, c, k);
      CountSplit(c, v[c]);
      CarryRank(v[c := 0], c + 1, order);
    } else {
      RankRaise(v, c, k);
    }
  }

  /** The odometer goes from each vector to the one in the next place. */
  lemma NextRank(v: Powers, order: nat)
    requires v != [] && Sum(v) < order && Rank(v, order - 1) + 1 < Count(|v|, order - 1)
    ensures Sum(Next(v, order)) < order && Rank(Next(v, order), order - 1) == Rank(v, order - 1) + 1
  {
    var k := order - 1;
    assert Count(0, k - Sum(v)) == 1 && Count(0, 0) == 1;
    hide Rank, Count, Below, Sum;
    if Sum(v) < k {
      RankRaise(v, 0, k);
    } else {
      RankClear(v, 0, k);
      CountSplit(0, v[0]);
      CarryRank(v[0 := 0], 1, order);
    }
  }

  method Degree(index: array<nat>) returns (sum: nat)
    ensures sum == Sum(index[..])
  {
    sum := 0;
    for c := 0 to index.Length
      invariant sum == Sum(index[..c])
    {
      assert index[..c + 1] == index[..c] + [index[c]];
      sum := sum + index[c];
    }
    assert index[..index.Length] == index[..];
  }

  method Advance(index: array<nat>, order: nat)
    requires index.Length > 0
    modifies index
    ensures index[..] == Next(old(index[..]), order)
  {
    var sum := Degree(index);
    hide Sum;
    if sum < order - 1 {
      index[0] := index[0] + 1;
      return;
    }
    var rest: int := sum - index[0];
    index[0] := 0;
    assert index[..] == old(index[..])[0 := 0];
    for c := 1 to index.Length
      invariant Carry(index[..], c, rest, order) == Next(old(index[..]), order)
    {
      ghost var before := index[..];
      index[c] := index[c] + 1;
      rest := rest + 1;
      if rest == order {
        rest := rest - index[c];
        index[c] := 0;
        assert index[..] == before[c := 0];
      } else {
        assert index[..] == before[c := before[c] + 1];
        return;
      }
    }
  }

  /** `terms` exponent vectors, from zero on: the t-th one is the vector in place t. */
  method PolynomialPowers(dimension: nat, order: nat, terms: nat) returns (powers: seq<Powers>)
    requires dimension >= 1 && order >= 1 && terms == Count(dimension, order - 1)
    ensures |powers| == terms
    ensures forall t :: 0 <= t < terms ==>
      |powers[t]| == dimension && Sum(powers[t]) < order && Rank(powers[t], order - 1) == t
  {
    powers := [];
    var index := new nat[dimension](_ => 0);
    ZeroRank(index[..], order - 1);
    for t := 0 to terms
      invariant fresh(index) && |powers| == t
      invariant forall s :: 0 <= s < t ==>
        |powers[s]| == dimension && Sum(powers[s]) < order && Rank(powers[s], order - 1) == s
      invariant t < terms ==> Sum(index[..]) < order && Rank(index[..], order - 1) == t
    {
      powers := powers + [index[..]];
      if t + 1 < terms {
        NextRank(index[..], order);
      }
      Advance(index, order);
    }
  }

  /** Every exponent vector of total degree below the order is listed, exactly once, at its place. */
  lemma ListsEachOnce(powers: seq<Powers>, dimension: nat, order: nat, v: Powers, t: nat)
    requires order >= 1 && |powers| == Count(dimension, order - 1)
    requires forall s :: 0 <= s < |powers| ==>
      |powers[s]| == dimension && Sum(powers[s]) < order && Rank(powers[s], order - 1) == s
    requires |v| == dimension && Sum(v) < order && t < |powers|
    ensures Rank(v, order - 1) < |powers|
    ensures powers[t] == v <==> t == Rank(v, order - 1)
  {
    RankBound(v, order - 1);
    if t == Rank(v, order - 1) {
      RankInjective(powers[t], v, order - 1);
    }
  }

  // ------------------------------------------------------------------ the number

  function Choose(n: nat, r: nat): nat {
    if r == 0 then 1 else if n == 0 then 0 else Choose(n - 1, r - 1) + Choose(n - 1, r)
  }

  lemma {:induction false} BelowShift(d: nat, k: int, a: nat)
    requires k >= 0
    ensures Below(d, k, a + 1) == Count(d, k) + Below(d, k - 1, a)
  {
    if a > 0 {
      BelowShift(d, k, a - 1);
    }
  }

  lemma {:induction false} Choose0(n: nat, r: nat)
    requires r > n
    ensures Choose(n, r) == 0
  {
    if n > 0 {
      Choose0(n - 1, r - 1);
      Choose0(n - 1, r);
    }
  }

  lemma {:induction false} ChooseAll(n: nat)
    ensures Choose(n, n) == 1
  {
    if n > 0 {
      ChooseAll(n - 1);
      Choose0(n - 1, n);
    }
  }

  /** The number of exponent vectors is a binomial coefficient. */
  lemma {:induction false} CountIsChoose(d: nat, k: nat)
    ensures Count(d, k) == Choose(d + k, d)
    decreases d + k
  {
    if d > 0 {
      BelowShift(d - 1, k, k);
      CountIsChoose(d - 1, k);
      if k > 0 {
        CountIsChoose(d, k - 1);
      } else {
        ChooseAll(d);
        ChooseAll(d - 1);
      }
    }
  }

  lemma AbsorbSum(a: nat, b: nat, c: nat, n: nat, i: nat)
    requires i < n && b * i == a * (n - i) && c * (i + 1) == b * (n - 1 - i)
    ensures (b + c) * (i + 1) == (a + b) * (n - i)
  {
    calc {
      (b + c) * (i + 1);
      b * (i + 1) + c * (i + 1);
      b * (i + 1) + b * (n - 1 - i);
      b * ((i + 1) + (n - 1 - i));
      b * (i + (n - i));
      b * i + b * (n - i);
      (a + b) * (n - i);
    }
  }

  lemma {:induction false} Absorb(n: nat, i: nat)
    requires i <= n
    ensures Choose(n, i + 1) * (i + 1) == Choose(n, i) * (n - i)
  {
    if i == n {
      Choose0(n, i + 1);
    } else {
      Absorb(n - 1, i);
      if i > 0 {
        Absorb(n - 1, i - 1);
        AbsorbSum(Choose(n - 1, i - 1), Choose(n - 1, i), Choose(n - 1, i + 1), n, i);
      }
    }
  }

  /** i * (i + 1) * ... * d */
  function Range(i: nat, d: nat): nat
    decreases d + 1 - i
  {
    if i > d then 1 else i * Range(i + 1, d)
  }

  function Factorial(n: nat): nat { if n == 0 then 1 else n * Factorial(n - 1) }

  lemma Regroup(a: nat, b: nat, c: nat)
    ensures a * (b * c) == (b * a) * c == b * (a * c)
  {
  }

  lemma {:induction false} FactorialRange(i: nat, d: nat)
    requires 1 <= i <= d + 1
    ensures Factorial(i - 1) * Range(i, d) == Factorial(d)
    decreases d + 1 - i
  {
    if i <= d {
      FactorialRange(i + 1, d);
      Regroup(Factorial(i - 1), i, Range(i + 1, d));
    }
  }

  lemma Exchange(a: nat, b: nat, f: nat, i: nat, x: nat)
    requires b * i == a * x
    ensures (a * f) * x == b * (i * f)
  {
    Regroup(f, a, x);
    Regroup(f, b, i);
    Regroup(b, i, f);
  }

  /** One more factor of the falling product. */
  lemma Falling(n: nat, i: nat)
    requires i < n
    ensures Choose(n, i) * Factorial(i) * (n - i) == Choose(n, i + 1) * Factorial(i + 1)
  {
    hide Choose;
    Absorb(n, i);
    Exchange(Choose(n, i), Choose(n, i + 1), Factorial(i), i + 1, n - i);
  }

  /** The order in use: raised, if need be, to the least one that makes the smooth proper. */
  function ProperOrder(d: nat, m: nat): (r: nat)
    ensures 2 * r > d && (2 * m > d ==> r == m) && (2 * m <= d ==> 2 * r >= d + 2 && 2 * (r - 1) < d + 2)
  {
    if 2 * m <= d then (d + 3) / 2 else m
  }

  /** The number of exponent vectors of degree below the proper order: a binomial coefficient. */
  method NullSpaceDimension(d: nat, m: nat) returns (dimension: nat)
    ensures dimension == Count(d, ProperOrder(d, m) - 1) == Choose(d + ProperOrder(d, m) - 1, d)
  {
    var order := m;
    if 2 * order <= d {
      order := 1;
      while 2 * order < d + 2
        invariant order >= 1 && (order > 1 ==> 2 * (order - 1) < d + 2)
      {
        order := order + 1;
      }
    }
    assert order == ProperOrder(d, m);
    CountIsChoose(d, order - 1);
    dimension := Divided(d, d + order - 1);
  }

  /** The falling product of d factors, divided by 2, ..., d in turn. */
  method Divided(d: nat, n: nat) returns (dimension: nat)
    requires d <= n
    ensures dimension == Choose(n, d)
  {
    assert Choose(n, 0) == 1;
    hide Choose;
    dimension := 1;
    for i := 0 to d
      invariant dimension == Choose(n, i) * Factorial(i)
    {
      Falling(n, i);
      dimension := dimension * (n - i);
    }
    if d < 2 {
      return;
    }
    FactorialRange(2, d);
    for i := 2 to d + 1
      invariant dimension == Choose(n, d) * Range(i, d)
    {
      Regroup(Choose(n, d), i, Range(i + 1, d));
      DivModUnique(dimension, i, Choose(n, d) * Range(i + 1, d), 0);
      assert dimension % i == 0;
      dimension := dimension / i;
    }
  }

  /** The vectors listed are those of total degree below the order, each at one place only. */
  ghost predicate Lists(powers: seq<Powers>, dimension: nat, order: nat) {
    && (forall t :: 0 <= t < |powers| ==> |powers[t]| == dimension && Sum(powers[t]) < order)
    && (forall s, t :: 0 <= s < t < |powers| ==> powers[s] != powers[t])
    && (forall v: Powers :: |v| == dimension && Sum(v) < order ==> v in powers)
  }

  lemma RanksList(powers: seq<Powers>, dimension: nat, order: nat)
    requires order >= 1 && |powers| == Count(dimension, order - 1)
    requires forall s :: 0 <= s < |powers| ==>
      |powers[s]| == dimension && Sum(powers[s]) < order && Rank(powers[s], order - 1) == s
    ensures Lists(powers, dimension, order)
  {
    hide Count, Rank, Sum;
    forall v: Powers | |v| == dimension && Sum(v) < order
      ensures v in powers
    {
      RankBound(v, order - 1);
      ListsEachOnce(powers, dimension, order, v, Rank(v, order - 1));
    }
  }

  /** The polynomial null space of a smooth of some conditioning columns: its order is the least that is
      proper, and the odometer run for the computed number of terms lists its exponent vectors. */
  method NullSpace(dimension: nat, basisDimension: nat) returns (ok: bool, order: nat, powers: seq<Powers>)
    requires dimension >= 1
    ensures 2 * order >= dimension + 2 && 2 * (order - 1) < dimension + 2
    ensures ok <==> basisDimension > Choose(dimension + order - 1, dimension)
    ensures ok ==> |powers| == Choose(dimension + order - 1, dimension) && Lists(powers, dimension, order)
  {
    order := 0;
    while 2 * order < dimension + 2
      invariant order > 0 ==> 2 * (order - 1) < dimension + 2
    {
      order := order + 1;
    }
    hide Count, Choose, Rank, Sum, Lists;
    var terms := NullSpaceDimension(dimension, order);
    ok, powers := basisDimension >= terms + 1, [];
    if ok {
      powers := PolynomialPowers(dimension, order, terms);
      RanksList(powers, dimension, order);
    }
  }
}
