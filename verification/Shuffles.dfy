/** Permutation tables drawn the way the R reference draws them. Random numbers come from a tape of
    uniform draws in [0, 1). */
module Shuffles {
  import opened Arith
  import opened Collections

  // ------------------------------------------------------------- the shrinking pool

  /** Takes out position p: the last element moves into the gap. */
  function Removed<T>(pool: seq<T>, p: nat): (r: seq<T>)
    requires p < |pool|
    ensures |r| == |pool| - 1
  {
    pool[p := pool[|pool| - 1]][..|pool| - 1]
  }

  /** The i-th pick is below the number of elements still in the pool. */
  predicate InRange(n: nat, picks: seq<nat>) {
    |picks| <= n && forall i :: 0 <= i < |picks| ==> picks[i] < n - i
  }

  function Left<T>(pool: seq<T>, picks: seq<nat>): (r: seq<T>)
    requires InRange(|pool|, picks)
    ensures |r| == |pool| - |picks|
    decreases |picks|
  {
    if picks == [] then pool
    else Removed(Left(pool, picks[..|picks| - 1]), picks[|picks| - 1])
  }

  function Taken<T>(pool: seq<T>, picks: seq<nat>): (r: seq<T>)
    requires InRange(|pool|, picks)
    ensures |r| == |picks|
    decreases |picks|
  {
    if picks == [] then []
    else Taken(pool, picks[..|picks| - 1]) + [Left(pool, picks[..|picks| - 1])[picks[|picks| - 1]]]
  }

  lemma RemovedElements<T>(pool: seq<T>, p: nat)
    requires p < |pool|
    ensures multiset(Removed(pool, p)) + multiset{pool[p]} == multiset(pool)
  {
    var n := |pool| - 1;
    assert pool == pool[..n] + [pool[n]];
    if p < n {
      assert Removed(pool, p) == pool[..p] + [pool[n]] + pool[p + 1..n];
      assert pool[..n] == pool[..p] + [pool[p]] + pool[p + 1..n];
    } else {
      assert Removed(pool, p) == pool[..n];
    }
  }

  lemma RemovedDistinct<T(!new)>(pool: seq<T>, p: nat)
    requires p < |pool| && Distinct(pool)
    ensures Distinct(Removed(pool, p))
  {
  }

  lemma {:induction false} Conserved<T>(pool: seq<T>, picks: seq<nat>)
    requires InRange(|pool|, picks)
    ensures multiset(Taken(pool, picks)) + multiset(Left(pool, picks)) == multiset(pool)
    decreases |picks|
  {
    if picks != [] {
      var n := |picks| - 1;
      Conserved(pool, picks[..n]);
      RemovedElements(Left(pool, picks[..n]), picks[n]);
    }
  }

  lemma {:induction false} LeftDistinct<T(!new)>(pool: seq<T>, picks: seq<nat>)
    requires InRange(|pool|, picks) && Distinct(pool)
    ensures Distinct(Left(pool, picks))
    decreases |picks|
  {
    if picks != [] {
      var n := |picks| - 1;
      LeftDistinct(pool, picks[..n]);
      RemovedDistinct(Left(pool, picks[..n]), picks[n]);
    }
  }

  /** A full sequence of picks takes out a permutation of the pool. */
  lemma TakesPermutation<T>(pool: seq<T>, picks: seq<nat>)
    requires InRange(|pool|, picks) && |picks| == |pool|
    ensures multiset(Taken(pool, picks)) == multiset(pool)
  {
    Conserved(pool, picks);
    assert Left(pool, picks) == [];
  }

  lemma OnePlace<T(!new)>(s: seq<T>, i: nat, j: nat)
    requires Distinct(s) && i < |s| && j < |s| && s[i] == s[j]
    ensures i == j
  {
  }

  /** One pick takes out the element at its position, and the last element of the pool moves there. */
  ghost predicate ShrinkStep<T(!new)>(before: seq<T>, after: seq<T>, pick: nat, x: T) {
    && pick < |before| && |after| == |before| - 1 && x == before[pick]
    && forall j :: 0 <= j < |after| ==> after[j] == if j == pick then before[|before| - 1] else before[j]
  }

  ghost predicate Shrinks<T(!new)>(pools: seq<seq<T>>, picks: seq<nat>, out: seq<T>) {
    && |pools| == |picks| + 1 && |out| == |picks|
    && forall i, next :: 0 <= i < |picks| && next == i + 1 ==> ShrinkStep(pools[i], pools[next], picks[i], out[i])
  }

  /** How the pool shrinks, pick by pick. */
  lemma {:induction false} TakenShrinks<T(!new)>(pool: seq<T>, picks: seq<nat>) returns (pools: seq<seq<T>>)
    requires InRange(|pool|, picks)
    ensures Shrinks(pools, picks, Taken(pool, picks)) && pools[0] == pool && pools[|picks|] == Left(pool, picks)
    decreases |picks|
  {
    if picks == [] {
      pools := [pool];
    } else {
      var n := |picks| - 1;
      var before := TakenShrinks(pool, picks[..n]);
      pools := before + [Left(pool, picks)];
      ShrinkStepOf(before[n], picks[n]);
      hide ShrinkStep, Removed;
      ShrinksMore(before, picks[..n], Taken(pool, picks[..n]), Left(pool, picks), picks[n], before[n][picks[n]]);
      assert picks == picks[..n] + [picks[n]];
    }
  }

  lemma ShrinkStepOf<T(!new)>(pool: seq<T>, p: nat)
    requires p < |pool|
    ensures ShrinkStep(pool, Removed(pool, p), p, pool[p])
  {
  }

  lemma ShrinksMore<T(!new)>(pools: seq<seq<T>>, picks: seq<nat>, out: seq<T>, last: seq<T>, p: nat, x: T)
    requires Shrinks(pools, picks, out) && ShrinkStep(pools[|picks|], last, p, x)
    ensures Shrinks(pools + [last], picks + [p], out + [x])
  {
    hide ShrinkStep;
  }

  /** Different picks take out different sequences. */
  lemma {:induction false} PicksInjective<T(!new)>(pool: seq<T>, p: seq<nat>, q: seq<nat>)
    requires Distinct(pool) && InRange(|pool|, p) && InRange(|pool|, q)
    requires Taken(pool, p) == Taken(pool, q)
    ensures p == q
    decreases |p|
  {
    hide Removed, Distinct;
    if p != [] {
      var n := |p| - 1;
      assert Taken(pool, p)[..n] == Taken(pool, p[..n]) && Taken(pool, q)[..n] == Taken(pool, q[..n]);
      PicksInjective(pool, p[..n], q[..n]);
      LeftDistinct(pool, p[..n]);
      assert Left(pool, p[..n])[p[n]] == Taken(pool, p)[n] && Left(pool, q[..n])[q[n]] == Taken(pool, q)[n];
      OnePlace(Left(pool, p[..n]), p[n], q[n]);
      assert p == p[..n] + [p[n]] && q == q[..n] + [q[n]];
    }
  }

  lemma NextIsLeft<T>(pool: seq<T>, picks: seq<nat>, out: seq<T>)
    requires multiset(out) == multiset(pool) && InRange(|pool|, picks) && |picks| < |out|
    requires Taken(pool, picks) == out[..|picks|]
    ensures out[|picks|] in Left(pool, picks)
  {
    hide Left, Taken;
    var n := |picks|;
    Conserved(pool, picks);
    assert out == out[..n] + [out[n]] + out[n + 1..];
    var t, rest := multiset(out[..n]), multiset{out[n]} + multiset(out[n + 1..]);
    assert multiset(out) == t + rest;
    assert multiset(Left(pool, picks)) == t + multiset(Left(pool, picks)) - t == t + rest - t == rest;
    assert out[n] in multiset(Left(pool, picks));
  }

  /** Every permutation of the pool is taken out by some picks. */
  lemma {:induction false} PicksSurjective<T>(pool: seq<T>, out: seq<T>, n: nat) returns (picks: seq<nat>)
    requires multiset(out) == multiset(pool) && n <= |out|
    ensures |picks| == n && InRange(|pool|, picks) && Taken(pool, picks) == out[..n]
  {
    hide Removed;
    SameSize(out, pool);
    picks := [];
    if n > 0 {
      picks := PicksSurjective(pool, out, n - 1);
      NextIsLeft(pool, picks, out);
      var p: nat :| p < |Left(pool, picks)| && Left(pool, picks)[p] == out[n - 1];
      var more := picks + [p];
      assert more[..n - 1] == picks;
      assert out[..n] == out[..n - 1] + [out[n - 1]];
      picks := more;
    }
  }

  lemma SameSize<T>(a: seq<T>, b: seq<T>)
    requires multiset(a) == multiset(b)
    ensures |a| == |b|
  {
    assert |a| == |multiset(a)| && |b| == |multiset(b)|;
  }

  function Identity(n: nat): (r: seq<nat>)
    ensures |r| == n && Distinct(r)
  {
    seq(n, i => i)
  }

  function Reversed<T>(s: seq<T>): (r: seq<T>)
    ensures |r| == |s| && forall i :: 0 <= i < |s| ==> r[i] == s[|s| - 1 - i]
  {
    seq(|s|, i requires 0 <= i < |s| => s[|s| - 1 - i])
  }

  // ------------------------------------------------------------------- the draws

  type Tape = t: seq<real> | forall i :: 0 <= i < |t| ==> 0.0 <= t[i] < 1.0

  /** A pick among `remaining`, clamped as in the program. */
  function Picked(u: real, remaining: nat): (p: nat)
    requires 0.0 <= u < 1.0 && remaining > 0
    ensures p < remaining
  {
    var p := (u * remaining as real).Floor;
    if p < 0 then 0 else if p >= remaining then remaining - 1 else p
  }

  /** The clamps never act. */
  lemma PickedUnclamped(u: real, remaining: nat)
    requires 0.0 <= u < 1.0 && remaining > 0
    ensures Picked(u, remaining) == (u * remaining as real).Floor
    ensures Picked(u, remaining) as real <= u * remaining as real < (Picked(u, remaining) + 1) as real
  {
    assert 0.0 <= u * remaining as real < remaining as real;
  }

  function BitAnd(a: nat, b: nat): nat {
    if a == 0 || b == 0 then 0 else 2 * BitAnd(a / 2, b / 2) + (a % 2) * (b % 2)
  }

  function Pow2(k: nat): (r: nat)
    ensures r > 0
  {
    if k == 0 then 1 else 2 * Pow2(k - 1)
  }

  /** A remainder that proofs can keep closed. */
  function Remainder(a: nat, m: nat): nat
    requires m > 0
  {
    a % m
  }

  lemma HalfMod(a: nat, m: nat, double: nat)
    requires m > 0 && double == 2 * m
    ensures Remainder(a, double) == 2 * Remainder(a / 2, m) + a % 2
  {
    var h := a / 2;
    var q, r := h / m, h % m;
    assert h == q * m + r;
    assert a == 2 * h + a % 2;
    assert q * double == 2 * (q * m);
    DivModUnique(a, double, q, 2 * r + a % 2);
  }

  lemma BitAndOdd(a: nat, h: nat, mask: nat)
    requires mask == 2 * h + 1
    ensures BitAnd(a, mask) == 2 * BitAnd(a / 2, h) + a % 2
  {
  }

  lemma {:induction false} MaskIsRemainder(a: nat, k: nat)
    ensures BitAnd(a, Pow2(k) - 1) == Remainder(a, Pow2(k))
  {
    if k > 0 {
      var m := Pow2(k - 1);
      assert Pow2(k) == 2 * m;
      MaskIsRemainder(a / 2, k - 1);
      hide BitAnd, Pow2, Remainder;
      MaskDoubles(a, m, Pow2(k));
    }
  }

  lemma MaskDoubles(a: nat, m: nat, double: nat)
    requires m > 0 && double == 2 * m && BitAnd(a / 2, m - 1) == Remainder(a / 2, m)
    ensures BitAnd(a, double - 1) == Remainder(a, double)
  {
    hide BitAnd, Remainder;
    HalfMod(a, m, double);
    BitAndOdd(a, m - 1, double - 1);
  }

  /** Masking with one less than a power of two is the remainder modulo that power. */
  lemma MaskIsMod(a: nat, k: nat)
    ensures BitAnd(a, Pow2(k) - 1) == a % Pow2(k)
  {
    hide BitAnd, Pow2;
    MaskIsRemainder(a, k);
  }

  /** One less than the least power of two that is no smaller than the pool. */
  ghost predicate MaskOk(mask: nat, remaining: nat) {
    exists k: nat :: mask == Pow2(k) - 1 && remaining <= Pow2(k) && forall j: nat :: remaining <= Pow2(j) ==> k <= j
  }

  method RejectionMask(remaining: nat) returns (mask: nat)
    requires remaining > 0
    ensures MaskOk(mask, remaining)
  {
    var power := 1;
    ghost var k := 0;
    while power < remaining
      invariant power == Pow2(k) && (k > 0 ==> Pow2(k - 1) < remaining)
      decreases remaining - power
    {
      power := power * 2;
      k := k + 1;
    }
    mask := power - 1;
    forall j: nat | remaining <= Pow2(j)
      ensures k <= j
    {
      if j < k {
        Pow2Grows(j, k - 1);
      }
    }
  }

  lemma {:induction false} Pow2Grows(j: nat, k: nat)
    requires j <= k
    ensures Pow2(j) <= Pow2(k)
  {
    if j < k {
      Pow2Grows(j, k - 1);
    }
  }

  const BITS: nat := 65536

  /** How many of the numbers below n the mask sends to v. */
  function Preimages(mask: nat, v: nat, n: nat): nat {
    if n == 0 then 0 else Preimages(mask, v, n - 1) + (if BitAnd(n - 1, mask) == v then 1 else 0)
  }

  lemma {:induction false} BlockPreimages(k: nat, v: nat, q: nat, r: nat)
    requires r <= Pow2(k) && v < Pow2(k)
    ensures Preimages(Pow2(k) - 1, v, q * Pow2(k) + r) == q + (if v < r then 1 else 0)
    decreases q, r
  {
    var m := Pow2(k);
    if r > 0 {
      BlockPreimages(k, v, q, r - 1);
      MaskIsMod(q * m + r - 1, k);
      DivModUnique(q * m + (r - 1), m, q, r - 1);
    } else if q > 0 {
      BlockPreimages(k, v, q - 1, m);
      assert q * m == (q - 1) * m + m;
    }
  }

  lemma {:induction false} Pow2Splits(k: nat, j: nat)
    requires k <= j
    ensures Pow2(j) == Pow2(j - k) * Pow2(k)
  {
    if j > k {
      Pow2Splits(k, j - 1);
    }
  }

  lemma SixteenBits()
    ensures Pow2(16) == BITS
  {
    assert Pow2(4) == 16;
    Pow2Splits(4, 8);
    Pow2Splits(8, 16);
  }

  /** Each acceptable index has the same number of 16-bit preimages: an accepted draw is uniform. */
  lemma EqualPreimages(k: nat, v: nat)
    requires k <= 16 && v < Pow2(k)
    ensures Preimages(Pow2(k) - 1, v, BITS) == Pow2(16 - k)
  {
    Pow2Splits(k, 16);
    SixteenBits();
    BlockPreimages(k, v, Pow2(16 - k), 0);
  }

  /** So with the mask of a pool no larger than 65536 every index of the pool has the same number of
      preimages, and at least one: rejection leaves the accepted index uniform. */
  lemma AcceptedUniform(mask: nat, remaining: nat) returns (share: nat)
    requires MaskOk(mask, remaining) && remaining <= BITS
    ensures share > 0 && forall v: nat :: v < remaining ==> Preimages(mask, v, BITS) == share
  {
    hide Preimages, Pow2;
    var k: nat :| mask == Pow2(k) - 1 && remaining <= Pow2(k) && forall j: nat :: remaining <= Pow2(j) ==> k <= j;
    assert Pow2(16) == BITS by { SixteenBits(); }
    assert k <= 16;
    share := Pow2(16 - k);
    forall v: nat | v < remaining
      ensures Preimages(mask, v, BITS) == share
    {
      EqualPreimages(k, v);
    }
  }

  function Bits(u: real): (b: nat)
    requires 0.0 <= u < 1.0
    ensures b < BITS
  {
    (u * 65536.0).Floor
  }

  /** The 16 bits of a draw: which of the 65536 equal parts of the unit interval it lies in. */
  ghost predicate InPart(u: real, b: nat) {
    b as real <= u * 65536.0 < (b + 1) as real
  }

  lemma BitsAre(u: real, b: nat)
    requires 0.0 <= u < 1.0
    ensures Bits(u) == b <==> InPart(u, b)
  {
  }

  lemma BitsMonotone(u: real, v: real)
    requires 0.0 <= u <= v < 1.0
    ensures Bits(u) <= Bits(v)
  {
    BitsAre(u, Bits(u));
    BitsAre(v, Bits(v));
  }

  /** Draw `at - 1` is the first from `from` on whose masked bits fall below the pool size. */
  ghost predicate FirstAccepted(tape: Tape, mask: nat, remaining: nat, from: nat, picked: nat, at: nat) {
    && from < at <= |tape| && picked == BitAnd(Bits(tape[at - 1]), mask) < remaining
    && forall i :: from <= i < at - 1 ==> BitAnd(Bits(tape[i]), mask) >= remaining
  }

  /** A draw's part modulo 2^k. */
  ghost predicate PartModulo(u: real, k: nat, r: nat) {
    exists b: nat :: InPart(u, b) && r == b % Pow2(k)
  }

  lemma PartModuloIs(u: real, k: nat, r: nat)
    requires 0.0 <= u < 1.0
    ensures PartModulo(u, k, r) <==> r == BitAnd(Bits(u), Pow2(k) - 1)
  {
    hide BitAnd, Pow2, Bits, InPart;
    MaskIsMod(Bits(u), k);
    BitsAre(u, Bits(u));
    forall b: nat | InPart(u, b)
      ensures b == Bits(u)
    {
      BitsAre(u, b);
    }
  }

  /** The first draw from `from` on whose part has a remainder modulo 2^k in the pool is draw `at - 1`, and
      this is its remainder. */
  ghost predicate FirstInPool(tape: Tape, k: nat, remaining: nat, from: nat, picked: nat, at: nat) {
    && from < at <= |tape| && picked < remaining && PartModulo(tape[at - 1], k, picked)
    && forall i, r: nat :: from <= i < at - 1 && PartModulo(tape[i], k, r) ==> r >= remaining
  }

  /** What masking k bits accepts. */
  lemma AcceptedMeans(tape: Tape, k: nat, remaining: nat, from: nat, picked: nat, at: nat)
    ensures FirstAccepted(tape, Pow2(k) - 1, remaining, from, picked, at) <==> FirstInPool(tape, k, remaining, from, picked, at)
  {
    hide BitAnd, Pow2, Bits, PartModulo;
    if from < at <= |tape| {
      PartModuloIs(tape[at - 1], k, picked);
      forall i, r: nat | from <= i < at
        ensures PartModulo(tape[i], k, r) <==> r == BitAnd(Bits(tape[i]), Pow2(k) - 1)
      {
        PartModuloIs(tape[i], k, r);
      }
      if FirstInPool(tape, k, remaining, from, picked, at) {
        forall i | from <= i < at - 1
          ensures BitAnd(Bits(tape[i]), Pow2(k) - 1) >= remaining
        {
          assert PartModulo(tape[i], k, BitAnd(Bits(tape[i]), Pow2(k) - 1));
        }
      }
    }
  }

  lemma AcceptedInPool(tape: Tape, mask: nat, remaining: nat, from: nat, picked: nat, at: nat)
    requires FirstAccepted(tape, mask, remaining, from, picked, at)
    ensures forall k: nat :: mask == Pow2(k) - 1 ==> FirstInPool(tape, k, remaining, from, picked, at)
  {
    hide FirstAccepted, FirstInPool, Pow2;
    forall k: nat | mask == Pow2(k) - 1
      ensures FirstInPool(tape, k, remaining, from, picked, at)
    {
      AcceptedMeans(tape, k, remaining, from, picked, at);
    }
  }

  /** No draw from here on is acceptable. */
  ghost predicate NoneAccepted(tape: Tape, mask: nat, remaining: nat, from: nat) {
    forall i :: from <= i < |tape| ==> BitAnd(Bits(tape[i]), mask) >= remaining
  }

  ghost predicate NoneInPool(tape: Tape, k: nat, remaining: nat, from: nat) {
    forall i, r: nat :: from <= i < |tape| && PartModulo(tape[i], k, r) ==> r >= remaining
  }

  lemma NoneMeans(tape: Tape, k: nat, remaining: nat, from: nat)
    ensures NoneAccepted(tape, Pow2(k) - 1, remaining, from) <==> NoneInPool(tape, k, remaining, from)
  {
    hide BitAnd, Pow2, Bits, PartModulo;
    forall i, r: nat | from <= i < |tape|
      ensures PartModulo(tape[i], k, r) <==> r == BitAnd(Bits(tape[i]), Pow2(k) - 1)
    {
      PartModuloIs(tape[i], k, r);
    }
    if NoneInPool(tape, k, remaining, from) {
      forall i | from <= i < |tape|
        ensures BitAnd(Bits(tape[i]), Pow2(k) - 1) >= remaining
      {
        assert PartModulo(tape[i], k, BitAnd(Bits(tape[i]), Pow2(k) - 1));
      }
    }
  }

  lemma NoneInAnyPool(tape: Tape, mask: nat, remaining: nat, from: nat)
    requires NoneAccepted(tape, mask, remaining, from)
    ensures forall k: nat :: mask == Pow2(k) - 1 ==> NoneInPool(tape, k, remaining, from)
  {
    hide NoneAccepted, NoneInPool, Pow2;
    forall k: nat | mask == Pow2(k) - 1
      ensures NoneInPool(tape, k, remaining, from)
    {
      NoneMeans(tape, k, remaining, from);
    }
  }

  /** Draws until the masked bits fall below the pool size, or the tape ends. */
  method UnifIndex(tape: Tape, start: nat, remaining: nat, mask: nat) returns (ok: bool, picked: nat, at: nat, rejected: nat)
    requires start <= |tape| && remaining > 0
    ensures start <= at <= |tape|
    ensures ok ==> FirstAccepted(tape, mask, remaining, start, picked, at) && at == start + rejected + 1 && picked < remaining
    ensures ok ==> forall k: nat :: mask == Pow2(k) - 1 ==> FirstInPool(tape, k, remaining, start, picked, at)
    ensures !ok ==> NoneAccepted(tape, mask, remaining, start) && at == start + rejected == |tape|
    ensures !ok ==> forall k: nat :: mask == Pow2(k) - 1 ==> NoneInPool(tape, k, remaining, start)
  {
    at, rejected, picked := start, 0, 0;
    while at < |tape|
      invariant start <= at <= |tape| && at == start + rejected
      invariant forall i :: start <= i < at ==> BitAnd(Bits(tape[i]), mask) >= remaining
    {
      picked := BitAnd(Bits(tape[at]), mask);
      at := at + 1;
      if picked < remaining {
        AcceptedInPool(tape, mask, remaining, start, picked, at);
        return true, picked, at, rejected;
      }
      rejected := rejected + 1;
    }
    NoneInAnyPool(tape, mask, remaining, start);
    ok := false;
  }

  // -------------------------------------------------------------------- the rows

  /** After some picks the row holds what is left, followed by what was taken, last first. */
  ghost predicate Swapped<T>(was: seq<T>, picks: seq<nat>, row: seq<T>) {
    && |row| == |was| && InRange(|was|, picks)
    && row[..|was| - |picks|] == Left(was, picks) && row[|was| - |picks|..] == Reversed(Taken(was, picks))
  }

  function Exchanged<T>(row: seq<T>, i: nat, j: nat): seq<T>
    requires i < |row| && j < |row|
  {
    row[i := row[j]][j := row[i]]
  }

  lemma ReversedPush<T>(s: seq<T>, x: T)
    ensures Reversed(s + [x]) == [x] + Reversed(s)
  {
  }

  lemma ExchangedParts<T>(row: seq<T>, n: nat, p: nat)
    requires p <= n < |row|
    ensures var next := Exchanged(row, p, n);
            |next| == |row| && next[..n] == Removed(row[..n + 1], p) && next[n..] == [row[p]] + row[n + 1..]
  {
  }

  /** Swapping the pick with the last element left takes it out and puts it behind. */
  lemma SwapStep<T>(was: seq<T>, picks: seq<nat>, picked: nat, row: seq<T>)
    requires Swapped(was, picks, row) && |picks| < |was| && picked < |was| - |picks|
    ensures Swapped(was, picks + [picked], Exchanged(row, picked, |was| - |picks| - 1))
  {
    hide Reversed, Removed, Exchanged;
    var n := |was| - |picks| - 1;
    assert (picks + [picked])[..|picks|] == picks;
    assert row[..n + 1] == Left(was, picks) && row[n + 1..] == Reversed(Taken(was, picks));
    ExchangedParts(row, n, picked);
    assert row[picked] == row[..n + 1][picked];
    ReversedPush(Taken(was, picks), row[picked]);
  }

  /** The one element left is where it belongs: its pick is forced. */
  lemma SwapLast<T>(was: seq<T>, picks: seq<nat>, row: seq<T>)
    requires Swapped(was, picks, row) && |picks| + 1 == |was|
    ensures InRange(|was|, picks + [0]) && row == Reversed(Taken(was, picks + [0]))
  {
    SwapStep(was, picks, 0, row);
    assert Exchanged(row, 0, 0) == row;
    assert row[0..] == row;
  }

  lemma SwapStart<T>(row: seq<T>)
    ensures Swapped(row, [], row)
  {
    assert row[..|row|] == row && row[|row|..] == [];
  }

  /** Each pick is drawn from its own draw. */
  ghost predicate Drawn(tape: Tape, start: nat, n: nat, picks: seq<nat>) {
    |picks| <= n && start + |picks| <= |tape|
    && forall i :: 0 <= i < |picks| ==> picks[i] == Picked(tape[start + i], n - i)
  }

  /** One replicate of the distance-covariance test: swaps through the carried row with n - 1 draws. */
  method SwapRow(row: array<nat>, tape: Tape, start: nat) returns (ok: bool, at: nat, ghost picks: seq<nat>)
    requires start <= |tape| && row.Length >= 2
    modifies row
    ensures ok <==> start + row.Length - 1 <= |tape|
    ensures start <= at <= |tape| && (ok ==> at == start + row.Length - 1)
    ensures ok ==> |picks| == row.Length - 1 && Drawn(tape, start, row.Length, picks)
    ensures ok ==> InRange(row.Length, picks + [0]) && row[..] == Reversed(Taken(old(row[..]), picks + [0]))
  {
    hide Swapped, Picked;
    at, picks, ok := start, [], true;
    var remaining := row.Length;
    SwapStart(row[..]);
    for index := 0 to row.Length - 1
      invariant remaining == row.Length - index && at == start + index <= |tape| && |picks| == index
      invariant Drawn(tape, start, row.Length, picks) && Swapped(old(row[..]), picks, row[..])
    {
      if at == |tape| {
        return false, at, picks;
      }
      var picked := Picked(tape[at], remaining);
      at := at + 1;
      remaining := remaining - 1;
      SwapStep(old(row[..]), picks, picked, row[..]);
      ghost var before := row[..];
      row[picked], row[remaining] := row[remaining], row[picked];
      assert row[..] == Exchanged(before, picked, remaining);
      picks := picks + [picked];
    }
    SwapLast(old(row[..]), picks, row[..]);
  }

  /** The rows of the carried permutation: for a fixed incoming row, the n - 1 picks and the outgoing
      rows correspond one to one, and the outgoing rows are exactly the permutations. */
  lemma SwapRowsInjective<T(!new)>(row: seq<T>, p: seq<nat>, q: seq<nat>)
    requires Distinct(row) && |p| + 1 == |row| == |q| + 1 && InRange(|row|, p + [0]) && InRange(|row|, q + [0])
    requires Reversed(Taken(row, p + [0])) == Reversed(Taken(row, q + [0]))
    ensures p == q
  {
    hide Taken, Left;
    UnReverse(Taken(row, p + [0]), Taken(row, q + [0]));
    PicksInjective(row, p + [0], q + [0]);
    assert (p + [0])[..|p|] == p && (q + [0])[..|q|] == q;
  }

  lemma UnReverse<T>(a: seq<T>, b: seq<T>)
    requires Reversed(a) == Reversed(b)
    ensures a == b
  {
    assert |a| == |Reversed(a)| && |b| == |Reversed(b)|;
    forall i | 0 <= i < |a|
      ensures a[i] == b[i]
    {
      assert a[i] == Reversed(a)[|a| - 1 - i];
    }
  }

  lemma {:induction false} ReversedElements<T>(s: seq<T>)
    ensures multiset(Reversed(s)) == multiset(s)
  {
    if s != [] {
      var n := |s| - 1;
      ReversedElements(s[..n]);
      assert Reversed(s) == [s[n]] + Reversed(s[..n]);
      assert s == s[..n] + [s[n]];
    } else {
      assert Reversed(s) == s;
    }
  }

  lemma SwapRowPermutes<T>(row: seq<T>, picks: seq<nat>)
    requires |picks| + 1 == |row| && InRange(|row|, picks + [0])
    ensures multiset(Reversed(Taken(row, picks + [0]))) == multiset(row)
  {
    TakesPermutation(row, picks + [0]);
    ReversedElements(Taken(row, picks + [0]));
  }

  lemma SwapRowsSurjective<T>(row: seq<T>, out: seq<T>) returns (picks: seq<nat>)
    requires multiset(out) == multiset(row) && |row| >= 1
    ensures |picks| + 1 == |row| && InRange(|row|, picks + [0]) && Reversed(Taken(row, picks + [0])) == out
  {
    hide Taken, Left;
    ReversedElements(out);
    SameSize(out, row);
    var all := PicksSurjective(row, Reversed(out), |row|);
    picks := all[..|row| - 1];
    assert all == picks + [0];
    assert Reversed(out)[..|row|] == Reversed(out);
    assert Reversed(Reversed(out)) == out;
  }

  // -------------------------------------------------------- drawing from a shrinking pool

  /** The masks for every pool size up to n. */
  ghost predicate MasksOk(masks: seq<nat>, n: nat) {
    |masks| == n + 1 && forall r :: 0 < r <= n ==> MaskOk(masks[r], r)
  }

  method RejectionMasks(n: nat) returns (masks: seq<nat>)
    ensures MasksOk(masks, n)
  {
    hide MaskOk;
    masks := [0];
    for r := 1 to n + 1
      invariant |masks| == r && forall q :: 0 < q < r ==> MaskOk(masks[q], q)
    {
      var mask := RejectionMask(r);
      masks := masks + [mask];
    }
  }

  function From(start: nat, ends: seq<nat>, i: nat): nat
    requires i <= |ends|
  {
    if i == 0 then start else ends[i - 1]
  }

  /** The i-th pick is the first acceptable masked draw after the (i-1)-th. */
  ghost predicate Accepted(tape: Tape, masks: seq<nat>, n: nat, start: nat, picks: seq<nat>, ends: seq<nat>) {
    |picks| == |ends| <= n && |masks| == n + 1
    && forall i :: 0 <= i < |picks| ==> FirstAccepted(tape, masks[n - i], n - i, From(start, ends, i), picks[i], ends[i])
  }

  lemma RemovedInPlace<T>(pool: seq<T>, n: nat, p: nat)
    requires p <= n < |pool|
    ensures pool[p := pool[n]][..n] == Removed(pool[..n + 1], p)
  {
    var left, right := pool[p := pool[n]][..n], Removed(pool[..n + 1], p);
    assert forall i :: 0 <= i < n ==> left[i] == right[i];
  }

  lemma PoolStep<T>(was: seq<T>, picks: seq<nat>, picked: nat, pool: seq<T>)
    requires InRange(|was|, picks) && |picks| < |was| == |pool| && picked < |was| - |picks|
    requires pool[..|was| - |picks|] == Left(was, picks)
    ensures InRange(|was|, picks + [picked])
    ensures var n := |was| - |picks| - 1;
            pool[picked := pool[n]][..n] == Left(was, picks + [picked])
            && Taken(was, picks + [picked]) == Taken(was, picks) + [pool[picked]]
  {
    hide Removed;
    assert (picks + [picked])[..|picks|] == picks;
    var n := |was| - |picks| - 1;
    assert pool[picked] == pool[..n + 1][picked];
    RemovedInPlace(pool, n, picked);
  }

  /** One replicate drawn by shrinking a fresh pool. Draws are indices plus rejections. */
  method PoolRow(n: nat, masks: seq<nat>, tape: Tape, start: nat)
    returns (ok: bool, output: seq<nat>, at: nat, rejected: nat)
    requires start <= |tape| && |masks| == n + 1
    ensures start <= at == start + |output| + rejected <= |tape|
    ensures ok ==> RowDrawn(n, masks, tape, start, at, output) && |output| == n && Permutes(output, n)
    ensures !ok ==> RowStuck(n, masks, tape, start, output) && at == |tape|
  {
    hide Left, Taken, FirstAccepted, NoneAccepted, Accepted, InRange, RowDrawn, RowStuck, Permutes;
    var pool := new nat[n](i => i);
    assert pool[..] == Identity(n);
    ghost var picks: seq<nat>, ends: seq<nat> := [], [];
    at, rejected, output := start, 0, [];
    PoolStart(Identity(n));
    AcceptStart(tape, masks, n, start);
    hide Identity;
    for index := 0 to n
      invariant fresh(pool)
      invariant |picks| == index && InRange(n, picks) && start <= at <= |tape| && at == start + index + rejected
      invariant pool[..][..n - index] == Left(Identity(n), picks) && output == Taken(Identity(n), picks)
      invariant |ends| == index && Accepted(tape, masks, n, start, picks, ends) && at == From(start, ends, index)
    {
      var remaining := n - index;
      var fine, picked, next, misses := UnifIndex(tape, at, remaining, masks[remaining]);
      if !fine {
        StuckHere(n, masks, tape, start, picks, ends);
        return false, output, next, rejected + misses;
      }
      PoolStep(Identity(n), picks, picked, pool[..]);
      AcceptStep(tape, masks, n, start, picks, ends, picked, next);
      ghost var before := pool[..];
      output := output + [pool[picked]];
      pool[picked] := pool[remaining - 1];
      assert pool[..] == before[picked := before[remaining - 1]];
      picks, ends, at, rejected := picks + [picked], ends + [next], next, rejected + misses;
    }
    DrawnHere(n, masks, tape, start, picks, ends);
    PoolRowPermutes(n, picks, output);
    ok := true;
  }

  lemma PoolStart<T>(pool: seq<T>)
    ensures Left(pool, []) == pool == pool[..|pool|] && Taken(pool, []) == []
  {
  }

  lemma AcceptStart(tape: Tape, masks: seq<nat>, n: nat, start: nat)
    requires |masks| == n + 1
    ensures Accepted(tape, masks, n, start, [], []) && InRange(n, [])
  {
  }

  lemma AcceptStep(tape: Tape, masks: seq<nat>, n: nat, start: nat, picks: seq<nat>, ends: seq<nat>, picked: nat, next: nat)
    requires Accepted(tape, masks, n, start, picks, ends) && |picks| < n
    requires FirstAccepted(tape, masks[n - |picks|], n - |picks|, From(start, ends, |picks|), picked, next)
    ensures Accepted(tape, masks, n, start, picks + [picked], ends + [next])
  {
    hide FirstAccepted;
    var p, e := picks + [picked], ends + [next];
    forall i | 0 <= i < |p|
      ensures FirstAccepted(tape, masks[n - i], n - i, From(start, e, i), p[i], e[i])
    {
      assert From(start, e, i) == From(start, ends, i);
      if i < |picks| {
        assert FirstAccepted(tape, masks[n - i], n - i, From(start, ends, i), picks[i], ends[i]);
      }
    }
  }

  // ------------------------------------------------------------------------ the table

  datatype Artifact = Artifact(values: seq<nat>, digested: seq<nat>, valid: bool)

  /** Rows are committed one behind the other; the running digest has seen exactly what is committed,
      unless hashing failed, which is kept for the sealing to report. */
  class TableBuilder {
    var values: seq<nat>
    var committed: nat
    var active: bool
    var failed: bool
    ghost var digested: seq<nat>

    ghost predicate Valid()
      reads this
    {
      committed <= |values| && (active && !failed ==> digested == values[..committed])
    }

    constructor ()
      ensures Valid() && !active
    {
      values, committed, active, failed, digested := [], 0, false, false, [];
    }

    /** Starting the digest may fail. */
    method Reset(size: nat)
      modifies this
      ensures Valid() && active && committed == 0 && |values| == size
    {
      values := if size <= |values| then values[..size] else values + seq(size - |values|, _ => 0);
      committed, active, failed, digested := 0, true, false, [];
      if * {
        failed := true;
      }
    }

    /** Hashing the row may fail; the row is committed even so. */
    method AppendRow(row: seq<nat>) returns (ok: bool)
      requires Valid()
      modifies this
      ensures Valid() && active == old(active) && |values| == old(|values|) && (old(failed) ==> failed)
      ensures ok == (old(active) && |row| <= old(|values| - committed))
      ensures ok ==> committed == old(committed) + |row| && values[..committed] == old(values[..committed]) + row
      ensures !ok ==> values == old(values) && committed == old(committed) && failed == old(failed)
    {
      ok := active && |row| <= |values| - committed;
      if ok {
        values := values[..committed] + row + values[committed + |row|..];
        if * {
          failed := true;
        }
        digested := digested + row;
        committed := committed + |row|;
      }
    }

    /** Sealing needs a complete, nonempty table, and attests to what the table holds. An earlier failure
        of the digest surfaces here: the builder is closed and there is no artifact. */
    method Seal() returns (ok: bool, ghost artifact: Artifact)
      requires Valid()
      modifies this
      ensures var complete := old(active) && old(committed) == |old(values)| && old(values) != [];
              Valid() && active == (old(active) && !complete) && ok == (complete && !old(failed))
      ensures ok ==> artifact == Artifact(old(values), old(values), true)
      ensures !ok ==> values == old(values) && committed == old(committed) && failed == old(failed)
    {
      var complete := active && committed == |values| && values != [];
      ok := complete && !failed;
      artifact := Artifact(values, digested, ok);
      if complete {
        assert values[..committed] == values;
        active := false;
      }
      if ok {
        values, committed := [], 0;
      }
    }

    /** Takes a sealed table's storage back; the artifact is void afterwards. */
    method Reclaim(artifact: Artifact) returns (ok: bool, after: Artifact)
      requires Valid()
      modifies this
      ensures Valid() && active == old(active)
      ensures ok == (!old(active) && artifact.valid)
      ensures ok ==> !after.valid && values == artifact.values && committed == 0
      ensures !ok ==> after == artifact && values == old(values) && committed == old(committed)
    {
      ok, after := !active && artifact.valid, artifact;
      if ok {
        values, committed, after := artifact.values, 0, Artifact([], [], false);
      }
    }
  }

  function Flat(rows: seq<seq<nat>>): seq<nat> {
    if rows == [] then [] else Flat(rows[..|rows| - 1]) + rows[|rows| - 1]
  }

  lemma FlatLast(rows: seq<seq<nat>>, row: seq<nat>)
    ensures Flat(rows + [row]) == Flat(rows) + row
  {
    assert (rows + [row])[..|rows|] == rows;
  }

  ghost predicate Permutes(row: seq<nat>, n: nat) {
    multiset(row) == multiset(Identity(n))
  }

  /** The row is what the draws from this place of the tape make of the row before: each draw is one pick. */
  ghost predicate Follows(tape: Tape, at: nat, before: seq<nat>, row: seq<nat>) {
    exists picks: seq<nat> ::
      && |picks| + 1 == |before| && Drawn(tape, at, |before|, picks)
      && InRange(|before|, picks + [0]) && row == Reversed(Taken(before, picks + [0]))
  }

  lemma PermutesSize(row: seq<nat>, n: nat)
    requires Permutes(row, n)
    ensures |row| == n
  {
    SameSize(row, Identity(n));
  }

  /** The row before row k of a pair: the identity, or the previous replicate. */
  function Before(rows: seq<seq<nat>>, k: nat, replicates: nat, n: nat): seq<nat>
    requires k < |rows| && replicates > 0
  {
    if k % replicates == 0 then Identity(n) else rows[k - 1]
  }

  ghost predicate RowsOk(rows: seq<seq<nat>>, n: nat) {
    forall k :: 0 <= k < |rows| ==> Permutes(rows[k], n)
  }

  /** How many draws k rows take. */
  function Draws(k: nat, n: nat): nat
    requires n > 0
  {
    k * (n - 1)
  }

  /** Row k is drawn from the row before it by the k-th n - 1 draws of the tape. */
  ghost predicate Carried(tape: Tape, rows: seq<seq<nat>>, replicates: nat, n: nat)
    requires replicates > 0 && n > 0
  {
    forall k :: 0 <= k < |rows| ==> Follows(tape, Draws(k, n), Before(rows, k, replicates, n), rows[k])
  }

  lemma AddRow(rows: seq<seq<nat>>, row: seq<nat>, n: nat)
    requires RowsOk(rows, n) && Permutes(row, n)
    ensures RowsOk(rows + [row], n)
  {
    hide Permutes;
  }

  lemma AddCarried(tape: Tape, rows: seq<seq<nat>>, row: seq<nat>, replicates: nat, n: nat)
    requires replicates > 0 && n > 0 && Carried(tape, rows, replicates, n)
    requires Follows(tape, Draws(|rows|, n), if |rows| % replicates == 0 then Identity(n) else rows[|rows| - 1], row)
    ensures Carried(tape, rows + [row], replicates, n)
  {
    hide Follows, Identity, Draws;
    var more := rows + [row];
    forall k | 0 <= k < |more|
      ensures Follows(tape, Draws(k, n), Before(more, k, replicates, n), more[k])
    {
      if k < |rows| {
        assert Follows(tape, Draws(k, n), Before(rows, k, replicates, n), rows[k]);
      }
    }
  }

  ghost predicate Filled(table: TableBuilder, rows: seq<seq<nat>>, n: nat, total: nat, done: nat)
    reads table
  {
    && table.Valid() && table.active && |table.values| == total * n
    && |rows| == done && table.committed == done * n && table.values[..table.committed] == Flat(rows)
  }

  ghost predicate CarriedSoFar(table: TableBuilder, tape: Tape, rows: seq<seq<nat>>, n: nat, pairs: nat, replicates: nat)
    requires n >= 2 && replicates > 0
    reads table
  {
    Filled(table, rows, n, pairs * replicates, |rows|) && RowsOk(rows, n) && Carried(tape, rows, replicates, n)
  }

  /** `done` rows precede this replicate of this pair. */
  ghost predicate Position(done: nat, pair: nat, replicate: nat, replicates: nat) {
    done == pair * replicates + replicate
  }

  lemma NextPosition(done: nat, pair: nat, replicate: nat, replicates: nat)
    requires Position(done, pair, replicate, replicates)
    ensures Position(done + 1, pair, replicate + 1, replicates)
    ensures replicate == replicates ==> Position(done, pair + 1, 0, replicates)
  {
  }

  /** One replicate: shuffle the carried row in place and append it. It fails exactly if the tape holds too
      few draws, and then appends nothing. */
  method CarriedRow(row: array<nat>, n: nat, table: TableBuilder, tape: Tape, start: nat, ghost rows: seq<seq<nat>>,
                    ghost pairs: nat, ghost replicates: nat, ghost pair: nat, ghost replicate: nat)
    returns (ok: bool, at: nat)
    requires n >= 2 && pair < pairs && replicate < replicates && row.Length == n && start == Draws(|rows|, n) <= |tape|
    requires CarriedSoFar(table, tape, rows, n, pairs, replicates) && Position(|rows|, pair, replicate, replicates)
    requires Permutes(row[..], n) && row[..] == if replicate == 0 then Identity(n) else rows[|rows| - 1]
    modifies row, table
    ensures table.Valid() && (ok <==> Draws(|rows| + 1, n) <= |tape|) && |rows| < pairs * replicates
    ensures ok ==> CarriedSoFar(table, tape, rows + [row[..]], n, pairs, replicates) && at == Draws(|rows| + 1, n) <= |tape|
    ensures ok ==> Permutes(row[..], n)
    ensures !ok ==> CarriedSoFar(table, tape, rows, n, pairs, replicates)
  {
    hide Permutes, Follows, Carried, RowsOk, Flat, Drawn, Draws;
    ghost var before := row[..];
    ghost var picks;
    PairRow(|rows|, pair, replicate, pairs, replicates, n);
    ok, at, picks := SwapRow(row, tape, start);
    if ok {
      RowFollows(tape, start, before, picks, row[..], n);
      var fits := table.AppendRow(row[..]);
      AddRow(rows, row[..], n);
      AddCarried(tape, rows, row[..], replicates, n);
      FlatLast(rows, row[..]);
    }
  }

  ghost predicate CarriedUpTo(table: TableBuilder, tape: Tape, rows: seq<seq<nat>>, n: nat, pairs: nat, replicates: nat,
                              at: nat, pair: nat, replicate: nat)
    requires n >= 2 && replicates > 0
    reads table
  {
    && table.Valid() && CarriedSoFar(table, tape, rows, n, pairs, replicates) && Position(|rows|, pair, replicate, replicates)
    && at == Draws(|rows|, n) <= |tape|
  }

  /** The tape ended within the row after these. */
  ghost predicate Stopped(table: TableBuilder, tape: Tape, rows: seq<seq<nat>>, n: nat, pairs: nat, replicates: nat)
    requires n >= 2 && replicates > 0
    reads table
  {
    && CarriedSoFar(table, tape, rows, n, pairs, replicates) && |rows| < pairs * replicates
    && Draws(|rows|, n) <= |tape| < Draws(|rows| + 1, n)
  }

  /** One pair: all its replicates, starting over from the identity. */
  method CarriedPair(row: array<nat>, n: nat, table: TableBuilder, tape: Tape, start: nat, ghost before: seq<seq<nat>>,
                     ghost pairs: nat, replicates: nat, ghost pair: nat)
    returns (ok: bool, at: nat, ghost rows: seq<seq<nat>>)
    requires n >= 2 && replicates >= 1 && pair < pairs && row.Length == n
    requires CarriedUpTo(table, tape, before, n, pairs, replicates, start, pair, 0)
    modifies row, table
    ensures table.Valid()
    ensures ok ==> CarriedUpTo(table, tape, rows, n, pairs, replicates, at, pair + 1, 0)
    ensures !ok ==> Stopped(table, tape, rows, n, pairs, replicates)
  {
    hide CarriedSoFar, Permutes, Identity, Position, Draws;
    Restart(row);
    ok, at, rows := true, start, before;
    for replicate := 0 to replicates
      invariant CarriedUpTo(table, tape, rows, n, pairs, replicates, at, pair, replicate)
      invariant Permutes(row[..], n) && (replicate > 0 ==> rows != [])
      invariant row[..] == if replicate == 0 then Identity(n) else rows[|rows| - 1]
    {
      NextPosition(|rows|, pair, replicate, replicates);
      ok, at := CarriedRow(row, n, table, tape, at, rows, pairs, replicates, pair, replicate);
      if !ok {
        return;
      }
      rows := rows + [row[..]];
    }
    NextPosition(|rows|, pair, replicates, replicates);
  }

  method CarriedPairs(row: array<nat>, n: nat, pairs: nat, replicates: nat, table: TableBuilder, tape: Tape)
    returns (ok: bool, at: nat, ghost rows: seq<seq<nat>>)
    requires n >= 2 && replicates >= 1 && row.Length == n && CarriedUpTo(table, tape, [], n, pairs, replicates, 0, 0, 0)
    modifies row, table
    ensures table.Valid()
    ensures ok ==> CarriedUpTo(table, tape, rows, n, pairs, replicates, at, pairs, 0)
    ensures !ok ==> Stopped(table, tape, rows, n, pairs, replicates)
  {
    at, rows, ok := 0, [], true;
    assert table.Valid();
    hide CarriedUpTo, Stopped;
    for pair := 0 to pairs
      invariant table.Valid() && CarriedUpTo(table, tape, rows, n, pairs, replicates, at, pair, 0)
    {
      ok, at, rows := CarriedPair(row, n, table, tape, at, rows, pairs, replicates, pair);
      if !ok {
        return;
      }
    }
  }

  /** The table of the distance-covariance permutation test: within a pair each row is drawn from the one
      before, with n - 1 draws. It fails exactly if the tape is too short, behind the rows it could draw. */
  method CarriedTable(n: nat, pairs: nat, replicates: nat, table: TableBuilder, tape: Tape)
    returns (ok: bool, at: nat, ghost rows: seq<seq<nat>>)
    requires n >= 2 && pairs >= 1 && replicates >= 1 && table.Valid()
    modifies table
    ensures table.Valid() && (ok <==> Draws(pairs * replicates, n) <= |tape|)
    ensures Filled(table, rows, n, pairs * replicates, |rows|) && RowsOk(rows, n) && Carried(tape, rows, replicates, n)
    ensures ok ==> |rows| == pairs * replicates && table.values == Flat(rows) && at == Draws(|rows|, n)
    ensures !ok ==> |rows| < pairs * replicates && Draws(|rows|, n) <= |tape| < Draws(|rows| + 1, n)
  {
    table.Reset(pairs * replicates * n);
    var row := new nat[n];
    NothingCarried(table, tape, n, pairs, replicates);
    hide CarriedUpTo, Stopped, Filled, Carried, RowsOk, Flat, Draws;
    ok, at, rows := CarriedPairs(row, n, pairs, replicates, table, tape);
    if ok {
      TableFull(table, tape, rows, n, pairs, replicates, at);
    } else {
      TableStopped(table, tape, rows, n, pairs, replicates);
    }
  }

  lemma NothingCarried(table: TableBuilder, tape: Tape, n: nat, pairs: nat, replicates: nat)
    requires n >= 2 && replicates > 0 && table.Valid() && table.active && table.committed == 0
    requires |table.values| == pairs * replicates * n
    ensures CarriedUpTo(table, tape, [], n, pairs, replicates, 0, 0, 0)
  {
  }

  method Restart(row: array<nat>)
    modifies row
    ensures row[..] == Identity(row.Length) && Permutes(row[..], row.Length)
  {
    forall i | 0 <= i < row.Length {
      row[i] := i;
    }
    assert row[..] == Identity(row.Length);
  }

  lemma TableFull(table: TableBuilder, tape: Tape, rows: seq<seq<nat>>, n: nat, pairs: nat, replicates: nat, at: nat)
    requires n >= 2 && replicates > 0 && CarriedUpTo(table, tape, rows, n, pairs, replicates, at, pairs, 0)
    ensures table.values == Flat(rows) && |rows| == pairs * replicates && at == Draws(|rows|, n) <= |tape|
    ensures Filled(table, rows, n, pairs * replicates, |rows|) && RowsOk(rows, n) && Carried(tape, rows, replicates, n)
  {
    assert table.values[..table.committed] == table.values;
  }

  lemma TableStopped(table: TableBuilder, tape: Tape, rows: seq<seq<nat>>, n: nat, pairs: nat, replicates: nat)
    requires n >= 2 && replicates > 0 && Stopped(table, tape, rows, n, pairs, replicates)
    ensures Draws(pairs * replicates, n) > |tape| && |rows| < pairs * replicates
    ensures Filled(table, rows, n, pairs * replicates, |rows|) && RowsOk(rows, n) && Carried(tape, rows, replicates, n)
    ensures Draws(|rows|, n) <= |tape| < Draws(|rows| + 1, n)
  {
    hide Carried, RowsOk, Flat;
    MulMonotone(|rows| + 1, pairs * replicates, n - 1);
  }

  lemma RowFollows(tape: Tape, at: nat, before: seq<nat>, picks: seq<nat>, row: seq<nat>, n: nat)
    requires |picks| + 1 == |before| && InRange(|before|, picks + [0]) && row == Reversed(Taken(before, picks + [0]))
    requires Drawn(tape, at, |before|, picks) && Permutes(before, n)
    ensures Follows(tape, at, before, row) && Permutes(row, n) && |row| == n
  {
    SwapRowPermutes(before, picks);
    PermutesSize(row, n);
  }

  lemma FollowsOnce(tape: Tape, at: nat, before: seq<nat>, row: seq<nat>, other: seq<nat>)
    requires Follows(tape, at, before, row) && Follows(tape, at, before, other)
    ensures row == other
  {
    hide Taken, Picked;
    var p: seq<nat> :| |p| + 1 == |before| && Drawn(tape, at, |before|, p)
      && InRange(|before|, p + [0]) && row == Reversed(Taken(before, p + [0]));
    var q: seq<nat> :| |q| + 1 == |before| && Drawn(tape, at, |before|, q)
      && InRange(|before|, q + [0]) && other == Reversed(Taken(before, q + [0]));
    assert p == q;
  }

  /** The tape determines the carried rows. */
  lemma {:induction false} CarriedOnce(tape: Tape, rows: seq<seq<nat>>, other: seq<seq<nat>>, replicates: nat, n: nat, k: nat)
    requires replicates > 0 && n > 0 && Carried(tape, rows, replicates, n) && Carried(tape, other, replicates, n)
    requires k < |rows| && k < |other|
    ensures rows[k] == other[k]
  {
    hide Follows, Identity, Draws;
    if k > 0 {
      CarriedOnce(tape, rows, other, replicates, n, k - 1);
    }
    assert Follows(tape, Draws(k, n), Before(rows, k, replicates, n), rows[k]);
    FollowsOnce(tape, Draws(k, n), Before(rows, k, replicates, n), rows[k], other[k]);
  }

  lemma FollowsShifted(tape: Tape, from: nat, at: nat, before: seq<nat>, row: seq<nat>)
    requires from <= |tape| && Follows(tape, from + at, before, row)
    ensures Follows(tape[from..], at, before, row)
  {
    hide Taken, Picked, InRange;
    var picks: seq<nat> :| |picks| + 1 == |before| && Drawn(tape, from + at, |before|, picks)
      && InRange(|before|, picks + [0]) && row == Reversed(Taken(before, picks + [0]));
    assert Drawn(tape[from..], at, |before|, picks);
  }

  lemma DrawsAdd(j: nat, k: nat, n: nat)
    requires n > 0
    ensures Draws(j + k, n) == Draws(j, n) + Draws(k, n)
  {
  }

  lemma BeforeShifted(rows: seq<seq<nat>>, first: nat, own: seq<seq<nat>>, k: nat, replicates: nat, n: nat)
    requires replicates > 0 && first % replicates == 0 && k < |own| <= replicates && first + |own| <= |rows|
    requires own == rows[first..first + |own|]
    ensures Before(rows, first + k, replicates, n) == Before(own, k, replicates, n)
  {
    hide Identity;
    DivModUnique(first + k, replicates, first / replicates, k);
    DivModUnique(k, replicates, 0, k);
  }

  lemma FollowsInPair(tape: Tape, rows: seq<seq<nat>>, replicates: nat, n: nat, first: nat, own: seq<seq<nat>>, from: nat, k: nat)
    requires replicates > 0 && n > 0 && Carried(tape, rows, replicates, n) && from == Draws(first, n) <= |tape|
    requires first % replicates == 0 && k < |own| <= replicates && first + |own| <= |rows| && own == rows[first..first + |own|]
    ensures Follows(tape[from..], Draws(k, n), Before(own, k, replicates, n), own[k])
  {
    hide Follows, Before, Draws;
    assert Follows(tape, Draws(first + k, n), Before(rows, first + k, replicates, n), rows[first + k]);
    BeforeShifted(rows, first, own, k, replicates, n);
    DrawsAdd(first, k, n);
    FollowsShifted(tape, from, Draws(k, n), Before(own, k, replicates, n), own[k]);
  }

  /** Pairs do not share a permutation: the rows of a pair are those of a table of this pair alone, drawn
      from where its draws begin on the tape. */
  lemma PairAlone(tape: Tape, rest: Tape, rows: seq<seq<nat>>, replicates: nat, n: nat, first: nat, own: seq<seq<nat>>)
    requires replicates > 0 && n > 0 && Carried(tape, rows, replicates, n)
    requires Draws(first, n) <= |tape| && rest == tape[Draws(first, n)..]
    requires first % replicates == 0 && |own| <= replicates && first + |own| <= |rows| && own == rows[first..first + |own|]
    ensures Carried(rest, own, replicates, n)
  {
    hide Follows, Before, Draws;
    forall k | 0 <= k < |own|
      ensures Follows(rest, Draws(k, n), Before(own, k, replicates, n), own[k])
    {
      FollowsInPair(tape, rows, replicates, n, first, own, Draws(first, n), k);
    }
  }

  /** Row arithmetic: the row fits behind the committed ones, and starts a pair exactly at replicate 0. */
  lemma PairRow(done: nat, pair: nat, replicate: nat, pairs: nat, replicates: nat, n: nat)
    requires n > 0 && pair < pairs && replicate < replicates && Position(done, pair, replicate, replicates)
    ensures done < pairs * replicates && done * n + n <= pairs * replicates * n && (done + 1) * n == done * n + n
            && Draws(done + 1, n) == Draws(done, n) + (n - 1) && done % replicates == replicate
  {
    MulMonotone(pair + 1, pairs, replicates);
    assert (pair + 1) * replicates == pair * replicates + replicates;
    MulMonotone(done + 1, pairs * replicates, n);
    DivModUnique(done, replicates, pair, replicate);
  }

  /** The row takes the accepted indices of the draws between two places of the tape, in turn, out of a
      fresh pool. */
  ghost predicate RowDrawn(n: nat, masks: seq<nat>, tape: Tape, start: nat, end: nat, row: seq<nat>) {
    exists picks: seq<nat>, ends: seq<nat> ::
      && |picks| == |ends| == n && InRange(n, picks) && row == Taken(Identity(n), picks)
      && Accepted(tape, masks, n, start, picks, ends) && end == From(start, ends, n)
  }

  /** Row after row, the draws of the tape from its beginning. */
  ghost predicate RowsDrawn(n: nat, masks: seq<nat>, tape: Tape, rows: seq<seq<nat>>, starts: seq<nat>) {
    && |starts| == |rows| + 1 && starts[0] == 0
    && forall k :: 0 <= k < |rows| ==> RowDrawn(n, masks, tape, starts[k], starts[k + 1], rows[k])
  }

  /** After the picks of this part of a row no further draw is acceptable. */
  ghost predicate RowStuck(n: nat, masks: seq<nat>, tape: Tape, start: nat, part: seq<nat>) {
    exists picks: seq<nat>, ends: seq<nat> ::
      && |picks| == |ends| < n && InRange(n, picks) && part == Taken(Identity(n), picks)
      && Accepted(tape, masks, n, start, picks, ends)
      && NoneAccepted(tape, masks[n - |picks|], n - |picks|, From(start, ends, |picks|))
  }

  lemma FirstOnce(tape: Tape, mask: nat, remaining: nat, from: nat, p: nat, at: nat, q: nat, end: nat)
    requires FirstAccepted(tape, mask, remaining, from, p, at) && FirstAccepted(tape, mask, remaining, from, q, end)
    ensures p == q && at == end && !NoneAccepted(tape, mask, remaining, from)
  {
    hide BitAnd, Bits;
    assert from <= at - 1 < |tape| && from <= end - 1 < |tape|;
  }

  lemma {:induction false} AcceptedOnce(tape: Tape, masks: seq<nat>, n: nat, start: nat, p: seq<nat>, e: seq<nat>, q: seq<nat>, f: seq<nat>, i: nat)
    requires Accepted(tape, masks, n, start, p, e) && Accepted(tape, masks, n, start, q, f) && i <= |p| && i <= |q|
    ensures From(start, e, i) == From(start, f, i) && forall j :: 0 <= j < i ==> p[j] == q[j] && e[j] == f[j]
    decreases i
  {
    hide FirstAccepted;
    if i > 0 {
      var k := i - 1;
      AcceptedOnce(tape, masks, n, start, p, e, q, f, k);
      assert FirstAccepted(tape, masks[n - k], n - k, From(start, e, k), p[k], e[k]);
      assert FirstAccepted(tape, masks[n - k], n - k, From(start, f, k), q[k], f[k]);
      FirstOnce(tape, masks[n - k], n - k, From(start, e, k), p[k], e[k], q[k], f[k]);
    }
  }

  /** The tape determines the row drawn from a place, and where it ends. */
  lemma RowDrawnOnce(n: nat, masks: seq<nat>, tape: Tape, start: nat, end: nat, row: seq<nat>, stop: nat, other: seq<nat>)
    requires RowDrawn(n, masks, tape, start, end, row) && RowDrawn(n, masks, tape, start, stop, other)
    ensures row == other && end == stop
  {
    hide Taken, Accepted, Identity;
    var p: seq<nat>, e: seq<nat> :| |p| == |e| == n && InRange(n, p) && row == Taken(Identity(n), p)
      && Accepted(tape, masks, n, start, p, e) && end == From(start, e, n);
    var q: seq<nat>, f: seq<nat> :| |q| == |f| == n && InRange(n, q) && other == Taken(Identity(n), q)
      && Accepted(tape, masks, n, start, q, f) && stop == From(start, f, n);
    AcceptedOnce(tape, masks, n, start, p, e, q, f, n);
    assert p == q;
  }

  lemma NextAccepted(tape: Tape, masks: seq<nat>, n: nat, start: nat, p: seq<nat>, e: seq<nat>, q: seq<nat>, f: seq<nat>)
    requires Accepted(tape, masks, n, start, p, e) && Accepted(tape, masks, n, start, q, f) && |q| < |p|
    ensures !NoneAccepted(tape, masks[n - |q|], n - |q|, From(start, f, |q|))
  {
    hide FirstAccepted, NoneAccepted;
    var k := |q|;
    AcceptedOnce(tape, masks, n, start, p, e, q, f, k);
    assert FirstAccepted(tape, masks[n - k], n - k, From(start, e, k), p[k], e[k]);
    FirstOnce(tape, masks[n - k], n - k, From(start, e, k), p[k], e[k], p[k], e[k]);
  }

  /** A row that can be drawn is never given up. */
  lemma DrawnNotStuck(n: nat, masks: seq<nat>, tape: Tape, start: nat, end: nat, row: seq<nat>)
    requires RowDrawn(n, masks, tape, start, end, row)
    ensures forall part :: !RowStuck(n, masks, tape, start, part)
  {
    hide Taken, FirstAccepted, NoneAccepted, Identity, InRange, From;
    var p: seq<nat>, e: seq<nat> :| |p| == |e| == n && InRange(n, p) && row == Taken(Identity(n), p)
      && Accepted(tape, masks, n, start, p, e) && end == From(start, e, n);
    forall q: seq<nat>, f: seq<nat> | |q| == |f| < n && Accepted(tape, masks, n, start, q, f)
      ensures !NoneAccepted(tape, masks[n - |q|], n - |q|, From(start, f, |q|))
    {
      NextAccepted(tape, masks, n, start, p, e, q, f);
    }
  }

  /** The tape determines the pooled rows. */
  lemma {:induction false} RowsDrawnOnce(n: nat, masks: seq<nat>, tape: Tape, rows: seq<seq<nat>>, starts: seq<nat>,
                                         other: seq<seq<nat>>, places: seq<nat>, k: nat)
    requires RowsDrawn(n, masks, tape, rows, starts) && RowsDrawn(n, masks, tape, other, places) && k <= |rows| && k <= |other|
    ensures starts[k] == places[k] && forall j :: 0 <= j < k ==> rows[j] == other[j]
    decreases k
  {
    hide RowDrawn;
    if k > 0 {
      RowsDrawnOnce(n, masks, tape, rows, starts, other, places, k - 1);
      assert RowDrawn(n, masks, tape, starts[k - 1], starts[k - 1 + 1], rows[k - 1]);
      assert RowDrawn(n, masks, tape, places[k - 1], places[k - 1 + 1], other[k - 1]);
      RowDrawnOnce(n, masks, tape, starts[k - 1], starts[k], rows[k - 1], places[k], other[k - 1]);
    }
  }

  /** Either all rows of a table can be drawn, or drawing gets stuck behind some of them; never both. */
  lemma TableDecided(n: nat, masks: seq<nat>, tape: Tape, rows: seq<seq<nat>>, starts: seq<nat>, some: seq<seq<nat>>, places: seq<nat>)
    requires RowsDrawn(n, masks, tape, rows, starts) && RowsDrawn(n, masks, tape, some, places) && |some| < |rows|
    ensures forall part :: !RowStuck(n, masks, tape, places[|some|], part)
  {
    hide RowDrawn, RowStuck;
    var k := |some|;
    RowsDrawnOnce(n, masks, tape, rows, starts, some, places, k);
    assert RowDrawn(n, masks, tape, starts[k], starts[k + 1], rows[k]);
    DrawnNotStuck(n, masks, tape, starts[k], starts[k + 1], rows[k]);
  }

  lemma DrawnNext(n: nat, masks: seq<nat>, tape: Tape, rows: seq<seq<nat>>, starts: seq<nat>, row: seq<nat>, at: nat)
    requires RowsDrawn(n, masks, tape, rows, starts) && RowDrawn(n, masks, tape, starts[|rows|], at, row)
    ensures RowsDrawn(n, masks, tape, rows + [row], starts + [at])
  {
    hide RowDrawn;
  }

  ghost predicate PooledSoFar(table: TableBuilder, rows: seq<seq<nat>>, n: nat, total: nat, at: nat, rejected: nat)
    reads table
  {
    table.Valid() && Filled(table, rows, n, total, |rows|) && RowsOk(rows, n) && at == |rows| * n + rejected
  }

  method PooledRow(n: nat, masks: seq<nat>, table: TableBuilder, tape: Tape, start: nat, ghost rows: seq<seq<nat>>, ghost total: nat, rejected: nat)
    returns (ok: bool, at: nat, misses: nat, ghost row: seq<nat>)
    requires MasksOk(masks, n) && start <= |tape| && |rows| < total && PooledSoFar(table, rows, n, total, start, rejected)
    modifies table
    ensures table.Valid() && at <= |tape|
    ensures ok ==> PooledSoFar(table, rows + [row], n, total, at, rejected + misses) && RowDrawn(n, masks, tape, start, at, row)
    ensures !ok ==> PooledSoFar(table, rows, n, total, start, rejected) && RowStuck(n, masks, tape, start, row) && at == |tape|
  {
    hide RowsOk, Flat, Permutes, RowDrawn, RowStuck;
    var output;
    ok, output, at, misses := PoolRow(n, masks, tape, start);
    row := output;
    if ok {
      MulMonotone(|rows| + 1, total, n);
      assert (|rows| + 1) * n == |rows| * n + n;
      var fits := table.AppendRow(output);
      AddRow(rows, output, n);
      FlatLast(rows, output);
    }
  }

  lemma StuckHere(n: nat, masks: seq<nat>, tape: Tape, start: nat, picks: seq<nat>, ends: seq<nat>)
    requires |picks| < n && InRange(n, picks) && Accepted(tape, masks, n, start, picks, ends)
    requires NoneAccepted(tape, masks[n - |picks|], n - |picks|, From(start, ends, |picks|))
    ensures RowStuck(n, masks, tape, start, Taken(Identity(n), picks))
  {
    hide Taken, Identity, From, NoneAccepted;
  }

  lemma DrawnHere(n: nat, masks: seq<nat>, tape: Tape, start: nat, picks: seq<nat>, ends: seq<nat>)
    requires |picks| == n && InRange(n, picks) && Accepted(tape, masks, n, start, picks, ends)
    ensures RowDrawn(n, masks, tape, start, From(start, ends, n), Taken(Identity(n), picks))
  {
    hide Taken, Identity, From;
  }

  lemma PoolRowPermutes(n: nat, picks: seq<nat>, row: seq<nat>)
    requires |picks| == n && InRange(n, picks) && row == Taken(Identity(n), picks)
    ensures Permutes(row, n) && |row| == n
  {
    TakesPermutation(Identity(n), picks);
  }

  /** Fills a table of `total` rows, each drawn from a fresh pool by masked rejection. Draws are indices,
      n a row, plus rejections. It fails exactly when no acceptable draw is left for some row, behind the
      rows it could draw. */
  method PooledRows(n: nat, total: nat, masks: seq<nat>, table: TableBuilder, tape: Tape)
    returns (ok: bool, at: nat, rejected: nat, ghost rows: seq<seq<nat>>, ghost starts: seq<nat>)
    requires MasksOk(masks, n) && table.Valid()
    modifies table
    ensures Filled(table, rows, n, total, |rows|) && RowsOk(rows, n) && RowsDrawn(n, masks, tape, rows, starts)
    ensures ok ==> |rows| == total && table.values == Flat(rows) && starts[|rows|] == at == |rows| * n + rejected
    ensures !ok ==> |rows| < total && (exists part :: RowStuck(n, masks, tape, starts[|rows|], part)) && at == |tape|
  {
    table.Reset(total * n);
    at, rejected, rows, ok, starts := 0, 0, [], true, [0];
    PooledStart(table, n, total);
    assert RowsDrawn(n, masks, tape, rows, starts);
    hide PooledSoFar, RowsOk, Flat, MasksOk, RowsDrawn, RowDrawn, RowStuck, Filled;
    for done := 0 to total
      invariant at <= |tape| && |rows| == done && table.Valid() && PooledSoFar(table, rows, n, total, at, rejected)
      invariant RowsDrawn(n, masks, tape, rows, starts) && |starts| == done + 1 && starts[done] == at
    {
      ghost var row;
      var misses;
      ok, at, misses, row := PooledRow(n, masks, table, tape, at, rows, total, rejected);
      if !ok {
        PooledFilled(table, rows, n, total, starts[done], rejected);
        return;
      }
      DrawnNext(n, masks, tape, rows, starts, row, at);
      rows, rejected, starts := rows + [row], rejected + misses, starts + [at];
    }
    PooledFilled(table, rows, n, total, at, rejected);
    PooledFull(table, rows, n, total, at, rejected);
  }

  /** The table of the kernel permutation test. */
  method PooledTable(n: nat, pairs: nat, replicates: nat, table: TableBuilder, tape: Tape)
    returns (ok: bool, at: nat, rejected: nat, ghost rows: seq<seq<nat>>, ghost masks: seq<nat>, ghost starts: seq<nat>)
    requires n >= 2 && pairs >= 1 && replicates >= 1 && table.Valid()
    modifies table
    ensures MasksOk(masks, n) && RowsDrawn(n, masks, tape, rows, starts)
    ensures Filled(table, rows, n, pairs * replicates, |rows|) && RowsOk(rows, n)
    ensures ok ==> |rows| == pairs * replicates && table.values == Flat(rows) && starts[|rows|] == at == |rows| * n + rejected
    ensures !ok ==> |rows| < pairs * replicates && (exists part :: RowStuck(n, masks, tape, starts[|rows|], part)) && at == |tape|
  {
    var bits := RejectionMasks(n);
    masks := bits;
    ok, at, rejected, rows, starts := PooledRows(n, pairs * replicates, bits, table, tape);
  }

  lemma PooledFilled(table: TableBuilder, rows: seq<seq<nat>>, n: nat, total: nat, at: nat, rejected: nat)
    requires PooledSoFar(table, rows, n, total, at, rejected)
    ensures Filled(table, rows, n, total, |rows|) && RowsOk(rows, n)
  {
  }

  lemma PooledStart(table: TableBuilder, n: nat, total: nat)
    requires table.Valid() && table.active && table.committed == 0 && |table.values| == total * n
    ensures PooledSoFar(table, [], n, total, 0, 0)
  {
  }

  lemma PooledFull(table: TableBuilder, rows: seq<seq<nat>>, n: nat, total: nat, at: nat, rejected: nat)
    requires PooledSoFar(table, rows, n, total, at, rejected) && |rows| == total
    ensures table.values == Flat(rows) && at == |rows| * n + rejected
  {
    assert table.values[..table.committed] == table.values;
  }
}
