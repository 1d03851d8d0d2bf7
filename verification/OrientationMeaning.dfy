/** What the orientation rules mean, and that a closure is determined by its marks and its options. */
module OrientationMeaning {
  import opened Collections
  import opened Grids
  import opened Orientation

  // ------------------------------------------------------------------- the rules are sound

  /** Two nonadjacent nodes, both ranked before a common neighbour. */
  ghost predicate Meet(m: Marks, rank: seq<nat>, a: nat, b: nat, c: nat)
    requires Square(m, |m|) && |rank| == |m|
  {
    && a < |m| && b < |m| && c < |m| && a != b && b != c && a != c
    && AnyEdge(m, a, b) && AnyEdge(m, c, b) && !AnyEdge(m, a, c) && rank[a] < rank[b] && rank[c] < rank[b]
  }

  /** An order of the nodes that agrees with the directed edges and has no collider on undirected ones. */
  ghost predicate Extends(m: Marks, rank: seq<nat>) {
    && Square(m, |m|) && |rank| == |m| && Distinct(rank)
    && (forall u: nat, v: nat :: u < |m| && v < |m| && Directed(m, u, v) ==> rank[u] < rank[v])
    && (forall a: nat, b: nat, c: nat :: Meet(m, rank, a, b, c) ==> !Undirected(m, a, b) && !Undirected(m, c, b))
  }

  /** A rule points its edge the way every such order does. */
  lemma StepIsForced(m: Marks, s: Step, rank: seq<nat>)
    requires Extends(m, rank) && Applicable(m, s)
    ensures rank[Tail(s)] < rank[Head(s)]
  {
    match s
    case Rule1(a, b, c) =>
      assert !Meet(m, rank, a, b, c);
    case Rule2(a, b, c) =>
      assert rank[a] < rank[c] < rank[b];
    case Rule3(a, b, c, d) =>
      assert rank[c] < rank[b] && rank[d] < rank[b];
      assert !Meet(m, rank, c, a, d);
  }

  lemma PointedExtends(m: Marks, from: nat, to: nat, rank: seq<nat>)
    requires Extends(m, rank) && In(m, from, to) && from != to && Undirected(m, from, to) && rank[from] < rank[to]
    ensures Extends(Pointed(m, from, to), rank)
  {
    var r := Pointed(m, from, to);
    forall a: nat, b: nat, c: nat | Meet(r, rank, a, b, c)
      ensures !Undirected(r, a, b) && !Undirected(r, c, b)
    {
      assert Meet(m, rank, a, b, c);
    }
  }

  /** So no application of a rule, and no closure, loses an order. */
  lemma {:induction false} DerivationExtends(m: Marks, steps: seq<Step>, rank: seq<nat>)
    requires Square(m, |m|) && Derivable(m, steps) && Extends(m, rank)
    ensures Extends(After(m, steps), rank)
    decreases |steps|
  {
    hide Extends;
    if steps != [] {
      var n := |steps| - 1;
      var q, s := After(m, steps[..n]), steps[n];
      DerivationExtends(m, steps[..n], rank);
      StepIsForced(q, s, rank);
      PointedExtends(q, Tail(s), Head(s), rank);
    }
  }

  lemma ClosureExtends(m: Marks, steps: seq<Step>, r: Marks, rank: seq<nat>)
    requires Deriving(m, steps, r) && Extends(m, rank)
    ensures Extends(r, rank)
  {
    hide Extends, Derivable;
    DerivationExtends(m, steps, rank);
  }

  // ------------------------------------------------- what the other direction would have done

  predicate Apart(m: Marks, a: nat, b: nat, c: nat) {
    Square(m, |m|) && a < |m| && b < |m| && c < |m| && a != b && b != c && a != c
  }

  predicate Collider(m: Marks, a: nat, b: nat, c: nat)
    requires Apart(m, a, b, c)
  {
    Directed(m, a, b) && Directed(m, c, b) && !AnyEdge(m, a, c)
  }

  predicate Circle(m: Marks, a: nat, b: nat, c: nat)
    requires Apart(m, a, b, c)
  {
    Directed(m, a, b) && Directed(m, b, c) && Directed(m, c, a)
  }

  /** Rule 1 applies exactly where the other direction would make a new collider. */
  lemma Rule1When(m: Marks, a: nat, b: nat, c: nat)
    requires Apart(m, a, b, c)
    ensures Applicable(m, Rule1(a, b, c)) <==> Undirected(m, b, c) && Collider(Pointed(m, c, b), a, b, c)
  {
  }

  /** Rule 2, exactly where it would close a circle. */
  lemma Rule2When(m: Marks, a: nat, b: nat, c: nat)
    requires Apart(m, a, b, c)
    ensures Applicable(m, Rule2(a, b, c)) <==> Undirected(m, a, b) && Circle(Pointed(m, b, a), a, c, b)
  {
  }

  /** Rule 3, exactly where rule 2 would then direct two edges into a new collider. */
  lemma Rule3When(m: Marks, a: nat, b: nat, c: nat, d: nat)
    requires Apart(m, a, b, c) && Apart(m, a, b, d) && c < d
    ensures Applicable(m, Rule3(a, b, c, d)) <==>
            && Undirected(m, a, b) && Applicable(Pointed(m, b, a), Rule2(c, a, b)) && Applicable(Pointed(m, b, a), Rule2(d, a, b))
            && Collider(Pointed(Pointed(Pointed(m, b, a), c, a), d, a), c, a, d)
  {
  }

  // ------------------------------------------------------------- a closure is determined

  lemma NextTaken(m: Marks, rule: Rule, p: seq<Step>, q: seq<Step>, i: nat)
    requires Pass(m, rule, p) && Pass(m, rule, q) && i < |p| && i <= |q| && p[..i] == q[..i]
    ensures i < |q| && !Before(p[i], q[i])
  {
    var s := p[i];
    hide Derivable, After, Applicable, Visits, PassedOver;
    assert s in p;
    if i == |q| || Before(s, q[i]) {
      forall j | 0 <= j < |q|
        ensures q[j] != s
      {
        assert j < i ==> q[j] == q[..i][j] == p[..i][j] == p[j];
        assert j > i ==> Before(q[i], q[j]);
      }
      assert PassedOver(m, q, s);
      assert forall j :: 0 <= j < i ==> q[j] == q[..i][j] == p[..i][j] == p[j];
      NotPassedOver(m, p, q, i);
      assert false;
    }
  }

  lemma NotPassedOver(m: Marks, p: seq<Step>, q: seq<Step>, i: nat)
    requires Square(m, |m|) && Derivable(m, p) && i < |p| && TurnAt(q, i, p[i]) && p[..i] == q[..i]
    ensures !PassedOver(m, q, p[i])
  {
    CanTake(m, p, i);
    hide Derivable, After, Applicable;
    assert PassedOver(m, q, p[i]) ==> StuckAt(m, q, i, p[i]);
  }

  lemma {:induction false} CanTake(m: Marks, p: seq<Step>, i: nat)
    requires Square(m, |m|) && Derivable(m, p) && i < |p|
    ensures Derivable(m, p[..i]) && Applicable(After(m, p[..i]), p[i])
    decreases |p|
  {
    var n := |p| - 1;
    if i < n {
      CanTake(m, p[..n], i);
      assert p[..n][..i] == p[..i];
    }
  }

  /** Two passes over the same marks take the same steps. */
  lemma {:induction false} PassUnique(m: Marks, rule: Rule, p: seq<Step>, q: seq<Step>, i: nat)
    requires Pass(m, rule, p) && Pass(m, rule, q) && i <= |p| && i <= |q| && p[..i] == q[..i]
    ensures p == q
    decreases |p| - i
  {
    if i == |p| && i == |q| {
      assert p[..i] == p && q[..i] == q;
    } else {
      if i < |p| {
        NextTaken(m, rule, p, q, i);
      }
      if i < |q| {
        NextTaken(m, rule, q, p, i);
      }
      SamePlace(m, rule, p, q, i);
      hide Pass;
      assert p[..i + 1] == p[..i] + [p[i]] && q[..i + 1] == q[..i] + [q[i]];
      PassUnique(m, rule, p, q, i + 1);
    }
  }

  lemma SamePlace(m: Marks, rule: Rule, p: seq<Step>, q: seq<Step>, i: nat)
    requires Pass(m, rule, p) && Pass(m, rule, q) && i < |p| && i < |q| && !Before(p[i], q[i]) && !Before(q[i], p[i])
    ensures p[i] == q[i]
  {
    hide Derivable, PassedOver, Matches;
    assert p[i] in p && q[i] in q;
  }

  lemma PassToUnique(on: bool, m: Marks, rule: Rule, p: seq<Step>, r: Marks, q: seq<Step>, u: Marks)
    requires PassTo(on, m, rule, p, r) && PassTo(on, m, rule, q, u)
    ensures p == q && r == u
  {
    hide Pass;
    if on {
      PassUnique(m, rule, p, q, 0);
    }
  }

  lemma RoundUnique(options: Options, x: Round, y: Round)
    requires RoundOk(options, x) && RoundOk(options, y) && x.from == y.from
    ensures x == y
  {
    hide PassTo;
    var q, p :| PassTo(options.rule1, x.from, First, x.first, q) && PassTo(options.rule2, q, Second, x.second, p)
                && PassTo(options.rule3, p, Third, x.third, x.to);
    var u, v :| PassTo(options.rule1, y.from, First, y.first, u) && PassTo(options.rule2, u, Second, y.second, v)
                && PassTo(options.rule3, v, Third, y.third, y.to);
    PassToUnique(options.rule1, x.from, First, x.first, q, y.first, u);
    PassToUnique(options.rule2, q, Second, x.second, p, y.second, v);
    PassToUnique(options.rule3, p, Third, x.third, x.to, y.third, y.to);
  }

  lemma {:induction false} RoundsAgree(options: Options, m: Marks, x: seq<Round>, r: Marks, y: seq<Round>, u: Marks, n: nat)
    requires Closure(options, m, x, r) && Closure(options, m, y, u) && n <= |x| && n <= |y|
    ensures x[..n] == y[..n]
  {
    hide RoundOk, StepsOf;
    if n > 0 {
      RoundsAgree(options, m, x, r, y, u, n - 1);
      assert n > 1 ==> x[n - 2] == x[..n - 1][n - 2] == y[..n - 1][n - 2] == y[n - 2];
      assert n > 1 ==> x[n - 2].to == x[n - 1].from && y[n - 2].to == y[n - 1].from;
      RoundUnique(options, x[n - 1], y[n - 1]);
      assert x[..n] == x[..n - 1] + [x[n - 1]] && y[..n] == y[..n - 1] + [y[n - 1]];
    }
  }

  lemma EarlierWorks(options: Options, m: Marks, x: seq<Round>, r: Marks, n: nat, next: nat)
    requires Closure(options, m, x, r) && next == n + 1 < |x|
    ensures StepsOf(x[n]) != []
  {
    hide RoundOk, StepsOf;
    assert x[n].to == x[next].from;
  }

  lemma LastIsIdle(options: Options, m: Marks, x: seq<Round>, r: Marks, n: nat)
    requires Closure(options, m, x, r) && n < |x| && StepsOf(x[n]) == []
    ensures n == |x| - 1
  {
    hide Closure, StepsOf;
    if n + 1 < |x| {
      EarlierWorks(options, m, x, r, n, n + 1);
    }
  }

  /** Marks and options determine the whole closure: its rounds, their steps, and the outcome. */
  lemma ClosureUnique(options: Options, m: Marks, x: seq<Round>, r: Marks, y: seq<Round>, u: Marks)
    requires Closure(options, m, x, r) && Closure(options, m, y, u)
    ensures x == y && r == u
  {
    hide RoundOk, StepsOf;
    var n := if |x| < |y| then |x| else |y|;
    RoundsAgree(options, m, x, r, y, u, n);
    assert x[n - 1] == x[..n][n - 1] == y[..n][n - 1] == y[n - 1];
    if |x| < |y| {
      LastIsIdle(options, m, y, u, n - 1);
    } else {
      LastIsIdle(options, m, x, r, n - 1);
    }
    assert x[..n] == x && y[..n] == y;
  }
}
