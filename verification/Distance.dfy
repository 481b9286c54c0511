/** Hop distance in a directed graph given by its successor function. */
module Distance {

  ghost function Next<T(!new)>(succ: T -> set<T>, s: set<T>): set<T>
  {
    set x, y | x in s && y in succ(x) :: y
  }

  /** The nodes at most `n` hops from `roots`. */
  ghost function Within<T(!new)>(succ: T -> set<T>, roots: set<T>, n: nat): set<T>
  {
    if n == 0 then roots else Within(succ, roots, n - 1) + Next(succ, Within(succ, roots, n - 1))
  }

  /** The nodes less than `n` hops from `roots`. */
  ghost function Below<T(!new)>(succ: T -> set<T>, roots: set<T>, n: nat): set<T>
  {
    if n == 0 then {} else Within(succ, roots, n - 1)
  }

  ghost predicate Reachable<T(!new)>(succ: T -> set<T>, roots: set<T>, x: T)
  {
    exists n: nat :: x in Within(succ, roots, n)
  }

  /** `xs` lists nodes by non-decreasing distance; `levels[i]` is the exact distance of `xs[i]`. */
  ghost predicate Ordered<T(!new)>(succ: T -> set<T>, roots: set<T>, xs: seq<T>, levels: seq<nat>)
  {
    && |levels| == |xs|
    && (forall i :: 0 <= i < |xs| ==> xs[i] in Within(succ, roots, levels[i]) - Below(succ, roots, levels[i]))
    && (forall i, j :: 0 <= i < j < |xs| ==> levels[i] <= levels[j])
  }

  ghost function Repeat(n: nat, d: nat): seq<nat>
  {
    seq(n, _ => d)
  }

  lemma OrderedAppend<T(!new)>(succ: T -> set<T>, roots: set<T>, xs: seq<T>, levels: seq<nat>, more: seq<T>, d: nat)
    requires Ordered(succ, roots, xs, levels) && forall i :: 0 <= i < |levels| ==> levels[i] <= d
    requires forall x :: x in more ==> x in Within(succ, roots, d) - Below(succ, roots, d)
    ensures Ordered(succ, roots, xs + more, levels + Repeat(|more|, d))
  {
  }

  lemma {:induction false} WithinGrows<T(!new)>(succ: T -> set<T>, roots: set<T>, m: nat, n: nat)
    requires m <= n
    ensures Within(succ, roots, m) <= Within(succ, roots, n)
    decreases n
  {
    if m < n { WithinGrows(succ, roots, m, n - 1); }
  }

  lemma BelowStep<T(!new)>(succ: T -> set<T>, roots: set<T>, n: nat)
    ensures Below(succ, roots, n) <= Below(succ, roots, n + 1)
  {
    assert Below(succ, roots, n + 1) == Within(succ, roots, n);
  }

  lemma {:induction false} BelowGrows<T(!new)>(succ: T -> set<T>, roots: set<T>, m: nat, n: nat)
    requires m <= n
    ensures Below(succ, roots, m) <= Below(succ, roots, n)
    decreases n
  {
    if m < n {
      BelowGrows(succ, roots, m, n - 1);
      BelowStep(succ, roots, n - 1);
    }
  }

  lemma BelowIsExpanded<T(!new)>(succ: T -> set<T>, roots: set<T>, n: nat)
    ensures Below(succ, roots, n) <= Within(succ, roots, n)
    ensures Next(succ, Below(succ, roots, n)) <= Within(succ, roots, n)
  {
  }

  /** Once level `m` is empty, every later bound describes the same nodes. */
  lemma {:induction false} ClosedBelow<T(!new)>(succ: T -> set<T>, roots: set<T>, m: nat, n: nat)
    requires Within(succ, roots, m) <= Below(succ, roots, m) && m <= n
    ensures Below(succ, roots, n) == Below(succ, roots, m) == Within(succ, roots, n)
    decreases n
  {
    if n == m {
      BelowIsExpanded(succ, roots, m);
    } else {
      ClosedBelow(succ, roots, m, n - 1);
      BelowIsExpanded(succ, roots, n - 1);
      assert Within(succ, roots, n - 1) == Below(succ, roots, n - 1);
    }
  }

  /** Once level `m` is empty, the nodes below it are all that can be reached. */
  lemma ClosedIsAll<T(!new)>(succ: T -> set<T>, roots: set<T>, m: nat, x: T)
    requires Within(succ, roots, m) <= Below(succ, roots, m)
    ensures Reachable(succ, roots, x) <==> x in Below(succ, roots, m)
  {
    if Reachable(succ, roots, x) {
      var n: nat :| x in Within(succ, roots, n);
      if n < m { WithinGrows(succ, roots, n, m); } else { ClosedBelow(succ, roots, m, n); }
    }
    if x in Below(succ, roots, m) { assert x in Within(succ, roots, m - 1); }
  }

  /** Expanding any superset of a level that is not below it reaches the whole next level. */
  lemma Expand<T(!new)>(succ: T -> set<T>, roots: set<T>, n: nat, level: set<T>)
    requires level <= Within(succ, roots, n)
    requires forall x :: x in Within(succ, roots, n) && x !in Below(succ, roots, n) && x !in level ==> succ(x) == {}
    ensures Within(succ, roots, n) + Next(succ, level) == Within(succ, roots, n + 1)
  {
    BelowIsExpanded(succ, roots, n);
    forall y | y in Next(succ, Within(succ, roots, n)) ensures y in Within(succ, roots, n) + Next(succ, level) {
      var x :| x in Within(succ, roots, n) && y in succ(x);
      if x in Below(succ, roots, n) { assert y in Next(succ, Below(succ, roots, n)); }
    }
    forall y | y in Next(succ, level) ensures y in Within(succ, roots, n + 1) {
      var x :| x in level && y in succ(x);
      assert y in Next(succ, Within(succ, roots, n));
    }
  }
}
