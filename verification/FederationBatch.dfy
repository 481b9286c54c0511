/** The retry passes of `persist_federation_events` (src/api/msc2836.rs:166-262). */
module FederationBatch {
  import opened Bytes

  /** Whether an event is accepted once the events of a set are stored. */
  type Acceptance<!E> = (set<E>, E) -> bool

  /** Storing more events never makes one unacceptable. */
  ghost predicate Monotone<E(!new)>(accept: Acceptance<E>)
  {
    forall a, b, e :: a <= b && accept(a, e) ==> accept(b, e)
  }

  function SetOf<E>(s: seq<E>): set<E> { set e | e in s }

  const PASSES: nat := 8

  // ---------- one pass ----------

  datatype Batch<E> = Batch(stored: set<E>, pending: seq<E>)

  ghost function Pass<E>(accept: Acceptance<E>, stored: set<E>, pending: seq<E>): Batch<E>
  {
    if pending == [] then Batch(stored, [])
    else
      var last := |pending| - 1;
      var b := Pass(accept, stored, pending[..last]);
      if accept(b.stored, pending[last]) then Batch(b.stored + {pending[last]}, b.pending)
      else Batch(b.stored, b.pending + [pending[last]])
  }

  ghost function Passes<E>(accept: Acceptance<E>, n: nat, stored: set<E>, pending: seq<E>): Batch<E>
  {
    if n == 0 || pending == [] then Batch(stored, pending)
    else
      var b := Pass(accept, stored, pending);
      if |b.pending| == |pending| then b else Passes(accept, n - 1, b.stored, b.pending)
  }

  lemma Snoc<E>(s: seq<E>, e: E)
    ensures SetOf(s + [e]) == SetOf(s) + {e}
  {
  }

  /** Moving the next pending event to either side loses nothing. */
  lemma Moves<E>(persisted: seq<E>, pending: seq<E>, i: nat, persisted': seq<E>, still: seq<E>)
    requires i < |pending| && multiset(persisted') + multiset(still) == multiset(persisted) + multiset(pending[..i])
    ensures multiset(persisted' + [pending[i]]) + multiset(still) == multiset(persisted) + multiset(pending[..i + 1])
    ensures multiset(persisted') + multiset(still + [pending[i]]) == multiset(persisted) + multiset(pending[..i + 1])
  {
    assert pending[..i + 1] == pending[..i] + [pending[i]];
    Plus(multiset(persisted'), multiset(still), multiset(persisted), multiset(pending[..i]), multiset{pending[i]});
  }

  lemma Plus<E>(a: multiset<E>, b: multiset<E>, p: multiset<E>, q: multiset<E>, m: multiset<E>)
    requires a + b == p + q
    ensures a + m + b == p + (q + m) && a + (b + m) == p + (q + m)
  {
    assert a + m + b == (a + b) + m && a + (b + m) == (a + b) + m;
    assert p + (q + m) == (p + q) + m;
  }

  /** One pass over the pending events; each is tried against everything stored so far. */
  method RunPass<E(==)>(accept: Acceptance<E>, persisted: seq<E>, pending: seq<E>)
    returns (persisted': seq<E>, still: seq<E>, progress: bool)
    ensures Pass(accept, SetOf(persisted), pending) == Batch(SetOf(persisted'), still)
    ensures multiset(persisted') + multiset(still) == multiset(persisted) + multiset(pending)
    ensures progress <==> |still| != |pending|
  {
    persisted', still, progress := persisted, [], false;
    for i := 0 to |pending|
      invariant Pass(accept, SetOf(persisted), pending[..i]) == Batch(SetOf(persisted'), still)
      invariant multiset(persisted') + multiset(still) == multiset(persisted) + multiset(pending[..i])
      invariant |still| <= i && (progress <==> |still| != i)
    {
      var e := pending[i];
      assert pending[..i + 1][..i] == pending[..i];
      Moves(persisted, pending, i, persisted', still);
      if accept(SetOf(persisted'), e) {
        Snoc(persisted', e);
        persisted', progress := persisted' + [e], true;
      } else {
        still := still + [e];
      }
    }
    assert pending[..|pending|] == pending;
  }

  /** The events of a response that parse. */
  function Parsed<R, E>(parse: R -> Option<E>, raws: seq<R>): seq<E>
  {
    if raws == [] then []
    else
      var last := |raws| - 1;
      var e := parse(raws[last]);
      Parsed(parse, raws[..last]) + if e.Some? then [e.value] else []
  }

  /** `parsed` are the events of the responses at the rising positions `at`, the ones that parse. */
  ghost predicate Picks<R, E>(parse: R -> Option<E>, raws: seq<R>, at: seq<nat>, parsed: seq<E>)
  {
    && |at| == |parsed| && (forall i, j :: 0 <= i < j < |at| ==> at[i] < at[j])
    && (forall i :: 0 <= i < |at| ==> at[i] < |raws| && parse(raws[at[i]]) == Some(parsed[i]))
    && (forall j :: 0 <= j < |raws| ==> (j in at <==> parse(raws[j]).Some?))
  }

  lemma PickMore<R, E>(parse: R -> Option<E>, raws: seq<R>, at: seq<nat>, parsed: seq<E>, r: R)
    requires Picks(parse, raws, at, parsed)
    ensures parse(r).None? ==> Picks(parse, raws + [r], at, parsed)
    ensures parse(r).Some? ==> Picks(parse, raws + [r], at + [|raws|], parsed + [parse(r).value])
  {
  }

  /** The parsed events are those of the responses that parse, in order. */
  lemma {:induction false} ParsedAre<R, E>(parse: R -> Option<E>, raws: seq<R>) returns (at: seq<nat>)
    ensures Picks(parse, raws, at, Parsed(parse, raws))
    decreases |raws|
  {
    at := [];
    if raws != [] {
      var last := |raws| - 1;
      at := ParsedAre(parse, raws[..last]);
      PickMore(parse, raws[..last], at, Parsed(parse, raws[..last]), raws[last]);
      assert raws == raws[..last] + [raws[last]];
      if parse(raws[last]).Some? {
        at := at + [last];
      } else {
        assert Parsed(parse, raws[..last]) + [] == Parsed(parse, raws[..last]);
      }
    }
  }

  method ParseAll<R, E>(parse: R -> Option<E>, raws: seq<R>) returns (pending: seq<E>)
    ensures pending == Parsed(parse, raws)
  {
    pending := [];
    for i := 0 to |raws|
      invariant pending == Parsed(parse, raws[..i])
    {
      assert raws[..i + 1][..i] == raws[..i];
      var e := parse(raws[i]);
      if e.Some? { pending := pending + [e.value]; }
    }
    assert raws[..|raws|] == raws;
  }

  /** Up to `limit` passes, ending early when nothing is pending or a pass makes no progress. */
  method Retry<E(==)>(accept: Acceptance<E>, limit: nat, parsed: seq<E>) returns (persisted: seq<E>, pending: seq<E>)
    ensures Batch(SetOf(persisted), pending) == Passes(accept, limit, {}, parsed)
    ensures multiset(persisted) + multiset(pending) == multiset(parsed)
  {
    persisted, pending := [], parsed;
    assert SetOf(persisted) == {};
    var pass := 0;
    while pass < limit && pending != []
      invariant pass <= limit
      invariant Passes(accept, limit, {}, parsed) == Passes(accept, limit - pass, SetOf(persisted), pending)
      invariant multiset(persisted) + multiset(pending) == multiset(parsed)
    {
      var progress;
      persisted, pending, progress := RunPass(accept, persisted, pending);
      if !progress { break; }
      pass := pass + 1;
    }
  }

  /** The whole batch: every parsed event ends up persisted or pending. */
  method PersistEvents<R, E(==)>(accept: Acceptance<E>, parse: R -> Option<E>, raws: seq<R>)
    returns (persisted: seq<E>, pending: seq<E>)
    ensures Batch(SetOf(persisted), pending) == Passes(accept, PASSES, {}, Parsed(parse, raws))
    ensures multiset(persisted) + multiset(pending) == multiset(Parsed(parse, raws))
    ensures Distinct(Parsed(parse, raws)) ==> SetOf(persisted) !! SetOf(pending)
  {
    var parsed := ParseAll(parse, raws);
    persisted, pending := Retry(accept, PASSES, parsed);
    if Distinct(parsed) { OnOneSide(parsed, persisted, pending); }
  }

  ghost predicate Distinct<E>(s: seq<E>)
  {
    forall e :: e in s ==> multiset(s)[e] == 1
  }

  lemma OnOneSide<E>(parsed: seq<E>, persisted: seq<E>, pending: seq<E>)
    requires Distinct(parsed) && multiset(persisted) + multiset(pending) == multiset(parsed)
    ensures SetOf(persisted) !! SetOf(pending)
  {
    forall e | e in SetOf(persisted) ensures e !in SetOf(pending) {
      assert multiset(persisted)[e] >= 1;
      assert multiset(parsed)[e] == multiset(persisted)[e] + multiset(pending)[e];
      assert e in multiset(parsed);
    }
  }

  // ---------- which events can be persisted ----------

  /** The events of `all` acceptable after at most `k` rounds of dependencies. */
  ghost function Level<E>(accept: Acceptance<E>, all: set<E>, k: nat): set<E>
  {
    if k == 0 then {} else set e | e in all && accept(Level(accept, all, k - 1), e)
  }

  lemma {:induction false} LevelGrows<E(!new)>(accept: Acceptance<E>, all: set<E>, k: nat)
    requires Monotone(accept)
    ensures Level(accept, all, k) <= Level(accept, all, k + 1)
  {
    if k > 0 { LevelGrows(accept, all, k - 1); }
  }

  lemma {:induction false} LevelsNest<E(!new)>(accept: Acceptance<E>, all: set<E>, j: nat, k: nat)
    requires Monotone(accept) && j <= k
    ensures Level(accept, all, j) <= Level(accept, all, k)
    decreases k
  {
    if j < k {
      LevelsNest(accept, all, j, k - 1);
      LevelGrows(accept, all, k - 1);
    }
  }

  /** `all` is what is stored or still pending. */
  ghost predicate Splits<E>(all: set<E>, b: Batch<E>)
  {
    all == b.stored + SetOf(b.pending)
  }

  /** A pass stores everything acceptable at its start, keeps the rest, and without progress
      nothing pending is acceptable. */
  lemma {:induction false} PassStores<E(!new)>(accept: Acceptance<E>, stored: set<E>, pending: seq<E>)
    requires Monotone(accept)
    ensures var b := Pass(accept, stored, pending);
            && stored <= b.stored && |b.pending| <= |pending|
            && Splits(stored + SetOf(pending), b)
            && (forall e :: e in pending && accept(stored, e) ==> e in b.stored)
            && (|b.pending| == |pending| ==> b == Batch(stored, pending))
            && (|b.pending| == |pending| ==> forall e :: e in pending ==> !accept(stored, e))
  {
    if pending != [] {
      var last := |pending| - 1;
      var b, e := Pass(accept, stored, pending[..last]), pending[last];
      PassStores(accept, stored, pending[..last]);
      assert pending == pending[..last] + [e];
      Snoc(pending[..last], e);
      Snoc(b.pending, e);
    }
  }

  lemma LevelWithin<E>(accept: Acceptance<E>, all: set<E>, k: nat)
    ensures Level(accept, all, k) <= all
  {
  }

  lemma CoverNext<E(!new)>(accept: Acceptance<E>, all: set<E>, k: nat, stored: set<E>, pending: seq<E>)
    requires Monotone(accept) && Splits(all, Batch(stored, pending)) && Level(accept, all, k) <= stored
    ensures Level(accept, all, k + 1) <= Pass(accept, stored, pending).stored
  {
    PassStores(accept, stored, pending);
  }

  /** Once nothing pending is acceptable, what is stored holds every level. */
  lemma {:induction false} StuckCovers<E(!new)>(accept: Acceptance<E>, all: set<E>, b: Batch<E>, k: nat)
    requires Monotone(accept) && Splits(all, b) && forall e :: e in b.pending ==> !accept(b.stored, e)
    ensures Level(accept, all, k) <= b.stored
  {
    if k > 0 { StuckCovers(accept, all, b, k - 1); }
  }

  /** With `n` passes left and all but `n` of the first `m` levels stored, `m` levels get stored. */
  lemma {:induction false} PassesCover<E(!new)>(accept: Acceptance<E>, all: set<E>, n: nat, m: nat, stored: set<E>,
                                                pending: seq<E>)
    requires Monotone(accept) && Splits(all, Batch(stored, pending)) && n <= m && Level(accept, all, m - n) <= stored
    ensures Level(accept, all, m) <= Passes(accept, n, stored, pending).stored
  {
    var b := Pass(accept, stored, pending);
    PassSplits(accept, all, stored, pending);
    if n > 0 && pending == [] {
      LevelWithin(accept, all, m);
    } else if n > 0 && |b.pending| == |pending| {
      PassStores(accept, stored, pending);
      StuckCovers(accept, all, b, m);
    } else if n > 0 {
      CoverNext(accept, all, m - n, stored, pending);
      PassesCover(accept, all, n - 1, m, b.stored, b.pending);
    }
  }

  lemma PassSplits<E(!new)>(accept: Acceptance<E>, all: set<E>, stored: set<E>, pending: seq<E>)
    requires Monotone(accept) && Splits(all, Batch(stored, pending))
    ensures Splits(all, Pass(accept, stored, pending))
  {
    PassStores(accept, stored, pending);
    assert all == stored + SetOf(pending);
  }

  lemma {:induction false} PassesSplit<E(!new)>(accept: Acceptance<E>, all: set<E>, n: nat, stored: set<E>,
                                                pending: seq<E>)
    requires Monotone(accept) && Splits(all, Batch(stored, pending))
    ensures Splits(all, Passes(accept, n, stored, pending))
  {
    if n > 0 && pending != [] {
      var b := Pass(accept, stored, pending);
      PassSplits(accept, all, stored, pending);
      if |b.pending| != |pending| { PassesSplit(accept, all, n - 1, b.stored, b.pending); }
    }
  }

  /** Stopping before the passes are used up means that nothing pending is acceptable. */
  lemma {:induction false} PassesStop<E(!new)>(accept: Acceptance<E>, n: nat, stored: set<E>, pending: seq<E>)
    requires Monotone(accept)
    ensures var b := Passes(accept, n, stored, pending);
            |b.pending| + n <= |pending| || forall e :: e in b.pending ==> !accept(b.stored, e)
  {
    if n > 0 && pending != [] {
      var b := Pass(accept, stored, pending);
      PassStores(accept, stored, pending);
      if |b.pending| != |pending| { PassesStop(accept, n - 1, b.stored, b.pending); }
    }
  }

  lemma {:induction false} PassWithin<E(!new)>(accept: Acceptance<E>, all: set<E>, k: nat, stored: set<E>,
                                               pending: seq<E>)
    requires Monotone(accept) && stored <= Level(accept, all, k) && SetOf(pending) <= all
    ensures Pass(accept, stored, pending).stored <= Level(accept, all, k + |pending|)
  {
    if pending != [] {
      var last := |pending| - 1;
      assert pending == pending[..last] + [pending[last]];
      Snoc(pending[..last], pending[last]);
      PassWithin(accept, all, k, stored, pending[..last]);
      LevelGrows(accept, all, k + last);
      assert pending[last] in SetOf(pending);
    }
  }

  /** Only events of some level are ever stored. */
  lemma {:induction false} PassesWithin<E(!new)>(accept: Acceptance<E>, all: set<E>, n: nat, k: nat, stored: set<E>,
                                                 pending: seq<E>) returns (k': nat)
    requires Monotone(accept) && stored <= Level(accept, all, k) && SetOf(pending) <= all
    ensures Passes(accept, n, stored, pending).stored <= Level(accept, all, k')
  {
    k' := k;
    if n > 0 && pending != [] {
      var b := Pass(accept, stored, pending);
      PassWithin(accept, all, k, stored, pending);
      PassStores(accept, stored, pending);
      k' := k + |pending|;
      LevelWithin(accept, all, k);
      if |b.pending| != |pending| {
        assert SetOf(b.pending) <= all;
        k' := PassesWithin(accept, all, n - 1, k', b.stored, b.pending);
      }
    }
  }

  /** When a batch stops with nothing acceptable pending, it has stored exactly the events whose
      dependencies can be met at all: the outcome does not depend on the order. */
  lemma StuckIsClosure<E(!new)>(accept: Acceptance<E>, parsed: seq<E>, e: E)
    requires Monotone(accept)
    requires var b := Passes(accept, PASSES, {}, parsed); forall x :: x in b.pending ==> !accept(b.stored, x)
    ensures e in Passes(accept, PASSES, {}, parsed).stored <==> exists k: nat :: e in Level(accept, SetOf(parsed), k)
  {
    var all, b := SetOf(parsed), Passes(accept, PASSES, {}, parsed);
    var m := PassesWithin(accept, all, PASSES, 0, {}, parsed);
    PassesSplit(accept, all, PASSES, {}, parsed);
    if k: nat :| e in Level(accept, all, k) { StuckCovers(accept, all, b, k); }
  }

  // ---------- the worst order ----------

  /** The occurrences of `s` that lie in `keep`. */
  ghost function In<E>(s: seq<E>, keep: set<E>): seq<E>
  {
    if s == [] then []
    else In(s[..|s| - 1], keep) + if s[|s| - 1] in keep then [s[|s| - 1]] else []
  }

  lemma {:induction false} InSet<E>(s: seq<E>, keep: set<E>)
    ensures SetOf(In(s, keep)) == SetOf(s) * keep
  {
    if s != [] {
      var last := |s| - 1;
      var front := In(s[..last], keep);
      InSet(s[..last], keep);
      assert s == s[..last] + [s[last]];
      Snoc(s[..last], s[last]);
      Snoc(front, s[last]);
      assert front + [] == front;
      KeepOne(SetOf(s[..last]), keep, s[last]);
    }
  }

  lemma KeepOne<E>(s: set<E>, keep: set<E>, e: E)
    ensures (s + {e}) * keep == if e in keep then s * keep + {e} else s * keep
  {
  }

  lemma SameSet<E>(s: seq<E>, t: seq<E>)
    requires multiset(s) == multiset(t)
    ensures SetOf(s) == SetOf(t)
  {
    forall e ensures e in s <==> e in t {
      assert e in s <==> e in multiset(s);
      assert e in t <==> e in multiset(t);
    }
  }

  lemma {:induction false} InSplit<E>(s: seq<E>, a: set<E>, b: set<E>)
    requires a !! b
    ensures multiset(In(s, a + b)) == multiset(In(s, a)) + multiset(In(s, b))
  {
    if s != [] { InSplit(s[..|s| - 1], a, b); }
  }

  lemma {:induction false} InAll<E>(s: seq<E>, all: set<E>)
    requires SetOf(s) <= all
    ensures In(s, all) == s
  {
    if s != [] {
      var last := |s| - 1;
      assert s == s[..last] + [s[last]];
      Snoc(s[..last], s[last]);
      assert s[last] in SetOf(s);
      InAll(s[..last], all);
    }
  }

  /** Dependents before dependencies: the events outside level `k`, highest level first. */
  ghost function Worst<E>(accept: Acceptance<E>, parsed: seq<E>, n: nat, k: nat): seq<E>
    requires k <= n
    decreases n - k
  {
    var all := SetOf(parsed);
    if k == n then In(parsed, all - Level(accept, all, n))
    else Worst(accept, parsed, n, k + 1) + In(parsed, Level(accept, all, k + 1) - Level(accept, all, k))
  }

  lemma {:induction false} WorstIsOrder<E(!new)>(accept: Acceptance<E>, parsed: seq<E>, n: nat, k: nat)
    requires Monotone(accept) && k <= n
    ensures multiset(Worst(accept, parsed, n, k)) ==
            multiset(In(parsed, SetOf(parsed) - Level(accept, SetOf(parsed), k)))
    decreases n - k
  {
    var all := SetOf(parsed);
    if k < n {
      var low, high := Level(accept, all, k), Level(accept, all, k + 1);
      WorstIsOrder(accept, parsed, n, k + 1);
      LevelGrows(accept, all, k);
      LevelWithin(accept, all, k + 1);
      InSplit(parsed, all - high, high - low);
      assert all - low == (all - high) + (high - low);
    }
  }

  lemma WorstSet<E(!new)>(accept: Acceptance<E>, parsed: seq<E>, n: nat, k: nat)
    requires Monotone(accept) && k <= n
    ensures SetOf(Worst(accept, parsed, n, k)) == SetOf(parsed) - Level(accept, SetOf(parsed), k)
  {
    var rest := SetOf(parsed) - Level(accept, SetOf(parsed), k);
    WorstIsOrder(accept, parsed, n, k);
    SameSet(Worst(accept, parsed, n, k), In(parsed, rest));
    InSet(parsed, rest);
    assert SetOf(parsed) * rest == rest;
  }

  lemma {:induction false} PassAppend<E>(accept: Acceptance<E>, stored: set<E>, a: seq<E>, b: seq<E>)
    ensures var p := Pass(accept, stored, a);
            var q := Pass(accept, p.stored, b);
            Pass(accept, stored, a + b) == Batch(q.stored, p.pending + q.pending)
  {
    if b == [] {
      assert a + b == a;
    } else {
      var last := |b| - 1;
      PassAppend(accept, stored, a, b[..last]);
      assert (a + b)[..|a + b| - 1] == a + b[..last];
    }
  }

  lemma {:induction false} PassNone<E>(accept: Acceptance<E>, stored: set<E>, s: seq<E>)
    requires forall e :: e in s ==> !accept(stored, e)
    ensures Pass(accept, stored, s) == Batch(stored, s)
  {
    if s != [] {
      PassNone(accept, stored, s[..|s| - 1]);
      assert s == s[..|s| - 1] + [s[|s| - 1]];
    }
  }

  lemma {:induction false} PassAll<E(!new)>(accept: Acceptance<E>, stored: set<E>, s: seq<E>)
    requires Monotone(accept) && forall e :: e in s ==> accept(stored, e)
    ensures Pass(accept, stored, s) == Batch(stored + SetOf(s), [])
  {
    if s != [] {
      var last := |s| - 1;
      PassAll(accept, stored, s[..last]);
      assert s == s[..last] + [s[last]];
      Snoc(s[..last], s[last]);
    }
  }

  /** In the worst order each pass gets exactly one level further. */
  lemma WorstPass<E(!new)>(accept: Acceptance<E>, parsed: seq<E>, n: nat, k: nat)
    requires Monotone(accept) && k < n
    ensures Pass(accept, Level(accept, SetOf(parsed), k), Worst(accept, parsed, n, k)) ==
            Batch(Level(accept, SetOf(parsed), k + 1), Worst(accept, parsed, n, k + 1))
  {
    var all := SetOf(parsed);
    var low, high := Level(accept, all, k), Level(accept, all, k + 1);
    var later, now := Worst(accept, parsed, n, k + 1), In(parsed, high - low);
    WorstSet(accept, parsed, n, k + 1);
    InSet(parsed, high - low);
    LevelGrows(accept, all, k);
    LevelWithin(accept, all, k + 1);
    forall e | e in later ensures !accept(low, e) { assert e in SetOf(later); }
    forall e | e in now ensures accept(low, e) { assert e in SetOf(now); }
    PassNone(accept, low, later);
    PassAll(accept, low, now);
    PassAppend(accept, low, later, now);
    assert low + SetOf(now) == high;
  }

  lemma {:induction false} WorstPasses<E(!new)>(accept: Acceptance<E>, parsed: seq<E>, n: nat, k: nat)
    requires Monotone(accept) && k <= n
    ensures Passes(accept, n - k, Level(accept, SetOf(parsed), k), Worst(accept, parsed, n, k)).stored
            <= Level(accept, SetOf(parsed), n)
    decreases n - k
  {
    LevelsNest(accept, SetOf(parsed), k, n);
    if k < n && Worst(accept, parsed, n, k) != [] {
      WorstPass(accept, parsed, n, k);
      LevelsNest(accept, SetOf(parsed), k + 1, n);
      WorstPasses(accept, parsed, n, k + 1);
    }
  }

  lemma OrdersPersist<E(!new)>(accept: Acceptance<E>, n: nat, parsed: seq<E>)
    requires Monotone(accept)
    ensures SetOf(parsed) <= Level(accept, SetOf(parsed), n) <==>
            forall order :: multiset(order) == multiset(parsed) ==> SetOf(parsed) <= Passes(accept, n, {}, order).stored
  {
    var all := SetOf(parsed);
    if all <= Level(accept, all, n) {
      forall order | multiset(order) == multiset(parsed) ensures all <= Passes(accept, n, {}, order).stored {
        SameSet(order, parsed);
        PassesCover(accept, all, n, n, {}, order);
      }
    } else {
      var order := Worst(accept, parsed, n, 0);
      WorstIsOrder(accept, parsed, n, 0);
      assert all - {} == all;
      InAll(parsed, all);
      WorstPasses(accept, parsed, n, 0);
      assert multiset(order) == multiset(parsed);
    }
  }

  /** A batch is persisted in full for every order of its events exactly when no event needs more
      than eight rounds of dependencies. */
  lemma EveryOrderPersists<E(!new)>(accept: Acceptance<E>, parsed: seq<E>)
    requires Monotone(accept)
    ensures SetOf(parsed) <= Level(accept, SetOf(parsed), PASSES) <==>
            forall order :: multiset(order) == multiset(parsed) ==>
              SetOf(parsed) <= Passes(accept, PASSES, {}, order).stored
  {
    OrdersPersist(accept, PASSES, parsed);
  }

  // ---------- when the order matters ----------

  /** Dependencies before dependents: the events of the first `k` levels, lowest level first. */
  ghost function Best<E>(accept: Acceptance<E>, parsed: seq<E>, k: nat): seq<E>
  {
    if k == 0 then []
    else
      var all := SetOf(parsed);
      Best(accept, parsed, k - 1) + In(parsed, Level(accept, all, k) - Level(accept, all, k - 1))
  }

  lemma {:induction false} BestIsOrder<E(!new)>(accept: Acceptance<E>, parsed: seq<E>, k: nat)
    requires Monotone(accept)
    ensures multiset(Best(accept, parsed, k)) == multiset(In(parsed, Level(accept, SetOf(parsed), k)))
  {
    var all := SetOf(parsed);
    if k == 0 {
      InNone(parsed);
    } else {
      var low, high := Level(accept, all, k - 1), Level(accept, all, k);
      BestIsOrder(accept, parsed, k - 1);
      LevelGrows(accept, all, k - 1);
      InLevels(parsed, low, high);
    }
  }

  lemma InLevels<E>(s: seq<E>, low: set<E>, high: set<E>)
    requires low <= high
    ensures multiset(In(s, high)) == multiset(In(s, low)) + multiset(In(s, high - low))
  {
    InSplit(s, low, high - low);
    assert low + (high - low) == high;
  }

  lemma {:induction false} InNone<E>(s: seq<E>)
    ensures In(s, {}) == []
  {
    if s != [] { InNone(s[..|s| - 1]); }
  }

  /** One pass in the best order already stores `k` levels. */
  lemma {:induction false} BestPass<E(!new)>(accept: Acceptance<E>, parsed: seq<E>, k: nat)
    requires Monotone(accept)
    ensures Level(accept, SetOf(parsed), k) <= Pass(accept, {}, Best(accept, parsed, k)).stored
  {
    if k > 0 {
      var all := SetOf(parsed);
      var low, high := Level(accept, all, k - 1), Level(accept, all, k);
      var front, now := Best(accept, parsed, k - 1), In(parsed, high - low);
      BestPass(accept, parsed, k - 1);
      PassAppend(accept, {}, front, now);
      InSet(parsed, high - low);
      LevelWithin(accept, all, k);
      PassNext(accept, Pass(accept, {}, front).stored, low, high, now);
    }
  }

  /** A pass over what one more level adds stores that level. */
  lemma PassNext<E(!new)>(accept: Acceptance<E>, stored: set<E>, low: set<E>, high: set<E>, now: seq<E>)
    requires Monotone(accept) && low <= stored && high - low <= SetOf(now)
    requires forall e :: e in high ==> accept(low, e)
    ensures high <= Pass(accept, stored, now).stored
  {
    PassStores(accept, stored, now);
    forall e | e in high - low ensures e in Pass(accept, stored, now).stored {
      assert e in SetOf(now) && accept(stored, e);
    }
  }

  lemma {:induction false} PassesKeep<E(!new)>(accept: Acceptance<E>, n: nat, stored: set<E>, pending: seq<E>)
    requires Monotone(accept)
    ensures stored <= Passes(accept, n, stored, pending).stored
  {
    if n > 0 && pending != [] {
      var b := Pass(accept, stored, pending);
      PassStores(accept, stored, pending);
      if |b.pending| != |pending| { PassesKeep(accept, n - 1, b.stored, b.pending); }
    }
  }

  /** What the first pass stores stays stored. */
  lemma FirstPassKept<E(!new)>(accept: Acceptance<E>, n: nat, stored: set<E>, pending: seq<E>)
    requires Monotone(accept) && n > 0
    ensures Pass(accept, stored, pending).stored <= Passes(accept, n, stored, pending).stored
  {
    var b := Pass(accept, stored, pending);
    if pending != [] && |b.pending| != |pending| { PassesKeep(accept, n - 1, b.stored, b.pending); }
  }

  /** Some order of a batch that stores `k` levels in any positive number of passes. */
  lemma BestOrder<E(!new)>(accept: Acceptance<E>, n: nat, parsed: seq<E>, k: nat) returns (order: seq<E>)
    requires Monotone(accept) && n > 0
    ensures multiset(order) == multiset(parsed)
    ensures Level(accept, SetOf(parsed), k) <= Passes(accept, n, {}, order).stored
  {
    var all := SetOf(parsed);
    var level := Level(accept, all, k);
    var front, back := Best(accept, parsed, k), In(parsed, all - level);
    order := front + back;
    BestIsOrder(accept, parsed, k);
    LevelWithin(accept, all, k);
    InLevels(parsed, level, all);
    InAll(parsed, all);
    BestPass(accept, parsed, k);
    PassAppend(accept, {}, front, back);
    PassStores(accept, Pass(accept, {}, front).stored, back);
    FirstPassKept(accept, n, {}, order);
  }

  /** Some order of a batch that stores no more than one level a pass. */
  lemma WorstOrder<E(!new)>(accept: Acceptance<E>, n: nat, parsed: seq<E>) returns (order: seq<E>)
    requires Monotone(accept)
    ensures multiset(order) == multiset(parsed)
    ensures Passes(accept, n, {}, order).stored <= Level(accept, SetOf(parsed), n)
  {
    order := Worst(accept, parsed, n, 0);
    WorstIsOrder(accept, parsed, n, 0);
    assert SetOf(parsed) - {} == SetOf(parsed);
    InAll(parsed, SetOf(parsed));
    WorstPasses(accept, parsed, n, 0);
  }

  lemma {:induction false} LevelsClosed<E(!new)>(accept: Acceptance<E>, all: set<E>, n: nat, k: nat)
    requires Monotone(accept) && Level(accept, all, n + 1) <= Level(accept, all, n)
    ensures Level(accept, all, k) <= Level(accept, all, n)
    decreases k
  {
    if k <= n {
      LevelsNest(accept, all, k, n);
    } else {
      LevelsClosed(accept, all, n, k - 1);
    }
  }

  /** When no event needs more than `n` rounds, every order stores exactly the first `n` levels. */
  lemma ClosedOutcome<E(!new)>(accept: Acceptance<E>, n: nat, parsed: seq<E>, order: seq<E>)
    requires Monotone(accept) && multiset(order) == multiset(parsed)
    requires Level(accept, SetOf(parsed), n + 1) <= Level(accept, SetOf(parsed), n)
    ensures Passes(accept, n, {}, order).stored == Level(accept, SetOf(parsed), n)
  {
    var all := SetOf(parsed);
    SameSet(order, parsed);
    PassesCover(accept, all, n, n, {}, order);
    var k := PassesWithin(accept, all, n, 0, {}, order);
    LevelsClosed(accept, all, n, k);
  }

  /** What `n` passes store does not depend on the order of the events. */
  ghost predicate OrderIndependent<E(!new)>(accept: Acceptance<E>, n: nat, parsed: seq<E>)
  {
    forall a, b :: multiset(a) == multiset(parsed) && multiset(b) == multiset(parsed) ==>
      Passes(accept, n, {}, a).stored == Passes(accept, n, {}, b).stored
  }

  lemma OrderIndependence<E(!new)>(accept: Acceptance<E>, n: nat, parsed: seq<E>)
    requires Monotone(accept) && n > 0
    ensures OrderIndependent(accept, n, parsed) <==>
            Level(accept, SetOf(parsed), n + 1) <= Level(accept, SetOf(parsed), n)
  {
    if Level(accept, SetOf(parsed), n + 1) <= Level(accept, SetOf(parsed), n) {
      forall a, b | multiset(a) == multiset(parsed) && multiset(b) == multiset(parsed)
        ensures Passes(accept, n, {}, a).stored == Passes(accept, n, {}, b).stored
      {
        ClosedOutcome(accept, n, parsed, a);
        ClosedOutcome(accept, n, parsed, b);
      }
    } else {
      var best := BestOrder(accept, n, parsed, n + 1);
      var worst := WorstOrder(accept, n, parsed);
      assert Passes(accept, n, {}, best).stored != Passes(accept, n, {}, worst).stored;
    }
  }

  /** The order of a batch does not matter if and only if no event needs a ninth round: every
      event acceptable after nine rounds of dependencies is acceptable after eight. */
  lemma OrderDoesNotMatter<E(!new)>(accept: Acceptance<E>, parsed: seq<E>)
    requires Monotone(accept)
    ensures OrderIndependent(accept, PASSES, parsed) <==>
            Level(accept, SetOf(parsed), PASSES + 1) <= Level(accept, SetOf(parsed), PASSES)
  {
    OrderIndependence(accept, PASSES, parsed);
  }

  // ---------- a chain of dependencies ----------

  /** Event `i + 1` depends on event `i`. */
  ghost function Chained(): Acceptance<nat>
  {
    (stored: set<nat>, e: nat) => e == 0 || e - 1 in stored
  }

  ghost function Upto(n: nat): (r: set<nat>)
    ensures forall e: nat :: e in r <==> e < n
  {
    if n == 0 then {} else Upto(n - 1) + {n - 1}
  }

  ghost function Ascending(n: nat): (s: seq<nat>)
    ensures |s| == n
  {
    if n == 0 then [] else Ascending(n - 1) + [n - 1]
  }

  /** `hi`, ..., `lo`. */
  ghost function Descending(hi: nat, lo: nat): seq<nat>
    decreases hi + 1 - lo
  {
    if lo > hi then [] else Descending(hi, lo + 1) + [lo]
  }

  lemma {:induction false} DescendingMembers(hi: nat, lo: nat)
    ensures forall e :: e in Descending(hi, lo) <==> lo <= e <= hi
    decreases hi + 1 - lo
  {
    if lo <= hi { DescendingMembers(hi, lo + 1); }
  }

  ghost predicate Opened(n: nat) { true }

  /** `accept` as in a chain; looked into only where `Opened`. */
  ghost predicate Chains(accept: Acceptance<nat>)
  {
    forall x {:trigger Opened(x)} :: Opened(x) ==>
      Monotone(accept) && forall s, e :: accept(s, e) <==> e == 0 || e - 1 in s
  }

  lemma ChainedChains()
    ensures Chains(Chained())
  {
  }

  /** In ascending order one pass stores the whole chain. */
  lemma {:induction false} ChainAscending(accept: Acceptance<nat>, n: nat)
    requires Chains(accept)
    ensures Pass(accept, {}, Ascending(n)) == Batch(Upto(n), [])
  {
    assert Opened(0);
    if n > 0 {
      ChainAscending(accept, n - 1);
      assert Ascending(n)[..n - 1] == Ascending(n - 1);
    }
  }

  /** A pass in which only the last event is acceptable. */
  lemma PassLastOnly<E>(accept: Acceptance<E>, stored: set<E>, later: seq<E>, e: E)
    requires accept(stored, e) && forall x :: x in later ==> !accept(stored, x)
    ensures Pass(accept, stored, later + [e]) == Batch(stored + {e}, later)
  {
    PassNone(accept, stored, later);
    assert (later + [e])[..|later|] == later;
  }

  lemma ChainPass(accept: Acceptance<nat>, hi: nat, k: nat)
    requires k <= hi && Chains(accept)
    ensures Pass(accept, Upto(k), Descending(hi, k)) == Batch(Upto(k + 1), Descending(hi, k + 1))
    ensures |Descending(hi, k)| == |Descending(hi, k + 1)| + 1
  {
    assert Opened(0);
    DescendingMembers(hi, k + 1);
    PassLastOnly(accept, Upto(k), Descending(hi, k + 1), k);
  }

  /** `n` passes end in `b`; looked into only where `Opened`. */
  ghost predicate EndsIn<E>(accept: Acceptance<E>, n: nat, stored: set<E>, pending: seq<E>, b: Batch<E>)
  {
    forall x {:trigger Opened(x)} :: Opened(x) ==> Passes(accept, n, stored, pending) == b
  }

  lemma OpenEnd<E>(accept: Acceptance<E>, n: nat, stored: set<E>, pending: seq<E>, b: Batch<E>)
    requires EndsIn(accept, n, stored, pending, b)
    ensures Passes(accept, n, stored, pending) == b
  {
    assert Opened(n);
  }

  lemma PassFirst<E>(accept: Acceptance<E>, n: nat, stored: set<E>, pending: seq<E>, next: Batch<E>, b: Batch<E>)
    requires n > 0 && Pass(accept, stored, pending) == next && |next.pending| < |pending|
    requires EndsIn(accept, n - 1, next.stored, next.pending, b)
    ensures EndsIn(accept, n, stored, pending, b)
  {
    assert Opened(n);
    PassesStep(accept, n, stored, pending, next.stored, next.pending);
  }

  /** In descending order each pass stores one event. */
  lemma {:induction false} ChainDescending(accept: Acceptance<nat>, hi: nat, m: nat, k: nat, stored: set<nat>,
                                           pending: seq<nat>, b: Batch<nat>)
    requires k <= m <= hi && Chains(accept) && stored == Upto(k) && pending == Descending(hi, k)
    requires b == Batch(Upto(m), Descending(hi, m))
    ensures EndsIn(accept, m - k, stored, pending, b)
    decreases m - k
  {
    if k < m {
      ChainPass(accept, hi, k);
      ChainDescending(accept, hi, m, k + 1, Upto(k + 1), Descending(hi, k + 1), b);
      PassFirst(accept, m - k, stored, pending, Batch(Upto(k + 1), Descending(hi, k + 1)), b);
    } else {
      NoPasses(accept, stored, pending);
    }
  }

  lemma NoPasses<E>(accept: Acceptance<E>, stored: set<E>, pending: seq<E>)
    ensures EndsIn(accept, 0, stored, pending, Batch(stored, pending))
  {
  }

  lemma PassesStep<E>(accept: Acceptance<E>, n: nat, stored: set<E>, pending: seq<E>, stored': set<E>, pending': seq<E>)
    requires n > 0 && Pass(accept, stored, pending) == Batch(stored', pending') && |pending'| < |pending|
    ensures Passes(accept, n, stored, pending) == Passes(accept, n - 1, stored', pending')
  {
  }

  lemma {:induction false} DescendingHead(hi: nat, lo: nat)
    requires lo <= hi
    ensures Descending(hi, lo) == [hi] + (if hi == 0 then [] else Descending(hi - 1, lo))
    decreases hi - lo
  {
    if lo < hi { DescendingHead(hi, lo + 1); }
  }

  lemma {:induction false} SameEvents(n: nat)
    ensures multiset(Descending(n, 0)) == multiset(Ascending(n + 1))
  {
    DescendingHead(n, 0);
    if n == 0 {
      assert Ascending(1) == [0];
    } else {
      SameEvents(n - 1);
      EitherEnd(Descending(n - 1, 0), Ascending(n), n);
    }
  }

  lemma EitherEnd<E>(s: seq<E>, t: seq<E>, e: E)
    requires multiset(s) == multiset(t)
    ensures multiset([e] + s) == multiset(t + [e])
  {
    assert multiset([e] + s) == multiset{e} + multiset(s);
  }

  /** A chain of one event more than there are passes: ascending order persists all of it, and
      descending order leaves the last event pending. */
  lemma ChainOrders(accept: Acceptance<nat>, n: nat)
    requires n > 0 && Chains(accept)
    ensures multiset(Descending(n, 0)) == multiset(Ascending(n + 1))
    ensures Passes(accept, n, {}, Ascending(n + 1)).stored == Upto(n + 1)
    ensures Passes(accept, n, {}, Descending(n, 0)) == Batch(Upto(n), [n])
  {
    AllAtOnce(accept, n);
    SameEvents(n);
    ChainDescends(accept, n);
    OpenEnd(accept, n, {}, Descending(n, 0), Batch(Upto(n), [n]));
  }

  lemma ChainDescends(accept: Acceptance<nat>, n: nat)
    requires Chains(accept)
    ensures EndsIn(accept, n, {}, Descending(n, 0), Batch(Upto(n), [n]))
  {
    LastOne(n);
    ChainDescending(accept, n, n, 0, {}, Descending(n, 0), Batch(Upto(n), [n]));
  }

  lemma AllAtOnce(accept: Acceptance<nat>, n: nat)
    requires n > 0 && Chains(accept)
    ensures Passes(accept, n, {}, Ascending(n + 1)).stored == Upto(n + 1)
  {
    ChainAscending(accept, n + 1);
    PassesStep(accept, n, {}, Ascending(n + 1), Upto(n + 1), []);
  }

  lemma LastOne(n: nat)
    ensures Descending(n, n) == [n]
  {
    assert Descending(n, n + 1) == [];
  }

  /** A nine-deep chain whose last event depends on the order for its fate. */
  lemma NineDeepChain()
    ensures Chains(Chained()) && multiset(Descending(8, 0)) == multiset(Ascending(9))
    ensures Passes(Chained(), PASSES, {}, Ascending(9)).stored == Upto(9)
    ensures Passes(Chained(), PASSES, {}, Descending(8, 0)) == Batch(Upto(8), [8])
  {
    ChainedChains();
    ChainOrders(Chained(), PASSES);
  }
}
