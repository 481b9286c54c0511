/** Legacy state snapshots: a forest of diffs, its full replay, and the bounded cache that
    shortens the replay (src/service/migrations.rs:2588-2687). */
module StateChain {
  import opened Bytes
  import opened StateDiff

  /** The raw `shortstatehash_statediff` table. */
  type Store = map<nat, Key>

  type State = set<Entry>

  function Fetch(store: Store, h: nat): Option<Diff>
  {
    if h in store then Parse(store[h]) else None
  }

  /** Parent pointers strictly decrease some rank, so every chain ends. */
  ghost predicate Acyclic(store: Store, rank: nat -> nat)
  {
    forall h {:trigger Fetch(store, h)} ::
      Fetch(store, h).Some? && Fetch(store, h).value.parent.Some? ==>
        rank(Fetch(store, h).value.parent.value) < rank(h)
  }

  function Step(base: State, d: Diff): State { (base + d.added) - d.removed }

  /** The state of snapshot `h`: every diff from the root of its chain, oldest first.
      `None` when a record of the chain is missing or truncated. */
  ghost function Replay(store: Store, rank: nat -> nat, h: nat): Option<State>
    requires Acyclic(store, rank)
    decreases rank(h)
  {
    match Fetch(store, h)
    case None => None
    case Some(d) =>
      if d.parent.None? then Some(Step({}, d))
      else
        match Replay(store, rank, d.parent.value)
        case None => None
        case Some(base) => Some(Step(base, d))
  }

  /** Applying a stack of diffs from its top (the oldest) down. */
  function Unwind(base: State, stack: seq<Diff>): State
    decreases |stack|
  {
    if stack == [] then base
    else Unwind(Step(base, stack[|stack| - 1]), stack[..|stack| - 1])
  }

  lemma UnwindPush(base: State, stack: seq<Diff>, d: Diff)
    ensures Unwind(base, stack + [d]) == Unwind(Step(base, d), stack)
  {
    assert (stack + [d])[..|stack|] == stack;
  }

  /** The replay of `h`, once the walk has pushed `stack` and stands at `curr`. */
  ghost predicate Walked(store: Store, rank: nat -> nat, h: nat, curr: Option<nat>, stack: seq<Diff>)
    requires Acyclic(store, rank)
  {
    Replay(store, rank, h) ==
      match curr
      case None => Some(Unwind({}, stack))
      case Some(c) =>
        match Replay(store, rank, c)
        case None => None
        case Some(base) => Some(Unwind(base, stack))
  }

  /** The second loop of both resolvers. */
  method ApplyStack(start: State, stack: seq<Diff>) returns (state: State)
    ensures state == Unwind(start, stack)
  {
    state := start;
    var i := |stack|;
    assert stack[..i] == stack;
    while i > 0
      invariant 0 <= i <= |stack|
      invariant Unwind(state, stack[..i]) == Unwind(start, stack)
    {
      i := i - 1;
      assert stack[..i + 1][..i] == stack[..i];
      state := state + stack[i].added;
      state := state - stack[i].removed;
    }
    assert stack[..0] == [];
  }

  /** `legacy_get_full_state`: replay of the whole chain. */
  method GetFullState(store: Store, h: nat, ghost rank: nat -> nat) returns (state: Option<State>)
    requires Acyclic(store, rank)
    ensures state == Replay(store, rank, h)
  {
    var stack: seq<Diff> := [];
    var curr := Some(h);
    while curr.Some?
      invariant Walked(store, rank, h, curr, stack)
      decreases if curr.Some? then rank(curr.value) + 1 else 0
    {
      var diff := Fetch(store, curr.value);
      if diff.None? { return None; }
      WalkOn(store, rank, h, curr.value, stack);
      stack := stack + [diff.value];
      curr := diff.value.parent;
    }
    var full := ApplyStack({}, stack);
    state := Some(full);
  }

  lemma WalkOn(store: Store, rank: nat -> nat, h: nat, c: nat, stack: seq<Diff>)
    requires Acyclic(store, rank) && Walked(store, rank, h, Some(c), stack)
    requires Fetch(store, c).Some?
    ensures var d := Fetch(store, c).value;
            Walked(store, rank, h, d.parent, stack + [d]) && (d.parent.Some? ==> rank(d.parent.value) < rank(c))
  {
    var d := Fetch(store, c).value;
    if d.parent.None? {
      UnwindPush({}, stack, d);
    } else if Replay(store, rank, d.parent.value).Some? {
      UnwindPush(Replay(store, rank, d.parent.value).value, stack, d);
    }
  }

  /** The newest `n` of a sequence. */
  function Newest(s: seq<nat>, n: nat): seq<nat>
  {
    if |s| <= n then s else s[|s| - n..]
  }

  ghost predicate Distinct(s: seq<nat>)
  {
    forall i, j :: 0 <= i < j < |s| ==> s[i] != s[j]
  }

  lemma PopFront(s: seq<nat>)
    requires Distinct(s) && s != []
    ensures Distinct(s[1..]) && s[0] !in s[1..]
    ensures forall k :: k in s <==> k == s[0] || k in s[1..]
  {
    assert s == [s[0]] + s[1..];
  }

  /** What every snapshot replays to, as a function the cache can be checked against. */
  ghost function Replays(store: Store, rank: nat -> nat): nat -> Option<State>
    requires Acyclic(store, rank)
  {
    h => Replay(store, rank, h)
  }

  class StateCache {
    var states: map<nat, State>
    var order: seq<nat>
    const capacity: nat
    ghost const truth: nat -> Option<State>

    /** `order` lists the cached snapshots once each, oldest first, within capacity, and every
        cached state is the true one. */
    ghost predicate Valid()
      reads this
    {
      && capacity >= 1 && |order| <= capacity
      && Distinct(order)
      && (forall h :: h in order <==> h in states)
      && (forall h :: h in states ==> truth(h) == Some(states[h]))
    }

    constructor (requested: nat, ghost replays: nat -> Option<State>)
      ensures Valid() && states == map[] && truth == replays
      ensures capacity == if requested == 0 then 1 else requested
    {
      states, order := map[], [];
      capacity := if requested == 0 then 1 else requested;
      truth := replays;
    }

    /** First in, first out: the entry just inserted always stays. */
    method Insert(h: nat, state: State)
      requires Valid() && truth(h) == Some(state)
      modifies this
      ensures Valid()
      ensures order == if h in old(states) then old(order) else Newest(old(order) + [h], capacity)
      ensures h in states && states[h] == state
      ensures forall k :: k in states && k != h ==> k in old(states) && states[k] == old(states)[k]
    {
      if h !in states { order := order + [h]; }
      states := states[h := state];
      ghost var pushed := order;
      while |order| > capacity
        invariant |pushed| <= capacity + 1 && capacity >= 1
        invariant order == pushed || (|pushed| == capacity + 1 && order == pushed[1..])
        invariant Distinct(order) && (forall k :: k in order <==> k in states)
        invariant order != [] && (h in old(states) ==> order == old(order))
        invariant h !in old(states) ==> order[|order| - 1] == h
        invariant h in states && states[h] == state
        invariant forall k :: k in states && k != h ==> k in old(states) && states[k] == old(states)[k]
      {
        var oldest := order[0];
        PopFront(order);
        order := order[1..];
        states := states - {oldest};
      }
    }

    /** `legacy_get_full_state_cached`: the same result as the whole-chain replay, missing
        records included, whatever the cache holds. */
    method GetFullStateCached(store: Store, h: nat, ghost rank: nat -> nat) returns (state: Option<State>)
      requires Acyclic(store, rank) && Valid() && truth == Replays(store, rank)
      modifies this
      ensures Valid()
      ensures state == Replay(store, rank, h)
      ensures state.Some? ==> h in states
    {
      if h in states { return Some(states[h]); }
      var stack: seq<Diff> := [];
      var base: State := {};
      var curr := Some(h);
      while curr.Some?
        invariant Walked(store, rank, h, curr, stack) && base == {} && Valid()
        decreases if curr.Some? then rank(curr.value) + 1 else 0
      {
        if curr.value in states {
          base := states[curr.value];
          break;
        }
        var diff := Fetch(store, curr.value);
        if diff.None? { return None; }
        WalkOn(store, rank, h, curr.value, stack);
        curr := diff.value.parent;
        stack := stack + [diff.value];
      }
      var full := ApplyStack(base, stack);
      Insert(h, full);
      state := Some(full);
    }

    method Request(store: Store, h: nat, ghost rank: nat -> nat) returns (state: Option<State>)
      requires Acyclic(store, rank) && Valid() && truth == Replays(store, rank)
      modifies this
      ensures Valid() && state == truth(h)
    {
      state := GetFullStateCached(store, h, rank);
    }

    /** Any sequence of requests, from any sound cache of any capacity. */
    method ResolveAll(store: Store, requests: seq<nat>, ghost rank: nat -> nat)
      returns (results: seq<Option<State>>)
      requires Acyclic(store, rank) && Valid() && truth == Replays(store, rank)
      modifies this
      ensures Valid() && |results| == |requests|
      ensures forall i :: 0 <= i < |requests| ==> results[i] == Replay(store, rank, requests[i])
    {
      results := [];
      var i := 0;
      while i < |requests|
        invariant 0 <= i <= |requests| && |results| == i
        invariant Valid()
        invariant forall j :: 0 <= j < i ==> results[j] == truth(requests[j])
      {
        var r := Request(store, requests[i], rank);
        results := results + [r];
        i := i + 1;
      }
      assert forall j :: 0 <= j < |requests| ==> truth(requests[j]) == Replay(store, rank, requests[j]);
    }
  }

  /** The replay does not depend on which rank witnesses acyclicity. */
  lemma {:induction false} ReplayUnique(store: Store, r1: nat -> nat, r2: nat -> nat, h: nat)
    requires Acyclic(store, r1) && Acyclic(store, r2)
    ensures Replay(store, r1, h) == Replay(store, r2, h)
    decreases r1(h)
  {
    if Fetch(store, h).Some? && Fetch(store, h).value.parent.Some? {
      ReplayUnique(store, r1, r2, Fetch(store, h).value.parent.value);
    }
  }

  // ---------- what the replay holds, entry by entry ----------

  /** The `i`-th snapshot of the chain of parents from `h`. */
  ghost function Link(store: Store, h: nat, i: nat): Option<nat>
  {
    if i == 0 then Some(h)
    else
      var c := Link(store, h, i - 1);
      if c.None? || Fetch(store, c.value).None? then None else Fetch(store, c.value).value.parent
  }

  lemma {:induction false} LinkShift(store: Store, h: nat, p: nat, i: nat)
    requires Fetch(store, h).Some? && Fetch(store, h).value.parent == Some(p)
    ensures Link(store, h, i + 1) == Link(store, p, i)
  {
    if i > 0 { LinkShift(store, h, p, i - 1); } else { assert Link(store, h, 0) == Some(h); }
  }

  lemma {:induction false} LinkEnds(store: Store, h: nat, i: nat)
    requires Fetch(store, h).None? || Fetch(store, h).value.parent.None?
    ensures Link(store, h, i + 1) == None
  {
    if i > 0 { LinkEnds(store, h, i - 1); } else { assert Link(store, h, 0) == Some(h); }
  }

  /** The `i`-th snapshot of the chain has a readable diff. */
  ghost predicate HasDiff(store: Store, h: nat, i: nat)
  {
    Link(store, h, i).Some? && Fetch(store, Link(store, h, i).value).Some?
  }

  ghost function DiffAt(store: Store, h: nat, i: nat): Diff
    requires HasDiff(store, h, i)
  {
    Fetch(store, Link(store, h, i).value).value
  }

  /** The `i`-th snapshot adds `x` and does not remove it, and no newer one removes it. */
  ghost predicate AddedAt(store: Store, h: nat, x: Entry, i: nat)
  {
    && HasDiff(store, h, i) && x in DiffAt(store, h, i).added && x !in DiffAt(store, h, i).removed
    && forall j :: 0 <= j < i && HasDiff(store, h, j) ==> x !in DiffAt(store, h, j).removed
  }

  lemma AddedShift(store: Store, h: nat, p: nat, x: Entry, i: nat)
    requires Fetch(store, h).Some? && Fetch(store, h).value.parent == Some(p)
    ensures AddedAt(store, h, x, i + 1) <==> x !in Fetch(store, h).value.removed && AddedAt(store, p, x, i)
  {
    assert Link(store, h, 0) == Some(h);
    LinkShift(store, h, p, i);
    if x !in Fetch(store, h).value.removed && AddedAt(store, p, x, i) {
      forall j: nat | j < i + 1 && HasDiff(store, h, j) ensures x !in DiffAt(store, h, j).removed {
        if j > 0 {
          LinkShift(store, h, p, j - 1);
          assert HasDiff(store, p, j - 1);
        }
      }
    }
    if AddedAt(store, h, x, i + 1) {
      assert HasDiff(store, h, 0) && x !in DiffAt(store, h, 0).removed;
      forall j: nat | j < i && HasDiff(store, p, j) ensures x !in DiffAt(store, p, j).removed {
        LinkShift(store, h, p, j);
        assert HasDiff(store, h, j + 1);
      }
    }
  }

  /** An entry is in the state of `h` if and only if some snapshot of its chain adds it without
      removing it, and no newer one removes it. */
  lemma {:induction false} ReplayHolds(store: Store, rank: nat -> nat, h: nat, x: Entry)
    requires Acyclic(store, rank) && Replay(store, rank, h).Some?
    ensures x in Replay(store, rank, h).value <==> exists i: nat :: AddedAt(store, h, x, i)
    decreases rank(h)
  {
    var d := Fetch(store, h).value;
    assert Link(store, h, 0) == Some(h);
    assert AddedAt(store, h, x, 0) <==> x in d.added && x !in d.removed;
    if d.parent.None? {
      forall i: nat | AddedAt(store, h, x, i) ensures i == 0 { if i > 0 { LinkEnds(store, h, i - 1); } }
    } else {
      ReplayHolds(store, rank, d.parent.value, x);
      AddedOrOlder(store, h, d.parent.value, x);
    }
  }

  lemma AddedOrOlder(store: Store, h: nat, p: nat, x: Entry)
    requires Fetch(store, h).Some? && Fetch(store, h).value.parent == Some(p)
    ensures var d := Fetch(store, h).value;
            (exists i: nat :: AddedAt(store, h, x, i)) <==>
            x !in d.removed && (x in d.added || exists i: nat :: AddedAt(store, p, x, i))
  {
    var d := Fetch(store, h).value;
    assert Link(store, h, 0) == Some(h);
    assert AddedAt(store, h, x, 0) <==> x in d.added && x !in d.removed;
    if i: nat :| AddedAt(store, h, x, i) {
      if i > 0 { AddedShift(store, h, p, x, i - 1); }
    }
    if j: nat :| AddedAt(store, p, x, j) { AddedShift(store, h, p, x, j); }
  }

  /** The `i`-th snapshot of the chain is missing or too short to hold its parent. */
  ghost predicate Broken(store: Store, h: nat, i: nat)
  {
    var c := Link(store, h, i);
    c.Some? && (c.value !in store || |store[c.value]| < 8)
  }

  /** There is no state if and only if some record of the chain is missing or truncated. */
  lemma {:induction false} ReplayFails(store: Store, rank: nat -> nat, h: nat)
    requires Acyclic(store, rank)
    ensures Replay(store, rank, h).None? <==> exists i: nat :: Broken(store, h, i)
    decreases rank(h)
  {
    assert Link(store, h, 0) == Some(h);
    assert Broken(store, h, 0) <==> Fetch(store, h).None?;
    if Fetch(store, h).Some? {
      var parent := Fetch(store, h).value.parent;
      if parent.None? {
        forall i: nat ensures !Broken(store, h, i) { if i > 0 { LinkEnds(store, h, i - 1); } }
      } else {
        ReplayFails(store, rank, parent.value);
        if i: nat :| Broken(store, h, i) {
          LinkShift(store, h, parent.value, i - 1);
          assert Broken(store, parent.value, i - 1);
        }
        if j: nat :| Broken(store, parent.value, j) {
          LinkShift(store, h, parent.value, j);
          assert Broken(store, h, j + 1);
        }
      }
    }
  }

  /** What one snapshot adds and the next removes is gone: snapshot 2 of these records is empty. */
  lemma RemovedIsGone(store: Store, rank: nat -> nat, x: Entry)
    requires store == map[1 := Layout(None, [x], []), 2 := Layout(Some(1), [], [x])] && x[..8] != MARKER
    requires Acyclic(store, rank)
    ensures Replay(store, rank, 1) == Some({x}) && Replay(store, rank, 2) == Some({})
  {
    LayoutRoundTrip(None, [x], []);
    LayoutRoundTrip(Some(1), [], [x]);
    assert SetOf([x]) == {x} && SetOf([]) == {};
    assert Fetch(store, 1) == Some(Diff(None, {x}, {}));
    assert Fetch(store, 2) == Some(Diff(Some(1), {}, {x}));
  }
}
