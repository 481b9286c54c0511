/** The chunked per-event root backfill of `db_lt_23`
    (src/service/migrations.rs:2728-2763 and 2896-2949). */
module RootBackfill {
  import opened Bytes
  import opened StateDiff
  import opened StateChain

  /** The serialized root handle of a snapshot. */
  type Root = Key

  /** The events a snapshot added, in record order. */
  type Added = nat -> seq<nat>

  /** The root of a snapshot; `None` when it cannot be built. */
  type Roots = nat -> Option<Root>

  ghost predicate Ascends(hs: seq<nat>)
  {
    forall i, j :: 0 <= i < j < |hs| ==> hs[i] < hs[j]
  }

  ghost predicate AllResolve(roots: Roots, hs: seq<nat>)
  {
    forall i :: 0 <= i < |hs| ==> roots(hs[i]).Some?
  }

  // ---------- labelling, one snapshot at a time ----------

  /** Point every event at `root`. */
  function Label(table: map<nat, Root>, events: seq<nat>, root: Root): (r: map<nat, Root>)
    ensures forall e :: e in r <==> e in table || e in events
    ensures forall e :: e in r ==> r[e] == if e in events then root else table[e]
    decreases |events|
  {
    if events == [] then table else Label(table[events[0] := root], events[1..], root)
  }

  /** Label the events of every snapshot of `hs`, in order. */
  ghost function LabelAll(added: Added, roots: Roots, hs: seq<nat>, table: map<nat, Root>): map<nat, Root>
    decreases |hs|
  {
    if hs == [] then table
    else LabelAll(added, roots, hs[1..],
                  if roots(hs[0]).None? then table else Label(table, added(hs[0]), roots(hs[0]).value))
  }

  lemma {:induction false} LabelAllSplit(added: Added, roots: Roots, a: seq<nat>, b: seq<nat>, table: map<nat, Root>)
    ensures LabelAll(added, roots, a + b, table) == LabelAll(added, roots, b, LabelAll(added, roots, a, table))
    decreases |a|
  {
    if a == [] {
      assert a + b == b;
    } else {
      assert (a + b)[1..] == a[1..] + b;
      LabelAllSplit(added, roots, a[1..], b,
                    if roots(a[0]).None? then table else Label(table, added(a[0]), roots(a[0]).value));
    }
  }

  lemma {:induction false} LabelsUntouched(added: Added, roots: Roots, hs: seq<nat>, table: map<nat, Root>, e: nat)
    requires forall i :: 0 <= i < |hs| ==> e !in added(hs[i])
    ensures var done := LabelAll(added, roots, hs, table);
            (e in done <==> e in table) && (e in table ==> done[e] == table[e])
    decreases |hs|
  {
    if hs != [] {
      LabelsUntouched(added, roots, hs[1..],
                      if roots(hs[0]).None? then table else Label(table, added(hs[0]), roots(hs[0]).value), e);
    }
  }

  // ---------- chunking ----------

  function Weight(added: Added, hs: seq<nat>): nat
    decreases |hs|
  {
    if hs == [] then 0 else |added(hs[0])| + Weight(added, hs[1..])
  }

  /** Whether the loop reaches its end: every chunk that is flushed must resolve. */
  ghost predicate Succeeds(added: Added, roots: Roots, hs: seq<nat>, chunk: seq<nat>, pending: nat, threshold: nat)
    decreases |hs|
  {
    if hs == [] then pending > 0 ==> AllResolve(roots, chunk)
    else
      var chunk', pending' := chunk + [hs[0]], pending + |added(hs[0])|;
      if pending' >= threshold then
        AllResolve(roots, chunk') && Succeeds(added, roots, hs[1..], [], 0, threshold)
      else
        Succeeds(added, roots, hs[1..], chunk', pending', threshold)
  }

  lemma SucceedsStep(added: Added, roots: Roots, hs: seq<nat>, i: nat, chunk: seq<nat>, pending: nat, threshold: nat)
    requires i < |hs|
    ensures var chunk', pending' := chunk + [hs[i]], pending + |added(hs[i])|;
            Succeeds(added, roots, hs[i..], chunk, pending, threshold) ==
            if pending' >= threshold
            then AllResolve(roots, chunk') && Succeeds(added, roots, hs[i + 1..], [], 0, threshold)
            else Succeeds(added, roots, hs[i + 1..], chunk', pending', threshold)
  {
    assert hs[i..][1..] == hs[i + 1..];
  }

  /** A chunk with pending events is flushed in the end. */
  lemma {:induction false} ChunkResolves(
    added: Added, roots: Roots, hs: seq<nat>, chunk: seq<nat>, pending: nat, threshold: nat)
    requires Succeeds(added, roots, hs, chunk, pending, threshold) && pending > 0
    ensures AllResolve(roots, chunk)
    decreases |hs|
  {
    if hs != [] {
      var chunk', pending' := chunk + [hs[0]], pending + |added(hs[0])|;
      if pending' < threshold { ChunkResolves(added, roots, hs[1..], chunk', pending', threshold); }
      assert forall i :: 0 <= i < |chunk| ==> chunk[i] == chunk'[i];
    }
  }

  lemma {:induction false} AddingResolves(
    added: Added, roots: Roots, hs: seq<nat>, chunk: seq<nat>, pending: nat, threshold: nat, m: nat)
    requires Succeeds(added, roots, hs, chunk, pending, threshold) && m < |hs| && added(hs[m]) != []
    ensures roots(hs[m]).Some?
    decreases |hs|
  {
    var chunk', pending' := chunk + [hs[0]], pending + |added(hs[0])|;
    assert chunk'[|chunk|] == hs[0];
    if m == 0 {
      if pending' < threshold { ChunkResolves(added, roots, hs[1..], chunk', pending', threshold); }
    } else if pending' >= threshold {
      AddingResolves(added, roots, hs[1..], [], 0, threshold, m - 1);
    } else {
      AddingResolves(added, roots, hs[1..], chunk', pending', threshold, m - 1);
    }
  }

  /** The last snapshot that adds an event decides its label. */
  lemma LabelsLast(added: Added, roots: Roots, hs: seq<nat>, table: map<nat, Root>, m: nat, e: nat)
    requires m < |hs| && e in added(hs[m]) && roots(hs[m]).Some?
    requires forall i :: m < i < |hs| ==> e !in added(hs[i])
    ensures var done := LabelAll(added, roots, hs, table);
            e in done && Some(done[e]) == roots(hs[m])
  {
    var before := LabelAll(added, roots, hs[..m], table);
    assert hs == hs[..m] + hs[m..];
    LabelAllSplit(added, roots, hs[..m], hs[m..], table);
    assert hs[m..][1..] == hs[m + 1..];
    LabelsUntouched(added, roots, hs[m + 1..], Label(before, added(hs[m]), roots(hs[m]).value), e);
  }

  /** Wherever the chunk boundaries fall, a backfill that succeeds leaves each state event with
      the root of the greatest snapshot that added it. */
  lemma LabelsGreatest(added: Added, roots: Roots, hs: seq<nat>, threshold: nat, table: map<nat, Root>, m: nat, e: nat)
    requires Ascends(hs) && Succeeds(added, roots, hs, [], 0, threshold)
    requires m < |hs| && e in added(hs[m])
    requires forall i :: 0 <= i < |hs| && e in added(hs[i]) ==> hs[i] <= hs[m]
    ensures var done := LabelAll(added, roots, hs, table);
            e in done && Some(done[e]) == roots(hs[m])
  {
    AddingResolves(added, roots, hs, [], 0, threshold, m);
    LabelsLast(added, roots, hs, table, m, e);
  }

  lemma {:induction false} ResolvedSucceeds(
    added: Added, roots: Roots, hs: seq<nat>, chunk: seq<nat>, pending: nat, threshold: nat)
    requires AllResolve(roots, hs) && AllResolve(roots, chunk)
    ensures Succeeds(added, roots, hs, chunk, pending, threshold)
    decreases |hs|
  {
    if hs != [] {
      assert forall i :: 0 <= i < |hs[1..]| ==> hs[1..][i] == hs[i + 1];
      ResolvedSucceeds(added, roots, hs[1..], [], 0, threshold);
      ResolvedSucceeds(added, roots, hs[1..], chunk + [hs[0]], pending + |added(hs[0])|, threshold);
    }
  }

  lemma {:induction false} EmptySucceeds(added: Added, roots: Roots, hs: seq<nat>, chunk: seq<nat>, threshold: nat)
    requires threshold > 0 && Weight(added, hs) == 0
    ensures Succeeds(added, roots, hs, chunk, 0, threshold)
    decreases |hs|
  {
    if hs != [] { EmptySucceeds(added, roots, hs[1..], chunk + [hs[0]], threshold); }
  }

  lemma {:induction false} NeverFlushed(
    added: Added, roots: Roots, hs: seq<nat>, chunk: seq<nat>, pending: nat, threshold: nat)
    requires pending + Weight(added, hs) < threshold
    ensures Succeeds(added, roots, hs, chunk, pending, threshold) <==>
              (pending + Weight(added, hs) > 0 ==> AllResolve(roots, chunk + hs))
    decreases |hs|
  {
    if hs == [] {
      assert chunk + hs == chunk;
    } else {
      assert chunk + hs == (chunk + [hs[0]]) + hs[1..];
      NeverFlushed(added, roots, hs[1..], chunk + [hs[0]], pending + |added(hs[0])|, threshold);
    }
  }

  /** The backfill succeeds at every positive flush threshold if and only if every snapshot
      resolves (so adds at least one event), or no snapshot adds any event. */
  lemma EveryThresholdSucceeds(added: Added, roots: Roots, hs: seq<nat>)
    ensures (forall threshold :: threshold > 0 ==> Succeeds(added, roots, hs, [], 0, threshold)) <==>
              AllResolve(roots, hs) || Weight(added, hs) == 0
  {
    var w := Weight(added, hs);
    NeverFlushed(added, roots, hs, [], 0, w + 1);
    assert [] + hs == hs;
    if AllResolve(roots, hs) {
      forall threshold | threshold > 0 ensures Succeeds(added, roots, hs, [], 0, threshold) {
        ResolvedSucceeds(added, roots, hs, [], 0, threshold);
      }
    } else if w == 0 {
      forall threshold | threshold > 0 ensures Succeeds(added, roots, hs, [], 0, threshold) {
        EmptySucceeds(added, roots, hs, [], threshold);
      }
    }
  }

  /** How many snapshots there are up to the last one that adds an event. */
  function Adding(added: Added, hs: seq<nat>): (n: nat)
    ensures n <= |hs| && (n > 0 <==> Weight(added, hs) > 0)
    decreases |hs|
  {
    if hs == [] then 0
    else
      var n := Adding(added, hs[1..]);
      if n > 0 || added(hs[0]) != [] then n + 1 else 0
  }

  /** Every snapshot up to the last that adds an event is in a chunk that is flushed. */
  lemma {:induction false} AddingIsFlushed(
    added: Added, roots: Roots, hs: seq<nat>, chunk: seq<nat>, pending: nat, threshold: nat)
    requires Succeeds(added, roots, hs, chunk, pending, threshold) && Adding(added, hs) > 0
    ensures AllResolve(roots, chunk + hs[..Adding(added, hs)])
    decreases |hs|
  {
    var n := Adding(added, hs);
    var chunk', pending' := chunk + [hs[0]], pending + |added(hs[0])|;
    assert chunk + hs[..n] == chunk' + hs[1..][..n - 1];
    if Adding(added, hs[1..]) == 0 {
      assert chunk' + hs[1..][..n - 1] == chunk';
      if pending' < threshold { ChunkResolves(added, roots, hs[1..], chunk', pending', threshold); }
    } else if pending' >= threshold {
      AddingIsFlushed(added, roots, hs[1..], [], 0, threshold);
      assert [] + hs[1..][..n - 1] == hs[1..][..n - 1];
      ResolveBoth(roots, chunk', hs[1..][..n - 1]);
    } else {
      AddingIsFlushed(added, roots, hs[1..], chunk', pending', threshold);
    }
  }

  lemma ResolveBoth(roots: Roots, a: seq<nat>, b: seq<nat>)
    ensures AllResolve(roots, a + b) <==> AllResolve(roots, a) && AllResolve(roots, b)
  {
    if AllResolve(roots, a + b) {
      assert forall i :: 0 <= i < |a| ==> a[i] == (a + b)[i];
      assert forall i :: 0 <= i < |b| ==> b[i] == (a + b)[|a| + i];
    }
  }

  /** Flushing at every event fails on none of the snapshots after the last one that adds. */
  lemma {:induction false} OneByOne(added: Added, roots: Roots, hs: seq<nat>, chunk: seq<nat>)
    requires Adding(added, hs) > 0 ==> AllResolve(roots, chunk + hs[..Adding(added, hs)])
    ensures Succeeds(added, roots, hs, chunk, 0, 1)
    decreases |hs|
  {
    var n := Adding(added, hs);
    if n == 0 {
      EmptySucceeds(added, roots, hs, chunk, 1);
    } else {
      var chunk' := chunk + [hs[0]];
      assert chunk + hs[..n] == chunk' + hs[1..][..n - 1];
      ResolveBoth(roots, chunk', hs[1..][..n - 1]);
      assert [] + hs[1..][..n - 1] == hs[1..][..n - 1];
      OneByOne(added, roots, hs[1..], if added(hs[0]) == [] then chunk' else []);
    }
  }

  ghost predicate SameOutcome(added: Added, roots: Roots, hs: seq<nat>)
  {
    forall s, t :: s > 0 && t > 0 ==>
      (Succeeds(added, roots, hs, [], 0, s) <==> Succeeds(added, roots, hs, [], 0, t))
  }

  /** Whether the backfill succeeds is independent of the flush threshold if and only if no
      snapshot adds an event, or every snapshot resolves, or one up to the last that adds an
      event does not. */
  lemma ThresholdIndependent(added: Added, roots: Roots, hs: seq<nat>)
    ensures SameOutcome(added, roots, hs) <==>
            Weight(added, hs) == 0 || AllResolve(roots, hs) || !AllResolve(roots, hs[..Adding(added, hs)])
  {
    var n := Adding(added, hs);
    EveryThresholdSucceeds(added, roots, hs);
    assert [] + hs[..n] == hs[..n];
    if Weight(added, hs) == 0 || AllResolve(roots, hs) {
      assert forall t :: t > 0 ==> Succeeds(added, roots, hs, [], 0, t);
    } else if AllResolve(roots, hs[..n]) {
      OneByOne(added, roots, hs, []);
    } else {
      forall t | t > 0 ensures !Succeeds(added, roots, hs, [], 0, t) {
        if Succeeds(added, roots, hs, [], 0, t) { AddingIsFlushed(added, roots, hs, [], 0, t); }
      }
    }
  }

  // ---------- the loops ----------

  /** Builds the root of a full state, for the room of the given event. `None` when the event,
      its room or an entry cannot be looked up. */
  type Builder = (nat, State) -> Option<Root>

  ghost function AddedIn(store: Store): Added
  {
    h => if h in store then AddedShortEventIds(store[h]) else []
  }

  /** The root of a snapshot is built from its full replay; an empty event group has none. */
  ghost function RootsIn(store: Store, rank: nat -> nat, build: Builder): Roots
    requires Acyclic(store, rank)
  {
    h => if AddedIn(store)(h) == [] || Replay(store, rank, h).None? then None
         else build(AddedIn(store)(h)[0], Replay(store, rank, h).value)
  }

  /** In a store, where only a snapshot that adds an event can resolve: independent if and only if
      no snapshot adds an event, or the last one does, or one up to the last that does fails. */
  lemma StoreThresholds(store: Store, rank: nat -> nat, build: Builder, hs: seq<nat>)
    requires Acyclic(store, rank)
    ensures var n := Adding(AddedIn(store), hs);
            SameOutcome(AddedIn(store), RootsIn(store, rank, build), hs) <==>
            n == 0 || n == |hs| || !AllResolve(RootsIn(store, rank, build), hs[..n])
  {
    var added, roots := AddedIn(store), RootsIn(store, rank, build);
    ThresholdIndependent(added, roots, hs);
    assert hs[..|hs|] == hs;
    if hs != [] && AllResolve(roots, hs) {
      assert roots(hs[|hs| - 1]).Some?;
      LastAdds(added, hs);
    }
  }

  lemma {:induction false} LastAdds(added: Added, hs: seq<nat>)
    requires hs != [] && added(hs[|hs| - 1]) != []
    ensures Adding(added, hs) == |hs|
    decreases |hs|
  {
    if |hs| > 1 { LastAdds(added, hs[1..]); }
  }

  /** Two snapshots without parent: the first adds one event, the second record is only the
      8-byte parent. */
  ghost function TwoDiffs(e: Entry): Store
  {
    map[1 := Layout(None, [e], []), 2 := Layout(None, [], [])]
  }

  lemma TwoDiffsRead(e: Entry, h: nat)
    requires e[..8] != MARKER && (h == 1 || h == 2)
    ensures Fetch(TwoDiffs(e), h) == Some(Diff(None, if h == 1 then {e} else {}, {}))
    ensures AddedIn(TwoDiffs(e))(h) == if h == 1 then [EventOf(e)] else []
  {
    var added := if h == 1 then [e] else [];
    assert TwoDiffs(e)[h] == Layout(None, added, []);
    LayoutRoundTrip(None, added, []);
    LayoutAdds(added);
    assert SetOf([e]) == {e} && SetOf([]) == {};
  }

  lemma LayoutAdds(added: seq<Entry>)
    requires forall e :: e in added ==> e[..8] != MARKER
    ensures var ids := AddedShortEventIds(Layout(None, added, []));
            |ids| == |added| && forall i :: 0 <= i < |ids| ==> ids[i] == EventOf(added[i])
  {
    var slice := Layout(None, added, []);
    assert slice[8..] == Concat(added) + [];
    ScanLayout(added, [], []);
    ReadersAgreeFrom(slice[8..], true);
  }

  lemma OneResolves(store: Store, e: Entry, rank: nat -> nat, build: Builder)
    requires Fetch(store, 1) == Some(Diff(None, {e}, {})) && AddedIn(store)(1) == [EventOf(e)]
    requires AddedIn(store)(2) == [] && build(EventOf(e), {e}).Some? && Acyclic(store, rank)
    ensures RootsIn(store, rank, build)(1).Some? && RootsIn(store, rank, build)(2).None?
  {
    assert Step({}, Diff(None, {e}, {})) == {e};
  }

  lemma TwoDiffsAcyclic(e: Entry, rank: nat -> nat)
    requires e[..8] != MARKER
    ensures Acyclic(TwoDiffs(e), rank)
  {
    forall h ensures Fetch(TwoDiffs(e), h).Some? ==> Fetch(TwoDiffs(e), h).value.parent.None? {
      if h == 1 || h == 2 { TwoDiffsRead(e, h); }
    }
  }

  /** In that store the threshold decides: flushing at once succeeds, and flushing both
      snapshots together fails. */
  lemma ThresholdMatters(e: Entry, rank: nat -> nat, build: Builder)
    requires e[..8] != MARKER && build(EventOf(e), {e}).Some?
    ensures Acyclic(TwoDiffs(e), rank)
    ensures Succeeds(AddedIn(TwoDiffs(e)), RootsIn(TwoDiffs(e), rank, build), [1, 2], [], 0, 1)
    ensures !Succeeds(AddedIn(TwoDiffs(e)), RootsIn(TwoDiffs(e), rank, build), [1, 2], [], 0, 2)
  {
    TwoDiffsAcyclic(e, rank);
    TwoDiffsRead(e, 1);
    TwoDiffsRead(e, 2);
    OneResolves(TwoDiffs(e), e, rank, build);
    TrailingEmpty(AddedIn(TwoDiffs(e)), RootsIn(TwoDiffs(e), rank, build), 1, 2);
  }

  lemma TrailingEmpty(added: Added, roots: Roots, h1: nat, h2: nat)
    requires |added(h1)| == 1 && roots(h1).Some? && added(h2) == [] && roots(h2).None?
    ensures Succeeds(added, roots, [h1, h2], [], 0, 1)
    ensures !Succeeds(added, roots, [h1, h2], [], 0, 2)
  {
    var hs := [h1, h2];
    assert hs[1..] == [h2] && [h2][1..] == [] && [] + [h1] == [h1];
    EmptySucceeds(added, roots, [h2], [], 1);
    assert Weight(added, [h2]) == 0;
    NeverFlushed(added, roots, hs, [], 0, 2);
    assert ([] + hs)[1] == h2;
  }

  /** Names a snapshot whose events and root are about to be read. */
  ghost predicate Asked(h: nat) { true }

  class Backfill {
    var roothandles: map<nat, Root>      // shorteventid_roothandle
    const store: Store
    const build: Builder
    const cache: StateCache
    ghost const rank: nat -> nat
    ghost const added: Added
    ghost const roots: Roots

    /** `added` and `roots` are those of the store. */
    ghost predicate Valid()
      reads cache
    {
      && cache.Valid() && Acyclic(store, rank) && cache.truth == Replays(store, rank)
      && forall h {:trigger Asked(h)} :: Asked(h) ==>
           added(h) == AddedIn(store)(h) && roots(h) == RootsIn(store, rank, build)(h)
    }

    constructor (table: map<nat, Root>, diffs: Store, builder: Builder, states: StateCache, ghost order: nat -> nat)
      requires Acyclic(diffs, order) && states.Valid() && states.truth == Replays(diffs, order)
      ensures Valid() && roothandles == table && store == diffs && build == builder && cache == states
      ensures rank == order && added == AddedIn(diffs) && roots == RootsIn(diffs, order, builder)
    {
      roothandles, store, build, cache, rank := table, diffs, builder, states, order;
      added, roots := AddedIn(diffs), RootsIn(diffs, order, builder);
    }

    method AddedBy(h: nat) returns (events: seq<nat>)
      requires Valid() && h in store
      ensures events == added(h)
    {
      assert Asked(h);
      events := ReadAddedShortEventIds(store[h]);
    }

    /** The root of one snapshot, through the cached resolver. */
    method RootHandle(h: nat, events: seq<nat>) returns (root: Option<Root>)
      requires Valid() && h in store && events == added(h)
      modifies cache
      ensures Valid() && root == roots(h)
    {
      assert Asked(h);
      if events == [] { return None; }
      var state := cache.GetFullStateCached(store, h, rank);
      if state.None? { return None; }
      root := build(events[0], state.value);
    }

    /** `legacy_added_events_roothandles`, then one atomic batch of its pairs. The chunk's
        snapshots arrive in ascending order, the order the original sorts them into. */
    method FlushChunk(chunk: seq<nat>) returns (ok: bool)
      requires Valid() && forall h :: h in chunk ==> h in store
      modifies this, cache
      ensures Valid()
      ensures ok <==> AllResolve(roots, chunk)
      ensures roothandles == if ok then LabelAll(added, roots, chunk, old(roothandles)) else old(roothandles)
    {
      var table := roothandles;
      var i := 0;
      while i < |chunk|
        invariant 0 <= i <= |chunk| && Valid() && roothandles == old(roothandles)
        invariant AllResolve(roots, chunk[..i])
        invariant LabelAll(added, roots, chunk[i..], table) == LabelAll(added, roots, chunk, old(roothandles))
      {
        assert chunk[i..][1..] == chunk[i + 1..] && chunk[..i + 1] == chunk[..i] + [chunk[i]];
        var events := AddedBy(chunk[i]);
        var root := RootHandle(chunk[i], events);
        if root.None? { return false; }
        table := Label(table, events, root.value);
        i := i + 1;
      }
      assert chunk[..i] == chunk;
      roothandles := table;
      ok := true;
    }

    /** The backfill loop: snapshots stream in ascending order and are flushed whenever
        `threshold` events are pending. On success the labels are those of one unchunked pass. */
    method Run(hs: seq<nat>, threshold: nat) returns (ok: bool)
      requires Valid() && forall h :: h in hs ==> h in store
      modifies this, cache
      ensures Valid()
      ensures ok <==> Succeeds(added, roots, hs, [], 0, threshold)
      ensures ok ==> roothandles == LabelAll(added, roots, hs, old(roothandles))
    {
      var chunk: seq<nat> := [];
      var pending := 0;
      var i := 0;
      ghost var before, flushed: seq<nat> := roothandles, [];
      while i < |hs|
        invariant 0 <= i <= |hs| && flushed + chunk == hs[..i] && Valid()
        invariant pending == Weight(added, chunk) && forall h :: h in chunk ==> h in store
        invariant roothandles == LabelAll(added, roots, flushed, before)
        invariant Succeeds(added, roots, hs[i..], chunk, pending, threshold) ==
                  Succeeds(added, roots, hs, [], 0, threshold)
      {
        SucceedsStep(added, roots, hs, i, chunk, pending, threshold);
        WeightAppend(added, chunk, hs[i]);
        TakeOne(hs, i, flushed, chunk);
        var events := AddedBy(hs[i]);
        pending := pending + |events|;
        chunk := chunk + [hs[i]];
        i := i + 1;
        if pending >= threshold {
          LabelAllSplit(added, roots, flushed, chunk, before);
          var done := FlushChunk(chunk);
          if !done { return false; }
          flushed, chunk, pending := flushed + chunk, [], 0;
        }
      }
      assert hs[..i] == hs;
      LabelAllSplit(added, roots, flushed, chunk, before);
      if pending > 0 {
        ok := FlushChunk(chunk);
      } else {
        EmptyLabels(added, roots, chunk, roothandles);
        ok := true;
      }
    }

    /** The backfill of a whole store, whose raw stream yields the snapshots in ascending order:
        if it succeeds, each event some snapshot added ends with the root of the greatest such
        snapshot, and the others keep what they had. */
    method BackfillStore(hs: seq<nat>, threshold: nat) returns (ok: bool)
      requires Valid() && Ascends(hs) && forall h :: h in hs <==> h in store
      modifies this, cache
      ensures Valid()
      ensures ok <==> Succeeds(added, roots, hs, [], 0, threshold)
      ensures ok ==> Labelled(store, rank, build, roothandles)
      ensures ok ==> OthersKept(store, old(roothandles), roothandles)
    {
      ghost var before := roothandles;
      ok := Run(hs, threshold);
      if ok {
        LabelsStore(store, added, roots, hs, threshold, before);
        SpellLabels(store, rank, build, added, roots, before, roothandles);
      }
    }
  }

  /** `h` is the greatest snapshot whose record adds `e`. */
  ghost predicate GreatestAdding(store: Store, h: nat, e: nat)
  {
    && h in store && e in AddedShortEventIds(store[h])
    && forall g :: g in store && e in AddedShortEventIds(store[g]) ==> g <= h
  }

  /** Each event has the root built, for the first event its greatest snapshot added, from the full
      state of that snapshot. */
  ghost predicate Labelled(store: Store, rank: nat -> nat, build: Builder, table: map<nat, Root>)
    requires Acyclic(store, rank)
  {
    forall h, e :: GreatestAdding(store, h, e) ==>
      && e in table && Replay(store, rank, h).Some?
      && Some(table[e]) == build(AddedShortEventIds(store[h])[0], Replay(store, rank, h).value)
  }

  ghost predicate OthersKept(store: Store, before: map<nat, Root>, after: map<nat, Root>)
  {
    forall e :: (forall h :: h in store ==> e !in AddedShortEventIds(store[h])) ==>
      (e in after <==> e in before) && (e in after ==> after[e] == before[e])
  }

  lemma SpellLabels(store: Store, rank: nat -> nat, build: Builder, added: Added, roots: Roots,
                    before: map<nat, Root>, after: map<nat, Root>)
    requires Acyclic(store, rank)
    requires forall h {:trigger Asked(h)} :: Asked(h) ==>
               added(h) == AddedIn(store)(h) && roots(h) == RootsIn(store, rank, build)(h)
    requires forall h, e :: Greatest(store, added, h, e) ==> e in after && Some(after[e]) == roots(h)
    requires forall e :: (forall h :: h in store ==> e !in added(h)) ==>
               (e in after <==> e in before) && (e in after ==> after[e] == before[e])
    ensures Labelled(store, rank, build, after) && OthersKept(store, before, after)
  {
    forall h | h in store ensures added(h) == AddedShortEventIds(store[h]) { assert Asked(h); }
    forall h, e | GreatestAdding(store, h, e)
      ensures e in after && Replay(store, rank, h).Some?
      ensures Some(after[e]) == build(AddedShortEventIds(store[h])[0], Replay(store, rank, h).value)
    {
      assert Asked(h);
      assert Greatest(store, added, h, e);
    }
  }

  lemma TakeOne(hs: seq<nat>, i: nat, flushed: seq<nat>, chunk: seq<nat>)
    requires i < |hs| && flushed + chunk == hs[..i]
    ensures flushed + (chunk + [hs[i]]) == hs[..i + 1] && (flushed + (chunk + [hs[i]])) + [] == hs[..i + 1]
  {
    assert flushed + (chunk + [hs[i]]) == (flushed + chunk) + [hs[i]];
  }

  lemma {:induction false} WeightAppend(added: Added, hs: seq<nat>, h: nat)
    ensures Weight(added, hs + [h]) == Weight(added, hs) + |added(h)|
    decreases |hs|
  {
    if hs != [] {
      assert (hs + [h])[1..] == hs[1..] + [h];
      WeightAppend(added, hs[1..], h);
    }
  }

  lemma {:induction false} EmptyLabels(added: Added, roots: Roots, hs: seq<nat>, table: map<nat, Root>)
    requires Weight(added, hs) == 0
    ensures LabelAll(added, roots, hs, table) == table
    decreases |hs|
  {
    if hs != [] {
      assert added(hs[0]) == [];
      EmptyLabels(added, roots, hs[1..], table);
    }
  }

  /** `h` is the greatest snapshot that added `e`. */
  ghost predicate Greatest(store: Store, added: Added, h: nat, e: nat)
  {
    h in store && e in added(h) && forall g :: g in store && e in added(g) ==> g <= h
  }

  lemma LabelsStore(store: Store, added: Added, roots: Roots, hs: seq<nat>, threshold: nat, table: map<nat, Root>)
    requires Ascends(hs) && Succeeds(added, roots, hs, [], 0, threshold) && forall h :: h in hs <==> h in store
    ensures var done := LabelAll(added, roots, hs, table);
            && (forall h, e :: Greatest(store, added, h, e) ==> e in done && Some(done[e]) == roots(h))
            && (forall e :: (forall h :: h in store ==> e !in added(h)) ==>
                  (e in done <==> e in table) && (e in done ==> done[e] == table[e]))
  {
    var done := LabelAll(added, roots, hs, table);
    forall h, e | Greatest(store, added, h, e) ensures e in done && Some(done[e]) == roots(h) {
      var m :| 0 <= m < |hs| && hs[m] == h;
      LabelsGreatest(added, roots, hs, threshold, table, m, e);
    }
    forall e | forall h :: h in store ==> e !in added(h)
      ensures (e in done <==> e in table) && (e in done ==> done[e] == table[e])
    {
      LabelsUntouched(added, roots, hs, table, e);
    }
  }
}
