/** The MSC2836 relationship walks (src/api/msc2836.rs:52-71 and 331-591). */
module Relationships {
  import opened Bytes
  import opened Distance

  datatype EventId = EventId(text: string)

  /** What the walks can look up. `local` are the stored events, `visible` those the requester
      may see, `explore` those reported to have children not stored yet. The parent and the
      room of an event are part of the event. */
  datatype World = World(
    local: set<EventId>, visible: set<EventId>, explore: set<EventId>,
    parent: map<EventId, EventId>, room: map<EventId, string>, children: map<EventId, seq<EventId>>)

  /** The sibling order: any permutation. */
  type Sorter = seq<EventId> -> seq<EventId>

  ghost predicate Permutes(sort: Sorter)
  {
    forall s {:trigger sort(s)} :: multiset(sort(s)) == multiset(s)
  }

  function ChildrenOf(w: World, e: EventId): seq<EventId>
  {
    if e in w.children then w.children[e] else []
  }

  /** The children a walk can return: stored and visible. */
  ghost function Shown(w: World): EventId -> set<EventId>
  {
    e => set c | c in ChildrenOf(w, e) && c in w.local && c in w.visible
  }

  function SetOf(s: seq<EventId>): set<EventId> { set e | e in s }

  ghost predicate Distinct(s: seq<EventId>)
  {
    forall i, j :: 0 <= i < j < |s| ==> s[i] != s[j]
  }

  lemma SetOfAppend(a: seq<EventId>, b: seq<EventId>)
    ensures SetOf(a + b) == SetOf(a) + SetOf(b)
  {
  }

  lemma SetOfSnoc(s: seq<EventId>, e: EventId)
    ensures SetOf(s + [e]) == SetOf(s) + {e}
  {
    SetOfAppend(s, [e]);
    assert SetOf([e]) == {e};
  }

  lemma DistinctAppend(a: seq<EventId>, b: seq<EventId>)
    requires Distinct(a) && Distinct(b) && SetOf(a) !! SetOf(b)
    ensures Distinct(a + b)
  {
    forall i, j | 0 <= i < j < |a + b| ensures (a + b)[i] != (a + b)[j] {
      if i < |a| <= j { assert a[i] in SetOf(a) && b[j - |a|] in SetOf(b); }
    }
  }

  // ---------- one expansion ----------

  /** The listed children that are stored and not yet seen. */
  function Unseen(local: set<EventId>, children: seq<EventId>, seen: set<EventId>): seq<EventId>
  {
    if children == [] then []
    else
      var last := |children| - 1;
      var more := if children[last] !in seen && children[last] in local then [children[last]] else [];
      Unseen(local, children[..last], seen) + more
  }

  lemma {:induction false} UnseenSet(local: set<EventId>, children: seq<EventId>, seen: set<EventId>)
    ensures SetOf(Unseen(local, children, seen)) == (SetOf(children) - seen) * local
  {
    if children != [] {
      var last := |children| - 1;
      var front := Unseen(local, children[..last], seen);
      UnseenSet(local, children[..last], seen);
      assert children == children[..last] + [children[last]];
      SetOfSnoc(children[..last], children[last]);
      SetOfSnoc(front, children[last]);
      assert front + [] == front;
    }
  }

  method ChildPdus(w: World, e: EventId, seen: set<EventId>) returns (pdus: seq<EventId>)
    ensures pdus == Unseen(w.local, ChildrenOf(w, e), seen)
  {
    var children := ChildrenOf(w, e);
    pdus := [];
    var i := 0;
    while i < |children|
      invariant 0 <= i <= |children|
      invariant pdus == Unseen(w.local, children[..i], seen)
    {
      assert children[..i + 1][..i] == children[..i];
      if children[i] !in seen && children[i] in w.local { pdus := pdus + [children[i]]; }
      i := i + 1;
    }
    assert children[..i] == children;
  }

  function Truncate(s: seq<EventId>, maxBreadth: int): seq<EventId>
  {
    if maxBreadth < 0 || |s| <= maxBreadth then s else s[..maxBreadth]
  }

  lemma SortedMembers(sort: Sorter, s: seq<EventId>, maxBreadth: int)
    requires Permutes(sort)
    ensures SetOf(Truncate(sort(s), maxBreadth)) <= SetOf(s)
    ensures maxBreadth < 0 ==> SetOf(Truncate(sort(s), maxBreadth)) == SetOf(s)
  {
    var t := sort(s);
    assert multiset(t) == multiset(s);
    assert forall e :: e in t <==> e in multiset(t);
    assert forall e :: e in s <==> e in multiset(s);
  }

  /** The first occurrences, in order, of the visible events not seen before. */
  ghost function Fresh(visible: set<EventId>, pdus: seq<EventId>, seen: set<EventId>): seq<EventId>
  {
    if pdus == [] then []
    else
      var last := |pdus| - 1;
      var more := if pdus[last] !in seen + SetOf(pdus[..last]) && pdus[last] in visible then [pdus[last]] else [];
      Fresh(visible, pdus[..last], seen) + more
  }

  lemma {:induction false} FreshSet(visible: set<EventId>, pdus: seq<EventId>, seen: set<EventId>)
    ensures Distinct(Fresh(visible, pdus, seen))
    ensures SetOf(Fresh(visible, pdus, seen)) == (SetOf(pdus) - seen) * visible
  {
    if pdus != [] {
      var last := |pdus| - 1;
      var before, e := Fresh(visible, pdus[..last], seen), pdus[last];
      FreshSet(visible, pdus[..last], seen);
      assert pdus == pdus[..last] + [e];
      SetOfSnoc(pdus[..last], e);
      SetOfSnoc(before, e);
      FreshAdd(visible, SetOf(pdus[..last]), seen, SetOf(before), e);
      if e !in seen + SetOf(pdus[..last]) && e in visible {
        assert SetOf([e]) == {e};
        DistinctAppend(before, [e]);
      } else {
        assert before + [] == before;
      }
    }
  }

  lemma FreshAdd(visible: set<EventId>, pdus: set<EventId>, seen: set<EventId>, pushed: set<EventId>, e: EventId)
    requires pushed == (pdus - seen) * visible
    ensures e !in seen + pdus && e in visible ==> pushed + {e} == (pdus + {e} - seen) * visible && e !in pushed
    ensures e in seen + pdus || e !in visible ==> pushed == (pdus + {e} - seen) * visible
  {
  }

  lemma {:induction false} FreshPrefix(visible: set<EventId>, pdus: seq<EventId>, seen: set<EventId>, i: nat)
    requires i <= |pdus|
    ensures Fresh(visible, pdus[..i], seen) <= Fresh(visible, pdus, seen)
  {
    if i < |pdus| {
      var last := |pdus| - 1;
      FreshPrefix(visible, pdus[..last], seen, i);
      assert pdus[..last][..i] == pdus[..i];
    } else {
      assert pdus[..i] == pdus;
    }
  }

  /** The first `n` elements, or all if there are fewer. */
  function Cut(s: seq<EventId>, n: int): seq<EventId>
  {
    if n <= 0 then [] else if |s| <= n then s else s[..n]
  }

  lemma FreshStep(visible: set<EventId>, pdus: seq<EventId>, seen: set<EventId>, i: nat)
    requires i < |pdus|
    ensures seen + SetOf(pdus[..i + 1]) == seen + SetOf(pdus[..i]) + {pdus[i]}
    ensures Fresh(visible, pdus[..i + 1], seen) ==
            Fresh(visible, pdus[..i], seen) +
            (if pdus[i] !in seen + SetOf(pdus[..i]) && pdus[i] in visible then [pdus[i]] else [])
  {
    assert pdus[..i + 1] == pdus[..i] + [pdus[i]] && pdus[..i + 1][..i] == pdus[..i];
    SetOfSnoc(pdus[..i], pdus[i]);
  }

  /** Stopping after `i` events, at the end or at the limit `n`, cuts what is fresh at `n`. */
  lemma FreshCut(visible: set<EventId>, pdus: seq<EventId>, seen: set<EventId>, i: nat, n: int)
    requires i <= |pdus| && (n <= 0 ==> i == 0)
    requires n > 0 ==> |Fresh(visible, pdus[..i], seen)| <= n
    requires i < |pdus| ==> |Fresh(visible, pdus[..i], seen)| >= n
    ensures Fresh(visible, pdus[..i], seen) == Cut(Fresh(visible, pdus, seen), n)
    ensures i == |pdus| ==> pdus[..i] == pdus
  {
    FreshPrefix(visible, pdus, seen, i);
    if i == |pdus| { assert pdus[..i] == pdus; }
  }

  /** The inner loop of `walk_down`: the visible new events, up to the limit. */
  method Visit(w: World, pdus: seq<EventId>, limit: nat, results: seq<EventId>, seen: set<EventId>)
    returns (pushed: seq<EventId>, seen': set<EventId>)
    ensures pushed == Cut(Fresh(w.visible, pdus, seen), limit - |results|)
    ensures |results + pushed| < limit ==> seen' == seen + SetOf(pdus)
  {
    pushed, seen' := [], seen;
    var i := 0;
    EmptySet(pdus[..0]);
    while i < |pdus| && |results + pushed| < limit
      invariant 0 <= i <= |pdus|
      invariant seen' == seen + SetOf(pdus[..i])
      invariant pushed == Fresh(w.visible, pdus[..i], seen)
      invariant |results| >= limit ==> i == 0
      invariant |results| < limit ==> |results + pushed| <= limit
    {
      var e := pdus[i];
      FreshStep(w.visible, pdus, seen, i);
      if e !in seen' && e in w.visible { pushed := pushed + [e]; }
      seen' := seen' + {e};
      i := i + 1;
    }
    FreshCut(w.visible, pdus, seen, i, limit - |results|);
  }

  // ---------- walk_down ----------

  type Frontier = seq<(EventId, nat)>

  function AtDepth(es: seq<EventId>, d: nat): Frontier
  {
    seq(|es|, i requires 0 <= i < |es| => (es[i], d))
  }

  /** What any walk adds: distinct new events, visible, stored, reachable by visible children. */
  ghost predicate Found(w: World, succ: EventId -> set<EventId>, anchor: EventId, added: seq<EventId>,
                        seen0: set<EventId>, seen: set<EventId>)
  {
    forall x {:trigger Compared(x)} :: Compared(x) && x == anchor ==>
      seen0 <= seen && SetOf(added) <= seen && FoundNew(w, succ, anchor, added, seen0)
  }

  ghost predicate FoundNew(w: World, succ: EventId -> set<EventId>, anchor: EventId, added: seq<EventId>,
                           seen0: set<EventId>)
  {
    && Distinct(added) && SetOf(added) <= w.visible * w.local - seen0
    && (forall e :: e in added ==> Reachable(succ, {anchor}, e))
  }

  ghost predicate FrontierReached(succ: EventId -> set<EventId>, anchor: EventId, frontier: Frontier)
  {
    forall y {:trigger Compared(y)} :: Compared(y) && y == anchor ==>
      forall x :: x in frontier ==> x.0 in Within(succ, {anchor}, x.1)
  }

  /** Breadth-first search at hop distance `d`, as sets: `a` are the events at distance `d` not
      yet expanded, `b` those at distance `d + 1` discovered so far, `done` the expanded ones
      and `all` everything discovered. */
  ghost predicate Layers(succ: EventId -> set<EventId>, anchor: EventId, maxDepth: int, d: nat, done: set<EventId>,
                         a: set<EventId>, b: set<EventId>, all: set<EventId>, seen: set<EventId>, visible: set<EventId>)
  {
    var here := Within(succ, {anchor}, d);
    && (maxDepth >= 0 ==> d <= maxDepth)
    && all <= seen && (seen - all) !! visible
    && (d == maxDepth ==> b == {} && all == here)
    && (d != maxDepth ==> done + a == here && b == Next(succ, done) - here && all == here + b)
  }

  /** Expanding one event adds its shown children that are new, one hop further. */
  lemma ExpandLayers(succ: EventId -> set<EventId>, anchor: EventId, maxDepth: int, d: nat, done: set<EventId>,
                     a: set<EventId>, b: set<EventId>, all: set<EventId>, seen: set<EventId>, visible: set<EventId>,
                     e: EventId, a': set<EventId>, found: set<EventId>, seen': set<EventId>)
    requires Layers(succ, anchor, maxDepth, d, done, a, b, all, seen, visible) && d != maxDepth
    requires a == {e} + a' && succ(e) <= visible
    requires found == succ(e) - seen && seen <= seen' && (seen' - seen) * visible == found
    ensures Layers(succ, anchor, maxDepth, d, done + {e}, a', b + found, all + found, seen', visible)
    ensures found <= Within(succ, {anchor}, d + 1) - Within(succ, {anchor}, d)
  {
    var here := Within(succ, {anchor}, d);
    NextAdd(succ, done, e);
    assert found == succ(e) - all;
    forall c | c in succ(e) ensures c in Next(succ, here) { assert e in here; }
  }

  lemma NextAdd(succ: EventId -> set<EventId>, s: set<EventId>, e: EventId)
    ensures Next(succ, s + {e}) == Next(succ, s) + succ(e)
  {
    forall c | c in Next(succ, s) + succ(e) ensures c in Next(succ, s + {e}) {
      if c in succ(e) {
        assert e in s + {e};
      } else {
        var x :| x in s && c in succ(x);
        assert x in s + {e};
      }
    }
  }

  /** When the events at distance `d` are expanded, `b` is exactly the next distance. */
  lemma TurnLayers(succ: EventId -> set<EventId>, anchor: EventId, maxDepth: int, d: nat, done: set<EventId>,
                   b: set<EventId>, all: set<EventId>, seen: set<EventId>, visible: set<EventId>)
    requires Layers(succ, anchor, maxDepth, d, done, {}, b, all, seen, visible) && d != maxDepth
    ensures Layers(succ, anchor, maxDepth, d + 1, done, b, {}, all, seen, visible)
  {
    assert done == Within(succ, {anchor}, d);
  }

  /** The events a complete walk has discovered, the anchor included. */
  ghost predicate Complete(succ: EventId -> set<EventId>, anchor: EventId, maxDepth: int, all: set<EventId>)
  {
    && (maxDepth >= 0 ==> all == Within(succ, {anchor}, maxDepth))
    && (maxDepth < 0 ==> forall e :: e in all <==> Reachable(succ, {anchor}, e))
  }

  lemma EndLayers(succ: EventId -> set<EventId>, anchor: EventId, maxDepth: int, d: nat, done: set<EventId>,
                  all: set<EventId>, seen: set<EventId>, visible: set<EventId>)
    requires Layers(succ, anchor, maxDepth, d, done, {}, {}, all, seen, visible)
    ensures Complete(succ, anchor, maxDepth, all)
  {
    if d != maxDepth {
      assert Within(succ, {anchor}, d + 1) <= Below(succ, {anchor}, d + 1);
      if maxDepth >= 0 {
        ClosedBelow(succ, {anchor}, d + 1, maxDepth);
      } else {
        forall e ensures e in all <==> Reachable(succ, {anchor}, e) { ClosedIsAll(succ, {anchor}, d + 1, e); }
      }
    }
  }

  /** The queue of a breadth-first walk: `a` at distance `d`, then `b` at distance `d + 1`. */
  datatype Queue = Queue(d: nat, done: set<EventId>, a: seq<EventId>, b: seq<EventId>, levels: seq<nat>)

  ghost predicate InStep(w: World, succ: EventId -> set<EventId>, anchor: EventId, maxDepth: int, q: Queue,
                         added: seq<EventId>, seen: set<EventId>, frontier: Frontier)
  {
    forall x {:trigger Asked(x)} :: Asked(x) && x == anchor ==>
      && Layered(w, succ, anchor, maxDepth, q, added, seen)
      && Leveled(succ, anchor, q, added)
      && Queued(q, frontier)
  }

  ghost predicate Leveled(succ: EventId -> set<EventId>, anchor: EventId, q: Queue, added: seq<EventId>)
  {
    ByDistance(succ, anchor, added, q.levels) && AtMost(q.levels, q.d + 1)
  }

  ghost predicate Compared(e: EventId) { true }

  /** `added` is ordered by distance; stated so that it is looked into only where `Compared`. */
  ghost predicate ByDistance(succ: EventId -> set<EventId>, anchor: EventId, added: seq<EventId>, levels: seq<nat>)
  {
    forall x {:trigger Compared(x)} :: Compared(x) && x == anchor ==> Ordered(succ, {anchor}, added, levels)
  }

  ghost predicate AtMost(levels: seq<nat>, d: nat)
  {
    forall i :: 0 <= i < |levels| ==> levels[i] <= d
  }

  lemma AtMostMore(levels: seq<nat>, n: nat, d: nat, levels': seq<nat>, d': nat)
    requires AtMost(levels, d) && levels' == levels + Repeat(n, d) && d <= d'
    ensures AtMost(levels', d')
  {
  }

  ghost predicate Queued(q: Queue, frontier: Frontier)
  {
    frontier == AtDepth(q.a, q.d) + AtDepth(q.b, q.d + 1) && (q.a == [] ==> q.b == [])
  }

  lemma StepStart(w: World, succ: EventId -> set<EventId>, anchor: EventId, maxDepth: int, seen: set<EventId>)
    requires anchor in seen && (seen - {anchor}) !! w.visible
    ensures InStep(w, succ, anchor, maxDepth, Queue(0, {}, [anchor], [], []), [], seen, [(anchor, 0)])
  {
    assert SetOf([]) == {} && SetOf([anchor]) == {anchor};
    assert Next(succ, {}) == {};
  }

  lemma StepFront(w: World, succ: EventId -> set<EventId>, anchor: EventId, maxDepth: int, q: Queue,
                  added: seq<EventId>, seen: set<EventId>, frontier: Frontier)
    requires InStep(w, succ, anchor, maxDepth, q, added, seen, frontier) && frontier != []
    ensures q.a != [] && frontier[0] == (q.a[0], q.d)
    ensures frontier[1..] == AtDepth(q.a[1..], q.d) + AtDepth(q.b, q.d + 1)
  {
    assert Asked(anchor);
  }

  /** At the depth limit events are dropped unexpanded. */
  lemma StepSkip(w: World, succ: EventId -> set<EventId>, anchor: EventId, maxDepth: int, q: Queue,
                 added: seq<EventId>, seen: set<EventId>, frontier: Frontier)
    requires InStep(w, succ, anchor, maxDepth, q, added, seen, frontier) && frontier != []
    requires maxDepth >= 0 && q.d >= maxDepth
    ensures q.a != [] && InStep(w, succ, anchor, maxDepth, q.(a := q.a[1..]), added, seen, frontier[1..])
  {
    assert Asked(anchor);
    StepFront(w, succ, anchor, maxDepth, q, added, seen, frontier);
    EmptySet(q.b);
  }

  lemma EmptySet(s: seq<EventId>)
    ensures SetOf(s) == {} <==> s == []
  {
    if s != [] { assert s[0] in SetOf(s); }
  }

  ghost function Grown(q: Queue, pushed: seq<EventId>): Queue
    requires q.a != []
  {
    Queue(q.d, q.done + {q.a[0]}, q.a[1..], q.b + pushed, q.levels + Repeat(|pushed|, q.d + 1))
  }

  /** When no event at the current distance is left, the next distance begins. */
  ghost function Turned(q: Queue): Queue
  {
    if q.a == [] then Queue(q.d + 1, q.done, q.b, [], q.levels) else q
  }

  lemma StepExpand(w: World, succ: EventId -> set<EventId>, anchor: EventId, maxDepth: int, q: Queue,
                   added: seq<EventId>, seen: set<EventId>, frontier: Frontier, pushed: seq<EventId>,
                   seen': set<EventId>, frontier': Frontier, q': Queue)
    requires InStep(w, succ, anchor, maxDepth, q, added, seen, frontier) && frontier != []
    requires q.a != [] && (maxDepth >= 0 ==> q.d < maxDepth)
    requires Expanded(w, succ, q.a[0], seen, pushed, seen', true)
    requires frontier' == frontier[1..] + AtDepth(pushed, q.d + 1) && q' == Turned(Grown(q, pushed))
    ensures InStep(w, succ, anchor, maxDepth, q', added + pushed, seen', frontier')
  {
    assert Asked(anchor);
    StepFront(w, succ, anchor, maxDepth, q, added, seen, frontier);
    assert Asked(q.a[0]);
    PushedIsNew(SetOf(ChildrenOf(w, q.a[0])), w.local, w.visible, seen, seen', SetOf(pushed), succ(q.a[0]));
    LayersGrow(w, succ, anchor, maxDepth, q, added, seen, pushed, seen');
    LayersTurn(w, succ, anchor, maxDepth, Grown(q, pushed), added + pushed, seen');
    NextLevels(q, pushed, q');
    LeveledGrow(succ, anchor, q, q', added, pushed);
    QueueExpand(q, frontier, pushed);
  }

  /** Of the stored children, those pushed are the shown ones that were not seen. */
  lemma PushedIsNew(ch: set<EventId>, local: set<EventId>, visible: set<EventId>, seen: set<EventId>,
                    seen': set<EventId>, pushed: set<EventId>, shown: set<EventId>)
    requires shown == ch * local * visible && seen' == seen + (ch - seen) * local
    requires pushed == (seen' - seen) * visible
    ensures pushed == shown - seen && seen <= seen' && shown <= visible
  {
  }

  lemma LeveledGrow(succ: EventId -> set<EventId>, anchor: EventId, q: Queue, q': Queue, added: seq<EventId>,
                    pushed: seq<EventId>)
    requires Leveled(succ, anchor, q, added)
    requires SetOf(pushed) <= Within(succ, {anchor}, q.d + 1) - Within(succ, {anchor}, q.d)
    requires q'.levels == q.levels + Repeat(|pushed|, q.d + 1) && q'.d >= q.d
    ensures Leveled(succ, anchor, q', added + pushed)
  {
    OrderedPushed(succ, anchor, added, q.levels, pushed, q.d);
    AtMostMore(q.levels, |pushed|, q.d + 1, q'.levels, q'.d + 1);
  }

  lemma NextLevels(q: Queue, pushed: seq<EventId>, q': Queue)
    requires q.a != [] && q' == Turned(Grown(q, pushed))
    ensures q'.levels == q.levels + Repeat(|pushed|, q.d + 1) && q'.d >= q.d
  {
  }

  ghost predicate Layered(w: World, succ: EventId -> set<EventId>, anchor: EventId, maxDepth: int, q: Queue,
                          added: seq<EventId>, seen: set<EventId>)
  {
    Layers(succ, anchor, maxDepth, q.d, q.done, SetOf(q.a), SetOf(q.b), {anchor} + SetOf(added), seen, w.visible)
  }

  lemma LayersGrow(w: World, succ: EventId -> set<EventId>, anchor: EventId, maxDepth: int, q: Queue,
                   added: seq<EventId>, seen: set<EventId>, pushed: seq<EventId>, seen': set<EventId>)
    requires Layered(w, succ, anchor, maxDepth, q, added, seen) && q.a != [] && q.d != maxDepth
    requires succ(q.a[0]) <= w.visible && SetOf(pushed) == succ(q.a[0]) - seen
    requires seen <= seen' && (seen' - seen) * w.visible == SetOf(pushed)
    ensures Layered(w, succ, anchor, maxDepth, Grown(q, pushed), added + pushed, seen')
    ensures SetOf(pushed) <= Within(succ, {anchor}, q.d + 1) - Within(succ, {anchor}, q.d)
  {
    var all := {anchor} + SetOf(added);
    HeadSet(q.a);
    SetOfAppend(q.b, pushed);
    SetOfAppend(added, pushed);
    assert {anchor} + SetOf(added + pushed) == all + SetOf(pushed);
    ExpandLayers(succ, anchor, maxDepth, q.d, q.done, SetOf(q.a), SetOf(q.b), all, seen, w.visible,
                 q.a[0], SetOf(q.a[1..]), SetOf(pushed), seen');
  }

  lemma LayersTurn(w: World, succ: EventId -> set<EventId>, anchor: EventId, maxDepth: int, q: Queue,
                   added: seq<EventId>, seen: set<EventId>)
    requires Layered(w, succ, anchor, maxDepth, q, added, seen) && q.d != maxDepth
    ensures Layered(w, succ, anchor, maxDepth, Turned(q), added, seen)
  {
    EmptySet(q.a);
    EmptySet([]);
    if q.a == [] {
      TurnLayers(succ, anchor, maxDepth, q.d, q.done, SetOf(q.b), {anchor} + SetOf(added), seen, w.visible);
    }
  }

  lemma HeadSet(s: seq<EventId>)
    requires s != []
    ensures SetOf(s) == {s[0]} + SetOf(s[1..])
  {
    assert s == [s[0]] + s[1..];
    SetOfAppend([s[0]], s[1..]);
    assert SetOf([s[0]]) == {s[0]};
  }

  lemma QueueExpand(q: Queue, frontier: Frontier, pushed: seq<EventId>)
    requires Queued(q, frontier) && q.a != []
    ensures Queued(Turned(Grown(q, pushed)), frontier[1..] + AtDepth(pushed, q.d + 1))
  {
    var a, b, p := AtDepth(q.a[1..], q.d), AtDepth(q.b, q.d + 1), AtDepth(pushed, q.d + 1);
    assert frontier[1..] == a + b;
    assert b + p == AtDepth(q.b + pushed, q.d + 1);
    assert (a + b) + p == a + (b + p);
  }

  lemma OrderedPushed(succ: EventId -> set<EventId>, anchor: EventId, added: seq<EventId>, levels: seq<nat>,
                      pushed: seq<EventId>, d: nat)
    requires ByDistance(succ, anchor, added, levels) && AtMost(levels, d + 1)
    requires SetOf(pushed) <= Within(succ, {anchor}, d + 1) - Within(succ, {anchor}, d)
    ensures ByDistance(succ, anchor, added + pushed, levels + Repeat(|pushed|, d + 1))
  {
    assert Compared(anchor);
    forall c | c in pushed ensures c in Within(succ, {anchor}, d + 1) - Below(succ, {anchor}, d + 1) {
      assert c in SetOf(pushed);
    }
    OrderedAppend(succ, {anchor}, added, levels, pushed, d + 1);
  }

  lemma StepEnd(w: World, succ: EventId -> set<EventId>, anchor: EventId, maxDepth: int, q: Queue,
                added: seq<EventId>, seen: set<EventId>)
    requires InStep(w, succ, anchor, maxDepth, q, added, seen, [])
    ensures Complete(succ, anchor, maxDepth, {anchor} + SetOf(added)) && Ordered(succ, {anchor}, added, q.levels)
  {
    assert Compared(anchor);
    assert Asked(anchor);
    assert |AtDepth(q.a, q.d) + AtDepth(q.b, q.d + 1)| == |q.a| + |q.b|;
    assert SetOf([]) == {};
    EndLayers(succ, anchor, maxDepth, q.d, q.done, {anchor} + SetOf(added), seen, w.visible);
  }

  lemma {:induction false} DistinctSize(s: seq<EventId>)
    requires Distinct(s)
    ensures |SetOf(s)| == |s|
  {
    if s != [] {
      var n := |s| - 1;
      assert s == s[..n] + [s[n]];
      SetOfSnoc(s[..n], s[n]);
      assert s[n] !in SetOf(s[..n]);
      DistinctSize(s[..n]);
    }
  }

  /** Every pushed event uses up one unseen stored event, so the walk ends. */
  lemma Shrinks(w: World, seen: set<EventId>, seen': set<EventId>, pushed: seq<EventId>)
    requires Distinct(pushed) && SetOf(pushed) <= seen' - seen && seen <= seen' && seen' - seen <= w.local
    ensures |pushed| + |w.local - seen'| <= |w.local - seen|
  {
    DistinctSize(pushed);
    var p, rest := SetOf(pushed), w.local - seen';
    assert |p + rest| == |p| + |rest| by { assert p * rest == {}; }
    var more := (w.local - seen) - (p + rest);
    assert w.local - seen == (p + rest) + more;
    assert (p + rest) * more == {};
  }

  lemma FoundMore(w: World, succ: EventId -> set<EventId>, anchor: EventId, added: seq<EventId>,
                  seen0: set<EventId>, seen: set<EventId>, e: EventId, d: nat, pushed: seq<EventId>,
                  seen': set<EventId>)
    requires Found(w, succ, anchor, added, seen0, seen) && e in Within(succ, {anchor}, d)
    requires succ(e) == SetOf(ChildrenOf(w, e)) * w.local * w.visible
    requires seen <= seen' && seen' - seen <= SetOf(ChildrenOf(w, e)) * w.local
    requires Distinct(pushed) && SetOf(pushed) == (seen' - seen) * w.visible
    ensures Found(w, succ, anchor, added + pushed, seen0, seen')
    ensures forall c :: c in pushed ==> c in Within(succ, {anchor}, d + 1)
  {
    assert Compared(anchor);
    SetOfAppend(added, pushed);
    DistinctAppend(added, pushed);
    forall c | c in pushed ensures c in Within(succ, {anchor}, d + 1) && Reachable(succ, {anchor}, c) {
      assert c in SetOf(pushed) && c in succ(e);
      assert c in Next(succ, Within(succ, {anchor}, d));
    }
  }

  lemma FrontierGrows(succ: EventId -> set<EventId>, anchor: EventId, whole: Frontier, rest: Frontier,
                      pushed: seq<EventId>, d: nat)
    requires FrontierReached(succ, anchor, whole) && forall x :: x in rest ==> x in whole
    requires forall c :: c in pushed ==> c in Within(succ, {anchor}, d)
    ensures FrontierReached(succ, anchor, rest + AtDepth(pushed, d))
    ensures |rest + AtDepth(pushed, d)| == |rest| + |pushed|
  {
    assert Compared(anchor);
    forall x | x in rest + AtDepth(pushed, d) ensures x.0 in Within(succ, {anchor}, x.1) {
      if x !in rest {
        assert x in AtDepth(pushed, d);
        var i :| 0 <= i < |pushed| && AtDepth(pushed, d)[i] == x;
        assert pushed[i] in pushed;
      }
    }
  }

  /** Names an event whose children are about to be read. */
  ghost predicate Asked(e: EventId) { true }

  /** `succ` are the shown children of the world. */
  ghost predicate Links(w: World, succ: EventId -> set<EventId>)
  {
    forall e {:trigger Asked(e)} :: Asked(e) ==> succ(e) == SetOf(ChildrenOf(w, e)) * w.local * w.visible
  }

  /** `event` was expanded: some of its stored children are now seen (all of them if `whole`),
      and the visible ones among those new were pushed. */
  ghost predicate Expanded(w: World, succ: EventId -> set<EventId>, event: EventId, seen: set<EventId>,
                           pushed: seq<EventId>, seen': set<EventId>, whole: bool)
  {
    forall e {:trigger Asked(e)} :: Asked(e) && e == event ==>
      && succ(e) == SetOf(ChildrenOf(w, e)) * w.local * w.visible
      && seen <= seen' && seen' - seen <= SetOf(ChildrenOf(w, e)) * w.local
      && Distinct(pushed) && SetOf(pushed) == (seen' - seen) * w.visible
      && (whole ==> seen' == seen + (SetOf(ChildrenOf(w, e)) - seen) * w.local)
  }

  /** The children of `event` a walk considers: stored, new, sorted and cut to the breadth. */
  ghost function Ranked(w: World, sort: Sorter, event: EventId, maxBreadth: int, seen: set<EventId>): seq<EventId>
  {
    Truncate(sort(Unseen(w.local, ChildrenOf(w, event), seen)), maxBreadth)
  }

  ghost function Shows(w: World, sort: Sorter, event: EventId, maxBreadth: int, seen: set<EventId>): seq<EventId>
  {
    Fresh(w.visible, Ranked(w, sort, event, maxBreadth, seen), seen)
  }

  ghost function SeenWith(w: World, sort: Sorter, event: EventId, maxBreadth: int, seen: set<EventId>): set<EventId>
  {
    seen + SetOf(Ranked(w, sort, event, maxBreadth, seen))
  }

  lemma ExpandsTo(w: World, sort: Sorter, succ: EventId -> set<EventId>, event: EventId, maxBreadth: int,
                  seen: set<EventId>)
    requires Permutes(sort) && Links(w, succ)
    ensures Expanded(w, succ, event, seen, Shows(w, sort, event, maxBreadth, seen),
                     SeenWith(w, sort, event, maxBreadth, seen), maxBreadth < 0)
  {
    assert Asked(event);
    var ranked := Ranked(w, sort, event, maxBreadth, seen);
    UnseenSet(w.local, ChildrenOf(w, event), seen);
    SortedMembers(sort, Unseen(w.local, ChildrenOf(w, event), seen), maxBreadth);
    FreshSet(w.visible, ranked, seen);
    SeenAdd(SetOf(ranked), seen, w.visible);
  }

  lemma SeenAdd(a: set<EventId>, seen: set<EventId>, visible: set<EventId>)
    ensures (seen + a - seen) * visible == (a - seen) * visible && seen + a - seen <= a
  {
  }

  /** The depth and breadth settings of a downward walk. */
  datatype Reach = Reach(maxDepth: int, maxBreadth: int, depthFirst: bool)

  /** Depth first takes the newest frontier event, breadth first the oldest. */
  function Popped(r: Reach, frontier: Frontier): (EventId, nat)
    requires frontier != []
  {
    if r.depthFirst then frontier[|frontier| - 1] else frontier[0]
  }

  function Rest(r: Reach, frontier: Frontier): Frontier
    requires frontier != []
  {
    if r.depthFirst then frontier[..|frontier| - 1] else frontier[1..]
  }

  lemma PopMembers(r: Reach, frontier: Frontier)
    requires frontier != []
    ensures Popped(r, frontier) in frontier && |Rest(r, frontier)| == |frontier| - 1
    ensures forall x :: x in Rest(r, frontier) ==> x in frontier
  {
  }

  predicate TooDeep(r: Reach, depth: nat)
  {
    r.maxDepth >= 0 && depth >= r.maxDepth
  }

  /** One turn of the walk: the events it shows, the next frontier and what is then seen. */
  datatype Turn = Turn(shown: seq<EventId>, frontier: Frontier, seen: set<EventId>)

  ghost function TurnOf(w: World, sort: Sorter, r: Reach, frontier: Frontier, seen: set<EventId>): Turn
    requires frontier != []
  {
    var (event, depth) := Popped(r, frontier);
    var rest := Rest(r, frontier);
    if TooDeep(r, depth) then Turn([], rest, seen)
    else
      var shown := Shows(w, sort, event, r.maxBreadth, seen);
      Turn(shown, rest + AtDepth(shown, depth + 1), SeenWith(w, sort, event, r.maxBreadth, seen))
  }

  ghost function Work(w: World, frontier: Frontier, seen: set<EventId>): nat
  {
    |frontier| + |w.local - seen|
  }

  /** Each turn uses up a frontier event, and each event it shows one unseen stored event. */
  lemma TurnShrinks(w: World, sort: Sorter, r: Reach, frontier: Frontier, seen: set<EventId>)
    requires Permutes(sort) && frontier != []
    ensures var t := TurnOf(w, sort, r, frontier, seen); Work(w, t.frontier, t.seen) < Work(w, frontier, seen)
  {
    var (event, depth) := Popped(r, frontier);
    if !TooDeep(r, depth) {
      var shown := Shows(w, sort, event, r.maxBreadth, seen);
      ExpandsTo(w, sort, Shown(w), event, r.maxBreadth, seen);
      assert Asked(event);
      Shrinks(w, seen, SeenWith(w, sort, event, r.maxBreadth, seen), shown);
    }
  }

  /** All a walk would show without a limit. */
  ghost function Walk(w: World, sort: Sorter, r: Reach, frontier: Frontier, seen: set<EventId>): seq<EventId>
    requires Permutes(sort)
    decreases Work(w, frontier, seen)
  {
    if frontier == [] then []
    else
      var t := TurnOf(w, sort, r, frontier, seen);
      TurnShrinks(w, sort, r, frontier, seen);
      t.shown + Walk(w, sort, r, t.frontier, t.seen)
  }

  /** Every mode shows distinct new events, visible, stored and reached through visible children. */
  lemma {:induction false} WalkFinds(w: World, sort: Sorter, r: Reach, succ: EventId -> set<EventId>, anchor: EventId,
                                     frontier: Frontier, seen0: set<EventId>, seen: set<EventId>, added: seq<EventId>)
    requires Permutes(sort) && Links(w, succ)
    requires Found(w, succ, anchor, added, seen0, seen) && FrontierReached(succ, anchor, frontier)
    ensures FoundNew(w, succ, anchor, added + Walk(w, sort, r, frontier, seen), seen0)
    decreases Work(w, frontier, seen)
  {
    assert Compared(anchor);
    if frontier == [] {
      assert added + [] == added;
    } else {
      var t := TurnOf(w, sort, r, frontier, seen);
      TurnShrinks(w, sort, r, frontier, seen);
      TurnFinds(w, sort, r, succ, anchor, frontier, seen0, seen, added);
      WalkFinds(w, sort, r, succ, anchor, t.frontier, seen0, t.seen, added + t.shown);
      Regroup(added, t.shown, Walk(w, sort, r, t.frontier, t.seen));
    }
  }

  lemma Regroup(a: seq<EventId>, b: seq<EventId>, c: seq<EventId>)
    ensures a + b + c == a + (b + c)
  {
  }

  lemma TurnFinds(w: World, sort: Sorter, r: Reach, succ: EventId -> set<EventId>, anchor: EventId,
                  frontier: Frontier, seen0: set<EventId>, seen: set<EventId>, added: seq<EventId>)
    requires Permutes(sort) && Links(w, succ) && frontier != []
    requires Found(w, succ, anchor, added, seen0, seen) && FrontierReached(succ, anchor, frontier)
    ensures var t := TurnOf(w, sort, r, frontier, seen);
            Found(w, succ, anchor, added + t.shown, seen0, t.seen) && FrontierReached(succ, anchor, t.frontier)
  {
    var x, rest := Popped(r, frontier), Rest(r, frontier);
    PopMembers(r, frontier);
    TurnTakes(w, sort, r, succ, frontier, seen);
    TurnKeeps(w, r, succ, anchor, frontier, x, rest, seen0, seen, added, TurnOf(w, sort, r, frontier, seen));
  }

  /** A turn drops the popped event `x` at the depth limit and expands it otherwise. */
  ghost predicate Takes(w: World, r: Reach, succ: EventId -> set<EventId>, x: (EventId, nat), rest: Frontier,
                        seen: set<EventId>, t: Turn)
  {
    if TooDeep(r, x.1) then t == Turn([], rest, seen)
    else
      && Expanded(w, succ, x.0, seen, t.shown, t.seen, r.maxBreadth < 0)
      && t.frontier == rest + AtDepth(t.shown, x.1 + 1)
  }

  lemma TurnTakes(w: World, sort: Sorter, r: Reach, succ: EventId -> set<EventId>, frontier: Frontier,
                  seen: set<EventId>)
    requires Permutes(sort) && Links(w, succ) && frontier != []
    ensures Takes(w, r, succ, Popped(r, frontier), Rest(r, frontier), seen, TurnOf(w, sort, r, frontier, seen))
  {
    ExpandsTo(w, sort, succ, Popped(r, frontier).0, r.maxBreadth, seen);
  }

  lemma TurnKeeps(w: World, r: Reach, succ: EventId -> set<EventId>, anchor: EventId, frontier: Frontier,
                  x: (EventId, nat), rest: Frontier, seen0: set<EventId>, seen: set<EventId>, added: seq<EventId>,
                  t: Turn)
    requires x in frontier && (forall y :: y in rest ==> y in frontier) && Takes(w, r, succ, x, rest, seen, t)
    requires Found(w, succ, anchor, added, seen0, seen) && FrontierReached(succ, anchor, frontier)
    ensures Found(w, succ, anchor, added + t.shown, seen0, t.seen) && FrontierReached(succ, anchor, t.frontier)
  {
    if TooDeep(r, x.1) {
      assert added + [] == added;
      RestReached(succ, anchor, frontier, rest);
    } else {
      KeepFound(w, succ, anchor, added, seen0, seen, frontier, x.0, x.1, rest, t.shown, t.seen, r.maxBreadth < 0);
    }
  }

  lemma RestReached(succ: EventId -> set<EventId>, anchor: EventId, whole: Frontier, rest: Frontier)
    requires FrontierReached(succ, anchor, whole) && forall x :: x in rest ==> x in whole
    ensures FrontierReached(succ, anchor, rest)
  {
    assert Compared(anchor);
  }

  lemma KeepFound(w: World, succ: EventId -> set<EventId>, anchor: EventId, added: seq<EventId>, seen0: set<EventId>,
                  seen: set<EventId>, frontier: Frontier, event: EventId, depth: nat, rest: Frontier,
                  pushed: seq<EventId>, seen': set<EventId>, whole: bool)
    requires Found(w, succ, anchor, added, seen0, seen) && FrontierReached(succ, anchor, frontier)
    requires (event, depth) in frontier && forall x :: x in rest ==> x in frontier
    requires Expanded(w, succ, event, seen, pushed, seen', whole)
    ensures Found(w, succ, anchor, added + pushed, seen0, seen')
    ensures FrontierReached(succ, anchor, rest + AtDepth(pushed, depth + 1))
  {
    assert Compared(anchor);
    assert Asked(event);
    FoundMore(w, succ, anchor, added, seen0, seen, event, depth, pushed, seen');
    FrontierGrows(succ, anchor, frontier, rest, pushed, depth + 1);
  }

  /** Breadth first with unlimited breadth, the walk shows exactly what is in reach, by distance. */
  lemma {:induction false} WalkReaches(w: World, sort: Sorter, r: Reach, succ: EventId -> set<EventId>, anchor: EventId,
                                       q: Queue, frontier: Frontier, seen: set<EventId>, added: seq<EventId>)
    returns (levels: seq<nat>)
    requires Permutes(sort) && Links(w, succ) && !r.depthFirst && r.maxBreadth < 0
    requires InStep(w, succ, anchor, r.maxDepth, q, added, seen, frontier)
    ensures Reaches(succ, anchor, r.maxDepth, added + Walk(w, sort, r, frontier, seen), levels)
    decreases Work(w, frontier, seen)
  {
    if frontier == [] {
      assert added + [] == added;
      StepEnd(w, succ, anchor, r.maxDepth, q, added, seen);
      levels := q.levels;
    } else {
      var t := TurnOf(w, sort, r, frontier, seen);
      TurnShrinks(w, sort, r, frontier, seen);
      var q' := TurnInStep(w, sort, r, succ, anchor, q, frontier, seen, added);
      levels := WalkReaches(w, sort, r, succ, anchor, q', t.frontier, t.seen, added + t.shown);
      Regroup(added, t.shown, Walk(w, sort, r, t.frontier, t.seen));
    }
  }

  /** `shown` and the anchor are exactly the events in reach, listed by hop distance. */
  ghost predicate Reaches(succ: EventId -> set<EventId>, anchor: EventId, maxDepth: int, shown: seq<EventId>,
                          levels: seq<nat>)
  {
    Complete(succ, anchor, maxDepth, {anchor} + SetOf(shown)) && Ordered(succ, {anchor}, shown, levels)
  }

  lemma TurnInStep(w: World, sort: Sorter, r: Reach, succ: EventId -> set<EventId>, anchor: EventId, q: Queue,
                   frontier: Frontier, seen: set<EventId>, added: seq<EventId>)
    returns (q': Queue)
    requires Permutes(sort) && Links(w, succ) && !r.depthFirst && r.maxBreadth < 0 && frontier != []
    requires InStep(w, succ, anchor, r.maxDepth, q, added, seen, frontier)
    ensures var t := TurnOf(w, sort, r, frontier, seen);
            InStep(w, succ, anchor, r.maxDepth, q', added + t.shown, t.seen, t.frontier)
  {
    StepFront(w, succ, anchor, r.maxDepth, q, added, seen, frontier);
    var t := TurnOf(w, sort, r, frontier, seen);
    if TooDeep(r, q.d) {
      StepSkip(w, succ, anchor, r.maxDepth, q, added, seen, frontier);
      assert added + [] == added;
      q' := q.(a := q.a[1..]);
    } else {
      q' := Turned(Grown(q, t.shown));
      ExpandsTo(w, sort, succ, q.a[0], r.maxBreadth, seen);
      StepExpand(w, succ, anchor, r.maxDepth, q, added, seen, frontier, t.shown, t.seen, t.frontier, q');
    }
  }

  /** Reading, ordering, truncating and visiting the children of one event. */
  method ExpandEvent(w: World, sort: Sorter, event: EventId, maxBreadth: int, limit: nat, results: seq<EventId>,
                     seen: set<EventId>)
    returns (pushed: seq<EventId>, seen': set<EventId>)
    ensures pushed == Cut(Shows(w, sort, event, maxBreadth, seen), limit - |results|)
    ensures |results + pushed| < limit ==> seen' == SeenWith(w, sort, event, maxBreadth, seen)
  {
    var pdus := ChildPdus(w, event, seen);
    pushed, seen' := Visit(w, Truncate(sort(pdus), maxBreadth), limit, results, seen);
  }

  /** One popped event: dropped at the depth limit, expanded otherwise. */
  method WalkTurn(w: World, sort: Sorter, r: Reach, limit: nat, results: seq<EventId>, frontier: Frontier,
                  seen: set<EventId>)
    returns (pushed: seq<EventId>, frontier': Frontier, seen': set<EventId>)
    requires frontier != [] && |results| < limit
    ensures var t := TurnOf(w, sort, r, frontier, seen);
            && pushed == Cut(t.shown, limit - |results|)
            && (|results + pushed| < limit ==> frontier' == t.frontier && seen' == t.seen)
  {
    var (event, depth) := Popped(r, frontier);
    frontier' := Rest(r, frontier);
    if TooDeep(r, depth) { return [], frontier', seen; }
    pushed, seen' := ExpandEvent(w, sort, event, r.maxBreadth, limit, results, seen);
    frontier' := frontier' + AtDepth(pushed, depth + 1);
  }

  /** `walk_down` from `anchor`: appends the unlimited walk, cut at the limit. */
  method WalkDown(w: World, sort: Sorter, anchor: EventId, r: Reach, limit: nat, results: seq<EventId>,
                  seen: set<EventId>)
    returns (results': seq<EventId>)
    requires Permutes(sort)
    ensures results' == results + Cut(Walk(w, sort, r, [(anchor, 0)], seen), limit - |results|)
  {
    var frontier: Frontier, seen' := [(anchor, 0)], seen;
    results' := results;
    ghost var whole := Walk(w, sort, r, frontier, seen);
    ghost var added := [];
    while frontier != [] && |results'| < limit
      invariant results' == results + added
      invariant |results'| < limit ==> whole == added + Walk(w, sort, r, frontier, seen')
      invariant |results'| >= limit ==> added == Cut(whole, limit - |results|)
      decreases if |results'| < limit then 1 + Work(w, frontier, seen') else 0
    {
      ghost var t := TurnOf(w, sort, r, frontier, seen');
      TurnShrinks(w, sort, r, frontier, seen');
      ghost var more := Walk(w, sort, r, t.frontier, t.seen);
      CutStep(results, added, whole, t.shown, more, limit);
      var pushed;
      pushed, frontier, seen' := WalkTurn(w, sort, r, limit, results', frontier, seen');
      Regroup(results, added, pushed);
      results', added := results' + pushed, added + pushed;
    }
  }

  /** Cutting at the limit turn by turn cuts the whole. */
  lemma CutStep(results: seq<EventId>, added: seq<EventId>, whole: seq<EventId>, shown: seq<EventId>,
                more: seq<EventId>,
                limit: nat)
    requires whole == added + (shown + more) && |results + added| < limit
    ensures var pushed := Cut(shown, limit - |results + added|);
            && (|results + added + pushed| < limit ==> pushed == shown && whole == added + pushed + more)
            && (|results + added + pushed| >= limit ==> added + pushed == Cut(whole, limit - |results|))
  {
    Regroup(added, shown, more);
  }

  /** In every mode `walk_down` shows no event twice and none already seen, only visible and
      stored ones, each linked to the anchor by a path of visible children. */
  lemma DownFinds(w: World, sort: Sorter, r: Reach, anchor: EventId, seen: set<EventId>)
    requires Permutes(sort)
    ensures FoundNew(w, Shown(w), anchor, Walk(w, sort, r, [(anchor, 0)], seen), seen)
  {
    var walk := Walk(w, sort, r, [(anchor, 0)], seen);
    EmptySet([]);
    WalkFinds(w, sort, r, Shown(w), anchor, [(anchor, 0)], seen, seen, []);
    assert [] + walk == walk;
  }

  /** Breadth first, with unlimited breadth and only the anchor seen, `walk_down` shows exactly
      the events within `maxDepth` hops (all reachable ones if it is negative), nearest first. */
  lemma DownReaches(w: World, sort: Sorter, r: Reach, anchor: EventId) returns (levels: seq<nat>)
    requires Permutes(sort) && !r.depthFirst && r.maxBreadth < 0
    ensures Reaches(Shown(w), anchor, r.maxDepth, Walk(w, sort, r, [(anchor, 0)], {anchor}), levels)
  {
    var walk := Walk(w, sort, r, [(anchor, 0)], {anchor});
    StepStart(w, Shown(w), anchor, r.maxDepth, {anchor});
    levels := WalkReaches(w, sort, r, Shown(w), anchor, Queue(0, {}, [anchor], [], []), [(anchor, 0)], {anchor}, []);
    assert [] + walk == walk;
  }

  // ---------- federation ----------

  datatype Params = Params(event: EventId, room: Option<string>, reach: Reach, limit: nat,
                           includeParent: bool, includeChildren: bool, directionUp: bool)

  /** What fetching over federation leaves stored: after a full request, or for one event. */
  datatype Network = Network(full: (World, string, Params) -> World, missing: (World, string, EventId) -> World)

  /** Fetching only adds events and child edges. */
  ghost predicate Extends(w: World, w': World)
  {
    && w.local <= w'.local && w'.visible == w.visible && w'.parent == w.parent && w'.room == w.room
    && (forall e :: SetOf(ChildrenOf(w, e)) <= SetOf(ChildrenOf(w', e)))
  }

  ghost predicate Additive(net: Network)
  {
    && (forall w, room, p {:trigger net.full(w, room, p)} :: Extends(w, net.full(w, room, p)))
    && (forall w, room, e {:trigger net.missing(w, room, e)} :: Extends(w, net.missing(w, room, e)))
  }

  /** Looking an event up, fetching it if it is not stored and fetching is allowed. */
  function Lookup(w: World, net: Network, canFetch: bool, room: string, e: EventId): (w': World)
  {
    if e in w.local || !canFetch then w else net.missing(w, room, e)
  }

  // ---------- walk_up ----------

  /** What an upward walk adds without a limit, and the world it leaves. */
  datatype Climb = Climb(added: seq<EventId>, world: World)

  ghost function Ancestors(w: World, net: Network, canFetch: bool, room: string, current: EventId, maxDepth: int,
                           depth: nat, seen: set<EventId>): Climb
    requires Additive(net)
    decreases |w.parent.Values - seen|
  {
    if (maxDepth >= 0 && depth >= maxDepth) || current !in w.parent || w.parent[current] in seen then Climb([], w)
    else
      var p := w.parent[current];
      var w' := Lookup(w, net, canFetch, room, p);
      if p !in w'.local || p !in w'.visible then Climb([], w')
      else
        Removes(w.parent.Values, seen, p);
        var more := Ancestors(w', net, canFetch, room, p, maxDepth, depth + 1, seen + {p});
        Climb([p] + more.added, more.world)
  }

  lemma Removes(s: set<EventId>, seen: set<EventId>, e: EventId)
    requires e in s && e !in seen
    ensures |s - (seen + {e})| < |s - seen|
  {
    assert s - seen == (s - (seen + {e})) + {e};
  }

  /** `walk_up` from `anchor`: appends the unlimited climb, cut at the limit. */
  method WalkUp(w: World, net: Network, canFetch: bool, room: string, anchor: EventId, maxDepth: int, limit: nat,
                results: seq<EventId>, seen: set<EventId>)
    returns (results': seq<EventId>, seen': set<EventId>, w': World)
    requires Additive(net)
    ensures var up := Ancestors(w, net, canFetch, room, anchor, maxDepth, 0, seen);
            && results' == results + Cut(up.added, limit - |results|)
            && (|results'| < limit ==> seen' == seen + SetOf(up.added) && w' == up.world)
  {
    results', seen', w' := results, seen, w;
    var current, depth := anchor, 0;
    ghost var up := Ancestors(w, net, canFetch, room, anchor, maxDepth, 0, seen);
    ghost var added := [];
    EmptySet([]);
    while |results'| < limit && !(maxDepth >= 0 && depth >= maxDepth)
      invariant results' == results + added && seen' == seen + SetOf(added)
      invariant var more := Ancestors(w', net, canFetch, room, current, maxDepth, depth, seen');
                up == Climb(added + more.added, more.world)
      invariant |results| < limit ==> |results'| <= limit
      invariant |results| >= limit ==> added == []
      decreases limit - |results'|
    {
      if current !in w'.parent { break; }
      var parent := w'.parent[current];
      if parent in seen' { break; }
      ghost var more := Ancestors(w', net, canFetch, room, current, maxDepth, depth, seen');
      w' := Lookup(w', net, canFetch, room, parent);
      if parent !in w'.local || parent !in w'.visible { return; }
      Regroup(results, added, [parent]);
      Regroup(added, [parent], more.added[1..]);
      SetOfSnoc(added, parent);
      seen' := seen' + {parent};
      results', added := results' + [parent], added + [parent];
      current, depth := parent, depth + 1;
    }
  }

  /** The edge from each event to its parent. */
  ghost function Up(parent: map<EventId, EventId>): EventId -> set<EventId>
  {
    e => if e in parent then {parent[e]} else {}
  }

  /** `es` follows parent edges upwards from `from`. */
  ghost predicate Chain(parent: map<EventId, EventId>, from: EventId, es: seq<EventId>)
  {
    forall i :: 0 <= i < |es| ==> IsParent(parent, Prior(from, es, i), es[i])
  }

  ghost predicate IsParent(parent: map<EventId, EventId>, child: EventId, e: EventId)
  {
    child in parent && parent[child] == e
  }

  ghost function Prior(from: EventId, es: seq<EventId>, i: nat): EventId
    requires i < |es|
  {
    if i == 0 then from else es[i - 1]
  }

  lemma ChainMore(parent: map<EventId, EventId>, from: EventId, e: EventId, es: seq<EventId>)
    requires IsParent(parent, from, e) && Chain(parent, e, es)
    ensures Chain(parent, from, [e] + es)
  {
    var all := [e] + es;
    forall i | 0 <= i < |all| ensures IsParent(parent, Prior(from, all, i), all[i]) {
      if i > 0 {
        assert IsParent(parent, Prior(e, es, i - 1), es[i - 1]);
        assert Prior(from, all, i) == Prior(e, es, i - 1);
      }
    }
  }

  /** A climb is a chain of parents, new, distinct, visible and stored in the end. */
  ghost predicate Climbed(w: World, current: EventId, seen: set<EventId>, up: Climb)
  {
    && Extends(w, up.world) && Distinct(up.added) && SetOf(up.added) !! seen
    && SetOf(up.added) <= up.world.local * w.visible && Chain(w.parent, current, up.added)
  }

  lemma {:induction false} AncestorsClimb(w: World, net: Network, canFetch: bool, room: string, current: EventId,
                                          maxDepth: int, depth: nat, seen: set<EventId>)
    requires Additive(net)
    ensures Climbed(w, current, seen, Ancestors(w, net, canFetch, room, current, maxDepth, depth, seen))
    decreases |w.parent.Values - seen|
  {
    if !((maxDepth >= 0 && depth >= maxDepth) || current !in w.parent || w.parent[current] in seen) {
      var p := w.parent[current];
      var w' := Lookup(w, net, canFetch, room, p);
      if p in w'.local && p in w'.visible {
        Removes(w.parent.Values, seen, p);
        AncestorsClimb(w', net, canFetch, room, p, maxDepth, depth + 1, seen + {p});
        ClimbMore(w, w', current, p, seen, Ancestors(w', net, canFetch, room, p, maxDepth, depth + 1, seen + {p}));
      }
    }
  }

  lemma ClimbMore(w: World, w': World, current: EventId, p: EventId, seen: set<EventId>, more: Climb)
    requires Extends(w, w') && current in w.parent && w.parent[current] == p && p !in seen
    requires p in w'.local && p in w'.visible && Climbed(w', p, seen + {p}, more)
    ensures Climbed(w, current, seen, Climb([p] + more.added, more.world))
  {
    SetOfAppend([p], more.added);
    assert SetOf([p]) == {p};
    DistinctAppend([p], more.added);
    ChainMore(w.parent, current, p, more.added);
  }

  lemma {:induction false} ChainReached(parent: map<EventId, EventId>, from: EventId, es: seq<EventId>, i: nat)
    requires Chain(parent, from, es) && i < |es|
    ensures es[i] in Within(Up(parent), {from}, i + 1)
  {
    var before := Prior(from, es, i);
    if i > 0 { ChainReached(parent, from, es, i - 1); }
    assert IsParent(parent, before, es[i]);
    assert before in Within(Up(parent), {from}, i);
    assert es[i] in Up(parent)(before);
    assert es[i] in Next(Up(parent), Within(Up(parent), {from}, i));
  }

  // ---------- resolve ----------

  datatype Reply = NotFound | Forbidden | Events(events: seq<EventId>, limited: bool)

  /** The world in which the anchor is looked up. */
  function AnchorWorld(w: World, net: Network, canFetch: bool, p: Params): World
  {
    if canFetch && (p.event !in w.local || p.event in w.explore) then
      var room := if p.event in w.local && p.event in w.room then Some(w.room[p.event]) else p.room;
      if room.Some? then net.full(w, room.value, p) else w
    else w
  }

  predicate AsksParent(w: World, p: Params)
  {
    p.includeParent && p.event in w.parent
  }

  /** The world after a requested parent was looked up. */
  function HeadWorld(w: World, net: Network, canFetch: bool, room: string, p: Params): World
  {
    if AsksParent(w, p) then Lookup(w, net, canFetch, room, w.parent[p.event]) else w
  }

  predicate ShowsParent(w: World, p: Params)
  {
    AsksParent(w, p) && w.parent[p.event] in w.local && w.parent[p.event] != p.event && w.parent[p.event] in w.visible
  }

  function Head(w: World, p: Params): seq<EventId>
  {
    [p.event] + if ShowsParent(w, p) then [w.parent[p.event]] else []
  }

  /** A stored parent counts as seen even where it is not visible. */
  function HeadSeen(w: World, p: Params): set<EventId>
  {
    {p.event} + if AsksParent(w, p) && w.parent[p.event] in w.local then {w.parent[p.event]} else {}
  }

  /** The events of an answer without a limit, and the world they were read from. */
  ghost function Unlimited(w: World, net: Network, canFetch: bool, room: string, sort: Sorter, p: Params): Climb
    requires Additive(net) && Permutes(sort)
  {
    var w' := HeadWorld(w, net, canFetch, room, p);
    var rest := Related(w', net, canFetch, room, sort, p, HeadSeen(w', p));
    Climb(Head(w', p) + rest.added, rest.world)
  }

  /** What the walks add to the anchor and its requested parent. */
  ghost function Related(w: World, net: Network, canFetch: bool, room: string, sort: Sorter, p: Params,
                         seen: set<EventId>): Climb
    requires Additive(net) && Permutes(sort)
  {
    if !p.directionUp then Climb(Walk(w, sort, p.reach, [(p.event, 0)], seen), w)
    else
      var up := Ancestors(w, net, canFetch, room, p.event, p.reach.maxDepth, 0, seen);
      Climb(up.added + ChildrenAdded(up.world, sort, p, seen + SetOf(up.added)), up.world)
  }

  /** The children an upward answer adds on request. */
  ghost function ChildrenAdded(w: World, sort: Sorter, p: Params, seen: set<EventId>): seq<EventId>
    requires Permutes(sort)
  {
    if p.includeChildren then Walk(w, sort, p.reach.(maxDepth := 1), [(p.event, 0)], seen) else []
  }

  ghost function Answer(w: World, net: Network, canFetch: bool, sort: Sorter, p: Params): Reply
    requires Additive(net) && Permutes(sort)
  {
    var w' := AnchorWorld(w, net, canFetch, p);
    if p.event !in w'.local || p.event !in w'.room then NotFound
    else if p.event !in w'.visible then Forbidden
    else
      var room := w'.room[p.event];
      Events(Cut(Unlimited(w', net, canFetch, room, sort, p).added, p.limit),
             |Head(HeadWorld(w', net, canFetch, room, p), p)| > p.limit)
  }

  /** The anchor and, on request, its parent. */
  method ResolveHead(w: World, net: Network, canFetch: bool, room: string, p: Params)
    returns (results: seq<EventId>, seen: set<EventId>, w': World)
    requires Additive(net)
    ensures w' == HeadWorld(w, net, canFetch, room, p)
    ensures results == Head(w', p) && seen == HeadSeen(w', p)
  {
    results, seen, w' := [p.event], {p.event}, w;
    if p.includeParent && p.event in w.parent {
      var parent := w.parent[p.event];
      w' := Lookup(w, net, canFetch, room, parent);
      if parent in w'.local {
        if parent !in seen && parent in w'.visible { results := results + [parent]; }
        seen := seen + {parent};
      }
    }
  }

  /** The walks of one request, each stopping at the limit. */
  method ResolveWalks(w: World, net: Network, canFetch: bool, room: string, sort: Sorter, p: Params,
                      head: seq<EventId>, seen: set<EventId>)
    returns (results: seq<EventId>)
    requires Additive(net) && Permutes(sort)
    ensures Cut(results, p.limit) == Cut(head + Related(w, net, canFetch, room, sort, p, seen).added, p.limit)
    ensures |results| > p.limit <==> |head| > p.limit
  {
    if p.directionUp {
      results := ResolveUp(w, net, canFetch, room, sort, p, head, seen);
    } else {
      results := WalkDown(w, sort, p.event, p.reach, p.limit, head, seen);
      CutOnce(head, Walk(w, sort, p.reach, [(p.event, 0)], seen), results, p.limit);
    }
  }

  method ResolveUp(w: World, net: Network, canFetch: bool, room: string, sort: Sorter, p: Params,
                   head: seq<EventId>, seen: set<EventId>)
    returns (results: seq<EventId>)
    requires Additive(net) && Permutes(sort)
    ensures var up := Ancestors(w, net, canFetch, room, p.event, p.reach.maxDepth, 0, seen);
            var below := ChildrenAdded(up.world, sort, p, seen + SetOf(up.added));
            Cut(results, p.limit) == Cut(head + (up.added + below), p.limit)
    ensures |results| > p.limit <==> |head| > p.limit
  {
    var middle, seen', w' := WalkUp(w, net, canFetch, room, p.event, p.reach.maxDepth, p.limit, head, seen);
    results := WalkBelow(w', sort, p, middle, seen');
    ghost var up := Ancestors(w, net, canFetch, room, p.event, p.reach.maxDepth, 0, seen);
    ghost var below := ChildrenAdded(up.world, sort, p, seen + SetOf(up.added));
    CutTwice(head, up.added, below, middle, results, p.limit);
  }

  /** The requested children after an upward walk. */
  method WalkBelow(w: World, sort: Sorter, p: Params, results: seq<EventId>, seen: set<EventId>)
    returns (results': seq<EventId>)
    requires Permutes(sort)
    ensures results' == results + Cut(ChildrenAdded(w, sort, p, seen), p.limit - |results|)
    ensures |results| >= p.limit ==> results' == results
  {
    if !p.includeChildren { return results; }
    results' := WalkDown(w, sort, p.event, p.reach.(maxDepth := 1), p.limit, results, seen);
  }

  /** `resolve`: the unlimited answer cut at the limit; `limited` only tells whether the anchor
      and its requested parent alone exceed the limit. */
  method Resolve(w: World, net: Network, canFetch: bool, sort: Sorter, p: Params) returns (reply: Reply)
    requires Additive(net) && Permutes(sort)
    ensures reply == Answer(w, net, canFetch, sort, p)
  {
    var w' := AnchorWorld(w, net, canFetch, p);
    if p.event !in w'.local { return NotFound; }
    if p.event !in w'.room { return NotFound; }
    var room := w'.room[p.event];
    if p.event !in w'.visible { return Forbidden; }
    var results, seen;
    results, seen, w' := ResolveHead(w', net, canFetch, room, p);
    results := ResolveWalks(w', net, canFetch, room, sort, p, results, seen);
    reply := Events(Cut(results, p.limit), |results| > p.limit);
  }

  /** Appending a part only up to the limit and then truncating truncates the whole. */
  lemma CutOnce(head: seq<EventId>, part: seq<EventId>, results: seq<EventId>, limit: nat)
    requires results == head + Cut(part, limit - |head|)
    ensures Cut(results, limit) == Cut(head + part, limit)
    ensures |results| > limit <==> |head| > limit
    ensures |results| < limit ==> results == head + part
  {
  }

  lemma CutTwice(head: seq<EventId>, a: seq<EventId>, b: seq<EventId>, middle: seq<EventId>, results: seq<EventId>,
                 limit: nat)
    requires middle == head + Cut(a, limit - |head|)
    requires |middle| < limit ==> results == middle + Cut(b, limit - |middle|)
    requires |middle| >= limit ==> results == middle
    ensures Cut(results, limit) == Cut(head + (a + b), limit)
    ensures |results| > limit <==> |head| > limit
  {
    CutOnce(head, a, middle, limit);
    Regroup(head, a, b);
    if |middle| < limit {
      CutOnce(middle, b, results, limit);
    } else {
      assert Cut(head + a, limit) == Cut(head + a + b, limit);
    }
  }

  // ---------- what resolve guarantees ----------

  /** Linked to the anchor by relation edges, downwards through visible children or upwards. */
  ghost predicate Linked(w: World, anchor: EventId, e: EventId)
  {
    Reachable(Shown(w), {anchor}, e) || Reachable(Up(w.parent), {anchor}, e)
  }

  /** Distinct, visible, stored and linked events. */
  ghost predicate Sound(w: World, anchor: EventId, es: seq<EventId>)
  {
    Distinct(es) && SetOf(es) <= w.visible * w.local && forall e :: e in es ==> Linked(w, anchor, e)
  }

  lemma HeadSound(w: World, p: Params)
    requires p.event in w.local && p.event in w.visible
    ensures Sound(w, p.event, Head(w, p)) && SetOf(Head(w, p)) <= HeadSeen(w, p)
  {
    assert p.event in Within(Up(w.parent), {p.event}, 0);
    if ShowsParent(w, p) {
      var parent := w.parent[p.event];
      assert Chain(w.parent, p.event, [parent]);
      ChainReached(w.parent, p.event, [parent], 0);
      assert Head(w, p) == [p.event, parent];
    } else {
      assert Head(w, p) == [p.event];
    }
  }

  lemma SoundAppend(w: World, anchor: EventId, a: seq<EventId>, b: seq<EventId>, seen: set<EventId>)
    requires Sound(w, anchor, a) && Sound(w, anchor, b) && SetOf(a) <= seen && SetOf(b) !! seen
    ensures Sound(w, anchor, a + b)
  {
    SetOfAppend(a, b);
    DistinctAppend(a, b);
  }

  lemma DownSound(w: World, sort: Sorter, r: Reach, anchor: EventId, seen: set<EventId>)
    requires Permutes(sort)
    ensures var walk := Walk(w, sort, r, [(anchor, 0)], seen); Sound(w, anchor, walk) && SetOf(walk) !! seen
  {
    DownFinds(w, sort, r, anchor, seen);
  }

  lemma UpSound(w: World, net: Network, canFetch: bool, room: string, anchor: EventId, maxDepth: int,
                seen: set<EventId>)
    requires Additive(net)
    ensures var up := Ancestors(w, net, canFetch, room, anchor, maxDepth, 0, seen);
            Sound(up.world, anchor, up.added) && SetOf(up.added) !! seen && Extends(w, up.world)
  {
    var up := Ancestors(w, net, canFetch, room, anchor, maxDepth, 0, seen);
    AncestorsClimb(w, net, canFetch, room, anchor, maxDepth, 0, seen);
    forall e | e in up.added ensures Linked(up.world, anchor, e) {
      var i :| 0 <= i < |up.added| && up.added[i] == e;
      ChainReached(w.parent, anchor, up.added, i);
    }
  }

  lemma RelatedSound(w: World, net: Network, canFetch: bool, room: string, sort: Sorter, p: Params, seen: set<EventId>)
    requires Additive(net) && Permutes(sort)
    ensures var rest := Related(w, net, canFetch, room, sort, p, seen);
            Sound(rest.world, p.event, rest.added) && SetOf(rest.added) !! seen && Extends(w, rest.world)
  {
    if !p.directionUp {
      DownSound(w, sort, p.reach, p.event, seen);
    } else {
      var up := Ancestors(w, net, canFetch, room, p.event, p.reach.maxDepth, 0, seen);
      var seen' := seen + SetOf(up.added);
      var below := ChildrenAdded(up.world, sort, p, seen');
      UpSound(w, net, canFetch, room, p.event, p.reach.maxDepth, seen);
      if p.includeChildren {
        DownSound(up.world, sort, p.reach.(maxDepth := 1), p.event, seen');
      } else {
        EmptySet([]);
      }
      SoundAppend(up.world, p.event, up.added, below, seen');
      SetOfAppend(up.added, below);
    }
  }

  lemma SoundExtends(w: World, w': World, p: Params)
    requires Extends(w, w') && Sound(w, p.event, Head(w, p))
    requires p.event in w.local && p.event in w.visible
    ensures Sound(w', p.event, Head(w, p))
  {
    assert p.event in Within(Up(w'.parent), {p.event}, 0);
    if ShowsParent(w, p) {
      var parent := w.parent[p.event];
      assert Chain(w'.parent, p.event, [parent]);
      ChainReached(w'.parent, p.event, [parent], 0);
      assert Head(w, p) == [p.event, parent];
    } else {
      assert Head(w, p) == [p.event];
    }
  }

  lemma SoundCut(w: World, anchor: EventId, es: seq<EventId>, n: int)
    requires Sound(w, anchor, es)
    ensures Sound(w, anchor, Cut(es, n))
  {
    forall e | e in Cut(es, n) ensures e in es { }
  }

  lemma UnlimitedSound(w: World, net: Network, canFetch: bool, room: string, sort: Sorter, p: Params)
    requires Additive(net) && Permutes(sort) && p.event in w.local && p.event in w.visible
    ensures var all := Unlimited(w, net, canFetch, room, sort, p);
            Sound(all.world, p.event, all.added) && Extends(w, all.world)
  {
    var w' := HeadWorld(w, net, canFetch, room, p);
    assert Extends(w, w');
    var seen := HeadSeen(w', p);
    var rest := Related(w', net, canFetch, room, sort, p, seen);
    HeadSound(w', p);
    RelatedSound(w', net, canFetch, room, sort, p, seen);
    SoundExtends(w', rest.world, p);
    SoundAppend(rest.world, p.event, Head(w', p), rest.added, seen);
    ExtendsTwice(w, w', rest.world);
  }

  lemma ExtendsTwice(a: World, b: World, c: World)
    requires Extends(a, b) && Extends(b, c)
    ensures Extends(a, c)
  {
    forall e ensures SetOf(ChildrenOf(a, e)) <= SetOf(ChildrenOf(c, e)) {
      assert SetOf(ChildrenOf(a, e)) <= SetOf(ChildrenOf(b, e));
    }
  }

  /** Whatever the mode and however the relations loop, a reply lists at most `limit` events, none
      twice, all visible to the requester, stored, and linked to the anchor, which comes first. */
  lemma AnswerSound(w: World, net: Network, canFetch: bool, sort: Sorter, p: Params) returns (w': World)
    requires Additive(net) && Permutes(sort) && Answer(w, net, canFetch, sort, p).Events?
    ensures var es := Answer(w, net, canFetch, sort, p).events;
            |es| <= p.limit && Sound(w', p.event, es) && (p.limit > 0 ==> es != [] && es[0] == p.event)
    ensures Extends(w, w')
  {
    var w1 := AnchorWorld(w, net, canFetch, p);
    var all := Unlimited(w1, net, canFetch, w1.room[p.event], sort, p);
    UnlimitedSound(w1, net, canFetch, w1.room[p.event], sort, p);
    SoundCut(all.world, p.event, all.added, p.limit);
    w' := all.world;
    assert Extends(w, w1);
    ExtendsTwice(w, w1, w');
  }

  /** Why a climb ends: at the depth limit, at an event without parent, or at a parent that was
      seen, cannot be had, or may not be seen. It never exceeds the depth limit. */
  ghost predicate Stops(w: World, current: EventId, maxDepth: int, depth: nat, seen: set<EventId>, up: Climb)
  {
    var n := |up.added|;
    var last := if n == 0 then current else up.added[n - 1];
    && (maxDepth >= 0 ==> depth + n <= maxDepth)
    && (depth + n != maxDepth && last in w.parent && w.parent[last] !in seen && w.parent[last] !in up.added ==>
          w.parent[last] !in up.world.local * w.visible)
  }

  lemma {:induction false} AncestorsStop(w: World, net: Network, canFetch: bool, room: string, current: EventId,
                                         maxDepth: int, depth: nat, seen: set<EventId>)
    requires Additive(net) && (maxDepth >= 0 ==> depth <= maxDepth)
    ensures Stops(w, current, maxDepth, depth, seen, Ancestors(w, net, canFetch, room, current, maxDepth, depth, seen))
    decreases |w.parent.Values - seen|
  {
    if !((maxDepth >= 0 && depth >= maxDepth) || current !in w.parent || w.parent[current] in seen) {
      var p := w.parent[current];
      var w' := Lookup(w, net, canFetch, room, p);
      if p in w'.local && p in w'.visible {
        Removes(w.parent.Values, seen, p);
        AncestorsStop(w', net, canFetch, room, p, maxDepth, depth + 1, seen + {p});
        StopMore(w, w', current, p, maxDepth, depth, seen,
                 Ancestors(w', net, canFetch, room, p, maxDepth, depth + 1, seen + {p}));
      }
    }
  }

  lemma StopMore(w: World, w': World, current: EventId, p: EventId, maxDepth: int, depth: nat, seen: set<EventId>,
                 more: Climb)
    requires w'.parent == w.parent && w'.visible == w.visible && Stops(w', p, maxDepth, depth + 1, seen + {p}, more)
    ensures Stops(w, current, maxDepth, depth, seen, Climb([p] + more.added, more.world))
  {
  }

  /** A downward breadth-first answer of unlimited breadth that stays below the limit holds exactly
      the events in reach, the anchor first and then by hop distance. */
  lemma AnswerReaches(w: World, net: Network, canFetch: bool, sort: Sorter, p: Params) returns (levels: seq<nat>)
    requires Additive(net) && Permutes(sort) && Answer(w, net, canFetch, sort, p).Events?
    requires !p.directionUp && !p.includeParent && !p.reach.depthFirst && p.reach.maxBreadth < 0
    requires |Answer(w, net, canFetch, sort, p).events| < p.limit
    ensures var es := Answer(w, net, canFetch, sort, p).events;
            es != [] && es[0] == p.event
            && Reaches(Shown(AnchorWorld(w, net, canFetch, p)), p.event, p.reach.maxDepth, es[1..], levels)
  {
    var w' := AnchorWorld(w, net, canFetch, p);
    levels := DownReaches(w', sort, p.reach, p.event);
    var walk := Walk(w', sort, p.reach, [(p.event, 0)], {p.event});
    assert HeadSeen(w', p) == {p.event} && Head(w', p) == [p.event];
    assert ([p.event] + walk)[1..] == walk;
  }

  // ---------- request parameters ----------

  datatype Request = Request(
    event: EventId, room: Option<string>, maxDepth: Option<int>, maxBreadth: Option<int>, limit: Option<int>,
    depthFirst: Option<bool>, includeParent: Option<bool>, includeChildren: Option<bool>, direction: Option<string>)

  function Or<T>(o: Option<T>, otherwise: T): T
  {
    if o.Some? then o.value else otherwise
  }

  const MAX_LIMIT: nat := 100

  function Clamp(limit: int): (n: nat)
    ensures n <= MAX_LIMIT && (limit < 0 ==> n == 0)
    ensures 0 <= limit ==> n <= limit && (n == limit || n == MAX_LIMIT)
  {
    if limit < 0 then 0 else if limit > MAX_LIMIT then MAX_LIMIT else limit
  }

  /** `Params::defaulted`; the order of siblings is part of the sorter. */
  function Defaulted(q: Request): Params
  {
    Params(q.event, q.room, Reach(Or(q.maxDepth, 3), Or(q.maxBreadth, 10), Or(q.depthFirst, false)),
           Clamp(Or(q.limit, MAX_LIMIT)), Or(q.includeParent, false), Or(q.includeChildren, false),
           q.direction == Some("up"))
  }

  /** Whatever a request asks for, a reply holds at most 100 sound events. */
  lemma RepliesAreBounded(w: World, net: Network, canFetch: bool, sort: Sorter, q: Request) returns (w': World)
    requires Additive(net) && Permutes(sort) && Answer(w, net, canFetch, sort, Defaulted(q)).Events?
    ensures var es := Answer(w, net, canFetch, sort, Defaulted(q)).events; |es| <= MAX_LIMIT && Sound(w', q.event, es)
    ensures q.limit.Some? && q.limit.value >= 0 ==>
        |Answer(w, net, canFetch, sort, Defaulted(q)).events| <= q.limit.value
  {
    w' := AnswerSound(w, net, canFetch, sort, Defaulted(q));
  }
}
