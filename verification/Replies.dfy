/** What the replies of `resolve` hold and report (src/api/msc2836.rs:338-591): which events the
    walks reach past those already seen, how far a climb gets, and when `limited` is right. */
module Replies {
  import opened Bytes
  import opened Distance
  import opened Relationships

  // ---------- events that were seen before the walk ----------

  /** The world in which some events may not be seen. */
  ghost function Hiding(w: World, hidden: set<EventId>): World
  {
    w.(visible := w.visible - hidden)
  }

  lemma {:induction false} FreshHides(visible: set<EventId>, hidden: set<EventId>, pdus: seq<EventId>,
                                      seen: set<EventId>)
    requires hidden <= seen
    ensures Fresh(visible - hidden, pdus, seen) == Fresh(visible, pdus, seen)
    decreases |pdus|
  {
    if pdus != [] { FreshHides(visible, hidden, pdus[..|pdus| - 1], seen); }
  }

  lemma TurnHides(w: World, sort: Sorter, r: Reach, frontier: Frontier, seen: set<EventId>, hidden: set<EventId>)
    requires frontier != [] && hidden <= seen
    ensures TurnOf(Hiding(w, hidden), sort, r, frontier, seen) == TurnOf(w, sort, r, frontier, seen)
    ensures seen <= TurnOf(w, sort, r, frontier, seen).seen
  {
    FreshHides(w.visible, hidden, Ranked(w, sort, Popped(r, frontier).0, r.maxBreadth, seen), seen);
  }

  /** A walk passes events already seen as if they were invisible. */
  lemma {:induction false} WalkHides(w: World, sort: Sorter, r: Reach, frontier: Frontier, seen: set<EventId>,
                                     hidden: set<EventId>)
    requires Permutes(sort) && hidden <= seen
    ensures Walk(Hiding(w, hidden), sort, r, frontier, seen) == Walk(w, sort, r, frontier, seen)
    decreases Work(w, frontier, seen)
  {
    if frontier != [] {
      var t := TurnOf(w, sort, r, frontier, seen);
      TurnHides(w, sort, r, frontier, seen, hidden);
      TurnShrinks(w, sort, r, frontier, seen);
      WalkHides(w, sort, r, t.frontier, t.seen, hidden);
    }
  }

  /** Breadth first and with unlimited breadth, whatever was seen before: exactly the events within
      `maxDepth` hops by paths of visible children past those seen, nearest first. */
  lemma DownReachesPast(w: World, sort: Sorter, r: Reach, anchor: EventId, seen: set<EventId>)
    returns (levels: seq<nat>)
    requires Permutes(sort) && !r.depthFirst && r.maxBreadth < 0 && anchor in seen
    ensures Reaches(Shown(Hiding(w, seen - {anchor})), anchor, r.maxDepth,
                    Walk(w, sort, r, [(anchor, 0)], seen), levels)
  {
    var w' := Hiding(w, seen - {anchor});
    var walk := Walk(w', sort, r, [(anchor, 0)], seen);
    StepStart(w', Shown(w'), anchor, r.maxDepth, seen);
    levels := WalkReaches(w', sort, r, Shown(w'), anchor, Queue(0, {}, [anchor], [], []), [(anchor, 0)], seen, []);
    assert [] + walk == walk;
    WalkHides(w, sort, r, [(anchor, 0)], seen, seen - {anchor});
  }

  // ---------- walks of unlimited depth, in either order ----------

  ghost function Heads(frontier: Frontier): set<EventId>
  {
    set x | x in frontier :: x.0
  }

  /** Every event found is expanded or in the frontier, and every visible event seen is found. */
  ghost predicate Covering(succ: EventId -> set<EventId>, anchor: EventId, heads: set<EventId>, all: set<EventId>,
                           seen: set<EventId>, visible: set<EventId>)
  {
    anchor in all && (seen - all) !! visible && forall e :: e in all && e !in heads ==> succ(e) <= all
  }

  lemma CoverStep(succ: EventId -> set<EventId>, anchor: EventId, heads: set<EventId>, all: set<EventId>,
                  seen: set<EventId>, visible: set<EventId>, e: EventId, heads': set<EventId>, shown: set<EventId>,
                  seen': set<EventId>)
    requires Covering(succ, anchor, heads, all, seen, visible)
    requires heads <= heads' + {e} && shown <= heads' && succ(e) <= visible
    requires shown == succ(e) - seen && seen <= seen' && (seen' - seen) * visible == shown
    ensures Covering(succ, anchor, heads', all + shown, seen', visible)
  {
    forall x | x in all + shown && x !in heads' ensures succ(x) <= all + shown {
      if x == e {
        forall c | c in succ(e) ensures c in all + shown { }
      } else {
        assert x in all && x !in heads;
      }
    }
  }

  lemma HeadsTurn(r: Reach, frontier: Frontier, shown: seq<EventId>)
    requires frontier != []
    ensures var x := Popped(r, frontier);
            var frontier' := Rest(r, frontier) + AtDepth(shown, x.1 + 1);
            Heads(frontier) <= Heads(frontier') + {x.0} && SetOf(shown) <= Heads(frontier')
  {
    var x, rest := Popped(r, frontier), Rest(r, frontier);
    var more := AtDepth(shown, x.1 + 1);
    forall y | y in frontier ensures y.0 in Heads(rest + more) + {x.0} {
      if y != x { assert y in rest; assert y in rest + more; }
    }
    forall c | c in shown ensures c in Heads(rest + more) {
      var i :| 0 <= i < |shown| && shown[i] == c;
      assert more[i] == (c, x.1 + 1) && more[i] in rest + more;
    }
  }

  lemma {:induction false} ClosedHoldsReach(succ: EventId -> set<EventId>, anchor: EventId, all: set<EventId>, n: nat)
    requires anchor in all && forall e :: e in all ==> succ(e) <= all
    ensures Within(succ, {anchor}, n) <= all
  {
    if n > 0 { ClosedHoldsReach(succ, anchor, all, n - 1); }
  }

  lemma {:induction false} WalkCovers(w: World, sort: Sorter, r: Reach, succ: EventId -> set<EventId>, anchor: EventId,
                                      frontier: Frontier, seen: set<EventId>, added: seq<EventId>, e: EventId)
    requires Permutes(sort) && Links(w, succ) && r.maxDepth < 0 && r.maxBreadth < 0
    requires Covering(succ, anchor, Heads(frontier), {anchor} + SetOf(added), seen, w.visible)
    requires Reachable(succ, {anchor}, e)
    ensures e in {anchor} + SetOf(added + Walk(w, sort, r, frontier, seen))
    decreases Work(w, frontier, seen)
  {
    if frontier == [] {
      var n: nat :| e in Within(succ, {anchor}, n);
      ClosedHoldsReach(succ, anchor, {anchor} + SetOf(added), n);
      assert added + [] == added;
    } else {
      var t := TurnOf(w, sort, r, frontier, seen);
      TurnShrinks(w, sort, r, frontier, seen);
      TurnCovers(w, sort, r, succ, anchor, frontier, seen, added);
      WalkCovers(w, sort, r, succ, anchor, t.frontier, t.seen, added + t.shown, e);
      Regroup(added, t.shown, Walk(w, sort, r, t.frontier, t.seen));
    }
  }

  lemma TurnCovers(w: World, sort: Sorter, r: Reach, succ: EventId -> set<EventId>, anchor: EventId, frontier: Frontier,
                   seen: set<EventId>, added: seq<EventId>)
    requires Permutes(sort) && Links(w, succ) && r.maxDepth < 0 && r.maxBreadth < 0 && frontier != []
    requires Covering(succ, anchor, Heads(frontier), {anchor} + SetOf(added), seen, w.visible)
    ensures var t := TurnOf(w, sort, r, frontier, seen);
            Covering(succ, anchor, Heads(t.frontier), {anchor} + SetOf(added + t.shown), t.seen, w.visible)
  {
    TurnTakes(w, sort, r, succ, frontier, seen);
    HeadsTurn(r, frontier, TurnOf(w, sort, r, frontier, seen).shown);
    TakenCovers(w, r, succ, anchor, Heads(frontier), Popped(r, frontier), Rest(r, frontier), seen, added,
                TurnOf(w, sort, r, frontier, seen));
  }

  lemma TakenCovers(w: World, r: Reach, succ: EventId -> set<EventId>, anchor: EventId, heads: set<EventId>,
                    x: (EventId, nat), rest: Frontier, seen: set<EventId>, added: seq<EventId>, t: Turn)
    requires Takes(w, r, succ, x, rest, seen, t) && r.maxDepth < 0 && r.maxBreadth < 0
    requires Covering(succ, anchor, heads, {anchor} + SetOf(added), seen, w.visible)
    requires heads <= Heads(t.frontier) + {x.0} && SetOf(t.shown) <= Heads(t.frontier)
    ensures Covering(succ, anchor, Heads(t.frontier), {anchor} + SetOf(added + t.shown), t.seen, w.visible)
  {
    assert Asked(x.0);
    PushedIsNew(SetOf(ChildrenOf(w, x.0)), w.local, w.visible, seen, t.seen, SetOf(t.shown), succ(x.0));
    CoverStep(succ, anchor, heads, {anchor} + SetOf(added), seen, w.visible, x.0, Heads(t.frontier), SetOf(t.shown),
              t.seen);
    SetOfAppend(added, t.shown);
    assert {anchor} + SetOf(added) + SetOf(t.shown) == {anchor} + SetOf(added + t.shown);
  }

  lemma CoverStart(succ: EventId -> set<EventId>, anchor: EventId, seen: set<EventId>, visible: set<EventId>)
    requires anchor in seen && (seen - {anchor}) !! visible
    ensures Covering(succ, anchor, Heads([(anchor, 0)]), {anchor} + SetOf([]), seen, visible)
  {
    var frontier: Frontier := [(anchor, 0)];
    assert frontier[0] in frontier && frontier[0].0 in Heads(frontier);
  }

  lemma WalkCompletes(w: World, sort: Sorter, r: Reach, succ: EventId -> set<EventId>, anchor: EventId,
                      seen: set<EventId>)
    requires Permutes(sort) && Links(w, succ) && r.maxDepth < 0 && r.maxBreadth < 0
    requires anchor in seen && (seen - {anchor}) !! w.visible
    ensures Complete(succ, anchor, r.maxDepth, {anchor} + SetOf(Walk(w, sort, r, [(anchor, 0)], seen)))
  {
    var walk := Walk(w, sort, r, [(anchor, 0)], seen);
    CoverStart(succ, anchor, seen, w.visible);
    EmptySet([]);
    WalkFinds(w, sort, r, succ, anchor, [(anchor, 0)], seen, seen, []);
    assert [] + walk == walk;
    forall e ensures e in {anchor} + SetOf(walk) <==> Reachable(succ, {anchor}, e) {
      if Reachable(succ, {anchor}, e) { WalkCovers(w, sort, r, succ, anchor, [(anchor, 0)], seen, [], e); }
      if e == anchor { assert e in Within(succ, {anchor}, 0); }
    }
  }

  /** With unlimited depth and breadth, depth first as well as breadth first, the walk shows exactly
      the events reachable past those seen. */
  lemma DownCovers(w: World, sort: Sorter, r: Reach, anchor: EventId, seen: set<EventId>)
    requires Permutes(sort) && r.maxDepth < 0 && r.maxBreadth < 0 && anchor in seen
    ensures Complete(Shown(Hiding(w, seen - {anchor})), anchor, r.maxDepth,
                     {anchor} + SetOf(Walk(w, sort, r, [(anchor, 0)], seen)))
  {
    var w' := Hiding(w, seen - {anchor});
    WalkHides(w, sort, r, [(anchor, 0)], seen, seen - {anchor});
    WalkCompletes(w', sort, r, Shown(w'), anchor, seen);
  }

  // ---------- depth first under a depth limit ----------

  /** Siblings as they are listed; depth first to depth 3, with unlimited breadth. */
  ghost predicate Listed(sort: Sorter, r: Reach)
  {
    r == Reach(3, -1, true) && forall s {:trigger sort(s)} :: sort(s) == s
  }

  /** What is shown of the unseen children of an event. */
  lemma AllShown(w: World, sort: Sorter, r: Reach, e: EventId, seen: set<EventId>, unseen: seq<EventId>)
    requires Listed(sort, r) && Unseen(w.local, ChildrenOf(w, e), seen) == unseen
    requires Fresh(w.visible, unseen, seen) == unseen
    ensures Shows(w, sort, e, r.maxBreadth, seen) == unseen
    ensures SeenWith(w, sort, e, r.maxBreadth, seen) == seen + SetOf(unseen)
  {
    assert Ranked(w, sort, e, r.maxBreadth, seen) == unseen;
  }

  lemma FreshOne(visible: set<EventId>, c: EventId, seen: set<EventId>)
    requires c in visible && c !in seen
    ensures Fresh(visible, [c], seen) == [c]
  {
    assert [c][..0] == [] && SetOf([]) == {};
    assert Fresh(visible, [], seen) == [];
  }

  lemma TakeLast(r: Reach, rest: Frontier, e: EventId, d: nat)
    requires r.depthFirst
    ensures Popped(r, rest + [(e, d)]) == (e, d) && Rest(r, rest + [(e, d)]) == rest
  {
  }

  /** The walk from `f` shows `out`; looked into only where `Compared`. */
  ghost predicate Yields(w: World, sort: Sorter, r: Reach, f: Frontier, seen: set<EventId>, out: seq<EventId>)
    requires Permutes(sort)
  {
    forall y {:trigger Compared(y)} :: Compared(y) ==> Walk(w, sort, r, f, seen) == out
  }

  /** An event at the depth limit is dropped. */
  lemma DropLast(w: World, sort: Sorter, r: Reach, rest: Frontier, e: EventId, seen: set<EventId>, out: seq<EventId>)
    requires Permutes(sort) && Listed(sort, r) && Yields(w, sort, r, rest, seen, out)
    ensures Yields(w, sort, r, rest + [(e, 3)], seen, out)
  {
    assert Compared(e);
    TakeLast(r, rest, e, 3);
    WalkFrom(w, sort, r, rest + [(e, 3)], seen, Turn([], rest, seen), out);
    assert [] + out == out;
  }

  /** An only child that was seen adds nothing. */
  lemma NothingNew(w: World, sort: Sorter, r: Reach, rest: Frontier, e: EventId, d: nat, seen: set<EventId>, c: EventId,
                   out: seq<EventId>)
    requires Permutes(sort) && Listed(sort, r) && d < 3 && ChildrenOf(w, e) == [c] && c in seen
    requires Yields(w, sort, r, rest, seen, out)
    ensures Yields(w, sort, r, rest + [(e, d)], seen, out)
  {
    assert Compared(e);
    assert [c][..0] == [] && SetOf([]) == {};
    TakeLast(r, rest, e, d);
    AllShown(w, sort, r, e, seen, []);
    assert rest + AtDepth([], d + 1) == rest && seen + {} == seen;
    WalkFrom(w, sort, r, rest + [(e, d)], seen, Turn([], rest, seen), out);
    assert [] + out == out;
  }

  /** An only child that is new is shown and taken next. */
  lemma OnlyChild(w: World, sort: Sorter, r: Reach, rest: Frontier, e: EventId, d: nat, seen: set<EventId>, c: EventId,
                  out: seq<EventId>)
    requires Permutes(sort) && Listed(sort, r) && d < 3 && ChildrenOf(w, e) == [c]
    requires c in w.local && c in w.visible && c !in seen
    requires Yields(w, sort, r, rest + [(c, d + 1)], seen + {c}, out)
    ensures Yields(w, sort, r, rest + [(e, d)], seen, [c] + out)
  {
    assert Compared(e);
    assert [c][..0] == [] && SetOf([c]) == {c};
    FreshOne(w.visible, c, seen);
    TakeLast(r, rest, e, d);
    AllShown(w, sort, r, e, seen, [c]);
    assert AtDepth([c], d + 1) == [(c, d + 1)];
    WalkFrom(w, sort, r, rest + [(e, d)], seen, Turn([c], rest + [(c, d + 1)], seen + {c}), out);
  }

  lemma FreshTwo(visible: set<EventId>, a: EventId, b: EventId, seen: set<EventId>)
    requires a in visible && b in visible && a != b && a !in seen && b !in seen
    ensures Fresh(visible, [a, b], seen) == [a, b]
  {
    FreshOne(visible, a, seen);
    assert [a, b][..1] == [a] && SetOf([a]) == {a};
  }

  lemma UnseenTwo(local: set<EventId>, a: EventId, b: EventId, seen: set<EventId>)
    requires a in local && b in local && a !in seen && b !in seen
    ensures Unseen(local, [a, b], seen) == [a, b]
  {
    assert [a, b][..1] == [a] && [a][..0] == [];
    assert Unseen(local, [a], seen) == [a];
  }

  lemma TwoShown(w: World, sort: Sorter, r: Reach, e: EventId, a: EventId, b: EventId, seen: set<EventId>)
    requires Listed(sort, r) && ChildrenOf(w, e) == [a, b] && a != b && a !in seen && b !in seen
    requires a in w.local && b in w.local && a in w.visible && b in w.visible
    ensures TurnOf(w, sort, r, [] + [(e, 0)], seen) == Turn([a, b], [] + AtDepth([a, b], 1), seen + SetOf([a, b]))
  {
    UnseenTwo(w.local, a, b, seen);
    FreshTwo(w.visible, a, b, seen);
    AllShown(w, sort, r, e, seen, [a, b]);
    TurnExpands(w, sort, r, [], e, 0, seen, [a, b], seen + SetOf([a, b]));
  }

  lemma TurnExpands(w: World, sort: Sorter, r: Reach, rest: Frontier, e: EventId, d: nat, seen: set<EventId>,
                    shown: seq<EventId>, seen': set<EventId>)
    requires Listed(sort, r) && d < 3
    requires Shows(w, sort, e, r.maxBreadth, seen) == shown && SeenWith(w, sort, e, r.maxBreadth, seen) == seen'
    ensures TurnOf(w, sort, r, rest + [(e, d)], seen) == Turn(shown, rest + AtDepth(shown, d + 1), seen')
  {
    TakeLast(r, rest, e, d);
  }

  lemma TurnYields(w: World, sort: Sorter, r: Reach, f: Frontier, t: Turn, seen: set<EventId>, out: seq<EventId>)
    requires Permutes(sort) && f != [] && TurnOf(w, sort, r, f, seen) == t
    requires Yields(w, sort, r, t.frontier, t.seen, out)
    ensures Yields(w, sort, r, f, seen, t.shown + out)
  {
    assert Compared(EventId(""));
    WalkFrom(w, sort, r, f, seen, t, out);
  }

  lemma WalkFrom(w: World, sort: Sorter, r: Reach, frontier: Frontier, seen: set<EventId>, t: Turn, tail: seq<EventId>)
    requires Permutes(sort) && frontier != [] && TurnOf(w, sort, r, frontier, seen) == t
    requires Walk(w, sort, r, t.frontier, t.seen) == tail
    ensures Walk(w, sort, r, frontier, seen) == t.shown + tail
  {
  }

  /** The relations x -> a, b; a -> d; b -> c; c -> d; d -> e. */
  ghost predicate Diamond(w: World, x: EventId, a: EventId, b: EventId, c: EventId, d: EventId, e: EventId)
  {
    && ChildrenOf(w, x) == [a, b] && ChildrenOf(w, a) == [d] && ChildrenOf(w, b) == [c]
    && ChildrenOf(w, c) == [d] && ChildrenOf(w, d) == [e]
    && {x, a, b, c, d, e} <= w.local && {x, a, b, c, d, e} <= w.visible
    && x !in {a, b, c, d, e} && a !in {b, c, d, e} && b !in {c, d, e} && c !in {d, e} && d != e
  }

  /** Depth first, an event is stuck with the depth at which it was first found: `d` is found at
      depth 3 through `b` and `c`, is dropped there, and is no longer new to `a`. */
  lemma DiamondWalk(w: World, sort: Sorter, r: Reach, x: EventId, a: EventId, b: EventId, c: EventId, d: EventId,
                    e: EventId)
    requires Diamond(w, x, a, b, c, d, e) && Permutes(sort) && Listed(sort, r)
    ensures Yields(w, sort, r, [] + [(x, 0)], {x}, [a, b] + ([c] + ([d] + [])))
  {
    var seen, next := {x} + SetOf([a, b]), [] + AtDepth([a, b], 1);
    assert next == [] + [(a, 1)] + [(b, 1)];
    DiamondArms(w, sort, r, a, b, c, d, seen);
    TwoShown(w, sort, r, x, a, b, {x});
    TurnYields(w, sort, r, [] + [(x, 0)], Turn([a, b], next, seen), {x}, [c] + ([d] + []));
  }

  lemma DiamondArms(w: World, sort: Sorter, r: Reach, a: EventId, b: EventId, c: EventId, d: EventId,
                    seen: set<EventId>)
    requires Permutes(sort) && Listed(sort, r)
    requires ChildrenOf(w, a) == [d] && ChildrenOf(w, b) == [c] && ChildrenOf(w, c) == [d]
    requires c in w.local && c in w.visible && d in w.local && d in w.visible && c !in seen && d !in seen && c != d
    ensures Yields(w, sort, r, [] + [(a, 1)] + [(b, 1)], seen, [c] + ([d] + []))
  {
    DiamondEnd(w, sort, r, a, d, seen + {c} + {d});
    OnlyChild(w, sort, r, [] + [(a, 1)], c, 2, seen + {c}, d, []);
    OnlyChild(w, sort, r, [] + [(a, 1)], b, 1, seen, c, [d] + []);
  }

  lemma DiamondEnd(w: World, sort: Sorter, r: Reach, a: EventId, d: EventId, seen: set<EventId>)
    requires Permutes(sort) && Listed(sort, r) && ChildrenOf(w, a) == [d] && d in seen
    ensures Yields(w, sort, r, [] + [(a, 1)] + [(d, 3)], seen, [])
  {
    assert Yields(w, sort, r, [], seen, []);
    NothingNew(w, sort, r, [], a, 1, seen, d, []);
    DropLast(w, sort, r, [] + [(a, 1)], d, seen, []);
  }

  /** So under a depth limit a depth-first walk can miss an event within reach. */
  lemma DepthFirstMisses(w: World, sort: Sorter, r: Reach, x: EventId, a: EventId, b: EventId, c: EventId, d: EventId,
                         e: EventId)
    requires Diamond(w, x, a, b, c, d, e) && Permutes(sort) && Listed(sort, r)
    ensures Walk(w, sort, r, [(x, 0)], {x}) == [a, b, c, d]
    ensures e !in [a, b, c, d] && e in Within(Shown(w), {x}, 3)
  {
    DiamondShows(w, sort, r, x, a, b, c, d, e);
    DiamondReach(w, x, a, b, c, d, e);
  }

  lemma DiamondShows(w: World, sort: Sorter, r: Reach, x: EventId, a: EventId, b: EventId, c: EventId, d: EventId,
                     e: EventId)
    requires Diamond(w, x, a, b, c, d, e) && Permutes(sort) && Listed(sort, r)
    ensures Walk(w, sort, r, [(x, 0)], {x}) == [a, b, c, d]
  {
    DiamondWalk(w, sort, r, x, a, b, c, d, e);
    FourEvents(a, b, c, d);
    assert [] + [(x, 0)] == [(x, 0)];
    Opened(w, sort, r, [(x, 0)], {x}, [a, b, c, d]);
  }

  lemma DiamondReach(w: World, x: EventId, a: EventId, b: EventId, c: EventId, d: EventId, e: EventId)
    requires Diamond(w, x, a, b, c, d, e)
    ensures e !in [a, b, c, d] && e in Within(Shown(w), {x}, 3)
  {
    ThreeHops(Shown(w), x, a, d, e);
  }

  lemma FourEvents(a: EventId, b: EventId, c: EventId, d: EventId)
    ensures [a, b] + ([c] + ([d] + [])) == [a, b, c, d]
  {
  }

  lemma Opened(w: World, sort: Sorter, r: Reach, f: Frontier, seen: set<EventId>, out: seq<EventId>)
    requires Permutes(sort) && Yields(w, sort, r, f, seen, out)
    ensures Walk(w, sort, r, f, seen) == out
  {
    assert Compared(EventId(""));
  }

  lemma ThreeHops(succ: EventId -> set<EventId>, x: EventId, a: EventId, d: EventId, e: EventId)
    requires a in succ(x) && d in succ(a) && e in succ(d)
    ensures e in Within(succ, {x}, 3)
  {
    assert a in Next(succ, Within(succ, {x}, 0));
    assert d in Next(succ, Within(succ, {x}, 1));
    assert e in Next(succ, Within(succ, {x}, 2));
  }

  /** Such relations exist. */
  lemma DiamondExists()
    ensures exists w, x, a, b, c, d, e :: Diamond(w, x, a, b, c, d, e)
    ensures exists sort, r :: Permutes(sort) && Listed(sort, r)
  {
    var x, a, b, c, d, e := EventId("x"), EventId("a"), EventId("b"), EventId("c"), EventId("d"), EventId("e");
    var all := {x, a, b, c, d, e};
    var w := World(all, all, {}, map[], map[], map[x := [a, b], a := [d], b := [c], c := [d], d := [e]]);
    assert Diamond(w, x, a, b, c, d, e);
    var sort: Sorter := s => s;
    assert Permutes(sort) && Listed(sort, Reach(3, -1, true));
  }

  // ---------- how many events a downward walk shows ----------

  /** The events within `maxDepth` hops of the anchor, itself included; all reachable ones if it
      is negative. */
  ghost function InReach(w: World, anchor: EventId, maxDepth: int): set<EventId>
  {
    if maxDepth >= 0 then Within(Shown(w), {anchor}, maxDepth)
    else set e | e in w.local && Reachable(Shown(w), {anchor}, e)
  }

  lemma CompleteIsReach(w: World, anchor: EventId, maxDepth: int, all: set<EventId>)
    requires Complete(Shown(w), anchor, maxDepth, all) && all <= w.local
    ensures all == InReach(w, anchor, maxDepth)
  {
  }

  /** With unlimited breadth, and breadth first or to unlimited depth, the walk shows one event less
      than is in reach past the events seen. */
  lemma DownCount(w: World, sort: Sorter, r: Reach, anchor: EventId, seen: set<EventId>)
    requires Permutes(sort) && r.maxBreadth < 0 && (r.depthFirst ==> r.maxDepth < 0)
    requires anchor in seen && anchor in w.local
    ensures |Walk(w, sort, r, [(anchor, 0)], seen)| + 1 == |InReach(Hiding(w, seen - {anchor}), anchor, r.maxDepth)|
  {
    var walk := Walk(w, sort, r, [(anchor, 0)], seen);
    DownFinds(w, sort, r, anchor, seen);
    if r.maxDepth < 0 {
      DownCovers(w, sort, r, anchor, seen);
    } else {
      var levels := DownReachesPast(w, sort, r, anchor, seen);
    }
    CompleteIsReach(Hiding(w, seen - {anchor}), anchor, r.maxDepth, {anchor} + SetOf(walk));
    DistinctSize(walk);
    assert anchor !in SetOf(walk);
  }

  // ---------- how far a climb gets ----------

  /** The `k`-th ancestor. */
  ghost function Ancestor(parent: map<EventId, EventId>, e: EventId, k: nat): Option<EventId>
  {
    if k == 0 then Some(e)
    else
      var below := Ancestor(parent, e, k - 1);
      if below.Some? && below.value in parent then Some(parent[below.value]) else None
  }

  /** The world once the first `k` ancestors were looked up in turn. */
  ghost function WorldAfter(w: World, net: Network, canFetch: bool, room: string, e: EventId, k: nat): World
  {
    if k == 0 then w
    else
      var before, a := WorldAfter(w, net, canFetch, room, e, k - 1), Ancestor(w.parent, e, k);
      if a.None? || a.value in before.local || !canFetch then before else net.missing(before, room, a.value)
  }

  /** The `k`-th ancestor exists, can be had and seen, and is new. */
  ghost predicate Rung(w: World, net: Network, canFetch: bool, room: string, e: EventId, seen: set<EventId>, k: nat)
  {
    var a := Ancestor(w.parent, e, k);
    && a.Some? && a.value in WorldAfter(w, net, canFetch, room, e, k).local && a.value in w.visible && a.value !in seen
    && forall j :: 0 < j < k ==> Ancestor(w.parent, e, j) != a
  }

  ghost predicate Climbable(w: World, net: Network, canFetch: bool, room: string, e: EventId, seen: set<EventId>,
                            n: nat)
  {
    forall k :: 0 < k <= n ==> Rung(w, net, canFetch, room, e, seen, k)
  }

  lemma {:induction false} AncestorShift(parent: map<EventId, EventId>, e: EventId, k: nat)
    requires e in parent
    ensures Ancestor(parent, e, k + 1) == Ancestor(parent, parent[e], k)
  {
    if k > 0 { AncestorShift(parent, e, k - 1); } else { assert Ancestor(parent, e, 0) == Some(e); }
  }

  lemma {:induction false} WorldShift(w: World, net: Network, canFetch: bool, room: string, e: EventId, k: nat)
    requires Additive(net) && e in w.parent
    ensures var w' := Lookup(w, net, canFetch, room, w.parent[e]);
            WorldAfter(w, net, canFetch, room, e, k + 1) == WorldAfter(w', net, canFetch, room, w.parent[e], k)
  {
    AncestorShift(w.parent, e, k);
    if k > 0 {
      WorldShift(w, net, canFetch, room, e, k - 1);
    } else {
      assert WorldAfter(w, net, canFetch, room, e, 0) == w;
    }
  }

  lemma RungShift(w: World, net: Network, canFetch: bool, room: string, e: EventId, seen: set<EventId>, k: nat)
    requires Additive(net) && e in w.parent && k > 0
    ensures var p := w.parent[e];
            var w' := Lookup(w, net, canFetch, room, p);
            Rung(w, net, canFetch, room, e, seen, k + 1) <==> Rung(w', net, canFetch, room, p, seen + {p}, k)
  {
    var p := w.parent[e];
    AncestorShift(w.parent, e, k);
    WorldShift(w, net, canFetch, room, e, k);
    AncestorShift(w.parent, e, 0);
    forall j | 0 < j < k
      ensures Ancestor(w.parent, e, j + 1) == Ancestor(w.parent, p, j)
    {
      AncestorShift(w.parent, e, j);
    }
    var a := Ancestor(w.parent, p, k);
    assert Ancestor(w.parent, e, 1) == Some(p);
    if forall j :: 0 < j < k + 1 ==> Ancestor(w.parent, e, j) != a {
      forall j | 0 < j < k ensures Ancestor(w.parent, p, j) != a { assert Ancestor(w.parent, e, j + 1) != a; }
    }
    if a != Some(p) && forall j :: 0 < j < k ==> Ancestor(w.parent, p, j) != a {
      forall j | 0 < j < k + 1 ensures Ancestor(w.parent, e, j) != a {
        if j > 1 { assert Ancestor(w.parent, e, (j - 1) + 1) == Ancestor(w.parent, p, j - 1); }
      }
    }
  }

  lemma ClimbShift(w: World, net: Network, canFetch: bool, room: string, e: EventId, seen: set<EventId>, n: nat)
    requires Additive(net) && e in w.parent
    ensures var p := w.parent[e];
            var w' := Lookup(w, net, canFetch, room, p);
            Climbable(w, net, canFetch, room, e, seen, n + 1) <==>
            Rung(w, net, canFetch, room, e, seen, 1) && Climbable(w', net, canFetch, room, p, seen + {p}, n)
  {
    var p := w.parent[e];
    var w' := Lookup(w, net, canFetch, room, p);
    forall k | 0 < k <= n
      ensures Rung(w, net, canFetch, room, e, seen, k + 1) <==> Rung(w', net, canFetch, room, p, seen + {p}, k)
    {
      RungShift(w, net, canFetch, room, e, seen, k);
    }
    if Climbable(w, net, canFetch, room, e, seen, n + 1) {
      forall k | 0 < k <= n ensures Rung(w', net, canFetch, room, p, seen + {p}, k) {
        assert Rung(w, net, canFetch, room, e, seen, k + 1);
      }
    }
    if Rung(w, net, canFetch, room, e, seen, 1) && Climbable(w', net, canFetch, room, p, seen + {p}, n) {
      forall k | 0 < k <= n + 1 ensures Rung(w, net, canFetch, room, e, seen, k) {
        if k > 1 { assert Rung(w', net, canFetch, room, p, seen + {p}, k - 1); }
      }
    }
  }

  lemma FirstRung(w: World, net: Network, canFetch: bool, room: string, e: EventId, seen: set<EventId>)
    requires Additive(net)
    ensures Rung(w, net, canFetch, room, e, seen, 1) <==>
            && e in w.parent && w.parent[e] !in seen
            && w.parent[e] in Lookup(w, net, canFetch, room, w.parent[e]).local && w.parent[e] in w.visible
  {
    assert Ancestor(w.parent, e, 0) == Some(e) && WorldAfter(w, net, canFetch, room, e, 0) == w;
  }

  /** A climb from depth `depth` adds at least `n` events exactly when the depth limit allows it
      and each of the first `n` ancestors exists, can be had and seen, and is new. */
  ghost predicate Reaching(w: World, net: Network, canFetch: bool, room: string, e: EventId, maxDepth: int, depth: nat,
                           seen: set<EventId>, n: nat)
  {
    n == 0 || ((maxDepth < 0 || depth + n <= maxDepth) && Climbable(w, net, canFetch, room, e, seen, n))
  }

  lemma {:induction false} ClimbLength(w: World, net: Network, canFetch: bool, room: string, e: EventId, maxDepth: int,
                                       depth: nat, seen: set<EventId>, n: nat)
    requires Additive(net)
    ensures |Ancestors(w, net, canFetch, room, e, maxDepth, depth, seen).added| >= n <==>
            Reaching(w, net, canFetch, room, e, maxDepth, depth, seen, n)
    decreases n
  {
    if n > 0 {
      FirstRung(w, net, canFetch, room, e, seen);
      if e in w.parent {
        var p := w.parent[e];
        ClimbShift(w, net, canFetch, room, e, seen, n - 1);
        ClimbLength(Lookup(w, net, canFetch, room, p), net, canFetch, room, p, maxDepth, depth + 1, seen + {p}, n - 1);
      }
    }
  }

  // ---------- when `limited` is right ----------

  ghost predicate Answered(w: World, net: Network, canFetch: bool, sort: Sorter, p: Params)
  {
    Additive(net) && Permutes(sort) && Answer(w, net, canFetch, sort, p).Events?
  }

  /** The world in which the anchor and its requested parent were looked up. */
  ghost function Looked(w: World, net: Network, canFetch: bool, p: Params): World
    requires p.event in AnchorWorld(w, net, canFetch, p).room
  {
    var w' := AnchorWorld(w, net, canFetch, p);
    HeadWorld(w', net, canFetch, w'.room[p.event], p)
  }

  ghost function Everything(w: World, net: Network, canFetch: bool, sort: Sorter, p: Params): seq<EventId>
    requires Answered(w, net, canFetch, sort, p)
  {
    var w' := AnchorWorld(w, net, canFetch, p);
    Unlimited(w', net, canFetch, w'.room[p.event], sort, p).added
  }

  /** `limited` tells whether the limit cut the answer. */
  ghost predicate FlagIsRight(w: World, net: Network, canFetch: bool, sort: Sorter, p: Params)
    requires Answered(w, net, canFetch, sort, p)
  {
    Answer(w, net, canFetch, sort, p).limited <==> |Everything(w, net, canFetch, sort, p)| > p.limit
  }

  /** `limited` is raised exactly for a limit of 0, or of 1 when the parent is shown too. */
  lemma LimitedFlag(w: World, net: Network, canFetch: bool, sort: Sorter, p: Params)
    requires Answered(w, net, canFetch, sort, p)
    ensures Answer(w, net, canFetch, sort, p).limited <==>
            p.limit == 0 || (p.limit == 1 && ShowsParent(Looked(w, net, canFetch, p), p))
  {
  }

  lemma FlagCount(w: World, net: Network, canFetch: bool, sort: Sorter, p: Params, rest: nat)
    requires Answered(w, net, canFetch, sort, p)
    requires var w' := Looked(w, net, canFetch, p);
             var room := AnchorWorld(w, net, canFetch, p).room[p.event];
             rest == |Related(w', net, canFetch, room, sort, p, HeadSeen(w', p)).added|
    ensures var h := |Head(Looked(w, net, canFetch, p), p)|;
            FlagIsRight(w, net, canFetch, sort, p) <==> p.limit < h || h + rest <= p.limit
  {
  }

  /** Downwards with unlimited breadth, and breadth first or to unlimited depth: `limited` is right
      if and only if the anchor and its parent alone exceed the limit, or they and the events in
      reach past the parent do not. */
  lemma FlagDown(w: World, net: Network, canFetch: bool, sort: Sorter, p: Params)
    requires Answered(w, net, canFetch, sort, p) && !p.directionUp
    requires p.reach.maxBreadth < 0 && (p.reach.depthFirst ==> p.reach.maxDepth < 0)
    ensures var w' := Looked(w, net, canFetch, p);
            var reach := InReach(Hiding(w', HeadSeen(w', p) - {p.event}), p.event, p.reach.maxDepth);
            FlagIsRight(w, net, canFetch, sort, p) <==>
            p.limit < |Head(w', p)| || |Head(w', p)| - 1 + |reach| <= p.limit
  {
    var w1 := AnchorWorld(w, net, canFetch, p);
    var w' := Looked(w, net, canFetch, p);
    assert Extends(w1, w');
    DownCount(w', sort, p.reach, p.event, HeadSeen(w', p));
    FlagCount(w, net, canFetch, sort, p, |Walk(w', sort, p.reach, [(p.event, 0)], HeadSeen(w', p))|);
  }

  /** Without a requested parent: if and only if the limit is 0, or all events in reach fit. */
  lemma FlagDownAlone(w: World, net: Network, canFetch: bool, sort: Sorter, p: Params)
    requires Answered(w, net, canFetch, sort, p) && !p.directionUp && !p.includeParent
    requires p.reach.maxBreadth < 0 && (p.reach.depthFirst ==> p.reach.maxDepth < 0)
    ensures FlagIsRight(w, net, canFetch, sort, p) <==>
            p.limit == 0 || |InReach(AnchorWorld(w, net, canFetch, p), p.event, p.reach.maxDepth)| <= p.limit
  {
    var w' := AnchorWorld(w, net, canFetch, p);
    FlagDown(w, net, canFetch, sort, p);
    assert HeadSeen(w', p) - {p.event} == {} && w'.visible - {} == w'.visible;
    assert Hiding(w', {}) == w';
  }

  /** Upwards without children: if and only if the anchor and its parent alone exceed the limit, or
      the parent chain cannot be climbed far enough to pass it. */
  lemma FlagUp(w: World, net: Network, canFetch: bool, sort: Sorter, p: Params)
    requires Answered(w, net, canFetch, sort, p) && p.directionUp && !p.includeChildren
    ensures var w' := Looked(w, net, canFetch, p);
            var room, h := AnchorWorld(w, net, canFetch, p).room[p.event], |Head(w', p)|;
            FlagIsRight(w, net, canFetch, sort, p) <==>
            p.limit < h ||
            !Reaching(w', net, canFetch, room, p.event, p.reach.maxDepth, 0, HeadSeen(w', p), p.limit + 1 - h)
  {
    var w' := Looked(w, net, canFetch, p);
    var room, h := AnchorWorld(w, net, canFetch, p).room[p.event], |Head(w', p)|;
    var up := Ancestors(w', net, canFetch, room, p.event, p.reach.maxDepth, 0, HeadSeen(w', p));
    FlagCount(w, net, canFetch, sort, p, |up.added|);
    if p.limit >= h {
      ClimbLength(w', net, canFetch, room, p.event, p.reach.maxDepth, 0, HeadSeen(w', p), p.limit + 1 - h);
    }
  }

  lemma {:induction false} DeepFrontier(w: World, sort: Sorter, r: Reach, frontier: Frontier, seen: set<EventId>)
    requires Permutes(sort) && forall x :: x in frontier ==> TooDeep(r, x.1)
    ensures Walk(w, sort, r, frontier, seen) == []
    decreases |frontier|
  {
    if frontier != [] {
      PopMembers(r, frontier);
      DeepFrontier(w, sort, r, Rest(r, frontier), seen);
    }
  }

  /** To depth 1 the walk shows the new visible children of the anchor and no more. */
  lemma OneLevel(w: World, sort: Sorter, r: Reach, e: EventId, seen: set<EventId>)
    requires Permutes(sort) && r.maxDepth == 1 && r.maxBreadth < 0
    ensures |Walk(w, sort, r, [(e, 0)], seen)| == |Shown(w)(e) - seen|
  {
    var frontier: Frontier := [(e, 0)];
    var t := TurnOf(w, sort, r, frontier, seen);
    assert Popped(r, frontier) == (e, 0) && Rest(r, frontier) == [];
    TurnTakes(w, sort, r, Shown(w), frontier, seen);
    TakenOnce(w, r, Shown(w), e, seen, t);
    DeepFrontier(w, sort, r, t.frontier, t.seen);
    WalkFrom(w, sort, r, frontier, seen, t, []);
  }

  lemma TakenOnce(w: World, r: Reach, succ: EventId -> set<EventId>, e: EventId, seen: set<EventId>, t: Turn)
    requires Takes(w, r, succ, (e, 0), [], seen, t) && r.maxDepth == 1 && r.maxBreadth < 0
    ensures |t.shown| == |succ(e) - seen| && forall x :: x in t.frontier ==> TooDeep(r, x.1)
  {
    assert Asked(e);
    PushedIsNew(SetOf(ChildrenOf(w, e)), w.local, w.visible, seen, t.seen, SetOf(t.shown), succ(e));
    DistinctSize(t.shown);
  }

  /** Upwards with children of unlimited breadth, for a climb of exactly `n` ancestors: if and only
      if the anchor and its parent alone exceed the limit, or they, the ancestors and the new
      visible children of the anchor do not. */
  lemma FlagUpWithChildren(w: World, net: Network, canFetch: bool, sort: Sorter, p: Params, n: nat)
    requires Answered(w, net, canFetch, sort, p) && p.directionUp && p.includeChildren && p.reach.maxBreadth < 0
    requires var w' := Looked(w, net, canFetch, p);
             var room := AnchorWorld(w, net, canFetch, p).room[p.event];
             && Reaching(w', net, canFetch, room, p.event, p.reach.maxDepth, 0, HeadSeen(w', p), n)
             && !Reaching(w', net, canFetch, room, p.event, p.reach.maxDepth, 0, HeadSeen(w', p), n + 1)
    ensures var w' := Looked(w, net, canFetch, p);
            var room, h := AnchorWorld(w, net, canFetch, p).room[p.event], |Head(w', p)|;
            var up := Ancestors(w', net, canFetch, room, p.event, p.reach.maxDepth, 0, HeadSeen(w', p));
            FlagIsRight(w, net, canFetch, sort, p) <==>
            p.limit < h || h + n + |Shown(up.world)(p.event) - (HeadSeen(w', p) + SetOf(up.added))| <= p.limit
  {
    var w' := Looked(w, net, canFetch, p);
    var room, seen := AnchorWorld(w, net, canFetch, p).room[p.event], HeadSeen(w', p);
    var up := Ancestors(w', net, canFetch, room, p.event, p.reach.maxDepth, 0, seen);
    var below := ChildrenAdded(up.world, sort, p, seen + SetOf(up.added));
    FlagCount(w, net, canFetch, sort, p, |up.added + below|);
    ClimbLength(w', net, canFetch, room, p.event, p.reach.maxDepth, 0, seen, n);
    ClimbLength(w', net, canFetch, room, p.event, p.reach.maxDepth, 0, seen, n + 1);
    OneLevel(up.world, sort, p.reach.(maxDepth := 1), p.event, seen + SetOf(up.added));
  }

  /** A reply cut short without `limited`: one visible child, and a limit of one. */
  lemma TruncatedUnflagged(sort: Sorter, net: Network)
    requires Permutes(sort) && Additive(net)
    ensures exists w, p ::
              Answered(w, net, false, sort, p) && Answer(w, net, false, sort, p) == Events([p.event], false)
              && !FlagIsRight(w, net, false, sort, p)
  {
    var a, c := EventId("anchor"), EventId("child");
    var w := World({a, c}, {a, c}, {}, map[c := a], map[a := "room"], map[a := [c]]);
    var p := Params(a, None, Reach(1, -1, false), 1, false, false, false);
    assert c in Shown(w)(a);
    OneChild(w, sort, net, p, a, c);
  }

  lemma OneChild(w: World, sort: Sorter, net: Network, p: Params, a: EventId, c: EventId)
    requires Permutes(sort) && Additive(net) && p == Params(a, None, Reach(1, -1, false), 1, false, false, false)
    requires a in w.local && a in w.visible && a in w.room && c in Shown(w)(a) && c != a
    ensures Answered(w, net, false, sort, p) && Answer(w, net, false, sort, p) == Events([a], false)
    ensures !FlagIsRight(w, net, false, sort, p)
  {
    FlagDownAlone(w, net, false, sort, p);
    var reach := InReach(w, a, 1);
    assert a in Within(Shown(w), {a}, 0) && c in Next(Shown(w), Within(Shown(w), {a}, 0));
    assert {a, c} <= reach;
    assert |reach| >= |{a, c}| by { assert reach == {a, c} + (reach - {a, c}); }
  }

  /** Asked for the parent, an upward walk adds ancestors if and only if fetching it once did not
      store it and fetching it again does, visible, with a depth limit other than 0. Otherwise the
      parent is already seen, or there is nothing to climb to. */
  lemma ClimbsPastParent(w: World, net: Network, canFetch: bool, room: string, p: Params)
    requires Additive(net) && AsksParent(w, p)
    ensures var parent := w.parent[p.event];
            var w' := HeadWorld(w, net, canFetch, room, p);
            Ancestors(w', net, canFetch, room, p.event, p.reach.maxDepth, 0, HeadSeen(w', p)).added != [] <==>
            && canFetch && p.reach.maxDepth != 0 && parent != p.event && parent in w.visible
            && parent !in w.local && parent !in net.missing(w, room, parent).local
            && parent in net.missing(net.missing(w, room, parent), room, parent).local
  {
    assert Extends(w, HeadWorld(w, net, canFetch, room, p));
  }

  /** So a stored parent ends the climb: the answer holds the anchor, the parent if it is visible,
      and the requested children. */
  lemma RequestedParentEndsClimb(w: World, net: Network, canFetch: bool, room: string, sort: Sorter, p: Params)
    requires Additive(net) && Permutes(sort) && p.directionUp && AsksParent(w, p)
    requires w.parent[p.event] in HeadWorld(w, net, canFetch, room, p).local
    ensures var w' := HeadWorld(w, net, canFetch, room, p);
            Unlimited(w, net, canFetch, room, sort, p).added ==
            Head(w', p) + ChildrenAdded(w', sort, p, HeadSeen(w', p))
  {
    var w' := HeadWorld(w, net, canFetch, room, p);
    assert Extends(w, w');
    var seen := HeadSeen(w', p);
    var up := Ancestors(w', net, canFetch, room, p.event, p.reach.maxDepth, 0, seen);
    assert up == Climb([], w');
    EmptySet([]);
    assert seen + SetOf(up.added) == seen;
    assert up.added + ChildrenAdded(w', sort, p, seen) == ChildrenAdded(w', sort, p, seen);
  }
}
