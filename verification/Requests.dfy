/** What one request amounts to, spelled out on the world (src/api/msc2836.rs:52-71 and 338-591): the
    events one turn of a walk shows, the kinds of reply, and the defaults of a request. */
module Requests {
  import opened Bytes
  import opened Distance
  import opened Relationships
  import opened Replies

  // ---------- one turn of a walk ----------

  /** `chosen` are the elements of `source` at the rising positions `at`. */
  ghost predicate Selects(source: seq<EventId>, at: seq<nat>, chosen: seq<EventId>)
  {
    && |at| == |chosen| && (forall i, j :: 0 <= i < j < |at| ==> at[i] < at[j])
    && (forall i :: 0 <= i < |at| ==> at[i] < |source| && source[at[i]] == chosen[i])
  }

  lemma SelectMore(source: seq<EventId>, at: seq<nat>, chosen: seq<EventId>, last: EventId)
    requires Selects(source, at, chosen)
    ensures Selects(source + [last], at, chosen)
    ensures Selects(source + [last], at + [|source|], chosen + [last])
  {
  }

  /** The unseen children are the listed ones that are stored and not seen, in listed order. */
  lemma {:induction false} UnseenAre(local: set<EventId>, children: seq<EventId>, seen: set<EventId>)
    returns (at: seq<nat>)
    ensures Selects(children, at, Unseen(local, children, seen))
    ensures forall j :: 0 <= j < |children| ==> (j in at <==> children[j] in local && children[j] !in seen)
    decreases |children|
  {
    at := [];
    if children != [] {
      var n := |children| - 1;
      var front, c := children[..n], children[n];
      at := UnseenAre(local, front, seen);
      assert children == front + [c];
      SelectMore(front, at, Unseen(local, front, seen), c);
      if c in local && c !in seen {
        at := at + [n];
      } else {
        assert Unseen(local, front, seen) + [] == Unseen(local, front, seen);
      }
    }
  }

  /** The fresh events are the first occurrences of the visible ones not seen, in order. */
  lemma {:induction false} FreshAre(visible: set<EventId>, pdus: seq<EventId>, seen: set<EventId>)
    returns (at: seq<nat>)
    ensures Selects(pdus, at, Fresh(visible, pdus, seen))
    ensures forall j :: 0 <= j < |pdus| ==>
              (j in at <==> pdus[j] in visible && pdus[j] !in seen && pdus[j] !in pdus[..j])
    decreases |pdus|
  {
    at := [];
    if pdus != [] {
      var n := |pdus| - 1;
      var front, c := pdus[..n], pdus[n];
      at := FreshAre(visible, front, seen);
      assert pdus == front + [c];
      assert forall j :: 0 <= j < n ==> front[..j] == pdus[..j];
      SelectMore(front, at, Fresh(visible, front, seen), c);
      if c in visible && c !in seen && c !in front {
        at := at + [n];
      } else {
        assert Fresh(visible, front, seen) + [] == Fresh(visible, front, seen);
      }
    }
  }

  /** How many of `n` children a breadth limit keeps. */
  function Kept(maxBreadth: int, n: nat): nat
  {
    if 0 <= maxBreadth < n then maxBreadth else n
  }

  /** What a turn at event `x` does below the depth limit: of its listed children, `kids` are those
      stored and not seen; of the first `maxBreadth` of them in sorted order, the turn shows the
      visible new ones, in that order and one hop further, and has seen them all. */
  ghost predicate Expands(w: World, sort: Sorter, r: Reach, x: (EventId, nat), rest: Frontier, seen: set<EventId>,
                          t: Turn, kids: seq<EventId>, kidsAt: seq<nat>, shownAt: seq<nat>)
  {
    var listed := if x.0 in w.children then w.children[x.0] else [];
    var n := Kept(r.maxBreadth, |sort(kids)|);
    var first := sort(kids)[..n];
    && Selects(listed, kidsAt, kids)
    && (forall j :: 0 <= j < |listed| ==> (j in kidsAt <==> listed[j] in w.local && listed[j] !in seen))
    && Selects(first, shownAt, t.shown)
    && (forall j :: 0 <= j < n ==>
          (j in shownAt <==> first[j] in w.visible && first[j] !in seen && first[j] !in first[..j]))
    && |t.frontier| == |rest| + |t.shown| && t.frontier[..|rest|] == rest
    && (forall i :: 0 <= i < |t.shown| ==> t.frontier[|rest| + i] == (t.shown[i], x.1 + 1))
    && (forall e :: e in t.seen <==> e in seen || e in first)
  }

  /** One turn of `walk_down`, in every mode and at every breadth: it takes the newest frontier event
      depth first and the oldest breadth first, and drops it at the depth limit. */
  lemma TurnSpelledOut(w: World, sort: Sorter, r: Reach, frontier: Frontier, seen: set<EventId>, x: (EventId, nat),
                       rest: Frontier, t: Turn)
    returns (kids: seq<EventId>, kidsAt: seq<nat>, shownAt: seq<nat>)
    requires frontier == (if r.depthFirst then rest + [x] else [x] + rest) && t == TurnOf(w, sort, r, frontier, seen)
    ensures 0 <= r.maxDepth <= x.1 ==> t == Turn([], rest, seen)
    ensures !(0 <= r.maxDepth <= x.1) ==> Expands(w, sort, r, x, rest, seen, t, kids, kidsAt, shownAt)
  {
    TurnParts(w, sort, r, frontier, seen, x, rest, t);
    kids, kidsAt, shownAt := [], [], [];
    if !(0 <= r.maxDepth <= x.1) { kids, kidsAt, shownAt := ExpandsAs(w, sort, r, x, rest, seen, t); }
  }

  lemma TurnParts(w: World, sort: Sorter, r: Reach, frontier: Frontier, seen: set<EventId>, x: (EventId, nat),
                  rest: Frontier, t: Turn)
    requires frontier == (if r.depthFirst then rest + [x] else [x] + rest) && t == TurnOf(w, sort, r, frontier, seen)
    ensures 0 <= r.maxDepth <= x.1 ==> t == Turn([], rest, seen)
    ensures !(0 <= r.maxDepth <= x.1) ==>
              && t.shown == Shows(w, sort, x.0, r.maxBreadth, seen) && t.frontier == rest + AtDepth(t.shown, x.1 + 1)
              && t.seen == SeenWith(w, sort, x.0, r.maxBreadth, seen)
  {
    PopParts(r, frontier, x, rest);
  }

  lemma PopParts(r: Reach, frontier: Frontier, x: (EventId, nat), rest: Frontier)
    requires frontier == (if r.depthFirst then rest + [x] else [x] + rest)
    ensures Popped(r, frontier) == x && Rest(r, frontier) == rest
  {
  }

  lemma RankedIs(w: World, sort: Sorter, e: EventId, maxBreadth: int, seen: set<EventId>, kids: seq<EventId>)
    requires kids == Unseen(w.local, ChildrenOf(w, e), seen)
    ensures Ranked(w, sort, e, maxBreadth, seen) == sort(kids)[..Kept(maxBreadth, |sort(kids)|)]
  {
  }

  lemma ExpandsAs(w: World, sort: Sorter, r: Reach, x: (EventId, nat), rest: Frontier, seen: set<EventId>, t: Turn)
    returns (kids: seq<EventId>, kidsAt: seq<nat>, shownAt: seq<nat>)
    requires t.shown == Shows(w, sort, x.0, r.maxBreadth, seen) && t.frontier == rest + AtDepth(t.shown, x.1 + 1)
    requires t.seen == SeenWith(w, sort, x.0, r.maxBreadth, seen)
    ensures Expands(w, sort, r, x, rest, seen, t, kids, kidsAt, shownAt)
  {
    kids := Unseen(w.local, ChildrenOf(w, x.0), seen);
    kidsAt := UnseenAre(w.local, ChildrenOf(w, x.0), seen);
    RankedIs(w, sort, x.0, r.maxBreadth, seen, kids);
    shownAt := FreshAre(w.visible, sort(kids)[..Kept(r.maxBreadth, |sort(kids)|)], seen);
  }

  // ---------- one level of bounded breadth ----------

  lemma {:induction false} AllUnseen(local: set<EventId>, children: seq<EventId>, seen: set<EventId>)
    requires forall c :: c in children ==> c in local && c !in seen
    ensures Unseen(local, children, seen) == children
    decreases |children|
  {
    if children != [] {
      AllUnseen(local, children[..|children| - 1], seen);
      assert children == children[..|children| - 1] + [children[|children| - 1]];
    }
  }

  lemma {:induction false} AllFresh(visible: set<EventId>, pdus: seq<EventId>, seen: set<EventId>)
    requires Distinct(pdus) && forall c :: c in pdus ==> c in visible && c !in seen
    ensures Fresh(visible, pdus, seen) == pdus
    decreases |pdus|
  {
    if pdus != [] {
      var n := |pdus| - 1;
      AllFresh(visible, pdus[..n], seen);
      assert pdus == pdus[..n] + [pdus[n]] && pdus[n] !in SetOf(pdus[..n]);
    }
  }

  lemma SortedDistinct(sort: Sorter, s: seq<EventId>)
    requires Permutes(sort) && Distinct(s)
    ensures Distinct(sort(s)) && |sort(s)| == |s| && forall e :: e in sort(s) <==> e in s
  {
    var t := sort(s);
    assert multiset(t) == multiset(s);
    assert forall e :: e in t <==> e in multiset(t);
    assert forall e :: e in s <==> e in multiset(s);
    assert |t| == |multiset(t)| == |multiset(s)| == |s|;
    DistinctByBag(s, t);
  }

  lemma DistinctByBag(s: seq<EventId>, t: seq<EventId>)
    requires Distinct(s) && multiset(s) == multiset(t)
    ensures Distinct(t)
  {
    forall i, j | 0 <= i < j < |t| ensures t[i] != t[j] {
      if t[i] == t[j] {
        TwiceCounts(t, i, j);
        OnceCounts(s, t[i]);
      }
    }
  }

  lemma TwiceCounts(t: seq<EventId>, i: nat, j: nat)
    requires i < j < |t| && t[i] == t[j]
    ensures multiset(t)[t[i]] >= 2
  {
    assert t == t[..j] + ([t[j]] + t[j + 1..]);
    assert t[i] in t[..j];
  }

  lemma {:induction false} OnceCounts(s: seq<EventId>, e: EventId)
    requires Distinct(s)
    ensures multiset(s)[e] <= 1
    decreases |s|
  {
    if s != [] {
      var n := |s| - 1;
      OnceCounts(s[..n], e);
      assert s == s[..n] + [s[n]] && s[n] !in s[..n];
    }
  }

  lemma AllShownInOrder(w: World, sort: Sorter, e: EventId, maxBreadth: int, seen: set<EventId>, children: seq<EventId>)
    requires Permutes(sort) && ChildrenOf(w, e) == children && Distinct(children)
    requires forall c :: c in children ==> c in w.local && c in w.visible && c !in seen
    ensures |sort(children)| == |children|
    ensures Shows(w, sort, e, maxBreadth, seen) == sort(children)[..Kept(maxBreadth, |children|)]
  {
    SortedDistinct(sort, children);
    AllUnseen(w.local, children, seen);
    RankedIs(w, sort, e, maxBreadth, seen, children);
    AllFresh(w.visible, sort(children)[..Kept(maxBreadth, |children|)], seen);
  }

  /** To depth 1 from an event whose listed children are distinct, stored, visible and new, the walk
      shows the first `maxBreadth` of them in sorted order. */
  lemma OneLevelBounded(w: World, sort: Sorter, r: Reach, e: EventId, seen: set<EventId>, children: seq<EventId>)
    requires Permutes(sort) && r.maxDepth == 1 && e in w.children && w.children[e] == children && Distinct(children)
    requires forall c :: c in children ==> c in w.local && c in w.visible && c !in seen
    ensures |sort(children)| == |children|
    ensures Walk(w, sort, r, [(e, 0)], seen) == sort(children)[..Kept(r.maxBreadth, |children|)]
  {
    AllShownInOrder(w, sort, e, r.maxBreadth, seen, children);
    ShowsOneLevel(w, sort, r, e, seen);
  }

  lemma ShowsOneLevel(w: World, sort: Sorter, r: Reach, e: EventId, seen: set<EventId>)
    requires Permutes(sort) && r.maxDepth == 1
    ensures Walk(w, sort, r, [(e, 0)], seen) == Shows(w, sort, e, r.maxBreadth, seen)
  {
    var frontier: Frontier := [(e, 0)];
    var t := TurnOf(w, sort, r, frontier, seen);
    assert frontier == [] + [(e, 0)] == [(e, 0)] + [];
    TurnParts(w, sort, r, frontier, seen, (e, 0), [], t);
    DeepFrontier(w, sort, r, t.frontier, t.seen);
    WalkFrom(w, sort, r, frontier, seen, t, []);
  }

  // ---------- the answer ----------

  /** Not found unless the anchor is stored and has a room, and forbidden unless it is visible. */
  ghost predicate KindIn(w: World, e: EventId, reply: Reply)
  {
    && (reply.NotFound? <==> e !in w.local || e !in w.room)
    && (reply.Forbidden? <==> e in w.local && e in w.room && e !in w.visible)
  }

  /** Where the anchor is looked up: a client request for an event that is not stored, or has
      children to explore, first fetches it into the room it is in, or else the room requested; no
      other request fetches. */
  lemma ReplyKind(w: World, net: Network, canFetch: bool, sort: Sorter, p: Params)
    requires Additive(net) && Permutes(sort)
    ensures !canFetch ==> KindIn(w, p.event, Answer(w, net, canFetch, sort, p))
    ensures p.event in w.local && p.event !in w.explore ==> KindIn(w, p.event, Answer(w, net, canFetch, sort, p))
    ensures canFetch && p.event in w.local && p.event in w.explore && p.event in w.room ==>
              KindIn(net.full(w, w.room[p.event], p), p.event, Answer(w, net, canFetch, sort, p))
    ensures canFetch && p.event !in w.local && p.room.Some? ==>
              KindIn(net.full(w, p.room.value, p), p.event, Answer(w, net, canFetch, sort, p))
    ensures p.event !in w.local && p.room.None? ==> Answer(w, net, canFetch, sort, p) == NotFound
  {
  }

  /** Which world the events of a reply come from: the fetched one exactly if the request fetches. */
  lemma AnsweredFrom(w: World, net: Network, canFetch: bool, sort: Sorter, p: Params)
    requires Answered(w, net, canFetch, sort, p)
    ensures !canFetch || (p.event in w.local && p.event !in w.explore) ==>
              && p.event in w.room
              && Everything(w, net, canFetch, sort, p) == Unlimited(w, net, canFetch, w.room[p.event], sort, p).added
    ensures canFetch && p.event in w.local && p.event in w.explore && p.event in w.room ==>
              var w' := net.full(w, w.room[p.event], p);
              Everything(w, net, canFetch, sort, p) == Unlimited(w', net, canFetch, w.room[p.event], sort, p).added
    ensures canFetch && p.event !in w.local ==>
              && p.room.Some?
              && var w' := net.full(w, p.room.value, p);
                 && p.event in w'.room
                 && Everything(w, net, canFetch, sort, p) ==
                    Unlimited(w', net, canFetch, w'.room[p.event], sort, p).added
  {
    if canFetch && p.event in w.local && p.event in w.explore && p.event in w.room {
      assert Extends(w, net.full(w, w.room[p.event], p));
    }
  }

  /** The events of a reply are the first `limit` of everything there is. */
  lemma AnswerIsPrefix(w: World, net: Network, canFetch: bool, sort: Sorter, p: Params)
    requires Answered(w, net, canFetch, sort, p)
    ensures var es, all := Answer(w, net, canFetch, sort, p).events, Everything(w, net, canFetch, sort, p);
            es <= all && |es| == if |all| <= p.limit then |all| else p.limit
  {
  }

  /** The world in which the walks of a request start: a requested parent that is not stored was
      fetched if that is allowed. */
  ghost predicate StartsIn(w: World, net: Network, canFetch: bool, room: string, p: Params, w': World)
  {
    if p.includeParent && p.event in w.parent && w.parent[p.event] !in w.local && canFetch
    then w' == net.missing(w, room, w.parent[p.event]) else w' == w
  }

  /** Everything there is: the anchor, the requested parent if it is stored, visible and another
      event, and what the walk in the requested direction adds past the anchor and a stored parent;
      upwards, the requested children of the anchor come last. */
  lemma EverythingSpelledOut(w: World, net: Network, canFetch: bool, room: string, sort: Sorter, p: Params, w': World)
    requires Additive(net) && Permutes(sort) && StartsIn(w, net, canFetch, room, p, w')
    ensures var asked := p.includeParent && p.event in w'.parent && w'.parent[p.event] in w'.local;
            var seen := if asked then {p.event, w'.parent[p.event]} else {p.event};
            var head := if asked && w'.parent[p.event] != p.event && w'.parent[p.event] in w'.visible
                        then [p.event, w'.parent[p.event]] else [p.event];
            var up := Ancestors(w', net, canFetch, room, p.event, p.reach.maxDepth, 0, seen);
            Unlimited(w, net, canFetch, room, sort, p).added ==
            head + if !p.directionUp then Walk(w', sort, p.reach, [(p.event, 0)], seen)
                   else if !p.includeChildren then up.added
                   else up.added + Walk(up.world, sort, p.reach.(maxDepth := 1), [(p.event, 0)], seen + SetOf(up.added))
  {
    assert w' == HeadWorld(w, net, canFetch, room, p);
    assert Extends(w, w');
    var asked := p.includeParent && p.event in w'.parent && w'.parent[p.event] in w'.local;
    assert HeadSeen(w', p) == if asked then {p.event, w'.parent[p.event]} else {p.event};
    assert Head(w', p) == if asked && w'.parent[p.event] != p.event && w'.parent[p.event] in w'.visible
                          then [p.event, w'.parent[p.event]] else [p.event];
    var up := Ancestors(w', net, canFetch, room, p.event, p.reach.maxDepth, 0, HeadSeen(w', p));
    assert up.added + [] == up.added;
  }

  /** What a request leaves out gets its default, and what it gives is taken as given. */
  lemma DefaultsAndGiven(q: Request)
    ensures var p := Defaulted(q);
            && p.event == q.event && p.room == q.room
            && (q.maxDepth.None? ==> p.reach.maxDepth == 3)
            && (q.maxDepth.Some? ==> p.reach.maxDepth == q.maxDepth.value)
            && (q.maxBreadth.None? ==> p.reach.maxBreadth == 10)
            && (q.maxBreadth.Some? ==> p.reach.maxBreadth == q.maxBreadth.value)
            && (q.limit.None? ==> p.limit == 100)
            && (q.limit.Some? && 0 <= q.limit.value <= 100 ==> p.limit == q.limit.value)
            && (q.limit.Some? && q.limit.value > 100 ==> p.limit == 100)
            && (q.limit.Some? && q.limit.value < 0 ==> p.limit == 0)
            && (p.reach.depthFirst <==> q.depthFirst == Some(true))
            && (p.includeParent <==> q.includeParent == Some(true))
            && (p.includeChildren <==> q.includeChildren == Some(true))
            && (p.directionUp <==> q.direction == Some("up"))
  {
  }
}
