/** `recursive_multi_get` (src/database/map.rs:719-777): a level-order closure over a keyed
    graph that may contain cycles, with node and depth limits. */
module MultiGet {
  import opened Bytes
  import opened Distance

  type Value = Key

  /** The stored rows, how one parses, and which keys it refers to. */
  datatype Graph = Graph(db: map<Key, Key>, parse: Key -> Option<Value>, children: Value -> seq<Key>)

  function ValueAt(g: Graph, k: Key): Option<Value>
  {
    if k in g.db then g.parse(g.db[k]) else None
  }

  function Children(g: Graph, k: Key): seq<Key>
  {
    if ValueAt(g, k).Some? then g.children(ValueAt(g, k).value) else []
  }

  function SetOf(ks: seq<Key>): set<Key> { set k | k in ks }

  ghost predicate Distinct(ks: seq<Key>)
  {
    forall i, j :: 0 <= i < j < |ks| ==> ks[i] != ks[j]
  }

  lemma SetOfAppend(a: seq<Key>, b: seq<Key>)
    ensures SetOf(a + b) == SetOf(a) + SetOf(b)
  {
  }

  lemma DistinctAppend(a: seq<Key>, b: seq<Key>)
    requires Distinct(a) && Distinct(b) && SetOf(a) !! SetOf(b)
    ensures Distinct(a + b)
  {
    forall i, j | 0 <= i < j < |a + b| ensures (a + b)[i] != (a + b)[j] {
      if i < |a| <= j { assert a[i] in SetOf(a) && b[j - |a|] in SetOf(b); }
    }
  }

  /** The keys a key refers to, as a graph. */
  ghost function Refs(g: Graph): Key -> set<Key>
  {
    k => if k in g.db && g.parse(g.db[k]).Some? then set c | c in g.children(g.parse(g.db[k]).value) else {}
  }

  /** Names a key whose references are about to be compared. */
  ghost predicate Asked(k: Key) { true }

  /** `succ` is the reference relation of the graph. */
  ghost predicate Links(g: Graph, succ: Key -> set<Key>)
  {
    forall k {:trigger Asked(k)} :: Asked(k) ==> succ(k) == SetOf(Children(g, k))
  }

  // ---------- one level ----------

  function Present(g: Graph, ks: seq<Key>): seq<Key>
  {
    if ks == [] then [] else (if ks[0] in g.db then [ks[0]] else []) + Present(g, ks[1..])
  }

  function Absent(g: Graph, ks: seq<Key>): seq<Key>
  {
    if ks == [] then [] else (if ks[0] in g.db then [] else [ks[0]]) + Absent(g, ks[1..])
  }

  function AllChildren(g: Graph, ks: seq<Key>): seq<Key>
  {
    if ks == [] then [] else Children(g, ks[0]) + AllChildren(g, ks[1..])
  }

  lemma {:induction false} PresentAppend(g: Graph, ks: seq<Key>, k: Key)
    ensures Present(g, ks + [k]) == Present(g, ks) + if k in g.db then [k] else []
    ensures Absent(g, ks + [k]) == Absent(g, ks) + if k in g.db then [] else [k]
  {
    if ks == [] {
      assert ks + [k] == [k];
    } else {
      assert (ks + [k])[1..] == ks[1..] + [k];
      PresentAppend(g, ks[1..], k);
    }
  }

  lemma {:induction false} AllChildrenAppend(g: Graph, ks: seq<Key>, k: Key)
    ensures AllChildren(g, ks + [k]) == AllChildren(g, ks) + Children(g, k)
  {
    if ks == [] {
      assert ks + [k] == [k] && [k][1..] == [];
    } else {
      assert (ks + [k])[1..] == ks[1..] + [k];
      AllChildrenAppend(g, ks[1..], k);
    }
  }

  lemma {:induction false} PresentMembers(g: Graph, ks: seq<Key>)
    requires Distinct(ks)
    ensures SetOf(Present(g, ks)) == SetOf(ks) * g.db.Keys && Distinct(Present(g, ks))
    ensures SetOf(Absent(g, ks)) == SetOf(ks) - g.db.Keys && Distinct(Absent(g, ks))
  {
    if ks != [] {
      var head, tail := [ks[0]], ks[1..];
      PresentMembers(g, tail);
      assert ks == head + tail;
      SetOfAppend(head, tail);
      assert ks[0] !in SetOf(tail);
      assert SetOf(head) == {ks[0]};
      if ks[0] in g.db {
        SetOfAppend(head, Present(g, tail));
        DistinctAppend(head, Present(g, tail));
        assert [] + Absent(g, tail) == Absent(g, tail);
      } else {
        SetOfAppend(head, Absent(g, tail));
        DistinctAppend(head, Absent(g, tail));
        assert [] + Present(g, tail) == Present(g, tail);
      }
    }
  }

  lemma {:induction false} AllChildrenMembers(g: Graph, succ: Key -> set<Key>, ks: seq<Key>)
    requires Links(g, succ)
    ensures SetOf(AllChildren(g, ks)) == Next(succ, SetOf(ks))
  {
    if ks != [] {
      var head, tail := ks[0], ks[1..];
      AllChildrenMembers(g, succ, tail);
      assert Asked(head) && ks == [head] + tail;
      SetOfAppend(Children(g, head), AllChildren(g, tail));
      NextOfCons(succ, head, tail, ks);
    }
  }

  lemma NextOfCons(succ: Key -> set<Key>, head: Key, tail: seq<Key>, ks: seq<Key>)
    requires ks == [head] + tail
    ensures Next(succ, SetOf(ks)) == succ(head) + Next(succ, SetOf(tail))
  {
    assert SetOf(ks) == {head} + SetOf(tail);
    forall c | c in Next(succ, SetOf(ks)) ensures c in succ(head) + Next(succ, SetOf(tail)) {
      var k :| k in SetOf(ks) && c in succ(k);
      if k != head { assert k in SetOf(tail); }
    }
    forall c | c in succ(head) + Next(succ, SetOf(tail)) ensures c in Next(succ, SetOf(ks)) {
      if c in succ(head) {
        assert head in SetOf(ks);
      } else {
        var k :| k in SetOf(tail) && c in succ(k);
        assert k in SetOf(ks);
      }
    }
  }

  /** How many more values the node limit allows. */
  function Room(maxNodes: Option<nat>, used: nat): Option<nat>
  {
    if maxNodes.None? then None else Some(if maxNodes.value <= used then 0 else maxNodes.value - used)
  }

  function Take(ks: seq<Key>, room: Option<nat>): seq<Key>
  {
    if room.None? || |ks| <= room.value then ks else ks[..room.value]
  }

  ghost predicate Fetched(g: Graph, keys: seq<Key>, values: seq<Value>)
  {
    |keys| == |values| && forall i :: 0 <= i < |keys| ==> ValueAt(g, keys[i]) == Some(values[i])
  }

  ghost predicate Opened(n: nat) { true }

  /** What the inner loop has collected from the keys `ks` of a level; looked into only where
      `Opened`. */
  ghost predicate Collected(g: Graph, ks: seq<Key>, room: Option<nat>, keys: seq<Key>, values: seq<Value>,
                            missing: seq<Key>, next: seq<Key>, truncated: bool)
  {
    forall n {:trigger Opened(n)} :: Opened(n) ==>
      && keys == Take(Present(g, ks), room) && Fetched(g, keys, values)
      && missing == Absent(g, ks) && next == AllChildren(g, keys)
      && (truncated <==> room.Some? && |Present(g, ks)| > room.value)
  }

  lemma CollectNone(g: Graph, room: Option<nat>)
    ensures Collected(g, [], room, [], [], [], [], false)
  {
  }

  lemma CollectedAll(g: Graph, ks: seq<Key>, room: Option<nat>, keys: seq<Key>, values: seq<Value>,
                     missing: seq<Key>, next: seq<Key>, truncated: bool)
    requires Collected(g, ks, room, keys, values, missing, next, truncated)
    ensures keys == Take(Present(g, ks), room) && Fetched(g, keys, values)
    ensures missing == Absent(g, ks) && next == AllChildren(g, keys)
    ensures truncated <==> room.Some? && |Present(g, ks)| > room.value
  {
    assert Opened(0);
  }

  lemma CollectAbsent(g: Graph, ks: seq<Key>, room: Option<nat>, keys: seq<Key>, values: seq<Value>,
                      missing: seq<Key>, next: seq<Key>, truncated: bool, k: Key)
    requires Collected(g, ks, room, keys, values, missing, next, truncated) && k !in g.db
    ensures Collected(g, ks + [k], room, keys, values, missing + [k], next, truncated)
  {
    assert Opened(0);
    PresentAppend(g, ks, k);
    assert Present(g, ks) + [] == Present(g, ks);
  }

  lemma CollectBeyond(g: Graph, ks: seq<Key>, room: Option<nat>, keys: seq<Key>, values: seq<Value>,
                      missing: seq<Key>, next: seq<Key>, truncated: bool, k: Key)
    requires Collected(g, ks, room, keys, values, missing, next, truncated) && k in g.db
    requires room.Some? && |values| >= room.value
    ensures Collected(g, ks + [k], room, keys, values, missing, next, true)
  {
    assert Opened(0);
    PresentAppend(g, ks, k);
    assert Absent(g, ks) + [] == Absent(g, ks);
  }

  lemma CollectPresent(g: Graph, ks: seq<Key>, room: Option<nat>, keys: seq<Key>, values: seq<Value>,
                       missing: seq<Key>, next: seq<Key>, truncated: bool, k: Key, value: Value)
    requires Collected(g, ks, room, keys, values, missing, next, truncated) && k in g.db
    requires (room.Some? ==> |values| < room.value) && g.parse(g.db[k]) == Some(value)
    ensures Collected(g, ks + [k], room, keys + [k], values + [value], missing, next + g.children(value), truncated)
  {
    assert Opened(0);
    PresentAppend(g, ks, k);
    AllChildrenAppend(g, keys, k);
    assert Absent(g, ks) + [] == Absent(g, ks);
  }

  /** The inner loop: one level, stopping only at a row that does not parse. */
  method ProcessLevel(g: Graph, current: seq<Key>, room: Option<nat>)
    returns (ok: bool, ghost keys: seq<Key>, values: seq<Value>, missing: seq<Key>, next: seq<Key>, truncated: bool)
    ensures ok ==> keys == Take(Present(g, current), room) && Fetched(g, keys, values)
    ensures ok ==> missing == Absent(g, current) && next == AllChildren(g, keys)
    ensures ok ==> (truncated <==> room.Some? && |Present(g, current)| > room.value)
    ensures !ok ==> exists k :: k in current && k in g.db && g.parse(g.db[k]).None?
  {
    keys, values, missing, next, truncated := [], [], [], [], false;
    CollectNone(g, room);
    var i := 0;
    while i < |current|
      invariant 0 <= i <= |current|
      invariant Collected(g, current[..i], room, keys, values, missing, next, truncated)
    {
      var key := current[i];
      assert current[..i + 1] == current[..i] + [key];
      if key !in g.db {
        CollectAbsent(g, current[..i], room, keys, values, missing, next, truncated, key);
        missing := missing + [key];
      } else if room.None? || |values| < room.value {
        var value := g.parse(g.db[key]);
        if value.None? { return false, keys, values, missing, next, truncated; }
        CollectPresent(g, current[..i], room, keys, values, missing, next, truncated, key, value.value);
        next := next + g.children(value.value);
        keys, values := keys + [key], values + [value.value];
      } else {
        CollectBeyond(g, current[..i], room, keys, values, missing, next, truncated, key);
        truncated := true;
      }
      i := i + 1;
    }
    assert current[..i] == current;
    CollectedAll(g, current, room, keys, values, missing, next, truncated);
    ok := true;
  }

  /** `retain(|key| visited.insert(key))`. */
  method RetainUnvisited(next: seq<Key>, visited: set<Key>) returns (unseen: seq<Key>, visited': set<Key>)
    ensures Distinct(unseen) && SetOf(unseen) == SetOf(next) - visited
    ensures visited' == visited + SetOf(next)
  {
    unseen, visited' := [], visited;
    var i := 0;
    while i < |next|
      invariant 0 <= i <= |next|
      invariant Distinct(unseen) && SetOf(unseen) == SetOf(next[..i]) - visited
      invariant visited' == visited + SetOf(next[..i])
    {
      assert next[..i + 1] == next[..i] + [next[i]];
      SetOfAppend(next[..i], [next[i]]);
      SetOfAppend(unseen, [next[i]]);
      assert SetOf([next[i]]) == {next[i]};
      if next[i] !in visited' {
        DistinctAppend(unseen, [next[i]]);
        unseen := unseen + [next[i]];
      }
      visited' := visited' + {next[i]};
      i := i + 1;
    }
    assert next[..i] == next;
  }

  // ---------- the traversal ----------

  datatype Output = Output(values: seq<Value>, missing: seq<Key>, truncated: bool)

  /** All levels below `depth` are processed, and level `depth` is next; looked into only where
      `Opened`. */
  ghost predicate AtLevel(g: Graph, succ: Key -> set<Key>, roots: set<Key>, depth: nat, visited: set<Key>,
                          current: seq<Key>,
                          keys: seq<Key>, missing: seq<Key>)
  {
    forall n {:trigger Opened(n)} :: Opened(n) ==>
      && visited == Within(succ, roots, depth)
      && Distinct(current) && SetOf(current) == visited - Below(succ, roots, depth)
      && Distinct(keys) && SetOf(keys) == Below(succ, roots, depth) * g.db.Keys
      && Distinct(missing) && SetOf(missing) == Below(succ, roots, depth) - g.db.Keys
  }

  lemma NextLevel(g: Graph, succ: Key -> set<Key>, roots: set<Key>, depth: nat, visited: set<Key>, current: seq<Key>,
                  keys: seq<Key>, missing: seq<Key>, found: seq<Key>)
    requires Links(g, succ)
    requires AtLevel(g, succ, roots, depth, visited, current, keys, missing) && found == Present(g, current)
    ensures SetOf(keys + found) == Below(succ, roots, depth + 1) * g.db.Keys && Distinct(keys + found)
    ensures SetOf(missing + Absent(g, current)) == Below(succ, roots, depth + 1) - g.db.Keys
    ensures Distinct(missing + Absent(g, current))
    ensures visited + SetOf(AllChildren(g, found)) == Within(succ, roots, depth + 1)
  {
    assert Opened(0);
    PresentMembers(g, current);
    BelowIsExpanded(succ, roots, depth);
    SetOfAppend(keys, found);
    DistinctAppend(keys, found);
    SetOfAppend(missing, Absent(g, current));
    DistinctAppend(missing, Absent(g, current));
    AllChildrenMembers(g, succ, found);
    forall x | x !in g.db ensures succ(x) == {} { assert Asked(x); }
    Expand(succ, roots, depth, SetOf(found));
  }

  lemma Advance(g: Graph, succ: Key -> set<Key>, roots: set<Key>, depth: nat, visited: set<Key>,
                current: seq<Key>, keys: seq<Key>, missing: seq<Key>, found: seq<Key>, current': seq<Key>,
                visited': set<Key>)
    requires Links(g, succ)
    requires AtLevel(g, succ, roots, depth, visited, current, keys, missing) && found == Present(g, current)
    requires Distinct(current') && SetOf(current') == SetOf(AllChildren(g, found)) - visited
    requires visited' == visited + SetOf(AllChildren(g, found))
    ensures AtLevel(g, succ, roots, depth + 1, visited', current', keys + found, missing + Absent(g, current))
    ensures current' != [] ==> Universe(g, succ, roots) - visited' < Universe(g, succ, roots) - visited
    ensures current' == [] ==> visited' == visited
  {
    assert Opened(0);
    NextLevel(g, succ, roots, depth, visited, current, keys, missing, found);
    InUniverse(g, succ, roots, depth + 1);
    VisitedGrows(Universe(g, succ, roots), visited, visited', current', SetOf(AllChildren(g, found)));
  }

  lemma VisitedGrows(universe: set<Key>, visited: set<Key>, visited': set<Key>, unseen: seq<Key>, next: set<Key>)
    requires SetOf(unseen) == next - visited && visited' == visited + next && visited' <= universe
    ensures unseen != [] ==> universe - visited' < universe - visited
    ensures unseen == [] ==> visited' == visited
  {
    if unseen != [] {
      var c := unseen[0];
      assert c in SetOf(unseen);
      assert c in universe - visited && c !in universe - visited';
    } else {
      forall c | c in next ensures c in visited { assert c !in SetOf(unseen); }
    }
  }

  /** The values fetched so far, listed level by level below `depth`, within the limits. */
  ghost predicate Progress(g: Graph, succ: Key -> set<Key>, roots: set<Key>, maxNodes: Option<nat>,
                           maxDepth: Option<nat>, depth: nat,
                           keys: seq<Key>, values: seq<Value>, levels: seq<nat>)
  {
    forall n {:trigger Opened(n)} :: Opened(n) ==>
      && Fetched(g, keys, values) && Ordered(succ, roots, keys, levels)
      && (forall i :: 0 <= i < |levels| ==> levels[i] < depth)
      && (maxNodes.Some? ==> |keys| <= maxNodes.value)
      && (maxDepth.Some? ==> depth <= maxDepth.value)
  }

  /** The result, in terms of distance: complete when not truncated; otherwise cut by the depth
      limit exactly at its level, or by the node limit inside one level. */
  ghost predicate Explored(g: Graph, succ: Key -> set<Key>, roots: set<Key>, maxNodes: Option<nat>,
                           maxDepth: Option<nat>,
                           keys: seq<Key>, out: Output, depth: nat)
  {
    && Distinct(keys) && Fetched(g, keys, out.values)
    && Distinct(out.missing)
    && Below(succ, roots, depth) * g.db.Keys <= SetOf(keys) <= Below(succ, roots, depth + 1) * g.db.Keys
    && Below(succ, roots, depth) - g.db.Keys <= SetOf(out.missing) <= Below(succ, roots, depth + 1) - g.db.Keys
    && (maxNodes.Some? ==> |keys| <= maxNodes.value)
    && (maxDepth.Some? ==> depth <= maxDepth.value)
    && (!out.truncated ==>
          && Within(succ, roots, depth) <= Below(succ, roots, depth)
          && SetOf(keys) == Below(succ, roots, depth) * g.db.Keys
          && SetOf(out.missing) == Below(succ, roots, depth) - g.db.Keys)
    && (out.truncated ==>
          || (maxNodes.Some? && |keys| == maxNodes.value)
          || (&& maxDepth == Some(depth) && Within(succ, roots, depth) - Below(succ, roots, depth) != {}
              && SetOf(keys) == Below(succ, roots, depth) * g.db.Keys
              && SetOf(out.missing) == Below(succ, roots, depth) - g.db.Keys))
  }

  /** Some reachable key was neither fetched nor found missing. */
  ghost predicate LeftOver(succ: Key -> set<Key>, roots: set<Key>, keys: seq<Key>, missing: seq<Key>)
  {
    exists k :: Reachable(succ, roots, k) && k !in keys && k !in missing
  }

  /** Stopping before a level leaves that level. */
  lemma LeftHere(g: Graph, succ: Key -> set<Key>, roots: set<Key>, depth: nat, visited: set<Key>, current: seq<Key>,
                 keys: seq<Key>, missing: seq<Key>)
    requires AtLevel(g, succ, roots, depth, visited, current, keys, missing) && current != []
    ensures LeftOver(succ, roots, keys, missing)
  {
    assert Opened(0);
    var k := current[0];
    assert k in SetOf(current) && k in Within(succ, roots, depth) && k !in Below(succ, roots, depth);
    assert k in keys ==> k in SetOf(keys);
    assert k in missing ==> k in SetOf(missing);
  }

  /** Stopping inside a level leaves the first present key beyond the limit. */
  lemma LeftInside(g: Graph, succ: Key -> set<Key>, roots: set<Key>, depth: nat, visited: set<Key>, current: seq<Key>,
                   keys: seq<Key>, missing: seq<Key>, n: nat)
    requires AtLevel(g, succ, roots, depth, visited, current, keys, missing) && n < |Present(g, current)|
    ensures LeftOver(succ, roots, keys + Present(g, current)[..n], missing + Absent(g, current))
  {
    assert Opened(0);
    var present, absent := Present(g, current), Absent(g, current);
    var k := present[n];
    PresentMembers(g, current);
    assert k in SetOf(present) && k in Within(succ, roots, depth) && k !in Below(succ, roots, depth);
    assert k in keys ==> k in SetOf(keys);
    assert k in missing ==> k in SetOf(missing);
    assert k in absent ==> k in SetOf(absent);
    assert Reachable(succ, roots, k);
    assert k !in keys + present[..n] && k !in missing + absent;
  }

  /** What the search may return: a result described by distance, or a failure at an unparseable row. */
  ghost predicate Ends(g: Graph, succ: Key -> set<Key>, roots: set<Key>, maxNodes: Option<nat>, maxDepth: Option<nat>,
                       out: Option<Output>, keys: seq<Key>, levels: seq<nat>, depth: nat)
  {
    && (out.Some? ==> Explored(g, succ, roots, maxNodes, maxDepth, keys, out.value, depth))
    && (out.Some? ==> Ordered(succ, roots, keys, levels))
    && (out.Some? && out.value.truncated ==> LeftOver(succ, roots, keys, out.value.missing))
    && (out.None? ==> exists k :: Reachable(succ, roots, k) && k in g.db && g.parse(g.db[k]).None?)
  }

  /** The state of the search before a level. */
  datatype Search = Search(current: seq<Key>, visited: set<Key>, values: seq<Value>, missing: seq<Key>)

  ghost predicate Searching(g: Graph, succ: Key -> set<Key>, roots: set<Key>, maxNodes: Option<nat>,
                            maxDepth: Option<nat>, s: Search, depth: nat, keys: seq<Key>, levels: seq<nat>)
  {
    && AtLevel(g, succ, roots, depth, s.visited, s.current, keys, s.missing)
    && Progress(g, succ, roots, maxNodes, maxDepth, depth, keys, s.values, levels)
  }

  /** One level: either the search ends in it, or the next level is set up. */
  method SearchLevel(g: Graph, maxNodes: Option<nat>, maxDepth: Option<nat>, s: Search, level: nat,
                     ghost succ: Key -> set<Key>, ghost roots: set<Key>, ghost keys: seq<Key>, ghost levels: seq<nat>)
    returns (done: bool, out: Option<Output>, s': Search, ghost keys': seq<Key>, ghost levels': seq<nat>)
    requires Links(g, succ) && s.current != []
    requires Searching(g, succ, roots, maxNodes, maxDepth, s, level, keys, levels)
    ensures done ==> Ends(g, succ, roots, maxNodes, maxDepth, out, keys', levels', level)
    ensures !done ==> Searching(g, succ, roots, maxNodes, maxDepth, s', level + 1, keys', levels')
    ensures !done && s'.current != [] ==> Universe(g, succ, roots) - s'.visited < Universe(g, succ, roots) - s.visited
    ensures !done && s'.current == [] ==> s'.visited == s.visited
  {
    s', keys', levels', out := s, keys, levels, None;
    if (maxDepth.Some? && level >= maxDepth.value) || (maxNodes.Some? && |s.values| >= maxNodes.value) {
      CutHere(g, succ, roots, maxNodes, maxDepth, keys, s.values, levels, s.missing, level, s.visited, s.current);
      LeftHere(g, succ, roots, level, s.visited, s.current, keys, s.missing);
      return true, Some(Output(s.values, s.missing, true)), s', keys', levels';
    }
    var ok, found, more, absent, next, truncated := ProcessLevel(g, s.current, Room(maxNodes, |s.values|));
    if !ok {
      Unparseable(g, succ, roots, level, s.visited, s.current, keys, s.missing);
      return true, None, s', keys', levels';
    }
    keys', levels' := keys + found, levels + Repeat(|found|, level);
    if truncated {
      CutInside(g, succ, roots, maxNodes, maxDepth, keys, s.values, levels, s.missing, level, s.visited, s.current,
                found, more);
      LeftInside(g, succ, roots, level, s.visited, s.current, keys, s.missing, |found|);
      return true, Some(Output(s.values + more, s.missing + absent, true)), s', keys', levels';
    }
    var current', visited' := RetainUnvisited(next, s.visited);
    Advance(g, succ, roots, level, s.visited, s.current, keys, s.missing, found, current', visited');
    AddLevel(g, succ, roots, maxNodes, maxDepth, keys, s.values, levels, s.missing, level, s.visited, s.current, found,
             more);
    done, s' := false, Search(current', visited', s.values + more, s.missing + absent);
  }

  method Explore(g: Graph, rootKeys: seq<Key>, maxNodes: Option<nat>, maxDepth: Option<nat>,
                 ghost succ: Key -> set<Key>, ghost roots: set<Key>)
    returns (out: Option<Output>, ghost keys: seq<Key>, ghost levels: seq<nat>, ghost depth: nat)
    requires Links(g, succ) && roots == SetOf(rootKeys)
    ensures Ends(g, succ, roots, maxNodes, maxDepth, out, keys, levels, depth)
  {
    var current, visited := RetainUnvisited(rootKeys, {});
    var s := Search(current, visited, [], []);
    var level := 0;
    keys, levels, depth := [], [], 0;
    Start(g, succ, roots, maxNodes, maxDepth, current, visited);
    while s.current != []
      invariant depth == level && Searching(g, succ, roots, maxNodes, maxDepth, s, level, keys, levels)
      decreases Universe(g, succ, roots) - s.visited, |s.current|
    {
      var done;
      done, out, s, keys, levels := SearchLevel(g, maxNodes, maxDepth, s, level, succ, roots, keys, levels);
      if done { return; }
      level, depth := level + 1, depth + 1;
    }
    Complete(g, succ, roots, maxNodes, maxDepth, keys, s.values, levels, s.missing, depth, s.visited);
    out := Some(Output(s.values, s.missing, false));
  }

  /** Values, missing keys and truncation, described by distance from the roots. */
  method RecursiveMultiGet(g: Graph, rootKeys: seq<Key>, maxNodes: Option<nat>, maxDepth: Option<nat>)
    returns (out: Option<Output>, ghost keys: seq<Key>, ghost levels: seq<nat>, ghost depth: nat)
    ensures out.Some? ==> Explored(g, Refs(g), SetOf(rootKeys), maxNodes, maxDepth, keys, out.value, depth)
    ensures out.Some? ==> Ordered(Refs(g), SetOf(rootKeys), keys, levels)
    ensures out.Some? ==> (out.value.truncated <==> LeftOver(Refs(g), SetOf(rootKeys), keys, out.value.missing))
    ensures out.None? ==> exists k :: Reachable(Refs(g), SetOf(rootKeys), k) && k in g.db && g.parse(g.db[k]).None?
  {
    out, keys, levels, depth := Explore(g, rootKeys, maxNodes, maxDepth, Refs(g), SetOf(rootKeys));
    if out.Some? && !out.value.truncated {
      NothingLeft(g, Refs(g), SetOf(rootKeys), maxNodes, maxDepth, keys, out.value, depth);
    }
  }

  lemma Start(g: Graph, succ: Key -> set<Key>, roots: set<Key>, maxNodes: Option<nat>, maxDepth: Option<nat>,
              current: seq<Key>, visited: set<Key>)
    requires Distinct(current) && SetOf(current) == roots && visited == roots
    ensures AtLevel(g, succ, roots, 0, visited, current, [], [])
    ensures Progress(g, succ, roots, maxNodes, maxDepth, 0, [], [], [])
  {
    assert SetOf([]) == {};
  }

  lemma Unparseable(g: Graph, succ: Key -> set<Key>, roots: set<Key>, depth: nat, visited: set<Key>, current: seq<Key>,
                    keys: seq<Key>, missing: seq<Key>)
    requires AtLevel(g, succ, roots, depth, visited, current, keys, missing)
    requires exists k :: k in current && k in g.db && g.parse(g.db[k]).None?
    ensures exists k :: Reachable(succ, roots, k) && k in g.db && g.parse(g.db[k]).None?
  {
    assert Opened(0);
    var k :| k in current && k in g.db && g.parse(g.db[k]).None?;
    assert k in SetOf(current) && Reachable(succ, roots, k);
  }

  lemma Complete(g: Graph, succ: Key -> set<Key>, roots: set<Key>, maxNodes: Option<nat>, maxDepth: Option<nat>,
                 keys: seq<Key>,
                 values: seq<Value>, levels: seq<nat>, missing: seq<Key>, depth: nat, visited: set<Key>)
    requires AtLevel(g, succ, roots, depth, visited, [], keys, missing)
    requires Progress(g, succ, roots, maxNodes, maxDepth, depth, keys, values, levels)
    ensures Explored(g, succ, roots, maxNodes, maxDepth, keys, Output(values, missing, false), depth)
    ensures Ordered(succ, roots, keys, levels)
  {
    assert Opened(0);
    BelowIsExpanded(succ, roots, depth);
    forall k | k in Within(succ, roots, depth) ensures k in Below(succ, roots, depth) {
      assert k !in SetOf([]);
    }
  }

  lemma AddLevel(g: Graph, succ: Key -> set<Key>, roots: set<Key>, maxNodes: Option<nat>, maxDepth: Option<nat>,
                 keys: seq<Key>,
                 values: seq<Value>, levels: seq<nat>, missing: seq<Key>, depth: nat, visited: set<Key>,
                 current: seq<Key>, found: seq<Key>, more: seq<Value>)
    requires AtLevel(g, succ, roots, depth, visited, current, keys, missing)
    requires Progress(g, succ, roots, maxNodes, maxDepth, depth, keys, values, levels)
    requires found == Present(g, current) && Fetched(g, found, more)
    requires maxDepth.Some? ==> depth < maxDepth.value
    requires maxNodes.Some? ==> |values| + |found| <= maxNodes.value
    ensures Progress(g, succ, roots, maxNodes, maxDepth, depth + 1, keys + found, values + more,
                     levels + Repeat(|found|, depth))
  {
    assert Opened(0);
    OrderedLevel(g, succ, roots, keys, levels, current, |found|, depth);
    assert found[..|found|] == found;
    FetchedAppend(g, keys, values, found, more);
  }

  lemma FetchedAppend(g: Graph, keys: seq<Key>, values: seq<Value>, found: seq<Key>, more: seq<Value>)
    requires Fetched(g, keys, values) && Fetched(g, found, more)
    ensures Fetched(g, keys + found, values + more)
  {
  }

  lemma OrderedLevel(g: Graph, succ: Key -> set<Key>, roots: set<Key>, keys: seq<Key>, levels: seq<nat>,
                     current: seq<Key>, n: nat, depth: nat)
    requires Ordered(succ, roots, keys, levels) && forall i :: 0 <= i < |levels| ==> levels[i] < depth
    requires Distinct(current) && n <= |Present(g, current)|
    requires SetOf(current) == Within(succ, roots, depth) - Below(succ, roots, depth)
    ensures Ordered(succ, roots, keys + Present(g, current)[..n], levels + Repeat(n, depth))
  {
    PresentMembers(g, current);
    var found := Present(g, current)[..n];
    forall k | k in found ensures k in Within(succ, roots, depth) - Below(succ, roots, depth) {
      assert k in SetOf(Present(g, current));
    }
    OrderedAppend(succ, roots, keys, levels, found, depth);
  }

  lemma CutHere(g: Graph, succ: Key -> set<Key>, roots: set<Key>, maxNodes: Option<nat>, maxDepth: Option<nat>,
                keys: seq<Key>,
                values: seq<Value>, levels: seq<nat>, missing: seq<Key>, depth: nat, visited: set<Key>,
                current: seq<Key>)
    requires AtLevel(g, succ, roots, depth, visited, current, keys, missing) && current != []
    requires Progress(g, succ, roots, maxNodes, maxDepth, depth, keys, values, levels)
    requires (maxDepth.Some? && depth >= maxDepth.value) || (maxNodes.Some? && |values| >= maxNodes.value)
    ensures Explored(g, succ, roots, maxNodes, maxDepth, keys, Output(values, missing, true), depth)
    ensures Ordered(succ, roots, keys, levels)
  {
    assert Opened(0);
    BelowIsExpanded(succ, roots, depth);
    assert current[0] in SetOf(current);
  }

  lemma CutInside(g: Graph, succ: Key -> set<Key>, roots: set<Key>, maxNodes: Option<nat>, maxDepth: Option<nat>,
                  keys: seq<Key>,
                  values: seq<Value>, levels: seq<nat>, missing: seq<Key>, depth: nat, visited: set<Key>,
                  current: seq<Key>, found: seq<Key>, more: seq<Value>)
    requires AtLevel(g, succ, roots, depth, visited, current, keys, missing)
    requires Progress(g, succ, roots, maxNodes, maxDepth, depth, keys, values, levels)
    requires maxNodes.Some? && |values| < maxNodes.value
    requires found == Take(Present(g, current), Room(maxNodes, |values|)) && Fetched(g, found, more)
    requires |Present(g, current)| > maxNodes.value - |values|
    ensures Explored(g, succ, roots, maxNodes, maxDepth, keys + found,
                     Output(values + more, missing + Absent(g, current), true), depth)
    ensures Ordered(succ, roots, keys + found, levels + Repeat(|found|, depth))
  {
    assert Opened(0);
    PresentMembers(g, current);
    BelowIsExpanded(succ, roots, depth);
    var present := Present(g, current);
    TakePrefix(present, maxNodes.value - |values|);
    OrderedLevel(g, succ, roots, keys, levels, current, |found|, depth);
    FetchedAppend(g, keys, values, found, more);
    SetOfAppend(keys, found);
    DistinctAppend(keys, found);
    SetOfAppend(missing, Absent(g, current));
    DistinctAppend(missing, Absent(g, current));
  }

  lemma TakePrefix(ks: seq<Key>, n: nat)
    requires n <= |ks| && Distinct(ks)
    ensures Distinct(ks[..n]) && SetOf(ks[..n]) <= SetOf(ks)
  {
  }

  ghost function Universe(g: Graph, succ: Key -> set<Key>, roots: set<Key>): set<Key>
  {
    roots + Next(succ, g.db.Keys)
  }

  lemma {:induction false} InUniverse(g: Graph, succ: Key -> set<Key>, roots: set<Key>, n: nat)
    requires Links(g, succ)
    ensures Within(succ, roots, n) <= Universe(g, succ, roots)
  {
    if n > 0 {
      InUniverse(g, succ, roots, n - 1);
      forall c | c in Next(succ, Within(succ, roots, n - 1)) ensures c in Universe(g, succ, roots) {
        var k :| k in Within(succ, roots, n - 1) && c in succ(k);
        assert Asked(k) && k in g.db.Keys;
      }
    }
  }

  // ---------- what the result means ----------

  /** Not truncated: the values are those of exactly the present reachable keys, once each, and
      `missing` is exactly the absent reachable keys. */
  lemma UntruncatedIsComplete(g: Graph, succ: Key -> set<Key>, roots: set<Key>, maxNodes: Option<nat>,
                              maxDepth: Option<nat>,
                              keys: seq<Key>, out: Output, depth: nat, k: Key)
    requires Explored(g, succ, roots, maxNodes, maxDepth, keys, out, depth) && !out.truncated
    ensures k in keys <==> Reachable(succ, roots, k) && k in g.db
    ensures k in out.missing <==> Reachable(succ, roots, k) && k !in g.db
  {
    assert k in keys <==> k in SetOf(keys);
    assert k in out.missing <==> k in SetOf(out.missing);
    ClosedIsAll(succ, roots, depth, k);
  }

  lemma NothingLeft(g: Graph, succ: Key -> set<Key>, roots: set<Key>, maxNodes: Option<nat>, maxDepth: Option<nat>,
                    keys: seq<Key>, out: Output, depth: nat)
    requires Explored(g, succ, roots, maxNodes, maxDepth, keys, out, depth) && !out.truncated
    ensures !LeftOver(succ, roots, keys, out.missing)
  {
    forall k | Reachable(succ, roots, k) ensures k in keys || k in out.missing {
      UntruncatedIsComplete(g, succ, roots, maxNodes, maxDepth, keys, out, depth, k);
    }
  }

  /** With only a depth limit `d`, the values are those of exactly the present keys less than
      `d` references away, and the result is truncated exactly when some key is `d` away. */
  lemma DepthLimitIsExact(g: Graph, succ: Key -> set<Key>, roots: set<Key>, d: nat, keys: seq<Key>, out: Output,
                          depth: nat)
    requires Explored(g, succ, roots, None, Some(d), keys, out, depth)
    ensures SetOf(keys) == Below(succ, roots, d) * g.db.Keys
    ensures SetOf(out.missing) == Below(succ, roots, d) - g.db.Keys
    ensures out.truncated <==> Within(succ, roots, d) - Below(succ, roots, d) != {}
  {
    if !out.truncated { ClosedBelow(succ, roots, depth, d); }
  }

  /** With a node limit that cuts, exactly that many values are returned, and nothing is skipped:
      a present key closer than some fetched key is fetched. */
  lemma NodeLimitKeepsNearest(g: Graph, succ: Key -> set<Key>, roots: set<Key>, m: nat, keys: seq<Key>, out: Output,
                              depth: nat)
    requires Explored(g, succ, roots, Some(m), None, keys, out, depth) && out.truncated
    ensures |out.values| == m
    ensures forall k, near, n: nat ::
              k in keys && near in g.db && near in Below(succ, roots, n) && k !in Below(succ, roots, n) ==> near in keys
  {
    forall k, near, n: nat | k in keys && near in g.db && near in Below(succ, roots, n) && k !in Below(succ, roots, n)
      ensures near in keys
    {
      NearerIsFetched(g, succ, roots, m, keys, out, depth, k, near, n);
    }
  }

  lemma NearerIsFetched(g: Graph, succ: Key -> set<Key>, roots: set<Key>, m: nat, keys: seq<Key>, out: Output,
                        depth: nat, k: Key, near: Key, n: nat)
    requires Explored(g, succ, roots, Some(m), None, keys, out, depth)
    requires k in keys && near in g.db && near in Below(succ, roots, n) && k !in Below(succ, roots, n)
    ensures near in keys
  {
    assert k in SetOf(keys) && k in Below(succ, roots, depth + 1);
    if n > depth { WithinGrows(succ, roots, depth, n - 1); }
    assert n <= depth;
    BelowGrows(succ, roots, n, depth);
    assert near in SetOf(keys);
  }
}
