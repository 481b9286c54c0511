/** The two readers of a legacy `shortstatehash_statediff` record
    (src/service/migrations.rs:2535-2586 and 2689-2722). */
module StateDiff {
  import opened Bytes

  const STRIDE := 8
  const MARKER: Key := [0, 0, 0, 0, 0, 0, 0, 0]

  /** A 16-byte `(shortstatekey, shorteventid)` entry. */
  type Entry = e: Key | |e| == 16 witness [0, 0, 0, 0, 0, 0, 0, 0, 0, 0, 0, 0, 0, 0, 0, 0]

  datatype Diff = Diff(parent: Option<nat>, added: set<Entry>, removed: set<Entry>)

  datatype Entries = Entries(added: seq<Entry>, removed: seq<Entry>)

  function EventOf(e: Entry): nat { BeNat(e[8..]) }

  /** The second half of an entry is its event. */
  lemma EntryReads(key: nat, event: nat)
    requires key < Pow256(8) && event < Pow256(8)
    ensures EventOf(BeBytes(key, 8) + BeBytes(event, 8)) == event
  {
    var e := BeBytes(key, 8) + BeBytes(event, 8);
    assert e[8..] == BeBytes(event, 8);
    BeRoundTrip(event, 8);
  }

  /** The entries after the parent: added ones up to the first entry whose state key is
      zero, which is an 8-byte marker, then removed ones. Incomplete tails are ignored. */
  function Scan(s: Key, adding: bool): Entries
    decreases |s|
  {
    if |s| < 16 then Entries([], [])
    else if adding && s[..8] == MARKER then Scan(s[8..], false)
    else
      var rest := Scan(s[16..], adding);
      if adding then rest.(added := [s[..16]] + rest.added)
      else rest.(removed := [s[..16]] + rest.removed)
  }

  function SetOf(es: seq<Entry>): set<Entry> { set e | e in es }

  /** The record as a diff; `None` when it is shorter than the parent pointer. */
  function Parse(slice: Key): Option<Diff>
  {
    if |slice| < STRIDE then None
    else
      var p, es := BeNat(slice[..8]), Scan(slice[8..], true);
      Some(Diff(if p == 0 then None else Some(p), SetOf(es.added), SetOf(es.removed)))
  }

  lemma Window(slice: Key, i: nat)
    requires i + 16 <= |slice|
    ensures var s, v := slice[i..], slice[i..i + 16];
            && s[..16] == v && s[..8] == v[..8] && s[8..16] == v[8..16]
            && s[8..] == slice[i + 8..] && s[16..] == slice[i + 16..]
  {
  }

  ghost function Join(a: seq<Entry>, r: seq<Entry>, es: Entries): Entries
  {
    Entries(a + es.added, r + es.removed)
  }

  lemma ScanStep(slice: Key, i: nat, adding: bool, a: seq<Entry>, r: seq<Entry>)
    requires i + 16 <= |slice|
    ensures var v := slice[i..i + 16];
            Join(a, r, Scan(slice[i..], adding)) ==
            if adding && v[..8] == MARKER then Join(a, r, Scan(slice[i + 8..], false))
            else if adding then Join(a + [v], r, Scan(slice[i + 16..], true))
            else Join(a, r + [v], Scan(slice[i + 16..], false))
  {
    Window(slice, i);
    var es, v := Scan(slice[i + 16..], adding), slice[i..i + 16];
    assert a + ([v] + es.added) == a + [v] + es.added && r + ([v] + es.removed) == r + [v] + es.removed;
  }

  ghost predicate Opened(n: nat) { true }

  /** The record holds `a` and `r` up to `i`; looked into only where `Opened`. */
  ghost predicate ReadTo(slice: Key, i: nat, adding: bool, a: seq<Entry>, r: seq<Entry>)
    requires 8 <= i <= |slice|
  {
    forall n {:trigger Opened(n)} :: Opened(n) ==> Scan(slice[8..], true) == Join(a, r, Scan(slice[i..], adding))
  }

  lemma ReadStart(slice: Key)
    requires 8 <= |slice|
    ensures ReadTo(slice, 8, true, [], [])
  {
  }

  /** Reading one window: a marker ends the added entries, and any other is an entry. */
  lemma ReadOn(slice: Key, i: nat, adding: bool, a: seq<Entry>, r: seq<Entry>)
    requires 8 <= i && i + 16 <= |slice| && ReadTo(slice, i, adding, a, r)
    ensures var v := slice[i..i + 16];
            if adding && v[..8] == MARKER then ReadTo(slice, i + 8, false, a, r)
            else if adding then ReadTo(slice, i + 16, true, a + [v], r)
            else ReadTo(slice, i + 16, false, a, r + [v])
  {
    assert Opened(0);
    ScanStep(slice, i, adding, a, r);
  }

  lemma ReadAll(slice: Key, i: nat, adding: bool, a: seq<Entry>, r: seq<Entry>)
    requires 8 <= i <= |slice| < i + 16 && ReadTo(slice, i, adding, a, r)
    ensures Scan(slice[8..], true) == Entries(a, r)
  {
    assert Opened(0);
    ScanEnd(slice, i, adding, a, r);
  }

  lemma ScanEnd(slice: Key, i: nat, adding: bool, a: seq<Entry>, r: seq<Entry>)
    requires i <= |slice| < i + 16
    ensures Join(a, r, Scan(slice[i..], adding)) == Entries(a, r)
  {
    assert a + [] == a && r + [] == r;
  }

  lemma SetOfAppend(es: seq<Entry>, e: Entry)
    ensures SetOf(es + [e]) == SetOf(es) + {e}
  {
  }

  /** `legacy_get_statediff`, after the table lookup. */
  method GetStateDiff(slice: Key) returns (diff: Option<Diff>)
    ensures diff == Parse(slice)
  {
    if |slice| < STRIDE { return None; }
    var p := BeNat(slice[..8]);
    var adding := true;
    var added: set<Entry>, removed: set<Entry> := {}, {};
    var i := STRIDE;
    ghost var a: seq<Entry>, r: seq<Entry> := [], [];
    ReadStart(slice);
    while i + 2 * STRIDE <= |slice|
      invariant STRIDE <= i <= |slice|
      invariant ReadTo(slice, i, adding, a, r)
      invariant added == SetOf(a) && removed == SetOf(r)
      decreases |slice| - i
    {
      var v := slice[i..i + 2 * STRIDE];
      ReadOn(slice, i, adding, a, r);
      if adding && v[..8] == MARKER {
        adding := false;
        i := i + STRIDE;
      } else {
        if adding {
          SetOfAppend(a, v);
          added, a := added + {v}, a + [v];
        } else {
          SetOfAppend(r, v);
          removed, r := removed + {v}, r + [v];
        }
        i := i + 2 * STRIDE;
      }
    }
    ReadAll(slice, i, adding, a, r);
    diff := Some(Diff(if p == 0 then None else Some(p), added, removed));
  }

  /** What the second reader collects. */
  function AddedEvents(s: Key, adding: bool): seq<nat>
    decreases |s|
  {
    if |s| < 16 then []
    else if adding && s[..8] == MARKER then AddedEvents(s[8..], false)
    else (if adding then [BeNat(s[8..16])] else []) + AddedEvents(s[16..], adding)
  }

  function AddedShortEventIds(slice: Key): seq<nat>
  {
    if |slice| < STRIDE then [] else AddedEvents(slice[8..], true)
  }

  lemma AddedStep(slice: Key, i: nat, adding: bool, added: seq<nat>)
    requires i + 16 <= |slice|
    ensures var v := slice[i..i + 16];
            added + AddedEvents(slice[i..], adding) ==
            if adding && v[..8] == MARKER then added + AddedEvents(slice[i + 8..], false)
            else (if adding then added + [BeNat(v[8..16])] else added) + AddedEvents(slice[i + 16..], adding)
  {
    Window(slice, i);
    var rest := AddedEvents(slice[i + 16..], adding);
    var id := BeNat(slice[i..i + 16][8..16]);
    assert added + ([id] + rest) == added + [id] + rest;
    assert [] + rest == rest;
  }

  /** `legacy_statediff_added_shorteventids`. */
  method ReadAddedShortEventIds(slice: Key) returns (added: seq<nat>)
    ensures added == AddedShortEventIds(slice)
  {
    added := [];
    var adding := true;
    var i := STRIDE;
    ghost var whole := AddedShortEventIds(slice);
    assert i <= |slice| ==> whole == [] + AddedEvents(slice[i..], true);
    while i + 2 * STRIDE <= |slice|
      invariant i <= |slice| ==> whole == added + AddedEvents(slice[i..], adding)
      invariant i > |slice| ==> whole == added
      decreases |slice| - i
    {
      var v := slice[i..i + 2 * STRIDE];
      AddedStep(slice, i, adding, added);
      if adding && v[..8] == MARKER {
        adding := false;
        i := i + STRIDE;
        continue;
      }
      if adding { added := added + [BeNat(v[8..16])]; }
      i := i + 2 * STRIDE;
    }
    assert i <= |slice| ==> AddedEvents(slice[i..], adding) == [];
  }

  /** On every record the two readers see the same added events, in the same order. */
  lemma {:induction false} ReadersAgreeFrom(s: Key, adding: bool)
    ensures |AddedEvents(s, adding)| == |Scan(s, adding).added|
    ensures forall i :: 0 <= i < |AddedEvents(s, adding)| ==>
                          AddedEvents(s, adding)[i] == EventOf(Scan(s, adding).added[i])
    decreases |s|
  {
    if |s| >= 16 {
      if adding && s[..8] == MARKER {
        ReadersAgreeFrom(s[8..], false);
      } else {
        ReadersAgreeFrom(s[16..], adding);
        assert s[..16][8..] == s[8..16];
      }
    }
  }

  /** For every record of at least 8 bytes, the second reader's events are the second halves
      of the first reader's added entries. */
  lemma ReadersAgree(slice: Key)
    requires |slice| >= STRIDE
    ensures (set x | x in AddedShortEventIds(slice)) == (set e | e in Parse(slice).value.added :: EventOf(e))
  {
    var events, entries := AddedEvents(slice[8..], true), Scan(slice[8..], true).added;
    ReadersAgreeFrom(slice[8..], true);
    forall x | x in events ensures x in set e | e in SetOf(entries) :: EventOf(e) {
      var i :| 0 <= i < |events| && events[i] == x;
      assert entries[i] in SetOf(entries);
    }
    forall x | x in (set e | e in SetOf(entries) :: EventOf(e)) ensures x in events {
      var e :| e in entries && EventOf(e) == x;
      var i :| 0 <= i < |entries| && entries[i] == e;
      assert events[i] == x;
    }
  }

  // ---------- the documented layout ----------

  function Concat(es: seq<Entry>): Key
  {
    if es == [] then [] else es[0] + Concat(es[1..])
  }

  function Layout(parent: Option<nat>, added: seq<Entry>, removed: seq<Entry>): Key
    requires parent.Some? ==> 0 < parent.value < Pow256(8)
  {
    BeBytes(if parent.Some? then parent.value else 0, 8) + Concat(added) +
    (if removed == [] then [] else MARKER + Concat(removed))
  }

  lemma {:induction false} ScanRemoved(removed: seq<Entry>)
    ensures Scan(Concat(removed), false) == Entries([], removed)
    decreases |removed|
  {
    if removed != [] {
      var s := Concat(removed);
      assert s[..16] == removed[0] && s[16..] == Concat(removed[1..]);
      ScanRemoved(removed[1..]);
    }
  }

  lemma ScanTail(removed: seq<Entry>)
    ensures Scan(if removed == [] then [] else MARKER + Concat(removed), true) == Entries([], removed)
  {
    if removed != [] {
      var s := MARKER + Concat(removed);
      assert |Concat(removed)| >= 16;
      assert s[..8] == MARKER && s[8..] == Concat(removed);
      ScanRemoved(removed);
    }
  }

  lemma {:induction false} ScanLayout(added: seq<Entry>, tail: Key, removed: seq<Entry>)
    requires Scan(tail, true) == Entries([], removed)
    requires forall i :: 0 <= i < |added| ==> added[i][..8] != MARKER
    ensures Scan(Concat(added) + tail, true) == Entries(added, removed)
    decreases |added|
  {
    var s := Concat(added) + tail;
    if added == [] {
      assert s == tail;
    } else {
      assert s[..16] == added[0] && s[16..] == Concat(added[1..]) + tail;
      assert s[..8] == added[0][..8];
      ScanLayout(added[1..], tail, removed);
      assert added == [added[0]] + added[1..];
    }
  }

  lemma {:induction false} AddedKeysNonzero(s: Key, adding: bool)
    ensures forall e :: e in Scan(s, adding).added ==> e[..8] != MARKER
    decreases |s|
  {
    if |s| >= 16 {
      if adding && s[..8] == MARKER {
        AddedKeysNonzero(s[8..], false);
      } else {
        AddedKeysNonzero(s[16..], adding);
        assert s[..16][..8] == s[..8];
      }
    }
  }

  lemma Halves(head: Key, middle: Key, tail: Key)
    requires |head| == 8
    ensures var s := head + middle + tail; s[..8] == head && s[8..] == middle + tail
  {
  }

  /** A record in the documented layout is read back exactly if and only if no added entry
      has a zero state key. */
  lemma LayoutRoundTrip(parent: Option<nat>, added: seq<Entry>, removed: seq<Entry>)
    requires parent.Some? ==> 0 < parent.value < Pow256(8)
    ensures Parse(Layout(parent, added, removed)) == Some(Diff(parent, SetOf(added), SetOf(removed))) <==>
              forall e :: e in added ==> e[..8] != MARKER
  {
    var n := if parent.Some? then parent.value else 0;
    var tail := if removed == [] then [] else MARKER + Concat(removed);
    var slice := Layout(parent, added, removed);
    Halves(BeBytes(n, 8), Concat(added), tail);
    BeRoundTrip(n, 8);
    ScanTail(removed);
    if forall e :: e in added ==> e[..8] != MARKER {
      ScanLayout(added, tail, removed);
    } else {
      var e :| e in added && e[..8] == MARKER;
      AddedKeysNonzero(slice[8..], true);
      assert e in SetOf(added) && e !in SetOf(Scan(slice[8..], true).added);
    }
  }
}
