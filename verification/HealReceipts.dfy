/** The reverse scan of `heal_receipts` (src/admin/yolo/heal.rs:642-690): a receipt row is
    deleted when every signature in it was already seen in a newer row. */
module HealReceipts {
  import opened Bytes
  import Receipts

  datatype Signature = Signature(room: string, user: string, kind: string, thread: string)

  /** A row of the table; `sigs` is `None` when the row is skipped. */
  datatype Row = Row(key: Key, sigs: Option<seq<Signature>>)

  /** `(user, receipt type, thread)` triples of a receipt value; `None` when it does not parse. */
  type Decoder = Key -> Option<seq<(string, string, string)>>

  function Separators(k: Key): nat
  {
    if k == [] then 0 else (if k[0] == SEP then 1 else 0) + Separators(k[1..])
  }

  function Attach(room: string, claims: seq<(string, string, string)>): seq<Signature>
  {
    if claims == [] then []
    else [Signature(room, claims[0].0, claims[0].1, claims[0].2)] + Attach(room, claims[1..])
  }

  /** Keys with fewer than three parts and values that do not parse are skipped. */
  function ReadRow(k: Key, value: Key, decode: Decoder, lossy: Key -> string): Row
  {
    if Separators(k) < 2 || decode(value).None? then Row(k, None)
    else Row(k, Some(Attach(lossy(k[..FirstSep(k)]), decode(value).value)))
  }

  /** The table's rows as the reverse stream yields them. */
  function ReadAll(order: seq<Key>, table: map<Key, Key>, decode: Decoder, lossy: Key -> string): (rows: seq<Row>)
    requires forall k :: k in order ==> k in table
    ensures |rows| == |order| && forall i :: 0 <= i < |order| ==> rows[i].key == order[i]
  {
    if order == [] then []
    else [ReadRow(order[0], table[order[0]], decode, lossy)] + ReadAll(order[1..], table, decode, lossy)
  }

  /** The key has two separators or more. */
  ghost predicate TwoSeparators(k: Key)
  {
    exists i, j :: 0 <= i < j < |k| && k[i] == SEP && k[j] == SEP
  }

  lemma {:induction false} SeparatorsCount(k: Key)
    ensures Separators(k) == 0 <==> forall i :: 0 <= i < |k| ==> k[i] != SEP
    ensures Separators(k) >= 2 <==> TwoSeparators(k)
  {
    if k != [] {
      var rest := k[1..];
      SeparatorsCount(rest);
      if TwoSeparators(k) {
        var i, j :| 0 <= i < j < |k| && k[i] == SEP && k[j] == SEP;
        assert rest[j - 1] == SEP;
        if i > 0 { assert rest[i - 1] == SEP && rest[j - 1] == SEP; }
      }
      if TwoSeparators(rest) {
        var i, j :| 0 <= i < j < |rest| && rest[i] == SEP && rest[j] == SEP;
        assert k[i + 1] == SEP && k[j + 1] == SEP;
      } else if k[0] == SEP && Separators(rest) > 0 {
        var j :| 0 <= j < |rest| && rest[j] == SEP;
        assert k[0] == SEP && k[j + 1] == SEP;
      }
    }
  }

  lemma {:induction false} AttachHolds(room: string, claims: seq<(string, string, string)>, s: Signature)
    ensures s in Attach(room, claims) <==> s.room == room && (s.user, s.kind, s.thread) in claims
  {
    if claims != [] { AttachHolds(room, claims[1..], s); }
  }

  /** A row is skipped exactly if its key has fewer than two separators or its value does not parse;
      otherwise it carries, for the room its key names, exactly the user, type and thread of each
      receipt in its value. */
  lemma SignaturesOf(room: Key, rest: Key, value: Key, decode: Decoder, lossy: Key -> string, s: Signature)
    requires SepFree(room)
    ensures var k := room + [SEP] + rest;
            var row := ReadRow(k, value, decode, lossy);
            && row.key == k && (row.sigs.None? <==> !TwoSeparators(k) || decode(value).None?)
            && (row.sigs.Some? ==>
                  (s in Sigs(row) <==> s.room == lossy(room) && (s.user, s.kind, s.thread) in decode(value).value))
  {
    var k := room + [SEP] + rest;
    SeparatorsCount(k);
    assert k[..|room|] == room && k[|room|] == SEP;
    FirstSepUnique(k, |room|);
    if decode(value).Some? { AttachHolds(lossy(room), decode(value).value, s); }
  }

  function Sigs(r: Row): set<Signature>
  {
    if r.sigs.None? then {} else set s | s in r.sigs.value
  }

  predicate Obsolete(r: Row, seen: set<Signature>)
  {
    r.sigs.Some? && Sigs(r) <= seen
  }

  /** The rows kept, newest first, once the signatures `seen` have been passed. */
  function Heal(rows: seq<Row>, seen: set<Signature>): seq<Row>
    decreases |rows|
  {
    if rows == [] then []
    else if Obsolete(rows[0], seen) then Heal(rows[1..], seen)
    else [rows[0]] + Heal(rows[1..], seen + Sigs(rows[0]))
  }

  function Deleted(rows: seq<Row>, seen: set<Signature>): set<Key>
    decreases |rows|
  {
    if rows == [] then {}
    else if Obsolete(rows[0], seen) then {rows[0].key} + Deleted(rows[1..], seen)
    else Deleted(rows[1..], seen + Sigs(rows[0]))
  }

  /** How many rows parse. */
  function Decoded(rows: seq<Row>): nat
  {
    if rows == [] then 0 else (if rows[0].sigs.Some? then 1 else 0) + Decoded(rows[1..])
  }

  // ---------- the scan as it runs ----------

  class ReceiptTable {
    var table: map<Key, Key>      // readreceiptid_readreceipt

    constructor (rows: map<Key, Key>)
      ensures table == rows
    {
      table := rows;
    }

    /** `order` lists the table's keys in reverse key order. Exactly the `Deleted` rows go. */
    method HealAll(order: seq<Key>, decode: Decoder, lossy: Key -> string) returns (deleted: nat, kept: nat)
      requires forall k :: k in order ==> k in table
      modifies this
      ensures table == old(table) - Deleted(ReadAll(order, old(table), decode, lossy), {})
      ensures var rows := ReadAll(order, old(table), decode, lossy);
              deleted == |rows| - |Heal(rows, {})| && kept + deleted == Decoded(rows)
    {
      var rows := ReadAll(order, table, decode, lossy);
      deleted, kept := Scan(rows);
    }

    /** Inserts the signatures of one row; tells whether all of them were seen. */
    static method Insert(sigs: seq<Signature>, seen: set<Signature>) returns (allObsolete: bool, seen': set<Signature>)
      ensures seen' == seen + set s | s in sigs
      ensures allObsolete <==> (set s | s in sigs) <= seen
    {
      allObsolete, seen' := true, seen;
      for j := 0 to |sigs|
        invariant seen' == seen + set s | s in sigs[..j]
        invariant allObsolete <==> (set s | s in sigs[..j]) <= seen
      {
        assert sigs[..j + 1] == sigs[..j] + [sigs[j]];
        if sigs[j] !in seen' { allObsolete := false; }
        seen' := seen' + {sigs[j]};
      }
      assert sigs[..|sigs|] == sigs;
    }

    method Scan(rows: seq<Row>) returns (deleted: nat, kept: nat)
      modifies this
      ensures table == old(table) - Deleted(rows, {})
      ensures deleted == |rows| - |Heal(rows, {})| && kept + deleted == Decoded(rows)
    {
      var seen: set<Signature> := {};
      deleted, kept := 0, 0;
      var i := 0;
      while i < |rows|
        invariant 0 <= i <= |rows| && kept + deleted + Decoded(rows[i..]) == Decoded(rows)
        invariant deleted <= i && i - deleted + |Heal(rows[i..], seen)| == |Heal(rows, {})|
        invariant table - Deleted(rows[i..], seen) == old(table) - Deleted(rows, {})
      {
        assert rows[i..][1..] == rows[i + 1..];
        var row := rows[i];
        i := i + 1;
        if row.sigs.None? {
          assert seen + Sigs(row) == seen;
          continue;
        }
        var allObsolete, seen' := Insert(row.sigs.value, seen);
        assert allObsolete == Obsolete(row, seen) && seen' == seen + Sigs(row);
        assert allObsolete ==> seen' == seen;
        seen := seen';
        if allObsolete {
          table := table - {row.key};
          deleted := deleted + 1;
        } else {
          kept := kept + 1;
        }
      }
    }
  }

  // ---------- what the scan keeps ----------

  /** The newest row carrying a signature. */
  function Carrier(rows: seq<Row>, s: Signature): Option<Row>
    decreases |rows|
  {
    if rows == [] then None
    else if s in Sigs(rows[0]) then Some(rows[0])
    else Carrier(rows[1..], s)
  }

  /** Healing keeps every signature and the newest row carrying it. */
  lemma {:induction false} CarriersKept(rows: seq<Row>, seen: set<Signature>, s: Signature)
    requires s !in seen
    ensures Carrier(Heal(rows, seen), s) == Carrier(rows, s)
    decreases |rows|
  {
    if rows != [] {
      if Obsolete(rows[0], seen) {
        CarriersKept(rows[1..], seen, s);
      } else {
        var rest := Heal(rows[1..], seen + Sigs(rows[0]));
        assert ([rows[0]] + rest)[1..] == rest;
        if s !in Sigs(rows[0]) { CarriersKept(rows[1..], seen + Sigs(rows[0]), s); }
      }
    }
  }

  lemma {:induction false} CarrierAt(rows: seq<Row>, s: Signature, j: nat) returns (i: nat)
    requires j < |rows| && s in Sigs(rows[j])
    ensures i <= j && Carrier(rows, s) == Some(rows[i]) && s in Sigs(rows[i])
    decreases j
  {
    if s in Sigs(rows[0]) {
      i := 0;
    } else {
      i := CarrierAt(rows[1..], s, j - 1);
      i := i + 1;
    }
  }

  /** The table's keys, last first. */
  ghost predicate Reversed(order: seq<Key>, table: map<Key, Key>)
  {
    && (forall k :: k in order ==> k in table)
    && (forall a, b :: 0 <= a < b < |order| ==> Less(order[b], order[a]))
  }

  /** The row kept for a signature has the highest count of all well-formed rows of its room that
      carry it. */
  lemma CarrierIsNewest(order: seq<Key>, table: map<Key, Key>, decode: Decoder, lossy: Key -> string, s: Signature,
                        j: nat) returns (i: nat)
    requires Reversed(order, table) && j < |order|
    requires s in Sigs(ReadAll(order, table, decode, lossy)[j])
    ensures var rows := ReadAll(order, table, decode, lossy);
            i <= j && Carrier(Heal(rows, {}), s) == Some(rows[i]) && s in Sigs(rows[i])
    ensures Receipts.WellFormed(order[i]) && Receipts.WellFormed(order[j])
              && Receipts.Room(order[i]) == Receipts.Room(order[j]) ==>
              Receipts.Count(order[j]) <= Receipts.Count(order[i])
  {
    var rows := ReadAll(order, table, decode, lossy);
    i := CarrierAt(rows, s, j);
    CarriersKept(rows, {}, s);
    if i < j { NewerHasHigherCount(order[j], order[i]); }
  }

  lemma NewerHasHigherCount(k: Key, l: Key)
    requires Less(k, l)
    ensures Receipts.WellFormed(k) && Receipts.WellFormed(l) && Receipts.Room(k) == Receipts.Room(l) ==>
              Receipts.Count(k) <= Receipts.Count(l)
  {
    LessAsymmetric(k, l);
    if Receipts.WellFormed(k) && Receipts.WellFormed(l) && Receipts.Room(k) == Receipts.Room(l)
       && Receipts.Count(l) < Receipts.Count(k) {
      Receipts.RoomOrder(l, k);
    }
  }

  /** A second run deletes nothing. */
  lemma {:induction false} HealIsStable(rows: seq<Row>, seen: set<Signature>)
    ensures Heal(Heal(rows, seen), seen) == Heal(rows, seen)
    ensures Deleted(Heal(rows, seen), seen) == {}
    decreases |rows|
  {
    if rows != [] {
      if Obsolete(rows[0], seen) {
        HealIsStable(rows[1..], seen);
      } else {
        var rest := Heal(rows[1..], seen + Sigs(rows[0]));
        assert ([rows[0]] + rest)[1..] == rest;
        HealIsStable(rows[1..], seen + Sigs(rows[0]));
      }
    }
  }

  /** The keys of `order` still in the table. */
  function Remaining(order: seq<Key>, table: map<Key, Key>): (r: seq<Key>)
    ensures forall k :: k in r ==> k in order && k in table
  {
    if order == [] then []
    else (if order[0] in table then [order[0]] else []) + Remaining(order[1..], table)
  }

  function Without(rows: seq<Row>, gone: set<Key>): seq<Row>
  {
    if rows == [] then []
    else (if rows[0].key !in gone then [rows[0]] else []) + Without(rows[1..], gone)
  }

  /** Streaming the table once keys are gone yields the other rows. */
  lemma {:induction false} RemainingRows(order: seq<Key>, table: map<Key, Key>, decode: Decoder, lossy: Key -> string,
                                         gone: set<Key>, kept: map<Key, Key>)
    requires forall k :: k in order ==> k in table && (k in kept <==> k !in gone) && (k in kept ==> kept[k] == table[k])
    ensures ReadAll(Remaining(order, kept), kept, decode, lossy) == Without(ReadAll(order, table, decode, lossy), gone)
    decreases |order|
  {
    if order != [] {
      var key, rest := order[0], Remaining(order[1..], kept);
      RemainingRows(order[1..], table, decode, lossy, gone, kept);
      assert ReadAll(order, table, decode, lossy)[1..] == ReadAll(order[1..], table, decode, lossy);
      if key in gone {
        assert Remaining(order, kept) == rest;
      } else {
        assert Remaining(order, kept) == [key] + rest && ([key] + rest)[1..] == rest;
      }
    }
  }

  lemma {:induction false} WithoutSame(rows: seq<Row>, gone: set<Key>, k: Key)
    requires forall i :: 0 <= i < |rows| ==> rows[i].key != k
    ensures Without(rows, gone + {k}) == Without(rows, gone)
    decreases |rows|
  {
    if rows != [] { WithoutSame(rows[1..], gone, k); }
  }

  lemma {:induction false} HealIsWithout(rows: seq<Row>, seen: set<Signature>)
    requires forall a, b :: 0 <= a < b < |rows| ==> rows[a].key != rows[b].key
    ensures Without(rows, Deleted(rows, seen)) == Heal(rows, seen)
    decreases |rows|
  {
    if rows != [] {
      var key := rows[0].key;
      if Obsolete(rows[0], seen) {
        HealIsWithout(rows[1..], seen);
        WithoutSame(rows[1..], Deleted(rows[1..], seen), key);
        assert Deleted(rows, seen) == Deleted(rows[1..], seen) + {key};
      } else {
        KeysOfTail(rows, seen + Sigs(rows[0]));
        HealIsWithout(rows[1..], seen + Sigs(rows[0]));
      }
    }
  }

  /** A second run over the healed table deletes nothing. */
  lemma SecondRunDeletesNothing(order: seq<Key>, table: map<Key, Key>, decode: Decoder, lossy: Key -> string)
    requires forall k :: k in order ==> k in table
    requires forall a, b :: 0 <= a < b < |order| ==> order[a] != order[b]
    ensures var healed := table - Deleted(ReadAll(order, table, decode, lossy), {});
            Deleted(ReadAll(Remaining(order, healed), healed, decode, lossy), {}) == {}
  {
    var rows := ReadAll(order, table, decode, lossy);
    RemainingRows(order, table, decode, lossy, Deleted(rows, {}), table - Deleted(rows, {}));
    HealIsWithout(rows, {});
    HealIsStable(rows, {});
  }

  /** Signatures of the rows before position `i`. */
  function Newer(rows: seq<Row>, i: nat): set<Signature>
    requires i <= |rows|
  {
    if i == 0 then {} else Newer(rows, i - 1) + Sigs(rows[i - 1])
  }

  lemma {:induction false} NewerTail(rows: seq<Row>, i: nat)
    requires 0 < i <= |rows|
    ensures Newer(rows, i) == Sigs(rows[0]) + Newer(rows[1..], i - 1)
  {
    if i > 1 { NewerTail(rows, i - 1); }
  }

  /** A row is deleted if and only if it parses and every signature in it occurs in a newer row. */
  lemma {:induction false} DeletedExactly(rows: seq<Row>, seen: set<Signature>, i: nat)
    requires i < |rows| && forall a, b :: 0 <= a < b < |rows| ==> rows[a].key != rows[b].key
    ensures rows[i].key in Deleted(rows, seen) <==> rows[i].sigs.Some? && Sigs(rows[i]) <= seen + Newer(rows, i)
    ensures rows[i] in Heal(rows, seen) <==> rows[i].key !in Deleted(rows, seen)
    decreases |rows|
  {
    KeysOfTail(rows, seen);
    KeysOfTail(rows, seen + Sigs(rows[0]));
    if i > 0 {
      NewerTail(rows, i);
      if Obsolete(rows[0], seen) {
        DeletedExactly(rows[1..], seen, i - 1);
        assert seen + Newer(rows, i) == seen + Newer(rows[1..], i - 1);
      } else {
        DeletedExactly(rows[1..], seen + Sigs(rows[0]), i - 1);
        assert seen + Newer(rows, i) == seen + Sigs(rows[0]) + Newer(rows[1..], i - 1);
      }
    }
  }

  lemma {:induction false} HealIsSubset(rows: seq<Row>, seen: set<Signature>)
    ensures forall r :: r in Heal(rows, seen) ==> r in rows
    ensures forall k :: k in Deleted(rows, seen) ==> exists r :: r in rows && r.key == k
    decreases |rows|
  {
    if rows != [] {
      HealIsSubset(rows[1..], seen);
      HealIsSubset(rows[1..], seen + Sigs(rows[0]));
      assert rows == [rows[0]] + rows[1..];
      assert Deleted(rows, seen) <=
             {rows[0].key} + Deleted(rows[1..], seen) + Deleted(rows[1..], seen + Sigs(rows[0]));
      forall k | k in Deleted(rows, seen) ensures exists r :: r in rows && r.key == k {
        if k == rows[0].key {
          assert rows[0] in rows;
        } else {
          var r :| r in rows[1..] && r.key == k;
          assert r in rows;
        }
      }
    }
  }

  lemma KeysOfTail(rows: seq<Row>, seen: set<Signature>)
    requires rows != [] && forall a, b :: 0 <= a < b < |rows| ==> rows[a].key != rows[b].key
    ensures rows[0] !in Heal(rows[1..], seen) && rows[0].key !in Deleted(rows[1..], seen)
  {
    HealIsSubset(rows[1..], seen);
    assert forall i :: 0 <= i < |rows[1..]| ==> rows[1..][i] == rows[i + 1];
  }

  /** Every signature of a deleted row is carried by a newer row that survives. */
  lemma {:induction false} DeletedIsCovered(rows: seq<Row>, i: nat, s: Signature) returns (j: nat)
    requires i < |rows| && forall a, b :: 0 <= a < b < |rows| ==> rows[a].key != rows[b].key
    requires rows[i].key in Deleted(rows, {}) && s in Sigs(rows[i])
    ensures j < i && s in Sigs(rows[j]) && rows[j] in Heal(rows, {})
  {
    DeletedExactly(rows, {}, i);
    j := FirstCarrier(rows, i, s);
    DeletedExactly(rows, {}, j);
  }

  lemma {:induction false} FirstCarrier(rows: seq<Row>, i: nat, s: Signature) returns (j: nat)
    requires i <= |rows| && s in Newer(rows, i)
    ensures j < i && s in Sigs(rows[j]) && s !in Newer(rows, j)
  {
    if s in Newer(rows, i - 1) { j := FirstCarrier(rows, i - 1, s); } else { j := i - 1; }
  }
}
