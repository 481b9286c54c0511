/** The RawPduId unification (src/service/migrations.rs:2226-2319): two mutually inverse
    tables are re-keyed from a two's-complement to an offset-binary count. */
module RawPduRekey {
  import opened Bytes

  type EventId = Key

  /** `eventid_pduid` and `room_pducount_eventid`. */
  datatype Tables = Tables(pduIds: map<EventId, Key>, events: map<Key, EventId>)

  /** An old backfilled key (24 bytes), or an old normal key (16 bytes, count not negative). */
  predicate NeedsMigration(k: Key)
  {
    |k| == 24 || (|k| == 16 && k[8] < 0x80)
  }

  function CountBytes(k: Key): (c: Key)
    requires NeedsMigration(k)
    ensures |c| == 8
  {
    if |k| == 24 then k[16..24] else k[8..16]
  }

  /** Flipping the sign bit of a big-endian `i64`. */
  function OffsetBinary(c: Key): (r: Key)
    requires |c| == 8
    ensures |r| == 8
  {
    [if c[0] < 128 then c[0] + 128 else c[0] - 128] + c[1..]
  }

  function NewKey(k: Key): Key
  {
    if NeedsMigration(k) then k[..8] + OffsetBinary(CountBytes(k)) else k
  }

  /** The effect of migrating one row on both tables. */
  function RekeyOne(t: Tables, e: EventId, k: Key): Tables
  {
    if NeedsMigration(k) then Tables(t.pduIds[e := NewKey(k)], (t.events - {k})[NewKey(k) := e]) else t
  }

  /** The whole pass, over a snapshot of `eventid_pduid`. */
  function Rekey(t: Tables, rows: map<EventId, Key>, ids: seq<EventId>): Tables
    requires forall e :: e in ids ==> e in rows
    decreases |ids|
  {
    if ids == [] then t else Rekey(RekeyOne(t, ids[0], rows[ids[0]]), rows, ids[1..])
  }

  // ---------- the pass as it runs ----------

  datatype Op = DeleteEvent(key: Key) | PutEvent(key: Key, event: EventId) | PutPduId(event: EventId, key: Key)

  function ApplyOp(t: Tables, op: Op): Tables
  {
    match op
    case DeleteEvent(k) => t.(events := t.events - {k})
    case PutEvent(k, e) => t.(events := t.events[k := e])
    case PutPduId(e, k) => t.(pduIds := t.pduIds[e := k])
  }

  function ApplyBatch(t: Tables, ops: seq<Op>): Tables
    decreases |ops|
  {
    if ops == [] then t else ApplyBatch(ApplyOp(t, ops[0]), ops[1..])
  }

  lemma {:induction false} ApplyBatchSplit(t: Tables, a: seq<Op>, b: seq<Op>)
    ensures ApplyBatch(t, a + b) == ApplyBatch(ApplyBatch(t, a), b)
    decreases |a|
  {
    if a == [] {
      assert a + b == b;
    } else {
      assert (a + b)[1..] == a[1..] + b;
      ApplyBatchSplit(ApplyOp(t, a[0]), a[1..], b);
    }
  }

  /** How many of the scanned rows are in an old format. */
  function Outdated(rows: map<EventId, Key>, ids: seq<EventId>): nat
    requires forall e :: e in ids ==> e in rows
  {
    if ids == [] then 0 else (if NeedsMigration(rows[ids[0]]) then 1 else 0) + Outdated(rows, ids[1..])
  }

  class PduTables {
    var tables: Tables

    constructor (t: Tables)
      ensures tables == t
    {
      tables := t;
    }

    /** Whatever the batch size, the pass ends in `Rekey`. */
    method Unify(ids: seq<EventId>, batchSize: nat) returns (migrated: nat)
      requires forall e :: e in ids ==> e in tables.pduIds
      modifies this
      ensures tables == Rekey(old(tables), old(tables).pduIds, ids)
      ensures migrated == Outdated(old(tables).pduIds, ids)
    {
      var rows := tables.pduIds;
      var batch: seq<Op> := [];
      migrated := 0;
      var i := 0;
      while i < |ids|
        invariant 0 <= i <= |ids|
        invariant Rekey(ApplyBatch(tables, batch), rows, ids[i..]) == Rekey(old(tables), rows, ids)
        invariant migrated + Outdated(rows, ids[i..]) == Outdated(rows, ids)
      {
        assert ids[i..][1..] == ids[i + 1..];
        var e, k := ids[i], rows[ids[i]];
        i := i + 1;
        if !NeedsMigration(k) { continue; }
        var n := NewKey(k);
        var ops := [DeleteEvent(k), PutEvent(n, e), PutPduId(e, n)];
        ApplyBatchSplit(tables, batch, ops);
        RowOps(ApplyBatch(tables, batch), e, k);
        batch := batch + ops;
        migrated := migrated + 1;
        if batchSize != 0 && migrated % batchSize == 0 {
          tables := ApplyBatch(tables, batch);
          batch := [];
        }
      }
      tables := ApplyBatch(tables, batch);
    }
  }

  lemma RowOps(t: Tables, e: EventId, k: Key)
    requires NeedsMigration(k)
    ensures ApplyBatch(t, [DeleteEvent(k), PutEvent(NewKey(k), e), PutPduId(e, NewKey(k))]) == RekeyOne(t, e, k)
  {
    var ops := [DeleteEvent(k), PutEvent(NewKey(k), e), PutPduId(e, NewKey(k))];
    var t1 := ApplyOp(t, ops[0]);
    var t2 := ApplyOp(t1, ops[1]);
    assert ops[1..] == [ops[1], ops[2]] && [ops[1], ops[2]][1..] == [ops[2]] && [ops[2]][1..] == [];
    assert ApplyBatch(t2, [ops[2]]) == ApplyOp(t2, ops[2]);
    assert ApplyBatch(t1, [ops[1], ops[2]]) == ApplyBatch(t2, [ops[2]]);
  }

  // ---------- exactly when the tables stay inverse ----------

  ghost predicate Inverse(t: Tables)
  {
    && (forall e :: e in t.pduIds ==> t.pduIds[e] in t.events && t.events[t.pduIds[e]] == e)
    && (forall k :: k in t.events ==> t.events[k] in t.pduIds && t.pduIds[t.events[k]] == k)
  }

  ghost predicate Scans(ids: seq<EventId>, rows: map<EventId, Key>)
  {
    && (forall i, j :: 0 <= i < j < |ids| ==> ids[i] != ids[j])
    && (forall e :: e in ids <==> e in rows)
  }

  /** No two rows end on one key. */
  ghost predicate NewKeysDistinct(rows: map<EventId, Key>)
  {
    forall e, f :: e in rows && f in rows && e != f ==> NewKey(rows[e]) != NewKey(rows[f])
  }

  /** No row takes the old key of a row that is migrated after it. */
  ghost predicate NoOvertaking(rows: map<EventId, Key>, ids: seq<EventId>)
    requires forall e :: e in ids ==> e in rows
  {
    forall i, j :: 0 <= i < j < |ids| && NeedsMigration(rows[ids[i]]) && NeedsMigration(rows[ids[j]]) ==>
      NewKey(rows[ids[i]]) != rows[ids[j]]
  }

  /** What `eventid_pduid` holds once `ids[..i]` are done. */
  ghost predicate Halfway(t: Tables, rows: map<EventId, Key>, ids: seq<EventId>, i: nat)
    requires i <= |ids| && forall e :: e in ids ==> e in rows
  {
    && t.pduIds.Keys == rows.Keys
    && (forall j :: 0 <= j < i ==> t.pduIds[ids[j]] == NewKey(rows[ids[j]]))
    && (forall j :: i <= j < |ids| ==> t.pduIds[ids[j]] == rows[ids[j]])
  }

  lemma StepKeepsInverse(t: Tables, rows: map<EventId, Key>, ids: seq<EventId>, i: nat)
    requires Scans(ids, rows) && i < |ids| && Halfway(t, rows, ids, i) && Inverse(t)
    requires NewKeysDistinct(rows) && NoOvertaking(rows, ids)
    ensures Inverse(RekeyOne(t, ids[i], rows[ids[i]]))
  {
    var e, k := ids[i], rows[ids[i]];
    if NeedsMigration(k) {
      forall f | f in rows && f != e ensures t.pduIds[f] != NewKey(k) {
        var j :| 0 <= j < |ids| && ids[j] == f;
        assert t.pduIds[f] == if j < i then NewKey(rows[f]) else rows[f];
        if !NeedsMigration(rows[f]) { assert NewKey(rows[f]) == rows[f]; }
      }
      MoveKeepsInverse(t, e, k, NewKey(k));
    }
  }

  lemma MoveKeepsInverse(t: Tables, e: EventId, k: Key, n: Key)
    requires Inverse(t) && e in t.pduIds && t.pduIds[e] == k && forall f :: f in t.pduIds && f != e ==> t.pduIds[f] != n
    ensures Inverse(Tables(t.pduIds[e := n], (t.events - {k})[n := e]))
  {
  }

  lemma StepKeepsHalfway(t: Tables, rows: map<EventId, Key>, ids: seq<EventId>, i: nat)
    requires Scans(ids, rows) && i < |ids| && Halfway(t, rows, ids, i)
    ensures Halfway(RekeyOne(t, ids[i], rows[ids[i]]), rows, ids, i + 1)
  {
  }

  /** The pass maps every row to its new key, whatever happens to the other table. */
  lemma {:induction false} RekeyMapsRows(t: Tables, rows: map<EventId, Key>, ids: seq<EventId>, i: nat)
    requires Scans(ids, rows) && i <= |ids| && Halfway(t, rows, ids, i)
    ensures Halfway(Rekey(t, rows, ids[i..]), rows, ids, |ids|)
    ensures Inverse(t) && NewKeysDistinct(rows) && NoOvertaking(rows, ids) ==> Inverse(Rekey(t, rows, ids[i..]))
    decreases |ids| - i
  {
    if i < |ids| {
      assert ids[i..][1..] == ids[i + 1..];
      StepKeepsHalfway(t, rows, ids, i);
      if Inverse(t) && NewKeysDistinct(rows) && NoOvertaking(rows, ids) { StepKeepsInverse(t, rows, ids, i); }
      RekeyMapsRows(RekeyOne(t, ids[i], rows[ids[i]]), rows, ids, i + 1);
    }
  }

  /** A key that is absent and that no remaining row takes stays absent. */
  lemma {:induction false} StaysAbsent(t: Tables, rows: map<EventId, Key>, ids: seq<EventId>, k: Key)
    requires forall e :: e in ids ==> e in rows
    requires k !in t.events && forall i :: 0 <= i < |ids| && NeedsMigration(rows[ids[i]]) ==> NewKey(rows[ids[i]]) != k
    ensures k !in Rekey(t, rows, ids).events
    decreases |ids|
  {
    if ids != [] { StaysAbsent(RekeyOne(t, ids[0], rows[ids[0]]), rows, ids[1..], k); }
  }

  lemma NewKeyMoves(k: Key)
    requires NeedsMigration(k)
    ensures NewKey(k) != k
  {
    if |k| == 16 { assert NewKey(k)[8] == OffsetBinary(CountBytes(k))[0]; }
  }

  /** A row that takes the key of a later one is lost. */
  lemma OvertakenIsLost(t: Tables, ids: seq<EventId>, i: nat, j: nat)
    requires Scans(ids, t.pduIds) && i < j < |ids| && NewKeysDistinct(t.pduIds)
    requires NeedsMigration(t.pduIds[ids[i]]) && NeedsMigration(t.pduIds[ids[j]])
    requires NewKey(t.pduIds[ids[i]]) == t.pduIds[ids[j]]
    ensures t.pduIds[ids[j]] !in Rekey(t, t.pduIds, ids).events
  {
    var rows, k := t.pduIds, t.pduIds[ids[j]];
    RekeySplit(t, rows, ids, j);
    var mid := Rekey(t, rows, ids[..j]);
    NewKeyMoves(k);
    assert k !in RekeyOne(mid, ids[j], k).events;
    var later := ids[j + 1..];
    forall m | 0 <= m < |later| && NeedsMigration(rows[later[m]]) ensures NewKey(rows[later[m]]) != k {
      assert later[m] == ids[j + 1 + m] != ids[i];
    }
    StaysAbsent(RekeyOne(mid, ids[j], k), rows, later, k);
  }

  lemma {:induction false} RekeySplit(t: Tables, rows: map<EventId, Key>, ids: seq<EventId>, j: nat)
    requires j < |ids| && forall e :: e in ids ==> e in rows
    ensures Rekey(t, rows, ids) == Rekey(RekeyOne(Rekey(t, rows, ids[..j]), ids[j], rows[ids[j]]), rows, ids[j + 1..])
    decreases j
  {
    if j > 0 {
      assert ids[1..][..j - 1] == ids[..j][1..] && ids[1..][j..] == ids[j + 1..];
      RekeySplit(RekeyOne(t, ids[0], rows[ids[0]]), rows, ids[1..], j - 1);
    }
  }

  lemma InverseIsDistinct(done: Tables, rows: map<EventId, Key>)
    requires Inverse(done) && done.pduIds.Keys == rows.Keys
    requires forall e :: e in rows ==> done.pduIds[e] == NewKey(rows[e])
    ensures NewKeysDistinct(rows)
  {
    forall e, f | e in rows && f in rows && e != f ensures NewKey(rows[e]) != NewKey(rows[f]) {
      assert done.events[done.pduIds[e]] == e && done.events[done.pduIds[f]] == f;
    }
  }

  lemma InverseIsNotOvertaken(t: Tables, ids: seq<EventId>)
    requires Scans(ids, t.pduIds) && NewKeysDistinct(t.pduIds)
    requires Inverse(Rekey(t, t.pduIds, ids)) && Halfway(Rekey(t, t.pduIds, ids), t.pduIds, ids, |ids|)
    ensures NoOvertaking(t.pduIds, ids)
  {
    var rows, done := t.pduIds, Rekey(t, t.pduIds, ids);
    forall i, j | 0 <= i < j < |ids| && NeedsMigration(rows[ids[i]]) && NeedsMigration(rows[ids[j]])
      ensures NewKey(rows[ids[i]]) != rows[ids[j]]
    {
      if NewKey(rows[ids[i]]) == rows[ids[j]] { OvertakenIsLost(t, ids, i, j); }
    }
  }

  lemma AllMapped(done: Tables, rows: map<EventId, Key>, ids: seq<EventId>)
    requires Scans(ids, rows) && Halfway(done, rows, ids, |ids|)
    ensures done.pduIds.Keys == rows.Keys && forall e :: e in rows ==> done.pduIds[e] == NewKey(rows[e])
  {
    forall e | e in rows ensures done.pduIds[e] == NewKey(rows[e]) {
      var j :| 0 <= j < |ids| && ids[j] == e;
    }
  }

  /** One complete pass over inverse tables leaves them inverse, with every event on its new
      key, if and only if no two rows end on one key and no row takes the old key of a row
      migrated after it. */
  lemma RekeyExact(t: Tables, ids: seq<EventId>)
    requires Inverse(t) && Scans(ids, t.pduIds)
    ensures var done := Rekey(t, t.pduIds, ids);
            && done.pduIds == (map e | e in t.pduIds :: NewKey(t.pduIds[e]))
            && (Inverse(done) <==> NewKeysDistinct(t.pduIds) && NoOvertaking(t.pduIds, ids))
  {
    var done := Rekey(t, t.pduIds, ids);
    assert ids[0..] == ids;
    RekeyMapsRows(t, t.pduIds, ids, 0);
    AllMapped(done, t.pduIds, ids);
    if Inverse(done) {
      InverseIsDistinct(done, t.pduIds);
      InverseIsNotOvertaken(t, ids);
    }
  }

  // ---------- old-format tables with counts below 2^62 ----------

  /** `[room | count]` with a count that is not negative, or `[room | 0 | count]`. */
  ghost predicate OldFormat(k: Key)
  {
    NeedsMigration(k) && (|k| == 24 ==> k[8..16] == [0, 0, 0, 0, 0, 0, 0, 0])
  }

  function Count(k: Key): int
    requires NeedsMigration(k)
  {
    BeInt(CountBytes(k))
  }

  const QUARTER: int := 64 * Pow256(7)      // 2^62

  /** An old-format key whose count magnitude is below 2^62. */
  ghost predicate Bounded(k: Key)
  {
    OldFormat(k) && -QUARTER <= Count(k) < QUARTER
  }

  /** The two keys name different `(room, count)` positions. */
  ghost predicate Apart(k: Key, l: Key)
  {
    NeedsMigration(k) && NeedsMigration(l) ==> k[..8] != l[..8] || Count(k) != Count(l)
  }

  ghost predicate BoundedRows(rows: map<EventId, Key>)
  {
    && (forall e :: e in rows ==> Bounded(rows[e]))
    && (forall e, f :: e in rows && f in rows && e != f ==> Apart(rows[e], rows[f]))
  }

  lemma TopByte(c: Key)
    requires |c| == 8
    ensures -QUARTER <= BeInt(c) < QUARTER <==> c[0] < 64 || c[0] >= 192
  {
    var p, r := Pow256(7), BeNat(c[1..]);
    assert BeNat(c) == c[0] * p + r && 0 <= r < p && Pow256(8) == 256 * p;
    if c[0] < 64 { MulLe(c[0], 63, p); }
    else if c[0] < 128 { MulLe(64, c[0], p); }
    else if c[0] < 192 { MulLe(c[0], 191, p); }
    else { MulLe(192, c[0], p); MulLe(c[0], 255, p); }
  }

  /** Old-format rows that name distinct `(room, count)` positions, with count magnitudes below
      2^62, satisfy the exact condition in every scan order. */
  lemma BoundedCountsAreSafe(rows: map<EventId, Key>, ids: seq<EventId>)
    requires Scans(ids, rows) && BoundedRows(rows)
    ensures NewKeysDistinct(rows) && NoOvertaking(rows, ids)
    ensures forall e :: e in rows ==> |NewKey(rows[e])| == 16
  {
    forall e, f | e in rows && f in rows && e != f ensures NewKey(rows[e]) != NewKey(rows[f]) {
      NewKeyDetermines(rows[e], rows[f]);
    }
    forall i, j | 0 <= i < j < |ids| && NeedsMigration(rows[ids[i]]) && NeedsMigration(rows[ids[j]])
      ensures NewKey(rows[ids[i]]) != rows[ids[j]]
    {
      NewIsNotOld(rows[ids[i]], rows[ids[j]]);
    }
  }

  lemma NewKeyDetermines(k: Key, l: Key)
    requires NeedsMigration(k) && NeedsMigration(l)
    ensures NewKey(k) == NewKey(l) ==> k[..8] == l[..8] && Count(k) == Count(l)
  {
    if NewKey(k) == NewKey(l) {
      var a, b := OffsetBinary(CountBytes(k)), OffsetBinary(CountBytes(l));
      assert NewKey(k)[..8] == k[..8] && NewKey(l)[..8] == l[..8];
      assert NewKey(k)[8..] == a && NewKey(l)[8..] == b;
      OffsetShifts(CountBytes(k));
      OffsetShifts(CountBytes(l));
    }
  }

  lemma NewIsNotOld(k: Key, l: Key)
    requires Bounded(k) && Bounded(l)
    ensures NewKey(k) != l
  {
    TopByte(CountBytes(k));
    TopByte(CountBytes(l));
    if |l| == 16 {
      assert NewKey(k)[8] == OffsetBinary(CountBytes(k))[0];
      assert CountBytes(l)[0] == l[8];
    }
  }

  /** From consistent old-format tables with counts below 2^62, one pass loses and merges no
      event and puts every event on a 16-byte key. */
  lemma RekeyLosesNothing(t: Tables, ids: seq<EventId>)
    requires Inverse(t) && Scans(ids, t.pduIds)
    requires BoundedRows(t.pduIds)
    ensures var done := Rekey(t, t.pduIds, ids);
            && Inverse(done)
            && done.pduIds.Keys == t.pduIds.Keys
            && forall e :: e in t.pduIds ==> |done.pduIds[e]| == 16 && done.pduIds[e] == NewKey(t.pduIds[e])
  {
    BoundedCountsAreSafe(t.pduIds, ids);
    RekeyExact(t, ids);
  }

  /** Within a room, byte order of the new keys is signed order of the counts. */
  lemma NewKeyOrder(k: Key, l: Key)
    requires NeedsMigration(k) && NeedsMigration(l) && k[..8] == l[..8]
    ensures Less(NewKey(k), NewKey(l)) <==> Count(k) < Count(l)
  {
    LessCancel(k[..8], OffsetBinary(CountBytes(k)), OffsetBinary(CountBytes(l)));
    BeOrder(OffsetBinary(CountBytes(k)), OffsetBinary(CountBytes(l)));
    OffsetShifts(CountBytes(k));
    OffsetShifts(CountBytes(l));
  }

  lemma OffsetShifts(c: Key)
    requires |c| == 8
    ensures BeNat(OffsetBinary(c)) == BeInt(c) + 128 * Pow256(7)
  {
    var p, r := Pow256(7), OffsetBinary(c);
    assert r[1..] == c[1..];
    assert BeNat(c) == c[0] * p + BeNat(c[1..]) && BeNat(r) == r[0] * p + BeNat(r[1..]);
    assert Pow256(8) == 256 * p;
    ShiftDigit(c[0], p);
  }

  lemma ShiftDigit(d: byte, p: nat)
    ensures d < 128 ==> (d + 128) * p == d * p + 128 * p
    ensures d >= 128 ==> (d - 128) * p == d * p - 128 * p
  {
  }

  // ---------- the same by layout ----------

  const HALF: int := 128 * Pow256(7)        // 2^63
  const ZEROS: Key := [0, 0, 0, 0, 0, 0, 0, 0]

  /** Where an event is: its room, its count, and whether it was backfilled. */
  datatype Position = Position(room: Key, count: int, backfilled: bool)

  /** `k` is the old key of a position: room, eight zero bytes if backfilled, and the count in
      two's complement, which is not negative unless backfilled. */
  ghost predicate OldKey(k: Key, p: Position)
  {
    && |p.room| == 8 && FitsSigned(p.count, 8) && (p.count >= 0 || p.backfilled)
    && k == p.room + (if p.backfilled then ZEROS else []) + SignedBytes(p.count, 8)
  }

  lemma OldKeyReads(k: Key, p: Position)
    requires OldKey(k, p)
    ensures NeedsMigration(k) && CountBytes(k) == SignedBytes(p.count, 8) && k[..8] == p.room && OldFormat(k)
    ensures Count(k) == p.count
  {
    var c := SignedBytes(p.count, 8);
    SignedRoundTrip(p.count, 8);
    assert k[..8] == p.room;
    if p.backfilled {
      assert k[8..16] == ZEROS && k[16..24] == c;
    } else {
      assert k[8..16] == c && k[8] == c[0];
      assert c[0] >= 128 ==> BeInt(c) < 0;
    }
  }

  lemma OffsetOf(c: Key, n: int)
    requires |c| == 8 && BeInt(c) == n
    ensures 0 <= n + HALF < Pow256(8) && OffsetBinary(c) == BeBytes(n + HALF, 8)
  {
    OffsetShifts(c);
    BeRoundTrip(n + HALF, 8);
    BeOrder(OffsetBinary(c), BeBytes(n + HALF, 8));
  }

  /** Every old key moves to the room and the count offset by 2^63. */
  lemma OldKeyMoves(k: Key, p: Position)
    requires OldKey(k, p)
    ensures 0 <= p.count + HALF < Pow256(8) && NewKey(k) == p.room + BeBytes(p.count + HALF, 8)
  {
    OldKeyReads(k, p);
    OffsetOf(CountBytes(k), p.count);
  }

  /** Keys of other lengths, and 16-byte keys whose count has its sign bit set, stay. */
  lemma OthersStay(k: Key)
    requires (|k| != 16 && |k| != 24) || (|k| == 16 && BeInt(k[8..16]) < 0)
    ensures NewKey(k) == k
  {
    if |k| == 16 { assert k[8..16][0] == k[8]; }
  }

  /** Every event has an old key at its position, with a count below 2^62, and no two events share a
      room and a count. */
  ghost predicate OldTables(rows: map<EventId, Key>, at: map<EventId, Position>)
  {
    && (forall e :: e in rows ==> e in at && OldKey(rows[e], at[e]) && -QUARTER <= at[e].count < QUARTER)
    && (forall e, f :: e in rows && f in rows && e != f ==> at[e].room != at[f].room || at[e].count != at[f].count)
  }

  lemma OldTablesAreBounded(rows: map<EventId, Key>, at: map<EventId, Position>)
    requires OldTables(rows, at)
    ensures BoundedRows(rows) && forall e :: e in rows ==> NeedsMigration(rows[e])
  {
    forall e | e in rows
      ensures Bounded(rows[e]) && rows[e][..8] == at[e].room && Count(rows[e]) == at[e].count
    {
      OldKeyReads(rows[e], at[e]);
    }
  }

  lemma {:induction false} AllOutdated(rows: map<EventId, Key>, ids: seq<EventId>)
    requires forall e :: e in ids ==> e in rows && NeedsMigration(rows[e])
    ensures Outdated(rows, ids) == |ids|
    decreases |ids|
  {
    if ids != [] { AllOutdated(rows, ids[1..]); }
  }

  /** One pass over consistent old tables puts every event on its room and offset count, keeps the
      tables inverse, and migrates every row. */
  lemma RekeyByLayout(t: Tables, ids: seq<EventId>, at: map<EventId, Position>)
    requires Inverse(t) && Scans(ids, t.pduIds) && OldTables(t.pduIds, at)
    ensures var done := Rekey(t, t.pduIds, ids);
            && Inverse(done) && done.pduIds.Keys == t.pduIds.Keys
            && (forall e :: e in t.pduIds ==>
                  0 <= at[e].count + HALF < Pow256(8)
                  && done.pduIds[e] == at[e].room + BeBytes(at[e].count + HALF, 8))
    ensures Outdated(t.pduIds, ids) == |ids|
  {
    OldTablesAreBounded(t.pduIds, at);
    RekeyLosesNothing(t, ids);
    AllOutdated(t.pduIds, ids);
    forall e | e in t.pduIds
      ensures 0 <= at[e].count + HALF < Pow256(8) && NewKey(t.pduIds[e]) == at[e].room + BeBytes(at[e].count + HALF, 8)
    {
      OldKeyMoves(t.pduIds[e], at[e]);
    }
  }

  lemma BytesOrder(room: Key, m: nat, n: nat)
    requires m < Pow256(8) && n < Pow256(8)
    ensures Less(room + BeBytes(m, 8), room + BeBytes(n, 8)) <==> m < n
  {
    LessCancel(room, BeBytes(m, 8), BeBytes(n, 8));
    BeOrder(BeBytes(m, 8), BeBytes(n, 8));
    BeRoundTrip(m, 8);
    BeRoundTrip(n, 8);
  }

  /** Offset counts sort by signed value within a room. */
  lemma PositionOrder(room: Key, a: int, b: int)
    requires 0 <= a + HALF < Pow256(8) && 0 <= b + HALF < Pow256(8)
    ensures Less(room + BeBytes(a + HALF, 8), room + BeBytes(b + HALF, 8)) <==> a < b
  {
    BytesOrder(room, a + HALF, b + HALF);
  }

  /** Without the bound an event can be lost: a backfilled count of -1 re-encodes to the old
      key of the normal count 2^63 - 1 in the same room. */
  lemma ExtremeCountsCollide(room: Key, e: EventId, f: EventId)
    requires |room| == 8 && e != f
    ensures var k := room + [0, 0, 0, 0, 0, 0, 0, 0] + [255, 255, 255, 255, 255, 255, 255, 255];
            var l := room + [127, 255, 255, 255, 255, 255, 255, 255];
            var t := Tables(map[e := k, f := l], map[k := e, l := f]);
            Inverse(t) && Scans([e, f], t.pduIds) && !Inverse(Rekey(t, t.pduIds, [e, f]))
  {
    var k := room + [0, 0, 0, 0, 0, 0, 0, 0] + [255, 255, 255, 255, 255, 255, 255, 255];
    var l := room + [127, 255, 255, 255, 255, 255, 255, 255];
    var t := Tables(map[e := k, f := l], map[k := e, l := f]);
    assert |k| == 24 && |l| == 16 && l[8] == 127;
    assert k[..8] == room && CountBytes(k) == [255, 255, 255, 255, 255, 255, 255, 255];
    assert NewKey(k) == l;
    RekeyExact(t, [e, f]);
    assert [e, f][0] == e && [e, f][1] == f;
    assert !NoOvertaking(t.pduIds, [e, f]);
  }
}
