/** Event verdict migrations `db_lt_19` and `db_lt_21` (src/service/migrations.rs).

    A migration is modelled as the sequence of atomic writes it issues, so that a
    crash leaves the tables after some prefix of that sequence. Committing an empty
    batch changes nothing and is not counted as a write. */
module VerdictFold {
  import opened Bytes

  type EventId = Key

  const SOFT_FAIL_UNKNOWN: byte := 3
  const REJECTION_UNKNOWN: byte := 11

  datatype Core = Core(
    shortRoomId: nat, isOutlier: bool, originServerTs: nat, depth: nat,
    redactedBy: Option<EventId>, shortStateHash: Option<nat>)

  datatype Metadata = Metadata(core: Core, topoDepth: nat, pduCount: Option<nat>)

  datatype EventStatus = Pending | Accepted | Rejected(code: byte) | SoftFailed(code: byte)

  /** An `eventid_metadata` row, tagged with the layout it parses as. */
  datatype Row =
    | V18(core: Core, softFailed: bool, rejected: bool)
    | V19(meta: Metadata, softFailed: bool, rejected: bool)
    | V20(meta: Metadata, status: EventStatus)
    | V21(meta: Metadata)
    | Corrupt(bytes: Key)

  datatype Verdicts = Verdicts(rejections: map<EventId, Key>, softFailed: map<EventId, Key>)

  datatype Tables = Tables(
    listed: Option<seq<EventId>>,   // softfailedeventids, in scan order, until dropped
    status: map<EventId, Key>,      // eventid_status
    verdicts: Verdicts,
    metadata: map<EventId, Row>)

  datatype Write =
    | PutStatus(ids: seq<EventId>)
    | DropListed
    | PutRejection(id: EventId, value: Key)
    | PutSoftFailed(id: EventId, value: Key)
    | PutMetadata(rows: seq<(EventId, Row)>)

  /** The order in which the two scanned tables are streamed. */
  datatype Order = Order(status: seq<EventId>, metadata: seq<EventId>)

  ghost predicate Distinct(ids: seq<EventId>)
  {
    forall i, j :: 0 <= i < j < |ids| ==> ids[i] != ids[j]
  }

  ghost predicate Scans<V>(ids: seq<EventId>, table: map<EventId, V>)
  {
    Distinct(ids) && forall e :: e in ids <==> e in table
  }

  ghost predicate ValidOrder(t: Tables, o: Order)
  {
    Scans(o.status, t.status) && Scans(o.metadata, t.metadata)
  }

  // ---------- effect of a write ----------

  function ApplyVerdict(v: Verdicts, w: Write): Verdicts
  {
    match w
    case PutRejection(e, x) => v.(rejections := v.rejections[e := x])
    case PutSoftFailed(e, x) => v.(softFailed := v.softFailed[e := x])
    case _ => v
  }

  function ApplyVerdicts(v: Verdicts, ws: seq<Write>): Verdicts
    decreases |ws|
  {
    if ws == [] then v else ApplyVerdicts(ApplyVerdict(v, ws[0]), ws[1..])
  }

  function PutRows(m: map<EventId, Row>, rows: seq<(EventId, Row)>): (r: map<EventId, Row>)
    ensures m.Keys <= r.Keys
    decreases |rows|
  {
    if rows == [] then m else PutRows(m[rows[0].0 := rows[0].1], rows[1..])
  }

  function PutUnknown(s: map<EventId, Key>, ids: seq<EventId>): (r: map<EventId, Key>)
    ensures r.Keys == s.Keys + set e | e in ids
    ensures forall e :: e in r ==> r[e] == if e in ids then [1, SOFT_FAIL_UNKNOWN] else s[e]
    decreases |ids|
  {
    if ids == [] then s else PutUnknown(s[ids[0] := [1, SOFT_FAIL_UNKNOWN]], ids[1..])
  }

  function Apply(t: Tables, w: Write): Tables
  {
    match w
    case PutStatus(ids) => t.(status := PutUnknown(t.status, ids))
    case DropListed => t.(listed := None)
    case PutMetadata(rows) => t.(metadata := PutRows(t.metadata, rows))
    case _ => t.(verdicts := ApplyVerdict(t.verdicts, w))
  }

  function ApplyAll(t: Tables, ws: seq<Write>): Tables
    decreases |ws|
  {
    if ws == [] then t else ApplyAll(Apply(t, ws[0]), ws[1..])
  }

  lemma {:induction false} ApplyAllSplit(t: Tables, a: seq<Write>, b: seq<Write>)
    ensures ApplyAll(t, a + b) == ApplyAll(ApplyAll(t, a), b)
    decreases |a|
  {
    if a == [] {
      assert a + b == b;
    } else {
      assert (a + b)[1..] == a[1..] + b;
      ApplyAllSplit(Apply(t, a[0]), a[1..], b);
    }
  }

  lemma {:induction false} ApplyVerdictsSplit(v: Verdicts, a: seq<Write>, b: seq<Write>)
    ensures ApplyVerdicts(v, a + b) == ApplyVerdicts(ApplyVerdicts(v, a), b)
    decreases |a|
  {
    if a == [] {
      assert a + b == b;
    } else {
      assert (a + b)[1..] == a[1..] + b;
      ApplyVerdictsSplit(ApplyVerdict(v, a[0]), a[1..], b);
    }
  }

  lemma {:induction false} ApplyAllVerdicts(t: Tables, ws: seq<Write>)
    ensures ApplyAll(t, ws).verdicts == ApplyVerdicts(t.verdicts, ws)
    decreases |ws|
  {
    if ws != [] { ApplyAllVerdicts(Apply(t, ws[0]), ws[1..]); }
  }

  // ---------- what db_lt_21 writes ----------

  function Rejection(row: Row): Option<byte>
  {
    match row
    case V18(_, _, rejected) => if rejected then Some(REJECTION_UNKNOWN) else None
    case V19(_, _, rejected) => if rejected then Some(REJECTION_UNKNOWN) else None
    case V20(_, status) => if status.Rejected? then Some(status.code) else None
    case _ => None
  }

  function SoftFail(row: Row): Option<byte>
  {
    match row
    case V18(_, softFailed, _) => if softFailed then Some(SOFT_FAIL_UNKNOWN) else None
    case V19(_, softFailed, _) => if softFailed then Some(SOFT_FAIL_UNKNOWN) else None
    case V20(_, status) => if status.SoftFailed? then Some(status.code) else None
    case _ => None
  }

  /** The row in the status-less layout; a corrupt row has none. */
  function Stripped(row: Row): Row
  {
    match row
    case V18(core, _, _) => V21(Metadata(core, 0, None))
    case V19(meta, _, _) => V21(meta)
    case V20(meta, _) => V21(meta)
    case _ => row
  }

  function StatusWrite(v: Verdicts, e: EventId, value: Key): seq<Write>
  {
    if |value| < 2 then []
    else if value[0] == 1 && e !in v.softFailed then [PutSoftFailed(e, [value[1]])]
    else if value[0] == 2 && e !in v.rejections then [PutRejection(e, [value[1]])]
    else []
  }

  function StatusRun(v: Verdicts, status: map<EventId, Key>, ids: seq<EventId>): seq<Write>
    requires forall e :: e in ids ==> e in status
    decreases |ids|
  {
    if ids == [] then []
    else
      var w := StatusWrite(v, ids[0], status[ids[0]]);
      w + StatusRun(ApplyVerdicts(v, w), status, ids[1..])
  }

  function VerdictWrites(v: Verdicts, e: EventId, row: Row): seq<Write>
  {
    (if Rejection(row).Some? && e !in v.rejections
     then [PutRejection(e, [Rejection(row).value])] else []) +
    (if SoftFail(row).Some? && e !in v.softFailed
     then [PutSoftFailed(e, [SoftFail(row).value])] else [])
  }

  function Flush(batch: seq<(EventId, Row)>): seq<Write>
  {
    if batch == [] then [] else [PutMetadata(batch)]
  }

  /** A batch is committed, and a new one begun, once it holds `limit` rows. */
  function Committed(batch: seq<(EventId, Row)>, limit: nat): seq<Write>
  {
    if |batch| >= limit then [PutMetadata(batch)] else []
  }

  function Leftover(batch: seq<(EventId, Row)>, limit: nat): seq<(EventId, Row)>
  {
    if |batch| >= limit then [] else batch
  }

  /** The metadata scan over the snapshot `m`: verdicts are inserted row by row, rewritten
      rows are committed `limit` at a time, and a corrupt row aborts with its batch dropped. */
  function MetaRun(v: Verdicts, m: map<EventId, Row>, ids: seq<EventId>,
                   batch: seq<(EventId, Row)>, limit: nat): seq<Write>
    requires forall e :: e in ids ==> e in m
    decreases |ids|
  {
    if ids == [] then Flush(batch)
    else
      var e, row := ids[0], m[ids[0]];
      if row.Corrupt? then []
      else if row.V21? then MetaRun(v, m, ids[1..], batch, limit)
      else
        var w := VerdictWrites(v, e, row);
        var b := batch + [(e, Stripped(row))];
        w + Committed(b, limit) + MetaRun(ApplyVerdicts(v, w), m, ids[1..], Leftover(b, limit), limit)
  }

  /** Every atomic write of `db_lt_21`, in order. */
  function Run(t: Tables, o: Order, limit: nat): seq<Write>
    requires forall e :: e in o.status ==> e in t.status
    requires forall e :: e in o.metadata ==> e in t.metadata
  {
    var s := StatusRun(t.verdicts, t.status, o.status);
    s + MetaRun(ApplyVerdicts(t.verdicts, s), t.metadata, o.metadata, [], limit)
  }

  ghost predicate AllRowsParse(t: Tables)
  {
    forall e :: e in t.metadata ==> !t.metadata[e].Corrupt?
  }

  // ---------- restarting resumes: the status scan ----------

  function SoftCode(value: Key): Option<Key>
  {
    if |value| >= 2 && value[0] == 1 then Some([value[1]]) else None
  }

  function RejectCode(value: Key): Option<Key>
  {
    if |value| >= 2 && value[0] == 2 then Some([value[1]]) else None
  }

  /** The write records a verdict its store did not have. */
  ghost predicate Missing(v: Verdicts, w: Write)
  {
    (w.PutSoftFailed? && w.id !in v.softFailed) || (w.PutRejection? && w.id !in v.rejections)
  }

  ghost predicate FromStatus(w: Write, status: map<EventId, Key>)
  {
    || (w.PutSoftFailed? && w.id in status && SoftCode(status[w.id]) == Some(w.value))
    || (w.PutRejection? && w.id in status && RejectCode(status[w.id]) == Some(w.value))
  }

  ghost predicate FromRow(w: Write, m: map<EventId, Row>)
  {
    || (w.PutSoftFailed? && w.id in m && SoftFail(m[w.id]).Some? && w.value == [SoftFail(m[w.id]).value])
    || (w.PutRejection? && w.id in m && Rejection(m[w.id]).Some? && w.value == [Rejection(m[w.id]).value])
  }

  lemma HeadTail(a: seq<Write>, b: seq<Write>)
    ensures a == [] ==> a + b == b
    ensures a != [] ==> (a + b)[0] == a[0] && (a + b)[1..] == a[1..] + b
  {
  }

  lemma EmptySum(a: seq<Write>, b: seq<Write>)
    requires a + b == []
    ensures a == [] && b == []
  {
    assert |a + b| == |a| + |b|;
  }

  /** The first write of a status scan is a verdict the store lacked, and a scan that
      starts after it issues exactly the remaining writes. */
  lemma {:induction false} StatusFirst(v: Verdicts, status: map<EventId, Key>, ids: seq<EventId>)
    requires forall e :: e in ids ==> e in status
    requires StatusRun(v, status, ids) != []
    ensures var ws := StatusRun(v, status, ids);
            && StatusRun(ApplyVerdict(v, ws[0]), status, ids) == ws[1..]
            && Missing(v, ws[0]) && FromStatus(ws[0], status)
  {
    var w := StatusWrite(v, ids[0], status[ids[0]]);
    var rest := StatusRun(ApplyVerdicts(v, w), status, ids[1..]);
    HeadTail(w, rest);
    if w == [] {
      StatusFirst(v, status, ids[1..]);
      assert StatusWrite(ApplyVerdict(v, rest[0]), ids[0], status[ids[0]]) == [];
      HeadTail([], rest[1..]);
    } else {
      assert ApplyVerdicts(v, w) == ApplyVerdict(v, w[0]);
      assert StatusWrite(ApplyVerdict(v, w[0]), ids[0], status[ids[0]]) == [];
    }
  }

  /** A scan that writes nothing finds every status verdict already in its store. */
  lemma {:induction false} StatusSettled(v: Verdicts, status: map<EventId, Key>, ids: seq<EventId>, e: EventId)
    requires forall x :: x in ids ==> x in status
    requires StatusRun(v, status, ids) == [] && e in ids
    ensures SoftCode(status[e]).Some? ==> e in v.softFailed
    ensures RejectCode(status[e]).Some? ==> e in v.rejections
  {
    assert StatusWrite(v, ids[0], status[ids[0]]) == [];
    if e != ids[0] { StatusSettled(v, status, ids[1..], e); }
  }

  lemma {:induction false} StatusStaysSettled(v: Verdicts, v': Verdicts, status: map<EventId, Key>, ids: seq<EventId>)
    requires forall e :: e in ids ==> e in status
    requires StatusRun(v, status, ids) == []
    requires v.rejections.Keys <= v'.rejections.Keys && v.softFailed.Keys <= v'.softFailed.Keys
    ensures StatusRun(v', status, ids) == []
  {
    if ids != [] {
      assert StatusWrite(v, ids[0], status[ids[0]]) == [];
      StatusStaysSettled(v, v', status, ids[1..]);
    }
  }

  // ---------- restarting resumes: the metadata scan ----------

  /** A row's verdict writes shrink by one once the first of them is applied. */
  lemma RowVerdicts(v: Verdicts, e: EventId, row: Row, x: Write)
    ensures VerdictWrites(v, e, row) == [] ==> VerdictWrites(ApplyVerdict(v, x), e, row) == []
    ensures var w := VerdictWrites(v, e, row);
            w != [] ==>
              && VerdictWrites(ApplyVerdict(v, w[0]), e, row) == w[1..]
              && ApplyVerdicts(ApplyVerdict(v, w[0]), w[1..]) == ApplyVerdicts(v, w)
              && Missing(v, w[0]) && FromRow(w[0], map[e := row])
  {
  }

  /** When the first write is a verdict, it comes from a row whose store lacked it, and a
      scan that starts after it issues exactly the remaining writes. */
  lemma {:induction false} MetaVerdictFirst(
    v: Verdicts, m: map<EventId, Row>, ids: seq<EventId>, batch: seq<(EventId, Row)>, limit: nat)
    requires forall e :: e in ids ==> e in m
    requires var ws := MetaRun(v, m, ids, batch, limit); ws != [] && !ws[0].PutMetadata?
    ensures var ws := MetaRun(v, m, ids, batch, limit);
            && MetaRun(ApplyVerdict(v, ws[0]), m, ids, batch, limit) == ws[1..]
            && Missing(v, ws[0]) && FromRow(ws[0], m)
    decreases |ids|
  {
    var e, row := ids[0], m[ids[0]];
    if row.V21? {
      MetaVerdictFirst(v, m, ids[1..], batch, limit);
    } else {
      var w := VerdictWrites(v, e, row);
      var b := batch + [(e, Stripped(row))];
      var c := Committed(b, limit);
      var rest := MetaRun(ApplyVerdicts(v, w), m, ids[1..], Leftover(b, limit), limit);
      if w == [] {
        assert c == [];
        assert w + c + rest == rest;
        MetaVerdictFirst(v, m, ids[1..], b, limit);
        RowVerdicts(v, e, row, rest[0]);
        assert [] + c + rest[1..] == rest[1..];
      } else {
        RowVerdicts(v, e, row, w[0]);
        HeadTail(w, c);
        HeadTail(w + c, rest);
      }
    }
  }

  ghost predicate KeyIn(e: EventId, rows: seq<(EventId, Row)>)
  {
    exists i :: 0 <= i < |rows| && rows[i].0 == e
  }

  ghost predicate DistinctKeys(rows: seq<(EventId, Row)>)
  {
    forall i, j :: 0 <= i < j < |rows| ==> rows[i].0 != rows[j].0
  }

  lemma {:induction false} PutRowsAt(m: map<EventId, Row>, rows: seq<(EventId, Row)>, e: EventId)
    requires DistinctKeys(rows)
    ensures !KeyIn(e, rows) ==> (e in PutRows(m, rows) <==> e in m)
    ensures !KeyIn(e, rows) && e in m ==> PutRows(m, rows)[e] == m[e]
    ensures forall i :: 0 <= i < |rows| && rows[i].0 == e ==>
                          e in PutRows(m, rows) && PutRows(m, rows)[e] == rows[i].1
    decreases |rows|
  {
    if rows != [] {
      var tail := rows[1..];
      assert forall i :: 0 <= i < |tail| ==> tail[i] == rows[i + 1];
      PutRowsAt(m[rows[0].0 := rows[0].1], tail, e);
      assert KeyIn(e, rows) <==> rows[0].0 == e || KeyIn(e, tail) by {
        if KeyIn(e, tail) { var i :| 0 <= i < |tail| && tail[i].0 == e; assert rows[i + 1].0 == e; }
        if KeyIn(e, rows) && rows[0].0 != e {
          var i :| 0 <= i < |rows| && rows[i].0 == e;
          assert tail[i - 1].0 == e;
        }
      }
      assert KeyIn(rows[0].0, tail) ==> !DistinctKeys(rows);
      forall i | 0 <= i < |rows| && rows[i].0 == e
        ensures e in PutRows(m, rows) && PutRows(m, rows)[e] == rows[i].1
      {
        if i > 0 { assert tail[i - 1] == rows[i]; }
      }
    }
  }

  lemma {:induction false} MetaFrame(
    v: Verdicts, m: map<EventId, Row>, m': map<EventId, Row>, ids: seq<EventId>,
    batch: seq<(EventId, Row)>, limit: nat)
    requires forall e :: e in ids ==> e in m && e in m' && m[e] == m'[e]
    ensures MetaRun(v, m, ids, batch, limit) == MetaRun(v, m', ids, batch, limit)
    decreases |ids|
  {
    if ids != [] {
      var e, row := ids[0], m[ids[0]];
      var b := batch + [(e, Stripped(row))];
      MetaFrame(v, m, m', ids[1..], batch, limit);
      MetaFrame(ApplyVerdicts(v, VerdictWrites(v, e, row)), m, m', ids[1..], Leftover(b, limit), limit);
    }
  }

  /** The rows a flush may carry: the pending batch, then rows of this scan whose
      verdicts are already stored. */
  ghost predicate Flushable(v: Verdicts, m: map<EventId, Row>, ids: seq<EventId>,
                            batch: seq<(EventId, Row)>, rows: seq<(EventId, Row)>)
    requires forall e :: e in ids ==> e in m
  {
    && batch <= rows
    && DistinctKeys(rows)
    && (forall i :: |batch| <= i < |rows| ==>
          && rows[i].0 in ids
          && rows[i].1 == Stripped(m[rows[i].0])
          && (Rejection(m[rows[i].0]).Some? ==> rows[i].0 in v.rejections)
          && (SoftFail(m[rows[i].0]).Some? ==> rows[i].0 in v.softFailed))
  }

  /** When the first write is a flush, a scan of the flushed table skips the flushed rows
      and issues exactly the remaining writes. */
  lemma {:induction false} MetaFlushFirst(
    v: Verdicts, m: map<EventId, Row>, ids: seq<EventId>, batch: seq<(EventId, Row)>, limit: nat)
    requires forall e :: e in ids ==> e in m
    requires Distinct(ids) && DistinctKeys(batch)
    requires forall i :: 0 <= i < |batch| ==> batch[i].0 !in ids
    requires var ws := MetaRun(v, m, ids, batch, limit); ws != [] && ws[0].PutMetadata?
    ensures var ws := MetaRun(v, m, ids, batch, limit);
            && MetaRun(v, PutRows(m, ws[0].rows), ids, [], limit) == ws[1..]
            && Flushable(v, m, ids, batch, ws[0].rows)
    decreases |ids|
  {
    if ids != [] {
      var e, row, tail := ids[0], m[ids[0]], ids[1..];
      InTail(ids);
      assert Distinct(tail);
      if row.V21? {
        MetaFlushFirst(v, m, tail, batch, limit);
        var rows := MetaRun(v, m, tail, batch, limit)[0].rows;
        NotFlushed(v, m, tail, batch, rows, e);
        PutRowsAt(m, rows, e);
        SkipRewritten(v, PutRows(m, rows), ids, limit);
      } else {
        assert VerdictWrites(v, e, row) == [];
        var b := batch + [(e, Stripped(row))];
        if |b| >= limit {
          FlushNow(v, m, ids, batch, limit);
        } else {
          AddToBatch(v, m, ids, batch, limit);
          MetaFlushFirst(v, m, tail, b, limit);
          var rows := MetaRun(v, m, tail, b, limit)[0].rows;
          WidenFlush(v, m, ids, batch, rows);
          PutRowsAt(m, rows, e);
          SkipRewritten(v, PutRows(m, rows), ids, limit);
        }
      }
    }
  }

  /** A flush of the scan's tail, with the head row pending, is one of the whole scan. */
  lemma WidenFlush(v: Verdicts, m: map<EventId, Row>, ids: seq<EventId>,
                   batch: seq<(EventId, Row)>, rows: seq<(EventId, Row)>)
    requires ids != [] && (forall e :: e in ids ==> e in m) && Distinct(ids)
    requires VerdictWrites(v, ids[0], m[ids[0]]) == []
    requires Flushable(v, m, ids[1..], batch + [(ids[0], Stripped(m[ids[0]]))], rows)
    ensures Flushable(v, m, ids, batch, rows)
    ensures |batch| < |rows| && rows[|batch|] == (ids[0], Stripped(m[ids[0]]))
  {
    var b := batch + [(ids[0], Stripped(m[ids[0]]))];
    assert rows[..|b|] == b && rows[..|batch|] == b[..|batch|] == batch;
    assert rows[|batch|] == b[|batch|];
  }

  lemma SkipRewritten(v: Verdicts, m: map<EventId, Row>, ids: seq<EventId>, limit: nat)
    requires ids != [] && (forall e :: e in ids ==> e in m) && m[ids[0]].V21?
    ensures MetaRun(v, m, ids, [], limit) == MetaRun(v, m, ids[1..], [], limit)
  {
  }

  lemma AddToBatch(
    v: Verdicts, m: map<EventId, Row>, ids: seq<EventId>, batch: seq<(EventId, Row)>, limit: nat)
    requires ids != [] && forall e :: e in ids ==> e in m
    requires !m[ids[0]].V21? && !m[ids[0]].Corrupt? && VerdictWrites(v, ids[0], m[ids[0]]) == []
    requires |batch| + 1 < limit
    ensures MetaRun(v, m, ids, batch, limit) ==
              MetaRun(v, m, ids[1..], batch + [(ids[0], Stripped(m[ids[0]]))], limit)
  {
    HeadTail([], MetaRun(v, m, ids[1..], batch + [(ids[0], Stripped(m[ids[0]]))], limit));
  }

  lemma InTail(ids: seq<EventId>)
    requires Distinct(ids) && ids != []
    ensures forall x :: x in ids[1..] ==> x in ids && x != ids[0]
    ensures forall x :: x in ids ==> x == ids[0] || x in ids[1..]
  {
    forall x | x in ids[1..] ensures x in ids && x != ids[0] {
      var i :| 0 <= i < |ids[1..]| && ids[1..][i] == x;
      assert ids[i + 1] == x;
    }
    assert ids == [ids[0]] + ids[1..];
  }

  lemma FlushNow(
    v: Verdicts, m: map<EventId, Row>, ids: seq<EventId>, batch: seq<(EventId, Row)>, limit: nat)
    requires ids != [] && forall e :: e in ids ==> e in m
    requires Distinct(ids) && DistinctKeys(batch)
    requires forall i :: 0 <= i < |batch| ==> batch[i].0 !in ids
    requires !m[ids[0]].V21? && !m[ids[0]].Corrupt? && VerdictWrites(v, ids[0], m[ids[0]]) == []
    requires |batch| + 1 >= limit
    ensures var b := batch + [(ids[0], Stripped(m[ids[0]]))];
            && MetaRun(v, m, ids, batch, limit) == [PutMetadata(b)] + MetaRun(v, m, ids[1..], [], limit)
            && MetaRun(v, PutRows(m, b), ids, [], limit) == MetaRun(v, m, ids[1..], [], limit)
            && Flushable(v, m, ids, batch, b)
  {
    var b := batch + [(ids[0], Stripped(m[ids[0]]))];
    InTail(ids);
    HeadTail([], [PutMetadata(b)]);
    forall x | x in ids[1..] ensures x in PutRows(m, b) && PutRows(m, b)[x] == m[x] {
      PutRowsAt(m, b, x);
    }
    MetaFrame(v, m, PutRows(m, b), ids[1..], [], limit);
    assert b[|batch|].0 == ids[0];
    PutRowsAt(m, b, ids[0]);
  }

  lemma NotFlushed(v: Verdicts, m: map<EventId, Row>, ids: seq<EventId>,
                   batch: seq<(EventId, Row)>, rows: seq<(EventId, Row)>, e: EventId)
    requires forall x :: x in ids ==> x in m
    requires Flushable(v, m, ids, batch, rows)
    requires e !in ids && forall i :: 0 <= i < |batch| ==> batch[i].0 != e
    ensures !KeyIn(e, rows)
  {
    forall i | 0 <= i < |rows| ensures rows[i].0 != e {
      if i < |batch| { assert rows[i] == batch[i]; }
    }
  }

  // ---------- restarting resumes: the whole migration ----------

  /** What the first write of a run can be: a verdict from `eventid_status`, or, once every
      status verdict is stored, a verdict from a row or a flush of rows with stored verdicts. */
  ghost predicate FirstWrite(t: Tables, o: Order, w: Write)
    requires ValidOrder(t, o)
  {
    || (Missing(t.verdicts, w) && FromStatus(w, t.status))
    || (StatusStored(t) && Missing(t.verdicts, w) && FromRow(w, t.metadata))
    || (StatusStored(t) && w.PutMetadata? && Flushable(t.verdicts, t.metadata, o.metadata, [], w.rows))
  }

  ghost predicate StatusStored(t: Tables)
  {
    forall e :: e in t.status ==>
      && (SoftCode(t.status[e]).Some? ==> e in t.verdicts.softFailed)
      && (RejectCode(t.status[e]).Some? ==> e in t.verdicts.rejections)
  }

  lemma NoStatusRun(t: Tables, o: Order)
    requires ValidOrder(t, o) && StatusRun(t.verdicts, t.status, o.status) == []
    ensures StatusStored(t)
  {
    forall e | e in t.status
      ensures SoftCode(t.status[e]).Some? ==> e in t.verdicts.softFailed
      ensures RejectCode(t.status[e]).Some? ==> e in t.verdicts.rejections
    {
      StatusSettled(t.verdicts, t.status, o.status, e);
    }
  }

  lemma ResumeStatus(t: Tables, o: Order, limit: nat, s: seq<Write>, ws: seq<Write>)
    requires ValidOrder(t, o) && s == StatusRun(t.verdicts, t.status, o.status) != []
    requires ws == Run(t, o, limit)
    ensures ws != [] && FirstWrite(t, o, ws[0])
    ensures ValidOrder(Apply(t, ws[0]), o) && Run(Apply(t, ws[0]), o, limit) == ws[1..]
  {
    StatusFirst(t.verdicts, t.status, o.status);
    var rest := MetaRun(ApplyVerdicts(t.verdicts, s), t.metadata, o.metadata, [], limit);
    HeadTail(s, rest);
    assert ApplyVerdicts(t.verdicts, s) == ApplyVerdicts(ApplyVerdict(t.verdicts, s[0]), s[1..]);
  }

  lemma NoStatusIsMeta(t: Tables, o: Order, limit: nat)
    requires ValidOrder(t, o) && StatusRun(t.verdicts, t.status, o.status) == []
    ensures Run(t, o, limit) == MetaRun(t.verdicts, t.metadata, o.metadata, [], limit)
  {
    HeadTail([], MetaRun(t.verdicts, t.metadata, o.metadata, [], limit));
  }

  lemma ResumeFlush(t: Tables, o: Order, limit: nat, ws: seq<Write>)
    requires ValidOrder(t, o) && StatusRun(t.verdicts, t.status, o.status) == []
    requires ws == MetaRun(t.verdicts, t.metadata, o.metadata, [], limit) && ws != [] && ws[0].PutMetadata?
    ensures Flushable(t.verdicts, t.metadata, o.metadata, [], ws[0].rows)
    ensures var t' := Apply(t, ws[0]);
            ValidOrder(t', o) && StatusRun(t'.verdicts, t'.status, o.status) == []
            && MetaRun(t'.verdicts, t'.metadata, o.metadata, [], limit) == ws[1..]
  {
    MetaFlushFirst(t.verdicts, t.metadata, o.metadata, [], limit);
    FlushKeepsKeys(t, o, ws[0].rows);
  }

  lemma ResumeVerdict(t: Tables, o: Order, limit: nat, ws: seq<Write>)
    requires ValidOrder(t, o) && StatusRun(t.verdicts, t.status, o.status) == []
    requires ws == MetaRun(t.verdicts, t.metadata, o.metadata, [], limit) && ws != [] && !ws[0].PutMetadata?
    ensures Missing(t.verdicts, ws[0]) && FromRow(ws[0], t.metadata)
    ensures var t' := Apply(t, ws[0]);
            ValidOrder(t', o) && StatusRun(t'.verdicts, t'.status, o.status) == []
            && MetaRun(t'.verdicts, t'.metadata, o.metadata, [], limit) == ws[1..]
  {
    MetaVerdictFirst(t.verdicts, t.metadata, o.metadata, [], limit);
    StatusStaysSettled(t.verdicts, ApplyVerdict(t.verdicts, ws[0]), t.status, o.status);
  }

  lemma ResumeMeta(t: Tables, o: Order, limit: nat, ws: seq<Write>)
    requires ValidOrder(t, o) && StatusRun(t.verdicts, t.status, o.status) == []
    requires ws == MetaRun(t.verdicts, t.metadata, o.metadata, [], limit) && ws != []
    ensures FirstWrite(t, o, ws[0])
    ensures ValidOrder(Apply(t, ws[0]), o) && Run(Apply(t, ws[0]), o, limit) == ws[1..]
  {
    NoStatusRun(t, o);
    if ws[0].PutMetadata? { ResumeFlush(t, o, limit, ws); } else { ResumeVerdict(t, o, limit, ws); }
    NoStatusIsMeta(Apply(t, ws[0]), o, limit);
  }

  lemma FlushKeepsKeys(t: Tables, o: Order, rows: seq<(EventId, Row)>)
    requires ValidOrder(t, o) && Flushable(t.verdicts, t.metadata, o.metadata, [], rows)
    ensures PutRows(t.metadata, rows).Keys == t.metadata.Keys
  {
    forall e ensures e in PutRows(t.metadata, rows) <==> e in t.metadata {
      PutRowsAt(t.metadata, rows, e);
      if KeyIn(e, rows) { var i :| 0 <= i < |rows| && rows[i].0 == e; }
    }
  }

  /** After the first write of a run, a fresh run issues exactly the rest. */
  lemma ResumeOne(t: Tables, o: Order, limit: nat)
    requires ValidOrder(t, o) && Run(t, o, limit) != []
    ensures FirstWrite(t, o, Run(t, o, limit)[0])
    ensures var t' := Apply(t, Run(t, o, limit)[0]);
            ValidOrder(t', o) && Run(t', o, limit) == Run(t, o, limit)[1..]
  {
    var s := StatusRun(t.verdicts, t.status, o.status);
    if s != [] {
      ResumeStatus(t, o, limit, s, Run(t, o, limit));
    } else {
      NoStatusIsMeta(t, o, limit);
      ResumeMeta(t, o, limit, Run(t, o, limit));
    }
  }

  // ---------- crash and restart, for any migration that resumes ----------

  /** `run` lists the writes a migration issues on a store satisfying `ok`. It resumes when
      after its first write a fresh run issues exactly the rest. */
  ghost predicate Resumes(ok: Tables -> bool, run: Tables -> seq<Write>)
  {
    forall t {:trigger Apply(t, run(t)[0])} :: ok(t) && run(t) != [] ==>
      ok(Apply(t, run(t)[0])) && run(Apply(t, run(t)[0])) == run(t)[1..]
  }

  /** Crash after any number of writes: restarting issues exactly the missing writes. */
  lemma {:induction false} RestartResumes(ok: Tables -> bool, run: Tables -> seq<Write>, t: Tables, k: nat)
    requires Resumes(ok, run) && ok(t) && k <= |run(t)|
    ensures var crashed := ApplyAll(t, run(t)[..k]);
            ok(crashed) && run(crashed) == run(t)[k..]
    ensures ApplyAll(ApplyAll(t, run(t)[..k]), run(t)[k..]) == ApplyAll(t, run(t))
    decreases k
  {
    var ws := run(t);
    ApplyAllSplit(t, ws[..k], ws[k..]);
    assert ws[..k] + ws[k..] == ws;
    if k > 0 {
      var t' := Apply(t, ws[0]);
      assert run(t') == ws[1..];
      RestartResumes(ok, run, t', k - 1);
      assert ws[..k][1..] == ws[1..][..k - 1] && ws[1..][k - 1..] == ws[k..];
    }
  }

  /** The store after crashing any number of times, at any point of each run. */
  function Crashes(run: Tables -> seq<Write>, t: Tables, ks: seq<nat>): Tables
    decreases |ks|
  {
    if ks == [] then t
    else
      var ws := run(t);
      Crashes(run, ApplyAll(t, ws[..if ks[0] <= |ws| then ks[0] else |ws|]), ks[1..])
  }

  /** However often the migration is interrupted, a final complete run ends with the
      tables one uninterrupted run would have produced. */
  lemma {:induction false} CrashRestartable(ok: Tables -> bool, run: Tables -> seq<Write>, t: Tables, ks: seq<nat>)
    requires Resumes(ok, run) && ok(t)
    ensures var crashed := Crashes(run, t, ks);
            ok(crashed) && ApplyAll(crashed, run(crashed)) == ApplyAll(t, run(t))
    decreases |ks|
  {
    if ks != [] {
      var ws := run(t);
      var k := if ks[0] <= |ws| then ks[0] else |ws|;
      RestartResumes(ok, run, t, k);
      CrashRestartable(ok, run, ApplyAll(t, ws[..k]), ks[1..]);
    }
  }

  /** What every first write keeps, every prefix of a run keeps. */
  lemma {:induction false} PrefixKeeps(
    ok: Tables -> bool, run: Tables -> seq<Write>, keeps: (Tables, Tables) -> bool, t: Tables, k: nat)
    requires Resumes(ok, run) && ok(t) && k <= |run(t)|
    requires forall a :: keeps(a, a)
    requires forall a, b, c {:trigger keeps(a, b), keeps(b, c)} :: keeps(a, b) && keeps(b, c) ==> keeps(a, c)
    requires forall a {:trigger Apply(a, run(a)[0])} :: ok(a) && run(a) != [] ==> keeps(a, Apply(a, run(a)[0]))
    ensures keeps(t, ApplyAll(t, run(t)[..k]))
    decreases k
  {
    var ws := run(t);
    if k > 0 {
      var t' := Apply(t, ws[0]);
      assert run(t') == ws[1..];
      PrefixKeeps(ok, run, keeps, t', k - 1);
      assert ws[..k][1..] == ws[1..][..k - 1];
    }
  }

  /** `db_lt_21` as such a migration. */
  ghost function Run21(o: Order, limit: nat): Tables -> seq<Write>
  {
    t => if ValidOrder(t, o) then Run(t, o, limit) else []
  }

  ghost function Valid21(o: Order): Tables -> bool
  {
    t => ValidOrder(t, o)
  }

  lemma Lt21Resumes(o: Order, limit: nat)
    ensures Resumes(Valid21(o), Run21(o, limit))
  {
    var run := Run21(o, limit);
    forall t {:trigger Apply(t, run(t)[0])} | Valid21(o)(t) && run(t) != []
      ensures Valid21(o)(Apply(t, run(t)[0])) && run(Apply(t, run(t)[0])) == run(t)[1..]
    {
      ResumeOne(t, o, limit);
    }
  }

  /** `db_lt_21` is crash-restartable: after any number of interruptions, each leaving any
      prefix of its writes, a complete run ends with the tables of one uninterrupted run. */
  lemma Lt21CrashRestartable(t: Tables, o: Order, limit: nat, ks: seq<nat>)
    requires ValidOrder(t, o)
    ensures var crashed := Crashes(Run21(o, limit), t, ks);
            && ValidOrder(crashed, o)
            && ApplyAll(crashed, Run(crashed, o, limit)) == ApplyAll(t, Run(t, o, limit))
  {
    Lt21Resumes(o, limit);
    CrashRestartable(Valid21(o), Run21(o, limit), t, ks);
  }

  // ---------- what the fold means ----------

  function Lookup(store: map<EventId, Key>, e: EventId): Option<Key>
  {
    if e in store then Some(store[e]) else None
  }

  function OrElse(a: Option<Key>, b: Option<Key>): Option<Key>
  {
    if a.Some? then a else b
  }

  /** The soft-fail verdict of an event wherever it is recorded: the store first, then
      `eventid_status`, then the metadata row. */
  function EffectiveSoftFail(t: Tables, e: EventId): Option<Key>
  {
    OrElse(Lookup(t.verdicts.softFailed, e),
      OrElse(if e in t.status then SoftCode(t.status[e]) else None,
        if e in t.metadata && SoftFail(t.metadata[e]).Some? then Some([SoftFail(t.metadata[e]).value]) else None))
  }

  function EffectiveRejection(t: Tables, e: EventId): Option<Key>
  {
    OrElse(Lookup(t.verdicts.rejections, e),
      OrElse(if e in t.status then RejectCode(t.status[e]) else None,
        if e in t.metadata && Rejection(t.metadata[e]).Some? then Some([Rejection(t.metadata[e]).value]) else None))
  }

  /** What the migration must not change about an event. */
  ghost predicate SameEvent(t: Tables, t': Tables, e: EventId)
  {
    && EffectiveSoftFail(t, e) == EffectiveSoftFail(t', e)
    && EffectiveRejection(t, e) == EffectiveRejection(t', e)
    && (e in t.metadata <==> e in t'.metadata)
    && (e in t.metadata ==> Stripped(t.metadata[e]) == Stripped(t'.metadata[e]))
  }

  lemma StrippedTwice(row: Row)
    ensures Stripped(Stripped(row)) == Stripped(row)
    ensures Rejection(Stripped(row)) == None && SoftFail(Stripped(row)) == None
  {
  }

  /** Flushing rows whose verdicts are stored changes no effective verdict. */
  lemma FlushConserves(t: Tables, o: Order, rows: seq<(EventId, Row)>, e: EventId)
    requires ValidOrder(t, o) && Flushable(t.verdicts, t.metadata, o.metadata, [], rows)
    ensures SameEvent(t, Apply(t, PutMetadata(rows)), e)
  {
    PutRowsAt(t.metadata, rows, e);
    if KeyIn(e, rows) {
      var i :| 0 <= i < |rows| && rows[i].0 == e;
      StrippedTwice(t.metadata[e]);
    }
  }

  lemma FirstWriteConserves(t: Tables, o: Order, w: Write, e: EventId)
    requires ValidOrder(t, o) && FirstWrite(t, o, w)
    ensures SameEvent(t, Apply(t, w), e)
  {
    if w.PutMetadata? { FlushConserves(t, o, w.rows, e); }
  }

  /** At every point of a run, even one that aborts on a corrupt row, no event has gained,
      lost or changed a verdict, and no metadata content is lost. */
  lemma NothingLost(t: Tables, o: Order, limit: nat, k: nat, e: EventId)
    requires ValidOrder(t, o) && k <= |Run(t, o, limit)|
    ensures SameEvent(t, ApplyAll(t, Run(t, o, limit)[..k]), e)
  {
    Lt21Resumes(o, limit);
    var run := Run21(o, limit);
    var same := (a, b) => SameEvent(a, b, e);
    forall a {:trigger Apply(a, run(a)[0])} | Valid21(o)(a) && run(a) != []
      ensures same(a, Apply(a, run(a)[0]))
    {
      ResumeOne(a, o, limit);
      FirstWriteConserves(a, o, run(a)[0], e);
    }
    PrefixKeeps(Valid21(o), run, same, t, k);
  }

  lemma {:induction false} MetaSettled(
    v: Verdicts, m: map<EventId, Row>, ids: seq<EventId>, batch: seq<(EventId, Row)>, limit: nat, e: EventId)
    requires forall x :: x in ids ==> x in m && !m[x].Corrupt?
    requires MetaRun(v, m, ids, batch, limit) == []
    ensures batch == [] && (e in ids ==> m[e].V21?)
    decreases |ids|
  {
    if ids != [] {
      if m[ids[0]].V21? {
        MetaSettled(v, m, ids[1..], batch, limit, e);
      } else {
        var w := VerdictWrites(v, ids[0], m[ids[0]]);
        var b := batch + [(ids[0], Stripped(m[ids[0]]))];
        assert w == [] && Committed(b, limit) == [];
        MetaSettled(v, m, ids[1..], b, limit, e);
      }
    }
  }

  /** A store on which the migration writes nothing has everything folded. */
  lemma Settled(t: Tables, o: Order, limit: nat, e: EventId)
    requires ValidOrder(t, o) && AllRowsParse(t) && Run(t, o, limit) == []
    ensures Lookup(t.verdicts.softFailed, e) == EffectiveSoftFail(t, e)
    ensures Lookup(t.verdicts.rejections, e) == EffectiveRejection(t, e)
    ensures e in t.metadata ==> t.metadata[e].V21?
  {
    EmptySum(StatusRun(t.verdicts, t.status, o.status),
             MetaRun(ApplyVerdicts(t.verdicts, StatusRun(t.verdicts, t.status, o.status)),
                     t.metadata, o.metadata, [], limit));
    NoStatusRun(t, o);
    MetaSettled(t.verdicts, t.metadata, o.metadata, [], limit, e);
  }

  /** A run over parseable rows leaves each store holding the effective verdict (existing
      verdict, then `eventid_status`, then metadata) and every row status-less. */
  lemma FoldPriority(t: Tables, o: Order, limit: nat, e: EventId)
    requires ValidOrder(t, o) && AllRowsParse(t)
    ensures var done := ApplyAll(t, Run(t, o, limit));
            && Lookup(done.verdicts.softFailed, e) == EffectiveSoftFail(t, e)
            && Lookup(done.verdicts.rejections, e) == EffectiveRejection(t, e)
            && (e in done.metadata <==> e in t.metadata)
            && (e in t.metadata ==> done.metadata[e] == Stripped(t.metadata[e]) && done.metadata[e].V21?)
  {
    var done := ApplyAll(t, Run(t, o, limit));
    forall x ensures SameEvent(t, done, x) { Finished(t, o, limit, x); }
    Finished(t, o, limit, e);
    StillParses(t, done);
    Settled(done, o, limit, e);
    SettledAs(t, done, e);
  }

  lemma Finished(t: Tables, o: Order, limit: nat, e: EventId)
    requires ValidOrder(t, o)
    ensures var done := ApplyAll(t, Run(t, o, limit));
            ValidOrder(done, o) && Run(done, o, limit) == [] && SameEvent(t, done, e)
  {
    var ws := Run(t, o, limit);
    assert ws[..|ws|] == ws && ws[|ws|..] == [];
    Lt21Resumes(o, limit);
    RestartResumes(Valid21(o), Run21(o, limit), t, |ws|);
    NothingLost(t, o, limit, |ws|, e);
  }

  lemma StillParses(t: Tables, t': Tables)
    requires AllRowsParse(t) && forall e :: SameEvent(t, t', e)
    ensures AllRowsParse(t')
  {
    forall e | e in t'.metadata ensures !t'.metadata[e].Corrupt? {
      assert SameEvent(t, t', e);
      assert Stripped(t'.metadata[e]) == Stripped(t.metadata[e]);
    }
  }

  lemma SettledAs(t: Tables, done: Tables, e: EventId)
    requires SameEvent(t, done, e) && (e in done.metadata ==> done.metadata[e].V21?)
    ensures e in t.metadata <==> e in done.metadata
    ensures e in t.metadata ==> done.metadata[e] == Stripped(t.metadata[e])
  {
  }

  // ---------- what the fold stores, layout by layout ----------

  /** `e` has a row, and no verdict outside it. */
  ghost predicate OnlyRow(t: Tables, o: Order, e: EventId)
  {
    && ValidOrder(t, o) && AllRowsParse(t) && e in t.metadata
    && e !in t.status && e !in t.verdicts.softFailed && e !in t.verdicts.rejections
  }

  /** A v20 row ends as its metadata, and its status as the typed code in the store it belongs to. */
  lemma FoldsV20(t: Tables, o: Order, limit: nat, e: EventId, m: Metadata, status: EventStatus)
    requires OnlyRow(t, o, e) && t.metadata[e] == V20(m, status)
    ensures var done := ApplyAll(t, Run(t, o, limit));
            && e in done.metadata && done.metadata[e] == V21(m)
            && (match status
                case Rejected(c) => Lookup(done.verdicts.rejections, e) == Some([c]) && e !in done.verdicts.softFailed
                case SoftFailed(c) => Lookup(done.verdicts.softFailed, e) == Some([c]) && e !in done.verdicts.rejections
                case _ => e !in done.verdicts.rejections && e !in done.verdicts.softFailed)
  {
    FoldPriority(t, o, limit, e);
  }

  /** A v19 row ends as its metadata, and each of its flags as an `Unknown` code. */
  lemma FoldsV19(t: Tables, o: Order, limit: nat, e: EventId, m: Metadata, softFailed: bool, rejected: bool)
    requires OnlyRow(t, o, e) && t.metadata[e] == V19(m, softFailed, rejected)
    ensures var done := ApplyAll(t, Run(t, o, limit));
            && e in done.metadata && done.metadata[e] == V21(m)
            && Lookup(done.verdicts.softFailed, e) == (if softFailed then Some([3]) else None)
            && Lookup(done.verdicts.rejections, e) == (if rejected then Some([11]) else None)
  {
    FoldPriority(t, o, limit, e);
  }

  /** A v18 row has neither depth nor count; otherwise it ends like a v19 row. */
  lemma FoldsV18(t: Tables, o: Order, limit: nat, e: EventId, core: Core, softFailed: bool, rejected: bool)
    requires OnlyRow(t, o, e) && t.metadata[e] == V18(core, softFailed, rejected)
    ensures var done := ApplyAll(t, Run(t, o, limit));
            && e in done.metadata && done.metadata[e] == V21(Metadata(core, 0, None))
            && Lookup(done.verdicts.softFailed, e) == (if softFailed then Some([3]) else None)
            && Lookup(done.verdicts.rejections, e) == (if rejected then Some([11]) else None)
  {
    FoldPriority(t, o, limit, e);
  }

  /** A v21 row stays, and carries no verdict. */
  lemma FoldsV21(t: Tables, o: Order, limit: nat, e: EventId, m: Metadata)
    requires OnlyRow(t, o, e) && t.metadata[e] == V21(m)
    ensures var done := ApplyAll(t, Run(t, o, limit));
            && e in done.metadata && done.metadata[e] == V21(m)
            && e !in done.verdicts.rejections && e !in done.verdicts.softFailed
  {
    FoldPriority(t, o, limit, e);
  }

  /** A status row of two or more bytes ends as its second byte in the store its first byte names,
      before anything the metadata says; a verdict already stored stays. */
  lemma FoldsStatus(t: Tables, o: Order, limit: nat, e: EventId)
    requires ValidOrder(t, o) && AllRowsParse(t)
    ensures var done := ApplyAll(t, Run(t, o, limit));
            && (e in t.verdicts.softFailed ==> Lookup(done.verdicts.softFailed, e) == Some(t.verdicts.softFailed[e]))
            && (e in t.verdicts.rejections ==> Lookup(done.verdicts.rejections, e) == Some(t.verdicts.rejections[e]))
            && (e in t.status && |t.status[e]| >= 2 && t.status[e][0] == 1 && e !in t.verdicts.softFailed ==>
                  Lookup(done.verdicts.softFailed, e) == Some([t.status[e][1]]))
            && (e in t.status && |t.status[e]| >= 2 && t.status[e][0] == 2 && e !in t.verdicts.rejections ==>
                  Lookup(done.verdicts.rejections, e) == Some([t.status[e][1]]))
  {
    FoldPriority(t, o, limit, e);
  }

  /** The row of `e` is as it was, or rewritten. */
  ghost predicate RowKept(t: Tables, t': Tables, e: EventId)
  {
    e in t.metadata ==>
      e in t'.metadata && (t'.metadata[e] == t.metadata[e] || t'.metadata[e] == Stripped(t.metadata[e]))
  }

  lemma FirstWriteKeepsRow(t: Tables, o: Order, w: Write, e: EventId)
    requires ValidOrder(t, o) && FirstWrite(t, o, w)
    ensures RowKept(t, Apply(t, w), e)
  {
    if w.PutMetadata? {
      PutRowsAt(t.metadata, w.rows, e);
      if KeyIn(e, w.rows) { var i :| 0 <= i < |w.rows| && w.rows[i].0 == e; }
    }
  }

  lemma RowsKept(t: Tables, o: Order, limit: nat, k: nat, e: EventId)
    requires ValidOrder(t, o) && k <= |Run(t, o, limit)|
    ensures RowKept(t, ApplyAll(t, Run(t, o, limit)[..k]), e)
  {
    Lt21Resumes(o, limit);
    var run := Run21(o, limit);
    var kept := (a, b) => RowKept(a, b, e);
    forall a {:trigger Apply(a, run(a)[0])} | Valid21(o)(a) && run(a) != []
      ensures kept(a, Apply(a, run(a)[0]))
    {
      ResumeOne(a, o, limit);
      FirstWriteKeepsRow(a, o, run(a)[0], e);
    }
    PrefixKeeps(Valid21(o), run, kept, t, k);
  }

  /** At every point of a run a v20 row is still there, or its metadata is there and its typed code
      is in its store. */
  lemma NothingLostV20(t: Tables, o: Order, limit: nat, k: nat, e: EventId, m: Metadata, status: EventStatus)
    requires OnlyRow(t, o, e) && t.metadata[e] == V20(m, status) && k <= |Run(t, o, limit)|
    ensures var now := ApplyAll(t, Run(t, o, limit)[..k]);
            && e in now.metadata && (now.metadata[e] == V20(m, status) || now.metadata[e] == V21(m))
            && (now.metadata[e] == V21(m) && status.Rejected? ==>
                  Lookup(now.verdicts.rejections, e) == Some([status.code]))
            && (now.metadata[e] == V21(m) && status.SoftFailed? ==>
                  Lookup(now.verdicts.softFailed, e) == Some([status.code]))
  {
    RowsKept(t, o, limit, k, e);
    NothingLost(t, o, limit, k, e);
    StatusUntouched(t, o, limit, k);
  }

  /** The same for the flags of the two older layouts; `m` is the metadata a v19 row has, or a v18
      row gets. */
  lemma NothingLostFlags(t: Tables, o: Order, limit: nat, k: nat, e: EventId, m: Metadata)
    requires OnlyRow(t, o, e) && k <= |Run(t, o, limit)|
    requires var row := t.metadata[e]; (row.V19? && m == row.meta) || (row.V18? && m == Metadata(row.core, 0, None))
    ensures var now := ApplyAll(t, Run(t, o, limit)[..k]);
            && e in now.metadata && (now.metadata[e] == t.metadata[e] || now.metadata[e] == V21(m))
            && (now.metadata[e] == V21(m) && t.metadata[e].rejected ==>
                  Lookup(now.verdicts.rejections, e) == Some([11]))
            && (now.metadata[e] == V21(m) && t.metadata[e].softFailed ==>
                  Lookup(now.verdicts.softFailed, e) == Some([3]))
  {
    RowsKept(t, o, limit, k, e);
    NothingLost(t, o, limit, k, e);
    StatusUntouched(t, o, limit, k);
  }

  ghost predicate SameStatus(t: Tables, t': Tables)
  {
    t.status == t'.status
  }

  lemma FirstWriteKeepsStatus(t: Tables, o: Order, w: Write)
    requires ValidOrder(t, o) && FirstWrite(t, o, w)
    ensures SameStatus(t, Apply(t, w))
  {
  }

  /** The migration never writes `eventid_status`. */
  lemma StatusUntouched(t: Tables, o: Order, limit: nat, k: nat)
    requires ValidOrder(t, o) && k <= |Run(t, o, limit)|
    ensures SameStatus(t, ApplyAll(t, Run(t, o, limit)[..k]))
  {
    Lt21Resumes(o, limit);
    var run := Run21(o, limit);
    var kept := (a, b) => SameStatus(a, b);
    forall a {:trigger Apply(a, run(a)[0])} | Valid21(o)(a) && run(a) != []
      ensures kept(a, Apply(a, run(a)[0]))
    {
      ResumeOne(a, o, limit);
      FirstWriteKeepsStatus(a, o, run(a)[0]);
    }
    PrefixKeeps(Valid21(o), run, kept, t, k);
  }

  // ---------- db_lt_19: folding softfailedeventids into eventid_status ----------

  /** The listed event already has a status record, or a verdict in a v20 row. */
  predicate HasVerdict(status: map<EventId, Key>, m: map<EventId, Row>, e: EventId)
  {
    || (e in status && status[e] != [])
    || (e in m && m[e].V20? && (m[e].status.Rejected? || m[e].status.SoftFailed?))
  }

  function ListRun(status: map<EventId, Key>, m: map<EventId, Row>, ids: seq<EventId>,
                   batch: seq<EventId>, limit: nat): seq<Write>
    decreases |ids|
  {
    if ids == [] then (if batch == [] then [] else [PutStatus(batch)])
    else if HasVerdict(status, m, ids[0]) then ListRun(status, m, ids[1..], batch, limit)
    else
      var b := batch + [ids[0]];
      if |b| >= limit then [PutStatus(b)] + ListRun(PutUnknown(status, b), m, ids[1..], [], limit)
      else ListRun(status, m, ids[1..], b, limit)
  }

  lemma ListStep(status: map<EventId, Key>, m: map<EventId, Row>, ids: seq<EventId>, i: nat,
                 batch: seq<EventId>, limit: nat, done: seq<Write>)
    requires i < |ids|
    ensures var b := batch + [ids[i]];
            done + ListRun(status, m, ids[i..], batch, limit) ==
            if HasVerdict(status, m, ids[i]) then done + ListRun(status, m, ids[i + 1..], batch, limit)
            else if |b| < limit then done + ListRun(status, m, ids[i + 1..], b, limit)
            else (done + [PutStatus(b)]) + ListRun(PutUnknown(status, b), m, ids[i + 1..], [], limit)
  {
    assert ids[i..][1..] == ids[i + 1..] && ids[i..][0] == ids[i];
    var b := batch + [ids[i]];
    AppendOne(done, PutStatus(b), ListRun(PutUnknown(status, b), m, ids[i + 1..], [], limit));
  }

  lemma AppendOne(done: seq<Write>, w: Write, rest: seq<Write>)
    ensures done + ([w] + rest) == (done + [w]) + rest
  {
  }

  /** Every atomic write of `db_lt_19`: the status batches, then dropping the list. */
  function Run19(t: Tables, limit: nat): seq<Write>
  {
    if t.listed.None? then []
    else ListRun(t.status, t.metadata, t.listed.value, [], limit) + [DropListed]
  }

  /** After the first batch, a fresh scan skips the batch and issues the remaining writes. */
  lemma {:induction false} ListFirst(
    status: map<EventId, Key>, m: map<EventId, Row>, ids: seq<EventId>, batch: seq<EventId>, limit: nat)
    requires ListRun(status, m, ids, batch, limit) != []
    ensures var ws := ListRun(status, m, ids, batch, limit);
            && ws[0].PutStatus? && batch <= ws[0].ids
            && ListRun(PutUnknown(status, ws[0].ids), m, ids, [], limit) == ws[1..]
    decreases |ids|
  {
    if ids != [] {
      if HasVerdict(status, m, ids[0]) {
        ListFirst(status, m, ids[1..], batch, limit);
        SkipListed(status, m, ids, ListRun(status, m, ids[1..], batch, limit)[0].ids, limit);
      } else {
        var b := batch + [ids[0]];
        if |b| < limit {
          ListFirst(status, m, ids[1..], b, limit);
          var flushed := ListRun(status, m, ids[1..], b, limit)[0].ids;
          assert flushed[|batch|] == b[|batch|] == ids[0];
          assert flushed[..|b|][..|batch|] == batch;
          SkipListed(status, m, ids, flushed, limit);
        } else {
          assert b[|batch|] == ids[0];
          SkipListed(status, m, ids, b, limit);
        }
      }
    }
  }

  lemma SkipListed(status: map<EventId, Key>, m: map<EventId, Row>, ids: seq<EventId>,
                   flushed: seq<EventId>, limit: nat)
    requires ids != [] && (HasVerdict(status, m, ids[0]) || ids[0] in flushed)
    ensures var status' := PutUnknown(status, flushed);
            ListRun(status', m, ids, [], limit) == ListRun(status', m, ids[1..], [], limit)
  {
    assert HasVerdict(PutUnknown(status, flushed), m, ids[0]);
  }

  /** `db_lt_19` is crash-restartable in the same sense. */
  lemma Lt19CrashRestartable(t: Tables, limit: nat, ks: seq<nat>)
    ensures var crashed := Crashes(x => Run19(x, limit), t, ks);
            ApplyAll(crashed, Run19(crashed, limit)) == ApplyAll(t, Run19(t, limit))
  {
    var run := x => Run19(x, limit);
    var ok := (x: Tables) => true;
    forall x {:trigger Apply(x, run(x)[0])} | ok(x) && run(x) != []
      ensures run(Apply(x, run(x)[0])) == run(x)[1..]
    {
      var ws := ListRun(x.status, x.metadata, x.listed.value, [], limit);
      HeadTail(ws, [DropListed]);
      if ws != [] { ListFirst(x.status, x.metadata, x.listed.value, [], limit); }
    }
    CrashRestartable(ok, run, t, ks);
  }

  /** The event gets a synthesized `Unknown` soft-fail record. */
  predicate Synthesized(t: Tables, e: EventId)
  {
    t.listed.Some? && e in t.listed.value && !HasVerdict(t.status, t.metadata, e)
  }

  lemma {:induction false} ListResult(t: Tables, ids: seq<EventId>, batch: seq<EventId>, limit: nat, e: EventId)
    ensures var t' := ApplyAll(t, ListRun(t.status, t.metadata, ids, batch, limit));
            && t' == t.(status := t'.status)
            && Lookup(t'.status, e) ==
                 if e in batch || (e in ids && !HasVerdict(t.status, t.metadata, e))
                 then Some([1, SOFT_FAIL_UNKNOWN]) else Lookup(t.status, e)
    decreases |ids|
  {
    if ids != [] {
      if HasVerdict(t.status, t.metadata, ids[0]) {
        ListResult(t, ids[1..], batch, limit, e);
      } else {
        var b := batch + [ids[0]];
        if |b| >= limit {
          var t' := Apply(t, PutStatus(b));
          HeadTail([PutStatus(b)], ListRun(t'.status, t.metadata, ids[1..], [], limit));
          ListResult(t', ids[1..], [], limit, e);
        } else {
          ListResult(t, ids[1..], b, limit, e);
        }
      }
    }
  }

  /** The tables after `db_lt_19`. */
  lemma Lt19Result(t: Tables, limit: nat, e: EventId)
    ensures var t' := ApplyAll(t, Run19(t, limit));
            && t'.verdicts == t.verdicts && t'.metadata == t.metadata && t'.listed == None
            && Lookup(t'.status, e) ==
                 if Synthesized(t, e) then Some([1, SOFT_FAIL_UNKNOWN]) else Lookup(t.status, e)
  {
    if t.listed.Some? {
      var ws := ListRun(t.status, t.metadata, t.listed.value, [], limit);
      ListResult(t, t.listed.value, [], limit, e);
      ApplyAllSplit(t, ws, [DropListed]);
    }
  }

  /** `db_lt_19` then `db_lt_21`: rejections are what `db_lt_21` alone would store, and the
      soft-fail store differs only where nothing was recorded and an `Unknown` is
      synthesized. So no recorded code, typed or not, is replaced by `Unknown`. */
  lemma Lt19ThenLt21(t: Tables, o: Order, limit19: nat, limit21: nat, e: EventId)
    requires AllRowsParse(t) && ValidOrder(ApplyAll(t, Run19(t, limit19)), o)
    ensures var mid := ApplyAll(t, Run19(t, limit19));
            var done := ApplyAll(mid, Run(mid, o, limit21));
            && Lookup(done.verdicts.rejections, e) == EffectiveRejection(t, e)
            && Lookup(done.verdicts.softFailed, e) ==
                 OrElse(EffectiveSoftFail(t, e),
                        if Synthesized(t, e) then Some([SOFT_FAIL_UNKNOWN]) else None)
  {
    var mid := ApplyAll(t, Run19(t, limit19));
    Lt19Result(t, limit19, e);
    FoldPriority(mid, o, limit21, e);
    EffectiveAfter19(t, mid, e);
  }

  lemma EffectiveAfter19(t: Tables, mid: Tables, e: EventId)
    requires mid.verdicts == t.verdicts && mid.metadata == t.metadata
    requires Lookup(mid.status, e) == if Synthesized(t, e) then Some([1, SOFT_FAIL_UNKNOWN]) else Lookup(t.status, e)
    ensures EffectiveRejection(mid, e) == EffectiveRejection(t, e)
    ensures EffectiveSoftFail(mid, e) ==
              OrElse(EffectiveSoftFail(t, e), if Synthesized(t, e) then Some([SOFT_FAIL_UNKNOWN]) else None)
  {
  }

  /** A listed event ends in one of the two stores if and only if it is not the case that its
      only record is a non-empty status row `db_lt_21` cannot read. */
  lemma ListedSurvives(t: Tables, o: Order, limit19: nat, limit21: nat, e: EventId)
    requires AllRowsParse(t) && ValidOrder(ApplyAll(t, Run19(t, limit19)), o)
    requires t.listed.Some? && e in t.listed.value
    ensures var mid := ApplyAll(t, Run19(t, limit19));
            var done := ApplyAll(mid, Run(mid, o, limit21));
            (e in done.verdicts.softFailed || e in done.verdicts.rejections) <==>
            !(&& e in t.status && t.status[e] != []
              && (|t.status[e]| < 2 || t.status[e][0] !in {1, 2})
              && e !in t.verdicts.softFailed && e !in t.verdicts.rejections
              && (e in t.metadata ==> Rejection(t.metadata[e]).None? && SoftFail(t.metadata[e]).None?))
  {
    Lt19ThenLt21(t, o, limit19, limit21, e);
  }

  /** The lost family is not empty: a one-byte status row hides a listed event. */
  lemma MalformedStatusLosesEvent(t: Tables, o: Order, limit19: nat, limit21: nat)
    requires t == Tables(Some([[1]]), map[[1] := [7]], Verdicts(map[], map[]), map[])
    requires ValidOrder(ApplyAll(t, Run19(t, limit19)), o)
    ensures var mid := ApplyAll(t, Run19(t, limit19));
            var done := ApplyAll(mid, Run(mid, o, limit21));
            [1] !in done.verdicts.softFailed && [1] !in done.verdicts.rejections
  {
    ListedSurvives(t, o, limit19, limit21, [1]);
  }

  // ---------- the migrations as they run ----------

  lemma StatusStep(v: Verdicts, status: map<EventId, Key>, ids: seq<EventId>, i: nat, done: seq<Write>)
    requires i < |ids| && forall e :: e in ids ==> e in status
    ensures var w := StatusWrite(v, ids[i], status[ids[i]]);
            done + StatusRun(v, status, ids[i..]) ==
            (done + w) + StatusRun(ApplyVerdicts(v, w), status, ids[i + 1..])
  {
    assert ids[i..][1..] == ids[i + 1..] && ids[i..][0] == ids[i];
  }

  lemma MetaStep(v: Verdicts, m: map<EventId, Row>, ids: seq<EventId>, i: nat,
                 batch: seq<(EventId, Row)>, limit: nat, done: seq<Write>)
    requires i < |ids| && forall e :: e in ids ==> e in m
    ensures m[ids[i]].Corrupt? ==> MetaRun(v, m, ids[i..], batch, limit) == []
    ensures m[ids[i]].V21? ==> MetaRun(v, m, ids[i..], batch, limit) == MetaRun(v, m, ids[i + 1..], batch, limit)
    ensures !m[ids[i]].Corrupt? && !m[ids[i]].V21? ==>
              var w := VerdictWrites(v, ids[i], m[ids[i]]);
              var b := batch + [(ids[i], Stripped(m[ids[i]]))];
              done + MetaRun(v, m, ids[i..], batch, limit) ==
              (done + w + Committed(b, limit)) +
              MetaRun(ApplyVerdicts(v, w), m, ids[i + 1..], Leftover(b, limit), limit)
  {
    assert ids[i..][1..] == ids[i + 1..] && ids[i..][0] == ids[i];
  }

  class EventTables {
    var listed: Option<seq<EventId>>
    var status: map<EventId, Key>
    var verdicts: Verdicts
    var metadata: map<EventId, Row>
    ghost var log: seq<Write>       // every atomic write, in the order it was committed

    ghost function Snapshot(): Tables
      reads this
    {
      Tables(listed, status, verdicts, metadata)
    }

    constructor (t: Tables)
      ensures Snapshot() == t && log == []
    {
      listed, status, verdicts, metadata, log := t.listed, t.status, t.verdicts, t.metadata, [];
    }

    /** The only way the tables change: one atomic write. */
    method Commit(w: Write)
      modifies this
      ensures Snapshot() == Apply(old(Snapshot()), w) && log == old(log) + [w]
    {
      match w {
        case PutStatus(ids) => status := PutUnknown(status, ids);
        case DropListed => listed := None;
        case PutMetadata(rows) => metadata := PutRows(metadata, rows);
        case _ => verdicts := ApplyVerdict(verdicts, w);
      }
      log := log + [w];
    }

    /** The tables have gone through the writes `done` since they were `t`. */
    ghost predicate Since(t: Tables, start: seq<Write>, done: seq<Write>)
      reads this
    {
      log == start + done && Snapshot() == ApplyAll(t, done)
    }

    method CommitAll(ws: seq<Write>, ghost t: Tables, ghost start: seq<Write>, ghost done: seq<Write>)
      requires Since(t, start, done)
      modifies this
      ensures Since(t, start, done + ws)
      ensures verdicts == ApplyVerdicts(old(verdicts), ws)
      ensures status == ApplyAll(old(Snapshot()), ws).status
    {
      var i := 0;
      while i < |ws|
        invariant 0 <= i <= |ws|
        invariant log == old(log) + ws[..i]
        invariant ApplyAll(Snapshot(), ws[i..]) == ApplyAll(old(Snapshot()), ws)
      {
        assert ws[i..][1..] == ws[i + 1..] && ws[..i + 1] == ws[..i] + [ws[i]];
        Commit(ws[i]);
        i := i + 1;
      }
      assert ws[..|ws|] == ws;
      ApplyAllSplit(t, done, ws);
      ApplyAllVerdicts(old(Snapshot()), ws);
    }

    /** Folding `eventid_status` record by record. */
    method FoldStatus(ids: seq<EventId>)
      requires forall e :: e in ids ==> e in status
      modifies this
      ensures Since(old(Snapshot()), old(log), StatusRun(old(verdicts), old(status), ids))
    {
      ghost var t, start, done := Snapshot(), log, [];
      var rows, i := status, 0;
      assert start + [] == start;
      while i < |ids|
        invariant 0 <= i <= |ids|
        invariant done + StatusRun(verdicts, rows, ids[i..]) == StatusRun(t.verdicts, rows, ids)
        invariant Since(t, start, done)
      {
        var w := StatusWrite(verdicts, ids[i], rows[ids[i]]);
        StatusStep(verdicts, rows, ids, i, done);
        CommitAll(w, t, start, done);
        done := done + w;
        i := i + 1;
      }
      assert done + [] == done;
    }

    /** One row in an old layout: its missing verdicts, then the batch if it is full. */
    method FoldRow(e: EventId, row: Row, batch: seq<(EventId, Row)>, limit: nat, ghost t: Tables,
                   ghost start: seq<Write>, ghost done: seq<Write>) returns (batch': seq<(EventId, Row)>)
      requires Since(t, start, done)
      modifies this
      ensures var w := VerdictWrites(old(verdicts), e, row);
              var b := batch + [(e, Stripped(row))];
              && Since(t, start, done + w + Committed(b, limit))
              && verdicts == ApplyVerdicts(old(verdicts), w) && batch' == Leftover(b, limit)
    {
      var w := VerdictWrites(verdicts, e, row);
      var b := batch + [(e, Stripped(row))];
      CommitAll(w, t, start, done);
      CommitAll(Committed(b, limit), t, start, done + w);
      batch' := Leftover(b, limit);
    }

    /** Rewriting `eventid_metadata` from a snapshot of its rows. */
    method FoldMetadata(ids: seq<EventId>, limit: nat, ghost t: Tables, ghost start: seq<Write>,
                        ghost before: seq<Write>) returns (ok: bool)
      requires forall e :: e in ids ==> e in metadata
      requires Since(t, start, before)
      modifies this
      ensures Since(t, start, before + MetaRun(old(verdicts), old(metadata), ids, [], limit))
      ensures ok <==> forall i :: 0 <= i < |ids| ==> !old(metadata)[ids[i]].Corrupt?
    {
      ghost var done := before;
      var rows, i := metadata, 0;
      var batch: seq<(EventId, Row)> := [];
      while i < |ids|
        invariant 0 <= i <= |ids|
        invariant forall j :: 0 <= j < i ==> !rows[ids[j]].Corrupt?
        invariant done + MetaRun(verdicts, rows, ids[i..], batch, limit) ==
                  before + MetaRun(old(verdicts), rows, ids, [], limit)
        invariant Since(t, start, done)
      {
        MetaStep(verdicts, rows, ids, i, batch, limit, done);
        var row := rows[ids[i]];
        if row.Corrupt? {
          assert done + [] == done;
          return false;
        }
        if !row.V21? {
          ghost var w := VerdictWrites(verdicts, ids[i], row);
          ghost var b := batch + [(ids[i], Stripped(row))];
          batch := FoldRow(ids[i], row, batch, limit, t, start, done);
          done := done + w + Committed(b, limit);
        }
        i := i + 1;
      }
      CommitAll(Flush(batch), t, start, done);
      ok := true;
    }

    /** `db_lt_21`: the tables move through exactly the writes of `Run`, and the migration
        reports success exactly when every metadata row parses. */
    method DbLt21(o: Order, limit: nat) returns (ok: bool)
      requires ValidOrder(Snapshot(), o)
      modifies this
      ensures Since(old(Snapshot()), old(log), Run(old(Snapshot()), o, limit))
      ensures ok <==> AllRowsParse(old(Snapshot()))
    {
      ghost var t, start := Snapshot(), log;
      ghost var s := StatusRun(verdicts, status, o.status);
      RunInTwo(t, o, limit, s, ApplyAll(t, s));
      FoldStatus(o.status);
      ok := FoldMetadata(o.metadata, limit, t, start, s);
    }

    /** `db_lt_19`: the tables move through exactly the writes of `Run19`. */
    method DbLt19(limit: nat)
      modifies this
      ensures Since(old(Snapshot()), old(log), Run19(old(Snapshot()), limit))
    {
      ghost var t, start, done := Snapshot(), log, [];
      assert start + [] == start;
      if listed.None? { return; }
      var rows, ids, i := metadata, listed.value, 0;
      var batch: seq<EventId> := [];
      while i < |ids|
        invariant 0 <= i <= |ids|
        invariant done + ListRun(status, rows, ids[i..], batch, limit) == ListRun(t.status, rows, ids, [], limit)
        invariant Since(t, start, done)
      {
        ListStep(status, rows, ids, i, batch, limit, done);
        if !HasVerdict(status, rows, ids[i]) {
          batch := batch + [ids[i]];
          if |batch| >= limit {
            CommitAll([PutStatus(batch)], t, start, done);
            done := done + [PutStatus(batch)];
            batch := [];
          }
        }
        i := i + 1;
      }
      ghost var last := if batch == [] then [] else [PutStatus(batch)];
      assert done + [] == done;
      if batch != [] { CommitAll([PutStatus(batch)], t, start, done); }
      CommitAll([DropListed], t, start, done + last);
    }
  }

  /** The status scan, then the metadata scan on the tables it left. */
  lemma RunInTwo(t: Tables, o: Order, limit: nat, s: seq<Write>, mid: Tables)
    requires ValidOrder(t, o)
    requires s == StatusRun(t.verdicts, t.status, o.status) && mid == ApplyAll(t, s)
    ensures mid.metadata == t.metadata
    ensures Run(t, o, limit) == s + MetaRun(mid.verdicts, mid.metadata, o.metadata, [], limit)
    ensures ApplyAll(t, Run(t, o, limit)) ==
              ApplyAll(mid, MetaRun(mid.verdicts, mid.metadata, o.metadata, [], limit))
    ensures AllRowsParse(t) <==> forall i :: 0 <= i < |o.metadata| ==> !t.metadata[o.metadata[i]].Corrupt?
  {
    ApplyAllVerdicts(t, s);
    StatusKeepsRows(t, t.verdicts, t.status, o.status);
    ApplyAllSplit(t, s, MetaRun(mid.verdicts, mid.metadata, o.metadata, [], limit));
  }

  lemma {:induction false} StatusKeepsRows(t: Tables, v: Verdicts, status: map<EventId, Key>, ids: seq<EventId>)
    requires forall e :: e in ids ==> e in status
    ensures ApplyAll(t, StatusRun(v, status, ids)).metadata == t.metadata
    decreases |ids|
  {
    if ids != [] {
      var w := StatusWrite(v, ids[0], status[ids[0]]);
      var rest := StatusRun(ApplyVerdicts(v, w), status, ids[1..]);
      ApplyAllSplit(t, w, rest);
      StatusKeepsRows(ApplyAll(t, w), ApplyVerdicts(v, w), status, ids[1..]);
    }
  }
}
