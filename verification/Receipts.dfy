/** Read receipt rows keyed `room FF count FF user`: the reverse-scan deduplication
    (src/service/migrations.rs:1594-1639) and the state map migration (538-588). */
module Receipts {
  import opened Bytes

  predicate HasRoom(k: Key) { FirstSep(k) < |k| }

  function Room(k: Key): Key { k[..FirstSep(k)] }

  /** A separator, an 8-byte count and a second separator follow the room. */
  predicate WellFormed(k: Key)
  {
    var n := FirstSep(k); |k| > n + 9 && k[n + 9] == SEP
  }

  function CountBytes(k: Key): Key
    requires WellFormed(k)
  {
    k[FirstSep(k) + 1..FirstSep(k) + 9]
  }

  function Count(k: Key): nat
    requires WellFormed(k)
  {
    BeNat(CountBytes(k))
  }

  function User(k: Key): Key
    requires WellFormed(k)
  {
    k[FirstSep(k) + 10..]
  }

  function StateKey(k: Key): Key
    requires WellFormed(k)
  {
    Room(k) + [SEP] + User(k)
  }

  /** Two receipts of one user in one room. */
  predicate SameGroup(k: Key, l: Key)
  {
    WellFormed(k) && WellFormed(l) && Room(k) == Room(l) && User(k) == User(l)
  }

  // ---------- what the byte order of keys means ----------

  /** Keys with one room are contiguous in byte order. */
  lemma RoomsContiguous(lo: Key, k: Key, hi: Key)
    requires Less(lo, k) && Less(k, hi) && HasRoom(lo) && HasRoom(hi) && Room(lo) == Room(hi)
    ensures HasRoom(k) && Room(k) == Room(lo)
  {
    var n := FirstSep(lo);
    var p := lo[..n + 1];
    assert p == Room(lo) + [SEP];
    assert hi[..n + 1] == Room(hi) + [SEP];
    PrefixContiguous(p, lo, k, hi);
    assert k[..n] == p[..n] == Room(lo) && k[n] == p[n] == SEP;
    FirstSepUnique(k, n);
  }

  /** Within a group, byte order is count order, and a count names one row. */
  lemma GroupOrder(k: Key, l: Key)
    requires SameGroup(k, l)
    ensures Less(k, l) <==> Count(k) < Count(l)
    ensures k == l <==> Count(k) == Count(l)
  {
    Split(k);
    Split(l);
    var p, u := Room(k) + [SEP], [SEP] + User(k);
    LessCancel(p, CountBytes(k) + u, CountBytes(l) + u);
    if CountBytes(k) != CountBytes(l) {
      LessHead(CountBytes(k), CountBytes(l), u, u);
    } else {
      LessIrreflexive(k);
    }
    BeOrder(CountBytes(k), CountBytes(l));
  }

  /** Within a room, a key with a higher count comes later. */
  lemma RoomOrder(k: Key, l: Key)
    requires WellFormed(k) && WellFormed(l) && Room(k) == Room(l) && Count(k) < Count(l)
    ensures Less(k, l)
  {
    Split(k);
    Split(l);
    LessCancel(Room(k) + [SEP], CountBytes(k) + ([SEP] + User(k)), CountBytes(l) + ([SEP] + User(l)));
    BeOrder(CountBytes(k), CountBytes(l));
    LessHead(CountBytes(k), CountBytes(l), [SEP] + User(k), [SEP] + User(l));
  }

  lemma Split(k: Key)
    requires WellFormed(k)
    ensures k == (Room(k) + [SEP]) + (CountBytes(k) + ([SEP] + User(k))) && |CountBytes(k)| == 8
  {
  }

  lemma StateKeyIsGroup(k: Key, l: Key)
    requires WellFormed(k) && WellFormed(l)
    ensures StateKey(k) == StateKey(l) <==> SameGroup(k, l)
  {
    if StateKey(k) == StateKey(l) {
      var s := StateKey(k);
      assert s[..|Room(k)|] == Room(k) && s[|Room(k)|] == SEP && s[|Room(k)| + 1..] == User(k);
      assert s[..|Room(l)|] == Room(l) && s[|Room(l)|] == SEP && s[|Room(l)| + 1..] == User(l);
      FirstSepUnique(s, |Room(k)|);
      FirstSepUnique(s, |Room(l)|);
    }
  }

  // ---------- deduplication ----------

  /** A row is kept unless its group has a row with a higher count. */
  ghost predicate Survives(keys: set<Key>, k: Key)
  {
    forall l :: l in keys && SameGroup(k, l) ==> Count(l) <= Count(k)
  }

  ghost function Deduplicated(rows: map<Key, Key>): map<Key, Key>
  {
    map k | k in rows && Survives(rows.Keys, k) :: rows[k]
  }

  /** The table's keys in scan order. */
  ghost predicate Lists(order: seq<Key>, rows: map<Key, Key>)
  {
    Ascending(order) && forall k :: k in order <==> k in rows
  }

  /** What the scan reads off a key: its room, and its user when it is well-formed. */
  datatype Row = Row(room: Option<Key>, user: Option<Key>)

  function RowOf(k: Key): Row
  {
    Row(if HasRoom(k) then Some(Room(k)) else None, if WellFormed(k) then Some(User(k)) else None)
  }

  ghost predicate Reads(rs: seq<Row>, order: seq<Key>)
  {
    |rs| == |order| && forall i :: 0 <= i < |rs| ==> rs[i] == RowOf(order[i])
  }

  /** Names three positions whose rooms are about to be compared. */
  ghost predicate Compare(a: int, b: int, c: int) { true }

  /** Rows of one room are next to each other. */
  ghost predicate Contiguous(rs: seq<Row>)
  {
    && (forall a, b, c {:trigger Compare(a, b, c)} ::
          Compare(a, b, c) && 0 <= a < b < c < |rs| && rs[a].room.Some? && rs[a].room == rs[c].room ==>
            rs[b].room == rs[a].room)
    && (forall a :: 0 <= a < |rs| && rs[a].user.Some? ==> rs[a].room.Some?)
  }

  /** No later row has the room and user of row `i`. */
  ghost predicate Last(rs: seq<Row>, i: nat)
    requires i < |rs|
  {
    rs[i].user.Some? ==> forall j :: i < j < |rs| ==> rs[j] != rs[i]
  }

  lemma OrderIsContiguous(rs: seq<Row>, order: seq<Key>)
    requires Ascending(order) && Reads(rs, order)
    ensures Contiguous(rs)
  {
    forall a, b, c {:trigger Compare(a, b, c)} |
      Compare(a, b, c) && 0 <= a < b < c < |rs| && rs[a].room.Some? && rs[a].room == rs[c].room
      ensures rs[b].room == rs[a].room
    {
      RoomsContiguous(order[a], order[b], order[c]);
    }
  }

  lemma LastSurvives(rs: seq<Row>, order: seq<Key>, rows: map<Key, Key>, i: nat)
    requires Lists(order, rows) && Reads(rs, order) && i < |order|
    ensures Last(rs, i) <==> Survives(rows.Keys, order[i])
  {
    if Last(rs, i) {
      forall l | l in rows && SameGroup(order[i], l) ensures Count(l) <= Count(order[i]) {
        var j :| 0 <= j < |order| && order[j] == l;
        GroupOrder(l, order[i]);
      }
    } else {
      var j :| i < j < |rs| && rs[j] == rs[i];
      assert SameGroup(order[i], order[j]) && order[j] in rows.Keys;
      GroupOrder(order[i], order[j]);
    }
  }

  /** `u` is a user of `room` among the rows `rs[i..]`. */
  ghost predicate SeenUser(rs: seq<Row>, i: nat, room: Key, u: Key)
    requires i <= |rs|
  {
    exists j :: i <= j < |rs| && rs[j] == Row(Some(room), Some(u))
  }

  /** The scan's state once it has passed `rs[i..]`: the current room is that of the nearest
      row passed that has one, and `seen` holds its users. */
  ghost predicate Passed(rs: seq<Row>, i: nat, room: Option<Key>, seen: set<Key>)
    requires i <= |rs|
  {
    && (room.None? ==> forall j :: i <= j < |rs| ==> rs[j].room.None?)
    && (room.Some? ==> exists m :: i <= m < |rs| && rs[m].room == room && forall j :: i <= j < m ==> rs[j].room.None?)
    && (forall u :: u in seen <==> room.Some? && SeenUser(rs, i, room.value, u))
  }

  /** `seen` after the room check of a row. */
  function SeenIn(room: Option<Key>, seen: set<Key>, r: Row): set<Key>
  {
    if room == r.room then seen else {}
  }

  /** Clearing `seen` at a room change loses nothing: the row's room was not passed before. */
  lemma SeenIsExact(rs: seq<Row>, i: nat, room: Option<Key>, seen: set<Key>, u: Key)
    requires Contiguous(rs) && 0 < i <= |rs| && Passed(rs, i, room, seen) && rs[i - 1].room.Some?
    ensures u in SeenIn(room, seen, rs[i - 1]) <==> SeenUser(rs, i, rs[i - 1].room.value, u)
  {
    var r := rs[i - 1].room;
    if room != r {
      forall j | i <= j < |rs| ensures rs[j].room != r {
        if room.Some? {
          var m :| i <= m < |rs| && rs[m].room == room && forall j :: i <= j < m ==> rs[j].room.None?;
          assert Compare(i - 1, m, j);
        }
      }
    }
  }

  lemma WidenSeen(rs: seq<Row>, i: nat, room: Key, u: Key)
    requires 0 < i <= |rs|
    ensures SeenUser(rs, i - 1, room, u) <==> SeenUser(rs, i, room, u) || rs[i - 1] == Row(Some(room), Some(u))
  {
    if SeenUser(rs, i - 1, room, u) {
      var j :| i - 1 <= j < |rs| && rs[j] == Row(Some(room), Some(u));
      if j >= i { assert SeenUser(rs, i, room, u); }
    }
  }

  /** Passing one row; a well-formed row's user is already seen exactly when it is not last. */
  lemma PassRow(rs: seq<Row>, i: nat, room: Option<Key>, seen: set<Key>)
    requires Contiguous(rs) && 0 < i <= |rs| && Passed(rs, i, room, seen)
    ensures var r, base := rs[i - 1], SeenIn(room, seen, rs[i - 1]);
            && (r.room.None? ==> Passed(rs, i - 1, room, seen) && Last(rs, i - 1))
            && (r.room.Some? && r.user.None? ==> Passed(rs, i - 1, r.room, base) && Last(rs, i - 1))
            && (r.user.Some? ==> Passed(rs, i - 1, r.room, base + {r.user.value}) &&
                                 (r.user.value in base <==> !Last(rs, i - 1)))
  {
    var r, base := rs[i - 1], SeenIn(room, seen, rs[i - 1]);
    if r.room.None? {
      if room.Some? {
        forall u ensures SeenUser(rs, i - 1, room.value, u) <==> SeenUser(rs, i, room.value, u) {
          WidenSeen(rs, i, room.value, u);
        }
      }
    } else {
      forall u ensures SeenUser(rs, i - 1, r.room.value, u) <==> u in base || r.user == Some(u) {
        SeenIsExact(rs, i, room, seen, u);
        WidenSeen(rs, i, r.room.value, u);
      }
      if r.user.Some? { SeenIsExact(rs, i, room, seen, r.user.value); }
    }
  }

  /** The rows left once the reverse scan has passed `order[i..]`. */
  ghost predicate Swept(rows: map<Key, Key>, all: map<Key, Key>, order: seq<Key>, rs: seq<Row>, i: nat)
    requires i <= |order| == |rs|
  {
    && (forall k :: k in rows ==> k in all && rows[k] == all[k])
    && (forall j :: 0 <= j < i ==> order[j] in rows)
    && (forall j :: i <= j < |order| ==> (order[j] in rows <==> Last(rs, j)))
  }

  class ReceiptTable {
    var rows: map<Key, Key>          // readreceiptid_readreceipt

    constructor (table: map<Key, Key>)
      ensures rows == table
    {
      rows := table;
    }

    /** The reverse scan over the rows read off the keys, clearing `seen` at every room change. */
    method ScanBackwards(order: seq<Key>, rs: seq<Row>)
      requires |rs| == |order| && Contiguous(rs)
      requires forall a, b :: 0 <= a < b < |order| ==> order[a] != order[b]
      requires forall j :: 0 <= j < |order| ==> order[j] in rows
      modifies this
      ensures Swept(rows, old(rows), order, rs, 0)
    {
      var seen: set<Key> := {};
      var room: Option<Key> := None;
      var i := |order|;
      while i > 0
        invariant 0 <= i <= |order| && Passed(rs, i, room, seen) && Swept(rows, old(rows), order, rs, i)
      {
        SweepRow(rows, old(rows), order, rs, i);
        var obsolete;
        obsolete, room, seen := Pass(rs[i - 1], room, seen, rs, i);
        i := i - 1;
        if obsolete { rows := rows - {order[i]}; }
      }
    }

    /** One row: `seen` is cleared when its room is another, and its user is inserted. */
    static method Pass(r: Row, room: Option<Key>, seen: set<Key>, ghost rs: seq<Row>, ghost i: nat)
      returns (obsolete: bool, room': Option<Key>, seen': set<Key>)
      requires Contiguous(rs) && 0 < i <= |rs| && r == rs[i - 1] && Passed(rs, i, room, seen)
      ensures Passed(rs, i - 1, room', seen') && (obsolete <==> !Last(rs, i - 1))
    {
      PassRow(rs, i, room, seen);
      obsolete, room', seen' := false, room, seen;
      if r.room.None? { return; }
      if room != r.room {
        seen' := {};
        room' := r.room;
      }
      if r.user.None? { return; }
      obsolete := r.user.value in seen';
      seen' := seen' + {r.user.value};
    }

    /** Deduplication keeps exactly the row with the highest count of each (room, user) group,
        and every malformed row. */
    method FixDuplicates(order: seq<Key>)
      requires Lists(order, rows)
      modifies this
      ensures rows == Deduplicated(old(rows))
    {
      var rs := seq(|order|, i requires 0 <= i < |order| => RowOf(order[i]));
      OrderIsContiguous(rs, order);
      KeysDiffer(order);
      ScanBackwards(order, rs);
      SweptAll(rows, old(rows), order, rs);
    }
  }

  lemma SweepRow(rows: map<Key, Key>, all: map<Key, Key>, order: seq<Key>, rs: seq<Row>, i: nat)
    requires 0 < i <= |order| == |rs| && Swept(rows, all, order, rs, i)
    requires forall a, b :: 0 <= a < b < |order| ==> order[a] != order[b]
    ensures Last(rs, i - 1) ==> Swept(rows, all, order, rs, i - 1)
    ensures !Last(rs, i - 1) ==> Swept(rows - {order[i - 1]}, all, order, rs, i - 1)
  {
  }

  lemma SweptAll(rows: map<Key, Key>, all: map<Key, Key>, order: seq<Key>, rs: seq<Row>)
    requires Lists(order, all) && Reads(rs, order) && Swept(rows, all, order, rs, 0)
    ensures rows == Deduplicated(all)
  {
    forall k | k in all ensures k in rows <==> Survives(all.Keys, k) {
      var j :| 0 <= j < |order| && order[j] == k;
      LastSurvives(rs, order, all, j);
    }
  }

  lemma KeysDiffer(order: seq<Key>)
    requires Ascending(order)
    ensures forall i, j :: 0 <= i < j < |order| ==> order[i] != order[j]
  {
    forall i, j | 0 <= i < j < |order| ensures order[i] != order[j] { LessIrreflexive(order[i]); }
  }

  // ---------- the state map ----------

  /** What a row's value parses to; `None` when it does not parse. */
  type Decoder = Key -> Option<Key>

  ghost predicate Good(rows: map<Key, Key>, decode: Decoder, k: Key)
  {
    k in rows && WellFormed(k) && decode(rows[k]).Some?
  }

  /** The parseable row of its group with the highest count. */
  ghost predicate Newest(rows: map<Key, Key>, decode: Decoder, k: Key)
  {
    Good(rows, decode, k) && forall l :: Good(rows, decode, l) && SameGroup(k, l) ==> Count(l) <= Count(k)
  }

  /** `state` maps each group with a parseable row to the newest such row, and holds nothing else. */
  ghost predicate Built(state: map<Key, (nat, Key)>, rows: map<Key, Key>, decode: Decoder)
  {
    && (forall k :: Newest(rows, decode, k) ==>
          StateKey(k) in state && state[StateKey(k)] == (Count(k), decode(rows[k]).value))
    && (forall s :: s in state ==> exists k :: Newest(rows, decode, k) && StateKey(k) == s)
  }

  /** The put of one row: malformed rows and rows that do not parse are skipped. */
  function Add(state: map<Key, (nat, Key)>, k: Key, value: Key, decode: Decoder): map<Key, (nat, Key)>
  {
    if HasRoom(k) && WellFormed(k) && decode(value).Some?
    then state[StateKey(k) := (Count(k), decode(value).value)] else state
  }

  /** `migrate_read_receipts` into the existing state map: the last put of a state key wins. */
  method MigrateReadReceipts(rows: map<Key, Key>, order: seq<Key>, decode: Decoder, initial: map<Key, (nat, Key)>)
    returns (state: map<Key, (nat, Key)>, ghost built: map<Key, (nat, Key)>)
    requires Lists(order, rows)
    ensures Overwrites(state, initial, rows, decode)
    ensures state == initial + built && Built(built, rows, decode)
  {
    state := PutAll(rows, order, decode, initial);
    built := Puts(rows, order, decode, |order|);
    ShowPuts(rows, order, decode);
    ShowOverwrites(initial, built, rows, decode);
  }

  method PutAll(rows: map<Key, Key>, order: seq<Key>, decode: Decoder, initial: map<Key, (nat, Key)>)
    returns (state: map<Key, (nat, Key)>)
    requires forall k :: k in order ==> k in rows
    ensures state == initial + Puts(rows, order, decode, |order|)
  {
    state := initial;
    for i := 0 to |order|
      invariant state == initial + Puts(rows, order, decode, i)
    {
      AddOver(initial, Puts(rows, order, decode, i), order[i], rows[order[i]], decode);
      AddIsPut(rows, order, decode, i);
      state := Add(state, order[i], rows[order[i]], decode);
    }
  }

  /** `state` holds the newest parseable row of each group, and otherwise what `initial` held. */
  ghost predicate Overwrites(state: map<Key, (nat, Key)>, initial: map<Key, (nat, Key)>, rows: map<Key, Key>,
                             decode: Decoder)
  {
    && (forall k :: Newest(rows, decode, k) ==> Holds(state, rows, decode, k))
    && (forall s :: s in initial ==> s in state)
    && (forall s :: s in state ==>
          (exists k :: Newest(rows, decode, k) && StateKey(k) == s) || (s in initial && state[s] == initial[s]))
  }

  lemma ShowOverwrites(initial: map<Key, (nat, Key)>, built: map<Key, (nat, Key)>, rows: map<Key, Key>, decode: Decoder)
    requires Built(built, rows, decode)
    ensures Overwrites(initial + built, initial, rows, decode)
  {
  }

  lemma AddOver(a: map<Key, (nat, Key)>, b: map<Key, (nat, Key)>, k: Key, value: Key, decode: Decoder)
    ensures Add(a + b, k, value, decode) == a + Add(b, k, value, decode)
  {
  }

  lemma AddIsPut(rows: map<Key, Key>, order: seq<Key>, decode: Decoder, i: nat)
    requires i < |order| && order[i] in rows
    ensures Add(Puts(rows, order, decode, i), order[i], rows[order[i]], decode) == Puts(rows, order, decode, i + 1)
  {
  }

  lemma ShowPuts(rows: map<Key, Key>, order: seq<Key>, decode: Decoder)
    requires Lists(order, rows)
    ensures Built(Puts(rows, order, decode, |order|), rows, decode)
  {
    OrderRises(rows, order, decode);
    PutsArePut(rows, order, decode, |order|);
    assert Opened(0);
    ShowBuilt(Puts(rows, order, decode, |order|), rows, order, decode);
  }

  /** The puts of the rows `order[..i]`, in order. */
  ghost function Puts(rows: map<Key, Key>, order: seq<Key>, decode: Decoder, i: nat): map<Key, (nat, Key)>
    requires i <= |order|
  {
    if i == 0 then map[]
    else
      var k, state := order[i - 1], Puts(rows, order, decode, i - 1);
      if Good(rows, decode, k) then state[StateKey(k) := (Count(k), decode(rows[k]).value)] else state
  }

  ghost predicate Opened(i: nat) { true }

  /** The puts so far are `Put`; looked into only where `Opened`. */
  ghost predicate PutSoFar(rows: map<Key, Key>, order: seq<Key>, decode: Decoder, i: nat)
    requires i <= |order|
  {
    forall x {:trigger Opened(x)} :: Opened(x) ==> Put(Puts(rows, order, decode, i), rows, order, decode, i)
  }

  lemma {:induction false} PutsArePut(rows: map<Key, Key>, order: seq<Key>, decode: Decoder, i: nat)
    requires i <= |order| && Rising(rows, order, decode)
    ensures PutSoFar(rows, order, decode, i)
  {
    if i == 0 {
      PutsStart(rows, order, decode);
    } else {
      PutsArePut(rows, order, decode, i - 1);
      PutsNext(rows, order, decode, i - 1);
    }
  }

  lemma PutsStart(rows: map<Key, Key>, order: seq<Key>, decode: Decoder)
    ensures PutSoFar(rows, order, decode, 0)
  {
    PutNothing(rows, order, decode);
  }

  lemma PutsNext(rows: map<Key, Key>, order: seq<Key>, decode: Decoder, i: nat)
    requires i < |order| && Rising(rows, order, decode) && PutSoFar(rows, order, decode, i)
    ensures PutSoFar(rows, order, decode, i + 1)
  {
    assert Opened(i);
    PutNext(Puts(rows, order, decode, i), Puts(rows, order, decode, i + 1), rows, order, decode, i);
  }

  lemma PutNothing(rows: map<Key, Key>, order: seq<Key>, decode: Decoder)
    ensures Put(map[], rows, order, decode, 0)
  {
  }

  lemma PutNext(state: map<Key, (nat, Key)>, next: map<Key, (nat, Key)>, rows: map<Key, Key>, order: seq<Key>,
                decode: Decoder, i: nat)
    requires i < |order| && Rising(rows, order, decode) && Put(state, rows, order, decode, i)
    requires next == var k := order[i];
               if Good(rows, decode, k) then state[StateKey(k) := (Count(k), decode(rows[k]).value)] else state
    ensures Put(next, rows, order, decode, i + 1)
  {
    if Good(rows, decode, order[i]) {
      PutRow(state, rows, order, decode, i);
    } else {
      SkipRow(state, rows, order, decode, i);
    }
  }

  lemma SkipRow(state: map<Key, (nat, Key)>, rows: map<Key, Key>, order: seq<Key>, decode: Decoder, i: nat)
    requires i < |order| && Put(state, rows, order, decode, i) && !Good(rows, decode, order[i])
    ensures Put(state, rows, order, decode, i + 1)
  {
    forall s | s in state ensures exists j :: 0 <= j < i + 1 && PutBy(state, rows, order[j], decode, s) {
      var j :| 0 <= j < i && PutBy(state, rows, order[j], decode, s);
    }
  }

  /** The state map after the rows `order[..i]`. */
  ghost predicate Put(state: map<Key, (nat, Key)>, rows: map<Key, Key>, order: seq<Key>, decode: Decoder, i: nat)
    requires i <= |order|
  {
    && (forall j :: 0 <= j < i && Good(rows, decode, order[j]) ==>
          StateKey(order[j]) in state && Count(order[j]) <= state[StateKey(order[j])].0)
    && (forall s :: s in state ==> exists j :: 0 <= j < i && PutBy(state, rows, order[j], decode, s))
  }

  ghost predicate PutBy(state: map<Key, (nat, Key)>, rows: map<Key, Key>, k: Key, decode: Decoder, s: Key)
  {
    Good(rows, decode, k) && StateKey(k) == s && s in state && state[s] == (Count(k), decode(rows[k]).value)
  }

  lemma PutRow(state: map<Key, (nat, Key)>, rows: map<Key, Key>, order: seq<Key>, decode: Decoder, i: nat)
    requires i < |order| && Rising(rows, order, decode) && Put(state, rows, order, decode, i)
    requires Good(rows, decode, order[i])
    ensures var k := order[i];
            Put(state[StateKey(k) := (Count(k), decode(rows[k]).value)], rows, order, decode, i + 1)
  {
    var k := order[i];
    var entry := (Count(k), decode(rows[k]).value);
    var state' := state[StateKey(k) := entry];
    forall j | 0 <= j < i + 1 && Good(rows, decode, order[j])
      ensures StateKey(order[j]) in state' && Count(order[j]) <= state'[StateKey(order[j])].0
    {
      assert Pair(j, i);
    }
    forall s | s in state' ensures exists j :: 0 <= j < i + 1 && PutBy(state', rows, order[j], decode, s) {
      PutRowBy(state, rows, order, decode, i, s);
    }
  }

  lemma PutRowBy(state: map<Key, (nat, Key)>, rows: map<Key, Key>, order: seq<Key>, decode: Decoder, i: nat, s: Key)
    requires i < |order| && Put(state, rows, order, decode, i) && Good(rows, decode, order[i])
    requires s in state || s == StateKey(order[i])
    ensures var k := order[i];
            exists j :: 0 <= j < i + 1 &&
              PutBy(state[StateKey(k) := (Count(k), decode(rows[k]).value)], rows, order[j], decode, s)
  {
    var k := order[i];
    var state' := state[StateKey(k) := (Count(k), decode(rows[k]).value)];
    if s == StateKey(k) {
      assert PutBy(state', rows, order[i], decode, s);
    } else {
      var j :| 0 <= j < i && PutBy(state, rows, order[j], decode, s);
      assert PutBy(state', rows, order[j], decode, s);
    }
  }

  /** Names two rows whose counts are about to be compared. */
  ghost predicate Pair(j: int, i: int) { true }

  /** A later row of the same state key has the higher count. */
  ghost predicate Rising(rows: map<Key, Key>, order: seq<Key>, decode: Decoder)
  {
    forall j, i {:trigger Pair(j, i)} :: Pair(j, i) && 0 <= j < i < |order| ==>
      (Good(rows, decode, order[j]) && Good(rows, decode, order[i]) && StateKey(order[j]) == StateKey(order[i]) ==>
        Count(order[j]) < Count(order[i]))
  }

  lemma OrderRises(rows: map<Key, Key>, order: seq<Key>, decode: Decoder)
    requires Lists(order, rows)
    ensures Rising(rows, order, decode)
  {
    forall j, i {:trigger Pair(j, i)} |
      Pair(j, i) && 0 <= j < i < |order| && Good(rows, decode, order[j]) && Good(rows, decode, order[i]) &&
      StateKey(order[j]) == StateKey(order[i])
      ensures Count(order[j]) < Count(order[i])
    {
      StateKeyIsGroup(order[j], order[i]);
      GroupOrder(order[j], order[i]);
    }
  }

  lemma ShowBuilt(state: map<Key, (nat, Key)>, rows: map<Key, Key>, order: seq<Key>, decode: Decoder)
    requires Lists(order, rows) && Put(state, rows, order, decode, |order|)
    ensures Built(state, rows, decode)
  {
    forall s | s in state
      ensures exists k :: Newest(rows, decode, k) && StateKey(k) == s && state[s] == (Count(k), decode(rows[k]).value)
    {
      var j :| 0 <= j < |order| && PutBy(state, rows, order[j], decode, s);
      forall l | Good(rows, decode, l) && SameGroup(order[j], l) ensures Count(l) <= Count(order[j]) {
        StateKeyIsGroup(order[j], l);
        var m :| 0 <= m < |order| && order[m] == l;
      }
      assert Newest(rows, decode, order[j]);
    }
    forall k | Newest(rows, decode, k)
      ensures StateKey(k) in state && state[StateKey(k)] == (Count(k), decode(rows[k]).value)
    {
      var m :| 0 <= m < |order| && order[m] == k;
      var l :| Newest(rows, decode, l) && StateKey(l) == StateKey(k) &&
               state[StateKey(k)] == (Count(l), decode(rows[l]).value);
      StateKeyIsGroup(k, l);
      GroupOrder(k, l);
    }
  }

  lemma NewestExists(rows: map<Key, Key>, decode: Decoder, k: Key) returns (best: Key)
    requires Good(rows, decode, k)
    ensures Newest(rows, decode, best) && SameGroup(k, best)
  {
    best := k;
    while exists l :: Good(rows, decode, l) && SameGroup(best, l) && Count(l) > Count(best)
      invariant Good(rows, decode, best) && SameGroup(k, best)
      decreases Pow256(8) - Count(best)
    {
      var l :| Good(rows, decode, l) && SameGroup(best, l) && Count(l) > Count(best);
      Split(l);
      best := l;
    }
  }

  /** `k` is what the state map already holds for its group. */
  ghost predicate Holds(state: map<Key, (nat, Key)>, rows: map<Key, Key>, decode: Decoder, k: Key)
    requires Good(rows, decode, k)
  {
    StateKey(k) in state && state[StateKey(k)] == (Count(k), decode(rows[k]).value)
  }

  /** Migrating after deduplication ends with the map migrating before it would, if and only if
      the newest parseable row of every group is its newest row, or is in the map already. */
  lemma MigrateAfterDedup(rows: map<Key, Key>, decode: Decoder, initial: map<Key, (nat, Key)>,
                          before: map<Key, (nat, Key)>, after: map<Key, (nat, Key)>)
    requires Built(before, rows, decode) && Built(after, Deduplicated(rows), decode)
    ensures initial + before == initial + after <==>
            forall k :: Newest(rows, decode, k) ==> Survives(rows.Keys, k) || Holds(initial, rows, decode, k)
  {
    forall k | Newest(rows, decode, k)
      ensures Holds(initial + before, rows, decode, k)
      ensures Holds(initial + after, rows, decode, k) <==> Survives(rows.Keys, k) || Holds(initial, rows, decode, k)
    {
      HeldAfter(rows, decode, initial, after, k);
    }
    if forall k :: Newest(rows, decode, k) ==> Holds(initial + after, rows, decode, k) {
      HeldAgree(rows, decode, initial, before, after);
    }
  }

  lemma HeldAfter(rows: map<Key, Key>, decode: Decoder, initial: map<Key, (nat, Key)>, after: map<Key, (nat, Key)>,
                  k: Key)
    requires Built(after, Deduplicated(rows), decode) && Newest(rows, decode, k)
    ensures Holds(initial + after, rows, decode, k) <==> Survives(rows.Keys, k) || Holds(initial, rows, decode, k)
  {
    if Survives(rows.Keys, k) { SurvivorIsNewest(rows, decode, k); } else { DroppedIsAbsent(rows, decode, after, k); }
  }

  lemma HeldAgree(rows: map<Key, Key>, decode: Decoder, initial: map<Key, (nat, Key)>,
                  before: map<Key, (nat, Key)>, after: map<Key, (nat, Key)>)
    requires Built(before, rows, decode) && Built(after, Deduplicated(rows), decode)
    requires forall k :: Newest(rows, decode, k) ==> Holds(initial + after, rows, decode, k)
    ensures initial + before == initial + after
  {
    var x, y := initial + before, initial + after;
    forall s | s in x ensures s in y && x[s] == y[s] {
      if s in before {
        var k :| Newest(rows, decode, k) && StateKey(k) == s;
      } else if s in after {
        AfterWithin(rows, decode, before, after, s);
      }
    }
    forall s | s in y ensures s in x {
      if s in after { AfterWithin(rows, decode, before, after, s); }
    }
    MapsEqual(x, y);
  }

  /** A surviving newest row is the newest parseable row after deduplication too. */
  lemma SurvivorIsNewest(rows: map<Key, Key>, decode: Decoder, k: Key)
    requires Newest(rows, decode, k) && Survives(rows.Keys, k)
    ensures Newest(Deduplicated(rows), decode, k)
  {
    forall l | Good(Deduplicated(rows), decode, l) && SameGroup(k, l) ensures Count(l) <= Count(k) {
      assert Good(rows, decode, l);
    }
  }

  lemma AfterWithin(rows: map<Key, Key>, decode: Decoder, before: map<Key, (nat, Key)>,
                    after: map<Key, (nat, Key)>, s: Key)
    requires Built(before, rows, decode) && Built(after, Deduplicated(rows), decode) && s in after
    ensures s in before
  {
    var k :| Newest(Deduplicated(rows), decode, k) && StateKey(k) == s;
    var best := NewestExists(rows, decode, k);
    StateKeyIsGroup(k, best);
  }

  lemma MapsEqual(s: map<Key, (nat, Key)>, t: map<Key, (nat, Key)>)
    requires forall x :: x in s ==> x in t && s[x] == t[x]
    requires forall x :: x in t ==> x in s
    ensures s == t
  {
  }

  lemma DroppedIsAbsent(rows: map<Key, Key>, decode: Decoder, after: map<Key, (nat, Key)>, k: Key)
    requires Built(after, Deduplicated(rows), decode)
    requires Newest(rows, decode, k) && !Survives(rows.Keys, k)
    ensures StateKey(k) !in after
  {
    var m :| m in rows.Keys && SameGroup(k, m) && Count(m) > Count(k);
    forall l | Newest(Deduplicated(rows), decode, l) ensures StateKey(l) != StateKey(k) {
      StateKeyIsGroup(k, l);
      if SameGroup(k, l) {
        assert Good(rows, decode, l);
        assert Count(l) <= Count(k);
        assert SameGroup(l, m);
      }
    }
  }

  /** When every row parses, the condition holds. */
  lemma AllParse(rows: map<Key, Key>, decode: Decoder, k: Key)
    requires forall x :: x in rows ==> decode(rows[x]).Some?
    requires Newest(rows, decode, k)
    ensures Survives(rows.Keys, k)
  {
    forall l | l in rows.Keys && SameGroup(k, l) ensures Count(l) <= Count(k) {
      assert Good(rows, decode, l);
    }
  }

  /** The key of a receipt: room, count and user, separated. */
  function ReceiptKey(room: Key, count: nat, user: Key): Key
    requires count < Pow256(8)
  {
    room + [SEP] + BeBytes(count, 8) + [SEP] + user
  }

  /** Such a key is well-formed and is read back, whatever the count and the user. */
  lemma ReceiptKeyParts(room: Key, count: nat, user: Key)
    requires SepFree(room) && count < Pow256(8)
    ensures var k := ReceiptKey(room, count, user);
            WellFormed(k) && Count(k) == count && Room(k) == room && User(k) == user
            && StateKey(k) == room + [SEP] + user
  {
    var k, n := ReceiptKey(room, count, user), |room|;
    assert k[..n] == room && k[n] == SEP;
    FirstSepUnique(k, n);
    assert k[n + 1..n + 9] == BeBytes(count, 8) && k[n + 9] == SEP && k[n + 10..] == user;
    BeRoundTrip(count, 8);
  }

  /** Two receipt keys are of one group exactly if room and user agree. */
  lemma ReceiptGroups(room: Key, m: nat, user: Key, room': Key, n: nat, user': Key)
    requires SepFree(room) && SepFree(room') && m < Pow256(8) && n < Pow256(8)
    ensures SameGroup(ReceiptKey(room, m, user), ReceiptKey(room', n, user')) <==> room == room' && user == user'
  {
    ReceiptKeyParts(room, m, user);
    ReceiptKeyParts(room', n, user');
  }

  /** A newest row that does not parse makes the two orders differ: the older one is migrated
      before deduplication and gone after it. */
  lemma UnparsedNewestIsLost(rows: map<Key, Key>, decode: Decoder, k: Key, l: Key,
                             before: map<Key, (nat, Key)>, after: map<Key, (nat, Key)>)
    requires SameGroup(k, l) && Count(k) < Count(l) && forall x :: x in rows <==> x == k || x == l
    requires decode(rows[k]).Some? && decode(rows[l]).None?
    requires Built(before, rows, decode) && Built(after, Deduplicated(rows), decode)
    ensures before == map[StateKey(k) := (Count(k), decode(rows[k]).value)] && after == map[]
  {
    OnlyOneGood(rows, decode, k, l);
    forall s | s in before ensures s == StateKey(k) {
      var x :| Newest(rows, decode, x) && StateKey(x) == s;
    }
    MapsEqual(before, map[StateKey(k) := (Count(k), decode(rows[k]).value)]);
    MapsEqual(after, map[]);
  }

  lemma OnlyOneGood(rows: map<Key, Key>, decode: Decoder, k: Key, l: Key)
    requires SameGroup(k, l) && Count(k) < Count(l) && forall x :: x in rows <==> x == k || x == l
    requires decode(rows[k]).Some? && decode(rows[l]).None?
    ensures Newest(rows, decode, k) && !Survives(rows.Keys, k)
    ensures forall x :: Good(rows, decode, x) ==> x == k
    ensures forall x :: !Good(Deduplicated(rows), decode, x)
  {
    assert Good(rows, decode, k) && SameGroup(k, l);
  }

  /** For instance any room and user, counts `a < b`, and only the row with count `a` parses. */
  lemma DedupChangesMigration(room: Key, user: Key, a: nat, b: nat, k: Key, l: Key, decode: Decoder,
                              before: map<Key, (nat, Key)>, after: map<Key, (nat, Key)>)
    requires SepFree(room) && a < b < Pow256(8)
    requires k == ReceiptKey(room, a, user) && l == ReceiptKey(room, b, user)
    requires decode([1]) == Some([1]) && decode([0]) == None
    requires Built(before, map[k := [1], l := [0]], decode)
    requires Built(after, Deduplicated(map[k := [1], l := [0]]), decode)
    ensures before == map[room + [SEP] + user := (a, [1])] && after == map[]
  {
    ReceiptKeyParts(room, a, user);
    ReceiptKeyParts(room, b, user);
    UnparsedNewestIsLost(map[k := [1], l := [0]], decode, k, l, before, after);
  }
}
