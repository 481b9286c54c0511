/** Prefix watchers and the order of commit and wake (src/database/watchers.rs:19-54,
    src/database/map.rs:284-293 and 354-360). `p <= k` on keys reads "p is a prefix of k". */
module Watchers {
  import opened Bytes

  /** The registered prefixes of `key` of length at most `n`, shortest first. */
  function Triggered(entries: set<Key>, key: Key, n: nat): (r: seq<Key>)
    requires n <= |key|
    ensures forall p :: p in r <==> p in entries && p <= key && |p| <= n
  {
    var before := if n == 0 then [] else Triggered(entries, key, n - 1);
    assert forall p :: p in entries && p <= key && |p| == n ==> p == key[..n];
    if key[..n] in entries then before + [key[..n]] else before
  }

  function Heard(listening: map<nat, Key>, p: Key): set<nat>
  {
    set i | i in listening && listening[i] == p
  }

  // ---------- the watchers of one map ----------

  /** `entries` are the registered prefixes, `listening` tells what each listener watches. */
  class WatcherTable {
    var entries: set<Key>
    var listening: map<nat, Key>
    var notified: set<nat>
    var issued: nat

    ghost predicate Valid()
      reads this
    {
      && (forall i :: i in listening ==> i < issued && listening[i] in entries)
      && notified <= listening.Keys
    }

    constructor ()
      ensures Valid() && entries == {} && listening == map[] && notified == {} && issued == 0
    {
      entries, listening, notified, issued := {}, map[], {}, 0;
    }

    /** Registers the prefix if it is new and listens on it; the new listener is not notified. */
    method Watch(prefix: Key) returns (listener: nat)
      requires Valid()
      modifies this
      ensures Valid() && entries == old(entries) + {prefix} && notified == old(notified)
      ensures listener !in old(listening) && listening == old(listening)[listener := prefix]
    {
      if prefix !in entries { entries := entries + {prefix}; }
      listener := issued;
      issued := issued + 1;
      listening := listening[listener := prefix];
    }

    /** Notifies exactly the listeners whose prefix the key starts with. */
    method Wake(key: Key)
      requires Valid()
      modifies this`notified
      ensures Valid()
      ensures notified == old(notified) + set i | i in listening && listening[i] <= key
    {
      var triggered: seq<Key> := [];
      for length := 0 to |key| + 1
        invariant triggered == if length == 0 then [] else Triggered(entries, key, length - 1)
      {
        if key[..length] in entries { triggered := triggered + [key[..length]]; }
      }
      for n := 0 to |triggered|
        invariant Valid()
        invariant notified == old(notified) + set i | i in listening && listening[i] in triggered[..n]
      {
        if triggered[n] in entries { notified := notified + Heard(listening, triggered[n]); }
      }
    }
  }

  // ---------- readers and writers, interleaved ----------

  /** A reader watches a prefix and then reads. Registering the prefix and listening on it are two
      steps, since the lock is released in between. `since` and `saw` are the number of commits
      when it began to listen and when it read. */
  datatype Reader =
    | Start(prefix: Key)
    | Registered(prefix: Key)
    | Watching(prefix: Key, since: nat, notified: bool)
    | HasRead(prefix: Key, since: nat, saw: nat, notified: bool)

  /** A writer commits a batch of keys and then wakes each key in turn: it collects the registered
      prefixes of the key under the read lock and later notifies them one by one. */
  datatype Writer =
    | Ready(keys: seq<Key>)
    | Waking(keys: seq<Key>, done: nat, triggered: Option<seq<Key>>)

  /** `log` lists the writers whose batch is committed, in commit order. */
  datatype State = State(log: seq<nat>, entries: set<Key>, readers: map<nat, Reader>, writers: map<nat, Writer>)

  datatype Action = Register(id: nat) | Listen(id: nat) | Read(id: nat) | Commit(id: nat) | Collect(id: nat)
    | Notify(id: nat) | Finish(id: nat)

  ghost predicate Init(s: State)
  {
    && s.log == [] && s.entries == {}
    && (forall r :: r in s.readers ==> s.readers[r].Start?)
    && (forall w :: w in s.writers ==> s.writers[w].Ready?)
  }

  predicate Listens(r: Reader)
  {
    r.Watching? || r.HasRead?
  }

  /** An event reaches whoever listens on its prefix at that moment. */
  function Reached(r: Reader, p: Key): Reader
  {
    if Listens(r) && r.prefix == p then r.(notified := true) else r
  }

  predicate Enabled(s: State, a: Action)
  {
    match a
    case Register(r) => r in s.readers && s.readers[r].Start?
    case Listen(r) => r in s.readers && s.readers[r].Registered?
    case Read(r) => r in s.readers && s.readers[r].Watching?
    case Commit(w) => w in s.writers && s.writers[w].Ready?
    case Collect(w) =>
      && w in s.writers && s.writers[w].Waking?
      && s.writers[w].triggered.None? && s.writers[w].done < |s.writers[w].keys|
    case Notify(w) =>
      && w in s.writers && s.writers[w].Waking?
      && s.writers[w].triggered.Some? && s.writers[w].triggered.value != []
    case Finish(w) => w in s.writers && s.writers[w].Waking? && s.writers[w].triggered == Some([])
  }

  function Apply(s: State, a: Action): State
    requires Enabled(s, a)
  {
    match a
    case Register(r) =>
      var p := s.readers[r].prefix;
      s.(entries := s.entries + {p}, readers := s.readers[r := Registered(p)])
    case Listen(r) => s.(readers := s.readers[r := Watching(s.readers[r].prefix, |s.log|, false)])
    case Read(r) =>
      var reader := s.readers[r];
      s.(readers := s.readers[r := HasRead(reader.prefix, reader.since, |s.log|, reader.notified)])
    case Commit(w) => s.(log := s.log + [w], writers := s.writers[w := Waking(s.writers[w].keys, 0, None)])
    case Collect(w) =>
      var writer := s.writers[w];
      var key := writer.keys[writer.done];
      s.(writers := s.writers[w := writer.(triggered := Some(Triggered(s.entries, key, |key|)))])
    case Notify(w) =>
      var writer := s.writers[w];
      var ts := writer.triggered.value;
      s.(readers := map r | r in s.readers :: Reached(s.readers[r], ts[0]),
         writers := s.writers[w := writer.(triggered := Some(ts[1..]))])
    case Finish(w) =>
      var writer := s.writers[w];
      s.(writers := s.writers[w := writer.(done := writer.done + 1, triggered := None)])
  }

  // ---------- what every step keeps ----------

  /** Every reader past its first step has its prefix registered, and listened before it read. */
  ghost predicate ReadersOk(s: State)
  {
    forall r :: r in s.readers ==>
      && (!s.readers[r].Start? ==> s.readers[r].prefix in s.entries)
      && (Listens(s.readers[r]) ==> s.readers[r].since <= |s.log|)
      && (s.readers[r].HasRead? ==> s.readers[r].since <= s.readers[r].saw <= |s.log|)
  }

  /** A writer wakes only after its commit, and only prefixes of the key it is at. */
  ghost predicate WritersOk(s: State)
  {
    forall w :: w in s.writers ==> (s.writers[w].Waking? <==> w in s.log) && WriterOk(s.writers[w])
  }

  ghost predicate WriterOk(w: Writer)
  {
    w.Waking? && w.triggered.Some? ==>
      w.done < |w.keys| && forall t :: t in w.triggered.value ==> t <= w.keys[w.done]
  }

  /** The writer will still notify `p` for each of its keys that starts with `p`. */
  ghost predicate Owes(w: Writer, p: Key)
  {
    w.Waking? ==>
      forall j :: 0 <= j < |w.keys| && p <= w.keys[j] ==>
        w.done <= j && (j == w.done && w.triggered.Some? ==> p in w.triggered.value)
  }

  /** A listener not yet notified is owed every write committed since it began to listen. */
  ghost predicate Owed(s: State)
  {
    forall r, w :: r in s.readers && w in s.writers ==> OwedBy(s.log, s.readers[r], w, s.writers[w])
  }

  ghost predicate OwedBy(log: seq<nat>, r: Reader, id: nat, w: Writer)
  {
    Listens(r) && !r.notified && r.since <= |log| && id !in log[..r.since] ==> Owes(w, r.prefix)
  }

  /** Whoever is notified watches a prefix of a committed key. */
  ghost predicate Justified(s: State)
  {
    forall r :: r in s.readers && Listens(s.readers[r]) && s.readers[r].notified ==> Written(s, s.readers[r].prefix)
  }

  /** Some committed key starts with `p`. */
  ghost predicate Written(s: State, p: Key)
  {
    exists w :: w in s.writers && w in s.log && exists j :: 0 <= j < |s.writers[w].keys| && p <= s.writers[w].keys[j]
  }

  ghost predicate Inv(s: State)
  {
    ReadersOk(s) && WritersOk(s) && Owed(s) && Justified(s)
  }

  lemma StepKeepsReaders(s: State, a: Action)
    requires Enabled(s, a) && ReadersOk(s)
    ensures ReadersOk(Apply(s, a))
  {
  }

  lemma StepKeepsWriters(s: State, a: Action)
    requires Enabled(s, a) && WritersOk(s)
    ensures WritersOk(Apply(s, a))
  {
    var s' := Apply(s, a);
    forall w | w in s'.writers ensures (s'.writers[w].Waking? <==> w in s'.log) && WriterOk(s'.writers[w]) {
      var before := s.writers[w];
      if a == Collect(w) {
        assert s'.writers[w].done < |before.keys|;
      } else if a == Notify(w) {
        var ts := before.triggered.value;
        assert forall t :: t in ts[1..] ==> t in ts;
      }
    }
  }

  /** One reader and one writer: what is owed stays owed until the reader is notified. */
  lemma PairKept(s: State, a: Action, r: nat, w: nat)
    requires Enabled(s, a) && ReadersOk(s) && WritersOk(s) && r in s.readers && w in s.writers
    requires OwedBy(s.log, s.readers[r], w, s.writers[w])
    ensures var s' := Apply(s, a); OwedBy(s'.log, s'.readers[r], w, s'.writers[w])
  {
    var s' := Apply(s, a);
    var p, before, after := s.readers[r].prefix, s.writers[w], s'.writers[w];
    match a
    case Register(_) =>
    case Read(_) =>
    case Listen(_) => assert s.log[..|s.log|] == s.log;
    case Commit(_) => assert Listens(s.readers[r]) ==> s'.log[..s.readers[r].since] == s.log[..s.readers[r].since];
    case Collect(_) =>
    case Notify(id) =>
      if id == w {
        var ts := before.triggered.value;
        assert p in ts ==> p == ts[0] || p in ts[1..];
      }
    case Finish(_) =>
  }

  lemma StepKeepsOwed(s: State, a: Action)
    requires Enabled(s, a) && ReadersOk(s) && WritersOk(s) && Owed(s)
    ensures Owed(Apply(s, a))
  {
    var s' := Apply(s, a);
    forall r, w | r in s'.readers && w in s'.writers ensures OwedBy(s'.log, s'.readers[r], w, s'.writers[w]) {
      PairKept(s, a, r, w);
    }
  }

  lemma StaysWritten(s: State, a: Action, p: Key)
    requires Enabled(s, a) && Written(s, p)
    ensures Written(Apply(s, a), p)
  {
    var s' := Apply(s, a);
    var w :| w in s.writers && w in s.log && exists j :: 0 <= j < |s.writers[w].keys| && p <= s.writers[w].keys[j];
    var j :| 0 <= j < |s.writers[w].keys| && p <= s.writers[w].keys[j];
    assert s'.writers[w].keys == s.writers[w].keys;
    assert p <= s'.writers[w].keys[j];
  }

  lemma StepKeepsJustified(s: State, a: Action)
    requires Enabled(s, a) && WritersOk(s) && Justified(s)
    ensures Justified(Apply(s, a))
  {
    var s' := Apply(s, a);
    forall r | r in s'.readers && Listens(s'.readers[r]) && s'.readers[r].notified
      ensures Written(s', s'.readers[r].prefix)
    {
      var p := s.readers[r].prefix;
      if Listens(s.readers[r]) && s.readers[r].notified {
        StaysWritten(s, a, p);
      } else {
        var w := s.writers[a.id];
        assert a.Notify? && p == w.triggered.value[0];
        assert p in w.triggered.value;
        assert p <= w.keys[w.done];
        assert Written(s, p);
        StaysWritten(s, a, p);
      }
    }
  }

  /** The states of one interleaving. */
  ghost predicate Run(trace: seq<State>)
  {
    && trace != [] && Init(trace[0])
    && (forall i :: 0 < i < |trace| ==> Step(trace[i - 1], trace[i]))
  }

  ghost predicate Step(s: State, s': State)
  {
    exists a :: Enabled(s, a) && s' == Apply(s, a)
  }

  lemma {:induction false} Reaches(trace: seq<State>, i: nat)
    requires Run(trace) && i < |trace|
    ensures Inv(trace[i])
  {
    if i > 0 {
      Reaches(trace, i - 1);
      assert Step(trace[i - 1], trace[i]);
      var a :| Enabled(trace[i - 1], a) && trace[i] == Apply(trace[i - 1], a);
      StepKeepsReaders(trace[i - 1], a);
      StepKeepsWriters(trace[i - 1], a);
      StepKeepsOwed(trace[i - 1], a);
      StepKeepsJustified(trace[i - 1], a);
    }
  }

  /** The write of `w` was committed when the reader read. */
  ghost predicate Saw(log: seq<nat>, r: Reader, w: nat)
    requires r.HasRead?
  {
    exists i :: 0 <= i < |log| && i < r.saw && log[i] == w
  }

  /** No lost wake-up: in every interleaving, a reader that watched `p`, then read, and missed a
      write to a key starting with `p` is notified by the time the writer has woken that key. */
  lemma NoLostWakeUp(trace: seq<State>, i: nat, r: nat, w: nat, j: nat)
    requires Run(trace) && i < |trace|
    requires var s := trace[i];
             && r in s.readers && s.readers[r].HasRead? && w in s.writers && s.writers[w].Waking?
             && !Saw(s.log, s.readers[r], w)
             && j < s.writers[w].done && j < |s.writers[w].keys| && s.readers[r].prefix <= s.writers[w].keys[j]
    ensures trace[i].readers[r].notified
  {
    Reaches(trace, i);
    var s := trace[i];
    var reader := s.readers[r];
    assert w !in s.log[..reader.since];
    assert OwedBy(s.log, reader, w, s.writers[w]);
  }

  /** Nobody is notified without a committed write to a key starting with the watched prefix. */
  lemma WakeUpsAreJustified(trace: seq<State>, i: nat, r: nat)
    requires Run(trace) && i < |trace| && r in trace[i].readers
    requires Listens(trace[i].readers[r]) && trace[i].readers[r].notified
    ensures Written(trace[i], trace[i].readers[r].prefix)
  {
    Reaches(trace, i);
  }

  // ---------- a writer gets through its keys ----------

  lemma {:induction false} TriggeredLength(entries: set<Key>, key: Key, n: nat)
    requires n <= |key|
    ensures |Triggered(entries, key, n)| <= n + 1
  {
    if n > 0 { TriggeredLength(entries, key, n - 1); }
  }

  function KeysLeft(keys: seq<Key>, i: nat): nat
    decreases |keys| - i
  {
    if i >= |keys| then 0 else |keys[i]| + 3 + KeysLeft(keys, i + 1)
  }

  /** A bound on the steps a writer has left. */
  function StepsLeft(w: Writer): nat
    requires w.Waking?
  {
    if w.done >= |w.keys| then 0
    else KeysLeft(w.keys, w.done + 1) + if w.triggered.None? then |w.keys[w.done]| + 3 else |w.triggered.value| + 1
  }

  predicate Wakes(a: Action, w: nat)
  {
    a == Collect(w) || a == Notify(w) || a == Finish(w)
  }

  /** A committed writer that has not woken all its keys can always take a step, */
  lemma WriterIsNeverStuck(s: State, w: nat)
    requires w in s.writers && s.writers[w].Waking? && s.writers[w].done < |s.writers[w].keys|
    ensures exists a :: Wakes(a, w) && Enabled(s, a)
  {
    var writer := s.writers[w];
    var a := if writer.triggered.None? then Collect(w)
             else if writer.triggered.value != [] then Notify(w) else Finish(w);
    assert Wakes(a, w) && Enabled(s, a);
  }

  /** each of its steps brings it closer to its end, and nobody else's step changes it. */
  lemma WriterAdvances(s: State, a: Action, w: nat)
    requires WritersOk(s) && Enabled(s, a) && w in s.writers && s.writers[w].Waking?
    ensures w in Apply(s, a).writers && Apply(s, a).writers[w].Waking?
    ensures Wakes(a, w) ==> StepsLeft(Apply(s, a).writers[w]) < StepsLeft(s.writers[w])
    ensures !Wakes(a, w) ==> Apply(s, a).writers[w] == s.writers[w]
    ensures Apply(s, a).writers[w].keys == s.writers[w].keys
  {
    var writer := s.writers[w];
    if a == Collect(w) {
      var key := writer.keys[writer.done];
      TriggeredLength(s.entries, key, |key|);
    }
  }

  /** With no steps left, every key has been woken. */
  lemma DoneAtTheEnd(w: Writer)
    requires w.Waking? && StepsLeft(w) == 0
    ensures w.done >= |w.keys|
  {
  }
}
