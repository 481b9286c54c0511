/** Default pruning of stored JSON objects (src/database/dbkey.rs:499-527). */
module PruneDefaults {

  datatype Value =
    | Null
    | Bool(b: bool)
    | Number(n: int)
    | Text(s: string)
    | Array(items: seq<Value>)
    | Object(fields: map<string, Value>)

  /** A pruned child that is dropped: an empty object whose default is an object. */
  predicate Vanishes(child: Value, default: Value)
  {
    child.Object? && child.fields == map[] && default.Object?
  }

  /** `value` without the members that hold their default, at every object level. */
  function Prune(value: Value, default: Value): Value
    decreases value
  {
    if value.Object? && default.Object? then
      Object(map k | k in value.fields &&
                     (k in default.fields ==>
                        value.fields[k] != default.fields[k] &&
                        !Vanishes(Prune(value.fields[k], default.fields[k]), default.fields[k])) ::
               if k in default.fields then Prune(value.fields[k], default.fields[k]) else value.fields[k])
    else value
  }

  /** Whether a member survives pruning against the default object's members. */
  predicate Keeps(key: string, child: Value, defaults: map<string, Value>)
  {
    key in defaults ==> child != defaults[key] && !Vanishes(Prune(child, defaults[key]), defaults[key])
  }

  lemma PruneAt(value: Value, default: Value, k: string)
    requires value.Object? && default.Object? && k in value.fields
    ensures k in Prune(value, default).fields <==> Keeps(k, value.fields[k], default.fields)
    ensures k in Prune(value, default).fields ==>
              Prune(value, default).fields[k] ==
              if k in default.fields then Prune(value.fields[k], default.fields[k]) else value.fields[k]
  {
  }

  /** Reading a pruned value back: members it lacks hold their default. */
  function Overlay(default: Value, pruned: Value): Value
    decreases pruned
  {
    if default.Object? && pruned.Object? then
      Object(map k | k in default.fields.Keys + pruned.fields.Keys ::
               if k !in pruned.fields then default.fields[k]
               else if k in default.fields then Overlay(default.fields[k], pruned.fields[k])
               else pruned.fields[k])
    else pruned
  }

  /** `value` has every key of the default, at each level where both are objects. */
  predicate Covers(value: Value, default: Value)
    decreases value
  {
    value.Object? && default.Object? ==>
      && default.fields.Keys <= value.fields.Keys
      && forall k :: k in value.fields && k in default.fields ==> Covers(value.fields[k], default.fields[k])
  }

  /** `prune_defaults`: `retain` over the members, editing each survivor in place. */
  method PruneDefaults(value: Value, default: Value) returns (r: Value)
    ensures r == Prune(value, default)
    decreases value
  {
    if !value.Object? || !default.Object? { return value; }
    var members := value.fields;
    var todo := members.Keys;
    while todo != {}
      invariant todo <= value.fields.Keys && todo <= members.Keys <= value.fields.Keys
      invariant forall k :: k in todo ==> members[k] == value.fields[k]
      invariant forall k :: k in value.fields && k !in todo ==>
                  (k in members <==> Keeps(k, value.fields[k], default.fields))
      invariant forall k :: k in members && k !in todo ==>
                  members[k] == if k in default.fields then Prune(value.fields[k], default.fields[k])
                               else value.fields[k]
    {
      var key :| key in todo;
      todo := todo - {key};
      if key in default.fields {
        if members[key] == default.fields[key] {
          members := members - {key};
        } else {
          var child := PruneDefaults(value.fields[key], default.fields[key]);
          if Vanishes(child, default.fields[key]) {
            members := members - {key};
          } else {
            members := members[key := child];
          }
        }
      }
    }
    r := Object(members);
  }

  lemma {:induction false} CoversSelf(v: Value)
    ensures Covers(v, v)
  {
    if v.Object? {
      forall k | k in v.fields ensures Covers(v.fields[k], v.fields[k]) { CoversSelf(v.fields[k]); }
    }
  }

  lemma OverlayAt(default: Value, pruned: Value, k: string)
    requires default.Object? && pruned.Object? && k in default.fields
    ensures k in Overlay(default, pruned).fields
    ensures Overlay(default, pruned).fields[k] ==
              if k in pruned.fields then Overlay(default.fields[k], pruned.fields[k]) else default.fields[k]
  {
  }

  lemma OverlayNothing(default: Value)
    requires default.Object?
    ensures Overlay(default, Object(map[])) == default
  {
    assert Overlay(default, Object(map[])).fields == default.fields;
  }

  /** One member of the round trip below. */
  lemma MemberRoundTrip(k: string, value: Value, default: Value)
    requires value.Object? && default.Object? && k in value.fields && k in default.fields
    requires Overlay(default.fields[k], Prune(value.fields[k], default.fields[k])) == value.fields[k] <==>
               Covers(value.fields[k], default.fields[k])
    ensures var back := Overlay(default, Prune(value, default));
            k in back.fields && (back.fields[k] == value.fields[k] <==> Covers(value.fields[k], default.fields[k]))
  {
    var v, d := value.fields[k], default.fields[k];
    PruneAt(value, default, k);
    OverlayAt(default, Prune(value, default), k);
    if v == d {
      CoversSelf(v);
    } else if Vanishes(Prune(v, d), d) {
      OverlayNothing(d);
    }
  }

  /** Overlaying the pruned value on the default restores the original if and only if the
      original has all the default's keys at each object level. */
  lemma {:induction false} PruneRoundTrip(value: Value, default: Value)
    ensures Overlay(default, Prune(value, default)) == value <==> Covers(value, default)
    decreases value
  {
    if value.Object? && default.Object? {
      var back := Overlay(default, Prune(value, default));
      assert back.fields.Keys == default.fields.Keys + Prune(value, default).fields.Keys;
      forall k | k in value.fields && k in default.fields
        ensures back.fields[k] == value.fields[k] <==> Covers(value.fields[k], default.fields[k])
      {
        PruneRoundTrip(value.fields[k], default.fields[k]);
        MemberRoundTrip(k, value, default);
      }
      forall k | k in value.fields && k !in default.fields
        ensures k in back.fields && back.fields[k] == value.fields[k]
      {
        PruneAt(value, default, k);
      }
      if Covers(value, default) { assert back.fields == value.fields; }
    }
  }

  /** A member that is kept does not prune to its own default. */
  lemma {:induction false} KeptDiffers(value: Value, default: Value)
    requires value != default && !Vanishes(Prune(value, default), default)
    ensures Prune(value, default) != default
    decreases value
  {
    if value.Object? && default.Object? {
      var pruned := Prune(value, default);
      var k :| k in pruned.fields;
      if k in default.fields { KeptDiffers(value.fields[k], default.fields[k]); }
    }
  }

  /** Pruning twice equals pruning once. */
  lemma {:induction false} PruneStable(value: Value, default: Value)
    ensures Prune(Prune(value, default), default) == Prune(value, default)
    decreases value
  {
    if value.Object? && default.Object? {
      var once := Prune(value, default);
      forall k | k in once.fields && k in default.fields
        ensures Keeps(k, once.fields[k], default.fields)
        ensures Prune(once.fields[k], default.fields[k]) == once.fields[k]
      {
        PruneAt(value, default, k);
        PruneStable(value.fields[k], default.fields[k]);
        KeptDiffers(value.fields[k], default.fields[k]);
      }
      assert Prune(once, default).fields == once.fields;
    }
  }

  /** Without the missing keys the original is gone: an object that only omits a key of its
      default is pruned away and reads back as the default. */
  lemma OmittedKeyIsLost()
    ensures var default := Object(map["a" := Object(map["x" := Number(1), "y" := Number(2)])]);
            var value := Object(map["a" := Object(map["x" := Number(1)])]);
            Prune(value, default) == Object(map[]) && Overlay(default, Prune(value, default)) == default != value
  {
    var default := Object(map["a" := Object(map["x" := Number(1), "y" := Number(2)])]);
    var value := Object(map["a" := Object(map["x" := Number(1)])]);
    var v, d := value.fields["a"], default.fields["a"];
    assert "y" in d.fields && "y" !in v.fields;
    assert Prune(v, d).fields == map[];
    assert Prune(value, default).fields == map[];
    assert Overlay(default, Object(map[])).fields == default.fields;
  }

  /** Nothing in `v` is what the default already says: at no object level does a member equal its
      default, or is an empty object where the default has an object. */
  predicate Lean(v: Value, default: Value)
    decreases v
  {
    v.Object? && default.Object? ==>
      forall k :: k in v.fields && k in default.fields ==>
        && v.fields[k] != default.fields[k]
        && !(v.fields[k] == Object(map[]) && default.fields[k].Object?)
        && Lean(v.fields[k], default.fields[k])
  }

  /** What is left after pruning is lean. */
  lemma {:induction false} PruneIsLean(value: Value, default: Value)
    ensures Lean(Prune(value, default), default)
    decreases value
  {
    if value.Object? && default.Object? {
      var pruned := Prune(value, default);
      forall k | k in pruned.fields && k in default.fields
        ensures pruned.fields[k] != default.fields[k] && Lean(pruned.fields[k], default.fields[k])
        ensures !(pruned.fields[k] == Object(map[]) && default.fields[k].Object?)
      {
        PruneAt(value, default, k);
        KeptDiffers(value.fields[k], default.fields[k]);
        PruneIsLean(value.fields[k], default.fields[k]);
      }
    }
  }

  /** Every member of `a` is in `b`, at each level where the default has an object too. */
  predicate Inside(a: Value, b: Value, default: Value)
    decreases a
  {
    a.Object? && b.Object? && default.Object? ==>
      && a.fields.Keys <= b.fields.Keys
      && forall k :: k in a.fields && k in default.fields ==> Inside(a.fields[k], b.fields[k], default.fields[k])
  }

  /** Nothing smaller reads back as the value: whatever restores it holds all that pruning keeps. */
  lemma {:induction false} PruneIsSmallest(value: Value, default: Value, other: Value)
    requires Overlay(default, other) == value
    ensures Inside(Prune(value, default), other, default)
    decreases value
  {
    var pruned := Prune(value, default);
    if pruned.Object? && other.Object? && default.Object? {
      forall k | k in pruned.fields
        ensures k in other.fields
        ensures k in default.fields ==> Inside(pruned.fields[k], other.fields[k], default.fields[k])
      {
        PruneAt(value, default, k);
        if k in default.fields {
          OverlayAt(default, other, k);
          PruneIsSmallest(value.fields[k], default.fields[k], other.fields[k]);
        }
      }
    }
  }
}
