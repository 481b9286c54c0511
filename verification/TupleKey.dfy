/** The tuple key codec: a separator-based writer (src/database/ser.rs) and a
    cursor-based reader (src/database/de.rs) over the same byte format. */
module TupleKey {
  import opened Bytes

  /** A value the schema can hold. `Str` stands for the bytes of a UTF-8 string. */
  datatype Field =
    | Str(s: Key)
    | U64(n: nat)
    | I64(i: int)
    | I32(j: int)
    | Boolean(b: bool)
    | Raw(bytes: Key)
    | Absent
    | Present(inner: Field)

  /** The type the reader is asked for. */
  datatype FieldType = TStr | TU64 | TI64 | TI32 | TBool | TRaw | TOpt(inner: FieldType)

  /** What a tuple may hold on the writing side: a field, or one of the two
      prefix-keying directives. */
  datatype Item = Value(field: Field) | Interfix | Separator

  ghost predicate HasType(f: Field, ty: FieldType)
  {
    match (f, ty)
    case (Str(s), TStr) => SepFree(s)
    case (U64(n), TU64) => n < Pow256(8)
    case (I64(i), TI64) => FitsSigned(i, 8)
    case (I32(i), TI32) => FitsSigned(i, 4)
    case (Boolean(_), TBool) => true
    case (Raw(_), TRaw) => true
    case (Absent, TOpt(_)) => true
    case (Present(g), TOpt(t)) => HasType(g, t)
    case _ => false
  }

  /** Integers are within their declared width. */
  predicate InRange(f: Field)
  {
    match f
    case U64(n) => n < Pow256(8)
    case I64(i) => FitsSigned(i, 8)
    case I32(i) => FitsSigned(i, 4)
    case Present(g) => InRange(g)
    case _ => true
  }

  ghost predicate HasTypes(fs: seq<Field>, tys: seq<FieldType>)
  {
    |fs| == |tys| && forall i :: 0 <= i < |fs| ==> HasType(fs[i], tys[i])
  }

  lemma {:induction false} TypedInRange(f: Field, ty: FieldType)
    requires HasType(f, ty)
    ensures InRange(f)
  {
    if f.Present? { TypedInRange(f.inner, ty.inner); }
  }

  // ---------- the bytes of a tuple ----------

  function Encode(f: Field): Key
    requires InRange(f)
  {
    match f
    case Str(s) => s
    case U64(n) => BeBytes(n, 8)
    case I64(i) => SignedBytes(i, 8)
    case I32(i) => SignedBytes(i, 4)
    case Boolean(b) => [if b then 1 else 0]
    case Raw(s) => s
    case Absent => []
    case Present(g) => Encode(g)
  }

  predicate ItemInRange(item: Item) { item.Value? ==> InRange(item.field) }

  function EncodeItem(item: Item): Key
    requires ItemInRange(item)
  {
    match item
    case Value(f) => Encode(f)
    case Interfix => []
    case Separator => [SEP]
  }

  /** The records of `items`, each after a separator unless nothing was started yet. */
  function Records(items: seq<Item>, started: bool): Key
    requires forall i :: 0 <= i < |items| ==> ItemInRange(items[i])
  {
    if items == [] then []
    else (if started then [SEP] else []) + EncodeItem(items[0]) + Records(items[1..], true)
  }

  function Values(fs: seq<Field>): (items: seq<Item>)
    ensures |items| == |fs|
    ensures forall i :: 0 <= i < |fs| ==> items[i] == Value(fs[i])
  {
    if fs == [] then [] else [Value(fs[0])] + Values(fs[1..])
  }

  function EncodeTuple(fs: seq<Field>): Key
    requires forall i :: 0 <= i < |fs| ==> InRange(fs[i])
  {
    Records(Values(fs), false)
  }

  lemma RecordsStep(items: seq<Item>, i: nat, started: bool)
    requires i < |items| && forall j :: 0 <= j < |items| ==> ItemInRange(items[j])
    ensures Records(items[i..], started) ==
              (if started then [SEP] else []) + EncodeItem(items[i]) + Records(items[i + 1..], true)
  {
    assert items[i..][1..] == items[i + 1..];
  }

  lemma Regroup(a: Key, b: Key, c: Key, d: Key)
    ensures a + (b + c + d) == a + b + c + d
  {
  }

  class Serializer {
    var out: Key
    var sep: bool

    constructor ()
      ensures out == [] && !sep
    {
      out, sep := [], false;
    }

    method WriteSeparator()
      modifies this
      ensures out == old(out) + [SEP] && sep == old(sep)
    {
      out := out + [SEP];
    }

    method RecordStart()
      modifies this
      ensures out == old(out) + (if old(sep) then [SEP] else []) && sep
    {
      var started := sep;
      sep := true;
      if started { WriteSeparator(); }
    }

    method SerializeItem(item: Item)
      requires ItemInRange(item)
      modifies this
      ensures out == old(out) + EncodeItem(item) && sep == old(sep)
    {
      match item
      case Value(f) => out := out + Encode(f);
      case Interfix =>
      case Separator => WriteSeparator();
    }

    /** Serializing a tuple appends exactly `Records`. */
    method SerializeTuple(items: seq<Item>)
      requires forall i :: 0 <= i < |items| ==> ItemInRange(items[i])
      modifies this
      ensures out == old(out) + Records(items, old(sep))
    {
      var i := 0;
      while i < |items|
        invariant 0 <= i <= |items|
        invariant out + Records(items[i..], sep) == old(out) + Records(items, old(sep))
      {
        RecordsStep(items, i, sep);
        Regroup(out, if sep then [SEP] else [], EncodeItem(items[i]), Records(items[i + 1..], true));
        RecordStart();
        SerializeItem(items[i]);
        i := i + 1;
      }
      assert out + [] == out;
    }
  }

  // ---------- reading it back ----------

  datatype Parsed = Got(field: Field, rest: Key) | Underflow

  function DecodeField(input: Key, ty: FieldType): (r: Parsed)
    ensures r.Got? ==> |r.rest| <= |input| && r.rest == input[|input| - |r.rest|..]
  {
    match ty
    case TStr => var n := FirstSep(input); Got(Str(input[..n]), input[n..])
    case TU64 => if |input| < 8 then Underflow else Got(U64(BeNat(input[..8])), input[8..])
    case TI64 => if |input| < 8 then Underflow else Got(I64(BeInt(input[..8])), input[8..])
    case TI32 => if |input| < 4 then Underflow else Got(I32(BeInt(input[..4])), input[4..])
    case TBool => if |input| < 1 then Underflow else Got(Boolean(input[0] != 0), input[1..])
    case TRaw => Got(Raw(input), [])
    case TOpt(t) =>
      if input == [] || input[0] == SEP then Got(Absent, input)
      else
        var r := DecodeField(input, t);
        if r.Got? then r.(field := Present(r.field)) else r
  }

  datatype Decoded = Fields(fs: seq<Field>, rest: Key) | Error

  /** One byte, the separator, precedes every record but the first. */
  function Skip(input: Key, started: bool): Key
    requires input != []
  {
    if started then input[1..] else input
  }

  /** The tuple visitor: one element per type, failing when the input is
      exhausted before an element. */
  function DecodeElements(input: Key, tys: seq<FieldType>, started: bool): Decoded
    decreases |tys|
  {
    if tys == [] then Fields([], input)
    else if input == [] then Error
    else
      match DecodeField(Skip(input, started), tys[0])
      case Underflow => Error
      case Got(f, rest) =>
        match DecodeElements(rest, tys[1..], true)
        case Error => Error
        case Fields(fs, rest') => Fields([f] + fs, rest')
  }

  function DecodeTuple(input: Key, tys: seq<FieldType>): Decoded
  {
    DecodeElements(input, tys, false)
  }

  function Prepend(fs: seq<Field>, d: Decoded): Decoded
  {
    if d.Error? then Error else Fields(fs + d.fs, d.rest)
  }

  lemma DecodeStep(fs: seq<Field>, input: Key, tys: seq<FieldType>, i: nat, started: bool)
    requires i < |tys|
    ensures input == [] ==> DecodeElements(input, tys[i..], started) == Error
    ensures input != [] ==>
              match DecodeField(Skip(input, started), tys[i])
              case Underflow => DecodeElements(input, tys[i..], started) == Error
              case Got(f, rest) =>
                Prepend(fs, DecodeElements(input, tys[i..], started)) ==
                Prepend(fs + [f], DecodeElements(rest, tys[i + 1..], true))
  {
    assert tys[i..][1..] == tys[i + 1..];
    if input != [] {
      var r := DecodeField(Skip(input, started), tys[i]);
      if r.Got? {
        var d := DecodeElements(r.rest, tys[i + 1..], true);
        if d.Fields? { assert fs + ([r.field] + d.fs) == fs + [r.field] + d.fs; }
      }
    }
  }

  class Deserializer {
    const buf: Key
    var pos: nat
    var rec: nat

    ghost predicate Valid()
      reads this
    {
      pos <= |buf| && (pos > 0 ==> rec > 0)
    }

    ghost function Rest(): Key
      requires Valid()
      reads this
    {
      buf[pos..]
    }

    constructor (input: Key)
      ensures Valid() && buf == input && pos == 0 && rec == 0
    {
      buf, pos, rec := input, 0, 0;
    }

    method RecordStart()
      requires Valid() && pos < |buf|
      modifies this
      ensures Valid() && rec == old(rec) + 1
      ensures Rest() == Skip(old(Rest()), old(rec) > 0)
    {
      var started := pos != 0 || rec > 0;
      if started { pos := pos + 1; }
      rec := rec + 1;
    }

    method RecordNext() returns (record: Key)
      requires Valid() && rec > 0
      modifies this
      ensures Valid() && rec == old(rec)
      ensures record == old(Rest())[..FirstSep(old(Rest()))]
      ensures Rest() == old(Rest())[FirstSep(old(Rest()))..]
    {
      var n := 0;
      while pos + n < |buf| && buf[pos + n] != SEP
        invariant 0 <= n <= |buf| - pos
        invariant SepFree(buf[pos..][..n])
      {
        assert buf[pos..][..n + 1] == buf[pos..][..n] + [buf[pos + n]];
        n := n + 1;
      }
      FirstSepUnique(buf[pos..], n);
      record := buf[pos..pos + n];
      pos := pos + n;
    }

    /** `buf[pos..end]` copied into a fixed array, failing when it is short. */
    method Take(width: nat) returns (bytes: Option<Key>)
      requires Valid() && rec > 0
      modifies this
      ensures Valid() && rec == old(rec)
      ensures bytes == if |old(Rest())| < width then None else Some(old(Rest())[..width])
      ensures Rest() == if bytes.None? then old(Rest()) else old(Rest())[width..]
    {
      assert |Rest()| == |buf| - pos;
      if |buf| - pos < width { return None; }
      assert Rest()[..width] == buf[pos..pos + width];
      bytes := Some(buf[pos..pos + width]);
      pos := pos + width;
    }

    method DeserializeField(ty: FieldType) returns (field: Option<Field>)
      requires Valid() && rec > 0
      modifies this
      ensures Valid() && rec == old(rec)
      ensures match DecodeField(old(Rest()), ty)
              case Got(f, rest) => field == Some(f) && Rest() == rest
              case Underflow => field == None
      decreases ty
    {
      match ty
      case TStr =>
        var record := RecordNext();
        field := Some(Str(record));
      case TU64 =>
        var bytes := Take(8);
        field := if bytes.None? then None else Some(U64(BeNat(bytes.value)));
      case TI64 =>
        var bytes := Take(8);
        field := if bytes.None? then None else Some(I64(BeInt(bytes.value)));
      case TI32 =>
        var bytes := Take(4);
        field := if bytes.None? then None else Some(I32(BeInt(bytes.value)));
      case TBool =>
        var bytes := Take(1);
        field := if bytes.None? then None else Some(Boolean(bytes.value[0] != 0));
      case TRaw =>
        field := Some(Raw(buf[pos..]));
        pos := |buf|;
      case TOpt(t) =>
        if pos == |buf| || buf[pos] == SEP {
          field := Some(Absent);
        } else {
          field := DeserializeField(t);
          if field.Some? { field := Some(Present(field.value)); }
        }
    }

    method NextElement(ty: FieldType) returns (field: Option<Field>)
      requires Valid()
      modifies this
      ensures Valid() && (field.Some? ==> rec == old(rec) + 1)
      ensures old(Rest()) == [] ==> field == None
      ensures old(Rest()) != [] ==>
                match DecodeField(Skip(old(Rest()), old(rec) > 0), ty)
                case Got(f, rest) => field == Some(f) && Rest() == rest
                case Underflow => field == None
    {
      if pos >= |buf| { return None; }
      RecordStart();
      field := DeserializeField(ty);
    }

    /** The cursor reader computes `DecodeTuple`, leaving the cursor at its rest. */
    method DeserializeTuple(tys: seq<FieldType>) returns (fields: Option<seq<Field>>)
      requires Valid() && rec == 0
      modifies this
      ensures Valid()
      ensures match DecodeTuple(old(Rest()), tys)
              case Fields(fs, rest) => fields == Some(fs) && Rest() == rest
              case Error => fields == None
    {
      var fs: seq<Field> := [];
      var i := 0;
      while i < |tys|
        invariant 0 <= i <= |tys| && Valid()
        invariant rec == i
        invariant DecodeTuple(old(Rest()), tys) == Prepend(fs, DecodeElements(Rest(), tys[i..], rec > 0))
      {
        DecodeStep(fs, Rest(), tys, i, rec > 0);
        var field := NextElement(tys[i]);
        if field.None? { return None; }
        fs := fs + [field.value];
        i := i + 1;
      }
      assert fs + [] == fs;
      fields := Some(fs);
    }
  }

  // ---------- round trip ----------

  /** The value swallows everything to the end of the key when read. */
  predicate Trailing(f: Field)
  {
    f.Raw? || (f.Present? && Trailing(f.inner))
  }

  /** Every present option starts with a byte the reader does not take for a separator. */
  predicate OptionsVisible(f: Field)
    requires InRange(f)
  {
    f.Present? ==>
      Encode(f.inner) != [] && Encode(f.inner)[0] != SEP && OptionsVisible(f.inner)
  }

  /** Exactly which tuples survive a round trip; a caller can check this before writing. */
  predicate Decodable(fs: seq<Field>)
    requires forall i :: 0 <= i < |fs| ==> InRange(fs[i])
  {
    && (|fs| == 1 ==> Encode(fs[0]) != [])
    && (forall i :: 0 <= i < |fs| ==> OptionsVisible(fs[i]))
    && (forall i :: 0 <= i < |fs| - 1 ==> !Trailing(fs[i]))
  }

  /** `f` reads back, or not, in front of `rest`. */
  ghost predicate ReadsBack(f: Field, ty: FieldType, rest: Key, fits: bool)
    requires InRange(f)
  {
    var r := DecodeField(Encode(f) + rest, ty);
    if fits then r == Got(f, rest) else r.Got? ==> r.field != f
  }

  /** One field, read back in front of a separator or the end of the key. */
  lemma {:induction false} FieldRoundTrip(f: Field, ty: FieldType, rest: Key)
    requires HasType(f, ty) && InRange(f)
    requires rest == [] || rest[0] == SEP
    ensures ReadsBack(f, ty, rest, OptionsVisible(f) && (Trailing(f) ==> rest == []))
  {
    match f
    case U64(_) => IntegerRoundTrip(f, ty, rest);
    case I64(_) => IntegerRoundTrip(f, ty, rest);
    case I32(_) => IntegerRoundTrip(f, ty, rest);
    case Present(g) =>
      FieldRoundTrip(g, ty.inner, rest);
      var input := Encode(f) + rest;
      if Encode(g) == [] { assert input == rest; } else { assert input[0] == Encode(g)[0]; }
    case _ => PlainRoundTrip(f, ty, rest);
  }

  lemma PlainRoundTrip(f: Field, ty: FieldType, rest: Key)
    requires HasType(f, ty) && InRange(f) && (f.Str? || f.Boolean? || f.Raw? || f.Absent?)
    requires rest == [] || rest[0] == SEP
    ensures ReadsBack(f, ty, rest, f.Raw? ==> rest == [])
  {
    var input := Encode(f) + rest;
    match f
    case Str(s) => FirstSepUnique(input, |s|); assert input[..|s|] == s && input[|s|..] == rest;
    case Boolean(_) => assert input[1..] == rest;
    case Raw(s) => assert |input| == |s| + |rest|; assert rest == [] ==> input == s;
    case Absent => assert input == rest;
  }

  lemma IntegerRoundTrip(f: Field, ty: FieldType, rest: Key)
    requires HasType(f, ty) && InRange(f) && (f.U64? || f.I64? || f.I32?)
    ensures ReadsBack(f, ty, rest, true)
  {
    var input := Encode(f) + rest;
    match f
    case U64(n) => BeRoundTrip(n, 8); assert input[..8] == Encode(f) && input[8..] == rest;
    case I64(i) => SignedRoundTrip(i, 8); assert input[..8] == Encode(f) && input[8..] == rest;
    case I32(i) => SignedRoundTrip(i, 4); assert input[..4] == Encode(f) && input[4..] == rest;
  }

  /** Reading one element off the front: `fits` says that the head reads back. */
  lemma DecodesTo(fs: seq<Field>, tys: seq<FieldType>, input: Key, rest: Key, started: bool, fits: bool)
    requires |fs| == |tys| > 0 && input != []
    requires var r := DecodeField(Skip(input, started), tys[0]);
             if fits then r == Got(fs[0], rest) else r.Got? ==> r.field != fs[0]
    ensures DecodeElements(input, tys, started) == Fields(fs, []) <==>
              fits && DecodeElements(rest, tys[1..], true) == Fields(fs[1..], [])
  {
    var d := DecodeElements(rest, tys[1..], true);
    if d.Fields? {
      assert ([fs[0]] + d.fs)[1..] == d.fs && fs == [fs[0]] + fs[1..];
    }
  }

  /** A tuple tail decodes to itself exactly when its head and its own tail do. */
  lemma ConsRoundTrip(fs: seq<Field>, tys: seq<FieldType>, head: Key, rest: Key, started: bool, fits: bool)
    requires |fs| == |tys| > 0
    requires var r := DecodeField(head + rest, tys[0]);
             if fits then r == Got(fs[0], rest) else r.Got? ==> r.field != fs[0]
    ensures var input := (if started then [SEP] else []) + head + rest;
            DecodeElements(input, tys, started) == Fields(fs, []) <==>
              input != [] && fits && DecodeElements(rest, tys[1..], true) == Fields(fs[1..], [])
  {
    var input := (if started then [SEP] else []) + head + rest;
    if input != [] {
      assert Skip(input, started) == head + rest;
      DecodesTo(fs, tys, input, rest, started, fits);
    }
  }

  lemma ValuesTail(fs: seq<Field>, started: bool)
    requires fs != [] && forall i :: 0 <= i < |fs| ==> InRange(fs[i])
    ensures Records(Values(fs), started) ==
              (if started then [SEP] else []) + Encode(fs[0]) + Records(Values(fs[1..]), true)
    ensures var rest := Records(Values(fs[1..]), true);
            if |fs| == 1 then rest == [] else rest != [] && rest[0] == SEP
  {
    assert Values(fs)[1..] == Values(fs[1..]);
  }

  /** Every option is visible and only the last field is trailing. */
  predicate Readable(fs: seq<Field>)
    requires forall i :: 0 <= i < |fs| ==> InRange(fs[i])
  {
    fs == [] || (OptionsVisible(fs[0]) && (|fs| > 1 ==> !Trailing(fs[0])) && Readable(fs[1..]))
  }

  lemma {:induction false} ReadableAt(fs: seq<Field>)
    requires forall i :: 0 <= i < |fs| ==> InRange(fs[i])
    ensures Readable(fs) <==>
              (forall i :: 0 <= i < |fs| ==> OptionsVisible(fs[i])) &&
              (forall i :: 0 <= i < |fs| - 1 ==> !Trailing(fs[i]))
    decreases |fs|
  {
    if fs != [] {
      ReadableAt(fs[1..]);
      assert forall i :: 0 < i < |fs| ==> fs[i] == fs[1..][i - 1];
    }
  }

  /** The elements after the first: separators and fields, up to the end of the key. */
  lemma {:induction false} ElementsRoundTrip(fs: seq<Field>, tys: seq<FieldType>)
    requires HasTypes(fs, tys) && forall i :: 0 <= i < |fs| ==> InRange(fs[i])
    ensures DecodeElements(Records(Values(fs), true), tys, true) == Fields(fs, []) <==> Readable(fs)
    decreases |fs|
  {
    if fs != [] {
      ValuesTail(fs, true);
      ElementsRoundTrip(fs[1..], tys[1..]);
      var rest := Records(Values(fs[1..]), true);
      FieldRoundTrip(fs[0], tys[0], rest);
      ConsRoundTrip(fs, tys, Encode(fs[0]), rest, true,
        OptionsVisible(fs[0]) && (Trailing(fs[0]) ==> rest == []));
    }
  }

  /** Decoding the encoding returns the tuple and consumes every byte if and only
      if the tuple is `Decodable`. */
  lemma RoundTrip(fs: seq<Field>, tys: seq<FieldType>)
    requires HasTypes(fs, tys) && forall i :: 0 <= i < |fs| ==> InRange(fs[i])
    ensures DecodeTuple(EncodeTuple(fs), tys) == Fields(fs, []) <==> Decodable(fs)
  {
    ReadableAt(fs);
    FirstRoundTrip(fs, tys);
  }

  lemma FirstRoundTrip(fs: seq<Field>, tys: seq<FieldType>)
    requires HasTypes(fs, tys) && forall i :: 0 <= i < |fs| ==> InRange(fs[i])
    ensures DecodeTuple(EncodeTuple(fs), tys) == Fields(fs, []) <==>
              Readable(fs) && (|fs| == 1 ==> Encode(fs[0]) != [])
  {
    if fs != [] {
      ValuesTail(fs, false);
      ElementsRoundTrip(fs[1..], tys[1..]);
      var rest := Records(Values(fs[1..]), true);
      FieldRoundTrip(fs[0], tys[0], rest);
      ConsRoundTrip(fs, tys, Encode(fs[0]), rest, false,
        OptionsVisible(fs[0]) && (Trailing(fs[0]) ==> rest == []));
    }
  }

  /** Distinct decodable tuples of one schema never share a key. */
  lemma KeysAreInjective(fs: seq<Field>, gs: seq<Field>, tys: seq<FieldType>)
    requires HasTypes(fs, tys) && forall i :: 0 <= i < |fs| ==> InRange(fs[i])
    requires HasTypes(gs, tys) && forall i :: 0 <= i < |gs| ==> InRange(gs[i])
    requires Decodable(fs) && Decodable(gs)
    requires EncodeTuple(fs) == EncodeTuple(gs)
    ensures fs == gs
  {
    RoundTrip(fs, tys);
    RoundTrip(gs, tys);
  }

  lemma OptionByFirst(input: Key, ty: FieldType)
    ensures var r := DecodeField(input, TOpt(ty));
            r.Got? && r.field == Absent <==> input == [] || input[0] == SEP
  {
  }

  /** A present option reads back as absent if and only if its encoding is empty or starts with the
      separator byte. */
  lemma HiddenReadsAbsent(f: Field, ty: FieldType, rest: Key)
    requires InRange(f) && (rest == [] || rest[0] == SEP)
    ensures var r := DecodeField(Encode(f) + rest, TOpt(ty));
            r.Got? && r.field == Absent <==> Encode(f) == [] || Encode(f)[0] == SEP
  {
    OptionByFirst(Encode(f) + rest, ty);
  }

  lemma TopByte(n: nat)
    requires n < Pow256(8)
    ensures BeBytes(n, 8)[0] == SEP <==> n >= 255 * Pow256(7)
  {
    DivDigit(n, Pow256(7));
    DivAtLeast(n, Pow256(7), 255);
    assert BeBytes(n, 8)[0] == n / Pow256(7);
  }

  lemma HiddenUnsigned(n: nat)
    requires n < Pow256(8)
    ensures OptionsVisible(Present(U64(n))) <==> n < 255 * Pow256(7)
  {
    TopByte(n);
    assert Encode(U64(n)) == BeBytes(n, 8);
  }

  lemma HiddenSigned(i: int)
    requires FitsSigned(i, 8)
    ensures OptionsVisible(Present(I64(i))) <==> i >= 0 || i < 0 - Pow256(7)
  {
    var m := if i < 0 then i + Pow256(8) else i;
    assert Pow256(8) == 256 * Pow256(7);
    TopByte(m);
    assert Encode(I64(i)) == BeBytes(m, 8);
  }

  /** Of the 8-byte integers in options, exactly the signed ones from -2^56 to -1 and the unsigned
      ones from 255 * 2^56 on are lost. */
  lemma HiddenIntegers(i: int, n: nat)
    requires FitsSigned(i, 8) && n < Pow256(8)
    ensures OptionsVisible(Present(I64(i))) <==> i >= 0 || i < 0 - Pow256(7)
    ensures OptionsVisible(Present(U64(n))) <==> n < 255 * Pow256(7)
  {
    HiddenSigned(i);
    HiddenUnsigned(n);
  }

  /** A small negative `i64` inside an option, -1 for instance, is lost. */
  lemma OptionalNegativeIsLost(s: Key, i: int)
    requires SepFree(s) && FitsSigned(i, 8) && 0 - Pow256(7) <= i < 0
    ensures var fs := [Str(s), Present(I64(i))];
            DecodeTuple(EncodeTuple(fs), [TStr, TOpt(TI64)]) != Fields(fs, [])
  {
    var fs := [Str(s), Present(I64(i))];
    HiddenIntegers(i, 0);
    assert !OptionsVisible(fs[1]);
    RoundTrip(fs, [TStr, TOpt(TI64)]);
  }

  // ---------- the bytes themselves ----------

  /** Strings and raw bytes as they are, integers big-endian in two's complement at their width, one
      byte for a boolean, nothing for an absent option; the interfix writes nothing and the separator
      directive the separator byte. */
  lemma EncodingBytes(s: Key, n: nat, i: int, j: int, f: Field)
    requires n < Pow256(8) && FitsSigned(i, 8) && FitsSigned(j, 4) && InRange(f)
    ensures Encode(Str(s)) == s && Encode(Raw(s)) == s
    ensures |Encode(U64(n))| == 8 && BeNat(Encode(U64(n))) == n
    ensures |Encode(I64(i))| == 8 && BeInt(Encode(I64(i))) == i
    ensures |Encode(I32(j))| == 4 && BeInt(Encode(I32(j))) == j
    ensures Encode(Boolean(true)) == [1] && Encode(Boolean(false)) == [0]
    ensures Encode(Absent) == [] && Encode(Present(f)) == Encode(f)
    ensures EncodeItem(Interfix) == [] && EncodeItem(Separator) == [0xFF]
  {
    BeRoundTrip(n, 8);
    SignedRoundTrip(i, 8);
    SignedRoundTrip(j, 4);
  }

  /** What the reader makes of any input: an integer needs its width, */
  lemma {:induction false} DecodingIntegers(input: Key)
    ensures DecodeField(input, TU64) == if |input| < 8 then Underflow else Got(U64(BeNat(input[..8])), input[8..])
    ensures DecodeField(input, TI64) == if |input| < 8 then Underflow else Got(I64(BeInt(input[..8])), input[8..])
    ensures DecodeField(input, TI32) == if |input| < 4 then Underflow else Got(I32(BeInt(input[..4])), input[4..])
  {
  }

  /** a boolean is any byte but zero, */
  lemma {:induction false} DecodingBoolean(input: Key)
    ensures var r := DecodeField(input, TBool);
            if input == [] then r.Underflow? else r.Got? && r.field.Boolean? && (r.field.b <==> input[0] != 0)
  {
  }

  /** a string ends before the next separator or at the end, and raw bytes take everything. */
  lemma DecodingText(s: Key, rest: Key)
    requires SepFree(s) && (rest == [] || rest[0] == 0xFF)
    ensures DecodeField(s + rest, TStr) == Got(Str(s), rest) && DecodeField(s + rest, TRaw) == Got(Raw(s + rest), [])
  {
    var whole := s + rest;
    assert whole[..|s|] == s && whole[|s|..] == rest;
    FirstSepUnique(whole, |s|);
  }

  lemma {:induction false} RecordsAppend(items: seq<Item>, item: Item, started: bool)
    requires forall i :: 0 <= i < |items| ==> ItemInRange(items[i])
    requires ItemInRange(item) && (items != [] || started)
    ensures Records(items + [item], started) == Records(items, started) + [0xFF] + EncodeItem(item)
    decreases |items|
  {
    if items == [] {
      assert items + [item] == [item] && [item][1..] == [];
    } else {
      var rest := items[1..];
      assert (items + [item])[1..] == rest + [item] && (items + [item])[0] == items[0];
      RecordsAppend(rest, item, true);
      Regroup((if started then [SEP] else []) + EncodeItem(items[0]), Records(rest, true), [0xFF], EncodeItem(item));
    }
  }

  /** A key of one item is its bytes, and each further item follows a separator byte. */
  lemma KeyLayout(items: seq<Item>, item: Item)
    requires forall i :: 0 <= i < |items| ==> ItemInRange(items[i])
    requires ItemInRange(item)
    ensures Records([item], false) == EncodeItem(item)
    ensures items != [] ==> Records(items + [item], false) == Records(items, false) + [0xFF] + EncodeItem(item)
  {
    assert [item][1..] == [];
    if items != [] { RecordsAppend(items, item, false); }
  }

  // ---------- prefix queries ----------

  lemma InterfixPrefix(a: Key)
    ensures Records([Value(Str(a)), Interfix], false) == a + [SEP]
  {
    var items := [Value(Str(a)), Interfix];
    RecordsStep(items, 0, false);
    RecordsStep(items, 1, true);
    assert items[2..] == [];
  }

  /** A key of `(b, rest...)` starts with the encoding of `(a, Interfix)` if and only if
      `a == b`. */
  lemma PrefixQueryExact(a: Key, b: Key, rest: seq<Field>)
    requires SepFree(a) && SepFree(b) && rest != []
    requires forall i :: 0 <= i < |rest| ==> InRange(rest[i])
    ensures Records([Value(Str(a)), Interfix], false) <= EncodeTuple([Str(b)] + rest) <==> a == b
  {
    InterfixPrefix(a);
    var fs := [Str(b)] + rest;
    ValuesTail(fs, false);
    assert fs[1..] == rest;
    SplitHead(b, Records(Values(rest), true));
    HeadExact(a, b, Records(Values(rest), true)[1..]);
  }

  lemma SplitHead(b: Key, tail: Key)
    requires tail != [] && tail[0] == SEP
    ensures [] + b + tail == b + [SEP] + tail[1..]
  {
    assert tail == [SEP] + tail[1..];
  }

  /** The keys a prefix query selects are contiguous in byte order. */
  lemma PrefixQueryContiguous(a: Key, lo: Key, k: Key, hi: Key)
    requires SepFree(a) && Less(lo, k) && Less(k, hi)
    requires Records([Value(Str(a)), Interfix], false) <= lo
    requires Records([Value(Str(a)), Interfix], false) <= hi
    ensures Records([Value(Str(a)), Interfix], false) <= k
  {
    PrefixContiguous(Records([Value(Str(a)), Interfix], false), lo, k, hi);
  }
}
