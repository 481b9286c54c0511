/** Byte strings as the storage layer sees them: lexicographic key order,
    big-endian integers, and the `0xFF` record separator (src/database/ser.rs:66-67). */
module Bytes {

  type byte = b: int | 0 <= b < 256

  type Key = seq<byte>

  datatype Option<+T> = None | Some(value: T)

  const SEP: byte := 0xFF

  // ---------- lexicographic order of keys ----------

  predicate Less(a: Key, b: Key)
  {
    b != [] && (a == [] || a[0] < b[0] || (a[0] == b[0] && Less(a[1..], b[1..])))
  }

  ghost predicate Ascending(keys: seq<Key>)
  {
    forall i, j :: 0 <= i < j < |keys| ==> Less(keys[i], keys[j])
  }

  lemma {:induction false} LessIrreflexive(a: Key)
    ensures !Less(a, a)
  {
    if a != [] { LessIrreflexive(a[1..]); }
  }

  lemma {:induction false} LessAsymmetric(a: Key, b: Key)
    requires Less(a, b)
    ensures !Less(b, a)
  {
    if a != [] && a[0] == b[0] { LessAsymmetric(a[1..], b[1..]); }
  }

  /** Stripping a common prefix keeps the order. */
  lemma {:induction false} LessCancel(p: Key, a: Key, b: Key)
    ensures Less(p + a, p + b) <==> Less(a, b)
  {
    if p == [] {
      assert p + a == a && p + b == b;
    } else {
      LessCancel(p[1..], a, b);
      assert (p + a)[1..] == p[1..] + a && (p + b)[1..] == p[1..] + b;
    }
  }

  /** Fixed-width heads decide the order unless they are equal. */
  lemma {:induction false} LessHead(a: Key, b: Key, x: Key, y: Key)
    requires |a| == |b| && a != b
    ensures Less(a + x, b + y) <==> Less(a, b)
  {
    assert (a + x)[1..] == a[1..] + x && (b + y)[1..] == b[1..] + y;
    assert a == [a[0]] + a[1..] && b == [b[0]] + b[1..];
    if a[0] == b[0] { LessHead(a[1..], b[1..], x, y); }
  }

  /** All keys that start with `p` are contiguous in byte order. */
  lemma {:induction false} PrefixContiguous(p: Key, lo: Key, k: Key, hi: Key)
    requires p <= lo && p <= hi
    requires Less(lo, k) && Less(k, hi)
    ensures p <= k
  {
    if p != [] {
      assert lo[0] == p[0] == hi[0];
      PrefixContiguous(p[1..], lo[1..], k[1..], hi[1..]);
      assert p == [p[0]] + p[1..] && k == [k[0]] + k[1..];
    }
  }

  // ---------- records inside a key ----------

  ghost predicate SepFree(s: Key) { SEP !in s }

  /** Index of the first separator, or the length when there is none. */
  function FirstSep(s: Key): (n: nat)
    ensures n <= |s|
    ensures SepFree(s[..n])
    ensures n < |s| ==> s[n] == SEP
  {
    if s == [] || s[0] == SEP then 0
    else
      var m := FirstSep(s[1..]);
      assert s[..m + 1] == [s[0]] + s[1..][..m];
      m + 1
  }

  lemma {:induction false} FirstSepUnique(s: Key, n: nat)
    requires n <= |s| && SepFree(s[..n])
    requires n < |s| ==> s[n] == SEP
    ensures FirstSep(s) == n
  {
    if n != 0 {
      assert s[..n][0] == s[0] && s[..n][1..] == s[1..][..n - 1];
      FirstSepUnique(s[1..], n - 1);
    }
  }

  /** Two separator-terminated heads agree exactly when one key starts with the
      other's head: why a `(a, Interfix)` prefix query is exact. */
  lemma {:induction false} HeadExact(a: Key, b: Key, rest: Key)
    requires SepFree(a) && SepFree(b)
    ensures a + [SEP] <= b + [SEP] + rest <==> a == b
  {
    var k := b + [SEP] + rest;
    if a + [SEP] <= k {
      assert k[..|a|] == a && k[|a|] == SEP;
      assert k[..|b|] == b && k[|b|] == SEP;
      FirstSepUnique(k, |a|);
      FirstSepUnique(k, |b|);
    }
    if a == b { assert k[..|a| + 1] == a + [SEP]; }
  }

  // ---------- big-endian integers ----------

  function Pow256(w: nat): (p: nat)
    ensures p >= 1
  {
    if w == 0 then 1 else 256 * Pow256(w - 1)
  }

  /** Value of a big-endian byte string (`from_be_bytes`). */
  function BeNat(s: Key): (n: nat)
    ensures n < Pow256(|s|)
  {
    if s == [] then 0
    else
      MulLe(s[0], 255, Pow256(|s| - 1));
      s[0] * Pow256(|s| - 1) + BeNat(s[1..])
  }

  /** `to_be_bytes` at width `w`. */
  function BeBytes(n: nat, w: nat): (s: Key)
    requires n < Pow256(w)
    ensures |s| == w
  {
    if w == 0 then []
    else
      var p := Pow256(w - 1);
      DivDigit(n, p);
      [n / p] + BeBytes(n % p, w - 1)
  }

  lemma MulLe(a: nat, b: nat, p: nat)
    requires a <= b
    ensures a * p <= b * p
  {
  }

  lemma DivDigit(n: nat, p: nat)
    requires p >= 1 && n < 256 * p
    ensures 0 <= n / p < 256 && 0 <= n % p < p && n == (n / p) * p + n % p
  {
  }

  lemma DigitUnique(a: nat, b: nat, p: nat, r: nat, q: nat)
    requires r < p && q < p
    ensures a < b ==> a * p + r < b * p + q
    ensures a * p + r == b * p + q ==> a == b && r == q
  {
    if a < b { MulLe(a + 1, b, p); }
    if b < a { MulLe(b + 1, a, p); }
  }

  lemma DivAtLeast(n: nat, p: nat, k: nat)
    requires p > 0
    ensures n / p >= k <==> n >= k * p
  {
    assert n == (n / p) * p + n % p;
    if n / p >= k { MulLe(k, n / p, p); } else { MulLe(n / p + 1, k, p); }
  }

  lemma {:induction false} BeRoundTrip(n: nat, w: nat)
    requires n < Pow256(w)
    ensures BeNat(BeBytes(n, w)) == n
  {
    if w != 0 {
      var p := Pow256(w - 1);
      DivDigit(n, p);
      BeRoundTrip(n % p, w - 1);
      assert BeBytes(n, w)[1..] == BeBytes(n % p, w - 1);
    }
  }

  /** At equal width, byte order is numeric order; in particular `BeNat` is injective. */
  lemma {:induction false} BeOrder(s: Key, t: Key)
    requires |s| == |t|
    ensures Less(s, t) <==> BeNat(s) < BeNat(t)
    ensures s == t <==> BeNat(s) == BeNat(t)
  {
    if s != [] {
      BeOrder(s[1..], t[1..]);
      DigitUnique(s[0], t[0], Pow256(|s| - 1), BeNat(s[1..]), BeNat(t[1..]));
      DigitUnique(t[0], s[0], Pow256(|s| - 1), BeNat(t[1..]), BeNat(s[1..]));
      assert s == [s[0]] + s[1..] && t == [t[0]] + t[1..];
    }
  }

  /** Two's-complement value of a big-endian byte string. */
  function BeInt(s: Key): int
  {
    if s != [] && s[0] >= 128 then BeNat(s) - Pow256(|s|) else BeNat(s)
  }

  predicate FitsSigned(i: int, w: nat)
  {
    0 <= 2 * i + Pow256(w) < 2 * Pow256(w)
  }

  function SignedBytes(i: int, w: nat): (s: Key)
    requires FitsSigned(i, w)
    ensures |s| == w
  {
    BeBytes(if i < 0 then i + Pow256(w) else i, w)
  }

  lemma SignedRoundTrip(i: int, w: nat)
    requires w > 0 && FitsSigned(i, w)
    ensures BeInt(SignedBytes(i, w)) == i
  {
    var n := if i < 0 then i + Pow256(w) else i;
    var p := Pow256(w - 1);
    BeRoundTrip(n, w);
    DivDigit(n, p);
    assert SignedBytes(i, w)[0] == n / p;
    if n / p >= 128 { MulLe(128, n / p, p); } else { MulLe(n / p, 127, p); }
  }
}
