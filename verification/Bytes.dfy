/** Little-endian numbers, and parts of a byte string laid end to end. */
module Bytes {
  import opened Common

  type Byte = nat
  type Data = seq<Byte>

  // ---- numbers ----

  function Power(k: nat): nat { if k == 0 then 1 else 256 * Power(k - 1) }

  lemma Powers()
    ensures Power(2) == 0x1_0000 && Power(4) == 0x1_0000_0000 && Power(8) == 0x1_0000_0000_0000_0000
  {
    assert Power(4) == 256 * (256 * Power(2));
    assert Power(6) == 256 * (256 * Power(4));
    assert Power(8) == 256 * (256 * Power(6));
  }

  /** `to_le_bytes`, which keeps the low `k` bytes. */
  function Le(n: nat, k: nat): (r: Data)
    ensures |r| == k
  {
    if k == 0 then [] else [n % 256] + Le(n / 256, k - 1)
  }

  /** Byte `j` has the weight 256^j: the lowest comes first. */
  lemma {:induction false} LeByte(n: nat, k: nat, j: nat)
    requires j < k
    ensures Power(j) > 0 && Le(n, k)[j] == n / Power(j) % 256
  {
    if j > 0 {
      LeByte(n / 256, k - 1, j - 1);
      DivTwice(n, Power(j - 1));
    }
  }

  lemma DivTwice(n: nat, p: nat)
    requires p > 0
    ensures n / 256 / p == n / (256 * p)
  {
    var q, r := n / 256 / p, n / 256 % p;
    assert n / 256 == q * p + r && n == 256 * (n / 256) + n % 256;
    var rest := 256 * r + n % 256;
    assert n == q * (256 * p) + rest;
    assert 0 <= rest < 256 * p by { assert 256 * r + 256 <= 256 * p; }
    Quotient(n, 256 * p, q, rest);
  }

  lemma Quotient(n: nat, d: nat, q: nat, r: nat)
    requires n == q * d + r && r < d
    ensures n / d == q
  {
    var q', r' := n / d, n % d;
    assert n == q' * d + r' && r' < d;
    assert q' < q ==> (q' + 1) * d <= q * d;
    assert q < q' ==> (q + 1) * d <= q' * d;
  }

  function UnLe(b: Data): nat { if b == [] then 0 else b[0] + 256 * UnLe(b[1..]) }

  lemma {:induction false} LeRoundTrip(n: nat, k: nat)
    requires n < Power(k)
    ensures UnLe(Le(n, k)) == n
  {
    if k > 0 {
      LeRoundTrip(n / 256, k - 1);
      assert Le(n, k)[1..] == Le(n / 256, k - 1);
    }
  }

  /** `read_u16`, `read_u32` and `read_u64`: nothing beyond the end is read. */
  function ReadLe(data: Data, offset: nat, k: nat): Option<nat> {
    if offset + k <= |data| then Some(UnLe(data[offset..offset + k])) else None
  }

  // ---- parts ----

  function Flat(parts: seq<Data>): Data {
    if parts == [] then [] else Flat(parts[..|parts| - 1]) + parts[|parts| - 1]
  }

  /** Where part `i` starts. */
  function Offset(parts: seq<Data>, i: nat): nat
    requires i <= |parts|
  {
    |Flat(parts[..i])|
  }

  lemma FlatPush(parts: seq<Data>, i: nat)
    requires i < |parts|
    ensures Flat(parts[..i + 1]) == Flat(parts[..i]) + parts[i]
    ensures Offset(parts, i + 1) == Offset(parts, i) + |parts[i]|
  {
    assert parts[..i + 1][..i] == parts[..i];
  }

  /** A part is found at its offset. */
  lemma {:induction false} FlatSlice(parts: seq<Data>, i: nat)
    requires i < |parts|
    ensures Offset(parts, i) + |parts[i]| <= |Flat(parts)|
    ensures Flat(parts)[Offset(parts, i)..Offset(parts, i) + |parts[i]|] == parts[i]
  {
    var n := |parts| - 1;
    assert parts[..n + 1] == parts;
    FlatPush(parts, n);
    if i < n {
      FlatSlice(parts[..n], i);
      assert parts[..n][..i] == parts[..i];
    }
  }

  /** The same in the middle of a longer byte string. */
  lemma SliceInside(before: Data, parts: seq<Data>, after: Data, i: nat)
    requires i < |parts|
    ensures var at := |before| + Offset(parts, i);
      && at + |parts[i]| <= |before + Flat(parts) + after|
      && (before + Flat(parts) + after)[at..at + |parts[i]|] == parts[i]
  {
    FlatSlice(parts, i);
    var f := Flat(parts);
    var at, end := Offset(parts, i), Offset(parts, i) + |parts[i]|;
    assert (before + f + after)[|before| + at..|before| + end] == f[at..end];
  }

  /** Parts of equal size start at multiples of it. */
  lemma {:induction false} EqualParts(parts: seq<Data>, size: nat, i: nat)
    requires i <= |parts| && forall k :: 0 <= k < |parts| ==> |parts[k]| == size
    ensures Offset(parts, i) == i * size
  {
    if i > 0 {
      EqualParts(parts, size, i - 1);
      FlatPush(parts, i - 1);
    }
  }

  /** Reading a number back at its place in a record. */
  lemma ReadField(data: Data, at: nat, record: Data, before: Data, n: nat, k: nat, after: Data)
    requires record == before + Le(n, k) + after && n < Power(k)
    requires at + |record| <= |data| && data[at..at + |record|] == record
    ensures ReadLe(data, at + |before|, k) == Some(n)
  {
    hide Le, UnLe, Power;
    var lo := |before|;
    SubSlice(data, at, at + |record|, lo, lo + k);
    assert record[lo..lo + k] == Le(n, k);
    assert at + lo + k == at + (lo + k);
    LeRoundTrip(n, k);
  }

  lemma SubSlice(data: Data, a: nat, b: nat, lo: nat, hi: nat)
    requires a <= b <= |data| && lo <= hi <= b - a
    ensures data[a..b][lo..hi] == data[a + lo..a + hi]
  {
    var s := data[a..b];
    var x, y := s[lo..hi], data[a + lo..a + hi];
    forall k | 0 <= k < hi - lo ensures x[k] == y[k] {
      assert x[k] == s[lo + k];
      assert s[lo + k] == data[a + (lo + k)];
    }
    assert x == y;
  }
}
