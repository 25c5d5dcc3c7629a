/** Well-formed UTF-8 (The Unicode Standard, table 3-7), as `core::str::from_utf8` checks
    it.  Text is kept as its bytes. */
module Utf8 {
  import opened Bytes

  predicate Tail(b: Byte) { 0x80 <= b <= 0xbf }

  /** The second byte of a sequence of three or four, by its first byte. */
  predicate Second(first: Byte, b: Byte) {
    if first == 0xe0 then 0xa0 <= b <= 0xbf
    else if first == 0xed then 0x80 <= b <= 0x9f
    else if first == 0xf0 then 0x90 <= b <= 0xbf
    else if first == 0xf4 then 0x80 <= b <= 0x8f
    else Tail(b)
  }

  /** The length of the character that `b` starts with, or 0 if there is none. */
  function Unit(b: Data): (n: nat)
    ensures n <= |b| && n <= 4
  {
    if |b| >= 1 && b[0] <= 0x7f then 1
    else if |b| >= 2 && 0xc2 <= b[0] <= 0xdf && Tail(b[1]) then 2
    else if |b| >= 3 && 0xe0 <= b[0] <= 0xef && Second(b[0], b[1]) && Tail(b[2]) then 3
    else if |b| >= 4 && 0xf0 <= b[0] <= 0xf4 && Second(b[0], b[1]) && Tail(b[2]) && Tail(b[3]) then 4
    else 0
  }

  predicate WellFormed(b: Data) { b == [] || (Unit(b) > 0 && WellFormed(b[Unit(b)..])) }

  /** What follows a character does not matter to it. */
  lemma UnitStays(a: Data, b: Data)
    requires Unit(a) > 0
    ensures Unit(a + b) == Unit(a)
  {
  }

  lemma {:induction false} Concat(a: Data, b: Data)
    requires WellFormed(a) && WellFormed(b)
    ensures WellFormed(a + b)
    decreases |a|
  {
    hide Unit;
    if a == [] {
      assert a + b == b;
    } else {
      var n := Unit(a);
      UnitStays(a, b);
      Concat(a[n..], b);
      assert (a + b)[n..] == a[n..] + b;
    }
  }

  lemma {:induction false} AsciiIsWellFormed(b: Data)
    requires forall i :: 0 <= i < |b| ==> b[i] < 128
    ensures WellFormed(b)
  {
    if b != [] {
      AsciiIsWellFormed(b[1..]);
    }
  }

  /** Only some bytes occur. */
  lemma {:induction false} BytesBelow(b: Data)
    requires WellFormed(b)
    ensures forall i :: 0 <= i < |b| ==> b[i] <= 0xf4
    decreases |b|
  {
    if b != [] {
      var n := Unit(b);
      BytesBelow(b[n..]);
      forall i | 0 <= i < |b| ensures b[i] <= 0xf4 {
        assert i >= n ==> b[i] == b[n..][i - n];
      }
    }
  }
}
