/** The 64-bit words that page-table entries are (Intel SDM volume 3A, table 4-20), and
    the bit operations of the walk on them.

    `PageTables` works with the fields of an entry.  `Decode` reads them off a word; what
    the kernel writes decodes to the entries of `PageTables`, and its masked tests and its
    walk over words agree with the walk over entries. */
module EntryWords {
  import opened Common
  import opened PageTables

  // ---- shifts, and, or ----

  function Shl(x: nat, k: nat): nat { if k == 0 then x else 2 * Shl(x, k - 1) }

  function Shr(x: nat, k: nat): nat { if k == 0 then x else Shr(x / 2, k - 1) }

  /** The low `k` bits. */
  function Low(x: nat, k: nat): nat { if k == 0 then 0 else x % 2 + 2 * Low(x / 2, k - 1) }

  function And(a: nat, b: nat): nat {
    if a == 0 then 0 else (if a % 2 == 1 && b % 2 == 1 then 1 else 0) + 2 * And(a / 2, b / 2)
  }

  function Or(a: nat, b: nat): nat
    decreases a + b
  {
    if a == 0 then b else (if a % 2 == 1 || b % 2 == 1 then 1 else 0) + 2 * Or(a / 2, b / 2)
  }

  /** A number is its high bits and its low bits. */
  lemma {:induction false} Parts(x: nat, k: nat)
    ensures x == Shl(Shr(x, k), k) + Low(x, k) && Low(x, k) < Shl(1, k)
  {
    if k > 0 {
      Parts(x / 2, k - 1);
    }
  }

  lemma {:induction false} ShlSum(x: nat, j: nat, k: nat)
    ensures Shl(x, j + k) == Shl(Shl(x, j), k)
  {
    if k > 0 {
      ShlSum(x, j, k - 1);
    }
  }

  lemma ShlSmall(x: nat)
    ensures Shl(x, 1) == 2 * x && Shl(x, 2) == 4 * x && Shl(x, 3) == 8 * x && Shl(x, 4) == 16 * x
    ensures Shl(x, 9) == 512 * x && Shl(x, 12) == 4096 * x && Shl(x, 8) == 256 * x
  {
    assert Shl(x, 2) == 2 * Shl(x, 1) && Shl(x, 3) == 2 * Shl(x, 2) && Shl(x, 4) == 2 * Shl(x, 3);
    ShlSum(x, 4, 4);
    var y := Shl(x, 4);
    assert Shl(y, 1) == 2 * y && Shl(y, 2) == 2 * Shl(y, 1) && Shl(y, 3) == 2 * Shl(y, 2) && Shl(y, 4) == 2 * Shl(y, 3);
    assert Shl(x, 9) == 2 * Shl(x, 8);
    assert Shl(x, 10) == 2 * Shl(x, 9) && Shl(x, 11) == 2 * Shl(x, 10) && Shl(x, 12) == 2 * Shl(x, 11);
  }

  lemma ShlLarge(x: nat)
    ensures Shl(x, 21) == 0x20_0000 * x && Shl(x, 30) == 0x4000_0000 * x && Shl(x, 39) == 0x80_0000_0000 * x
    ensures Shl(x, 40) == 0x100_0000_0000 * x && Shl(x, 51) == 0x8_0000_0000_0000 * x
      && Shl(x, 63) == 0x8000_0000_0000_0000 * x
  {
    hide Shl;
    ShlSmall(x);
    ShlSum(x, 12, 9);
    ShlSmall(Shl(x, 12));
    ShlSum(x, 21, 9);
    ShlSmall(Shl(x, 21));
    ShlSum(x, 30, 9);
    ShlSmall(Shl(x, 30));
    ShlSum(x, 39, 1);
    ShlSmall(Shl(x, 39));
    ShlSum(x, 39, 12);
    ShlSum(x, 51, 12);
    ShlSmall(Shl(x, 51));
  }

  lemma AndZero(a: nat)
    ensures And(a, 0) == 0
  {
  }

  lemma {:induction false} AndLow(x: nat, k: nat)
    ensures Shl(1, k) > 0 && And(x, Shl(1, k) - 1) == Low(x, k)
  {
    if k == 0 {
      AndZero(x);
    } else {
      AndLow(x / 2, k - 1);
      var p := Shl(1, k - 1);
      assert (2 * p - 1) % 2 == 1 && (2 * p - 1) / 2 == p - 1;
    }
  }

  /** A mask whose low `k` bits are clear. */
  lemma {:induction false} AndHigh(x: nat, m: nat, k: nat)
    ensures And(x, Shl(m, k)) == Shl(And(Shr(x, k), m), k)
  {
    if k > 0 {
      AndHigh(x / 2, m, k - 1);
      assert Shl(m, k) % 2 == 0 && Shl(m, k) / 2 == Shl(m, k - 1);
      AndStep(x, Shl(m, k));
    }
  }

  lemma AndStep(a: nat, b: nat)
    ensures And(a, b) == (if a % 2 == 1 && b % 2 == 1 then 1 else 0) + 2 * And(a / 2, b / 2)
  {
  }

  lemma OrStep(a: nat, b: nat)
    ensures Or(a, b) == (if a % 2 == 1 || b % 2 == 1 then 1 else 0) + 2 * Or(a / 2, b / 2)
  {
  }

  lemma OrZero(a: nat)
    ensures Or(a, 0) == a
  {
  }

  /** The high and the low bits of two words do not meet. */
  lemma {:induction false} OrParts(a: nat, b: nat, c: nat, d: nat, k: nat)
    requires b < Shl(1, k) && d < Shl(1, k)
    ensures Or(Shl(a, k) + b, Shl(c, k) + d) == Shl(Or(a, c), k) + Or(b, d)
  {
    if k > 0 {
      OrParts(a, b / 2, c, d / 2, k - 1);
      OrStep(Shl(a, k) + b, Shl(c, k) + d);
      OrStep(b, d);
      assert (Shl(a, k) + b) / 2 == Shl(a, k - 1) + b / 2 && (Shl(c, k) + d) / 2 == Shl(c, k - 1) + d / 2;
    }
  }

  /** Or of a word without its low `k` bits and a word of only these is their sum. */
  lemma OrIsSum(a: nat, d: nat, k: nat)
    requires d < Shl(1, k)
    ensures Or(Shl(a, k), d) == Shl(a, k) + d
  {
    OrParts(a, 0, 0, d, k);
    OrZero(a);
    ShlZero(k);
    assert Or(0, d) == d;
  }

  lemma {:induction false} ShlZero(k: nat)
    ensures Shl(0, k) == 0
  {
    if k > 0 {
      ShlZero(k - 1);
    }
  }

  // ---- the masks of the kernel ----

  const PRESENT: nat := 0x1
  const WRITABLE: nat := 0x2
  const USER: nat := 0x4
  const PWT: nat := 0x8
  const PCD: nat := 0x10
  const NO_EXECUTE: nat := 0x8000_0000_0000_0000
  const ADDR_MASK: nat := 0x000f_ffff_ffff_f000

  lemma AndBit(w: nat, k: nat)
    ensures And(w, Shl(1, k)) == if Shr(w, k) % 2 == 1 then Shl(1, k) else 0
  {
    AndHigh(w, 1, k);
    AndStep(Shr(w, k), 1);
    AndZero(Shr(w, k) / 2);
    ShlZero(k);
  }

  /** The single-bit masks test single binary digits. */
  lemma MaskBits(w: nat)
    ensures And(w, PRESENT) == (if w % 2 == 1 then PRESENT else 0)
    ensures And(w, WRITABLE) == (if w / 2 % 2 == 1 then WRITABLE else 0)
    ensures And(w, USER) == (if w / 4 % 2 == 1 then USER else 0)
    ensures And(w, PWT) == (if w / 8 % 2 == 1 then PWT else 0)
    ensures And(w, PCD) == (if w / 16 % 2 == 1 then PCD else 0)
    ensures And(w, NO_EXECUTE) == (if w / 0x8000_0000_0000_0000 % 2 == 1 then NO_EXECUTE else 0)
  {
    hide And, Shr, Shl, Low;
    ShlSmall(1);
    ShlLarge(1);
    AndBit(w, 0);
    assert Shl(1, 0) == 1 && Shr(w, 0) == w by { ShiftNothing(w); }
    AndBit(w, 1);
    AndBit(w, 2);
    AndBit(w, 3);
    AndBit(w, 4);
    AndBit(w, 63);
    ShrSmall(w);
    Parts(w, 63);
    ShlLarge(Shr(w, 63));
  }

  lemma ShiftNothing(w: nat)
    ensures Shl(1, 0) == 1 && Shr(w, 0) == w
  {
  }

  lemma ShrSmall(w: nat)
    ensures Shr(w, 1) == w / 2 && Shr(w, 2) == w / 4 && Shr(w, 3) == w / 8 && Shr(w, 4) == w / 16
  {
    hide Shr, Shl, Low;
    forall k | 1 <= k <= 4 ensures w == Shl(Shr(w, k), k) + Low(w, k) && Low(w, k) < Shl(1, k) {
      Parts(w, k);
    }
    ShlSmall(1);
    ShlSmall(Shr(w, 1));
    ShlSmall(Shr(w, 2));
    ShlSmall(Shr(w, 3));
    ShlSmall(Shr(w, 4));
  }

  /** `w & ADDR_MASK`. */
  lemma MaskAddress(w: nat)
    ensures And(w, ADDR_MASK) == 4096 * (w / 4096 % 0x100_0000_0000)
  {
    hide And, Shr, Shl, Low;
    ShlSmall(0xff_ffff_ffff);
    AndHigh(w, 0xff_ffff_ffff, 12);
    Parts(w, 12);
    ShlSmall(1);
    ShlSmall(Shr(w, 12));
    var q := Shr(w, 12);
    assert q == w / 4096;
    ShlLarge(1);
    AndLow(q, 40);
    Parts(q, 40);
    ShlLarge(Shr(q, 40));
    ShlSmall(Low(q, 40));
  }

  /** `w & (USER | WRITABLE)`. */
  lemma MaskBoth(w: nat)
    ensures And(w, 6) == 2 * (w / 2 % 4)
  {
    hide And, Shr, Shl, Low;
    ShlSmall(3);
    AndHigh(w, 3, 1);
    ShrSmall(w);
    ShlSmall(1);
    AndLow(w / 2, 2);
    Parts(w / 2, 2);
    ShlSmall(Shr(w / 2, 2));
    ShlSmall(Low(w / 2, 2));
  }

  // ---- entries ----

  function Decode(w: nat): Entry {
    Entry(And(w, PRESENT) != 0, And(w, ADDR_MASK),
          MapFlags(And(w, WRITABLE) != 0, And(w, USER) != 0, And(w, PWT) != 0, And(w, PCD) != 0,
            And(w, NO_EXECUTE) != 0))
  }

  function If(b: bool, mask: nat): nat { if b then mask else 0 }

  /** The `u64` behind a `MapFlags`. */
  function FlagBits(f: MapFlags): nat {
    If(f.writable, WRITABLE) + If(f.user, USER) + If(f.writeThrough, PWT) + If(f.cacheDisable, PCD)
      + If(f.noExecute, NO_EXECUTE)
  }

  /** What `map_page` writes. */
  function LeafWord(phys: nat, f: MapFlags): nat { Or(Or(And(phys, ADDR_MASK), PRESENT), FlagBits(f)) }

  /** What `next_table` writes. */
  function TableWord(table: nat, f: MapFlags): nat {
    Or(Or(Or(And(table, ADDR_MASK), PRESENT), WRITABLE), And(FlagBits(f), USER))
  }

  lemma Bottom(w: nat, h: nat, a: nat)
    requires w == 2 * h + a && a < 2
    ensures w % 2 == a && w / 2 == h
  {
  }

  lemma Nested(w: nat)
    ensures w / 4 == w / 2 / 2 && w / 8 == w / 4 / 2 && w / 16 == w / 8 / 2
  {
  }

  lemma HighParts(w: nat, q: nat, r: nat, e: nat)
    requires w == 0x8000_0000_0000_0000 * e + 4096 * q + r && q < 0x100_0000_0000 && r < 4096 && e < 2
    ensures w / 0x8000_0000_0000_0000 == e && w / 4096 % 0x100_0000_0000 == q
  {
    assert w / 4096 == 0x8_0000_0000_0000 * e + q;
  }

  lemma Digits(w: nat, q: nat, a: nat, b: nat, c: nat, d: nat, e: nat)
    requires q < 0x100_0000_0000 && a < 2 && b < 2 && c < 2 && d < 2 && e < 2
    requires w == 0x8000_0000_0000_0000 * e + 4096 * q + 16 * d + 8 * c + 4 * b + 2 * a + 1
    ensures w % 2 == 1 && w / 2 % 2 == a && w / 4 % 2 == b && w / 8 % 2 == c && w / 16 % 2 == d
    ensures w / 0x8000_0000_0000_0000 == e && w / 4096 % 0x100_0000_0000 == q
  {
    HighParts(w, q, 16 * d + 8 * c + 4 * b + 2 * a + 1, e);
    var h5 := 0x400_0000_0000_0000 * e + 128 * q;
    var h4 := 2 * h5 + d;
    var h3 := 2 * h4 + c;
    var h2 := 2 * h3 + b;
    var h1 := 2 * h2 + a;
    Bottom(w, h1, 1);
    Bottom(h1, h2, a);
    Bottom(h2, h3, b);
    Bottom(h3, h4, c);
    Bottom(h4, h5, d);
    Nested(w);
  }

  /** The fields of a word that is a sum of separate parts. */
  lemma DecodeSum(q: nat, f: MapFlags)
    requires q < 0x100_0000_0000
    ensures Decode(4096 * q + PRESENT + FlagBits(f)) == Entry(true, 4096 * q, f)
  {
    hide And;
    var w := 4096 * q + PRESENT + FlagBits(f);
    MaskBits(w);
    MaskAddress(w);
    Digits(w, q, If(f.writable, 1), If(f.user, 1), If(f.writeThrough, 1), If(f.cacheDisable, 1), If(f.noExecute, 1));
  }

  lemma LeafWordIsSum(q: nat, f: MapFlags)
    requires q < 0x100_0000_0000
    ensures Or(Or(4096 * q, PRESENT), FlagBits(f)) == 4096 * q + PRESENT + FlagBits(f)
  {
    hide Or, Shl;
    ShlSmall(q);
    ShlSmall(1);
    OrIsSum(q, PRESENT, 12);
    var low, top := FlagBits(f.(noExecute := false)), If(f.noExecute, 1);
    ShlSmall(0x8_0000_0000_0000 * top);
    assert FlagBits(f) == Shl(0x8_0000_0000_0000 * top, 12) + low;
    OrParts(q, 1, 0x8_0000_0000_0000 * top, low, 12);
    // the high parts: q below bit 40 of them, NO_EXECUTE above
    ShlLarge(0x800 * top);
    ShlLarge(1);
    ShlLarge(0);
    OrParts(0, q, 0x800 * top, 0, 40);
    OrZero(q);
    assert Or(0, 0x800 * top) == 0x800 * top by { OrNothing(0x800 * top); }
    ShlSmall(q + 0x8_0000_0000_0000 * top);
    // the low parts: PRESENT is bit 0, the flags are even
    OrStep(1, low);
    assert Or(0, low / 2) == low / 2 by { OrNothing(low / 2); }
  }

  lemma OrNothing(a: nat)
    ensures Or(0, a) == a
  {
  }

  /** The word of a leaf decodes to the leaf entry. */
  lemma LeafDecodes(phys: nat, f: MapFlags)
    requires phys % 4096 == 0
    ensures Decode(LeafWord(phys, f)) == LeafEntry(phys, f)
  {
    hide And, Or, Decode;
    var q := phys / 4096 % 0x100_0000_0000;
    MaskAddress(phys);
    LeafWordIsSum(q, f);
    DecodeSum(q, f);
    assert phys == 4096 * (phys / 4096);
  }

  /** The word of a table decodes to the table entry. */
  lemma TableDecodes(table: nat, f: MapFlags)
    requires table % 4096 == 0
    ensures Decode(TableWord(table, f)) == TableEntry(table, f)
  {
    hide And, Or, Decode, Shl;
    var q := table / 4096 % 0x100_0000_0000;
    var g := NO_FLAGS.(writable := true, user := f.user);
    MaskAddress(table);
    MaskBits(FlagBits(f));
    FlagUser(f);
    OrPresent(q);
    OrWritable(q);
    OrUser(q, f.user);
    DecodeSum(q, g);
    assert table == 4096 * (table / 4096);
  }

  lemma FlagUser(f: MapFlags)
    ensures FlagBits(f) / 4 % 2 == If(f.user, 1)
  {
    var a, b, c, d, e := If(f.writable, 1), If(f.user, 1), If(f.writeThrough, 1), If(f.cacheDisable, 1),
      If(f.noExecute, 1);
    var h3 := 0x1000_0000_0000_0000 * e + 2 * d + c;
    Bottom(FlagBits(f), 2 * (2 * h3 + b) + a, 0);
    Bottom(2 * (2 * h3 + b) + a, 2 * h3 + b, a);
    Bottom(2 * h3 + b, h3, b);
    Nested(FlagBits(f));
  }

  lemma OrPresent(q: nat)
    ensures Or(4096 * q, PRESENT) == 4096 * q + 1
  {
    hide Or, Shl;
    ShlSmall(q);
    ShlSmall(1);
    OrIsSum(q, PRESENT, 12);
  }

  lemma OrWritable(q: nat)
    ensures Or(4096 * q + 1, WRITABLE) == 4096 * q + 3
  {
    hide Or, Shl;
    ShlSmall(q);
    ShlSmall(0);
    ShlSmall(1);
    OrParts(q, 1, 0, 2, 12);
    OrZero(q);
    OrStep(1, 2);
    OrNothing(1);
  }

  lemma OrUser(q: nat, user: bool)
    ensures Or(4096 * q + 3, If(user, USER)) == 4096 * q + 3 + If(user, USER)
  {
    hide Or, Shl;
    ShlSmall(q);
    ShlSmall(0);
    ShlSmall(1);
    OrParts(q, 3, 0, If(user, USER), 12);
    OrZero(q);
    OrStep(3, If(user, USER));
    OrStep(1, If(user, USER) / 2);
    OrNothing(If(user, USER) / 4);
  }

  /** The tests of the walk: present, and all the bits that are needed. */
  lemma TestsDecode(w: nat, write: bool)
    ensures And(w, PRESENT) == 0 <==> !Decode(w).present
    ensures var need := USER + If(write, WRITABLE);
      And(w, need) == need <==> Decode(w).flags.user && (write ==> Decode(w).flags.writable)
  {
    hide And;
    MaskBits(w);
    MaskBoth(w);
    TwoDigits(w);
  }

  lemma TwoDigits(w: nat)
    ensures 2 * (w / 2 % 4) == 6 <==> w / 2 % 2 == 1 && w / 4 % 2 == 1
  {
    Nested(w);
    Both(w / 2);
  }

  lemma Both(x: nat)
    ensures x % 4 == 3 <==> x % 2 == 1 && x / 2 % 2 == 1
  {
  }

  lemma ZeroDecodes()
    ensures Decode(0) == ABSENT
  {
  }

  // ---- tables of words ----

  type Words = map<nat, seq<nat>>

  function DecodeTable(ws: seq<nat>): (es: seq<Entry>)
    ensures |es| == |ws| && forall i :: 0 <= i < |ws| ==> es[i] == Decode(ws[i])
  {
    seq(|ws|, i requires 0 <= i < |ws| => Decode(ws[i]))
  }

  function DecodeAll(m: Words): Tables { map t | t in m :: DecodeTable(m[t]) }

  function WordAt(m: Words, table: nat, index: nat): nat {
    if table in m && index < |m[table]| then m[table][index] else 0
  }

  function SetWord(m: Words, table: nat, i: nat, w: nat): Words
    requires table in m && i < |m[table]|
  {
    var ws: seq<nat> := m[table][i := w];
    m[table := ws]
  }

  lemma ReadDecodes(m: Words, table: nat, index: nat)
    ensures Decode(WordAt(m, table, index)) == EntryAt(DecodeAll(m), table, index)
  {
    hide Decode;
    ZeroDecodes();
  }

  /** A word written to a table is the entry written to the decoded table: a leaf, a link
      to a table, or nothing. */
  lemma WriteDecodes(m: Words, table: nat, i: nat, address: nat, f: MapFlags)
    requires table in m && i < |m[table]| && address % 4096 == 0
    ensures DecodeAll(SetWord(m, table, i, LeafWord(address, f))) ==
      SetEntry(DecodeAll(m), table, i, LeafEntry(address, f))
    ensures DecodeAll(SetWord(m, table, i, TableWord(address, f))) ==
      SetEntry(DecodeAll(m), table, i, TableEntry(address, f))
    ensures DecodeAll(SetWord(m, table, i, 0)) == SetEntry(DecodeAll(m), table, i, ABSENT)
  {
    hide Decode, LeafWord, TableWord, LeafEntry, TableEntry;
    LeafDecodes(address, f);
    TableDecodes(address, f);
    ZeroDecodes();
    WriteOne(m, table, i, LeafWord(address, f));
    WriteOne(m, table, i, TableWord(address, f));
    WriteOne(m, table, i, 0);
  }

  lemma WriteOne(m: Words, table: nat, i: nat, w: nat)
    requires table in m && i < |m[table]|
    ensures DecodeAll(SetWord(m, table, i, w)) == SetEntry(DecodeAll(m), table, i, Decode(w))
  {
    hide Decode;
    var a, b := DecodeAll(SetWord(m, table, i, w)), SetEntry(DecodeAll(m), table, i, Decode(w));
    assert a[table] == b[table];
  }

  // ---- the walk over words ----

  /** `(virt >> shift) & 0x1ff` for the four levels. */
  function IndexOf(virt: nat, level: nat): nat
    requires 1 <= level <= 4
  {
    And(Shr(virt, 9 * level + 3), 0x1ff)
  }

  lemma IndexIs(virt: nat, level: nat)
    requires 1 <= level <= 4
    ensures IndexOf(virt, level) == Indices(virt / 4096)[level]
  {
    hide And, Shr, Indices, PageShift;
    Shifted(virt, level);
    NineBits(Shr(virt, 9 * level + 3));
    ShiftedPage(virt, Shr(virt, 9 * level + 3), level);
  }

  lemma NineBits(x: nat)
    ensures And(x, 0x1ff) == x % 512
  {
    hide And, Shr, Shl, Low;
    ShlSmall(1);
    AndLow(x, 9);
    Parts(x, 9);
    ShlSmall(Shr(x, 9));
  }

  /** `virt >> (9 * level + 3)`. */
  function PageShift(virt: nat, level: nat): nat {
    if level == 1 then virt / 4096
    else if level == 2 then virt / 0x20_0000
    else if level == 3 then virt / 0x4000_0000
    else virt / 0x80_0000_0000
  }

  lemma Shifted(virt: nat, level: nat)
    requires 1 <= level <= 4
    ensures Shr(virt, 9 * level + 3) == PageShift(virt, level)
  {
    hide Shr, Shl, Low;
    var x := Shr(virt, 9 * level + 3);
    Parts(virt, 9 * level + 3);
    ShlSmall(1);
    ShlLarge(1);
    ShlSmall(x);
    ShlLarge(x);
  }

  lemma ShiftedPage(virt: nat, x: nat, level: nat)
    requires 1 <= level <= 4
    requires x == PageShift(virt, level)
    ensures Indices(virt / 4096)[level] == x % 512
  {
    var p := virt / 4096;
    assert p / 0x200 == virt / 0x20_0000 && p / 0x4_0000 == virt / 0x4000_0000
      && p / 0x800_0000 == virt / 0x80_0000_0000;
  }

  /** A walk that has lost its table or a permission that is needed. */
  predicate Dead(at: Reached, write: bool) { at.table.None? || !at.user || (write && !at.writable) }

  lemma {:induction false} DeadStaysDead(m: Tables, root: nat, ix: seq<nat>, level: nat, write: bool)
    requires |ix| == 5 && 1 <= level <= 4 && Dead(Walk(m, root, ix, level), write)
    ensures Dead(Walk(m, root, ix, 1), write)
    decreases level
  {
    if level > 1 {
      DeadStaysDead(m, root, ix, level - 1, write);
    }
  }

  /** The loop of `user_accessible` over words answers what the walk over entries grants. */
  method UserAccessible(m: Words, cr3: nat, virt: nat, write: bool) returns (b: bool)
    ensures var r := Resolve(DecodeAll(m), And(cr3, ADDR_MASK), virt / 4096);
      b <==> r.Some? && r.value.user && (write ==> r.value.writable)
  {
    hide Decode, And, IndexOf, DecodeAll, Indices;
    var need := USER + (if write then WRITABLE else 0);
    var root := And(cr3, ADDR_MASK);
    ghost var ix := Indices(virt / 4096);
    assert |ix| == 5 by { FiveIndices(virt / 4096); }
    var table, level := root, 4;
    while true
      invariant 1 <= level <= 4
      invariant Walk(DecodeAll(m), root, ix, level).table == Some(table)
        && !Dead(Walk(DecodeAll(m), root, ix, level), write)
      decreases level
    {
      IndexIs(virt, level);
      var index := IndexOf(virt, level);
      var entry := WordAt(m, table, index);
      ReadDecodes(m, table, index);
      TestsDecode(entry, write);
      DecodedAddress(entry);
      if And(entry, PRESENT) == 0 || And(entry, need) != need {
        if level > 1 {
          DeadStaysDead(DecodeAll(m), root, ix, level - 1, write);
        }
        return false;
      }
      if level == 1 {
        return true;
      }
      table, level := And(entry, ADDR_MASK), level - 1;
    }
  }

  lemma FiveIndices(page: nat)
    ensures |Indices(page)| == 5
  {
  }

  lemma DecodedAddress(w: nat)
    ensures Decode(w).address == And(w, ADDR_MASK)
  {
  }
}
