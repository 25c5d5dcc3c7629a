/** How many tables a mapping needs: which tables the walks of an address space find, and
    what a run of pages adds to them. */
module TableDemand {
  import opened Common
  import opened PageTables

  // ---- which tables there are ----

  /** The walk along `ix` finds its table of the given level. */
  predicate Has(m: Tables, root: nat, ix: seq<nat>, level: nat)
    requires |ix| == 5 && 1 <= level <= 4
  {
    Walk(m, root, ix, level).table.Some?
  }

  /** The two paths come to the same table of this level. */
  predicate SamePrefix(ix: seq<nat>, jx: seq<nat>, level: nat)
    requires |ix| == 5 && |jx| == 5
  {
    forall k :: level < k <= 4 ==> ix[k] == jx[k]
  }

  lemma {:induction false} PrefixWalk(m: Tables, root: nat, ix: seq<nat>, jx: seq<nat>, level: nat)
    requires |ix| == 5 && |jx| == 5 && 1 <= level <= 4 && SamePrefix(ix, jx, level)
    ensures Walk(m, root, ix, level) == Walk(m, root, jx, level)
    decreases 4 - level
  {
    if level < 4 {
      PrefixWalk(m, root, ix, jx, level + 1);
    }
  }

  ghost predicate GrownAt(m: Tables, m': Tables, root: nat, ix: seq<nat>, low: nat, r: nat, jx: seq<nat>, level: nat)
    requires |ix| == 5 && |jx| == 5 && 1 <= level <= 4
  {
    Has(m', r, jx, level) <==> Has(m, r, jx, level) || (r == root && level >= low && SamePrefix(jx, ix, level))
  }

  /** The tables of the path `ix` of `root` down to level `low` have joined those of `m`,
      and no others. */
  ghost predicate Grown(m: Tables, m': Tables, tr: Trees, root: nat, ix: seq<nat>, low: nat)
    requires |ix| == 5
  {
    forall r, jx, level {:trigger GrownAt(m, m', root, ix, low, r, jx, level)} ::
      Root(tr, r) && UserPath(jx) && 1 <= level <= 4 ==> GrownAt(m, m', root, ix, low, r, jx, level)
  }

  lemma GrownStart(m: Tables, tr: Trees, root: nat, ix: seq<nat>)
    requires |ix| == 5
    ensures Grown(m, m, tr, root, ix, 4)
  {
  }

  /** The next table was there. */
  lemma GrownFollow(m0: Tables, m: Tables, tr: Trees, root: nat, ix: seq<nat>, level: nat)
    requires |ix| == 5 && 2 <= level <= 4 && Grown(m0, m, tr, root, ix, level) && Has(m, root, ix, level - 1)
    ensures Grown(m0, m, tr, root, ix, level - 1)
  {
    var low := level - 1;
    forall r, jx, l | Root(tr, r) && UserPath(jx) && 1 <= l <= 4 ensures GrownAt(m0, m, root, ix, low, r, jx, l) {
      assert GrownAt(m0, m, root, ix, level, r, jx, l);
      if r == root && l == level - 1 && SamePrefix(jx, ix, l) {
        PrefixWalk(m, root, jx, ix, l);
      }
    }
  }

  lemma OneLink(m: Tables, tr: Trees, t: nat, i: nat, c: nat, flags: MapFlags, root: nat, ix: seq<nat>, r: nat,
      jx: seq<nat>, l: nat)
    requires CanLink(m, tr, t, i, c) && t in m && |m[t]| == 512 && Root(tr, root) && UserPath(ix)
      && Through(m, tr, t, i, root, ix)
    requires Root(tr, r) && UserPath(jx) && 1 <= l <= 4
    ensures Has(LinkTable(m, t, i, c, flags), r, jx, l) <==>
      Has(m, r, jx, l) || (r == root && l == tr[t].level - 1 && SamePrefix(jx, ix, l))
  {
    var level := tr[t].level;
    if Through(m, tr, t, i, r, jx) {
      WalksMeetOnlyOnSamePath(m, tr, root, ix, r, jx, level);
      if l < level {
        WalkThroughLink(m, tr, t, i, c, flags, r, jx, l);
      } else {
        LinkKeepsUpperWalks(m, tr, t, i, c, flags, r, jx, l);
      }
    } else {
      WalkBesideLink(m, tr, t, i, c, flags, r, jx, l);
      if r == root && SamePrefix(jx, ix, level - 1) {
        PrefixWalk(m, root, jx, ix, level);
      }
    }
  }

  /** The next table was linked. */
  lemma GrownLink(m0: Tables, m: Tables, tr: Trees, t: nat, i: nat, c: nat, flags: MapFlags, root: nat, ix: seq<nat>)
    requires CanLink(m, tr, t, i, c) && t in m && |m[t]| == 512 && Root(tr, root) && UserPath(ix)
      && Through(m, tr, t, i, root, ix)
    requires Grown(m0, m, tr, root, ix, tr[t].level)
    ensures Grown(m0, LinkTable(m, t, i, c, flags), tr, root, ix, tr[t].level - 1)
  {
    hide SamePrefix, Has, Walk;
    var m', level := LinkTable(m, t, i, c, flags), tr[t].level;
    var low := level - 1;
    forall r, jx, l | Root(tr, r) && UserPath(jx) && 1 <= l <= 4 ensures GrownAt(m0, m', root, ix, low, r, jx, l) {
      OneLink(m, tr, t, i, c, flags, root, ix, r, jx, l);
      assert GrownAt(m0, m, root, ix, level, r, jx, l);
    }
  }

  lemma GrownAlike(m0: Tables, m: Tables, tr: Trees, tr': Trees, root: nat, ix: seq<nat>, low: nat)
    requires |ix| == 5 && Grown(m0, m, tr, root, ix, low) && forall r :: Root(tr', r) <==> Root(tr, r)
    ensures Grown(m0, m, tr', root, ix, low)
  {
    forall r, jx, l | Root(tr', r) && UserPath(jx) && 1 <= l <= 4 ensures GrownAt(m0, m, root, ix, low, r, jx, l) {
      assert Root(tr, r);
    }
  }

  /** A PT entry is no table. */
  lemma GrownLeaf(m0: Tables, m: Tables, tr: Trees, t: nat, i: nat, e: Entry, root: nat, ix: seq<nat>, low: nat)
    requires |ix| == 5 && Forest(m, tr) && t in tr && tr[t].level == 1 && t in m && |m[t]| == 512 && i < 512
    requires Grown(m0, m, tr, root, ix, low)
    ensures Grown(m0, SetEntry(m, t, i, e), tr, root, ix, low)
  {
    forall r, jx, l | Root(tr, r) && UserPath(jx) && 1 <= l <= 4
      ensures GrownAt(m0, SetEntry(m, t, i, e), root, ix, low, r, jx, l)
    {
      assert GrownAt(m0, m, root, ix, low, r, jx, l);
      LeafWriteKeepsWalks(m, tr, t, i, e, r, jx, l);
    }
  }

  // ---- pages one after another ----

  /** Which table of a level a page is under. */
  function Under(page: nat, level: nat): nat
    requires 1 <= level <= 3
  {
    if level == 1 then page / 0x200 else if level == 2 then page / 0x4_0000 else page / 0x800_0000
  }

  lemma PrefixIsUnder(p: nat, q: nat, level: nat)
    requires UserPage(p) && UserPage(q) && 1 <= level <= 3
    ensures SamePrefix(Indices(p), Indices(q), level) <==> Under(p, level) == Under(q, level)
  {
    var a, b := Indices(p), Indices(q);
    TopIndex(p);
    TopIndex(q);
    SplitDigit(p, 0x4_0000, 0x800_0000);
    SplitDigit(q, 0x4_0000, 0x800_0000);
    SplitDigit(p, 0x200, 0x4_0000);
    SplitDigit(q, 0x200, 0x4_0000);
    PrefixIs(a, b, level);
  }

  lemma TopIndex(p: nat)
    requires UserPage(p)
    ensures Indices(p)[4] == p / 0x800_0000
  {
    assert p / 0x800_0000 < 256;
  }

  lemma PrefixIs(a: seq<nat>, b: seq<nat>, level: nat)
    requires |a| == 5 && |b| == 5 && 1 <= level <= 3
    ensures SamePrefix(a, b, level) <==> a[4] == b[4] && (level <= 2 ==> a[3] == b[3]) && (level == 1 ==> a[2] == b[2])
  {
    assert SamePrefix(a, b, level) ==> a[4] == b[4];
    assert SamePrefix(a, b, level) && level <= 2 ==> a[3] == b[3];
    assert SamePrefix(a, b, level) && level <= 1 ==> a[2] == b[2];
  }

  lemma UnderGrows(p: nat, q: nat, level: nat)
    requires p <= q && 1 <= level <= 3
    ensures Under(p, level) <= Under(q, level)
  {
  }

  /** Page `first + k` needs a table of this level that neither `m` has nor the page before
      it has brought. */
  predicate NeedsNew(m: Tables, root: nat, first: nat, k: nat, level: nat)
    requires 1 <= level <= 3
  {
    !Has(m, root, Indices(first + k), level) && (k == 0 || Under(first + k, level) != Under(first + k - 1, level))
  }

  function One(b: bool): nat { if b then 1 else 0 }

  function NewAt(m: Tables, root: nat, first: nat, k: nat): nat {
    One(NeedsNew(m, root, first, k, 3)) + One(NeedsNew(m, root, first, k, 2)) + One(NeedsNew(m, root, first, k, 1))
  }

  /** The tables that mapping `count` pages from `first` on has to make. */
  function Needed(m: Tables, root: nat, first: nat, count: nat): nat {
    if count == 0 then 0 else Needed(m, root, first, count - 1) + NewAt(m, root, first, count - 1)
  }

  lemma {:induction false} NeededGrows(m: Tables, root: nat, first: nat, a: nat, b: nat)
    requires a <= b
    ensures Needed(m, root, first, a) <= Needed(m, root, first, b)
    decreases b
  {
    if a < b {
      NeededGrows(m, root, first, a, b - 1);
    }
  }

  /** How many tables the walk for `ix` still lacks. */
  function Missing(m: Tables, root: nat, ix: seq<nat>): (n: nat)
    requires |ix| == 5
    ensures n <= 3
  {
    if !Has(m, root, ix, 3) then 3 else if !Has(m, root, ix, 2) then 2 else if !Has(m, root, ix, 1) then 1 else 0
  }

  lemma MissingCounts(m: Tables, root: nat, ix: seq<nat>)
    requires |ix| == 5
    ensures Missing(m, root, ix) == One(!Has(m, root, ix, 3)) + One(!Has(m, root, ix, 2)) + One(!Has(m, root, ix, 1))
  {
    WalkOnlyNarrows(m, root, ix, 3, 2);
    WalkOnlyNarrows(m, root, ix, 2, 1);
  }

  /** Page `first + j` is under the same table. */
  predicate Beside(first: nat, j: nat, q: nat, level: nat)
    requires 1 <= level <= 3
  {
    Under(first + j, level) == Under(q, level)
  }

  /** After the first `k` pages: the tables of `m` and those above these pages. */
  ghost predicate BuiltAt(m: Tables, m': Tables, root: nat, first: nat, k: nat, q: nat, level: nat)
    requires 1 <= level <= 3
  {
    Has(m', root, Indices(q), level) <==>
      Has(m, root, Indices(q), level) || exists j: nat :: j < k && Beside(first, j, q, level)
  }

  ghost predicate Built(m: Tables, m': Tables, root: nat, first: nat, k: nat) {
    forall q, level {:trigger BuiltAt(m, m', root, first, k, q, level)} :: UserPage(q) && 1 <= level <= 3 ==>
      BuiltAt(m, m', root, first, k, q, level)
  }

  lemma BuiltNone(m: Tables, root: nat, first: nat)
    ensures Built(m, m, root, first, 0)
  {
  }

  lemma BuiltMore(m: Tables, m1: Tables, m2: Tables, tr: Trees, root: nat, first: nat, k: nat)
    requires Built(m, m1, root, first, k) && Root(tr, root) && UserPage(first + k)
    requires Grown(m1, m2, tr, root, Indices(first + k), 1)
    ensures Built(m, m2, root, first, k + 1)
  {
    hide Indices, UserPage, SamePrefix, Has, Under;
    var more := k + 1;
    forall q: nat, level | UserPage(q) && 1 <= level <= 3 ensures BuiltAt(m, m2, root, first, more, q, level) {
      assert BuiltAt(m, m1, root, first, k, q, level);
      IndicesAreUserPath(q);
      var ix := Indices(first + k);
      assert GrownAt(m1, m2, root, ix, 1, root, Indices(q), level);
      PrefixIsUnder(q, first + k, level);
      assert Beside(first, k, q, level) <==> SamePrefix(Indices(q), ix, level);
    }
  }

  /** So the next page lacks exactly what is new with it. */
  lemma MissingIsNew(m: Tables, m': Tables, root: nat, first: nat, k: nat)
    requires Built(m, m', root, first, k) && UserPage(first + k)
    ensures Missing(m', root, Indices(first + k)) == NewAt(m, root, first, k)
  {
    hide Indices, UserPage, Has, Missing, Built, NeedsNew;
    MissingCounts(m', root, Indices(first + k));
    forall level | 1 <= level <= 3
      ensures !Has(m', root, Indices(first + k), level) <==> NeedsNew(m, root, first, k, level)
    {
      LacksIffNew(m, m', root, first, k, level);
    }
  }

  lemma LacksIffNew(m: Tables, m': Tables, root: nat, first: nat, k: nat, level: nat)
    requires Built(m, m', root, first, k) && UserPage(first + k) && 1 <= level <= 3
    ensures !Has(m', root, Indices(first + k), level) <==> NeedsNew(m, root, first, k, level)
  {
    hide Indices, UserPage, Has, Under;
    var q := first + k;
    assert BuiltAt(m, m', root, first, k, q, level);
    if j: nat :| j < k && Beside(first, j, q, level) {
      UnderGrows(first + j, first + k - 1, level);
      UnderGrows(first + k - 1, first + k, level);
    }
    if k > 0 {
      assert Beside(first, k - 1, q, level) <==> Under(first + k - 1, level) == Under(first + k, level);
    }
  }
}
