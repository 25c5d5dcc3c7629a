/** The operations on address spaces, with the page tables updated in place, and the
    check of user-supplied ranges that every system call makes.

    The ghost field `space` is the plain map that the tables stand for: it takes an
    address space and a page to a frame with permissions.  `Valid` says that walking
    the tables gives exactly that map. */
module AddressSpaces {
  import opened Common
  import opened PageTables
  import opened TableDemand

  // ---- the plain map ----

  type Space = map<(nat, nat), Mapping>

  function Get(space: Space, root: nat, page: nat): Option<Mapping> {
    if (root, page) in space then Some(space[(root, page)]) else None
  }

  function Put(space: Space, root: nat, page: nat, x: Option<Mapping>): Space {
    if x.Some? then space[(root, page) := x.value] else space - {(root, page)}
  }

  /** The tables map exactly what `space` maps. */
  ghost predicate Refines(m: Tables, tr: Trees, space: Space) {
    && (forall r, p {:trigger Resolve(m, r, p)} :: Root(tr, r) && UserPage(p) ==> Resolve(m, r, p) == Get(space, r, p))
    && (forall k :: k in space ==> Root(tr, k.0) && UserPage(k.1))
  }

  /** What a PT entry with `flags` makes of this page: its own permissions, cut down by
      those of the tables that are already there. */
  function Mapped(m: Tables, root: nat, page: nat, phys: nat, flags: MapFlags): Mapping {
    var w := Walk(m, root, Indices(page), 1);
    var noExecute := flags.noExecute || w.noExecute;
    Mapping(Masked(phys), flags.user && w.user, flags.writable && w.writable, noExecute, flags.writeThrough,
            flags.cacheDisable)
  }

  /** The tables above this page allow the same; a page for the kernel may add tables that
      are closed to user programs. */
  predicate SameWay(m: Tables, m': Tables, flags: MapFlags, root: nat, page: nat) {
    var w, w' := Walk(m, root, Indices(page), 1), Walk(m', root, Indices(page), 1);
    w'.writable == w.writable && w'.noExecute == w.noExecute && (flags.user ==> w'.user == w.user)
  }

  ghost predicate SameGrants(m: Tables, m': Tables, tr: Trees, flags: MapFlags) {
    forall r, p {:trigger SameWay(m, m', flags, r, p)} :: Root(tr, r) && UserPage(p) ==> SameWay(m, m', flags, r, p)
  }

  /** An entry for a table: writable always, for user programs if asked. */
  predicate LinksTo(e: Entry, table: nat, user: bool) {
    && e.present && e.address == table && e.flags.writable && e.flags.user == user
    && !e.flags.noExecute && !e.flags.writeThrough && !e.flags.cacheDisable
  }

  /** The PT entry of a page, where its walk ends. */
  function LeafOf(m: Tables, root: nat, page: nat): Entry {
    var t := Walk(m, root, Indices(page), 1).table;
    if t.Some? then EntryAt(m, t.value, Indices(page)[1]) else ABSENT
  }

  function FrameOf(space: Space, root: nat, page: nat): Option<nat> {
    if (root, page) in space then Some(space[(root, page)].frame) else None
  }

  predicate Accessible(space: Space, root: nat, page: nat, write: bool) {
    (root, page) in space && space[(root, page)].user && (write ==> space[(root, page)].writable)
  }

  // ---- how the lemmas about single entries carry over to the map ----

  ghost predicate SameView(m: Tables, m': Tables, tr: Trees, flags: MapFlags) {
    forall root, ix {:trigger SameViewOf(m, m', flags, root, ix)} :: Root(tr, root) && UserPath(ix) ==>
      SameViewOf(m, m', flags, root, ix)
  }

  lemma SameViewTrans(m: Tables, m': Tables, m'': Tables, tr: Trees, flags: MapFlags)
    requires SameView(m, m', tr, flags) && SameView(m', m'', tr, flags)
    ensures SameView(m, m'', tr, flags)
  {
    forall root, ix | Root(tr, root) && UserPath(ix) ensures SameViewOf(m, m'', flags, root, ix) {
      assert SameViewOf(m, m', flags, root, ix) && SameViewOf(m', m'', flags, root, ix);
    }
  }

  ghost predicate SameRoots(tr: Trees, tr': Trees) {
    forall root :: Root(tr', root) <==> Root(tr, root)
  }

  lemma SameViewRefines(m: Tables, m': Tables, tr: Trees, tr': Trees, flags: MapFlags, space: Space)
    requires SameView(m, m', tr, flags) && SameRoots(tr, tr') && Refines(m, tr, space)
    ensures Refines(m', tr', space) && SameGrants(m, m', tr, flags)
  {
    forall r, p | Root(tr, r) && UserPage(p)
      ensures Resolve(m', r, p) == Resolve(m, r, p) && SameWay(m, m', flags, r, p)
    {
      IndicesAreUserPath(p);
      assert SameViewOf(m, m', flags, r, Indices(p));
    }
  }

  lemma LinkFacts(m: Tables, tr: Trees, t: nat, i: nat, c: nat, flags: MapFlags, root: nat, ix: seq<nat>, space: Space)
    requires CanLink(m, tr, t, i, c) && Root(tr, root) && UserPath(ix) && Through(m, tr, t, i, root, ix)
    requires Refines(m, tr, space)
    ensures t in m && |m[t]| == 512
    ensures var m' := LinkTable(m, t, i, c, flags);
      var tr' := tr[c := Place(tr[t].level - 1, t, i)];
      && Forest(m', tr') && SameRoots(tr, tr') && Refines(m', tr', space)
      && SameView(m, m', tr, flags)
      && Walk(m', root, ix, tr[t].level - 1).table == Some(c)
  {
    LinkKeepsForest(m, tr, t, i, c, flags);
    WalkThroughLink(m, tr, t, i, c, flags, root, ix, tr[t].level - 1);
    forall root', ix' | Root(tr, root') && UserPath(ix')
      ensures SameViewOf(m, LinkTable(m, t, i, c, flags), flags, root', ix')
    {
      LinkChangesNoMapping(m, tr, t, i, c, flags, root', ix');
    }
    assert TableShape(m, tr, t);
    SameViewRefines(m, LinkTable(m, t, i, c, flags), tr, tr[c := Place(tr[t].level - 1, t, i)], flags, space);
  }

  /** Writing the PT entry of a page updates the plain map at that page of that
      address space, and nowhere else. */
  lemma LeafWriteRefines(m: Tables, tr: Trees, root: nat, page: nat, e: Entry, flags: MapFlags, space: Space)
    requires Forest(m, tr) && Root(tr, root) && UserPage(page) && Refines(m, tr, space)
    requires Walk(m, root, Indices(page), 1).table.Some?
    ensures var at := Walk(m, root, Indices(page), 1);
      && at.table.value in m && |m[at.table.value]| == 512 && Indices(page)[1] < 512
      && var m' := SetEntry(m, at.table.value, Indices(page)[1], e);
      && m'.Keys == m.Keys && Forest(m', tr)
      && Refines(m', tr, Put(space, root, page, Leaf(at, e)))
      && SameGrants(m, m', tr, flags)
  {
    hide Forest, Resolve, SameWay, Indices;
    IndicesAreUserPath(page);
    var ix, at := Indices(page), Walk(m, root, Indices(page), 1);
    LeafWriteChangesOnePath(m, tr, root, ix, e, root, ix);
    LeafWriteKeepsForest(m, tr, at.table.value, ix[1], e);
    var m' := SetEntry(m, at.table.value, ix[1], e);
    forall r, p | Root(tr, r) && UserPage(p)
      ensures Resolve(m', r, p) == Get(Put(space, root, page, Leaf(at, e)), r, p)
      ensures SameWay(m, m', flags, r, p)
    {
      assert Resolve(m, r, p) == Get(space, r, p);
      LeafWriteAt(m, tr, root, page, e, flags, r, p);
    }
  }

  lemma ShapeOf(m: Tables, tr: Trees, t: nat)
    requires Forest(m, tr) && t in tr
    ensures t in m && |m[t]| == 512
  {
    assert TableShape(m, tr, t);
  }

  lemma LeafIsWritten(m: Tables, tr: Trees, root: nat, page: nat, e: Entry)
    requires Forest(m, tr) && Root(tr, root) && UserPage(page) && Walk(m, root, Indices(page), 1).table.Some?
    ensures var t := Walk(m, root, Indices(page), 1).table.value;
      t in m && Indices(page)[1] < |m[t]| && LeafOf(SetEntry(m, t, Indices(page)[1], e), root, page) == e
  {
    hide Indices;
    IndicesAreUserPath(page);
    var ix, t := Indices(page), Walk(m, root, Indices(page), 1).table.value;
    WalkStaysInForest(m, tr, root, ix, 1);
    assert TableShape(m, tr, t) && UserSlot(1, ix[1]);
    LeafWriteKeepsWalks(m, tr, t, ix[1], e, root, ix, 1);
  }

  lemma LeafWriteAt(m: Tables, tr: Trees, root: nat, page: nat, e: Entry, flags: MapFlags, r: nat, p: nat)
    requires Forest(m, tr) && Root(tr, root) && UserPage(page) && Root(tr, r) && UserPage(p)
    requires Walk(m, root, Indices(page), 1).table.Some?
    requires var t := Walk(m, root, Indices(page), 1).table.value; t in m && |m[t]| == 512 && Indices(page)[1] < 512
    ensures var at := Walk(m, root, Indices(page), 1);
      var m' := SetEntry(m, at.table.value, Indices(page)[1], e);
      && Resolve(m', r, p) == (if r == root && p == page then Leaf(at, e) else Resolve(m, r, p))
      && SameWay(m, m', flags, r, p)
  {
    IndicesAreUserPath(page);
    IndicesAreUserPath(p);
    LeafWriteChangesOnePath(m, tr, root, Indices(page), e, r, Indices(p));
    LeafWriteKeepsWalks(m, tr, Walk(m, root, Indices(page), 1).table.value, Indices(page)[1], e, r, Indices(p), 1);
    if Indices(p) == Indices(page) { IndicesInjective(p, page); }
  }

  /** A PML4 without user entries put at `c` takes the pages of `c` from the map. */
  lemma EmptyRootRefines(m: Tables, tr: Trees, c: nat, es: seq<Entry>, space: Space)
    requires Forest(m, tr) && Refines(m, tr, space) && |es| == 512
    requires (c !in m && GoodTable(c)) || Root(tr, c)
    requires forall i :: 1 <= i < 256 ==> es[i] == ABSENT
    ensures Forest(m[c := es], if c in m then tr else tr[c := Place(4, 0, 0)])
    ensures Refines(m[c := es], if c in m then tr else tr[c := Place(4, 0, 0)], WithoutRoot(space, c))
  {
    assert Root(tr, c) ==> TableShape(m, tr, c);
    if c in m { ClearedRootKeepsForest(m, tr, c, es); } else { NewRootKeepsForest(m, tr, c, es); }
    forall r, p | (Root(tr, r) || r == c) && UserPage(p)
      ensures Resolve(m[c := es], r, p) == Get(WithoutRoot(space, c), r, p)
    {
      assert Resolve(m, r, p) == Get(space, r, p) || r == c;
      IndicesAreUserPath(p);
      ReplacedRoot(m, tr, c, es, r, Indices(p));
    }
  }

  function WithoutRoot(space: Space, root: nat): Space {
    map k | k in space && k.0 != root :: space[k]
  }

  // ---- ranges of pages ----

  /** `size.div_ceil(4096)` */
  function PagesOf(size: nat): (r: nat)
    ensures size <= r * 4096 < size + 4096
  {
    (size + 4096 - 1) / 4096
  }

  predicate UserRange(first: nat, count: nat) {
    count > 0 ==> UserPage(first) && UserPage(first + count - 1)
  }

  function DropRange(space: Space, root: nat, first: nat, count: nat): Space {
    map k | k in space && !(k.0 == root && first <= k.1 < first + count) :: space[k]
  }

  /** `count` pages from `first` on mapped to frames in a row. */
  ghost function WithRun(
      space: Space, m: Tables, root: nat, first: nat, phys: nat, flags: MapFlags, count: nat): Space {
    if count == 0 then space
    else WithRun(space, m, root, first, phys, flags, count - 1)
      [(root, first + count - 1) := Mapped(m, root, first + count - 1, phys + (count - 1) * 4096, flags)]
  }

  /** The run replaces exactly its own pages. */
  lemma {:induction false} WithRunAt(space: Space, m: Tables, root: nat, first: nat, phys: nat, flags: MapFlags,
      count: nat, r: nat, p: nat)
    ensures Get(WithRun(space, m, root, first, phys, flags, count), r, p) ==
      if r == root && first <= p < first + count
      then Some(Mapped(m, root, p, phys + (p - first) * 4096, flags))
      else Get(space, r, p)
  {
    hide Mapped;
    if count > 0 {
      WithRunAt(space, m, root, first, phys, flags, count - 1, r, p);
    }
  }

  lemma SameAsBefore(m: Tables, tr: Trees, flags: MapFlags)
    ensures SameGrants(m, m, tr, flags) && SameRoots(tr, tr)
  {
  }

  lemma RootStays(tr: Trees, tr': Trees, root: nat)
    requires SameRoots(tr, tr') && Root(tr, root)
    ensures Root(tr', root)
  {
  }

  lemma SameRootsTrans(tr: Trees, tr1: Trees, tr2: Trees)
    requires SameRoots(tr, tr1) && SameRoots(tr1, tr2)
    ensures SameRoots(tr, tr2)
  {
  }

  lemma SameGrantsTrans(m: Tables, m1: Tables, m2: Tables, tr: Trees, tr1: Trees, flags: MapFlags)
    requires SameGrants(m, m1, tr, flags) && SameGrants(m1, m2, tr1, flags) && SameRoots(tr, tr1)
    ensures SameGrants(m, m2, tr, flags)
  {
    forall r, p | Root(tr, r) && UserPage(p) ensures SameWay(m, m2, flags, r, p) {
      assert Root(tr1, r);
      assert SameWay(m, m1, flags, r, p) && SameWay(m1, m2, flags, r, p);
    }
  }

  lemma SameMapped(m: Tables, m1: Tables, tr: Trees, root: nat, page: nat, phys: nat, flags: MapFlags)
    requires SameGrants(m, m1, tr, flags) && Root(tr, root) && UserPage(page)
    ensures Mapped(m1, root, page, phys, flags) == Mapped(m, root, page, phys, flags)
  {
    assert SameWay(m, m1, flags, root, page);
  }

  lemma LeafIsMapped(m: Tables, m1: Tables, tr: Trees, root: nat, page: nat, phys: nat, flags: MapFlags)
    requires SameGrants(m, m1, tr, flags) && Root(tr, root) && UserPage(page)
    ensures Leaf(Walk(m1, root, Indices(page), 1), LeafEntry(phys, flags)) == Some(Mapped(m, root, page, phys, flags))
  {
    assert SameWay(m, m1, flags, root, page);
  }

  /** A page for user programs closes nothing that was open. */
  lemma StaysOpen(m: Tables, m1: Tables, tr: Trees, flags: MapFlags, root: nat, page: nat)
    requires SameGrants(m, m1, tr, flags) && flags.user && Root(tr, root) && UserPage(page)
    ensures Open(m1, root, page) <==> Open(m, root, page)
  {
    assert SameWay(m, m1, flags, root, page);
  }

  /** In an open place a page is just what was asked for. */
  lemma MappedInOpen(m: Tables, root: nat, page: nat, phys: nat, flags: MapFlags)
    requires Open(m, root, page)
    ensures var x := Mapped(m, root, page, phys, flags);
      && x.frame == phys % 0x10_0000_0000_0000 && x.user == flags.user && x.writable == flags.writable
      && x.noExecute == flags.noExecute && x.writeThrough == flags.writeThrough && x.cacheDisable == flags.cacheDisable
  {
  }

  // ---- the operations ----

  ghost predicate PoolFresh(pool: seq<Option<nat>>, m: Tables) {
    && (forall i :: 0 <= i < |pool| && pool[i].Some? ==> GoodTable(pool[i].value) && pool[i].value !in m)
    && (forall i, j :: 0 <= i < j < |pool| && pool[i].Some? ==> pool[i] != pool[j])
  }

  /** How many of the coming table allocations succeed before one fails. */
  function Supply(pool: seq<Option<nat>>): nat {
    if pool == [] || pool[0].None? then 0 else 1 + Supply(pool[1..])
  }

  const USER_MIN: nat := 0x80_0000_0000
  const USER_MAX: nat := 0x8000_0000_0000
  const MAX_TRANSFER: nat := 16 * 1024 * 1024

  datatype MapResult = Ok | OutOfMemory | InvalidAddress

  class Paging {
    var tables: Tables
    /** The outcomes of the coming `alloc_zeroed` calls for table pages. */
    var pool: seq<Option<nat>>
    const kernelRoot: nat
    ghost var trees: Trees
    ghost var space: Space

    ghost predicate Valid()
      reads this
    {
      && Forest(tables, trees) && Root(trees, kernelRoot) && PoolFresh(pool, tables)
      && Refines(tables, trees, space)
    }

    /** The kernel's own PML4, with nothing in the user half. */
    constructor (root: nat, es: seq<Entry>, coming: seq<Option<nat>>)
      requires GoodTable(root) && |es| == 512 && (forall i :: 1 <= i < 256 ==>
        es[i] == ABSENT) && PoolFresh(coming, map[root := es])
      ensures Valid() && space == map[] && tables == map[root := es] && kernelRoot == root
    {
      tables, pool, kernelRoot := map[root := es], coming, root;
      trees, space := map[root := Place(4, 0, 0)], map[];
      EmptyRootRefines(map[], map[], root, es, map[]);
      assert map[][root := es] == map[root := es];
      assert map[][root := Place(4, 0, 0)] == map[root := Place(4, 0, 0)];
      assert WithoutRoot(map[], root) == map[];
      new;
    }

    method AllocTable() returns (r: Option<nat>)
      requires Valid()
      modifies this`pool
      ensures Valid() && (r.Some? <==> Supply(old(pool)) > 0) && (r.Some? ==> Supply(pool) + 1 == Supply(old(pool)))
      ensures r.Some? ==> GoodTable(r.value) && r.value !in tables && PoolFresh(pool, tables[r.value := Zeroed()])
    {
      if pool == [] {
        return None;
      }
      r := pool[0];
      assert forall i :: 0 <= i < |pool| - 1 ==> pool[1..][i] == pool[i + 1];
      pool := pool[1..];
    }

    /** `next_table`: the table below `parent`, made if it is not there yet.  The
        ghost arguments name a walk that stands at `parent`. */
    method NextTable(parent: nat, index: nat, flags: MapFlags, ghost root: nat, ghost ix: seq<nat>, ghost level: nat,
        ghost m0: Tables)
      returns (r: Option<nat>)
      requires Valid() && Root(trees, root) && UserPath(ix) && 2 <= level <= 4
        && Grown(m0, tables, trees, root, ix, level)
      requires Walk(tables, root, ix, level).table == Some(parent) && index == ix[level]
      modifies this`tables, this`trees, this`pool
      ensures Valid() && SameRoots(old(trees), trees)
      ensures SameView(old(tables), tables, old(trees), flags)
      ensures r.Some? ==> Walk(tables, root, ix, level - 1).table == r && Grown(m0, tables, trees, root, ix, level - 1)
      ensures if old(Walk(tables, root, ix, level - 1).table).Some?
        then r.Some? && tables == old(tables) && pool == old(pool)
        else (r.None? <==> Supply(old(pool)) == 0) && (r.Some? ==>
          && Supply(pool) + 1 == Supply(old(pool)) && EntryAt(tables, r.value, ix[level - 1]) == ABSENT
          && LinksTo(EntryAt(tables, parent, index), r.value, flags.user))
    {
      hide Grown;
      WalkStaysInForest(tables, trees, root, ix, level);
      assert TableShape(tables, trees, parent);
      var entry := tables[parent][index];
      if entry.present {
        GrownFollow(m0, tables, trees, root, ix, level);
        return Some(entry.address);
      }
      r := AllocTable();
      if r.None? {
        return;
      }
      LinkNew(parent, index, r.value, flags, root, ix, m0);
    }

    /** Links the zeroed page `c` into a free slot. */
    method LinkNew(
        parent: nat, index: nat, c: nat, flags: MapFlags, ghost root: nat, ghost ix: seq<nat>, ghost m0: Tables)
      requires CanLink(tables, trees, parent, index, c) && Root(trees, root) && UserPath(ix)
      requires Grown(m0, tables, trees, root, ix, trees[parent].level)
      requires Through(tables, trees, parent, index, root, ix)
      requires PoolFresh(pool, tables[c := Zeroed()]) && Refines(tables, trees, space)
      modifies this`tables, this`trees
      ensures Forest(tables, trees) && SameRoots(old(trees), trees) && PoolFresh(pool, tables)
        && Refines(tables, trees, space)
      ensures SameView(old(tables), tables, old(trees), flags)
      ensures Walk(tables, root, ix, old(trees)[parent].level - 1).table == Some(c) && c in tables
        && tables[c] == Zeroed()
      ensures Grown(m0, tables, trees, root, ix, old(trees)[parent].level - 1)
      ensures LinksTo(EntryAt(tables, parent, index), c, flags.user)
    {
      hide Forest, Refines, SameView, Walk, TableShape, Grown;
      LinkFacts(tables, trees, parent, index, c, flags, root, ix, space);
      GrownLink(m0, tables, trees, parent, index, c, flags, root, ix);
      ghost var tr0, low := trees, trees[parent].level - 1;
      tables := tables[parent := tables[parent][index := TableEntry(c, flags)]];
      tables := tables[c := Zeroed()];
      trees := trees[c := Place(trees[parent].level - 1, parent, index)];
      assert tables == LinkTable(old(tables), parent, index, c, flags);
      GrownAlike(m0, tables, tr0, trees, root, ix, low);
    }

    method MapPage(cr3: nat, virt: nat, phys: nat, flags: MapFlags) returns (r: MapResult)
      requires Valid() && Root(trees, cr3) && UserPage(virt / 4096)
      modifies this
      ensures Valid() && SameRoots(old(trees), trees) && SameGrants(old(tables), tables, old(trees), flags)
      ensures r.InvalidAddress? <==> virt % 4096 != 0 || phys % 4096 != 0
      ensures r.OutOfMemory? <==>
        virt % 4096 == 0 && phys % 4096 == 0 && Supply(old(pool)) < Missing(old(tables), cr3, Indices(virt / 4096))
      ensures r.Ok? ==> Supply(pool) + Missing(old(tables), cr3, Indices(virt / 4096)) == Supply(old(pool))
      ensures r.Ok? ==> Grown(old(tables), tables, trees, cr3, Indices(virt / 4096), 1)
      ensures !r.Ok? ==> space == old(space)
      ensures r.Ok? ==>
        space == old(space)[(cr3, virt / 4096) := Mapped(old(tables), cr3, virt / 4096, phys, flags)]
      // the entry that the walk of the page ends at
      ensures r.Ok? ==> var e := LeafOf(tables, cr3, virt / 4096);
        && e.present && e.address == phys % 0x10_0000_0000_0000
        && e.flags.writable == flags.writable && e.flags.user == flags.user && e.flags.noExecute == flags.noExecute
        && e.flags.writeThrough == flags.writeThrough && e.flags.cacheDisable == flags.cacheDisable
    {
      hide Forest, Refines, PoolFresh, Indices, Missing, Supply, Grown, LeafOf, SameView, Walk, SameGrants, Resolve;
      if virt % 4096 != 0 || phys % 4096 != 0 {
        SameAsBefore(tables, trees, flags);
        return InvalidAddress;
      }
      var page := virt / 4096;
      var ix := Indices(page);
      IndicesAreUserPath(page);
      ghost var m0, tr0 := tables, trees;
      var pt := WalkAndBuild(cr3, ix, flags);
      SameViewRefines(m0, tables, tr0, trees, flags, space);
      if pt.None? {
        return OutOfMemory;
      }
      RootStays(tr0, trees, cr3);
      ghost var m1, e := tables, LeafEntry(phys, flags);
      WalkStaysInForest(m1, trees, cr3, ix, 1);
      ShapeOf(m1, trees, pt.value);
      GrownLeaf(m0, m1, trees, pt.value, ix[1], e, cr3, ix, 1);
      LeafIsMapped(m0, m1, tr0, cr3, page, phys, flags);
      WriteLeaf(pt.value, ix[1], LeafEntry(phys, flags), cr3, page, flags);
      SameGrantsTrans(m0, m1, tables, tr0, trees, flags);
      return Ok;
    }

    /** Maps page after page; a failure leaves the pages before it mapped. */
    method MapRange(cr3: nat, virt: nat, phys: nat, size: nat, flags: MapFlags) returns (r: MapResult, ghost n: nat)
      requires Valid() && Root(trees, cr3) && UserRange(virt / 4096, PagesOf(size))
      modifies this
      ensures Valid() && SameRoots(old(trees), trees)
      ensures n <= PagesOf(size) && (r.Ok? <==> n == PagesOf(size))
      ensures r.InvalidAddress? <==> size > 0 && (virt % 4096 != 0 || phys % 4096 != 0)
      ensures r.OutOfMemory? <==>
        virt % 4096 == 0 && phys % 4096 == 0 && Supply(old(pool)) < Needed(old(tables), cr3, virt / 4096, PagesOf(size))
      ensures space == WithRun(old(space), old(tables), cr3, virt / 4096, phys, flags, n)
    {
      hide Forest, PoolFresh, Refines, Mapped, SameWay, SameGrants, LeafOf, SameRoots, Grown, Built, Missing,
        NewAt, Indices;
      var pages := PagesOf(size);
      var page := 0;
      n := 0;
      ghost var m0, tr0 := tables, trees;
      SameAsBefore(m0, tr0, flags);
      BuiltNone(m0, cr3, virt / 4096);
      while page < pages
        invariant 0 <= page <= pages && n == page && (page > 0 ==> virt % 4096 == 0 && phys % 4096 == 0)
        invariant Valid() && SameRoots(tr0, trees) && SameGrants(m0, tables, tr0, flags)
        invariant Supply(pool) + Needed(m0, cr3, virt / 4096, page) == Supply(old(pool))
          && Built(m0, tables, cr3, virt / 4096, page)
        invariant space == WithRun(old(space), m0, cr3, virt / 4096, phys, flags, page)
      {
        assert (virt + page * 4096) / 4096 == virt / 4096 + page;
        assert (virt + page * 4096) % 4096 == virt % 4096 && (phys + page * 4096) % 4096 == phys % 4096;
        RootStays(tr0, trees, cr3);
        ghost var m1, tr1 := tables, trees;
        MissingIsNew(m0, tables, cr3, virt / 4096, page);
        NeededGrows(m0, cr3, virt / 4096, page + 1, pages);
        r := MapPage(cr3, virt + page * 4096, phys + page * 4096, flags);
        if !r.Ok? {
          SameRootsTrans(tr0, tr1, trees);
          return;
        }
        RootStays(tr1, trees, cr3);
        BuiltMore(m0, m1, tables, trees, cr3, virt / 4096, page);
        SameMapped(m0, m1, tr0, cr3, virt / 4096 + page, phys + page * 4096, flags);
        SameGrantsTrans(m0, m1, tables, tr0, tr1, flags);
        SameRootsTrans(tr0, tr1, trees);
        page := page + 1;
        n := page;
      }
      return Ok, page;
    }

    /** The three `next_table` steps of `map_page`. */
    method WalkAndBuild(cr3: nat, ix: seq<nat>, flags: MapFlags) returns (pt: Option<nat>)
      requires Valid() && Root(trees, cr3) && UserPath(ix)
      modifies this`tables, this`trees, this`pool
      ensures Valid() && SameRoots(old(trees), trees)
      ensures SameView(old(tables), tables, old(trees), flags)
      ensures pt.None? <==> Supply(old(pool)) < Missing(old(tables), cr3, ix)
      ensures pt.Some? ==> Supply(pool) + Missing(old(tables), cr3, ix) == Supply(old(pool))
      ensures pt.Some? ==> Walk(tables, cr3, ix, 1).table == pt && Grown(old(tables), tables, trees, cr3, ix, 1)
    {
      hide Grown;
      ghost var m0, tr0 := tables, trees;
      GrownStart(m0, tr0, cr3, ix);
      var pdpt := NextTable(cr3, ix[4], flags, cr3, ix, 4, m0);
      if pdpt.None? { return None; }
      ghost var m1, tr1 := tables, trees;
      var pd := NextTable(pdpt.value, ix[3], flags, cr3, ix, 3, m0);
      SameViewTrans(m0, m1, tables, tr0, flags);
      if pd.None? { return None; }
      ghost var m2 := tables;
      pt := NextTable(pd.value, ix[2], flags, cr3, ix, 2, m0);
      SameViewTrans(m0, m2, tables, tr0, flags);
    }

    /** Writes the PT entry that the walk for `page` of `root` ends at. */
    method WriteLeaf(pt: nat, index: nat, e: Entry, ghost root: nat, ghost page: nat, ghost flags: MapFlags)
      requires Valid() && Root(trees, root) && UserPage(page)
      requires Walk(tables, root, Indices(page), 1).table == Some(pt) && index == Indices(page)[1]
      modifies this`tables, this`space
      ensures Valid() && SameGrants(old(tables), tables, trees, flags)
      ensures space == Put(old(space), root, page, Leaf(Walk(old(tables), root, Indices(page), 1), e))
      ensures LeafOf(tables, root, page) == e
      ensures pt in old(tables) && index < |old(tables)[pt]| && tables == SetEntry(old(tables), pt, index, e)
    {
      LeafWriteRefines(tables, trees, root, page, e, flags, space);
      LeafIsWritten(tables, trees, root, page, e);
      space := Put(space, root, page, Leaf(Walk(tables, root, Indices(page), 1), e));
      tables := tables[pt := tables[pt][index := e]];
    }

    /** `table_if_present`; 0 is the null pointer. */
    method TableIfPresent(
        parent: nat, index: nat, ghost root: nat, ghost ix: seq<nat>, ghost level: nat) returns (t: nat)
      requires Valid() && Root(trees, root) && UserPath(ix) && 2 <= level <= 4
      requires Walk(tables, root, ix, level).table == Some(parent) && index == ix[level]
      ensures Walk(tables, root, ix, level - 1).table == if t == 0 then None else Some(t)
      ensures t == 0 ==> ResolvePath(tables, root, ix) == None
    {
      WalkStaysInForest(tables, trees, root, ix, level);
      WalkStaysInForest(tables, trees, root, ix, level - 1);
      assert TableShape(tables, trees, parent);
      WalkOnlyNarrows(tables, root, ix, level - 1, 1);
      if tables[parent][index].present {
        t := tables[parent][index].address;
        assert TableShape(tables, trees, t);
      } else {
        t := 0;
      }
    }

    /** The three `table_if_present` steps of `translate` and `unmap_page`. */
    method FindLeafTable(cr3: nat, virt: nat) returns (pt: nat)
      requires Valid() && Root(trees, cr3) && UserPage(virt / 4096)
      ensures pt == 0 ==> (cr3, virt / 4096) !in space
      ensures pt != 0 ==> Walk(tables, cr3, Indices(virt / 4096), 1).table == Some(pt)
    {
      var ix := Indices(virt / 4096);
      IndicesAreUserPath(virt / 4096);
      assert Resolve(tables, cr3, virt / 4096) == Get(space, cr3, virt / 4096);
      var pdpt := TableIfPresent(cr3, ix[4], cr3, ix, 4);
      if pdpt == 0 { return 0; }
      var pd := TableIfPresent(pdpt, ix[3], cr3, ix, 3);
      if pd == 0 { return 0; }
      pt := TableIfPresent(pd, ix[2], cr3, ix, 2);
    }

    method UnmapPage(cr3: nat, virt: nat)
      requires Valid() && Root(trees, cr3) && UserPage(virt / 4096)
      modifies this`tables, this`space
      ensures Valid() && space == old(space) - {(cr3, virt / 4096)}
    {
      var pt := FindLeafTable(cr3, virt);
      if pt != 0 {
        WriteLeaf(pt, Indices(virt / 4096)[1], ABSENT, cr3, virt / 4096, NO_FLAGS);
      }
    }

    method UnmapRange(cr3: nat, virt: nat, size: nat)
      requires Valid() && Root(trees, cr3) && UserRange(virt / 4096, PagesOf(size))
      modifies this`tables, this`space
      ensures Valid() && space == DropRange(old(space), cr3, virt / 4096, PagesOf(size))
    {
      var pages := PagesOf(size);
      var page := 0;
      while page < pages
        invariant 0 <= page <= pages
        invariant Valid() && space == DropRange(old(space), cr3, virt / 4096, page)
      {
        assert (virt + page * 4096) / 4096 == virt / 4096 + page;
        UnmapPage(cr3, virt + page * 4096);
        page := page + 1;
      }
    }

    method Translate(cr3: nat, virt: nat) returns (r: Option<nat>)
      requires Valid() && Root(trees, cr3) && UserPage(virt / 4096)
      ensures r == FrameOf(space, cr3, virt / 4096)
      ensures r.Some? <==> (cr3, virt / 4096) in space
      ensures r.Some? ==> r.value == space[(cr3, virt / 4096)].frame
    {
      var pt := FindLeafTable(cr3, virt);
      if pt == 0 {
        return None;
      }
      var index := Indices(virt / 4096)[1];
      LeafWriteRefines(tables, trees, cr3, virt / 4096, ABSENT, NO_FLAGS, space);
      assert Resolve(tables, cr3, virt / 4096) == Get(space, cr3, virt / 4096);
      if tables[pt][index].present {
        return Some(tables[pt][index].address);
      }
      return None;
    }

    method UserAccessible(cr3: nat, virt: nat, write: bool) returns (b: bool)
      requires Valid() && Root(trees, cr3) && UserPage(virt / 4096)
      ensures b == Accessible(space, cr3, virt / 4096, write)
      ensures b <==>
        && (cr3, virt / 4096) in space && space[(cr3, virt / 4096)].user
        && (write ==> space[(cr3, virt / 4096)].writable)
    {
      var ix := Indices(virt / 4096);
      IndicesAreUserPath(virt / 4096);
      assert Resolve(tables, cr3, virt / 4096) == Get(space, cr3, virt / 4096);
      var table := cr3;
      var level := 4;
      while level > 1
        invariant 1 <= level <= 4
        invariant var w := Walk(tables, cr3, ix, level); w.table == Some(table) && w.user && (write ==> w.writable)
      {
        WalkStaysInForest(tables, trees, cr3, ix, level);
        assert TableShape(tables, trees, table);
        var entry := tables[table][ix[level]];
        if !entry.present || !entry.flags.user || (write && !entry.flags.writable) {
          WalkOnlyNarrows(tables, cr3, ix, level - 1, 1);
          return false;
        }
        table := entry.address;
        level := level - 1;
      }
      WalkStaysInForest(tables, trees, cr3, ix, 1);
      assert TableShape(tables, trees, table);
      var entry := tables[table][ix[1]];
      return entry.present && entry.flags.user && (write ==> entry.flags.writable);
    }

    /** A new address space shares the kernel's entries and has no user page. */
    method CreateAddressSpace() returns (r: Option<nat>)
      requires Valid()
      modifies this`tables, this`trees, this`pool
      ensures Valid()
      ensures (r.None? <==> Supply(old(pool)) == 0) && (r.None? ==> trees == old(trees))
      ensures r.Some? ==>
        && r.value !in old(tables)
        && (forall root :: Root(trees, root) <==> Root(old(trees), root) || root == r.value)
        && (forall i :: i == 0 || 256 <= i < 512 ==> EntryAt(tables, r.value, i) == EntryAt(old(tables), kernelRoot, i))
        && (forall p: nat :: UserPage(p) ==> (r.value, p) !in space && Open(tables, r.value, p))
    {
      r := AllocTable();
      if r.None? {
        return;
      }
      assert TableShape(tables, trees, kernelRoot);
      var es := Zeroed()[0 := tables[kernelRoot][0]];
      for i := 256 to 512
        invariant |es| == 512 && es[0] == tables[kernelRoot][0]
        invariant forall k :: 1 <= k < 256 ==> es[k] == ABSENT
        invariant forall k :: 256 <= k < i ==> es[k] == tables[kernelRoot][k]
      {
        es := es[i := tables[kernelRoot][i]];
      }
      EmptyRootRefines(tables, trees, r.value, es, space);
      assert WithoutRoot(space, r.value) == space by {
        assert forall k :: k in space ==> TableShape(tables, trees, k.0);
      }
      tables := tables[r.value := es];
      trees := trees[r.value := Place(4, 0, 0)];
    }

    /** Unmaps every user page of an address space, and no page of another. */
    method FreeUserAddressSpace(cr3: nat)
      requires Valid() && (cr3 == 0 || Root(trees, cr3))
      modifies this`tables, this`space
      ensures Valid()
      ensures space == if cr3 == 0 || cr3 == kernelRoot then old(space) else WithoutRoot(old(space), cr3)
    {
      if cr3 == 0 || cr3 == kernelRoot {
        return;
      }
      assert TableShape(tables, trees, cr3);
      var es := tables[cr3];
      for i := 1 to 256
        invariant |es| == 512 && forall k :: 1 <= k < i ==> es[k] == ABSENT
      {
        es := es[i := ABSENT];
      }
      EmptyRootRefines(tables, trees, cr3, es, space);
      space := WithoutRoot(space, cr3);
      tables := tables[cr3 := es];
    }

    /** `validate_range_in`: the check on every pointer a user program passes. */
    method ValidateRange(cr3: nat, ptr: nat, len: nat, write: bool) returns (b: bool)
      requires Valid() && Root(trees, cr3) && ptr < WORD_LIMIT && len < WORD_LIMIT
      ensures len == 0 ==> b
      ensures len > 0 ==> (b <==>
        && len <= MAX_TRANSFER && USER_MIN <= ptr && ptr + len <= USER_MAX
        && forall a: nat :: ptr <= a < ptr + len ==> ByteAccessible(space, cr3, a, write))
    {
      if len == 0 { return true; }
      if len > MAX_TRANSFER { return false; }
      if ptr + len >= WORD_LIMIT { return false; }
      if ptr < USER_MIN || ptr + len > USER_MAX { return false; }
      var page := ptr / 4096;
      var last := (ptr + len - 1) / 4096;
      while true
        invariant ptr / 4096 <= page <= last
        invariant forall p :: ptr / 4096 <= p < page ==> Accessible(space, cr3, p, write)
        decreases last - page
      {
        var ok := UserAccessible(cr3, page * 4096, write);
        if !ok {
          var a := if page * 4096 < ptr then ptr else page * 4096;
          assert ptr <= a < ptr + len && !ByteAccessible(space, cr3, a, write);
          return false;
        }
        if page == last {
          return true;
        }
        page := page + 1;
      }
    }
  }

  predicate ByteAccessible(space: Space, root: nat, addr: nat, write: bool) {
    Accessible(space, root, addr / 4096, write)
  }
}
