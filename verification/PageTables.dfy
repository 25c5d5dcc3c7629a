/** Four-level x86-64 page tables (Intel SDM volume 3A, section 4.5), the user half.

    Physical memory that holds tables is a map from the page-aligned address of a
    table to its 512 entries.  A tree of tables has to behave like a partial map from
    (address space, page) to a frame with permissions; `Resolve` is that map. */
module PageTables {
  import opened Common

  // ---- one entry ----

  datatype MapFlags = MapFlags(writable: bool, user: bool, writeThrough: bool, cacheDisable: bool, noExecute: bool)

  /** The fields of an entry word; `EntryWords` relates them to its bits. */
  datatype Entry = Entry(present: bool, address: nat, flags: MapFlags)

  const NO_FLAGS := MapFlags(false, false, false, false, false)
  const ABSENT := Entry(false, 0, NO_FLAGS)

  /** `x & ADDR_MASK` of a page-aligned address */
  function Masked(x: nat): nat { if x < 0x10_0000_0000_0000 then x else x % 0x10_0000_0000_0000 }

  function LeafEntry(phys: nat, flags: MapFlags): Entry {
    Entry(true, Masked(phys), flags)
  }

  function TableEntry(table: nat, flags: MapFlags): Entry {
    Entry(true, Masked(table), NO_FLAGS.(writable := true, user := flags.user))
  }

  // ---- pages and the paths to them ----

  /** Pages of PML4 entries 1 to 255. */
  const FIRST_USER_PAGE: nat := 0x800_0000
  const LAST_USER_PAGE: nat := 0x8_0000_0000
  predicate UserPage(page: nat) { FIRST_USER_PAGE <= page < LAST_USER_PAGE }

  /** The index of a page (address / 4096) at each level: `ix[4]` in the PML4 down to
      `ix[1]` in the PT. */
  function Indices(page: nat): (ix: seq<nat>)
    ensures |ix| == 5
  {
    [0, page % 512, page / 0x200 % 512, page / 0x4_0000 % 512, page / 0x800_0000 % 512]
  }

  predicate UserSlot(level: nat, index: nat) {
    index < 512 && (level == 4 ==> 1 <= index < 256)
  }

  predicate UserPath(ix: seq<nat>) {
    |ix| == 5 && ix[0] == 0 && forall l :: 1 <= l <= 4 ==> UserSlot(l, ix[l])
  }

  lemma IndicesAreUserPath(page: nat)
    requires UserPage(page)
    ensures UserPath(Indices(page))
  {
  }

  lemma IndicesInjective(p: nat, q: nat)
    requires UserPage(p) && UserPage(q) && Indices(p) == Indices(q)
    ensures p == q
  {
    assert Indices(p)[1] == Indices(q)[1] && Indices(p)[2] == Indices(q)[2];
    assert Indices(p)[3] == Indices(q)[3] && Indices(p)[4] == Indices(q)[4];
    assert p / 0x800_0000 < 256 && q / 0x800_0000 < 256;
    SplitDigit(p, 0x4_0000, 0x800_0000);
    SplitDigit(q, 0x4_0000, 0x800_0000);
    SplitDigit(p, 0x200, 0x4_0000);
    SplitDigit(q, 0x200, 0x4_0000);
  }

  lemma SplitDigit(p: nat, unit: nat, next: nat)
    requires (unit == 0x200 && next == 0x4_0000) || (unit == 0x4_0000 && next == 0x800_0000)
    ensures p / unit == 512 * (p / next) + p / unit % 512
  {
    if unit == 0x200 {
      assert p / 0x200 / 512 == p / 0x4_0000;
    } else {
      assert p / 0x4_0000 / 512 == p / 0x800_0000;
    }
  }

  // ---- a walk ----

  type Tables = map<nat, seq<Entry>>

  function EntryAt(m: Tables, table: nat, index: nat): Entry {
    if table in m && index < |m[table]| then m[table][index] else ABSENT
  }

  /** How far a walk got: the table it stands at, if every entry above was present, and
      what the bits it passed leave: access by all of them, execution unless one of them
      forbids it (section 4.6). */
  datatype Reached = Reached(table: Option<nat>, user: bool, writable: bool, noExecute: bool)

  function Follow(at: Reached, e: Entry): Reached {
    if e.present
    then
      var user, writable := at.user && e.flags.user, at.writable && e.flags.writable;
      Reached(Some(e.address), user, writable, at.noExecute || e.flags.noExecute)
    else at.(table := None)
  }

  /** The walk from `root` along `ix` down to the table of the given level. */
  function Walk(m: Tables, root: nat, ix: seq<nat>, level: nat): Reached
    requires |ix| == 5 && 1 <= level <= 4
    decreases 4 - level
  {
    if level == 4 then Reached(Some(root), true, true, false)
    else
      var at := Walk(m, root, ix, level + 1);
      if at.table.None? then at else Follow(at, EntryAt(m, at.table.value, ix[level + 1]))
  }

  /** A page: its frame, what may be done with it, and how it is cached. */
  datatype Mapping = Mapping(
    frame: nat, user: bool, writable: bool, noExecute: bool, writeThrough: bool, cacheDisable: bool)

  /** What a PT entry grants to a walk that reached it. */
  function Leaf(at: Reached, e: Entry): Option<Mapping> {
    if e.present then
      var user, writable := at.user && e.flags.user, at.writable && e.flags.writable;
      var noExecute := at.noExecute || e.flags.noExecute;
      Some(Mapping(e.address, user, writable, noExecute, e.flags.writeThrough, e.flags.cacheDisable))
    else None
  }

  function ResolvePath(m: Tables, root: nat, ix: seq<nat>): Option<Mapping>
    requires |ix| == 5
  {
    var at := Walk(m, root, ix, 1);
    if at.table.None? then None else Leaf(at, EntryAt(m, at.table.value, ix[1]))
  }

  function Resolve(m: Tables, root: nat, page: nat): Option<Mapping> {
    ResolvePath(m, root, Indices(page))
  }

  // ---- the tree invariant ----

  /** The place of a table in its tree; `parent` and `slot` mean nothing for a PML4. */
  datatype Place = Place(level: nat, parent: nat, slot: nat)
  type Trees = map<nat, Place>

  predicate Root(tr: Trees, root: nat) { root in tr && tr[root].level == 4 }

  /** Entry `index` of `table` links to a table one level down. */
  predicate Link(m: Tables, tr: Trees, table: nat, index: nat) {
    table in tr && tr[table].level >= 2 && UserSlot(tr[table].level, index) && EntryAt(m, table, index).present
  }

  predicate GoodTable(t: nat) { 0 < t && Masked(t) == t && t % 4096 == 0 }

  predicate TableShape(m: Tables, tr: Trees, t: nat) {
    t in m && t in tr && 1 <= tr[t].level <= 4 && |m[t]| == 512 && GoodTable(t)
  }

  /** Tables form disjoint trees over the user entries: a link goes to the one table
      whose place it is.  PML4 entries 0 and 256 to 511 are shared by all address
      spaces and carry no claim. */
  ghost predicate Forest(m: Tables, tr: Trees) {
    && (forall t :: t in m || t in tr ==> TableShape(m, tr, t))
    && (forall t, i :: Link(m, tr, t, i) ==>
          EntryAt(m, t, i).address in tr && tr[EntryAt(m, t, i).address] == Place(tr[t].level - 1, t, i))
  }

  lemma {:induction false} WalkStaysInForest(m: Tables, tr: Trees, root: nat, ix: seq<nat>, level: nat)
    requires Forest(m, tr) && Root(tr, root) && UserPath(ix) && 1 <= level <= 4
    ensures var w := Walk(m, root, ix, level); w.table.Some? ==> w.table.value in tr && tr[w.table.value].level == level
    decreases 4 - level
  {
    if level < 4 {
      WalkStaysInForest(m, tr, root, ix, level + 1);
      var at := Walk(m, root, ix, level + 1);
      if at.table.Some? && EntryAt(m, at.table.value, ix[level + 1]).present {
        assert Link(m, tr, at.table.value, ix[level + 1]);
      }
    }
  }

  /** Two walks that meet at a table came the same way. */
  lemma {:induction false} WalksMeetOnlyOnSamePath(m: Tables, tr: Trees, root: nat, ix: seq<nat>, root': nat,
      ix': seq<nat>, level: nat)
    requires Forest(m, tr) && Root(tr, root) && Root(tr, root') && UserPath(ix) && UserPath(ix') && 1 <= level <= 4
    requires Walk(m, root, ix, level).table.Some?
    requires Walk(m, root, ix, level).table == Walk(m, root', ix', level).table
    ensures root == root'
    ensures forall l :: level < l <= 4 ==> ix[l] == ix'[l]
    decreases 4 - level
  {
    if level < 4 {
      var a, a' := Walk(m, root, ix, level + 1).table.value, Walk(m, root', ix', level + 1).table.value;
      WalkStaysInForest(m, tr, root, ix, level + 1);
      WalkStaysInForest(m, tr, root', ix', level + 1);
      assert Link(m, tr, a, ix[level + 1]) && Link(m, tr, a', ix'[level + 1]);
      WalksMeetOnlyOnSamePath(m, tr, root, ix, root', ix', level + 1);
    }
  }

  // ---- what writing one PT entry does ----

  function SetEntry(m: Tables, t: nat, i: nat, e: Entry): Tables
    requires t in m && i < |m[t]|
  {
    m[t := m[t][i := e]]
  }

  lemma {:induction false} LeafWriteKeepsWalks(m: Tables, tr: Trees, t: nat, i: nat, e: Entry, root: nat,
      ix: seq<nat>, level: nat)
    requires Forest(m, tr) && t in tr && tr[t].level == 1 && i < 512
    requires Root(tr, root) && UserPath(ix) && 1 <= level <= 4
    ensures Walk(SetEntry(m, t, i, e), root, ix, level) == Walk(m, root, ix, level)
    decreases 4 - level
  {
    if level < 4 {
      LeafWriteKeepsWalks(m, tr, t, i, e, root, ix, level + 1);
      WalkStaysInForest(m, tr, root, ix, level + 1);
    }
  }

  lemma LeafWriteKeepsForest(m: Tables, tr: Trees, t: nat, i: nat, e: Entry)
    requires Forest(m, tr) && t in tr && tr[t].level == 1 && i < 512
    ensures Forest(SetEntry(m, t, i, e), tr)
  {
    var m' := SetEntry(m, t, i, e);
    forall a, j | Link(m', tr, a, j)
      ensures EntryAt(m', a, j).address in tr && tr[EntryAt(m', a, j).address] == Place(tr[a].level - 1, a, j)
    {
      assert Link(m, tr, a, j);
    }
    forall a | a in m' || a in tr ensures TableShape(m', tr, a) {
      assert TableShape(m, tr, a);
    }
  }

  /** Writing the PT entry that a walk ends at changes what that path of that address
      space resolves to, and nothing else anywhere. */
  lemma LeafWriteChangesOnePath(m: Tables, tr: Trees, root: nat, ix: seq<nat>, e: Entry, root': nat, ix': seq<nat>)
    requires Forest(m, tr) && Root(tr, root) && Root(tr, root') && UserPath(ix) && UserPath(ix')
    requires Walk(m, root, ix, 1).table.Some?
    ensures var t := Walk(m, root, ix, 1).table.value;
      && t in tr && tr[t].level == 1 && t in m && |m[t]| == 512 && ix[1] < 512
      && ResolvePath(SetEntry(m, t, ix[1], e), root', ix') ==
           if root' == root && ix' == ix then Leaf(Walk(m, root, ix, 1), e) else ResolvePath(m, root', ix')
  {
    WalkStaysInForest(m, tr, root, ix, 1);
    var t := Walk(m, root, ix, 1).table.value;
    assert TableShape(m, tr, t) && UserSlot(1, ix[1]);
    LeafWriteKeepsWalks(m, tr, t, ix[1], e, root', ix', 1);
    if Walk(m, root', ix', 1).table == Some(t) && ix'[1] == ix[1] {
      WalksMeetOnlyOnSamePath(m, tr, root, ix, root', ix', 1);
      assert ix == ix';
    }
  }

  // ---- what linking a fresh, zeroed table does ----

  function Zeroed(): seq<Entry> { seq(512, (_: nat) => ABSENT) }

  /** Address `c` becomes a zeroed table that entry `i` of `t` links to. */
  function LinkTable(m: Tables, t: nat, i: nat, c: nat, flags: MapFlags): Tables
    requires t in m && i < |m[t]|
  {
    SetEntry(m, t, i, TableEntry(c, flags))[c := Zeroed()]
  }

  ghost predicate CanLink(m: Tables, tr: Trees, t: nat, i: nat, c: nat) {
    && Forest(m, tr) && t in tr && tr[t].level >= 2 && UserSlot(tr[t].level, i)
    && !EntryAt(m, t, i).present
    && c !in m && GoodTable(c)
  }

  lemma LinkKeepsForest(m: Tables, tr: Trees, t: nat, i: nat, c: nat, flags: MapFlags)
    requires CanLink(m, tr, t, i, c)
    ensures t in m && |m[t]| == 512
    ensures Forest(LinkTable(m, t, i, c, flags), tr[c := Place(tr[t].level - 1, t, i)])
  {
    assert TableShape(m, tr, t);
    var m', tr' := LinkTable(m, t, i, c, flags), tr[c := Place(tr[t].level - 1, t, i)];
    forall a | a in m' || a in tr' ensures TableShape(m', tr', a) {
      if a != c { assert TableShape(m, tr, a); }
    }
    forall a, j | Link(m', tr', a, j)
      ensures EntryAt(m', a, j).address in tr' && tr'[EntryAt(m', a, j).address] == Place(tr'[a].level - 1, a, j)
    {
      if a != t || j != i { assert Link(m, tr, a, j); }
    }
  }

  /** The walk along `ix` comes to the entry that the new link fills. */
  predicate Through(m: Tables, tr: Trees, t: nat, i: nat, root: nat, ix: seq<nat>)
    requires |ix| == 5
  {
    t in tr && 2 <= tr[t].level <= 4 && ix[tr[t].level] == i && Walk(m, root, ix, tr[t].level).table == Some(t)
  }

  /** At and above the changed table, walks are as before. */
  lemma {:induction false} LinkKeepsUpperWalks(m: Tables, tr: Trees, t: nat, i: nat, c: nat, flags: MapFlags,
      root: nat, ix: seq<nat>, level: nat)
    requires CanLink(m, tr, t, i, c) && t in m && |m[t]| == 512
    requires Root(tr, root) && UserPath(ix) && tr[t].level <= level <= 4
    ensures Walk(LinkTable(m, t, i, c, flags), root, ix, level) == Walk(m, root, ix, level)
    decreases 4 - level
  {
    if level < 4 {
      LinkKeepsUpperWalks(m, tr, t, i, c, flags, root, ix, level + 1);
      WalkStaysInForest(m, tr, root, ix, level + 1);
    }
  }

  /** A walk that passes through the new link stops in the empty table. */
  lemma {:induction false} WalkThroughLink(m: Tables, tr: Trees, t: nat, i: nat, c: nat, flags: MapFlags, root: nat,
      ix: seq<nat>, level: nat)
    requires CanLink(m, tr, t, i, c) && t in m && |m[t]| == 512
    requires Root(tr, root) && UserPath(ix) && Through(m, tr, t, i, root, ix) && 1 <= level < tr[t].level
    ensures var w := Walk(m, root, ix, level);
      && w.table.None?
      && Walk(LinkTable(m, t, i, c, flags), root, ix, level) ==
           Reached(if level == tr[t].level - 1 then Some(c) else None, w.user && flags.user, w.writable, w.noExecute)
    decreases 4 - level
  {
    if level == tr[t].level - 1 {
      LinkKeepsUpperWalks(m, tr, t, i, c, flags, root, ix, level + 1);
    } else {
      WalkThroughLink(m, tr, t, i, c, flags, root, ix, level + 1);
    }
  }

  /** Any other walk is as before. */
  lemma {:induction false} WalkBesideLink(m: Tables, tr: Trees, t: nat, i: nat, c: nat, flags: MapFlags, root: nat,
      ix: seq<nat>, level: nat)
    requires CanLink(m, tr, t, i, c) && t in m && |m[t]| == 512
    requires Root(tr, root) && UserPath(ix) && !Through(m, tr, t, i, root, ix) && 1 <= level <= 4
    ensures Walk(LinkTable(m, t, i, c, flags), root, ix, level) == Walk(m, root, ix, level)
    decreases 4 - level
  {
    assert TableShape(m, tr, t);
    if level < 4 {
      WalkBesideLink(m, tr, t, i, c, flags, root, ix, level + 1);
      WalkStaysInForest(m, tr, root, ix, level + 1);
    }
  }

  /** Both tables map this path alike, and a new PT entry with `flags` would be granted
      the same through either. */
  predicate SameViewOf(m: Tables, m': Tables, flags: MapFlags, root: nat, ix: seq<nat>)
    requires |ix| == 5
  {
    && ResolvePath(m', root, ix) == ResolvePath(m, root, ix)
    && Walk(m', root, ix, 1).writable == Walk(m, root, ix, 1).writable
    && Walk(m', root, ix, 1).noExecute == Walk(m, root, ix, 1).noExecute
    && (flags.user ==> Walk(m', root, ix, 1).user == Walk(m, root, ix, 1).user)
  }

  lemma LinkChangesNoMapping(m: Tables, tr: Trees, t: nat, i: nat, c: nat, flags: MapFlags, root: nat, ix: seq<nat>)
    requires CanLink(m, tr, t, i, c) && t in m && |m[t]| == 512
    requires Root(tr, root) && UserPath(ix)
    ensures SameViewOf(m, LinkTable(m, t, i, c, flags), flags, root, ix)
  {
    assert TableShape(m, tr, t);
    if Through(m, tr, t, i, root, ix) {
      WalkThroughLink(m, tr, t, i, c, flags, root, ix, 1);
    } else {
      WalkBesideLink(m, tr, t, i, c, flags, root, ix, 1);
      WalkStaysInForest(m, tr, root, ix, 1);
    }
  }

  // ---- failed walks ----

  /** A walk that stops stays stopped, and a permission once missing stays missing. */
  lemma {:induction false} WalkOnlyNarrows(m: Tables, root: nat, ix: seq<nat>, level: nat, lower: nat)
    requires |ix| == 5 && 1 <= lower <= level <= 4
    ensures var w, w' := Walk(m, root, ix, level), Walk(m, root, ix, lower);
      && (w.table.None? ==> w'.table.None?) && (w'.user ==> w.user) && (w'.writable ==> w.writable)
      && (w.noExecute ==> w'.noExecute)
    decreases level - lower
  {
    if lower < level {
      WalkOnlyNarrows(m, root, ix, level, lower + 1);
    }
  }

  // ---- what the tables above a page allow ----

  /** The table entry that the walk meets at this level, if there is one, allows all. */
  predicate AllowsAll(m: Tables, root: nat, ix: seq<nat>, level: nat)
    requires |ix| == 5 && 2 <= level <= 4
  {
    var at := Walk(m, root, ix, level).table;
    at.Some? ==>
      var e := EntryAt(m, at.value, ix[level]);
      e.present ==> e.flags.user && e.flags.writable && !e.flags.noExecute
  }

  /** Nothing above the page takes a permission away. */
  predicate Open(m: Tables, root: nat, page: nat) {
    var w := Walk(m, root, Indices(page), 1);
    w.user && w.writable && !w.noExecute
  }

  ghost predicate OpenRun(m: Tables, root: nat, first: nat, count: nat) {
    forall p: nat :: first <= p < first + count ==> Open(m, root, p)
  }

  /** That is so exactly when every table entry on the way allows all. */
  lemma OpenIff(m: Tables, root: nat, page: nat)
    ensures Open(m, root, page) <==> forall level :: 2 <= level <= 4 ==> AllowsAll(m, root, Indices(page), level)
  {
    hide Indices;
    var ix := Indices(page);
    WalkOnlyNarrows(m, root, ix, 3, 1);
    WalkOnlyNarrows(m, root, ix, 2, 1);
    StepOpen(m, root, ix, 4);
    StepOpen(m, root, ix, 3);
    StepOpen(m, root, ix, 2);
  }

  lemma StepOpen(m: Tables, root: nat, ix: seq<nat>, level: nat)
    requires |ix| == 5 && 2 <= level <= 4
    ensures var w, w' := Walk(m, root, ix, level), Walk(m, root, ix, level - 1);
      w'.user && w'.writable && !w'.noExecute <==>
      w.user && w.writable && !w.noExecute && AllowsAll(m, root, ix, level)
  {
  }

  // ---- whole PML4 tables ----

  /** A new PML4 that links to nothing in the user half is a new, empty tree. */
  lemma NewRootKeepsForest(m: Tables, tr: Trees, c: nat, es: seq<Entry>)
    requires Forest(m, tr) && c !in m && GoodTable(c) && |es| == 512
    requires forall i :: 1 <= i < 256 ==> !es[i].present
    ensures Forest(m[c := es], tr[c := Place(4, 0, 0)])
  {
    var m', tr' := m[c := es], tr[c := Place(4, 0, 0)];
    forall a | a in m' || a in tr' ensures TableShape(m', tr', a) {
      if a != c { assert TableShape(m, tr, a); }
    }
    forall a, j | Link(m', tr', a, j)
      ensures EntryAt(m', a, j).address in tr' && tr'[EntryAt(m', a, j).address] == Place(tr'[a].level - 1, a, j)
    {
      assert Link(m, tr, a, j);
      assert TableShape(m, tr, EntryAt(m, a, j).address);
    }
  }

  lemma ClearedRootKeepsForest(m: Tables, tr: Trees, c: nat, es: seq<Entry>)
    requires Forest(m, tr) && Root(tr, c) && |es| == 512
    requires forall i :: 1 <= i < 256 ==> !es[i].present
    ensures Forest(m[c := es], tr)
  {
    var m' := m[c := es];
    forall a | a in m' || a in tr ensures TableShape(m', tr, a) {
      assert TableShape(m, tr, a);
    }
    forall a, j | Link(m', tr, a, j)
      ensures EntryAt(m', a, j).address in tr && tr[EntryAt(m', a, j).address] == Place(tr[a].level - 1, a, j)
    {
      assert Link(m, tr, a, j);
    }
  }

  /** Replacing a PML4 leaves the walks of every other address space alone. */
  lemma {:induction false} OtherRootsKeepWalks(
      m: Tables, tr: Trees, c: nat, es: seq<Entry>, root: nat, ix: seq<nat>, level: nat)
    requires Forest(m, tr) && (c !in m || Root(tr, c)) && Root(tr, root) && root != c && UserPath(ix) && 1 <= level <= 4
    ensures Walk(m[c := es], root, ix, level) == Walk(m, root, ix, level)
    decreases 4 - level
  {
    if level < 4 {
      OtherRootsKeepWalks(m, tr, c, es, root, ix, level + 1);
      WalkStaysInForest(m, tr, root, ix, level + 1);
      var at := Walk(m, root, ix, level + 1).table;
      if at.Some? { assert TableShape(m, tr, at.value); }
    }
  }

  /** A PML4 replaced by one with no user entries: its pages go, all others stay. */
  lemma ReplacedRoot(m: Tables, tr: Trees, c: nat, es: seq<Entry>, root: nat, ix: seq<nat>)
    requires Forest(m, tr) && (c !in m || Root(tr, c)) && |es| == 512 && UserPath(ix)
    requires forall i :: 1 <= i < 256 ==> !es[i].present
    requires Root(tr, root) || root == c
    ensures ResolvePath(m[c := es], root, ix) == if root == c then None else ResolvePath(m, root, ix)
  {
    if root == c {
      assert UserSlot(4, ix[4]);
      assert Walk(m[c := es], root, ix, 3).table.None?;
      WalkOnlyNarrows(m[c := es], root, ix, 3, 1);
    } else {
      OtherRootsKeepWalks(m, tr, c, es, root, ix, 1);
      WalkStaysInForest(m, tr, root, ix, 1);
      var at := Walk(m, root, ix, 1).table;
      if at.Some? { assert TableShape(m, tr, at.value); }
    }
  }
}
