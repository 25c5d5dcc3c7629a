/** The kernel heap: a shared free list, per-CPU caches of small blocks, and a header
    in front of every pointer that is handed out. */
module KernelHeap {
  import opened Common
  import opened Alignment
  import opened FreeLists
  import opened HeapOwnership

  const MAX_CPUS: nat := 16
  const CACHE_CAP: nat := 64

  // ---- size classes ----

  function ClassSize(ci: nat): nat {
    if ci == 0 then 64 else if ci == 1 then 128 else if ci == 2 then 256
    else if ci == 3 then 512 else if ci == 4 then 1024 else 2048
  }

  /** Smallest class that holds `need` bytes. */
  function ClassFor(need: nat): (r: Option<nat>)
    ensures r.None? <==> need > 2048
    ensures r.Some? ==>
      && r.value < 6 && need <= ClassSize(r.value)
      && forall c :: 0 <= c < r.value ==> ClassSize(c) < need
  {
    if need <= 64 then Some(0) else if need <= 128 then Some(1) else if need <= 256 then Some(2)
    else if need <= 512 then Some(3) else if need <= 1024 then Some(4) else if need <= 2048 then Some(5) else None
  }

  function ExactClass(size: nat): (r: Option<nat>)
    ensures r.Some? ==> r.value < 6 && ClassSize(r.value) == size
    ensures r.None? ==> forall c :: 0 <= c < 6 ==> ClassSize(c) != size
  {
    if size == 64 then Some(0) else if size == 128 then Some(1) else if size == 256 then Some(2)
    else if size == 512 then Some(3) else if size == 1024 then Some(4) else if size == 2048 then Some(5) else None
  }

  // ---- the caches and headers in memory ----

  predicate GoodSlot(s: Slot) { s.cpu < MAX_CPUS && s.ci < 6 }

  function AllSlots(): (r: set<Slot>)
    ensures forall s :: GoodSlot(s) ==> s in r
  {
    set cpu, ci | 0 <= cpu < MAX_CPUS && 0 <= ci < 6 :: Slot(cpu, ci)
  }

  /** Address of the block below depth `k` of a stack, or null. */
  function LinkOf(held: Held, s: Slot, k: nat): nat {
    if k > 0 && Cached(s, k - 1) in held then held[Cached(s, k - 1)].addr else 0
  }

  /** What memory holds for a tenant: a header, or the link of a cache stack. */
  ghost predicate TenantOk(mem: Memory, held: Held, o: Owner)
    requires o in held
  {
    match o
    case Free => false
    case Live(p) => HeaderOk(mem, p, held[o])
    case Cached(s, k) =>
      && GoodSlot(s) && held[o].size == ClassSize(s.ci)
      && held[o].addr in mem && mem[held[o].addr] == LinkOf(held, s, k)
  }

  ghost predicate Tenants(mem: Memory, held: Held) {
    forall o :: o in held ==> TenantOk(mem, held, o)
  }

  ghost predicate SlotOk(heads: map<Slot, nat>, counts: map<Slot, nat>, held: Held, s: Slot) {
    && s in heads && s in counts && counts[s] <= CACHE_CAP
    && heads[s] == LinkOf(held, s, counts[s])
    && forall k: nat :: Cached(s, k) in held <==> k < counts[s]
  }

  ghost predicate SlotsOk(heads: map<Slot, nat>, counts: map<Slot, nat>, held: Held) {
    forall s :: GoodSlot(s) ==> SlotOk(heads, counts, held, s)
  }

  /** A tenant that keeps its block and its neighbour in the stack keeps its contents. */
  lemma TenantStays(mem: Memory, mem': Memory, held: Held, held': Held, o: Owner)
    requires o in held && o in held' && held'[o] == held[o] && GoodBlock(held[o]) && TenantOk(mem, held, o)
    requires forall w: nat :: Word(w) && In(held[o], w) && w in mem ==> w in mem' && mem'[w] == mem[w]
    requires o.Cached? ==> LinkOf(held', o.slot, o.k) == LinkOf(held, o.slot, o.k)
    ensures TenantOk(mem', held', o)
  {
    match o
    case Free =>
    case Live(p) =>
      assert Word(p - 16) && In(held[o], p - 16) && Word(p - 8) && In(held[o], p - 8);
    case Cached(s, k) =>
      assert Word(held[o].addr) && In(held[o], held[o].addr);
  }

  // ---- the four ways a block changes hands ----

  ghost predicate Handed(mem: Memory, mem': Memory, held: Held, held': Held) {
    && (forall o :: o in held ==> GoodBlock(held[o]))
    && Tenants(mem, held) && Undisturbed(mem, mem', held')
    && (forall o :: o in held' ==> o in held && held'[o] == held[o])
  }

  /** Tenants that stay as they are, when the others are gone. */
  lemma OthersStay(mem: Memory, mem': Memory, held: Held, rest: Held, held': Held)
    requires Handed(mem, mem', held, rest)
    requires forall o :: o in rest ==> o in held' && held'[o] == held[o]
    requires forall s, k :: Cached(s, k) in rest ==> LinkOf(held', s, k) == LinkOf(held, s, k)
    ensures forall o :: o in rest ==> TenantOk(mem', held', o)
  {
    forall o | o in rest ensures TenantOk(mem', held', o) {
      TenantStays(mem, mem', held, held', o);
    }
  }

  lemma FreeToLive(
      mem: Memory, mem': Memory, heads: map<Slot, nat>, counts: map<Slot, nat>, held: Held, p: nat, b: Block)
    requires Handed(mem, mem', held, held) && SlotsOk(heads, counts, held) && Live(p) !in held && HeaderOk(mem', p, b)
    ensures Tenants(mem', held[Live(p) := b]) && SlotsOk(heads, counts, held[Live(p) := b])
  {
    var held' := held[Live(p) := b];
    OthersStay(mem, mem', held, held, held');
    forall s | GoodSlot(s) ensures SlotOk(heads, counts, held', s) {
      assert SlotOk(heads, counts, held, s);
    }
  }

  lemma LiveToFree(mem: Memory, mem': Memory, heads: map<Slot, nat>, counts: map<Slot, nat>, held: Held, p: nat)
    requires Handed(mem, mem', held, held - {Live(p)}) && SlotsOk(heads, counts, held) && Live(p) in held
    ensures Tenants(mem', held - {Live(p)}) && SlotsOk(heads, counts, held - {Live(p)})
  {
    var held' := held - {Live(p)};
    OthersStay(mem, mem', held, held', held');
    forall s | GoodSlot(s) ensures SlotOk(heads, counts, held', s) {
      assert SlotOk(heads, counts, held, s);
    }
  }

  lemma PopSlots(heads: map<Slot, nat>, counts: map<Slot, nat>, held: Held, s: Slot, p: nat, b: Block, below: nat)
    requires GoodSlot(s) && SlotsOk(heads, counts, held) && SlotOk(heads, counts, held, s) && counts[s] > 0
    requires below == LinkOf(held, s, counts[s] - 1)
    ensures SlotsOk(heads[s := below], counts[s := counts[s] - 1], (held - {Cached(s, counts[s] - 1)})[Live(p) := b])
  {
    var held' := (held - {Cached(s, counts[s] - 1)})[Live(p) := b];
    forall s' | GoodSlot(s') ensures SlotOk(heads[s := below], counts[s := counts[s] - 1], held', s') {
      assert SlotOk(heads, counts, held, s');
    }
  }

  lemma CachedToLive(
      mem: Memory, mem': Memory, heads: map<Slot, nat>, counts: map<Slot, nat>, held: Held, s: Slot, p: nat)
    requires GoodSlot(s) && SlotsOk(heads, counts, held) && s in counts && counts[s] > 0 && Live(p) !in held
    requires var o := Cached(s, counts[s] - 1);
      o in held && Handed(mem, mem', held, held - {o}) && HeaderOk(mem', p, held[o])
    ensures var o := Cached(s, counts[s] - 1);
      var held' := (held - {o})[Live(p) := held[o]];
      && held[o].addr in mem && Tenants(mem', held')
      && SlotsOk(heads[s := mem[held[o].addr]], counts[s := counts[s] - 1], held')
  {
    var o := Cached(s, counts[s] - 1);
    var held' := (held - {o})[Live(p) := held[o]];
    assert TenantOk(mem, held, o) && SlotOk(heads, counts, held, s);
    PopSlots(heads, counts, held, s, p, held[o], mem[held[o].addr]);
    hide Handed, SlotsOk, HeaderOk;
    forall s', k | Cached(s', k) in held - {o} ensures LinkOf(held', s', k) == LinkOf(held, s', k) {
      assert s' == s ==> k < counts[s];
    }
    OthersStay(mem, mem', held, held - {o}, held');
  }

  lemma PushSlots(heads: map<Slot, nat>, counts: map<Slot, nat>, held: Held, s: Slot, p: nat, b: Block)
    requires GoodSlot(s) && SlotsOk(heads, counts, held) && SlotOk(heads, counts, held, s) && counts[s] < CACHE_CAP
    ensures SlotsOk(heads[s := b.addr], counts[s := counts[s] + 1], (held - {Live(p)})[Cached(s, counts[s]) := b])
  {
    var held' := (held - {Live(p)})[Cached(s, counts[s]) := b];
    forall s' | GoodSlot(s') ensures SlotOk(heads[s := b.addr], counts[s := counts[s] + 1], held', s') {
      assert SlotOk(heads, counts, held, s');
    }
  }

  lemma LiveToCached(
      mem: Memory, mem': Memory, heads: map<Slot, nat>, counts: map<Slot, nat>, held: Held, s: Slot, p: nat)
    requires GoodSlot(s) && SlotsOk(heads, counts, held) && SlotOk(heads, counts, held, s) && counts[s] < CACHE_CAP
      && Live(p) in held
    requires Handed(mem, mem', held, held - {Live(p)}) && held[Live(p)].size == ClassSize(s.ci)
    requires held[Live(p)].addr in mem' && mem'[held[Live(p)].addr] == heads[s]
    ensures var b := held[Live(p)];
      var held' := (held - {Live(p)})[Cached(s, counts[s]) := b];
      && Cached(s, counts[s]) !in held
      && Tenants(mem', held') && SlotsOk(heads[s := b.addr], counts[s := counts[s] + 1], held')
  {
    var b := held[Live(p)];
    var held' := (held - {Live(p)})[Cached(s, counts[s]) := b];
    PushSlots(heads, counts, held, s, p, b);
    hide Handed, SlotsOk;
    forall s', k | Cached(s', k) in held - {Live(p)} ensures LinkOf(held', s', k) == LinkOf(held, s', k) {
      assert s' == s ==> k < counts[s];
    }
    OthersStay(mem, mem', held, held - {Live(p)}, held');
    assert LinkOf(held', s, counts[s]) == LinkOf(held, s, counts[s]);
  }

  lemma HandedBy(own: Owners, blocks: seq<Block>, mem: Memory, mem': Memory, held: Held, rest: Held)
    requires Partition(own, held, blocks) && Tenants(mem, held) && Undisturbed(mem, mem', rest)
    requires forall o :: o in rest ==> o in held && rest[o] == held[o]
    ensures Handed(mem, mem', held, rest)
  {
  }

  /** The head of a cache is the block on top of its stack. */
  lemma TopOfStack(mem: Memory, own: Owners, heads: map<Slot, nat>, counts: map<Slot, nat>, held: Held,
      blocks: seq<Block>, s: Slot)
    requires Partition(own, held, blocks) && Tenants(mem, held) && SlotsOk(heads, counts, held) && GoodSlot(s)
    ensures SlotOk(heads, counts, held, s) && (heads[s] != 0 <==> counts[s] > 0)
    ensures heads[s] != 0 ==> var o := Cached(s, counts[s] - 1);
      o in held && held[o] == Block(heads[s], ClassSize(s.ci)) && GoodBlock(held[o]) && heads[s] in mem
  {
    assert SlotOk(heads, counts, held, s);
    if counts[s] > 0 {
      assert TenantOk(mem, held, Cached(s, counts[s] - 1));
    }
  }

  lemma FreshFromCache(mem: Memory, own: Owners, held: Held, blocks: seq<Block>, o: Owner, p: nat)
    requires Partition(own, held, blocks) && Tenants(mem, held) && p >= 16 && Word(p)
    requires o in held && o.Cached? && In(held[o], p - 16)
    ensures Live(p) !in held
  {
    assert Word(p - 16);
    LiveHaveHeaders(mem, held);
    FreshPointer(mem, own, held, blocks, p);
  }

  /** The header leads `dealloc` back to the block. */
  lemma HeaderOf(mem: Memory, own: Owners, held: Held, blocks: seq<Block>, p: nat)
    requires Partition(own, held, blocks) && Tenants(mem, held) && Live(p) in held
    ensures HeaderOk(mem, p, held[Live(p)]) && GoodBlock(held[Live(p)])
  {
    assert TenantOk(mem, held, Live(p));
  }

  lemma LiveHaveHeaders(mem: Memory, held: Held)
    requires Tenants(mem, held)
    ensures Headers(mem, held)
  {
    forall p | Live(p) in held ensures HeaderOk(mem, p, held[Live(p)]) {
      assert TenantOk(mem, held, Live(p));
    }
  }

  function CpuIndex(i: nat): nat { if i < MAX_CPUS then i else 0 }

  /** Every CPU has a cache of its own. */
  lemma CpusDiffer(i: nat, j: nat)
    requires i < MAX_CPUS && j < MAX_CPUS && i != j
    ensures CpuIndex(i) != CpuIndex(j) && CpuIndex(i) < MAX_CPUS
  {
  }

  /** The classes are the powers of two from 64 to 2048. */
  lemma ClassesDouble(ci: nat)
    requires ci < 6
    ensures ci == 0 ==> ClassSize(ci) == 64
    ensures ci > 0 ==> ClassSize(ci) == 2 * ClassSize(ci - 1)
  {
  }

  /** Bytes that are asked of the free list. */
  function Want(size: nat, align: nat): (r: nat)
    ensures 16 + size + align <= r && r % 8 == 0
    ensures r == Need(size, align) || (Need(size, align) <= r && exists ci :: 0 <= ci < 6 && ClassSize(ci) == r)
    ensures forall ci :: 0 <= ci < 6 && Need(size, align) <= ClassSize(ci) ==> r <= ClassSize(ci)
  {
    var need := Need(size, align);
    if ClassFor(need).Some? then ClassSize(ClassFor(need).value) else need
  }

  class Heap {
    const ground: Ground
    var heads: map<Slot, nat>
    var counts: map<Slot, nat>

    ghost predicate Valid()
      reads this, ground, ground.list
    {
      ground.Sound() && Tenants(ground.list.mem, ground.held) && SlotsOk(heads, counts, ground.held)
    }

    /** `init`: one large free block, unless it could not hold a node. */
    constructor (m: Memory, start: nat, size: nat)
      requires start > 0 && Word(start) && Word(size) && HasWords(m, Block(start, size))
      ensures Valid() && fresh(ground) && fresh(ground.list) && ground.held == map[]
      ensures forall w :: w in ground.own <==> size >= NODE_SIZE && Word(w) && In(Block(start, size), w)
    {
      ground := new Ground(m);
      heads, counts := map s | s in AllSlots() :: 0, map s | s in AllSlots() :: 0;
      new;
      if size >= NODE_SIZE {
        ground.AddRegion(start, size, map[]);
      }
    }

    /** A block fresh from the list. */
    method FromList(want: nat, size: nat, align: nat) returns (r: Option<nat>)
      requires Valid() && align >= 8 && align % 8 == 0 && 16 + size + align <= want && want % 8 == 0
      modifies ground, ground.list
      ensures Valid() && ground.own.Keys == old(ground.own.Keys)
      ensures r.None? <==> forall i :: 0 <= i < |old(ground.list.blocks)| ==> old(ground.list.blocks)[i].size < want
      ensures r.None? ==>
        && ground.held == old(ground.held)
        && ground.list.mem == old(ground.list.mem)
        && ground.list.blocks == old(ground.list.blocks)
      ensures r.Some? ==>
        && Live(r.value) in ground.held
        && Live(r.value) !in old(ground.held)
        && ground.held == old(ground.held)[Live(r.value) := ground.held[Live(r.value)]]
      ensures r.Some? ==>
        && Placed(ground.held[Live(r.value)], r.value, size, align)
        && Undisturbed(old(ground.list.mem), ground.list.mem, old(ground.held))
      ensures r.Some? ==> CarvedOff(old(ground.list.blocks), want, ground.held[Live(r.value)], ground.list.blocks)
    {
      hide Partition, Tenants, SlotsOk, Undisturbed, Covered;
      ghost var mem0, blocks0, own0, held0 := ground.list.mem, ground.list.blocks, ground.own, ground.held;
      LiveHaveHeaders(mem0, held0);
      r := ground.Carve(want, size, align);
      if r.Some? {
        HandedBy(own0, blocks0, mem0, ground.list.mem, held0, held0);
        FreeToLive(mem0, ground.list.mem, heads, counts, held0, r.value, ground.held[Live(r.value)]);
      }
    }

    /** `finish_alloc` on the block on top of a cache stack. */
    method PopCached(s: Slot, size: nat, align: nat) returns (p: nat)
      requires Valid() && GoodSlot(s) && s in heads && s in counts && heads[s] != 0
      requires align >= 8 && align % 8 == 0 && 16 + size + align <= ClassSize(s.ci)
      modifies this, ground, ground.list`mem
      ensures Valid() && ground.own.Keys == old(ground.own.Keys) && old(counts)[s] > 0
      ensures var top := Cached(s, old(counts)[s] - 1);
        var rest := old(ground.held) - {top};
        && top in old(ground.held) && Live(p) in ground.held && ground.held[Live(p)] == old(ground.held)[top]
        && Live(p) !in old(ground.held) && Live(p) in ground.held
        && ground.held == rest[Live(p) := ground.held[Live(p)]]
        && Placed(ground.held[Live(p)], p, size, align) && Undisturbed(old(ground.list.mem), ground.list.mem, rest)
    {
      hide Partition, Tenants, SlotsOk, Undisturbed, Covered;
      ghost var mem0, own0, held0, heads0, counts0 := ground.list.mem, ground.own, ground.held, heads, counts;
      TopOfStack(ground.list.mem, ground.own, heads, counts, ground.held, ground.list.blocks, s);
      ghost var o := Cached(s, counts[s] - 1);
      var addr, n := heads[s], counts[s];
      heads := heads[s := ground.list.mem[addr]];
      counts := counts[s := n - 1];
      var b := Block(addr, ClassSize(s.ci));
      PointerFits(b, size, align);
      p := AlignUp(addr + HEADER, align);
      FreshFromCache(ground.list.mem, ground.own, ground.held, ground.list.blocks, o, p);
      TransferKeeps(ground.own, ground.held, ground.list.blocks, o, Live(p));
      ground.own, ground.held := Assign(ground.own, b, Live(p)), (ground.held - {o})[Live(p) := b];
      ground.WriteHeader(b, p, size, align);
      assert ground.held - {Live(p)} == held0 - {o};
      HandedBy(own0, ground.list.blocks, mem0, ground.list.mem, held0, held0 - {o});
      CachedToLive(mem0, ground.list.mem, heads0, counts0, held0, s, p);
    }

    /** Serves a request from the CPU's cache when it has a block of the right class,
        and from the shared list otherwise. */
    method Alloc(cpu: nat, size: nat, layoutAlign: nat) returns (r: Option<nat>)
      requires Valid() && PowerOfTwo(layoutAlign)
      modifies this, ground, ground.list
      ensures Valid() && ground.own.Keys == old(ground.own.Keys)
      ensures var a := Max(layoutAlign, 8);
        var top := CacheTop(old(counts), cpu, Need(size, a));
        && (r.None? <==> top.None? && forall i :: 0 <= i < |old(ground.list.blocks)| ==>
              old(ground.list.blocks)[i].size < Want(size, a))
        && (r.None? ==>
              && ground.held == old(ground.held)
              && ground.list.mem == old(ground.list.mem)
              && ground.list.blocks == old(ground.list.blocks))
        && (r.Some? ==>
              var rest := if top.None? then old(ground.held) else old(ground.held) - {top.value};
              && Live(r.value) !in old(ground.held) && Live(r.value) in ground.held
                && ground.held == rest[Live(r.value) := ground.held[Live(r.value)]]
              && r.value % layoutAlign == 0
              && Placed(ground.held[Live(r.value)], r.value, size, a)
              && Undisturbed(old(ground.list.mem), ground.list.mem, rest)
              && (top.None? ==> CarvedOff(old(ground.list.blocks), Want(size, a), ground.held[Live(r.value)],
                   ground.list.blocks))
              && (top.Some? ==> ground.list.blocks == old(ground.list.blocks))
              && (top.Some? ==>
                   && top.value in old(ground.held)
                   && ground.held[Live(r.value)] == old(ground.held)[top.value]))
    {
      hide Partition, Tenants, SlotsOk, Undisturbed, Covered, Placed;
      var align := Max(layoutAlign, 8);
      AlignOk(layoutAlign);
      var need := Need(size, align);
      var ci := ClassFor(need);
      if ci.Some? {
        var s := Slot(CpuIndex(cpu), ci.value);
        CacheTopIs(s);
        if heads[s] != 0 {
          var p := PopCached(s, size, align);
          AlignedFor(p, layoutAlign, ground.held[Live(p)], size);
          return Some(p);
        }
        r := FromList(ClassSize(ci.value), size, align);
      } else {
        r := FromList(need, size, align);
      }
      if r.Some? {
        AlignedFor(r.value, layoutAlign, ground.held[Live(r.value)], size);
      }
    }

    lemma CacheTopIs(s: Slot)
      requires Valid() && GoodSlot(s)
      ensures s in heads && s in counts && (heads[s] != 0 <==> counts[s] > 0) && counts[s] <= CACHE_CAP
    {
      TopOfStack(ground.list.mem, ground.own, heads, counts, ground.held, ground.list.blocks, s);
    }

    /** Finds the block through the header and gives it to the CPU's cache when it is
        of a cached size and there is room, and to the shared list otherwise. */
    method Dealloc(cpu: nat, p: nat)
      requires Valid() && Live(p) in ground.held
      modifies this, ground, ground.list
      ensures Valid() && ground.own.Keys == old(ground.own.Keys)
        && Undisturbed(old(ground.list.mem), ground.list.mem, old(ground.held) - {Live(p)})
      ensures var b := old(ground.held)[Live(p)];
        var bottom := CacheRoom(old(counts), cpu, b.size);
        if bottom.Some?
        then ground.held == (old(ground.held) - {Live(p)})[bottom.value := b]
          && ground.list.blocks == old(ground.list.blocks)
        else ground.held == old(ground.held) - {Live(p)} && forall x: nat :: Covered(ground.list.blocks, x) <==>
          Covered(old(ground.list.blocks), x) || In(b, x)
    {
      hide Partition, Tenants, SlotsOk, Undisturbed, Covered, TenantOk;
      HeaderOf(ground.list.mem, ground.own, ground.held, ground.list.blocks, p);
      var addr, size := ground.list.mem[p - 16], ground.list.mem[p - 8];
      var ci := ExactClass(size);
      if ci.Some? {
        var s := Slot(CpuIndex(cpu), ci.value);
        CacheTopIs(s);
        if counts[s] < CACHE_CAP {
          PushCached(s, p, addr);
          return;
        }
      }
      GiveBack(p, addr, size);
    }

    method PushCached(s: Slot, ghost p: nat, addr: nat)
      requires Valid() && GoodSlot(s) && Live(p) in ground.held && s in heads && s in counts && counts[s] < CACHE_CAP
      requires ground.held[Live(p)] == Block(addr, ClassSize(s.ci))
      modifies this, ground, ground.list`mem
      ensures Valid() && ground.own.Keys == old(ground.own.Keys)
        && Undisturbed(old(ground.list.mem), ground.list.mem, old(ground.held) - {Live(p)})
      ensures ground.held == (old(ground.held) - {Live(p)})[Cached(s, old(counts)[s]) := old(ground.held)[Live(p)]]
    {
      hide Partition, Tenants, SlotsOk, Undisturbed, Covered;
      ghost var mem0, own0, held0 := ground.list.mem, ground.own, ground.held;
      TopOfStack(ground.list.mem, ground.own, heads, counts, ground.held, ground.list.blocks, s);
      HeaderOf(ground.list.mem, ground.own, ground.held, ground.list.blocks, p);
      ground.Poke(Live(p), addr, heads[s]);
      HandedBy(ground.own, ground.list.blocks, mem0, ground.list.mem, ground.held, ground.held - {Live(p)});
      LiveToCached(mem0, ground.list.mem, heads, counts, ground.held, s, p);
      TransferKeeps(ground.own, ground.held, ground.list.blocks, Live(p), Cached(s, counts[s]));
      ground.own := Assign(ground.own, ground.held[Live(p)], Cached(s, counts[s]));
      ground.held := (ground.held - {Live(p)})[Cached(s, counts[s]) := ground.held[Live(p)]];
      heads := heads[s := addr];
      counts := counts[s := counts[s] + 1];
    }

    method GiveBack(ghost p: nat, addr: nat, size: nat)
      requires Valid() && Live(p) in ground.held && ground.held[Live(p)] == Block(addr, size)
      modifies ground, ground.list
      ensures Valid() && ground.own.Keys == old(ground.own.Keys)
        && Undisturbed(old(ground.list.mem), ground.list.mem, old(ground.held) - {Live(p)})
      ensures ground.held == old(ground.held) - {Live(p)}
      ensures forall x: nat :: Covered(ground.list.blocks, x) <==>
        Covered(old(ground.list.blocks), x) || In(Block(addr, size), x)
    {
      hide Partition, Tenants, SlotsOk, Undisturbed, Covered;
      ghost var mem0, own0, held0, blocks0 := ground.list.mem, ground.own, ground.held, ground.list.blocks;
      ground.Release(p, addr, size);
      HandedBy(own0, blocks0, mem0, ground.list.mem, held0, ground.held);
      LiveToFree(mem0, ground.list.mem, heads, counts, held0, p);
    }

    /** A program may write anything behind its pointer. */
    method Store(p: nat, w: nat, v: nat)
      requires Valid() && Live(p) in ground.held && Word(w)
        && p <= w < ground.held[Live(p)].addr + ground.held[Live(p)].size
      modifies ground.list`mem
      ensures Valid() && ground.list.mem == old(ground.list.mem)[w := v]
    {
      hide Partition, Tenants, SlotsOk, Undisturbed, Covered;
      ghost var mem0 := ground.list.mem;
      HeaderOf(ground.list.mem, ground.own, ground.held, ground.list.blocks, p);
      ground.Poke(Live(p), w, v);
      HandedBy(ground.own, ground.list.blocks, mem0, ground.list.mem, ground.held, ground.held - {Live(p)});
      PayloadWrite(mem0, ground.list.mem, ground.held, p, w, v);
    }
  }

  /** The stack element that a request pops, if any. */
  function CacheTop(counts: map<Slot, nat>, cpu: nat, need: nat): Option<Owner> {
    var ci := ClassFor(need);
    if ci.None? then None else
      var s := Slot(CpuIndex(cpu), ci.value);
      if s in counts && counts[s] > 0 then Some(Cached(s, counts[s] - 1)) else None
  }

  /** The stack element that a freed block becomes, if any. */
  function CacheRoom(counts: map<Slot, nat>, cpu: nat, size: nat): Option<Owner> {
    var ci := ExactClass(size);
    if ci.None? then None else
      var s := Slot(CpuIndex(cpu), ci.value);
      if s in counts && counts[s] < CACHE_CAP then Some(Cached(s, counts[s])) else None
  }

  lemma PayloadWrite(mem: Memory, mem': Memory, held: Held, p: nat, w: nat, v: nat)
    requires Handed(mem, mem', held, held - {Live(p)}) && Live(p) in held && p <= w && mem' == mem[w := v]
    ensures Tenants(mem', held)
  {
    OthersStay(mem, mem', held, held - {Live(p)}, held);
    assert TenantOk(mem, held, Live(p));
  }

  /** What a cache says about a freed block and the next request. */
  lemma CountsAre(heads: map<Slot, nat>, counts: map<Slot, nat>, held: Held, s: Slot, n: nat)
    requires SlotsOk(heads, counts, held) && GoodSlot(s)
    requires Cached(s, n) in held && Cached(s, n + 1) !in held
    ensures s in counts && counts[s] == n + 1
  {
    assert SlotOk(heads, counts, held, s);
  }

  /** A block that goes into the cache of a CPU is the first to come out of it: the next
      request of its class on that CPU gets that very block, and nobody else loses or
      gains one. */
  method FreedIsReused(h: Heap, cpu: nat, p: nat, size: nat, layoutAlign: nat) returns (q: nat)
    requires h.Valid() && Live(p) in h.ground.held && PowerOfTwo(layoutAlign)
    requires var need := Need(size, Max(layoutAlign, 8));
      && ClassFor(need).Some?
      && h.ground.held[Live(p)].size == ClassSize(ClassFor(need).value)
    requires var s := Slot(if cpu < MAX_CPUS then cpu else 0, ClassFor(Need(size, Max(layoutAlign, 8))).value);
      s in h.counts && h.counts[s] < 64
    modifies h, h.ground, h.ground.list
    ensures h.Valid() && h.ground.list.blocks == old(h.ground.list.blocks)
    ensures var b := old(h.ground.held)[Live(p)];
      && h.ground.held == (old(h.ground.held) - {Live(p)})[Live(q) := b]
      && Placed(b, q, size, Max(layoutAlign, 8))
  {
    hide Partition, Tenants, SlotsOk, Undisturbed, Covered, Placed, TenantOk;
    ghost var held0, ci := h.ground.held, ClassFor(Need(size, Max(layoutAlign, 8))).value;
    ghost var s := Slot(CpuIndex(cpu), ci);
    ghost var n, b := h.counts[s], held0[Live(p)];
    ExactIs(ci);
    NotThere(h.heads, h.counts, held0, s);
    h.Dealloc(cpu, p);
    CountsAre(h.heads, h.counts, h.ground.held, s, n);
    var r := h.Alloc(cpu, size, layoutAlign);
    q := r.value;
    assert (held0 - {Live(p)})[Cached(s, n) := b] - {Cached(s, n)} == held0 - {Live(p)};
  }

  lemma ExactIs(ci: nat)
    requires ci < 6
    ensures ExactClass(ClassSize(ci)) == Some(ci)
  {
  }

  lemma NotThere(heads: map<Slot, nat>, counts: map<Slot, nat>, held: Held, s: Slot)
    requires SlotsOk(heads, counts, held) && GoodSlot(s)
    ensures s in counts && Cached(s, counts[s]) !in held && Cached(s, counts[s] + 1) !in held
  {
    assert SlotOk(heads, counts, held, s);
  }
}
