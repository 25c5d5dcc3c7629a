/** Who owns which word of a heap.  Every word is on the free list or belongs to one
    tenant: a cached block, or a block behind a pointer that was handed out. */
module HeapOwnership {
  import opened Common
  import opened Alignment
  import opened FreeLists

  datatype Slot = Slot(cpu: nat, ci: nat)
  /** A word is on the free list, in the block at depth `k` of a cache stack, or in the
      block behind a pointer that was handed out. */
  datatype Owner = Free | Cached(slot: Slot, k: nat) | Live(ptr: nat)

  const HEADER: nat := 16

  type Owners = map<nat, Owner>
  type Held = map<Owner, Block>

  predicate Word(w: nat) { w % 8 == 0 }

  /** Every word of the heap has one owner, and owners have exactly their own blocks. */
  ghost predicate Partition(own: Owners, held: Held, blocks: seq<Block>) {
    && Free !in held
    && (forall w :: w in own ==> Word(w) && (own[w] == Free <==> Covered(blocks, w)))
    && (forall w: nat :: Word(w) && Covered(blocks, w) ==> w in own)
    && (forall o :: o in held ==> GoodBlock(held[o]))
    && (forall o, w: nat :: o in held && Word(w) && In(held[o], w) ==> w in own && own[w] == o)
    && (forall w :: w in own && own[w] != Free ==> own[w] in held && In(held[own[w]], w))
  }

  /** The words of `b` go to `o`. */
  function Assign(own: Owners, b: Block, o: Owner): (r: Owners)
    ensures r.Keys == own.Keys
  {
    map w | w in own :: if In(b, w) then o else own[w]
  }

  lemma AcquireKeeps(own: Owners, held: Held, blocks: seq<Block>, blocks': seq<Block>, b: Block, o: Owner)
    requires Partition(own, held, blocks) && GoodBlock(b) && o != Free && o !in held
    requires forall x: nat :: In(b, x) ==> Covered(blocks, x)
    requires forall x: nat :: Covered(blocks', x) <==> Covered(blocks, x) && !In(b, x)
    ensures Partition(Assign(own, b, o), held[o := b], blocks')
  {
    forall q, w: nat | q in held && Word(w) && In(held[q], w) ensures !In(b, w) {
      assert own[w] == q && q != Free;
    }
  }

  lemma ReleaseKeeps(own: Owners, held: Held, blocks: seq<Block>, blocks': seq<Block>, o: Owner)
    requires Partition(own, held, blocks) && o in held
    requires forall x: nat :: Covered(blocks', x) <==> Covered(blocks, x) || In(held[o], x)
    ensures Partition(Assign(own, held[o], Free), held - {o}, blocks')
  {
    var b, own' := held[o], Assign(own, held[o], Free);
    forall q, w: nat | q in held && q != o && Word(w) && In(held[q], w) ensures !In(b, w) {
      assert own[w] == q;
    }
    forall w | w in own' ensures own'[w] == Free <==> Covered(blocks', w) {
      assert own[w] == Free <==> Covered(blocks, w);
    }
    forall w: nat | Word(w) && Covered(blocks', w) ensures w in own' {
      assert In(b, w) ==> w in own;
    }
  }

  lemma TransferKeeps(own: Owners, held: Held, blocks: seq<Block>, o: Owner, o': Owner)
    requires Partition(own, held, blocks) && o in held && o' != Free && o' !in held
    ensures Partition(Assign(own, held[o], o'), (held - {o})[o' := held[o]], blocks)
  {
    var b := held[o];
    forall q, w: nat | q in held && q != o && Word(w) && In(held[q], w) ensures !In(b, w) {
      assert own[w] == q;
    }
    forall w: nat | Word(w) && In(b, w) ensures !Covered(blocks, w) {
      assert own[w] == o;
    }
  }

  /** Two tenants never share a byte. */
  lemma TenantsDisjoint(own: Owners, held: Held, blocks: seq<Block>, o: Owner, o': Owner)
    requires Partition(own, held, blocks) && o in held && o' in held && o != o'
    ensures Before(held[o], held[o']) || Before(held[o'], held[o])
  {
    var b, b' := held[o], held[o'];
    var w := if b.addr <= b'.addr then b'.addr else b.addr;
    assert Word(w) && In(b, w) ==> own[w] == o;
    assert Word(w) && In(b', w) ==> own[w] == o';
  }

  /** A tenant's block is clear of the free list, so it can be freed. */
  lemma TenantIsClear(own: Owners, held: Held, blocks: seq<Block>, o: Owner)
    requires Partition(own, held, blocks) && o in held && Good(blocks)
    ensures Clear(blocks, held[o]) && GoodBlock(held[o])
  {
    var b := held[o];
    forall i | 0 <= i < |blocks| ensures Before(blocks[i], b) || Before(b, blocks[i]) {
      var w := if b.addr <= blocks[i].addr then blocks[i].addr else b.addr;
      assert GoodBlock(blocks[i]) && Word(w);
      assert In(b, w) ==> own[w] == o && !Covered(blocks, w);
      assert In(blocks[i], w) ==> Covered(blocks, w);
    }
  }

  lemma TenantHasWords(mem: Memory, own: Owners, held: Held, blocks: seq<Block>, o: Owner)
    requires Partition(own, held, blocks) && o in held && own.Keys <= mem.Keys
    ensures HasWords(mem, held[o])
  {
    forall w: nat | In(held[o], w) && w % 8 == 0 ensures w in mem {
      assert Word(w) && w in own.Keys;
    }
  }

  /** The words of a new region, all free. */
  function FreeWords(b: Block, mem: Memory): Owners {
    map w | w in mem && Word(w) && In(b, w) :: Free
  }

  lemma NewIsClear(own: Owners, held: Held, blocks: seq<Block>, b: Block)
    requires Partition(own, held, blocks) && Good(blocks) && GoodBlock(b) && forall w :: w in own ==> !In(b, w)
    ensures Clear(blocks, b)
  {
    forall i | 0 <= i < |blocks| ensures Before(blocks[i], b) || Before(b, blocks[i]) {
      var w := if b.addr <= blocks[i].addr then blocks[i].addr else b.addr;
      assert GoodBlock(blocks[i]) && Word(w);
      assert In(blocks[i], w) ==> Covered(blocks, w);
    }
  }

  lemma GrowKeeps(own: Owners, held: Held, blocks: seq<Block>, blocks': seq<Block>, b: Block, mem: Memory)
    requires Partition(own, held, blocks) && HasWords(mem, b) && forall w :: w in own ==> !In(b, w)
    requires forall x: nat :: Covered(blocks', x) <==> Covered(blocks, x) || In(b, x)
    ensures Partition(own + FreeWords(b, mem), held, blocks')
  {
    var own' := own + FreeWords(b, mem);
    forall w: nat | Word(w) && Covered(blocks', w) ensures w in own' {
      assert Covered(blocks, w) ==> w in own;
    }
  }

  lemma MoreMemory(mem: Memory, head: nat, blocks: seq<Block>, added: Memory)
    requires Linked(mem, head, blocks) && Backed(mem, blocks) && added.Keys !! mem.Keys
    ensures Linked(mem + added, head, blocks) && Backed(mem + added, blocks)
  {
    var mem' := mem + added;
    forall i: nat | i < |blocks| ensures NodeOk(mem', blocks, i) {
      assert NodeOk(mem, blocks, i);
    }
  }

  function Outside<T>(m: map<nat, T>, b: Block): map<nat, T> {
    map w | w in m && !In(b, w) :: m[w]
  }

  lemma DropKeeps(own: Owners, held: Held, blocks: seq<Block>, blocks': seq<Block>, b: Block)
    requires Partition(own, held, blocks) && forall x: nat :: In(b, x) ==> Covered(blocks, x)
    requires forall x: nat :: Covered(blocks', x) <==> Covered(blocks, x) && !In(b, x)
    ensures Partition(Outside(own, b), held, blocks')
  {
    forall o, w: nat | o in held && Word(w) && In(held[o], w) ensures !In(b, w) {
      assert own[w] == o;
    }
  }

  lemma LessMemory(mem: Memory, head: nat, blocks: seq<Block>, b: Block)
    requires Good(blocks) && Linked(mem, head, blocks) && Backed(mem, blocks)
      && forall x: nat :: Covered(blocks, x) ==> !In(b, x)
    ensures Linked(Outside(mem, b), head, blocks) && Backed(Outside(mem, b), blocks)
  {
    var mem' := Outside(mem, b);
    forall i: nat | i < |blocks| ensures NodeOk(mem', blocks, i) {
      assert NodeOk(mem, blocks, i) && In(blocks[i], blocks[i].addr) && In(blocks[i], blocks[i].addr + 8);
    }
  }

  // ---- memory contents ----

  /** The words of every tenant keep their contents. */
  ghost predicate Undisturbed(mem: Memory, mem': Memory, held: Held) {
    && mem'.Keys == mem.Keys
    && forall o, w: nat :: o in held && Word(w) && In(held[o], w) && w in mem ==> mem'[w] == mem[w]
  }

  /** The words of every tenant are still there, with their contents. */
  ghost predicate Kept(mem: Memory, mem': Memory, held: Held) {
    forall o, w: nat :: o in held && Word(w) && In(held[o], w) && w in mem ==> w in mem' && mem'[w] == mem[w]
  }

  lemma KeptWithout(mem: Memory, mem1: Memory, mem2: Memory, own: Owners, held: Held, blocks: seq<Block>, b: Block)
    requires SameOutside(mem, mem1, blocks) && mem2 == Outside(mem1, b)
    requires Partition(own, held, blocks) && forall w :: w in own ==> !In(b, w)
    ensures Kept(mem, mem2, held) && mem2.Keys == Outside(mem, b).Keys
  {
    forall o, w: nat | o in held && Word(w) && In(held[o], w) && w in mem ensures w in mem2 && mem2[w] == mem[w] {
      assert own[w] == o && !Covered(blocks, w);
    }
  }

  lemma BlockCovered(blocks: seq<Block>, k: nat)
    requires k < |blocks|
    ensures forall x: nat :: In(blocks[k], x) ==> Covered(blocks, x)
  {
  }

  /** Work on the free list does not touch tenants. */
  lemma ListLeavesTenants(mem: Memory, mem': Memory, own: Owners, held: Held, blocks: seq<Block>)
    requires Partition(own, held, blocks) && SameOutside(mem, mem', blocks)
    ensures Undisturbed(mem, mem', held)
  {
    forall o, w: nat | o in held && Word(w) && In(held[o], w) && w in mem ensures mem'[w] == mem[w] {
      assert own[w] == o && !Covered(blocks, w);
    }
  }

  /** A write into one tenant's block does not touch the others. */
  lemma WriteLeavesOthers(mem: Memory, own: Owners, held: Held, blocks: seq<Block>, o: Owner, w: nat, v: nat)
    requires Partition(own, held, blocks) && o in held && Word(w) && In(held[o], w) && w in mem
    ensures Undisturbed(mem, mem[w := v], held - {o})
  {
    forall q, x: nat | q in held - {o} && Word(x) && In(held[q], x) && x in mem ensures x != w {
      assert own[x] == q && own[w] == o;
    }
  }

  /** The header in front of pointer `p` names its block, and the pointer is inside. */
  ghost predicate HeaderOk(mem: Memory, p: nat, b: Block) {
    && Word(p) && b.addr + 16 <= p <= b.addr + b.size
    && p - 16 in mem && p - 8 in mem && mem[p - 16] == b.addr && mem[p - 8] == b.size
  }

  lemma UndisturbedTrans(mem: Memory, mem1: Memory, mem2: Memory, held: Held)
    requires Undisturbed(mem, mem1, held) && Undisturbed(mem1, mem2, held)
    ensures Undisturbed(mem, mem2, held)
  {
  }

  /** Words of tenants are not on the free list. */
  lemma TenantWord(own: Owners, held: Held, blocks: seq<Block>, o: Owner, w: nat)
    requires Partition(own, held, blocks) && o in held && Word(w) && In(held[o], w)
    ensures w in own && own[w] == o && !Covered(blocks, w)
  {
  }

  ghost predicate Headers(mem: Memory, held: Held) {
    forall p: nat :: Live(p) in held ==> HeaderOk(mem, p, held[Live(p)])
  }

  /** A pointer into a block that is not its own is not in use yet. */
  lemma FreshPointer(mem: Memory, own: Owners, held: Held, blocks: seq<Block>, p: nat)
    requires Partition(own, held, blocks) && p >= 16 && Word(p) && p - 16 in own && own[p - 16] != Live(p)
    requires Headers(mem, held)
    ensures Live(p) !in held
  {
    assert Live(p) in held ==> Word(p - 16) && In(held[Live(p)], p - 16);
  }

  /** The first aligned address behind the header, with room for the payload. */
  predicate Placed(b: Block, p: nat, size: nat, align: nat)
    requires align > 0
  {
    p % align == 0 && b.addr + 16 <= p < b.addr + 16 + align && p + size <= b.addr + b.size
  }

  /** Where a pointer goes in a block that has room for header, padding and payload. */
  lemma PointerFits(b: Block, size: nat, align: nat)
    requires GoodBlock(b) && align >= 8 && align % 8 == 0 && 16 + size + align <= b.size
    ensures var p := AlignUp(b.addr + 16, align);
      Word(p) && Placed(b, p, size, align) && In(b, p - 16) && In(b, p - 8)
  {
    MultipleOfMultiple(AlignUp(b.addr + 16, align), align);
  }

  lemma FreshFromList(mem: Memory, own: Owners, held: Held, blocks: seq<Block>, b: Block, p: nat)
    requires Partition(own, held, blocks) && Headers(mem, held) && p >= 16 && Word(p) && In(b, p - 16)
    requires forall x: nat :: In(b, x) ==> Covered(blocks, x)
    ensures Live(p) !in held
  {
    assert Word(p - 16) && Covered(blocks, p - 16);
    FreshPointer(mem, own, held, blocks, p);
  }

  lemma TakenInside(blocks: seq<Block>, need: nat, b: Block)
    requires exists i: nat :: Taken(blocks, need, b, i)
    ensures forall x: nat :: In(b, x) ==> Covered(blocks, x)
    ensures need <= b.size
  {
    var i: nat :| Taken(blocks, need, b, i);
    forall x: nat | In(b, x) ensures Covered(blocks, x) {
      assert In(blocks[i], x);
    }
  }

  function Max(a: nat, b: nat): nat { if a < b then b else a }

  lemma AlignOk(layoutAlign: nat)
    requires PowerOfTwo(layoutAlign)
    ensures Max(layoutAlign, 8) % 8 == 0 && Max(layoutAlign, 8) >= 8
  {
    if layoutAlign >= 8 {
      LargePowers(layoutAlign);
    }
  }

  /** A pointer aligned to 8 is aligned to every smaller power of two. */
  lemma AlignedFor(p: nat, layoutAlign: nat, b: Block, size: nat)
    requires PowerOfTwo(layoutAlign) && Placed(b, p, size, Max(layoutAlign, 8))
    ensures p % layoutAlign == 0
  {
    if layoutAlign < 8 {
      SmallPowers(layoutAlign, p);
    }
  }

  /** Bytes that a request takes from the heap: header, padding and payload. */
  function Need(size: nat, align: nat): (r: nat)
    ensures 16 + size + align <= r < 16 + size + align + 8 && r % 8 == 0
  {
    AlignUp(HEADER + size + align, 8)
  }

  /** The free list, the words around it and who owns them. */
  class Ground {
    const list: FreeList
    ghost var own: Owners
    ghost var held: Held

    ghost predicate Sound()
      reads this, list
    {
      list.Valid() && Partition(own, held, list.blocks) && own.Keys <= list.mem.Keys
    }

    constructor (m: Memory)
      ensures Sound() && fresh(list) && own == map[] && held == map[] && list.mem == m && list.blocks == []
    {
      list := new FreeList(m);
      own, held := map[], map[];
      new;
      assert forall x: nat :: !Covered(list.blocks, x);
    }

    /** New memory, all of it free.  `added` is what was mapped for it. */
    method AddRegion(addr: nat, size: nat, added: Memory)
      requires Sound() && GoodBlock(Block(addr, size)) && added.Keys !! list.mem.Keys
        && HasWords(list.mem + added, Block(addr, size))
      requires forall w :: w in own ==> !In(Block(addr, size), w)
      modifies this, list
      ensures Sound() && held == old(held) && list.mem.Keys == old(list.mem.Keys) + added.Keys
      ensures forall w :: w in own <==> w in old(own) || (Word(w) && In(Block(addr, size), w))
      ensures Undisturbed(old(list.mem) + added, list.mem, held)
      ensures forall x: nat :: Covered(list.blocks, x) <==> Covered(old(list.blocks), x) || In(Block(addr, size), x)
    {
      hide Partition, Undisturbed, Covered, Linked, Coalesced, Apart, Backed;
      ghost var b, blocks0 := Block(addr, size), list.blocks;
      NewIsClear(own, held, blocks0, b);
      MoreMemory(list.mem, list.head, list.blocks, added);
      list.mem := list.mem + added;
      ghost var mem1 := list.mem;
      list.Insert(addr, size);
      GrowKeeps(own, held, blocks0, list.blocks, b, list.mem);
      own := own + FreeWords(b, list.mem);
      ListLeavesTenants(mem1, list.mem, own, held, list.blocks);
    }

    /** Gives a free block and its memory away. */
    method DropBlock(b: Block, prev: nat, next: nat, ghost k: nat)
      requires Sound() && k < |list.blocks| && b == list.blocks[k] && next == At(list.blocks, k + 1)
      requires prev == if k == 0 then 0 else list.blocks[k - 1].addr
      modifies this, list
      ensures Sound() && held == old(held) && list.blocks == Removed(old(list.blocks), k)
      ensures own.Keys == Outside(old(own), b).Keys && list.mem.Keys == Outside(old(list.mem), b).Keys
      ensures Kept(old(list.mem), list.mem, held)
    {
      hide Partition, Covered, Linked, Coalesced, Apart, Backed, Kept, SameOutside;
      ghost var blocks0, mem0 := list.blocks, list.mem;
      BlockCovered(blocks0, k);
      list.Unlink(prev, next, k);
      DropKeeps(own, held, blocks0, list.blocks, b);
      LessMemory(list.mem, list.head, list.blocks, b);
      ghost var mem1 := list.mem;
      list.mem := Outside(list.mem, b);
      own := Outside(own, b);
      KeptWithout(mem0, mem1, list.mem, own, held, list.blocks, b);
    }

    /** A write into the block of one tenant. */
    method Poke(ghost o: Owner, w: nat, v: nat)
      requires Sound() && o in held && Word(w) && In(held[o], w)
      modifies list`mem
      ensures Sound() && list.mem == old(list.mem)[w := v] && Undisturbed(old(list.mem), list.mem, held - {o})
    {
      hide Partition, Undisturbed, Covered, Linked, Backed, Coalesced, Apart;
      TenantWord(own, held, list.blocks, o, w);
      WriteLeavesOthers(list.mem, own, held, list.blocks, o, w, v);
      OutsideWrite(list.mem, list.head, list.blocks, w, v);
      list.mem := list.mem[w := v];
    }

    /** The header just before the user pointer. */
    method WriteHeader(b: Block, p: nat, ghost size: nat, ghost align: nat)
      requires Sound() && Live(p) in held && held[Live(p)] == b && Word(p) && align > 0 && Placed(b, p, size, align)
      modifies list`mem
      ensures Sound() && HeaderOk(list.mem, p, b) && Undisturbed(old(list.mem), list.mem, held - {Live(p)})
    {
      hide Partition, Undisturbed;
      ghost var mem0 := list.mem;
      Poke(Live(p), p - 16, b.addr);
      ghost var mem1 := list.mem;
      Poke(Live(p), p - 8, b.size);
      UndisturbedTrans(mem0, mem1, list.mem, held - {Live(p)});
    }

    /** Takes a block from the list and hands out a pointer into it. */
    method Carve(want: nat, size: nat, align: nat) returns (r: Option<nat>)
      requires Sound() && Headers(list.mem, held) && align >= 8 && align % 8 == 0 && 16 + size + align <= want
        && want % 8 == 0
      modifies this, list
      ensures Sound() && own.Keys == old(own.Keys)
      ensures r.None? <==> forall i :: 0 <= i < |old(list.blocks)| ==> old(list.blocks)[i].size < want
      ensures r.None? ==>
        && held == old(held) && own == old(own)
        && list.mem == old(list.mem) && list.blocks == old(list.blocks)
      ensures r.Some? ==>
        Live(r.value) in held && Live(r.value) !in old(held) && held == old(held)[Live(r.value) := held[Live(r.value)]]
      ensures r.Some? ==>
        && HeaderOk(list.mem, r.value, held[Live(r.value)])
        && Placed(held[Live(r.value)], r.value, size, align)
      ensures r.Some? ==>
        Undisturbed(old(list.mem), list.mem, old(held))
          && CarvedOff(old(list.blocks), want, held[Live(r.value)], list.blocks)
    {
      hide Partition, Headers, Undisturbed, Covered;
      ghost var mem0, blocks0, own0, held0 := list.mem, list.blocks, own, held;
      var b := list.Take(want);
      if b.None? {
        return None;
      }
      TakenInside(blocks0, want, b.value);
      PointerFits(b.value, size, align);
      var p := AlignUp(b.value.addr + HEADER, align);
      ListLeavesTenants(mem0, list.mem, own0, held0, blocks0);
      FreshFromList(mem0, own, held, blocks0, b.value, p);
      AcquireKeeps(own, held, blocks0, list.blocks, b.value, Live(p));
      own, held := Assign(own, b.value, Live(p)), held[Live(p) := b.value];
      ghost var mem1 := list.mem;
      WriteHeader(b.value, p, size, align);
      assert held - {Live(p)} == held0;
      UndisturbedTrans(mem0, mem1, list.mem, held0);
      return Some(p);
    }

    /** Puts the block behind a pointer on the list. */
    method Release(ghost p: nat, addr: nat, size: nat)
      requires Sound() && Live(p) in held && held[Live(p)] == Block(addr, size)
      modifies this, list
      ensures Sound() && own.Keys == old(own.Keys) && held == old(held) - {Live(p)}
      ensures Undisturbed(old(list.mem), list.mem, held)
      ensures forall x: nat :: Covered(list.blocks, x) <==> Covered(old(list.blocks), x) || In(Block(addr, size), x)
    {
      hide Partition, Undisturbed, Covered;
      ghost var mem0, blocks0 := list.mem, list.blocks;
      TenantIsClear(own, held, list.blocks, Live(p));
      TenantHasWords(list.mem, own, held, list.blocks, Live(p));
      list.Insert(addr, size);
      ReleaseKeeps(own, held, blocks0, list.blocks, Live(p));
      own, held := Assign(own, Block(addr, size), Free), held - {Live(p)};
      ListLeavesTenants(mem0, list.mem, own, held, list.blocks);
    }
  }
}
