/** The heap of user programs: the same free list over arenas that the kernel lends,
    and that go back to it when they are free again. */
module UserHeap {
  import opened Common
  import opened Alignment
  import opened FreeLists
  import opened HeapOwnership

  const MAX_ARENAS: nat := 1024
  const ARENA_SIZE: nat := 128 * 1024

  /** An empty slot of the arena table. */
  const EMPTY: Block := Block(0, 0)

  // ---- arenas ----

  /** Arenas on loan from the kernel, by address. */
  type Lent = map<nat, nat>

  ghost predicate LentWord(lent: Lent, w: nat) {
    exists a :: a in lent && In(Block(a, lent[a]), w)
  }

  /** The heap's words are exactly those of the arenas, which do not overlap. */
  ghost predicate LentOk(lent: Lent, own: Owners) {
    && (forall a :: a in lent ==> GoodBlock(Block(a, lent[a])))
    && (forall a, b :: a in lent && b in lent && a != b ==>
          Before(Block(a, lent[a]), Block(b, lent[b])) || Before(Block(b, lent[b]), Block(a, lent[a])))
    && (forall w :: w in own <==> Word(w) && LentWord(lent, w))
  }

  /** The table holds arenas on loan, none twice. */
  ghost predicate Tracked(arenas: seq<Block>, lent: Lent) {
    && (forall j :: 0 <= j < |arenas| && arenas[j] != EMPTY ==>
         arenas[j].addr in lent && lent[arenas[j].addr] == arenas[j].size)
    && (forall j, k :: 0 <= j < k < |arenas| && arenas[j] != EMPTY ==> arenas[j] != arenas[k])
  }

  /** Arena `b` is noted in the first empty slot, or nowhere when none is empty. */
  ghost predicate Noted(was: seq<Block>, b: Block, now: seq<Block>) {
    if forall k :: 0 <= k < |was| ==> was[k].addr != 0 then now == was
    else exists j ::
      && 0 <= j < |was| && was[j].addr == 0 && now == was[j := b]
      && forall k :: 0 <= k < j ==> was[k].addr != 0
  }

  ghost predicate AllLive(held: Held) { forall o :: o in held ==> o.Live? }

  predicate Refused(answer: nat) { answer == 0 || answer == WORD_LIMIT - 1 }

  /** What `grow` asks for. */
  function ArenaFor(min: nat): (r: nat)
    ensures min <= r && ARENA_SIZE <= r && r % 4096 == 0 && (r < min + 4096 || r < ARENA_SIZE + 4096)
  {
    AlignUp(Max(min, ARENA_SIZE), 4096)
  }

  /** The kernel refuses, or lends pages that are not part of the heap yet. */
  ghost predicate GoodAnswer(answer: nat, want: nat, added: Memory, own: Owners) {
    if answer == 0 || answer == 0xffff_ffff_ffff_ffff then added == map[]
    else
      && answer % 4096 == 0
      && (forall w :: w in added <==> Word(w) && In(Block(answer, want), w))
      && (forall w :: w in own ==> !In(Block(answer, want), w))
  }

  lemma LendDisjoint(lent: Lent, own: Owners, b: Block, a: nat)
    requires LentOk(lent, own) && GoodBlock(b) && a in lent && forall w :: w in own ==> !In(b, w)
    ensures a != b.addr && (Before(Block(a, lent[a]), b) || Before(b, Block(a, lent[a])))
  {
    var c := Block(a, lent[a]);
    var w := if a <= b.addr then b.addr else a;
    assert In(c, w) && Word(w) ==> LentWord(lent, w);
  }

  lemma LendWord(lent: Lent, b: Block, w: nat)
    requires b.addr !in lent
    ensures LentWord(lent[b.addr := b.size], w) <==> LentWord(lent, w) || In(b, w)
  {
    var lent' := lent[b.addr := b.size];
    if LentWord(lent, w) {
      var a :| a in lent && In(Block(a, lent[a]), w);
      assert lent'[a] == lent[a];
    }
    assert lent'[b.addr] == b.size;
  }

  lemma LendKeeps(lent: Lent, own: Owners, own': Owners, b: Block)
    requires LentOk(lent, own) && GoodBlock(b) && forall w :: w in own ==> !In(b, w)
    requires forall w :: w in own' <==> w in own || (Word(w) && In(b, w))
    ensures b.addr !in lent && LentOk(lent[b.addr := b.size], own')
  {
    hide LentWord;
    forall a | a in lent ensures a != b.addr && (Before(Block(a, lent[a]), b) || Before(b, Block(a, lent[a]))) {
      LendDisjoint(lent, own, b, a);
    }
    forall w ensures LentWord(lent[b.addr := b.size], w) <==> LentWord(lent, w) || In(b, w) {
      LendWord(lent, b, w);
    }
  }

  lemma ReturnWord(lent: Lent, own: Owners, a: nat, w: nat)
    requires LentOk(lent, own) && a in lent
    ensures LentWord(lent - {a}, w) <==> LentWord(lent, w) && !In(Block(a, lent[a]), w)
  {
    var lent' := lent - {a};
    if LentWord(lent', w) {
      var c :| c in lent' && In(Block(c, lent'[c]), w);
      assert c in lent && c != a;
    }
    if LentWord(lent, w) && !In(Block(a, lent[a]), w) {
      var c :| c in lent && In(Block(c, lent[c]), w);
      assert c in lent';
    }
  }

  lemma ReturnKeeps(lent: Lent, own: Owners, own': Owners, a: nat)
    requires LentOk(lent, own) && a in lent
    requires own'.Keys == Outside(own, Block(a, lent[a])).Keys
    ensures LentOk(lent - {a}, own')
  {
    forall w ensures w in own' <==> Word(w) && LentWord(lent - {a}, w) {
      assert w in own' <==> w in own'.Keys;
      ReturnWord(lent, own, a, w);
    }
  }

  // ---- returning arenas ----

  /** What the table, the list and the loan are once slots [..j] have been looked at:
      an arena that was one free block is gone from all three. */
  ghost predicate Swept(
      a0: seq<Block>, b0: seq<Block>, l0: Lent, j: nat, arenas: seq<Block>, blocks: seq<Block>, lent: Lent)
    requires j <= |a0|
  {
    && |arenas| == |a0|
    && (forall k :: 0 <= k < |a0| ==> arenas[k] == if k < j && a0[k] in b0 then EMPTY else a0[k])
    && (forall b :: b in blocks <==> b in b0 && b !in a0[..j])
    && lent == map a | a in l0 && !(Block(a, l0[a]) in b0 && Block(a, l0[a]) in a0[..j]) :: l0[a]
  }

  lemma SweptStart(a0: seq<Block>, b0: seq<Block>, l0: Lent)
    ensures Swept(a0, b0, l0, 0, a0, b0, l0)
  {
    assert a0[..0] == [];
  }

  /** A slot that is empty, or no block of the list. */
  lemma SweptSkips(a0: seq<Block>, b0: seq<Block>, l0: Lent, j: nat, arenas: seq<Block>, blocks: seq<Block>, lent: Lent)
    requires j < |a0| && Swept(a0, b0, l0, j, arenas, blocks, lent) && Tracked(a0, l0) && Good(b0)
    requires arenas[j] == EMPTY || arenas[j] !in blocks
    ensures a0[j] !in b0 && Swept(a0, b0, l0, j + 1, arenas, blocks, lent)
  {
    NotTwice(a0, l0, j);
    assert a0[..j + 1] == a0[..j] + [a0[j]];
  }

  lemma NotTwice(a0: seq<Block>, l0: Lent, j: nat)
    requires j < |a0| && Tracked(a0, l0)
    ensures a0[j] != EMPTY ==> a0[j] !in a0[..j]
  {
  }

  lemma SweptReturns(a0: seq<Block>, b0: seq<Block>, l0: Lent, j: nat, arenas: seq<Block>, blocks: seq<Block>,
      lent: Lent, blocks': seq<Block>)
    requires j < |a0| && Swept(a0, b0, l0, j, arenas, blocks, lent) && Tracked(a0, l0)
    requires arenas[j] != EMPTY && arenas[j] in blocks
    requires forall b :: b in blocks' <==> b in blocks && b != arenas[j]
    ensures a0[j] in b0 && Swept(a0, b0, l0, j + 1, arenas[j := EMPTY], blocks', lent - {arenas[j].addr})
  {
    assert a0[..j + 1] == a0[..j] + [a0[j]];
    var lent' := lent - {arenas[j].addr};
    forall a | a in l0 ensures a in lent' <==> !(Block(a, l0[a]) in b0 && Block(a, l0[a]) in a0[..j + 1]) {
      assert a == a0[j].addr ==> Block(a, l0[a]) == a0[j];
    }
  }

  lemma RemovedElements(blocks: seq<Block>, k: nat, b: Block)
    requires Good(blocks) && Apart(blocks) && k < |blocks|
    ensures b in Removed(blocks, k) <==> b in blocks && b != blocks[k]
  {
    var r := Removed(blocks, k);
    if b in blocks && b != blocks[k] {
      var i :| 0 <= i < |blocks| && blocks[i] == b;
      assert if i < k then r[i] == b else r[i - 1] == b;
    }
    if b in r {
      var i :| 0 <= i < |r| && r[i] == b;
      assert if i < k then b == blocks[i] && Before(b, blocks[k]) else b == blocks[i + 1] && Before(blocks[k], b);
    }
  }

  lemma TrackedWithout(arenas: seq<Block>, lent: Lent, j: nat)
    requires Tracked(arenas, lent) && j < |arenas| && arenas[j] != EMPTY
    ensures Tracked(arenas[j := EMPTY], lent - {arenas[j].addr})
  {
    forall k | 0 <= k < |arenas| && k != j && arenas[k] != EMPTY ensures arenas[k].addr != arenas[j].addr {
      assert arenas[k] != arenas[j];
    }
  }

  lemma HeadersKept(own: Owners, blocks: seq<Block>, mem: Memory, mem': Memory, held: Held, rest: Held)
    requires Partition(own, held, blocks) && Headers(mem, held) && Kept(mem, mem', rest)
    requires forall o :: o in rest ==> o in held && rest[o] == held[o]
    ensures Headers(mem', rest)
  {
    forall p: nat | Live(p) in rest ensures HeaderOk(mem', p, rest[Live(p)]) {
      assert HeaderOk(mem, p, held[Live(p)]) && GoodBlock(held[Live(p)]);
      assert held[Live(p)].addr + 16 <= p;
      assert Word(p - 16) && In(held[Live(p)], p - 16) && Word(p - 8) && In(held[Live(p)], p - 8);
    }
  }

  lemma UndisturbedIsKept(mem: Memory, mem': Memory, held: Held)
    requires Undisturbed(mem, mem', held)
    ensures Kept(mem, mem', held) && mem'.Keys == mem.Keys
  {
  }

  lemma KeptFromMore(mem: Memory, added: Memory, mem': Memory, held: Held)
    requires added.Keys !! mem.Keys && Undisturbed(mem + added, mem', held)
    ensures Kept(mem, mem', held)
  {
  }

  /** The word counts that `Valid` keeps equal, as sets. */
  lemma SameWords(own: Owners, mem: Memory, own': Owners, mem': Memory, b: Block)
    requires mem.Keys == own.Keys && own'.Keys == Outside(own, b).Keys && mem'.Keys == Outside(mem, b).Keys
    ensures mem'.Keys == own'.Keys
  {
  }

  /** What the kernel lends is a block that is new to the heap, with all its words. */
  lemma LentBlock(answer: nat, want: nat, added: Memory, mem: Memory, own: Owners)
    requires GoodAnswer(answer, want, added, own) && !Refused(answer)
    requires mem.Keys == own.Keys && ARENA_SIZE <= want && want % 4096 == 0
    ensures var b := Block(answer, want);
      && GoodBlock(b) && added.Keys !! mem.Keys && HasWords(mem + added, b)
      && (forall w :: w in own ==> !In(b, w))
      && (forall w :: w in added <==> Word(w) && In(b, w))
  {
    hide In;
    var b := Block(answer, want);
    PagesAreWords(answer);
    PagesAreWords(want);
    forall w: nat | In(b, w) && w % 8 == 0 ensures w in mem + added {
      assert Word(w) && w in added;
    }
  }

  lemma PagesAreWords(x: nat)
    requires x % 4096 == 0
    ensures x % 8 == 0
  {
    assert x == 8 * (512 * (x / 4096));
  }

  lemma MoreWords(own: Owners, own': Owners, added: Memory, b: Block)
    requires forall w :: w in own' <==> w in own || (Word(w) && In(b, w))
    requires forall w :: w in added <==> Word(w) && In(b, w)
    ensures own'.Keys == own.Keys + added.Keys
  {
  }

  class Heap {
    const ground: Ground
    const arenas: array<Block>
    ghost var lent: Lent

    /** Free and live blocks are an exact partition of the arenas on loan. */
    ghost predicate Valid()
      reads this, ground, ground.list, arenas
    {
      && ground.Sound() && ground.list.mem.Keys == ground.own.Keys
      && Headers(ground.list.mem, ground.held) && AllLive(ground.held)
      && LentOk(lent, ground.own)
      && arenas.Length == MAX_ARENAS && Tracked(arenas[..], lent)
    }

    constructor ()
      ensures Valid() && fresh(ground) && fresh(ground.list) && fresh(arenas) && lent == map[] && ground.held == map[]
      ensures ground.list.blocks == []
    {
      ground := new Ground(map[]);
      arenas := new Block[MAX_ARENAS](_ => EMPTY);
      lent := map[];
    }

    /** Notes an arena in the first empty slot, if there is one. */
    method Track(b: Block)
      requires arenas.Length == MAX_ARENAS && Tracked(arenas[..], lent) && b.addr !in lent && b != EMPTY
      modifies arenas
      ensures Tracked(arenas[..], lent[b.addr := b.size]) && Noted(old(arenas[..]), b, arenas[..])
    {
      var j := 0;
      while j < arenas.Length
        invariant 0 <= j <= arenas.Length && arenas[..] == old(arenas[..])
          && forall k :: 0 <= k < j ==> arenas[k].addr != 0
      {
        if arenas[j].addr == 0 {
          ghost var was := arenas[..];
          arenas[j] := b;
          assert arenas[..] == was[j := b];
          return;
        }
        j := j + 1;
      }
    }

    /** Asks the kernel for an arena, whose answer is given, and adds it to the list. */
    method Grow(min: nat, answer: nat, added: Memory) returns (ok: bool)
      requires Valid() && GoodAnswer(answer, ArenaFor(min), added, ground.own)
      modifies this, ground, ground.list, arenas
      ensures Valid() && ok == !Refused(answer) && ground.held == old(ground.held)
      ensures ok <==> answer != 0 && answer != 0xffff_ffff_ffff_ffff
      ensures Kept(old(ground.list.mem), ground.list.mem, ground.held)
      ensures !ok ==>
        && lent == old(lent) && ground.list.blocks == old(ground.list.blocks)
        && arenas[..] == old(arenas[..])
      ensures ok ==>
        lent == old(lent)[answer := ArenaFor(min)] && Noted(old(arenas[..]), Block(answer, ArenaFor(min)), arenas[..])
      ensures ok ==> forall x: nat :: Covered(ground.list.blocks, x) <==>
        Covered(old(ground.list.blocks), x) || In(Block(answer, ArenaFor(min)), x)
    {
      hide Partition, Headers, Covered, LentOk, Tracked, Kept, Undisturbed, ArenaFor, Noted, AllLive, GoodAnswer,
        HasWords, In;
      var want := ArenaFor(min);
      if answer == 0 || answer == WORD_LIMIT - 1 {
        KeptItself(ground.list.mem, ground.held);
        return false;
      }
      ghost var mem0, own0, held0, blocks0 := ground.list.mem, ground.own, ground.held, ground.list.blocks;
      ghost var b := Block(answer, want);
      LentBlock(answer, want, added, mem0, own0);
      NewArena(lent, own0, b);
      Track(Block(answer, want));
      ground.AddRegion(answer, want, added);
      LendKeeps(lent, own0, ground.own, b);
      lent := lent[answer := want];
      KeptFromMore(mem0, added, ground.list.mem, held0);
      HeadersKept(own0, blocks0, mem0, ground.list.mem, held0, held0);
      MoreWords(own0, ground.own, added, b);
      return true;
    }

    /** `take`: first fit, and the header. */
    method Take(need: nat, size: nat, align: nat) returns (r: Option<nat>)
      requires Valid() && align >= 8 && align % 8 == 0 && 16 + size + align <= need && need % 8 == 0
      modifies ground, ground.list
      ensures Valid() && (r.None? <==> NoFit(old(ground.list.blocks), need))
      ensures r.None? ==>
        && ground.held == old(ground.held)
        && ground.list.blocks == old(ground.list.blocks)
        && ground.list.mem == old(ground.list.mem)
        && ground.own == old(ground.own)
      ensures r.Some? ==> HandsOut(old(ground.held), ground.held, r.value, size, align)
      ensures r.Some? ==> CarvedOff(old(ground.list.blocks), need, ground.held[Live(r.value)], ground.list.blocks)
      ensures Kept(old(ground.list.mem), ground.list.mem, old(ground.held))
    {
      hide Partition, Headers, Covered, LentOk, Tracked, Kept, Undisturbed;
      ghost var mem0, own0, held0, blocks0 := ground.list.mem, ground.own, ground.held, ground.list.blocks;
      KeptItself(mem0, held0);
      r := ground.Carve(need, size, align);
      if r.Some? {
        UndisturbedIsKept(mem0, ground.list.mem, held0);
        HeadersKept(own0, blocks0, mem0, ground.list.mem, held0, held0);
        OneMoreHeader(ground.list.mem, held0, r.value, ground.held[Live(r.value)]);
      }
      SameLoan(lent, own0, ground.own);
    }

    /** Fails only if nothing fits and the kernel refuses to lend more. */
    method Alloc(
        size: nat, layoutAlign: nat, answer: nat, added: Memory) returns (r: Option<nat>, ghost mid: seq<Block>)
      requires Valid() && PowerOfTwo(layoutAlign)
      requires GoodAnswer(answer, ArenaFor(Need(size, Max(layoutAlign, 8))), added, ground.own)
      modifies this, ground, ground.list, arenas
      ensures Valid() && Kept(old(ground.list.mem), ground.list.mem, old(ground.held))
      ensures var need := Need(size, Max(layoutAlign, 8));
        && (r.None? <==> NoFit(old(ground.list.blocks), need) && Refused(answer))
        && (r.None? ==> ground.held == old(ground.held))
        && (if r.Some? && NoFit(old(ground.list.blocks), need)
            then lent == old(lent)[answer := ArenaFor(need)]
              && Noted(old(arenas[..]), Block(answer, ArenaFor(need)), arenas[..])
            else lent == old(lent) && arenas[..] == old(arenas[..]))
      ensures r.Some? ==>
        r.value % layoutAlign == 0 && HandsOut(old(ground.held), ground.held, r.value, size, Max(layoutAlign, 8))
      // first fit in the list, with the new arena joined to it if there is one
      ensures r.Some? ==> var need := Need(size, Max(layoutAlign, 8));
        && CarvedOff(mid, need, ground.held[Live(r.value)], ground.list.blocks)
        && (if NoFit(old(ground.list.blocks), need) then Joined(old(ground.list.blocks),
             Block(answer, ArenaFor(need)), mid)
            else mid == old(ground.list.blocks))
    {
      hide Partition, Headers, Covered, LentOk, Tracked, Kept, NoFit, HandsOut, PowerOfTwo;
      var align := Max(layoutAlign, 8);
      AlignOk(layoutAlign);
      var need := Need(size, align);
      mid := ground.list.blocks;
      r := Take(need, size, align);
      if r.None? {
        r, mid := GrowAndTake(need, size, align, answer, added);
      }
      if r.Some? {
        PointerAligned(ground.held, old(ground.held), r.value, size, layoutAlign);
      }
    }

    method GrowAndTake(need: nat, size: nat, align: nat, answer: nat, added: Memory) returns (r: Option<nat>,
        ghost mid: seq<Block>)
      requires Valid() && align >= 8 && align % 8 == 0 && 16 + size + align <= need && need % 8 == 0
      requires GoodAnswer(answer, ArenaFor(need), added, ground.own)
      modifies this, ground, ground.list, arenas
      ensures Valid() && (r.None? <==> Refused(answer)) && (r.None? ==> ground.held == old(ground.held))
      ensures lent == if r.Some? then old(lent)[answer := ArenaFor(need)] else old(lent)
      ensures if r.Some? then Noted(old(arenas[..]), Block(answer, ArenaFor(need)), arenas[..])
        else arenas[..] == old(arenas[..])
      ensures r.Some? ==> HandsOut(old(ground.held), ground.held, r.value, size, align)
      ensures r.Some? ==> Joined(old(ground.list.blocks), Block(answer, ArenaFor(need)), mid)
      ensures r.Some? ==> CarvedOff(mid, need, ground.held[Live(r.value)], ground.list.blocks)
      ensures Kept(old(ground.list.mem), ground.list.mem, old(ground.held))
    {
      hide Partition, Headers, Covered, LentOk, Tracked, Kept, NoFit, HandsOut, Linked, Backed, ArenaFor, Good, Apart,
        Coalesced, In;
      ghost var mem0, held0 := ground.list.mem, ground.held;
      r := None;
      var grown := Grow(need, answer, added);
      mid := ground.list.blocks;
      if grown {
        ghost var mem1 := ground.list.mem;
        ArenaFits(ground.list.blocks, answer, need);
        r := Take(need, size, align);
        KeptTrans(mem0, mem1, ground.list.mem, held0);
      }
    }

    /** Frees the block that the header names, and gives back arenas that are free. */
    method Dealloc(p: nat) returns (ghost freed: seq<Block>)
      requires Valid() && Live(p) in ground.held
      modifies this, ground, ground.list, arenas
      ensures Valid() && ground.held == old(ground.held) - {Live(p)}
      ensures Kept(old(ground.list.mem), ground.list.mem, ground.held)
      // the list with the block back in it, from which the empty arenas are then swept
      ensures Canonical(freed) && forall x: nat :: Covered(freed, x) <==>
        Covered(old(ground.list.blocks), x) || In(old(ground.held)[Live(p)], x)
      ensures Swept(old(arenas[..]), freed, old(lent), MAX_ARENAS, arenas[..], ground.list.blocks, lent)
      ensures forall a :: a in lent ==> a in old(lent) && lent[a] == old(lent)[a]
      ensures forall a :: a in old(lent) && a !in lent ==>
        forall x: nat :: In(Block(a, old(lent)[a]), x) ==>
          Covered(old(ground.list.blocks), x) || In(old(ground.held)[Live(p)], x)
    {
      hide Partition, Headers, Covered, LentOk, Tracked, Kept, Undisturbed;
      ghost var mem0, own0, held0, blocks0 := ground.list.mem, ground.own, ground.held, ground.list.blocks;
      HeaderNamesBlock(mem0, held0, p);
      var addr, size := ground.list.mem[p - 16], ground.list.mem[p - 8];
      ground.Release(p, addr, size);
      UndisturbedIsKept(mem0, ground.list.mem, ground.held);
      HeadersKept(own0, blocks0, mem0, ground.list.mem, held0, ground.held);
      SameLoan(lent, own0, ground.own);
      ghost var mem1, blocks1, a1, l1 := ground.list.mem, ground.list.blocks, arenas[..], lent;
      freed := blocks1;
      ReleaseEmptyArenas();
      KeptTrans(mem0, mem1, ground.list.mem, ground.held);
      SweptMeansFree(a1, blocks1, l1, arenas[..], ground.list.blocks, lent);
    }

    /** A program may write anything behind its pointer. */
    method Store(p: nat, w: nat, v: nat)
      requires Valid() && Live(p) in ground.held && Word(w)
        && p <= w < ground.held[Live(p)].addr + ground.held[Live(p)].size
      modifies ground.list`mem
      ensures Valid() && ground.list.mem == old(ground.list.mem)[w := v]
    {
      hide Partition, Covered, LentOk, Tracked, Kept, Undisturbed;
      ghost var mem0, held0 := ground.list.mem, ground.held;
      HeaderNamesBlock(mem0, held0, p);
      TenantWord(ground.own, held0, ground.list.blocks, Live(p), w);
      assert w in ground.own.Keys;
      ground.Poke(Live(p), w, v);
      UndisturbedIsKept(mem0, ground.list.mem, held0 - {Live(p)});
      HeadersKept(ground.own, ground.list.blocks, mem0, ground.list.mem, held0, held0 - {Live(p)});
      PayloadWrite(mem0, held0, p, w, v);
      WordsAgain(ground.own, mem0, w, v);
    }

    /** Looks for an arena that is one free block and gives it back. */
    method ReleaseSlot(j: nat)
      requires Valid() && j < arenas.Length
      modifies this, ground, ground.list, arenas
      ensures Valid() && ground.held == old(ground.held) && Kept(old(ground.list.mem), ground.list.mem, ground.held)
      ensures var a := old(arenas[j]);
        if a != EMPTY && a in old(ground.list.blocks)
        then arenas[..] == old(arenas[..])[j := EMPTY] && lent == old(lent) - {a.addr}
          && forall b :: b in ground.list.blocks <==> b in old(ground.list.blocks) && b != a
        else arenas[..] == old(arenas[..]) && lent == old(lent) && ground.list.blocks == old(ground.list.blocks)
    {
      hide Partition, Headers, Covered, LentOk, Kept, Linked, Backed, Coalesced;
      KeptItself(ground.list.mem, ground.held);
      var slot := arenas[j];
      if slot.addr == 0 {
        NoArenaAtZero(lent, ground.own, slot, arenas[..], j);
        return;
      }
      var prev, cur, k := ground.list.FindExact(slot.addr, slot.size);
      if cur == 0 {
        return;
      }
      ghost var mem0, own0, held0, blocks0, was := ground.list.mem, ground.own, ground.held, ground.list.blocks,
        arenas[..];
      assert was[j] == slot;
      ground.DropBlock(slot, prev, ground.list.mem[cur + 8], k);
      arenas[j] := EMPTY;
      assert arenas[..] == was[j := EMPTY];
      TrackedWithout(was, lent, j);
      ReturnKeeps(lent, own0, ground.own, slot.addr);
      lent := lent - {slot.addr};
      HeadersKept(own0, blocks0, mem0, ground.list.mem, held0, held0);
      SameWords(own0, mem0, ground.own, ground.list.mem, slot);
      forall b ensures b in ground.list.blocks <==> b in blocks0 && b != slot {
        RemovedElements(blocks0, k, b);
      }
    }

    /** Gives back every arena of the table that is one block of the free list, and no
        other; live blocks stay where they are. */
    method ReleaseEmptyArenas()
      requires Valid()
      modifies this, ground, ground.list, arenas
      ensures Valid() && ground.held == old(ground.held) && Kept(old(ground.list.mem), ground.list.mem, ground.held)
      ensures Swept(old(arenas[..]), old(ground.list.blocks), old(lent), MAX_ARENAS, arenas[..],
        ground.list.blocks, lent)
    {
      hide Partition, Headers, Covered, LentOk, Kept, Linked, Backed, Coalesced, Swept, Tracked;
      ghost var a0, b0, l0, mem0 := arenas[..], ground.list.blocks, lent, ground.list.mem;
      SweptStart(a0, b0, l0);
      KeptItself(mem0, ground.held);
      var j := 0;
      while j < arenas.Length
        invariant 0 <= j <= arenas.Length && Valid() && ground.held == old(ground.held) && |a0| == MAX_ARENAS
        invariant Kept(mem0, ground.list.mem, ground.held)
        invariant Swept(a0, b0, l0, j, arenas[..], ground.list.blocks, lent)
      {
        ghost var a1, b1, l1, mem1 := arenas[..], ground.list.blocks, lent, ground.list.mem;
        assert a1[j] == arenas[j];
        ReleaseSlot(j);
        KeptTrans(mem0, mem1, ground.list.mem, ground.held);
        if a1[j] != EMPTY && a1[j] in b1 {
          SweptReturns(a0, b0, l0, j, a1, b1, l1, ground.list.blocks);
        } else {
          SweptSkips(a0, b0, l0, j, a1, b1, l1);
        }
        j := j + 1;
      }
    }
  }

  /** List `after` is list `before` with block `b` joined to it. */
  ghost predicate Joined(before: seq<Block>, b: Block, after: seq<Block>) {
    Canonical(after) && forall x: nat :: Covered(after, x) <==> Covered(before, x) || In(b, x)
  }

  /** A request that no block can serve. */
  ghost predicate NoFit(blocks: seq<Block>, need: nat) {
    forall i :: 0 <= i < |blocks| ==> blocks[i].size < need
  }

  /** After an arena came in there is a block that is large enough. */
  lemma ArenaFits(blocks: seq<Block>, answer: nat, need: nat)
    requires Canonical(blocks) && forall x: nat :: In(Block(answer, ArenaFor(need)), x) ==> Covered(blocks, x)
    ensures !NoFit(blocks, need)
  {
    var i := OneBlockCovers(blocks, Block(answer, ArenaFor(need)));
    assert blocks[i].size >= need;
  }

  lemma KeptTrans(mem: Memory, mem1: Memory, mem2: Memory, held: Held)
    requires Kept(mem, mem1, held) && Kept(mem1, mem2, held)
    ensures Kept(mem, mem2, held)
  {
  }

  lemma NoArenaAtZero(lent: Lent, own: Owners, slot: Block, arenas: seq<Block>, j: nat)
    requires LentOk(lent, own) && Tracked(arenas, lent) && j < |arenas| && arenas[j] == slot && slot.addr == 0
    ensures slot == EMPTY
  {
    forall a | a in lent ensures a != 0 {
      assert GoodBlock(Block(a, lent[a]));
    }
  }

  /** One more pointer is in use, aligned and inside its block. */
  ghost predicate HandsOut(held: Held, held': Held, p: nat, size: nat, align: nat)
    requires align > 0
  {
    && Live(p) !in held && Live(p) in held' && held' == held[Live(p) := held'[Live(p)]]
    && Placed(held'[Live(p)], p, size, align)
  }

  lemma PointerAligned(held': Held, held: Held, p: nat, size: nat, layoutAlign: nat)
    requires PowerOfTwo(layoutAlign) && HandsOut(held, held', p, size, Max(layoutAlign, 8))
    ensures p % layoutAlign == 0
  {
    AlignedFor(p, layoutAlign, held'[Live(p)], size);
  }

  lemma OneMoreHeader(mem: Memory, held: Held, p: nat, b: Block)
    requires Headers(mem, held) && HeaderOk(mem, p, b)
    ensures Headers(mem, held[Live(p) := b])
  {
  }

  lemma HeaderNamesBlock(mem: Memory, held: Held, p: nat)
    requires Headers(mem, held) && Live(p) in held
    ensures HeaderOk(mem, p, held[Live(p)])
  {
  }

  lemma SameLoan(lent: Lent, own: Owners, own': Owners)
    requires LentOk(lent, own) && own'.Keys == own.Keys
    ensures LentOk(lent, own')
  {
    assert forall w :: w in own' <==> w in own'.Keys;
  }

  lemma PayloadWrite(mem: Memory, held: Held, p: nat, w: nat, v: nat)
    requires Headers(mem, held) && Live(p) in held && p <= w && Headers(mem[w := v], held - {Live(p)})
    ensures Headers(mem[w := v], held)
  {
    assert HeaderOk(mem, p, held[Live(p)]);
  }

  lemma WordsAgain(own: Owners, mem: Memory, w: nat, v: nat)
    requires mem.Keys == own.Keys && w in mem
    ensures mem[w := v].Keys == own.Keys
  {
  }

  /** What went back to the kernel was free to the last byte. */
  lemma SweptMeansFree(a0: seq<Block>, b0: seq<Block>, l0: Lent, arenas: seq<Block>, blocks: seq<Block>, lent: Lent)
    requires Swept(a0, b0, l0, |a0|, arenas, blocks, lent)
    ensures forall a :: a in lent ==> a in l0 && lent[a] == l0[a]
    ensures forall a, x: nat :: a in l0 && a !in lent && In(Block(a, l0[a]), x) ==> Covered(b0, x)
  {
  }

  /** An arena of the table goes back exactly when all of it is free and the bytes on
      both sides are not: a free neighbour keeps it here. */
  lemma ReturnedIff(
      a0: seq<Block>, b0: seq<Block>, l0: Lent, arenas: seq<Block>, blocks: seq<Block>, lent: Lent, a: nat)
    requires Swept(a0, b0, l0, |a0|, arenas, blocks, lent) && Canonical(b0)
    requires a in l0 && GoodBlock(Block(a, l0[a]))
    ensures a !in lent <==>
      && Block(a, l0[a]) in a0
      && (forall x: nat :: In(Block(a, l0[a]), x) ==> Covered(b0, x))
      && !Covered(b0, a - 1) && !Covered(b0, a + l0[a])
  {
    assert a0[..|a0|] == a0;
    BlockIffIsolated(b0, Block(a, l0[a]));
  }

  const LOW: nat := 0x10_0000
  const HIGH: nat := 0x12_0000

  /** The words that the kernel lends with an arena. */
  function Pages(a: nat): Memory { map w | a <= w < a + ARENA_SIZE && w % 8 == 0 :: 0 }

  lemma OneBlock(blocks: seq<Block>, b: Block)
    requires Canonical(blocks) && GoodBlock(b) && forall x: nat :: Covered(blocks, x) <==> In(b, x)
    ensures blocks == [b]
  {
    forall x: nat ensures Covered([b], x) <==> In(b, x) {
      assert In([b][0], x) == In(b, x);
    }
    CanonicalIsUnique(blocks, [b]);
  }

  lemma CarvedOffOne(b: Block, need: nat, c: Block, after: seq<Block>, x: nat)
    requires CarvedOff([b], need, c, after) && b.size >= need + NODE_SIZE
    ensures c == Block(b.addr, need) && (Covered(after, x) <==> b.addr + need <= x < b.addr + b.size)
  {
    assert In([b][0], x) == In(b, x);
  }

  lemma NeedIs(size: nat, want: nat)
    requires (size == 1000 && want == 1024) || (size == 130048 && want == 130072)
    ensures Need(size, 8) == want && ArenaFor(want) == ARENA_SIZE
  {
  }

  lemma FreshPages(lent: Lent, own: Owners, a: nat)
    requires LentOk(lent, own) && 0 < a < WORD_LIMIT - 1 && a % 4096 == 0
    requires forall b :: b in lent ==> b + lent[b] <= a || a + ARENA_SIZE <= b
    ensures GoodAnswer(a, ARENA_SIZE, Pages(a), own)
  {
    forall w | w in own ensures !In(Block(a, ARENA_SIZE), w) {
      var b :| b in lent && In(Block(b, lent[b]), w);
    }
  }

  lemma EightIsPower()
    ensures PowerOfTwo(8)
  {
    assert PowerOfTwo(1) && PowerOfTwo(2) && PowerOfTwo(4);
  }

  /** A list of one block that is no arena is left alone, and so is the loan. */
  lemma NothingSwept(a0: seq<Block>, f: Block, l0: Lent, arenas: seq<Block>, blocks: seq<Block>, lent: Lent)
    requires Swept(a0, [f], l0, |a0|, arenas, blocks, lent) && Tracked(a0, l0) && f != EMPTY
    requires !(f.addr in l0 && l0[f.addr] == f.size)
    ensures lent == l0 && forall x: nat :: Covered(blocks, x) <==> In(f, x)
  {
    assert a0[..|a0|] == a0 && f !in a0 && [f][0] == f && f in [f];
    forall x: nat ensures Covered(blocks, x) <==> In(f, x) {
      if In(f, x) {
        assert f in blocks;
        var i :| 0 <= i < |blocks| && blocks[i] == f;
        assert In(blocks[i], x);
      }
      if Covered(blocks, x) {
        var i :| 0 <= i < |blocks| && In(blocks[i], x);
        assert blocks[i] in blocks;
      }
    }
  }

  /** The first of the two allocations below takes the lower end of the lower arena. */
  method LowArena() returns (h: Heap, p: nat)
    ensures fresh(h) && fresh(h.ground) && fresh(h.ground.list) && fresh(h.arenas) && h.Valid()
    ensures h.ground.held == map[Live(p) := Block(LOW, 1024)] && h.lent == map[LOW := ARENA_SIZE]
    ensures h.ground.list.blocks == [Block(LOW + 1024, ARENA_SIZE - 1024)]
  {
    hide Partition, Headers, LentOk, Tracked, Kept, Linked, Backed, Noted, Swept, GoodAnswer, PowerOfTwo, Pages;
    h := new Heap();
    NeedIs(1000, 1024);
    EightIsPower();
    FreshPages(h.lent, h.ground.own, LOW);
    var r, mid := h.Alloc(1000, 8, LOW, Pages(LOW));
    p := r.value;
    NothingCovered();
    OneBlock(mid, Block(LOW, ARENA_SIZE));
    forall x: nat ensures Covered(h.ground.list.blocks, x) <==> In(Block(LOW + 1024, ARENA_SIZE - 1024), x) {
      CarvedOffOne(Block(LOW, ARENA_SIZE), 1024, h.ground.held[Live(p)], h.ground.list.blocks, x);
    }
    CarvedOffOne(Block(LOW, ARENA_SIZE), 1024, h.ground.held[Live(p)], h.ground.list.blocks, 0);
    OneBlock(h.ground.list.blocks, Block(LOW + 1024, ARENA_SIZE - 1024));
  }

  lemma NothingCovered()
    ensures forall x: nat :: !Covered([], x)
  {
  }

  lemma CoveredByOne(b: Block)
    ensures forall x: nat :: Covered([b], x) <==> In(b, x)
  {
    forall x: nat ensures Covered([b], x) <==> In(b, x) {
      assert In([b][0], x) == In(b, x);
    }
  }

  /** The second one is carved from the rest of the lower arena and the upper one. */
  method BothArenas() returns (h: Heap, p: nat, q: nat)
    ensures fresh(h) && fresh(h.ground) && fresh(h.ground.list) && fresh(h.arenas) && h.Valid() && p != q
    ensures h.ground.held == map[Live(p) := Block(LOW, 1024), Live(q) := Block(LOW + 1024, 130072)]
    ensures h.lent == map[LOW := ARENA_SIZE, HIGH := ARENA_SIZE]
    ensures h.ground.list.blocks == [Block(LOW + 131096, 2 * ARENA_SIZE - 131096)]
  {
    hide Partition, Headers, LentOk, Tracked, Kept, Linked, Backed, Noted, Swept, GoodAnswer, PowerOfTwo, Pages;
    h, p := LowArena();
    NeedIs(130048, 130072);
    EightIsPower();
    FreshPages(h.lent, h.ground.own, HIGH);
    CoveredByOne(Block(LOW + 1024, ARENA_SIZE - 1024));
    var r, mid := h.Alloc(130048, 8, HIGH, Pages(HIGH));
    q := r.value;
    var all := Block(LOW + 1024, 2 * ARENA_SIZE - 1024);
    OneBlock(mid, all);
    forall x: nat ensures Covered(h.ground.list.blocks, x) <==> In(Block(LOW + 131096, 2 * ARENA_SIZE - 131096), x) {
      CarvedOffOne(all, 130072, h.ground.held[Live(q)], h.ground.list.blocks, x);
    }
    CarvedOffOne(all, 130072, h.ground.held[Live(q)], h.ground.list.blocks, 0);
    OneBlock(h.ground.list.blocks, Block(LOW + 131096, 2 * ARENA_SIZE - 131096));
  }

  /** Two arenas side by side are lent for two allocations, and both are freed: all of
      both arenas is free in the end, and both are still on loan. */
  method FreeNeighboursStay() returns (h: Heap)
    ensures fresh(h) && h.Valid() && h.ground.held == map[]
    ensures LOW in h.lent && h.lent[LOW] == ARENA_SIZE && HIGH in h.lent && h.lent[HIGH] == ARENA_SIZE
      && HIGH == LOW + ARENA_SIZE
    ensures forall x: nat :: LOW <= x < HIGH + ARENA_SIZE ==> Covered(h.ground.list.blocks, x)
  {
    hide Partition, Headers, LentOk, Tracked, Kept, Linked, Backed, Noted, Swept, Covered;
    var p, q;
    h, p, q := BothArenas();
    CoveredByOne(Block(LOW + 131096, 2 * ARENA_SIZE - 131096));
    ghost var a0, l0 := h.arenas[..], h.lent;
    ghost var freed := h.Dealloc(q);
    OneBlock(freed, Block(LOW + 1024, 2 * ARENA_SIZE - 1024));
    NothingSwept(a0, freed[0], l0, h.arenas[..], h.ground.list.blocks, h.lent);
    a0 := h.arenas[..];
    freed := h.Dealloc(p);
    OneBlock(freed, Block(LOW, 2 * ARENA_SIZE));
    NothingSwept(a0, freed[0], l0, h.arenas[..], h.ground.list.blocks, h.lent);
  }

  lemma KeptItself(mem: Memory, held: Held)
    ensures Kept(mem, mem, held)
  {
  }

  lemma NewArena(lent: Lent, own: Owners, b: Block)
    requires LentOk(lent, own) && GoodBlock(b) && forall w :: w in own ==> !In(b, w)
    ensures b.addr !in lent
  {
    forall a | a in lent ensures a != b.addr {
      LendDisjoint(lent, own, b, a);
    }
  }
}
