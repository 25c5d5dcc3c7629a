/** The address-sorted, coalescing free list that both heaps are built on.  Its nodes
    live in the free blocks themselves: the first word of a block holds its size, the
    second the address of the next block, 0 ending the list.

    Memory is a map from the addresses of 8-byte words to their contents. */
module FreeLists {
  import opened Common

  type Memory = map<nat, nat>

  const NODE_SIZE: nat := 16

  datatype Block = Block(addr: nat, size: nat)

  predicate In(b: Block, x: nat) { b.addr <= x < b.addr + b.size }

  predicate GoodBlock(b: Block) { 0 < b.addr && b.addr % 8 == 0 && 16 <= b.size && b.size % 8 == 0 }

  predicate Before(b: Block, c: Block) { b.addr + b.size <= c.addr }

  ghost predicate Good(blocks: seq<Block>) {
    forall i :: 0 <= i < |blocks| ==> GoodBlock(blocks[i])
  }

  /** Sorted by address and disjoint. */
  ghost predicate Apart(blocks: seq<Block>) {
    forall i, j :: 0 <= i < j < |blocks| ==> Before(blocks[i], blocks[j])
  }

  predicate Gap(blocks: seq<Block>, i: nat)
    requires 0 < i < |blocks|
  {
    blocks[i - 1].addr + blocks[i - 1].size < blocks[i].addr
  }

  /** No block ends where the next begins. */
  ghost predicate Coalesced(blocks: seq<Block>) {
    forall i: nat :: 0 < i < |blocks| ==> Gap(blocks, i)
  }

  ghost predicate Canonical(blocks: seq<Block>) { Good(blocks) && Apart(blocks) && Coalesced(blocks) }

  ghost predicate Covered(blocks: seq<Block>, x: nat) {
    exists i :: 0 <= i < |blocks| && In(blocks[i], x)
  }

  /** `b` shares no byte with any of `blocks`. */
  ghost predicate Clear(blocks: seq<Block>, b: Block) {
    forall i :: 0 <= i < |blocks| ==> Before(blocks[i], b) || Before(b, blocks[i])
  }

  // ---- the list in memory ----

  /** Address of node `i`, or the null pointer past the end. */
  function At(blocks: seq<Block>, i: nat): nat { if i < |blocks| then blocks[i].addr else 0 }

  ghost predicate NodeOk(mem: Memory, blocks: seq<Block>, i: nat)
    requires i < |blocks|
  {
    var b := blocks[i];
    b.addr in mem && b.addr + 8 in mem && mem[b.addr] == b.size && mem[b.addr + 8] == At(blocks, i + 1)
  }

  ghost predicate Linked(mem: Memory, head: nat, blocks: seq<Block>) {
    head == At(blocks, 0) && forall i: nat :: i < |blocks| ==> NodeOk(mem, blocks, i)
  }

  // ---- surgery on the list ----

  function Spliced(blocks: seq<Block>, k: nat, b: Block): (r: seq<Block>)
    requires k <= |blocks|
  {
    blocks[..k] + [b] + blocks[k..]
  }

  lemma SpliceOrder(blocks: seq<Block>, k: nat, b: Block)
    requires Good(blocks) && Apart(blocks) && k <= |blocks| && GoodBlock(b)
    requires k > 0 ==> Before(blocks[k - 1], b)
    requires k < |blocks| ==> Before(b, blocks[k])
    ensures var r := Spliced(blocks, k, b); Good(r) && Apart(r)
  {
    var r := Spliced(blocks, k, b);
    forall i, j | 0 <= i < j < |r| ensures Before(r[i], r[j]) {
      assert i < k ==> i == k - 1 || Before(blocks[i], blocks[k - 1]);
      assert k < j ==> j == k + 1 || Before(blocks[k], blocks[j - 1]);
    }
  }

  lemma SpliceLinks(mem: Memory, head: nat, blocks: seq<Block>, k: nat, b: Block, mem': Memory)
    requires Linked(mem, head, blocks) && k <= |blocks| && Good(Spliced(blocks, k, b)) && Apart(Spliced(blocks, k, b))
    requires var m := mem[b.addr := b.size][b.addr + 8 := At(blocks, k)];
      mem' == if k == 0 then m else m[blocks[k - 1].addr + 8 := b.addr]
    ensures Linked(mem', if k == 0 then b.addr else head, Spliced(blocks, k, b))
  {
    var r := Spliced(blocks, k, b);
    forall i: nat | i < |r| ensures NodeOk(mem', r, i) {
      assert i < k ==> r[i] == blocks[i] && NodeOk(mem, blocks, i) && Before(r[i], r[k]);
      assert i > k ==> r[i] == blocks[i - 1] && NodeOk(mem, blocks, i - 1) && Before(r[k], r[i]);
      assert k > 0 && i < k - 1 ==> Before(r[i], r[k - 1]);
      assert k > 0 && i > k - 1 ==> Before(r[k - 1], r[i]);
    }
  }

  lemma SpliceCovers(blocks: seq<Block>, k: nat, b: Block, x: nat)
    requires k <= |blocks|
    ensures Covered(Spliced(blocks, k, b), x) <==> Covered(blocks, x) || In(b, x)
  {
    var r := Spliced(blocks, k, b);
    if Covered(r, x) {
      var j :| 0 <= j < |r| && In(r[j], x);
      assert if j < k then In(blocks[j], x) else if j > k then In(blocks[j - 1], x) else In(b, x);
    }
    if Covered(blocks, x) {
      var j :| 0 <= j < |blocks| && In(blocks[j], x);
      assert if j < k then In(r[j], x) else In(r[j + 1], x);
    }
    assert r[k] == b;
  }

  /** Blocks `i` and `i + 1` made one. */
  function Merged(blocks: seq<Block>, i: nat): seq<Block>
    requires i + 1 < |blocks|
  {
    blocks[..i] + [Block(blocks[i].addr, blocks[i].size + blocks[i + 1].size)] + blocks[i + 2..]
  }

  lemma MergeOrder(blocks: seq<Block>, i: nat)
    requires Good(blocks) && Apart(blocks) && i + 1 < |blocks| && blocks[i].addr + blocks[i].size == blocks[i + 1].addr
    ensures Good(Merged(blocks, i)) && Apart(Merged(blocks, i))
  {
    var r := Merged(blocks, i);
    forall p, q | 0 <= p < q < |r| ensures Before(r[p], r[q]) {
      var p', q' := if p < i then p else p + 1, if q <= i then q else q + 1;
      assert Before(blocks[p'], blocks[q']);
    }
    assert GoodBlock(blocks[i]) && GoodBlock(blocks[i + 1]);
  }

  lemma MergeLinks(mem: Memory, head: nat, blocks: seq<Block>, i: nat)
    requires Good(blocks) && Apart(blocks) && Linked(mem, head, blocks) && i + 1 < |blocks|
    ensures NodeOk(mem, blocks, i) && NodeOk(mem, blocks, i + 1)
    ensures var b, c := blocks[i], blocks[i + 1];
      Linked(mem[b.addr := b.size + c.size][b.addr + 8 := mem[c.addr + 8]], head, Merged(blocks, i))
  {
    var b, c, r := blocks[i], blocks[i + 1], Merged(blocks, i);
    assert NodeOk(mem, blocks, i) && NodeOk(mem, blocks, i + 1);
    var mem' := mem[b.addr := b.size + c.size][b.addr + 8 := mem[c.addr + 8]];
    forall j: nat | j < |r| ensures NodeOk(mem', r, j) {
      assert j < i ==> NodeOk(mem, blocks, j) && Before(blocks[j], b);
      assert j > i ==> NodeOk(mem, blocks, j + 1) && Before(b, blocks[j + 1]);
    }
  }

  lemma MergeCovers(blocks: seq<Block>, i: nat, x: nat)
    requires i + 1 < |blocks| && blocks[i].addr + blocks[i].size == blocks[i + 1].addr
    ensures Covered(Merged(blocks, i), x) <==> Covered(blocks, x)
  {
    var r := Merged(blocks, i);
    if Covered(r, x) {
      var j :| 0 <= j < |r| && In(r[j], x);
      assert if j < i then In(blocks[j], x)
        else if j > i then In(blocks[j + 1], x)
        else In(blocks[i], x) || In(blocks[i + 1], x);
    }
    if Covered(blocks, x) {
      var j :| 0 <= j < |blocks| && In(blocks[j], x);
      assert if j <= i then In(r[j], x) else In(r[j - 1], x);
    }
  }

  function Removed(blocks: seq<Block>, k: nat): seq<Block>
    requires k < |blocks|
  {
    blocks[..k] + blocks[k + 1..]
  }

  lemma RemoveOrder(blocks: seq<Block>, k: nat)
    requires Canonical(blocks) && k < |blocks|
    ensures Canonical(Removed(blocks, k))
  {
    var r := Removed(blocks, k);
    forall i: nat | 0 < i < |r| ensures Gap(r, i) {
      assert if i < k then Gap(blocks, i) else Gap(blocks, i + 1);
      assert i == k ==> Gap(blocks, k);
    }
  }

  lemma RemoveLinks(mem: Memory, head: nat, blocks: seq<Block>, k: nat)
    requires Good(blocks) && Apart(blocks) && Linked(mem, head, blocks) && k < |blocks|
    ensures NodeOk(mem, blocks, k)
    ensures var next := At(blocks, k + 1);
      if k == 0 then Linked(mem, next, Removed(blocks, k))
      else Linked(mem[blocks[k - 1].addr + 8 := next], head, Removed(blocks, k))
  {
    var r, next := Removed(blocks, k), At(blocks, k + 1);
    var mem' := if k == 0 then mem else mem[blocks[k - 1].addr + 8 := next];
    assert NodeOk(mem, blocks, k);
    forall i: nat | i < |r| ensures NodeOk(mem', r, i) {
      var j := if i < k then i else i + 1;
      assert r[i] == blocks[j] && NodeOk(mem, blocks, j);
      assert k > 0 && j < k - 1 ==> Before(blocks[j], blocks[k - 1]);
      assert k > 0 && j > k ==> Before(blocks[k - 1], blocks[j]);
    }
  }

  lemma RemoveCovers(blocks: seq<Block>, k: nat, x: nat)
    requires Apart(blocks) && k < |blocks|
    ensures Covered(Removed(blocks, k), x) <==> Covered(blocks, x) && !In(blocks[k], x)
  {
    var r := Removed(blocks, k);
    if Covered(r, x) {
      var j :| 0 <= j < |r| && In(r[j], x);
      assert j < k ==> In(blocks[j], x) && Before(blocks[j], blocks[k]);
      assert j >= k ==> In(blocks[j + 1], x) && Before(blocks[k], blocks[j + 1]);
    }
    if Covered(blocks, x) && !In(blocks[k], x) {
      var j :| 0 <= j < |blocks| && In(blocks[j], x);
      assert if j < k then In(r[j], x) else In(r[j - 1], x);
    }
  }

  // ---- insertion ----

  /** `b` put in at position `k` and joined with the neighbours it touches. */
  function Inserted(blocks: seq<Block>, k: nat, b: Block): seq<Block>
    requires k <= |blocks|
  {
    var s := Spliced(blocks, k, b);
    var t := if k < |blocks| && b.addr + b.size == blocks[k].addr then Merged(s, k) else s;
    if k > 0 && blocks[k - 1].addr + blocks[k - 1].size == b.addr then Merged(t, k - 1) else t
  }

  ghost predicate Fits(blocks: seq<Block>, k: nat, b: Block) {
    && k <= |blocks| && GoodBlock(b)
    && (k > 0 ==> Before(blocks[k - 1], b))
    && (k < |blocks| ==> Before(b, blocks[k]))
  }

  lemma InsertedOrder(blocks: seq<Block>, k: nat, b: Block)
    requires Canonical(blocks) && Fits(blocks, k, b)
    ensures Good(Inserted(blocks, k, b)) && Apart(Inserted(blocks, k, b))
  {
    hide Good, Apart;
    var s := Spliced(blocks, k, b);
    SpliceOrder(blocks, k, b);
    var t := if k < |blocks| && b.addr + b.size == blocks[k].addr then Merged(s, k) else s;
    if k < |blocks| && b.addr + b.size == blocks[k].addr {
      MergeOrder(s, k);
    }
    if k > 0 && blocks[k - 1].addr + blocks[k - 1].size == b.addr {
      MergeOrder(t, k - 1);
    }
  }

  lemma InsertedCovers(blocks: seq<Block>, k: nat, b: Block, x: nat)
    requires k <= |blocks|
    ensures Covered(Inserted(blocks, k, b), x) <==> Covered(blocks, x) || In(b, x)
  {
    hide Covered, In;
    var s := Spliced(blocks, k, b);
    SpliceCovers(blocks, k, b, x);
    var t := if k < |blocks| && b.addr + b.size == blocks[k].addr then Merged(s, k) else s;
    if k < |blocks| && b.addr + b.size == blocks[k].addr {
      MergeCovers(s, k, x);
    }
    if k > 0 && blocks[k - 1].addr + blocks[k - 1].size == b.addr {
      MergeCovers(t, k - 1, x);
    }
  }

  lemma SpliceGaps(blocks: seq<Block>, k: nat, b: Block)
    requires Coalesced(blocks) && k <= |blocks|
    ensures var s := Spliced(blocks, k, b);
      && (forall i: nat :: 0 < i < |s| && i != k && i != k + 1 ==> Gap(s, i))
      && (0 < k && blocks[k - 1].addr + blocks[k - 1].size < b.addr ==> Gap(s, k))
      && (k < |blocks| && b.addr + b.size < blocks[k].addr ==> Gap(s, k + 1))
  {
    var s := Spliced(blocks, k, b);
    forall i: nat | 0 < i < |s| && i != k && i != k + 1 ensures Gap(s, i) {
      assert if i < k then Gap(blocks, i) else Gap(blocks, i - 1);
    }
  }

  lemma MergeGaps(s: seq<Block>, i: nat, j: nat)
    requires i + 1 < |s| && s[i].addr + s[i].size == s[i + 1].addr && 0 < j < |s| - 1
    ensures Gap(Merged(s, i), j) == if j <= i then Gap(s, j) else Gap(s, j + 1)
  {
  }

  lemma InsertedCoalesced(blocks: seq<Block>, k: nat, b: Block)
    requires Coalesced(blocks) && Fits(blocks, k, b)
    ensures Coalesced(Inserted(blocks, k, b))
  {
    var s := Spliced(blocks, k, b);
    SpliceGaps(blocks, k, b);
    var t := if k < |blocks| && b.addr + b.size == blocks[k].addr then Merged(s, k) else s;
    forall j: nat | 0 < j < |t| && j != k ensures Gap(t, j) {
      if k < |blocks| && b.addr + b.size == blocks[k].addr {
        MergeGaps(s, k, j);
      }
    }
    if k > 0 && blocks[k - 1].addr + blocks[k - 1].size == b.addr {
      var u := Merged(t, k - 1);
      forall j: nat | 0 < j < |u| ensures Gap(u, j) {
        MergeGaps(t, k - 1, j);
      }
    } else if k > 0 && t != s {
      MergeGaps(s, k, k);
    }
  }

  /** Free bytes in a row lie in one block. */
  lemma OneBlockCovers(blocks: seq<Block>, b: Block) returns (i: nat)
    requires Canonical(blocks) && b.size > 0 && forall x: nat :: In(b, x) ==> Covered(blocks, x)
    ensures i < |blocks| && blocks[i].addr <= b.addr && b.addr + b.size <= blocks[i].addr + blocks[i].size
  {
    assert In(b, b.addr) && Covered(blocks, b.addr);
    i :| 0 <= i < |blocks| && In(blocks[i], b.addr);
    var end := blocks[i].addr + blocks[i].size;
    forall j | 0 <= j < |blocks| ensures !In(blocks[j], end) {
      assert j < i ==> Before(blocks[j], blocks[i]);
      assert i < j ==> Gap(blocks, i + 1) && (j == i + 1 || Before(blocks[i + 1], blocks[j]));
    }
    assert !Covered(blocks, end);
    assert !In(b, end);
  }

  /** A region is one block of the list exactly when all of it is free and the bytes
      on both sides of it are not. */
  lemma BlockIffIsolated(blocks: seq<Block>, b: Block)
    requires Canonical(blocks) && GoodBlock(b)
    ensures b in blocks <==>
      (forall x: nat :: In(b, x) ==> Covered(blocks, x)) && !Covered(blocks, b.addr - 1)
        && !Covered(blocks, b.addr + b.size)
  {
    if b in blocks {
      var i :| 0 <= i < |blocks| && blocks[i] == b;
      assert forall x: nat :: In(b, x) ==> Covered(blocks, x);
      forall j | 0 <= j < |blocks| ensures !In(blocks[j], b.addr - 1) && !In(blocks[j], b.addr + b.size) {
        assert j < i ==> Gap(blocks, i) && (j == i - 1 || Before(blocks[j], blocks[i - 1]));
        assert i < j ==> Gap(blocks, i + 1) && (j == i + 1 || Before(blocks[i + 1], blocks[j]));
      }
    } else if forall x: nat :: In(b, x) ==> Covered(blocks, x) {
      var i := OneBlockCovers(blocks, b);
      assert blocks[i] != b;
      assert In(blocks[i], b.addr - 1) || In(blocks[i], b.addr + b.size);
    }
  }

  /** The list is determined by the bytes it covers. */
  lemma {:induction false} CanonicalIsUnique(s: seq<Block>, t: seq<Block>)
    requires Canonical(s) && Canonical(t) && forall x: nat :: Covered(s, x) <==> Covered(t, x)
    ensures s == t
  {
    EmptyIffNothingCovered(s);
    EmptyIffNothingCovered(t);
    if s != [] {
      SameHead(s, t);
      forall x: nat ensures Covered(Removed(s, 0), x) <==> Covered(Removed(t, 0), x) {
        RemoveCovers(s, 0, x);
        RemoveCovers(t, 0, x);
      }
      RemoveOrder(s, 0);
      RemoveOrder(t, 0);
      CanonicalIsUnique(Removed(s, 0), Removed(t, 0));
      assert s == [s[0]] + Removed(s, 0) && t == [t[0]] + Removed(t, 0);
    }
  }

  lemma EmptyIffNothingCovered(s: seq<Block>)
    requires Good(s)
    ensures s == [] <==> forall x: nat :: !Covered(s, x)
  {
    if s != [] {
      assert In(s[0], s[0].addr);
      assert Covered(s, s[0].addr);
    }
  }

  /** The first block starts at the lowest covered byte and ends at the first gap. */
  lemma HeadIsLowest(s: seq<Block>, x: nat)
    requires Canonical(s) && s != []
    ensures Covered(s, s[0].addr) && !Covered(s, s[0].addr + s[0].size)
    ensures Covered(s, x) ==> s[0].addr <= x
    ensures In(s[0], x) ==> Covered(s, x)
  {
    assert In(s[0], s[0].addr);
    var end := s[0].addr + s[0].size;
    forall i | 0 <= i < |s| ensures !In(s[i], end) && (In(s[i], x) ==> s[0].addr <= x) {
      assert i > 0 ==> Before(s[0], s[i]) && Gap(s, 1);
      assert i > 1 ==> Before(s[1], s[i]);
    }
  }

  lemma SameHead(s: seq<Block>, t: seq<Block>)
    requires Canonical(s) && Canonical(t) && s != [] && t != [] && forall x: nat :: Covered(s, x) <==> Covered(t, x)
    ensures s[0] == t[0]
  {
    var a, b := s[0], t[0];
    HeadIsLowest(s, b.addr);
    HeadIsLowest(t, a.addr);
    HeadIsLowest(s, b.addr + b.size);
    HeadIsLowest(t, a.addr + a.size);
  }

  // ---- what the writes leave alone ----

  /** Only words of `blocks` may differ. */
  ghost predicate SameOutside(mem: Memory, mem': Memory, blocks: seq<Block>) {
    mem'.Keys == mem.Keys && forall w :: w in mem && !Covered(blocks, w) ==> mem'[w] == mem[w]
  }

  lemma WriteInside(mem: Memory, blocks: seq<Block>, i: nat, off: nat, v: nat)
    requires Good(blocks) && i < |blocks| && off < 16 && blocks[i].addr + off in mem
    ensures SameOutside(mem, mem[blocks[i].addr + off := v], blocks)
  {
    assert In(blocks[i], blocks[i].addr + off);
  }

  /** The words of free blocks exist. */
  ghost predicate Backed(mem: Memory, blocks: seq<Block>) {
    forall w: nat :: Covered(blocks, w) && w % 8 == 0 ==> w in mem
  }

  ghost predicate HasWords(mem: Memory, b: Block) {
    forall w: nat :: In(b, w) && w % 8 == 0 ==> w in mem
  }

  ghost predicate FirstFit(blocks: seq<Block>, need: nat, i: nat) {
    i < |blocks| && need <= blocks[i].size && forall j :: 0 <= j < i ==> blocks[j].size < need
  }

  /** What a successful take leaves: `b` starts the first block that is large enough,
      and keeps all of it when the rest could not hold a node. */
  ghost predicate Taken(blocks: seq<Block>, need: nat, b: Block, i: nat) {
    && FirstFit(blocks, need, i)
    && b == Block(blocks[i].addr, if blocks[i].size - need >= NODE_SIZE then need else blocks[i].size)
  }

  /** Block `b` is taken off the first fit, and exactly its bytes are free no more. */
  ghost predicate CarvedOff(before: seq<Block>, need: nat, b: Block, after: seq<Block>) {
    && (exists i: nat :: Taken(before, need, b, i))
    && forall x: nat :: Covered(after, x) <==> Covered(before, x) && !In(b, x)
  }

  lemma NothingWritten(mem: Memory, blocks: seq<Block>)
    ensures SameOutside(mem, mem, blocks)
  {
  }

  class FreeList {
    var mem: Memory
    var head: nat
    ghost var blocks: seq<Block>

    ghost predicate Valid()
      reads this
    {
      Canonical(blocks) && Linked(mem, head, blocks) && Backed(mem, blocks)
    }

    constructor (m: Memory)
      ensures Valid() && blocks == [] && mem == m
    {
      mem, head, blocks := m, 0, [];
    }

    /** The walk to the first node at or after `addr`. */
    method Seek(addr: nat) returns (prev: nat, cur: nat, ghost k: nat)
      requires Valid()
      ensures k <= |blocks| && cur == At(blocks, k) && prev == if k == 0 then 0 else blocks[k - 1].addr
      ensures forall i :: 0 <= i < k ==> blocks[i].addr < addr
      ensures forall i :: k <= i < |blocks| ==> addr <= blocks[i].addr
    {
      prev, cur, k := 0, head, 0;
      while cur != 0 && cur < addr
        invariant k <= |blocks| && cur == At(blocks, k) && prev == if k == 0 then 0 else blocks[k - 1].addr
        invariant forall i :: 0 <= i < k ==> blocks[i].addr < addr
        decreases |blocks| - k
      {
        assert NodeOk(mem, blocks, k);
        prev := cur;
        cur := mem[cur + 8];
        k := k + 1;
      }
      forall i | k <= i < |blocks| ensures addr <= blocks[i].addr {
        assert i == k || Before(blocks[k], blocks[i]);
      }
    }

    /** A well-formed list whose blocks may still touch. */
    ghost predicate Chained()
      reads this
    {
      Good(blocks) && Apart(blocks) && Linked(mem, head, blocks)
    }

    /** Writes a node and links it in between `prev` and `cur`. */
    method Link(addr: nat, size: nat, prev: nat, cur: nat, ghost k: nat)
      requires Chained() && Fits(blocks, k, Block(addr, size)) && addr in mem && addr + 8 in mem
      requires cur == At(blocks, k) && prev == if k == 0 then 0 else blocks[k - 1].addr
      modifies this
      ensures Chained() && blocks == Spliced(old(blocks), k, Block(addr, size)) && SameOutside(old(mem), mem, blocks)
    {
      hide Good, Apart;
      ghost var b := Block(addr, size);
      Edges(blocks, k);
      ghost var r, mem0, head0 := Spliced(blocks, k, b), mem, head;
      SpliceOrder(blocks, k, b);
      assert k > 0 ==> NodeOk(mem, blocks, k - 1);
      assert r[k] == b && (k > 0 ==> r[k - 1] == blocks[k - 1]);
      WriteInside(mem, r, k, 0, size);
      mem := mem[addr := size];
      WriteInside(mem, r, k, 8, cur);
      mem := mem[addr + 8 := cur];
      if prev == 0 {
        head := addr;
      } else {
        WriteInside(mem, r, k - 1, 8, addr);
        mem := mem[prev + 8 := addr];
      }
      SpliceLinks(mem0, head0, blocks, k, b, mem);
      blocks := r;
    }

    /** Joins a node with the one that follows it. */
    method Join(at: nat, next: nat, ghost i: nat)
      requires Chained() && i + 1 < |blocks| && at == blocks[i].addr && next == blocks[i + 1].addr
      requires blocks[i].addr + blocks[i].size == blocks[i + 1].addr
      modifies this
      ensures Chained() && blocks == Merged(old(blocks), i) && SameOutside(old(mem), mem, old(blocks))
    {
      MergeLinks(mem, head, blocks, i);
      MergeOrder(blocks, i);
      WriteInside(mem, blocks, i, 0, mem[at] + mem[next]);
      WriteInside(mem[at := mem[at] + mem[next]], blocks, i, 8, mem[next + 8]);
      assert at + 8 != next && at != next + 8 by { assert GoodBlock(blocks[i]); }
      mem := mem[at := mem[at] + mem[next]];
      mem := mem[at + 8 := mem[next + 8]];
      blocks := Merged(blocks, i);
    }

    /** Frees [addr, addr + size): the list covers exactly those bytes more. */
    method Insert(addr: nat, size: nat)
      requires Valid()
      requires size >= NODE_SIZE ==>
        GoodBlock(Block(addr, size)) && Clear(blocks, Block(addr, size)) && HasWords(mem, Block(addr, size))
      modifies this
      ensures Valid() && SameOutside(old(mem), mem, blocks)
      ensures size < NODE_SIZE ==> unchanged(this)
      ensures size >= NODE_SIZE ==> forall x: nat :: Covered(blocks, x) <==>
        Covered(old(blocks), x) || In(Block(addr, size), x)
    {
      hide Inserted, Covered, Linked, Coalesced, SameOutside;
      if size < NODE_SIZE {
        NothingWritten(mem, blocks);
        return;
      }
      assert In(Block(addr, size), addr) && In(Block(addr, size), addr + 8);
      var prev, cur, k := Seek(addr);
      ghost var b, blocks0, mem0 := Block(addr, size), blocks, mem;
      SeekFits(blocks, b, k);
      Link(addr, size, prev, cur, k);
      JoinBoth(addr, size, prev, cur, k, blocks0, mem0);
      forall x: nat ensures Covered(blocks, x) <==> Covered(blocks0, x) || In(b, x) {
        InsertedCovers(blocks0, k, b, x);
      }
      StillBacked(mem0, mem, blocks0, b, blocks);
    }

    /** Takes node `k` out of the list. */
    method Unlink(prev: nat, next: nat, ghost k: nat)
      requires Valid() && k < |blocks| && next == At(blocks, k + 1) && prev == if k == 0 then 0 else blocks[k - 1].addr
      modifies this
      ensures Valid() && blocks == Removed(old(blocks), k) && SameOutside(old(mem), mem, blocks)
      ensures forall x: nat :: Covered(blocks, x) <==> Covered(old(blocks), x) && !In(old(blocks)[k], x)
    {
      hide Good, Apart, Coalesced, Covered, SameOutside;
      ghost var r, mem0, blocks0 := Removed(blocks, k), mem, blocks;
      Edges(blocks, k);
      RemoveLinks(mem, head, blocks, k);
      RemoveOrder(blocks, k);
      SameOutsideItself(mem, r);
      if prev == 0 {
        head := next;
      } else {
        assert NodeOk(mem, blocks, k - 1);
        WriteInside(mem, r, k - 1, 8, next);
        mem := mem[prev + 8 := next];
      }
      blocks := r;
      forall x: nat ensures Covered(r, x) <==> Covered(blocks0, x) && !In(blocks0[k], x) {
        RemoveCovers(blocks0, k, x);
      }
    }

    /** First fit: the walk to the first block of at least `need` bytes. */
    method Find(need: nat) returns (prev: nat, cur: nat, ghost k: nat)
      requires Valid()
      ensures k <= |blocks| && cur == At(blocks, k) && prev == if k == 0 then 0 else blocks[k - 1].addr
      ensures cur == 0 <==> k == |blocks|
      ensures forall i :: 0 <= i < k ==> blocks[i].size < need
      ensures cur != 0 ==> FirstFit(blocks, need, k) && NodeOk(mem, blocks, k)
    {
      prev, cur, k := 0, head, 0;
      while cur != 0
        invariant k <= |blocks| && cur == At(blocks, k) && prev == if k == 0 then 0 else blocks[k - 1].addr
        invariant forall i :: 0 <= i < k ==> blocks[i].size < need
        decreases |blocks| - k
      {
        assert NodeOk(mem, blocks, k);
        if mem[cur] >= need {
          return;
        }
        prev := cur;
        cur := mem[cur + 8];
        k := k + 1;
      }
    }

    /** The walk to the node that is exactly [addr, addr + size). */
    method FindExact(addr: nat, size: nat) returns (prev: nat, cur: nat, ghost k: nat)
      requires Valid()
      ensures k <= |blocks| && cur == At(blocks, k) && prev == if k == 0 then 0 else blocks[k - 1].addr
      ensures cur == 0 <==> k == |blocks|
      ensures cur == 0 ==> Block(addr, size) !in blocks
      ensures cur != 0 ==> blocks[k] == Block(addr, size) && NodeOk(mem, blocks, k)
    {
      prev, cur, k := 0, head, 0;
      while cur != 0
        invariant k <= |blocks| && cur == At(blocks, k) && prev == if k == 0 then 0 else blocks[k - 1].addr
        invariant forall i :: 0 <= i < k ==> blocks[i] != Block(addr, size)
        decreases |blocks| - k
      {
        assert NodeOk(mem, blocks, k);
        if cur == addr && mem[cur] == size {
          return;
        }
        prev := cur;
        cur := mem[cur + 8];
        k := k + 1;
      }
    }

    /** Carves a block of at least `need` bytes out of the first one that is large
        enough; fails exactly when there is none. */
    method Take(need: nat) returns (r: Option<Block>)
      requires Valid() && 16 <= need && need % 8 == 0
      modifies this
      ensures Valid() && SameOutside(old(mem), mem, old(blocks))
      ensures r.None? <==> forall i :: 0 <= i < |old(blocks)| ==> old(blocks)[i].size < need
      ensures r.None? ==> blocks == old(blocks) && mem == old(mem)
      ensures r.Some? ==> GoodBlock(r.value) && CarvedOff(old(blocks), need, r.value, blocks)
    {
      hide Good, Apart, Coalesced, Covered, SameOutside, In, Backed, HasWords, Clear;
      var prev, cur, k := Find(need);
      SameOutsideItself(mem, blocks);
      if cur == 0 {
        return None;
      }
      ghost var blocks0, mem0 := blocks, mem;
      Edges(blocks, k);
      var total := mem[cur];
      Unlink(prev, mem[cur + 8], k);
      if total - need >= NODE_SIZE {
        ghost var mem1, blocks1 := mem, blocks;
        RestIsClear(mem0, mem1, blocks0, blocks1, k, need);
        Insert(cur + need, total - need);
        TakenCovers(blocks0, blocks1, blocks, k, need);
        OutsideTaken(mem0, mem1, mem, blocks0, blocks1, blocks, k);
        assert Taken(blocks0, need, Block(cur, need), k);
        return Some(Block(cur, need));
      } else {
        OutsideRemoved(mem0, mem, blocks0, blocks, k);
        assert Taken(blocks0, need, Block(cur, total), k);
        return Some(Block(cur, total));
      }
    }

    method JoinBoth(
        addr: nat, size: nat, prev: nat, cur: nat, ghost k: nat, ghost blocks0: seq<Block>, ghost mem0: Memory)
      requires Chained() && Canonical(blocks0) && Fits(blocks0, k, Block(addr, size))
        && blocks == Spliced(blocks0, k, Block(addr, size))
      requires cur == At(blocks0, k) && prev == (if k == 0 then 0 else blocks0[k - 1].addr)
        && SameOutside(mem0, mem, blocks)
      modifies this
      ensures Canonical(blocks) && Linked(mem, head, blocks) && SameOutside(mem0, mem, blocks)
      ensures blocks == Inserted(blocks0, k, Block(addr, size))
    {
      hide Good, Apart, Coalesced, SameOutside;
      ghost var b := Block(addr, size);
      Edges(blocks0, k);
      ghost var s, mem1 := blocks, mem;
      if cur != 0 && addr + size == cur {
        Join(addr, cur, k);
        OutsideMerged(mem0, mem1, mem, s, k);
      }
      ghost var t, mem2 := blocks, mem;
      assert k > 0 ==> NodeOk(mem, blocks, k - 1) && blocks[k - 1] == blocks0[k - 1];
      if prev != 0 && prev + mem[prev] == addr {
        Join(prev, addr, k - 1);
        OutsideMerged(mem0, mem2, mem, t, k - 1);
      }
      InsertedOrder(blocks0, k, b);
      InsertedCoalesced(blocks0, k, b);
    }
  }

  lemma Edges(blocks: seq<Block>, k: nat)
    requires Good(blocks) && k <= |blocks|
    ensures k < |blocks| ==> GoodBlock(blocks[k])
    ensures k > 0 ==> GoodBlock(blocks[k - 1])
  {
  }

  lemma OutsideMerged(mem0: Memory, mem1: Memory, mem2: Memory, s: seq<Block>, i: nat)
    requires SameOutside(mem0, mem1, s) && SameOutside(mem1, mem2, s)
    requires i + 1 < |s| && s[i].addr + s[i].size == s[i + 1].addr
    ensures SameOutside(mem0, mem2, Merged(s, i))
  {
    forall w: nat ensures Covered(Merged(s, i), w) <==> Covered(s, w) {
      MergeCovers(s, i, w);
    }
  }

  lemma SameOutsideItself(mem: Memory, blocks: seq<Block>)
    ensures SameOutside(mem, mem, blocks)
  {
  }

  lemma StillBacked(mem: Memory, mem': Memory, blocks: seq<Block>, b: Block, blocks': seq<Block>)
    requires Backed(mem, blocks) && HasWords(mem, b) && SameOutside(mem, mem', blocks')
    requires forall x: nat :: Covered(blocks', x) <==> Covered(blocks, x) || In(b, x)
    ensures Backed(mem', blocks')
  {
  }

  /** The rest of a split block is free to go back on the list. */
  lemma RestIsClear(mem: Memory, mem': Memory, blocks: seq<Block>, blocks': seq<Block>, k: nat, need: nat)
    requires Good(blocks) && Apart(blocks) && k < |blocks| && Backed(mem, blocks) && SameOutside(mem, mem', blocks')
    requires 16 <= need && need % 8 == 0 && blocks[k].size - need >= 16
    ensures var b := Block(blocks[k].addr + need, blocks[k].size - need);
      GoodBlock(b) && Clear(Removed(blocks, k), b) && HasWords(mem', b)
  {
    var b := Block(blocks[k].addr + need, blocks[k].size - need);
    forall w: nat | In(b, w) && w % 8 == 0 ensures w in mem' {
      assert In(blocks[k], w) && Covered(blocks, w);
    }
  }

  lemma TakenCovers(blocks: seq<Block>, blocks1: seq<Block>, blocks2: seq<Block>, k: nat, need: nat)
    requires k < |blocks| && need < blocks[k].size
    requires forall x: nat :: Covered(blocks1, x) <==> Covered(blocks, x) && !In(blocks[k], x)
    requires var b := Block(blocks[k].addr + need, blocks[k].size - need);
      forall x: nat :: Covered(blocks2, x) <==> Covered(blocks1, x) || In(b, x)
    ensures var b := Block(blocks[k].addr, need);
      forall x: nat :: Covered(blocks2, x) <==> Covered(blocks, x) && !In(b, x)
  {
    forall x: nat | In(blocks[k], x) ensures Covered(blocks, x) {}
  }

  lemma OutsideRemoved(mem: Memory, mem': Memory, blocks: seq<Block>, blocks': seq<Block>, k: nat)
    requires k < |blocks| && SameOutside(mem, mem', blocks')
    requires forall x: nat :: Covered(blocks', x) <==> Covered(blocks, x) && !In(blocks[k], x)
    ensures SameOutside(mem, mem', blocks)
  {
  }

  lemma OutsideTaken(mem: Memory, mem1: Memory, mem2: Memory, blocks: seq<Block>, blocks1: seq<Block>,
      blocks2: seq<Block>, k: nat)
    requires k < |blocks| && SameOutside(mem, mem1, blocks1) && SameOutside(mem1, mem2, blocks2)
    requires forall x: nat :: Covered(blocks1, x) <==> Covered(blocks, x) && !In(blocks[k], x)
    requires forall x: nat :: Covered(blocks2, x) ==> Covered(blocks, x)
    ensures SameOutside(mem, mem2, blocks)
  {
  }

  /** Writes outside the free blocks do not disturb the list. */
  lemma OutsideWrite(mem: Memory, head: nat, blocks: seq<Block>, w: nat, v: nat)
    requires Good(blocks) && Linked(mem, head, blocks) && Backed(mem, blocks) && !Covered(blocks, w)
    ensures Linked(mem[w := v], head, blocks) && Backed(mem[w := v], blocks)
  {
    var mem' := mem[w := v];
    forall i: nat | i < |blocks| ensures NodeOk(mem', blocks, i) {
      assert NodeOk(mem, blocks, i);
      assert In(blocks[i], blocks[i].addr) && In(blocks[i], blocks[i].addr + 8);
    }
  }

  lemma SeekFits(blocks: seq<Block>, b: Block, k: nat)
    requires Good(blocks) && Clear(blocks, b) && GoodBlock(b) && k <= |blocks|
    requires forall i :: 0 <= i < k ==> blocks[i].addr < b.addr
    requires forall i :: k <= i < |blocks| ==> b.addr <= blocks[i].addr
    ensures Fits(blocks, k, b)
  {
  }
}
