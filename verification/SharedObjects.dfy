/** The shared-memory system calls on the kernel's object table, the page tables and
    the frame allocator. */
module SharedObjects {
  import opened Common
  import opened PageTables
  import opened AddressSpaces
  import opened TableDemand
  import opened SharedMemory
  import PhysicalFrames

  datatype Rec = Rec(pid: nat, virt: nat)
  datatype Shm = Shm(id: nat, owner: nat, frames: seq<nat>, holders: seq<nat>, mappings: seq<Rec>)

  // ---- how the table stands for a view ----

  predicate HasPid(ms: seq<Rec>, pid: nat) { exists i :: 0 <= i < |ms| && ms[i].pid == pid }

  ghost predicate MappingsMatch(ms: seq<Rec>, maps: map<nat, nat>) {
    && (forall i, j :: 0 <= i < j < |ms| ==> ms[i].pid != ms[j].pid)
    && (forall i :: 0 <= i < |ms| ==> ms[i].pid in maps && maps[ms[i].pid] == ms[i].virt)
    && (forall p :: p in maps ==> HasPid(ms, p))
  }

  ghost predicate HoldersMatch(hs: seq<nat>, holders: set<nat>) {
    && (forall i, j :: 0 <= i < j < |hs| ==> hs[i] != hs[j])
    && (forall h :: h in hs <==> h in holders)
  }

  ghost predicate Represents(s: Shm, o: Obj) {
    && s.owner == o.owner && s.frames == o.frames
    && HoldersMatch(s.holders, o.holders) && MappingsMatch(s.mappings, o.maps)
  }

  predicate HasId(objects: seq<Shm>, id: nat) { exists i :: 0 <= i < |objects| && objects[i].id == id }

  ghost predicate TableMatches(objects: seq<Shm>, view: View) {
    && (forall i, j :: 0 <= i < j < |objects| ==> objects[i].id != objects[j].id)
    && (forall i :: 0 <= i < |objects| ==> objects[i].id in view && Represents(objects[i], view[objects[i].id]))
    && (forall id :: id in view ==> HasId(objects, id))
  }

  // ---- the free range search ----

  /** `size` bytes at `v` lie in the window, clear of the process's shared mappings and
      of everything else that is mapped. */
  ghost predicate Usable(view: View, space: Space, root: nat, pid: nat, pages: nat, v: nat) {
    && InWindow(v, pages)
    && (forall id :: id in view && pid in view[id].maps ==> !Overlap(v, pages, view[id].maps[pid], |view[id].frames|))
    && (forall k: nat :: k < pages ==> PageKey(root, v / 4096, k) !in space)
  }

  /** `pid` has no mapping of `o` that overlaps the candidate. */
  predicate Clear(o: Obj, pid: nat, candidate: nat, pages: nat) {
    pid in o.maps ==> !Overlap(candidate, pages, o.maps[pid], |o.frames|)
  }

  predicate HitAt(view: View, id: nat, pid: nat, candidate: nat, pages: nat, end: nat) {
    && id in view && pid in view[id].maps
    && Overlap(candidate, pages, view[id].maps[pid], |view[id].frames|)
    && end == view[id].maps[pid] + |view[id].frames| * 4096
  }

  /** Some overlapping mapping of `pid` ends at `end`. */
  ghost predicate Hit(view: View, pid: nat, candidate: nat, pages: nat, end: nat) {
    exists id :: HitAt(view, id, pid, candidate, pages, end)
  }

  /** No address below `end` is usable. */
  ghost predicate NoneBelow(view: View, space: Space, root: nat, pid: nat, pages: nat, end: nat) {
    forall v: nat :: v < end ==> !Usable(view, space, root, pid, pages, v)
  }

  /** Nothing in the window is usable, or the lowest address that is needs more table
      pages than there are. */
  ghost predicate CannotMap(view: View, space: Space, m: Tables, supply: nat, root: nat, pid: nat, pages: nat) {
    || (forall v: nat :: !Usable(view, space, root, pid, pages, v))
    || (exists v: nat :: Usable(view, space, root, pid, pages, v) && NoneBelow(view, space, root, pid, pages, v)
                         && supply < Needed(m, root, v / 4096, pages))
  }

  lemma NowhereToMap(view: View, space: Space, m: Tables, supply: nat, root: nat, pid: nat, pages: nat)
    requires forall v: nat :: !Usable(view, space, root, pid, pages, v)
    ensures CannotMap(view, space, m, supply, root, pid, pages)
  {
  }

  /** The lowest usable address is one. */
  lemma CannotMapAt(view: View, space: Space, m: Tables, supply: nat, root: nat, pid: nat, pages: nat, v: nat)
    requires Usable(view, space, root, pid, pages, v) && NoneBelow(view, space, root, pid, pages, v)
    ensures CannotMap(view, space, m, supply, root, pid, pages) <==> supply < Needed(m, root, v / 4096, pages)
  {
    hide Needed, Usable;
    if w: nat :| Usable(view, space, root, pid, pages, w) && NoneBelow(view, space, root, pid, pages, w) {
      assert w == v;
    }
  }

  /** An overlapping mapping rules out every address up to its end, so the jump there
      skips nothing. */
  lemma JumpSkipsNothing(view: View, space: Space, root: nat, pid: nat, pages: nat, candidate: nat, end: nat)
    requires NoneBelow(view, space, root, pid, pages, candidate) && Hit(view, pid, candidate, pages, end)
    ensures NoneBelow(view, space, root, pid, pages, end)
  {
    var id :| HitAt(view, id, pid, candidate, pages, end);
    forall v: nat | candidate <= v < end ensures !Usable(view, space, root, pid, pages, v) {
      assert Overlap(v, pages, view[id].maps[pid], |view[id].frames|);
    }
  }

  lemma HitEndAligned(view: View, nextId: nat, roots: Roots, space: Space, fr: Frames, pid: nat, candidate: nat,
      pages: nat, end: nat)
    requires Inv(view, nextId, roots, space, fr) && Hit(view, pid, candidate, pages, end)
    ensures end % 4096 == 0 && candidate < end <= SHM_LIMIT
  {
    var id :| HitAt(view, id, pid, candidate, pages, end);
    assert InWindow(view[id].maps[pid], |view[id].frames|);
  }

  lemma BumpSkipsNothing(view: View, space: Space, root: nat, pid: nat, pages: nat, candidate: nat)
    requires NoneBelow(view, space, root, pid, pages, candidate) && candidate % 4096 == 0
    requires !Usable(view, space, root, pid, pages, candidate)
    ensures NoneBelow(view, space, root, pid, pages, candidate + 4096)
  {
    forall v: nat | candidate < v < candidate + 4096 ensures !Usable(view, space, root, pid, pages, v) {
      assert v % 4096 != 0;
    }
  }

  // ---- Vec operations ----

  /** `Vec::swap_remove`: the last element takes the place of element `i`. */
  function SwapRemove<T>(s: seq<T>, i: nat): (r: seq<T>)
    requires i < |s|
    ensures |r| == |s| - 1
    ensures forall k :: 0 <= k < |r| ==> r[k] == if k == i then s[|s| - 1] else s[k]
  {
    if i == |s| - 1 then s[..i] else s[i := s[|s| - 1]][..|s| - 1]
  }

  lemma SwapRemoveMapping(ms: seq<Rec>, i: nat, maps: map<nat, nat>)
    requires MappingsMatch(ms, maps) && i < |ms|
    ensures MappingsMatch(SwapRemove(ms, i), maps - {ms[i].pid})
  {
    var r := SwapRemove(ms, i);
    forall p | p in maps - {ms[i].pid} ensures HasPid(r, p) {
      assert HasPid(ms, p);
      var j :| 0 <= j < |ms| && ms[j].pid == p;
      assert r[if j == |ms| - 1 then i else j].pid == p;
    }
  }

  lemma SwapRemoveHolder(hs: seq<nat>, i: nat, holders: set<nat>)
    requires HoldersMatch(hs, holders) && i < |hs|
    ensures HoldersMatch(SwapRemove(hs, i), holders - {hs[i]})
  {
    var r := SwapRemove(hs, i);
    forall h | h in holders - {hs[i]} ensures h in r {
      var j :| 0 <= j < |hs| && hs[j] == h;
      assert r[if j == |hs| - 1 then i else j] == h;
    }
  }

  /** `holders.retain(|h| h != x)` */
  function Without(hs: seq<nat>, x: nat): seq<nat> {
    if hs == [] then [] else Without(hs[..|hs| - 1], x) + if hs[|hs| - 1] == x then [] else [hs[|hs| - 1]]
  }

  lemma {:induction false} WithoutHolder(hs: seq<nat>, x: nat, holders: set<nat>)
    requires HoldersMatch(hs, holders)
    ensures HoldersMatch(Without(hs, x), holders - {x})
  {
    if hs != [] {
      var n := |hs| - 1;
      WithoutHolder(hs[..n], x, holders - {hs[n]});
      if hs[n] == x {
        assert Without(hs, x) == Without(hs[..n], x);
        assert holders - {hs[n]} - {x} == holders - {x};
      } else {
        assert holders - {x} == (holders - {hs[n]} - {x}) + {hs[n]};
      }
    }
  }

  // ---- changing one row of the table ----

  lemma AppendRow(objects: seq<Shm>, view: View, s: Shm, o: Obj)
    requires TableMatches(objects, view) && s.id !in view && Represents(s, o)
    ensures TableMatches(objects + [s], view[s.id := o])
  {
    var objects' := objects + [s];
    var view' := view[s.id := o];
    forall id | id in view' ensures HasId(objects', id) {
      if id == s.id {
        assert objects'[|objects|].id == id;
      } else {
        assert HasId(objects, id);
        var i :| 0 <= i < |objects| && objects[i].id == id;
        assert objects'[i].id == id;
      }
    }
  }

  lemma UpdateRow(objects: seq<Shm>, view: View, i: nat, s: Shm, o: Obj)
    requires TableMatches(objects, view) && i < |objects| && s.id == objects[i].id && Represents(s, o)
    ensures TableMatches(objects[i := s], view[s.id := o])
  {
    var view', objects' := view[s.id := o], objects[i := s];
    forall id | id in view' ensures HasId(objects', id) {
      assert HasId(objects, id);
      var j :| 0 <= j < |objects| && objects[j].id == id;
      assert objects'[j].id == id;
    }
  }

  lemma RemoveRow(objects: seq<Shm>, view: View, i: nat)
    requires TableMatches(objects, view) && i < |objects|
    ensures TableMatches(SwapRemove(objects, i), view - {objects[i].id})
  {
    var objects' := SwapRemove(objects, i);
    forall id | id in view - {objects[i].id} ensures HasId(objects', id) {
      assert HasId(objects, id);
      var j :| 0 <= j < |objects| && objects[j].id == id;
      assert objects'[if j == |objects| - 1 then i else j].id == id;
    }
  }

  class SharedTable {
    var objects: seq<Shm>
    var nextId: nat
    const paging: Paging
    const pmm: PhysicalFrames.FrameAllocator
    /** The address space of every process. */
    const roots: Roots
    ghost var view: View

    ghost function Managed(): Frames
      reads this, pmm
    {
      Frames(pmm.Free(), pmm.total)
    }

    ghost predicate Valid()
      reads this, paging, pmm, pmm.bitmap
    {
      Around() && TableMatches(objects, view) && Inv(view, nextId, roots, paging.space, Managed())
    }

    /** What the table relies on: the page tables, the allocator and the processes. */
    ghost predicate Around()
      reads this, paging, pmm, pmm.bitmap
    {
      && paging.Valid() && pmm.Valid() && pmm.total <= 0x100_0000_0000
      && (forall p :: p in roots ==> Root(paging.trees, roots[p]))
    }

    /** Installs a new table whose validity is known. */
    method Commit(rows: seq<Shm>, ghost v: View)
      requires Around() && TableMatches(rows, v) && Inv(v, nextId, roots, paging.space, Managed())
      modifies this`objects, this`view
      ensures Valid() && objects == rows && view == v
    {
      ghost var fr := Managed();
      objects := rows;
      view := v;
      assert Managed() == fr;
    }

    constructor (paging: Paging, pmm: PhysicalFrames.FrameAllocator, roots: Roots)
      requires paging.Valid() && pmm.Valid() && pmm.total <= 0x100_0000_0000
      requires Injective(roots) && forall p :: p in roots ==> Root(paging.trees, roots[p])
      requires forall key :: key in paging.space ==>
        paging.space[key].frame % 4096 == 0 && paging.space[key].frame / 4096 !in pmm.Free()
      ensures Valid() && this.paging == paging && this.pmm == pmm && this.roots == roots
      ensures view == map[] && nextId == 1
    {
      this.paging, this.pmm, this.roots := paging, pmm, roots;
      objects, nextId, view := [], 1, map[];
    }

    /** The inner loop of the overlap search, over the mappings of one object. */
    method RowEnd(shm: Shm, pid: nat, candidate: nat, pages: nat, found: Option<nat>) returns (next: Option<nat>)
      requires shm.id in view && Represents(shm, view[shm.id])
      requires found.Some? ==> Hit(view, pid, candidate, pages, found.value)
      ensures next.None? ==> found.None? && Clear(view[shm.id], pid, candidate, pages)
      ensures next.Some? ==> Hit(view, pid, candidate, pages, next.value)
    {
      next := found;
      var j := 0;
      while j < |shm.mappings|
        invariant 0 <= j <= |shm.mappings|
        invariant next.None? ==> found.None? && forall b :: 0 <= b < j && shm.mappings[b].pid == pid ==>
          !Overlap(candidate, pages, shm.mappings[b].virt, |shm.frames|)
        invariant next.Some? ==> Hit(view, pid, candidate, pages, next.value)
      {
        var mapping := shm.mappings[j];
        var mappedEnd := mapping.virt + |shm.frames| * 4096;
        if mapping.pid == pid && candidate < mappedEnd && mapping.virt < candidate + pages * 4096 {
          assert HitAt(view, shm.id, pid, candidate, pages, mappedEnd);
          next := Some(if next.Some? && next.value > mappedEnd then next.value else mappedEnd);
        }
        j := j + 1;
      }
      assert pid in view[shm.id].maps ==> HasPid(shm.mappings, pid);
    }

    /** The largest end of a mapping of `pid` that overlaps the candidate. */
    method OverlapEnd(pid: nat, candidate: nat, pages: nat) returns (next: Option<nat>)
      requires TableMatches(objects, view)
      ensures next.None? ==> forall id :: id in view ==> Clear(view[id], pid, candidate, pages)
      ensures next.Some? ==> Hit(view, pid, candidate, pages, next.value)
    {
      next := None;
      var i := 0;
      while i < |objects|
        invariant 0 <= i <= |objects|
        invariant next.None? ==> forall a :: 0 <= a < i ==> Clear(view[objects[a].id], pid, candidate, pages)
        invariant next.Some? ==> Hit(view, pid, candidate, pages, next.value)
      {
        next := RowEnd(objects[i], pid, candidate, pages, next);
        i := i + 1;
      }
      forall id | id in view && next.None? ensures Clear(view[id], pid, candidate, pages) {
        assert HasId(objects, id);
      }
    }

    /** Is any page of the candidate range mapped? */
    method AnyMapped(cr3: nat, candidate: nat, pages: nat) returns (busy: bool)
      requires Valid() && Root(paging.trees, cr3) && InWindow(candidate, pages)
      ensures busy <==> exists k: nat :: k < pages && PageKey(cr3, candidate / 4096, k) in paging.space
    {
      var k := 0;
      while k < pages
        invariant 0 <= k <= pages
        invariant forall j: nat :: j < k ==> PageKey(cr3, candidate / 4096, j) !in paging.space
      {
        assert (candidate + k * 4096) / 4096 == candidate / 4096 + k;
        var t := paging.Translate(cr3, candidate + k * 4096);
        if t.Some? {
          assert PageKey(cr3, candidate / 4096, k) in paging.space;
          return true;
        }
        k := k + 1;
      }
      return false;
    }

    /** `find_free_range`: the lowest usable address, and `None` only if there is none. */
    method FindFreeRange(pid: nat, cr3: nat, pages: nat) returns (r: Option<nat>)
      requires Valid() && Root(paging.trees, cr3)
      ensures r.Some? ==> Usable(view, paging.space, cr3, pid, pages, r.value)
      ensures r.Some? ==> NoneBelow(view, paging.space, cr3, pid, pages, r.value)
      ensures r.None? ==> forall v: nat :: !Usable(view, paging.space, cr3, pid, pages, v)
    {
      var candidate := SHM_BASE;
      while true
        invariant candidate % 4096 == 0 && SHM_BASE <= candidate
        invariant NoneBelow(view, paging.space, cr3, pid, pages, candidate)
        decreases SHM_LIMIT - candidate
      {
        if candidate + pages * 4096 > SHM_LIMIT {
          return None;
        }
        var next := OverlapEnd(pid, candidate, pages);
        if next.Some? {
          JumpSkipsNothing(view, paging.space, cr3, pid, pages, candidate, next.value);
          assert next.value % 4096 == 0 && candidate < next.value <= SHM_LIMIT by {
            HitEndAligned(view, nextId, roots, paging.space, Managed(), pid, candidate, pages, next.value);
          }
          candidate := next.value;
        } else {
          var busy := AnyMapped(cr3, candidate, pages);
          if !busy {
            return Some(candidate);
          }
          BumpSkipsNothing(view, paging.space, cr3, pid, pages, candidate);
          candidate := candidate + 4096;
        }
      }
    }

    /** `iter().position(|shm| shm.id == id)` */
    method Position(id: nat) returns (i: Option<nat>)
      requires TableMatches(objects, view)
      ensures i.None? <==> id !in view
      ensures i.Some? ==> i.value < |objects| && objects[i.value].id == id
    {
      var k := 0;
      while k < |objects|
        invariant 0 <= k <= |objects|
        invariant forall a :: 0 <= a < k ==> objects[a].id != id
      {
        if objects[k].id == id {
          return Some(k);
        }
        k := k + 1;
      }
      assert id in view ==> HasId(objects, id);
      return None;
    }

    /** What is known of the object in row `i`. */
    lemma Row(i: nat)
      requires Valid() && i < |objects|
      ensures objects[i].id in view
      ensures var o := view[objects[i].id];
        && Represents(objects[i], o) && ObjOk(o, roots)
        && forall k: nat :: k < |o.frames| ==> GoodFrame(o.frames[k], Managed())
    {
    }

    /** `unmap_holder`: takes the mapping of one process away. */
    method UnmapHolder(id: nat, pid: nat) returns (r: Option<nat>)
      requires Valid() && pid in roots
      modifies this`objects, this`view, paging`tables, paging`space
      ensures Valid() && SameRows(old(objects), objects)
      ensures r.Some? <==> id in old(view) && pid in old(view)[id].maps
      ensures r.Some? ==> r.value == |old(view)[id].frames| * 4096
      ensures Unmapped(old(view), view, old(paging.space), paging.space, roots, id, pid)
    {
      hide Inv, TableMatches;
      var i := Position(id);
      if i.None? {
        return None;
      }
      Row(i.value);
      var shm := objects[i.value];
      ghost var o := view[id];
      var j := MappingIndex(shm.mappings, pid, o.maps);
      if j.None? {
        return None;
      }
      var mapping := shm.mappings[j.value];
      UnmapRow(objects, view, i.value, j.value);
      UnmapKeepsInv(view, nextId, roots, paging.space, Managed(), id, pid);
      assert InWindow(o.maps[pid], |o.frames|);
      CommitUnmap(objects[i.value := DropMapping(shm, j.value)], view[id := o.(maps := o.maps - {pid})],
                  pid, mapping.virt, |shm.frames|);
      return Some(|shm.frames| * 4096);
    }

    method CommitUnmap(rows: seq<Shm>, ghost v: View, pid: nat, virt: nat, pages: nat)
      requires Around()
      requires TableMatches(rows, v) && pid in roots && InWindow(virt, pages)
      requires Inv(v, nextId, roots, DropRange(paging.space, roots[pid], virt / 4096, pages), Managed())
      modifies this`objects, this`view, paging`tables, paging`space
      ensures Valid() && objects == rows && view == v
      ensures paging.space == DropRange(old(paging.space), roots[pid], virt / 4096, pages)
    {
      hide Inv, TableMatches, Loose;
      ghost var fr := Managed();
      paging.UnmapRange(roots[pid], virt, pages * 4096);
      assert Managed() == fr;
      Commit(rows, v);
    }

    method GiveFirst(frames: seq<nat>)
      requires Valid() && frames != [] && Loose(frames, view, paging.space, Managed())
      modifies pmm`used, pmm`log, pmm.bitmap
      ensures Valid() && pmm.Free() == old(pmm.Free()) + {frames[0] / 4096}
      ensures Loose(frames[1..], view, paging.space, Managed())
    {
      hide Inv, TableMatches, Loose;
      FreeKeepsInv(view, nextId, roots, paging.space, Managed(), frames);
      FirstIsGood(frames, view, paging.space, Managed());
      pmm.FreeFrame(frames[0]);
    }

    /** Returns loose frames to the allocator. */
    method GiveBack(frames: seq<nat>)
      requires Valid() && Loose(frames, view, paging.space, Managed())
      modifies pmm`used, pmm`log, pmm.bitmap
      ensures Valid() && pmm.Free() == old(pmm.Free()) + Numbers(frames)
    {
      hide Inv, TableMatches, Loose, Numbers;
      var i := 0;
      assert frames[0..] == frames && frames[..0] == [];
      NothingTaken(view, paging.space, Managed());
      while i < |frames|
        invariant 0 <= i <= |frames|
        invariant Valid() && Loose(frames[i..], view, paging.space, Managed())
        invariant pmm.Free() == old(pmm.Free()) + Numbers(frames[..i])
      {
        NumbersGrow(frames, i);
        assert frames[i..][1..] == frames[i + 1..] && frames[i..][0] == frames[i];
        GiveFirst(frames[i..]);
        i := i + 1;
      }
      assert frames[..i] == frames;
    }

    /** The allocation loop of `create`, with its roll-back. */
    method TakeFrames(pages: nat) returns (r: Option<seq<nat>>)
      requires Valid()
      modifies pmm`nextFrame, pmm`used, pmm`log, pmm.bitmap
      ensures Valid()
      ensures r.None? <==> |old(pmm.Free())| < pages
      ensures r.None? ==> pmm.Free() == old(pmm.Free())
      ensures r.Some? ==> |r.value| == pages && Loose(r.value, view, paging.space, Managed())
      ensures r.Some? ==> Numbers(r.value) <= old(pmm.Free()) && pmm.Free() == old(pmm.Free()) - Numbers(r.value)
    {
      hide Inv, TableMatches, Loose, Numbers;
      NothingTaken(view, paging.space, Managed());
      var frames := [];
      while |frames| < pages
        invariant |frames| <= pages && Valid() && Loose(frames, view, paging.space, Managed())
        invariant Numbers(frames) <= old(pmm.Free()) && pmm.Free() == old(pmm.Free()) - Numbers(frames)
      {
        var f := TakeFrame(frames);
        if f.None? {
          AllTaken(frames, view, paging.space, Managed(), old(pmm.Free()));
          GiveBack(frames);
          TakenBack(old(pmm.Free()), Numbers(frames));
          return None;
        }
        OneMoreTaken(old(pmm.Free()), Numbers(frames), f.value / 4096);
        frames := frames + [f.value];
      }
      AllTaken(frames, view, paging.space, Managed(), old(pmm.Free()));
      return Some(frames);
    }

    method TakeFrame(ghost frames: seq<nat>) returns (f: Option<nat>)
      requires Valid() && Loose(frames, view, paging.space, Managed())
      modifies pmm`nextFrame, pmm`used, pmm`log, pmm.bitmap
      ensures Valid()
      ensures f.None? <==> old(pmm.Free()) == {}
      ensures f.None? ==> pmm.Free() == old(pmm.Free()) && Loose(frames, view, paging.space, Managed())
      ensures f.Some? ==> var n := f.value / 4096;
        && n in old(pmm.Free()) && pmm.Free() == old(pmm.Free()) - {n}
        && Numbers(frames + [f.value]) == Numbers(frames) + {n}
        && Loose(frames + [f.value], view, paging.space, Managed())
    {
      hide Inv, TableMatches;
      ghost var fr := Managed();
      f := pmm.AllocFrame();
      if f.Some? {
        TakeKeepsInv(view, nextId, roots, paging.space, fr, frames, f.value / 4096);
        NumbersGrow(frames + [f.value], |frames|);
        assert (frames + [f.value])[..|frames|] == frames;
        assert (frames + [f.value])[..|frames| + 1] == frames + [f.value];
      }
    }

    // ---- the system calls ----

    method Create(pid: nat, size: nat) returns (r: Option<nat>)
      requires Valid()
      modifies this`objects, this`view, this`nextId, pmm`nextFrame, pmm`used, pmm`log, pmm.bitmap
      ensures Valid()
      ensures r.None? <==>
        || size == 0 || size > MAX_SIZE || old(nextId) + 1 >= WORD_LIMIT
        || |old(pmm.Free())| < PagesOf(size)
      ensures r.None? ==> view == old(view) && pmm.Free() == old(pmm.Free())
      ensures r.Some? ==>
        && 0 < size <= MAX_SIZE && r.value == old(nextId) && r.value !in old(view) && r.value in view
        && var frames := view[r.value].frames;
        && |frames| == PagesOf(size)
        && view == old(view)[r.value := Obj(pid, frames, {pid}, map[])]
        && Numbers(frames) <= old(pmm.Free()) && pmm.Free() == old(pmm.Free()) - Numbers(frames)
    {
      hide Inv, TableMatches, Loose;
      if size == 0 || size > MAX_SIZE || nextId + 1 >= WORD_LIMIT {
        return None;
      }
      var id := nextId;
      FreshId(view, id, roots, paging.space, Managed());
      nextId := nextId + 1;
      var frames := TakeFrames((size + 4095) / 4096);
      if frames.None? {
        return None;
      }
      CreateKeepsInv(view, id, roots, paging.space, Managed(), frames.value, pid);
      AppendRow(objects, view, Shm(id, pid, frames.value, [pid], []), Obj(pid, frames.value, {pid}, map[]));
      Commit(objects + [Shm(id, pid, frames.value, [pid], [])], view[id := Obj(pid, frames.value, {pid}, map[])]);
      return Some(id);
    }

    /** `live` says whether the target process is alive. */
    method Grant(caller: nat, id: nat, target: nat, live: bool) returns (ok: bool)
      requires Valid()
      modifies this`objects, this`view
      ensures Valid()
      ensures ok <==>
        && target != 0 && live && id in old(view) && old(view)[id].owner == caller
        && caller in old(view)[id].holders
      ensures view == if ok then old(view)[id := old(view)[id].(holders := old(view)[id].holders + {target})]
        else old(view)
    {
      hide Inv;
      if target == 0 || !live {
        return false;
      }
      var i := Position(id);
      if i.None? || objects[i.value].owner != caller || caller !in objects[i.value].holders {
        return false;
      }
      var shm := objects[i.value];
      ghost var o := view[id];
      GrantKeepsInv(view, nextId, roots, paging.space, Managed(), id, target);
      if target !in shm.holders {
        shm := shm.(holders := shm.holders + [target]);
      }
      assert Represents(shm, o.(holders := o.holders + {target}));
      UpdateRow(objects, view, i.value, shm, o.(holders := o.holders + {target}));
      Commit(objects[i.value := shm], view[id := o.(holders := o.holders + {target})]);
      return true;
    }

    /** Maps the object into the process at the lowest usable address, or gives the
        address where it is mapped already. */
    method Map(pid: nat, id: nat) returns (r: Option<nat>)
      requires Valid() && pid in roots
      modifies this`objects, this`view, paging
      ensures Valid()
      ensures r.Some? ==> id in old(view) && pid in old(view)[id].holders
      // a holder fails exactly without a usable address, or with too few table pages for the lowest
      ensures id in old(view) && pid in old(view)[id].holders ==> var o := old(view)[id];
        var cannot := CannotMap(old(view), old(paging.space), old(paging.tables), Supply(old(paging.pool)),
            roots[pid], pid, |o.frames|);
        r.None? <==> pid !in o.maps && cannot
      ensures r.None? || pid in old(view)[id].maps ==> view == old(view) && paging.space == old(paging.space)
      ensures r.Some? && pid in old(view)[id].maps ==> r.value == old(view)[id].maps[pid]
      ensures r.Some? && pid !in old(view)[id].maps ==> var o := old(view)[id];
        && view == old(view)[id := o.(maps := o.maps[pid := r.value])]
        && Usable(old(view), old(paging.space), roots[pid], pid, |o.frames|, r.value)
        && NoneBelow(old(view), old(paging.space), roots[pid], pid, |o.frames|, r.value)
        && Extends(old(paging.space), paging.space, roots[pid], r.value / 4096, o.frames)
        // user-writable and not executable, as far as the tables that were there allow it
        && PagesShared(paging.space, old(paging.tables), roots[pid], r.value / 4096, o.frames)
        && (OpenRun(old(paging.tables), roots[pid], r.value / 4096, |o.frames|) ==>
              BytesWritable(paging.space, roots[pid], r.value, |o.frames| * 4096))
    {
      hide PagesShared, BytesWritable, OpenRun, MappedWith, Usable, NoneBelow, Inv, CannotMap, Needed, Supply,
        Extends, Forest, Refines, PoolFresh;
      ghost var view0, space0, tables0, supply := view, paging.space, paging.tables, Supply(paging.pool);
      var i := Position(id);
      if i.None? || pid !in objects[i.value].holders {
        return None;
      }
      var shm := objects[i.value];
      ghost var o := view[id];
      var j := MappingIndex(shm.mappings, pid, o.maps);
      if j.Some? {
        return Some(shm.mappings[j.value].virt);
      }
      r := FindFreeRange(pid, roots[pid], |shm.frames|);
      if r.None? {
        NowhereToMap(view0, space0, tables0, supply, roots[pid], pid, |shm.frames|);
        return;
      }
      CannotMapAt(view0, space0, tables0, supply, roots[pid], pid, |shm.frames|, r.value);
      var ok := MapAt(id, i.value, pid, r.value);
      if !ok {
        return None;
      }
      WindowAligned(r.value, |shm.frames|);
      UserWritable(space0, paging.space, tables0, roots[pid], r.value, o.frames);
    }

    /** The mapping loop of `map` and the record of its success. */
    method MapAt(id: nat, i: nat, pid: nat, virt: nat) returns (ok: bool)
      requires Valid() && pid in roots && id in view && i < |objects| && objects[i].id == id
      requires pid in view[id].holders && pid !in view[id].maps
      requires Usable(view, paging.space, roots[pid], pid, |view[id].frames|, virt)
      modifies this`objects, this`view, paging
      ensures Valid()
      ensures !ok ==> view == old(view) && paging.space == old(paging.space)
      ensures ok <==> Supply(old(paging.pool)) >= Needed(old(paging.tables), roots[pid], virt / 4096,
        |old(view)[id].frames|)
      ensures ok ==> var o := old(view)[id];
        && view == old(view)[id := o.(maps := o.maps[pid := virt])]
        && Extends(old(paging.space), paging.space, roots[pid], virt / 4096, o.frames)
        && MappedWith(paging.space, old(paging.tables), roots[pid], virt / 4096, o.frames,
             MapFlags(true, true, false, false, true))
    {
      hide Inv, TableMatches, Extends, MappedWith;
      Row(i);
      ghost var o, space, fr := view[id], paging.space, Managed();
      var shm := objects[i];
      ok := MapFrames(paging, roots[pid], virt, shm.frames, MapFlags(true, true, false, false, true));
      assert Managed() == fr;
      if ok {
        MapKeepsInv(view, nextId, roots, space, fr, id, pid, virt, paging.space);
        AppendMapping(shm.mappings, o.maps, pid, virt);
        UpdateRow(objects, view, i, shm.(mappings := shm.mappings + [Rec(pid, virt)]), o.(maps := o.maps[pid := virt]));
        Commit(objects[i := shm.(mappings := shm.mappings + [Rec(pid, virt)])],
          view[id := o.(maps := o.maps[pid := virt])]);
      }
    }

    /** `threads` is the number of live threads of the process: without a TLB
        shootdown, only a single-threaded process may unmap. */
    method Unmap(pid: nat, id: nat, threads: nat) returns (ok: bool)
      requires Valid() && pid in roots
      modifies this`objects, this`view, paging`tables, paging`space
      ensures Valid()
      ensures ok <==> threads == 1 && id in old(view) && pid in old(view)[id].maps
      ensures !ok ==> view == old(view) && paging.space == old(paging.space)
      ensures ok ==> Unmapped(old(view), view, old(paging.space), paging.space, roots, id, pid)
    {
      if threads != 1 {
        return false;
      }
      var removed := UnmapHolder(id, pid);
      return removed.Some?;
    }

    /** Gives row `i` the holders `rest`, which lack `pid`; an object without holders
        leaves the table and its frames become loose. */
    method DropHolder(i: nat, rest: seq<nat>, pid: nat) returns (frames: seq<nat>)
      requires Valid() && i < |objects| && pid !in view[objects[i].id].maps
      requires HoldersMatch(rest, view[objects[i].id].holders - {pid})
      modifies this`objects, this`view
      ensures Valid()
      ensures HolderDropped(old(objects), objects, old(view), view, i, pid, rest, frames)
      ensures rest == [] ==> Loose(frames, view, paging.space, Managed())
    {
      hide Loose;
      var shm := objects[i];
      ghost var o := view[shm.id];
      if rest != [] {
        assert rest[0] in o.holders - {pid};
        DropHolderKeepsInv(view, nextId, roots, paging.space, Managed(), shm.id, pid);
        UpdateRow(objects, view, i, shm.(holders := rest), o.(holders := o.holders - {pid}));
        Commit(objects[i := shm.(holders := rest)], view[shm.id := o.(holders := o.holders - {pid})]);
        return [];
      }
      LastHolderLeft(o, roots, pid, rest);
      RemoveKeepsInv(view, nextId, roots, paging.space, Managed(), shm.id);
      RemoveRow(objects, view, i);
      ghost var fr := Managed();
      Commit(SwapRemove(objects, i), view - {shm.id});
      assert Managed() == fr;
      return shm.frames;
    }

    /** Drops a process's reference; with the last one the frames are freed. */
    method Close(pid: nat, id: nat, threads: nat) returns (ok: bool)
      requires Valid() && pid in roots
      modifies this`objects, this`view, paging`tables, paging`space, pmm`used, pmm`log, pmm.bitmap
      ensures Valid()
      ensures ok <==> threads == 1 && id in old(view) && pid in old(view)[id].holders
      ensures !ok ==> view == old(view) && paging.space == old(paging.space) && pmm.Free() == old(pmm.Free())
      ensures ok ==>
        ClosedBy(old(view)[id], id, pid, old(view), view, old(paging.space), paging.space, roots, old(Managed()),
          Managed())
    {
      hide Inv, Loose;
      if threads != 1 {
        return false;
      }
      var i := Position(id);
      if i.None? || pid !in objects[i.value].holders {
        return false;
      }
      CloseRow(i.value, pid);
      return true;
    }

    method CloseRow(i: nat, pid: nat)
      requires Valid() && pid in roots && i < |objects| && pid in objects[i].holders
      modifies this`objects, this`view, paging`tables, paging`space, pmm`used, pmm`log, pmm.bitmap
      ensures Valid()
      ensures ClosedBy(old(view)[old(objects[i].id)], old(objects[i].id), pid, old(view), view,
                       old(paging.space), paging.space, roots, old(Managed()), Managed())
    {
      hide Inv, Loose, TableMatches, Unmapped, Released, ClosedBy;
      Row(i);
      var id := objects[i].id;
      ghost var objs, v, space := objects, view, paging.space;
      ghost var fr := Managed();
      var _ := UnmapHolder(id, pid);
      ghost var v' := view;
      assert Managed() == fr;
      StillThere(objs, objects, i, v, view, space, paging.space, roots, pid);
      ReleaseHolder(i, pid);
      ClosedMade(v, v', view, space, paging.space, roots, id, pid, fr, Managed());
    }

    /** The rest of `close`, once the process no longer maps the object. */
    method ReleaseHolder(i: nat, pid: nat)
      requires Valid() && i < |objects| && pid in objects[i].holders && pid !in view[objects[i].id].maps
      modifies this`objects, this`view, pmm`used, pmm`log, pmm.bitmap
      ensures Valid()
      ensures Released(old(view), view, old(objects[i].id), pid, paging.space, old(Managed()), Managed())
    {
      hide Inv, Loose;
      ghost var id := objects[i].id;
      ghost var o, fr := view[id], Managed();
      var h := HolderIndex(objects[i].holders, pid);
      SwapRemoveHolder(objects[i].holders, h, view[id].holders);
      var rest := SwapRemove(objects[i].holders, h);
      assert rest != [] ==> rest[0] in o.holders - {pid};
      var frames := DropHolder(i, rest, pid);
      assert Managed() == fr;
      if rest == [] {
        GiveBack(frames);
      }
    }

    // ---- the death of a process ----

    lemma HoldersLeft(objs: seq<Shm>, i: nat, pid: nat)
      requires Valid() && i < |objects| && SameRows(objs, objects)
      ensures var o, rest := view[objects[i].id], Without(objects[i].holders, pid);
        && objects[i].id == objs[i].id && objs[i].id in view && i < |objs| && HoldersMatch(rest, o.holders - {pid})
        && (rest == [] <==> o.holders == {pid}) && pid !in rest
    {
      WithoutHolder(objects[i].holders, pid, view[objects[i].id].holders);
      OnlyHolder(view[objects[i].id].holders, pid, Without(objects[i].holders, pid));
    }

    /** Takes `pid` out of row `i`; an object that loses its last holder goes. */
    method CleanRow(i: nat, pid: nat) returns (gone: bool, freed: seq<nat>)
      requires Valid() && pid in roots && i < |objects|
      modifies this`objects, this`view, paging`tables, paging`space
      ensures Valid() && RowCleaned(old(objects), objects, i, pid, gone)
      ensures RowEffect(old(view)[old(objects[i].id)], old(objects[i].id), pid, old(view), view, old(paging.space),
          paging.space, roots)
      ensures var o := old(view)[old(objects[i].id)];
        && gone == (o.holders == {pid})
        && if gone then freed == o.frames && Loose(freed, view, paging.space, Managed()) else freed == []
    {
      hide *;
      Row(i);
      var id := objects[i].id;
      ghost var objs, v, space := objects, view, paging.space;
      var _ := UnmapHolder(id, pid);
      ghost var objs', v' := objects, view;
      StillThere(objs, objects, i, v, view, space, paging.space, roots, pid);
      HoldersLeft(objs, i, pid);
      var rest := Without(objects[i].holders, pid);
      gone := rest == [];
      freed := DropHolder(i, rest, pid);
      EffectMade(objs, objs', objects, v, v', view, space, paging.space, roots, i, pid, rest, freed);
    }

    /** Everything of a dead process goes: its mappings, its references, and the frames
        of the objects that only it held. */
    method CleanupPid(pid: nat)
      requires Valid() && pid in roots
      modifies this`objects, this`view, paging`tables, paging`space, pmm`used, pmm`log, pmm.bitmap
      ensures Valid()
      ensures view == map id | id in old(view) && old(view)[id].holders != {pid} :: Cleaned(old(view)[id], pid)
      ensures forall id :: id in view ==> var was := old(view)[id];
        && view[id].owner == was.owner && view[id].frames == was.frames
        && view[id].holders == was.holders - {pid} && view[id].maps == was.maps - {pid}
      ensures pmm.Free() == old(pmm.Free()) + OnlyHeldBy(old(view), pid)
        && OnlyHeldBy(old(view), pid) !! old(pmm.Free())
      ensures paging.space ==
        map key | key in old(paging.space) && !OwnPage(old(view), roots, pid, key) :: old(paging.space)[key]
    {
      hide TableMatches, Loose, Progress;
      ghost var v0, space0, fr := view, paging.space, Managed();
      var frames := CleanRows(pid);
      Finished(v0, view, objects, space0, paging.space, roots, pid, frames, nextId, fr);
      GiveBack(frames);
    }

    method CleanRows(pid: nat) returns (frames: seq<nat>)
      requires Valid() && pid in roots
      modifies this`objects, this`view, paging`tables, paging`space
      ensures Valid() && Loose(frames, view, paging.space, Managed())
      ensures Progress(old(view), view, old(paging.space), paging.space, roots, pid, frames)
      ensures forall k :: 0 <= k < |objects| ==> pid !in objects[k].holders
    {
      var index := 0;
      frames := [];
      ProgressStarts(view, paging.space, roots, pid, Managed());
      hide *;
      while index < |objects|
        invariant 0 <= index <= |objects|
        invariant Valid() && Loose(frames, view, paging.space, Managed())
        invariant Progress(old(view), view, old(paging.space), paging.space, roots, pid, frames)
        invariant forall k :: 0 <= k < index ==> pid !in objects[k].holders
        decreases |objects| - index
      {
        ghost var v, space, id, objs := view, paging.space, objects[index].id, objects;
        Row(index);
        var gone, freed := CleanRow(index, pid);
        LooseJoin(v, view, space, paging.space, id, pid, roots, Managed(), frames, freed);
        ProgressGrows(old(view), v, view, old(paging.space), space, paging.space, roots, id, pid, frames, freed);
        RowsStayClean(objs, objects, index, pid, gone);
        frames := frames + freed;
        if !gone {
          index := index + 1;
        }
      }
    }
  }

  ghost predicate RowCleaned(a: seq<Shm>, b: seq<Shm>, i: nat, pid: nat, gone: bool)
    requires i < |a|
  {
    && |b| == (if gone then |a| - 1 else |a|)
    && (forall k :: 0 <= k < i ==> b[k].holders == a[k].holders)
    && (!gone ==> pid !in b[i].holders)
  }

  lemma EffectMade(
      a: seq<Shm>, b: seq<Shm>, c: seq<Shm>, v: View, v': View, v'': View, space: Space, space': Space, roots: Roots,
                   i: nat, pid: nat, rest: seq<nat>, freed: seq<nat>)
    requires SameRows(a, b) && i < |a| && a[i].id in v && a[i].id in v' && pid in roots && pid !in rest
    requires Unmapped(v, v', space, space', roots, a[i].id, pid) && HolderDropped(b, c, v', v'', i, pid, rest, freed)
    requires rest == [] <==> v'[a[i].id].holders == {pid}
    ensures RowCleaned(a, c, i, pid, rest == []) && RowEffect(v[a[i].id], a[i].id, pid, v, v'', space, space', roots)
    ensures var o := v[a[i].id]; (rest == [] <==> o.holders == {pid}) && freed == if rest == [] then o.frames else []
  {
    CleanedSplit(v[a[i].id], pid, v, a[i].id);
  }

  lemma RowsStayClean(a: seq<Shm>, b: seq<Shm>, i: nat, pid: nat, gone: bool)
    requires i < |a| && RowCleaned(a, b, i, pid, gone) && forall k :: 0 <= k < i ==> pid !in a[k].holders
    ensures |b| == (if gone then |a| - 1 else |a|)
    ensures forall k :: 0 <= k < (if gone then i else i + 1) ==> pid !in b[k].holders
  {
  }

  ghost predicate RowEffect(o: Obj, id: nat, pid: nat, v: View, v': View, space: Space, space': Space, roots: Roots)
    requires pid in roots
  {
    && v' == (if o.holders == {pid} then v - {id} else v[id := Cleaned(o, pid)])
    && space' == (if pid in o.maps then DropRange(space, roots[pid], o.maps[pid] / 4096, |o.frames|) else space)
  }

  lemma ProgressStarts(v: View, space: Space, roots: Roots, pid: nat, fr: Frames)
    requires pid in roots
    ensures Loose([], v, space, fr) && Progress(v, v, space, space, roots, pid, [])
  {
  }

  lemma OnlyHolder(holders: set<nat>, pid: nat, rest: seq<nat>)
    requires HoldersMatch(rest, holders - {pid}) && holders != {}
    ensures rest == [] <==> holders == {pid}
    ensures pid !in rest
  {
    if rest == [] {
      var h :| h in holders;
      assert forall x :: x in holders ==> x == pid || x in rest;
    } else {
      assert rest[0] in holders - {pid};
    }
  }

  lemma LooseJoin(v: View, v': View, space: Space, space': Space, id: nat, pid: nat, roots: Roots, fr: Frames,
      frames: seq<nat>, freed: seq<nat>)
    requires id in v && pid in roots && RowEffect(v[id], id, pid, v, v', space, space', roots)
    requires Loose(frames, v, space, fr)
    requires freed == [] || (freed == v[id].frames && Loose(freed, v', space', fr))
    ensures Loose(frames + freed, v', space', fr)
  {
    forall id', k: nat | id' in v' && k < |frames| ensures frames[k] !in v'[id'].frames {
      assert frames[k] !in v[id'].frames;
    }
    forall k: nat, k': nat | k < |frames| && k' < |freed| ensures frames[k] != freed[k'] {
      assert frames[k] !in v[id].frames && freed[k'] in freed;
    }
  }

  // ---- how far the clean-up has come ----

  ghost predicate Gone(v0: View, v: View, f: nat) {
    exists id :: id in v0 && id !in v && f in v0[id].frames
  }

  predicate OwnKey(o: Obj, roots: Roots, pid: nat, key: (nat, nat))
    requires pid in roots
  {
    pid in o.maps && key.0 == roots[pid] && o.maps[pid] / 4096 <= key.1 < o.maps[pid] / 4096 + |o.frames|
  }

  /** A page of the shared mappings of `pid`. */
  ghost predicate OwnPage(v: View, roots: Roots, pid: nat, key: (nat, nat))
    requires pid in roots
  {
    exists id :: id in v && OwnKey(v[id], roots, pid, key)
  }

  predicate Done(v: View, id: nat, pid: nat) { id !in v || pid !in v[id].maps }

  /** A page of a mapping that is gone by now. */
  ghost predicate Cut(v0: View, v: View, roots: Roots, pid: nat, key: (nat, nat))
    requires pid in roots
  {
    exists id :: id in v0 && Done(v, id, pid) && OwnKey(v0[id], roots, pid, key)
  }

  /** Numbers of the frames of the objects that only `pid` holds. */
  ghost function OnlyHeldBy(v: View, pid: nat): set<nat> {
    set id, f | id in v && v[id].holders == {pid} && f in v[id].frames :: f / 4096
  }

  ghost predicate Progress(v0: View, v: View, space0: Space, space: Space, roots: Roots, pid: nat, frames: seq<nat>)
    requires pid in roots
  {
    && (forall id :: id in v ==> id in v0 && (v[id] == v0[id] || v[id] == Cleaned(v0[id], pid)))
    && (forall id :: id in v0 && id !in v ==> v0[id].holders == {pid})
    && (forall f :: f in frames <==> Gone(v0, v, f))
    && (forall key :: key in space <==> key in space0 && !Cut(v0, v, roots, pid, key))
    && (forall key :: key in space ==> space[key] == space0[key])
  }

  lemma CutGrows(
      v0: View, v: View, v': View, space: Space, space': Space, roots: Roots, id: nat, pid: nat, key: (nat, nat))
    requires id in v && id in v0 && pid in roots && RowEffect(v[id], id, pid, v, v', space, space', roots)
    requires v[id] == v0[id] || v[id] == Cleaned(v0[id], pid)
    ensures Cut(v0, v', roots, pid, key) <==> Cut(v0, v, roots, pid, key) || OwnKey(v[id], roots, pid, key)
  {
    assert Done(v', id, pid);
    if Cut(v0, v', roots, pid, key) {
      var x :| x in v0 && Done(v', x, pid) && OwnKey(v0[x], roots, pid, key);
      assert x != id ==> Done(v, x, pid);
      assert x == id && pid !in v[id].maps ==> Done(v, x, pid);
    }
    if Cut(v0, v, roots, pid, key) {
      var x :| x in v0 && Done(v, x, pid) && OwnKey(v0[x], roots, pid, key);
      assert Done(v', x, pid);
    }
    if OwnKey(v[id], roots, pid, key) {
      assert v[id] == v0[id];
    }
  }

  lemma GoneGrows(v0: View, v: View, v': View, id: nat, pid: nat, f: nat)
    requires id in v && id in v0 && v[id].frames == v0[id].frames
    requires v' == (if v[id].holders == {pid} then v - {id} else v[id := Cleaned(v[id], pid)])
    ensures Gone(v0, v', f) <==> Gone(v0, v, f) || (v[id].holders == {pid} && f in v[id].frames)
  {
  }

  lemma ProgressGrows(v0: View, v: View, v': View, space0: Space, space: Space, space': Space, roots: Roots, id: nat,
      pid: nat, frames: seq<nat>, freed: seq<nat>)
    requires pid in roots && Progress(v0, v, space0, space, roots, pid, frames)
    requires id in v && RowEffect(v[id], id, pid, v, v', space, space', roots)
    requires freed == if v[id].holders == {pid} then v[id].frames else []
    ensures Progress(v0, v', space0, space', roots, pid, frames + freed)
  {
    assert Cleaned(Cleaned(v0[id], pid), pid) == Cleaned(v0[id], pid);
    forall f ensures f in frames + freed <==> Gone(v0, v', f) {
      GoneGrows(v0, v, v', id, pid, f);
    }
    forall key ensures key in space' <==> key in space0 && !Cut(v0, v', roots, pid, key) {
      CutGrows(v0, v, v', space, space', roots, id, pid, key);
    }
  }

  /** With every row done, the clean-up has reached its result. */
  lemma Finished(v0: View, v: View, objects: seq<Shm>, space0: Space, space: Space, roots: Roots, pid: nat,
      frames: seq<nat>, nextId: nat, fr: Frames)
    requires pid in roots && Progress(v0, v, space0, space, roots, pid, frames)
    requires TableMatches(objects, v) && forall k :: 0 <= k < |objects| ==> pid !in objects[k].holders
    requires Inv(v, nextId, roots, space, fr) && Loose(frames, v, space, fr)
    ensures v == map id | id in v0 && v0[id].holders != {pid} :: Cleaned(v0[id], pid)
    ensures space == map key | key in space0 && !OwnPage(v0, roots, pid, key) :: space0[key]
    ensures Numbers(frames) == OnlyHeldBy(v0, pid) && Numbers(frames) !! fr.free
  {
    forall id | id in v ensures pid !in v[id].holders && pid !in v[id].maps && ObjOk(v[id], roots) {
      assert HasId(objects, id);
    }
    forall id | id in v ensures v[id] == Cleaned(v0[id], pid) && v0[id].holders != {pid} {
      AlreadyClean(v[id], pid);
    }
    forall key ensures OwnPage(v0, roots, pid, key) <==> Cut(v0, v, roots, pid, key) {
      assert forall id :: id in v0 ==> Done(v, id, pid);
    }
    forall n | n in OnlyHeldBy(v0, pid) ensures n in Numbers(frames) {
      var id, f :| id in v0 && v0[id].holders == {pid} && f in v0[id].frames && f / 4096 == n;
      assert Gone(v0, v, f);
    }
  }

  lemma AlreadyClean(o: Obj, pid: nat)
    requires pid !in o.holders && pid !in o.maps
    ensures Cleaned(o, pid) == o
  {
    assert o.holders - {pid} == o.holders && o.maps - {pid} == o.maps;
  }

  /** The mapping of `pid` and its pages are gone, if there was one. */
  ghost predicate Unmapped(v: View, v': View, space: Space, space': Space, roots: Roots, id: nat, pid: nat)
    requires pid in roots
  {
    if id in v && pid in v[id].maps
    then v' == v[id := v[id].(maps := v[id].maps - {pid})]
      && space' == DropRange(space, roots[pid], v[id].maps[pid] / 4096, |v[id].frames|)
    else v' == v && space' == space
  }

  /** Row `i` has the holders `rest` now, or is gone when that is nobody. */
  ghost predicate HolderDropped(
      a: seq<Shm>, b: seq<Shm>, v: View, v': View, i: nat, pid: nat, rest: seq<nat>, frames: seq<nat>)
    requires i < |a| && a[i].id in v
  {
    var id := a[i].id;
    var o := v[id];
    if rest != []
    then frames == [] && b == a[i := a[i].(holders := rest)] && v' == v[id := o.(holders := o.holders - {pid})]
    else frames == o.frames && o.holders == {pid} && b == SwapRemove(a, i) && v' == v - {id}
  }

  lemma StillThere(
      a: seq<Shm>, b: seq<Shm>, i: nat, v: View, v': View, space: Space, space': Space, roots: Roots, pid: nat)
    requires SameRows(a, b) && i < |a| && a[i].id in v && pid in roots
    requires Unmapped(v, v', space, space', roots, a[i].id, pid)
    ensures i < |b| && b[i].id == a[i].id && b[i].holders == a[i].holders && a[i].id in v' && pid !in v'[a[i].id].maps
  {
  }

  lemma FreshId(view: View, nextId: nat, roots: Roots, space: Space, fr: Frames)
    requires Inv(view, nextId, roots, space, fr)
    ensures nextId !in view && Inv(view, nextId + 1, roots, space, fr)
  {
  }

  /** Ids and holders are the same row by row. */
  ghost predicate SameRows(a: seq<Shm>, b: seq<Shm>) {
    |a| == |b| && forall k :: 0 <= k < |a| ==> b[k].id == a[k].id && b[k].holders == a[k].holders
  }

  function DropMapping(shm: Shm, j: nat): Shm
    requires j < |shm.mappings|
  {
    shm.(mappings := SwapRemove(shm.mappings, j))
  }

  /** The row of the table that loses mapping `j`. */
  lemma UnmapRow(objects: seq<Shm>, view: View, i: nat, j: nat)
    requires TableMatches(objects, view) && i < |objects| && j < |objects[i].mappings|
    ensures var id, pid := objects[i].id, objects[i].mappings[j].pid;
      var o := view[id];
      && pid in o.maps && o.maps[pid] == objects[i].mappings[j].virt && o.frames == objects[i].frames
      && TableMatches(objects[i := DropMapping(objects[i], j)], view[id := o.(maps := o.maps - {pid})])
      && SameRows(objects, objects[i := DropMapping(objects[i], j)])
  {
    var o := view[objects[i].id];
    SwapRemoveMapping(objects[i].mappings, j, o.maps);
    UpdateRow(objects, view, i, DropMapping(objects[i], j), o.(maps := o.maps - {objects[i].mappings[j].pid}));
  }

  method MappingIndex(ms: seq<Rec>, pid: nat, ghost maps: map<nat, nat>) returns (j: Option<nat>)
    requires MappingsMatch(ms, maps)
    ensures j.None? <==> pid !in maps
    ensures j.Some? ==> j.value < |ms| && ms[j.value].pid == pid
  {
    var k := 0;
    while k < |ms|
      invariant 0 <= k <= |ms|
      invariant forall a :: 0 <= a < k ==> ms[a].pid != pid
    {
      if ms[k].pid == pid {
        return Some(k);
      }
      k := k + 1;
    }
    assert pid in maps ==> HasPid(ms, pid);
    return None;
  }

  /** Taken frames count one each. */
  lemma {:induction false} NumbersSize(frames: seq<nat>)
    requires NoRepeats(frames) && forall k :: 0 <= k < |frames| ==> frames[k] % 4096 == 0
    ensures |Numbers(frames)| == |frames|
  {
    if frames != [] {
      var n := |frames| - 1;
      var rest, last := frames[..n], frames[n];
      NumbersSize(rest);
      NumbersGrow(frames, n);
      assert frames[..n + 1] == frames;
      assert last / 4096 !in Numbers(rest) by {
        assert forall k :: 0 <= k < n ==> rest[k] / 4096 != last / 4096;
      }
    }
  }

  lemma AllTaken(frames: seq<nat>, view: View, space: Space, fr: Frames, free: set<nat>)
    requires Loose(frames, view, space, fr) && Numbers(frames) <= free && fr.free == free - Numbers(frames)
    ensures |free| >= |frames| && (fr.free == {} ==> |free| == |frames|)
  {
    assert forall k: nat :: k < |frames| ==> GoodFrame(frames[k], fr);
    NumbersSize(frames);
    SizeSplit(free, Numbers(frames));
  }

  lemma OneMoreTaken(free: set<nat>, taken: set<nat>, n: nat)
    requires taken <= free && n in free - taken
    ensures free - taken - {n} == free - (taken + {n}) && taken + {n} <= free
  {
  }

  lemma TakenBack(free: set<nat>, taken: set<nat>)
    requires taken <= free
    ensures free - taken + taken == free
  {
  }

  lemma SizeSplit(a: set<nat>, b: set<nat>)
    requires b <= a
    ensures |a| == |b| + |a - b|
  {
    assert a == b + (a - b);
  }

  lemma NothingTaken(view: View, space: Space, fr: Frames)
    ensures Loose([], view, space, fr) && Numbers([]) == {}
  {
  }

  lemma NumbersGrow(frames: seq<nat>, i: nat)
    requires i < |frames|
    ensures Numbers(frames[..i + 1]) == Numbers(frames[..i]) + {frames[i] / 4096}
  {
    var a, b := frames[..i], frames[..i + 1];
    assert b == a + [frames[i]];
    forall n | n in Numbers(a) + {frames[i] / 4096} ensures n in Numbers(b) {
      if n != frames[i] / 4096 {
        var f :| f in a && f / 4096 == n;
        assert f in b;
      } else {
        assert frames[i] in b;
      }
    }
  }

  /** Maps `frames` in order from `virt` on, or changes nothing. */
  method MapFrames(paging: Paging, cr3: nat, virt: nat, frames: seq<nat>, flags: MapFlags) returns (ok: bool)
    requires paging.Valid() && Root(paging.trees, cr3) && InWindow(virt, |frames|)
    requires forall k: nat :: k < |frames| ==> PageKey(cr3, virt / 4096, k) !in paging.space
    requires forall k: nat :: k < |frames| ==> frames[k] % 4096 == 0 && Masked(frames[k]) == frames[k]
    modifies paging
    ensures paging.Valid() && SameRoots(old(paging.trees), paging.trees)
    ensures ok ==> Extends(old(paging.space), paging.space, cr3, virt / 4096, frames)
    ensures ok ==> MappedWith(paging.space, old(paging.tables), cr3, virt / 4096, frames, flags)
    ensures !ok ==> paging.space == old(paging.space)
    ensures ok <==> Supply(old(paging.pool)) >= Needed(old(paging.tables), cr3, virt / 4096, |frames|)
  {
    hide Extends, DropRange, Supply, Missing, Indices, Grown, Built, NewAt, Forest, Refines, PoolFresh, Mapped, LeafOf,
      SameGrants, MappedWith, SameRoots;
    var page := 0;
    ghost var m0, tr0 := paging.tables, paging.trees;
    SameAsBefore(m0, tr0, flags);
    MappedNothing(paging.space, m0, cr3, virt / 4096, flags);
    BuiltNone(m0, cr3, virt / 4096);
    ExtendsNothing(paging.space, cr3, virt / 4096);
    assert frames[..0] == [];
    while page < |frames|
      invariant 0 <= page <= |frames|
      invariant paging.Valid() && SameRoots(old(paging.trees), paging.trees)
      invariant Extends(old(paging.space), paging.space, cr3, virt / 4096, frames[..page])
      invariant MappedWith(paging.space, m0, cr3, virt / 4096, frames[..page], flags)
      invariant SameGrants(m0, paging.tables, tr0, flags)
      invariant Supply(paging.pool) + Needed(m0, cr3, virt / 4096, page) == Supply(old(paging.pool))
      invariant Built(m0, paging.tables, cr3, virt / 4096, page)
    {
      ghost var before := paging.space;
      assert (virt + page * 4096) / 4096 == virt / 4096 + page;
      ghost var m1, tr1 := paging.tables, paging.trees;
      RootStays(tr0, tr1, cr3);
      PageInWindow(virt, |frames|, page);
      MissingIsNew(m0, m1, cr3, virt / 4096, page);
      NeededGrows(m0, cr3, virt / 4096, page + 1, |frames|);
      var r := paging.MapPage(cr3, virt + page * 4096, frames[page], flags);
      SameRootsTrans(tr0, tr1, paging.trees);
      RootStays(tr0, paging.trees, cr3);
      if !r.Ok? {
        paging.UnmapRange(cr3, virt, page * 4096);
        ExtendsUndone(old(paging.space), before, cr3, virt / 4096, frames[..page]);
        return false;
      }
      BuiltMore(m0, m1, paging.tables, paging.trees, cr3, virt / 4096, page);
      SameMapped(m0, m1, tr0, cr3, virt / 4096 + page, frames[page], flags);
      SameGrantsTrans(m0, m1, paging.tables, tr0, tr1, flags);
      FrameOfMapped(m0, cr3, virt / 4096 + page, frames[page], flags);
      ExtendsGrows(old(paging.space), before, paging.space, cr3, virt / 4096, frames, page);
      MappedMore(before, paging.space, m0, cr3, virt / 4096, frames, page, flags);
      page := page + 1;
    }
    assert frames[..page] == frames;
    return true;
  }

  lemma MappedNothing(space: Space, m: Tables, root: nat, first: nat, flags: MapFlags)
    ensures MappedWith(space, m, root, first, [], flags)
  {
  }

  lemma MappedMore(
      space: Space, space': Space, m: Tables, root: nat, first: nat, frames: seq<nat>, k: nat, flags: MapFlags)
    requires k < |frames| && MappedWith(space, m, root, first, frames[..k], flags)
    requires space' == space[(root, first + k) := Mapped(m, root, first + k, frames[k], flags)]
    ensures MappedWith(space', m, root, first, frames[..k + 1], flags)
  {
    hide Mapped;
  }

  lemma FrameOfMapped(m: Tables, root: nat, page: nat, phys: nat, flags: MapFlags)
    requires Masked(phys) == phys
    ensures Mapped(m, root, page, phys, flags).frame == phys
  {
  }

  /** The frames in order, for user programs and writable as far as the tables `m` allow it,
      not executable and cached. */
  ghost predicate PagesShared(space: Space, m: Tables, root: nat, first: nat, frames: seq<nat>) {
    forall p: nat :: first <= p < first + |frames| ==>
      var w := Walk(m, root, Indices(p), 1);
      (root, p) in space && space[(root, p)] == Mapping(frames[p - first], w.user, w.writable, true, false, false)
  }

  /** A user program may write to every byte. */
  ghost predicate BytesWritable(space: Space, root: nat, virt: nat, size: nat) {
    forall a: nat :: virt <= a < virt + size ==> ByteAccessible(space, root, a, true)
  }

  /** What a user-writable mapping that is not executable amounts to. */
  lemma UserWritable(space0: Space, space: Space, m: Tables, root: nat, virt: nat, frames: seq<nat>)
    requires MappedWith(space, m, root, virt / 4096, frames, MapFlags(true, true, false, false, true))
    requires virt % 4096 == 0 && Extends(space0, space, root, virt / 4096, frames)
    ensures PagesShared(space, m, root, virt / 4096, frames)
    ensures OpenRun(m, root, virt / 4096, |frames|) ==> BytesWritable(space, root, virt, |frames| * 4096)
  {
    hide Extends, MappedWith;
    SharedPages(space0, space, m, root, virt / 4096, frames);
    if OpenRun(m, root, virt / 4096, |frames|) {
      WritableBytes(space, m, root, virt, frames);
    }
  }

  lemma SharedPages(space0: Space, space: Space, m: Tables, root: nat, first: nat, frames: seq<nat>)
    requires MappedWith(space, m, root, first, frames, MapFlags(true, true, false, false, true))
    requires Extends(space0, space, root, first, frames)
    ensures PagesShared(space, m, root, first, frames)
  {
    hide Walk, Indices, Masked;
    forall p: nat | first <= p < first + |frames|
      ensures var w := Walk(m, root, Indices(p), 1);
        && (root, p) in space
        && space[(root, p)] == Mapping(frames[p - first], w.user, w.writable, true, false, false)
    {
      assert PageKey(root, first, p - first) == (root, p);
    }
  }

  lemma WritableBytes(space: Space, m: Tables, root: nat, virt: nat, frames: seq<nat>)
    requires virt % 4096 == 0 && PagesShared(space, m, root, virt / 4096, frames)
    requires OpenRun(m, root, virt / 4096, |frames|)
    ensures BytesWritable(space, root, virt, |frames| * 4096)
  {
    hide Walk, Indices;
    forall a: nat | virt <= a < virt + |frames| * 4096 ensures ByteAccessible(space, root, a, true) {
      PageWithin(virt, |frames|, a);
      assert Open(m, root, a / 4096);
    }
  }

  lemma PageWithin(virt: nat, pages: nat, a: nat)
    requires virt % 4096 == 0 && virt <= a < virt + pages * 4096
    ensures virt / 4096 <= a / 4096 < virt / 4096 + pages
  {
  }

  lemma WindowAligned(virt: nat, pages: nat)
    requires InWindow(virt, pages)
    ensures virt % 4096 == 0
  {
  }

  lemma PageInWindow(virt: nat, pages: nat, k: nat)
    requires InWindow(virt, pages) && k < pages
    ensures virt % 4096 == 0 && (virt + k * 4096) / 4096 == virt / 4096 + k && UserPage(virt / 4096 + k)
  {
  }

  lemma ExtendsNothing(space: Space, root: nat, first: nat)
    ensures Extends(space, space, root, first, [])
  {
  }

  lemma ExtendsUndone(space: Space, space': Space, root: nat, first: nat, frames: seq<nat>)
    requires Extends(space, space', root, first, frames)
    ensures DropRange(space', root, first, |frames|) == space
  {
    forall key | key in space ensures key in DropRange(space', root, first, |frames|) {
      assert key.0 == root && first <= key.1 ==> key == PageKey(root, first, key.1 - first);
    }
  }

  lemma ExtendsGrows(space: Space, space': Space, space'': Space, root: nat, first: nat, frames: seq<nat>, k: nat)
    requires k < |frames| && Extends(space, space', root, first, frames[..k]) && PageKey(root, first, k) !in space
    requires (root, first + k) in space'' && space''[(root, first + k)].frame == frames[k]
    requires space'' == space'[(root, first + k) := space''[(root, first + k)]]
    ensures Extends(space, space'', root, first, frames[..k + 1])
  {
  }

  lemma AppendMapping(ms: seq<Rec>, maps: map<nat, nat>, pid: nat, virt: nat)
    requires MappingsMatch(ms, maps) && pid !in maps
    ensures MappingsMatch(ms + [Rec(pid, virt)], maps[pid := virt])
  {
    var ms', maps' := ms + [Rec(pid, virt)], maps[pid := virt];
    forall p | p in maps' ensures HasPid(ms', p) {
      if p == pid {
        assert ms'[|ms|].pid == p;
      } else {
        assert HasPid(ms, p);
        var i :| 0 <= i < |ms| && ms[i].pid == p;
        assert ms'[i].pid == p;
      }
    }
  }

  /** What an object is after `pid` is gone. */
  function Cleaned(o: Obj, pid: nat): Obj { o.(holders := o.holders - {pid}, maps := o.maps - {pid}) }

  lemma CleanedSplit(o: Obj, pid: nat, view: View, id: nat)
    requires id in view && view[id] == o
    ensures pid !in o.maps ==> o.(maps := o.maps - {pid}) == o && view[id := o.(maps := o.maps - {pid})] == view
    ensures view[id := o.(maps := o.maps - {pid})][id := Cleaned(o, pid)] == view[id := Cleaned(o, pid)]
    ensures view[id := o.(maps := o.maps - {pid})] - {id} == view - {id}
  {
    assert pid !in o.maps ==> o.maps - {pid} == o.maps;
  }

  ghost predicate Released(v: View, v': View, id: nat, pid: nat, space: Space, fr: Frames, fr': Frames)
    requires id in v
  {
    if v[id].holders == {pid}
    then v' == v - {id} && fr'.free == fr.free + Numbers(v[id].frames) && Loose(v[id].frames, v', space, fr)
    else v' == v[id := v[id].(holders := v[id].holders - {pid})] && fr'.free == fr.free
  }

  lemma ClosedMade(v: View, v': View, v'': View, space: Space, space': Space, roots: Roots, id: nat, pid: nat,
      fr: Frames, fr': Frames)
    requires id in v && id in v' && pid in roots && Unmapped(v, v', space, space', roots, id, pid)
    requires Released(v', v'', id, pid, space', fr, fr')
    ensures ClosedBy(v[id], id, pid, v, v'', space, space', roots, fr, fr')
  {
    CleanedSplit(v[id], pid, v, id);
  }

  /** The effect of `close` by `pid` on object `id`.  The frames of an object whose
      last holder leaves were in use, and no address space maps them when they are
      freed. */
  ghost predicate ClosedBy(o: Obj, id: nat, pid: nat, v: View, v': View, space: Space, space': Space, roots: Roots,
      fr: Frames, fr': Frames)
    requires pid in roots
  {
    && v' == (if o.holders == {pid} then v - {id} else v[id := Cleaned(o, pid)])
    && space' == (if pid in o.maps then DropRange(space, roots[pid], o.maps[pid] / 4096, |o.frames|) else space)
    && fr'.free == (if o.holders == {pid} then fr.free + Numbers(o.frames) else fr.free)
    && (o.holders == {pid} ==> Loose(o.frames, v', space', fr))
  }

  lemma LastHolderLeft(o: Obj, roots: Roots, pid: nat, rest: seq<nat>)
    requires ObjOk(o, roots) && pid !in o.maps && HoldersMatch(rest, o.holders - {pid}) && rest == []
    ensures o.holders == {pid} && o.maps == map[]
  {
    assert o.holders <= {pid} by {
      forall h | h in o.holders ensures h == pid {
        assert h in o.holders - {pid} ==> h in rest;
      }
    }
    var h :| h in o.holders;
    assert o.maps.Keys <= o.holders - {pid};
    assert o.maps.Keys == {};
  }

  method HolderIndex(hs: seq<nat>, pid: nat) returns (h: nat)
    requires pid in hs
    ensures h < |hs| && hs[h] == pid
  {
    h := 0;
    while hs[h] != pid
      invariant 0 <= h < |hs| && pid in hs[h..]
      decreases |hs| - h
    {
      h := h + 1;
    }
  }
}
