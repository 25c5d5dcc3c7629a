/** Shared-memory objects: frames that several address spaces map at once.

    The abstract state is a map from object ids to objects; the invariant ties it to
    the plain map of the page tables (`AddressSpaces`) and to the set of free frames
    (`PhysicalFrames`). */
module SharedMemory {
  import opened Common
  import opened AddressSpaces
  import PageTables

  const SHM_BASE: nat := 0xB0_0000_0000
  const SHM_LIMIT: nat := 0xC0_0000_0000
  const MAX_SIZE: nat := 128 * 1024 * 1024

  /** `maps` takes a process to the address where it maps the object. */
  datatype Obj = Obj(owner: nat, frames: seq<nat>, holders: set<nat>, maps: map<nat, nat>)
  type View = map<nat, Obj>
  /** The address space (PML4) of every process. */
  type Roots = map<nat, nat>

  ghost predicate Injective(roots: Roots) {
    forall p, q :: p in roots && q in roots && roots[p] == roots[q] ==> p == q
  }

  /** The frames under management: how many there are and which are free. */
  datatype Frames = Frames(free: set<nat>, total: nat)

  // ---- the invariant ----

  predicate InWindow(virt: nat, pages: nat) {
    virt % 4096 == 0 && SHM_BASE <= virt && virt + pages * 4096 <= SHM_LIMIT
  }

  /** Key of page `k` of an object that `pid` maps. */
  function KeyOf(o: Obj, roots: Roots, pid: nat, k: nat): (nat, nat)
    requires pid in o.maps && pid in roots
  {
    (roots[pid], o.maps[pid] / 4096 + k)
  }

  predicate GoodFrame(frame: nat, fr: Frames) {
    frame % 4096 == 0 && frame / 4096 < fr.total && frame / 4096 !in fr.free
  }

  /** Holders and mappings of one object. */
  ghost predicate ObjOk(o: Obj, roots: Roots) {
    && 1 <= |o.frames| <= MAX_SIZE / 4096
    && o.holders != {}
    && (forall p :: p in o.maps ==> p in o.holders && p in roots && InWindow(o.maps[p], |o.frames|))
  }

  /** Every page of every mapping leads to the frame of the object in that place. */
  ghost predicate Translates(o: Obj, roots: Roots, space: Space)
    requires ObjOk(o, roots)
  {
    forall p, k: nat :: p in o.maps && k < |o.frames| ==>
      KeyOf(o, roots, p, k) in space && space[KeyOf(o, roots, p, k)].frame == o.frames[k]
  }

  /** Some process maps page `k` of the object at `key`. */
  ghost predicate MappedAs(o: Obj, roots: Roots, key: (nat, nat), k: nat)
    requires ObjOk(o, roots)
  {
    exists p :: p in o.maps && KeyOf(o, roots, p, k) == key
  }

  /** Nothing but the recorded mappings leads to a frame of the object. */
  ghost predicate Exclusive(o: Obj, roots: Roots, space: Space)
    requires ObjOk(o, roots)
  {
    forall key, k: nat :: key in space && k < |o.frames| && space[key].frame == o.frames[k] ==>
      MappedAs(o, roots, key, k)
  }

  ghost predicate FramesDistinct(o: Obj, o': Obj) {
    forall k: nat, k': nat :: k < |o.frames| && k' < |o'.frames| ==> o.frames[k] != o'.frames[k']
  }

  ghost predicate Inv(view: View, nextId: nat, roots: Roots, space: Space, fr: Frames) {
    && Injective(roots)
    && (forall id :: id in view ==> id < nextId && ObjOk(view[id], roots))
    && (forall id :: id in view ==> Translates(view[id], roots, space) && Exclusive(view[id], roots, space))
    && (forall id :: id in view ==> NoRepeats(view[id].frames) && forall k: nat :: k < |view[id].frames| ==>
          GoodFrame(view[id].frames[k], fr))
    && (forall id, id' :: id in view && id' in view && id != id' ==> FramesDistinct(view[id], view[id']))
    && (forall key :: key in space ==> space[key].frame % 4096 == 0 && space[key].frame / 4096 !in fr.free)
  }

  // ---- consequences ----

  predicate Overlap(a: nat, aPages: nat, b: nat, bPages: nat) {
    a < b + bPages * 4096 && b < a + aPages * 4096
  }

  predicate InRange(a: nat, pages: nat, x: nat) { a <= x < a + pages * 4096 }

  /** Two ranges that are not empty overlap exactly when they share a byte. */
  lemma OverlapIff(a: nat, aPages: nat, b: nat, bPages: nat)
    requires aPages > 0 && bPages > 0
    ensures Overlap(a, aPages, b, bPages) <==> exists x: nat :: InRange(a, aPages, x) && InRange(b, bPages, x)
  {
    if Overlap(a, aPages, b, bPages) {
      var x := if a < b then b else a;
      assert InRange(a, aPages, x) && InRange(b, bPages, x);
    }
  }

  /** The ranges of one process never overlap. */
  lemma RangesDisjoint(view: View, nextId: nat, roots: Roots, space: Space, fr: Frames, id: nat, id': nat, pid: nat)
    requires Inv(view, nextId, roots, space, fr)
    requires id in view && id' in view && id != id' && pid in view[id].maps && pid in view[id'].maps
    ensures !Overlap(view[id].maps[pid], |view[id].frames|, view[id'].maps[pid], |view[id'].frames|)
  {
    var o, o' := view[id], view[id'];
    var a, b := o.maps[pid], o'.maps[pid];
    forall k: nat, k': nat | k < |o.frames| && k' < |o'.frames|
      ensures KeyOf(o, roots, pid, k) != KeyOf(o', roots, pid, k')
    {
      assert o.frames[k] != o'.frames[k'] by { assert FramesDistinct(o, o'); }
    }
    var n := if a <= b then (b - a) / 4096 else (a - b) / 4096;
    assert KeyOf(o, roots, pid, n) == KeyOf(o', roots, pid, 0) || KeyOf(o, roots, pid, 0) == KeyOf(o', roots, pid, n);
  }

  /** An object that nobody maps has no frame in any address space. */
  lemma UnmappedMeansUnreachable(
      view: View, nextId: nat, roots: Roots, space: Space, fr: Frames, id: nat, key: (nat, nat))
    requires Inv(view, nextId, roots, space, fr) && id in view && view[id].maps == map[] && key in space
    ensures space[key].frame !in view[id].frames
  {
    forall k | 0 <= k < |view[id].frames| ensures view[id].frames[k] != space[key].frame {
      assert view[id].frames[k] == space[key].frame ==> MappedAs(view[id], roots, key, k);
    }
  }

  // ---- every step keeps the invariant ----

  /** Frame numbers of a sequence of frame addresses. */
  function Numbers(frames: seq<nat>): set<nat> { set f | f in frames :: f / 4096 }

  /** Allocated frames that belong to no object and that no page leads to. */
  ghost predicate Loose(frames: seq<nat>, view: View, space: Space, fr: Frames) {
    && NoRepeats(frames)
    && (forall k: nat :: k < |frames| ==> GoodFrame(frames[k], fr))
    && (forall id, k: nat :: id in view && k < |frames| ==> frames[k] !in view[id].frames)
    && (forall key, k: nat :: key in space && k < |frames| ==> space[key].frame != frames[k])
  }

  lemma CreateKeepsInv(view: View, nextId: nat, roots: Roots, space: Space, fr: Frames, frames: seq<nat>, pid: nat)
    requires Inv(view, nextId + 1, roots, space, fr) && nextId !in view
    requires Loose(frames, view, space, fr) && 1 <= |frames| <= MAX_SIZE / 4096
    ensures Inv(view[nextId := Obj(pid, frames, {pid}, map[])], nextId + 1, roots, space, fr)
  {
    var o := Obj(pid, frames, {pid}, map[]);
    forall id | id in view ensures FramesDistinct(o, view[id]) && FramesDistinct(view[id], o) {}
  }

  lemma GrantKeepsInv(view: View, nextId: nat, roots: Roots, space: Space, fr: Frames, id: nat, target: nat)
    requires Inv(view, nextId, roots, space, fr) && id in view
    ensures Inv(view[id := view[id].(holders := view[id].holders + {target})], nextId, roots, space, fr)
  {
    var o, o' := view[id], view[id].(holders := view[id].holders + {target});
    SameMappings(o, o', roots, space);
  }

  /** Holders do not matter to translations. */
  lemma SameMappings(o: Obj, o': Obj, roots: Roots, space: Space)
    requires ObjOk(o, roots) && ObjOk(o', roots) && o.frames == o'.frames && o.maps == o'.maps
    requires Translates(o, roots, space) && Exclusive(o, roots, space)
    ensures Translates(o', roots, space) && Exclusive(o', roots, space)
  {
    forall p, k: nat | p in o'.maps && k < |o'.frames|
      ensures KeyOf(o', roots, p, k) in space && space[KeyOf(o', roots, p, k)].frame == o'.frames[k]
    {
      assert KeyOf(o, roots, p, k) == KeyOf(o', roots, p, k);
    }
    forall key, k: nat | key in space && k < |o'.frames| && space[key].frame == o'.frames[k]
      ensures MappedAs(o', roots, key, k)
    {
      assert MappedAs(o, roots, key, k);
      var p :| p in o.maps && KeyOf(o, roots, p, k) == key;
      assert KeyOf(o', roots, p, k) == key;
    }
  }

  /** A step that only takes a holder away. */
  lemma DropHolderKeepsInv(view: View, nextId: nat, roots: Roots, space: Space, fr: Frames, id: nat, pid: nat)
    requires Inv(view, nextId, roots, space, fr) && id in view
    requires pid !in view[id].maps && view[id].holders != {pid}
    ensures Inv(view[id := view[id].(holders := view[id].holders - {pid})], nextId, roots, space, fr)
  {
    var o := view[id];
    assert o.holders - {pid} != {} by {
      assert o.holders - {pid} == {} ==> o.holders <= {pid};
    }
    SameMappings(o, o.(holders := o.holders - {pid}), roots, space);
  }

  /** Forgetting an object that nobody maps leaves its frames loose. */
  lemma RemoveKeepsInv(view: View, nextId: nat, roots: Roots, space: Space, fr: Frames, id: nat)
    requires Inv(view, nextId, roots, space, fr) && id in view && view[id].maps == map[]
    ensures Inv(view - {id}, nextId, roots, space, fr)
    ensures Loose(view[id].frames, view - {id}, space, fr)
  {
    var frames := view[id].frames;
    forall key, k: nat | key in space && k < |frames| ensures space[key].frame != frames[k] {
      UnmappedMeansUnreachable(view, nextId, roots, space, fr, id, key);
    }
    forall id', k: nat | id' in view - {id} && k < |frames| ensures frames[k] !in view[id'].frames {
      assert FramesDistinct(view[id], view[id']);
    }
  }

  lemma FirstIsGood(frames: seq<nat>, view: View, space: Space, fr: Frames)
    requires Loose(frames, view, space, fr) && frames != []
    ensures GoodFrame(frames[0], fr)
  {
  }

  /** A loose frame may be freed, and the other loose frames stay loose. */
  lemma FreeKeepsInv(view: View, nextId: nat, roots: Roots, space: Space, fr: Frames, frames: seq<nat>)
    requires Inv(view, nextId, roots, space, fr) && Loose(frames, view, space, fr) && frames != []
    ensures Inv(view, nextId, roots, space, fr.(free := fr.free + {frames[0] / 4096}))
    ensures Loose(frames[1..], view, space, fr.(free := fr.free + {frames[0] / 4096}))
  {
    var f := frames[0];
    forall id, k: nat | id in view && k < |view[id].frames|
      ensures GoodFrame(view[id].frames[k], fr.(free := fr.free + {f / 4096}))
    {
      assert view[id].frames[k] in view[id].frames;
    }
  }

  // ---- mapping and unmapping ----

  /** `space'` is `space` with `frames` mapped in order from page `first` on, where
      nothing was mapped before. */
  ghost predicate Extends(space: Space, space': Space, root: nat, first: nat, frames: seq<nat>) {
    && (forall k: nat :: k < |frames| ==> PageKey(root, first, k) !in space)
    && (forall k: nat :: k < |frames| ==>
          PageKey(root, first, k) in space' && space'[PageKey(root, first, k)].frame == frames[k])
    && (forall key :: key in space ==> key in space' && space'[key] == space[key])
    && (forall key :: key in space' ==> key in space || (key.0 == root && first <= key.1 < first + |frames|))
  }

  /** Each of these pages is its frame with `flags`, as far as the tables `m` allow. */
  ghost predicate MappedWith(
      space: Space, m: PageTables.Tables, root: nat, first: nat, frames: seq<nat>, flags: PageTables.MapFlags) {
    forall k: nat :: k < |frames| ==>
      PageKey(root, first, k) in space && space[PageKey(root, first, k)] == Mapped(m, root, first + k, frames[k], flags)
  }

  function PageKey(root: nat, first: nat, k: nat): (nat, nat) { (root, first + k) }

  lemma MapKeepsInv(
      view: View, nextId: nat, roots: Roots, space: Space, fr: Frames, id: nat, pid: nat, virt: nat, space': Space)
    requires Inv(view, nextId, roots, space, fr) && id in view
    requires pid in view[id].holders && pid in roots && pid !in view[id].maps && InWindow(virt, |view[id].frames|)
    requires Extends(space, space', roots[pid], virt / 4096, view[id].frames)
    ensures Inv(view[id := view[id].(maps := view[id].maps[pid := virt])], nextId, roots, space', fr)
  {
    var o := view[id];
    var o' := o.(maps := o.maps[pid := virt]);
    MapObject(o, roots, space, pid, virt, space');
    forall id' | id' in view && id' != id
      ensures Translates(view[id'], roots, space') && Exclusive(view[id'], roots, space')
    {
      assert FramesDistinct(o, view[id']);
      MapOtherObject(o, view[id'], roots, space, pid, virt, space');
    }
    forall key | key in space' ensures space'[key].frame % 4096 == 0 && space'[key].frame / 4096 !in fr.free {
      if key !in space {
        var k := key.1 - virt / 4096;
        assert key == PageKey(roots[pid], virt / 4096, k) && GoodFrame(o.frames[k], fr);
      }
    }
  }

  lemma MapObject(o: Obj, roots: Roots, space: Space, pid: nat, virt: nat, space': Space)
    requires ObjOk(o, roots) && Translates(o, roots, space) && Exclusive(o, roots, space) && NoRepeats(o.frames)
    requires pid in o.holders && pid in roots && pid !in o.maps && InWindow(virt, |o.frames|)
    requires Extends(space, space', roots[pid], virt / 4096, o.frames)
    ensures var o' := o.(maps := o.maps[pid := virt]);
      ObjOk(o', roots) && Translates(o', roots, space') && Exclusive(o', roots, space')
  {
    var o' := o.(maps := o.maps[pid := virt]);
    forall p, k: nat | p in o'.maps && k < |o'.frames|
      ensures KeyOf(o', roots, p, k) in space' && space'[KeyOf(o', roots, p, k)].frame == o'.frames[k]
    {
      if p == pid {
        assert KeyOf(o', roots, p, k) == PageKey(roots[pid], virt / 4096, k);
      } else {
        assert KeyOf(o', roots, p, k) == KeyOf(o, roots, p, k);
      }
    }
    forall key, k: nat | key in space' && k < |o'.frames| && space'[key].frame == o'.frames[k]
      ensures MappedAs(o', roots, key, k)
    {
      if key in space {
        assert MappedAs(o, roots, key, k);
        var p :| p in o.maps && KeyOf(o, roots, p, k) == key;
        assert KeyOf(o', roots, p, k) == key;
      } else {
        var j := key.1 - virt / 4096;
        assert key == PageKey(roots[pid], virt / 4096, j);
        assert o.frames[j] == o.frames[k];
        assert KeyOf(o', roots, pid, k) == key;
      }
    }
  }

  lemma MapOtherObject(o: Obj, q: Obj, roots: Roots, space: Space, pid: nat, virt: nat, space': Space)
    requires ObjOk(q, roots) && Translates(q, roots, space) && Exclusive(q, roots, space) && FramesDistinct(o, q)
    requires pid in roots && Extends(space, space', roots[pid], virt / 4096, o.frames)
    ensures Translates(q, roots, space') && Exclusive(q, roots, space')
  {
    forall key, k: nat | key in space' && key !in space && k < |q.frames| ensures space'[key].frame != q.frames[k] {
      var j := key.1 - virt / 4096;
      assert key == PageKey(roots[pid], virt / 4096, j);
      assert o.frames[j] != q.frames[k];
    }
    forall key, k: nat | key in space' && k < |q.frames| && space'[key].frame == q.frames[k]
      ensures MappedAs(q, roots, key, k)
    {
      assert key in space;
    }
  }

  lemma UnmapKeepsInv(view: View, nextId: nat, roots: Roots, space: Space, fr: Frames, id: nat, pid: nat)
    requires Inv(view, nextId, roots, space, fr) && id in view && pid in view[id].maps
    ensures var o := view[id];
      Inv(view[id := o.(maps := o.maps - {pid})], nextId, roots,
          DropRange(space, roots[pid], o.maps[pid] / 4096, |o.frames|), fr)
  {
    var o := view[id];
    var space' := DropRange(space, roots[pid], o.maps[pid] / 4096, |o.frames|);
    UnmapObject(o, roots, space, pid);
    forall id' | id' in view && id' != id
      ensures Translates(view[id'], roots, space') && Exclusive(view[id'], roots, space')
    {
      if pid in view[id'].maps {
        RangesDisjoint(view, nextId, roots, space, fr, id, id', pid);
      }
      UnmapOtherObject(o, view[id'], roots, space, pid);
    }
  }

  lemma UnmapObject(o: Obj, roots: Roots, space: Space, pid: nat)
    requires Injective(roots) && ObjOk(o, roots) && Translates(o, roots, space) && Exclusive(o, roots, space)
      && pid in o.maps
    ensures var o', space' := o.(maps := o.maps - {pid}), DropRange(space, roots[pid], o.maps[pid] / 4096, |o.frames|);
      ObjOk(o', roots) && Translates(o', roots, space') && Exclusive(o', roots, space')
  {
    var o', space' := o.(maps := o.maps - {pid}), DropRange(space, roots[pid], o.maps[pid] / 4096, |o.frames|);
    forall p, k: nat | p in o'.maps && k < |o'.frames|
      ensures KeyOf(o', roots, p, k) in space' && space'[KeyOf(o', roots, p, k)].frame == o'.frames[k]
    {
      assert KeyOf(o', roots, p, k) == KeyOf(o, roots, p, k);
    }
    forall key, k: nat | key in space' && k < |o'.frames| && space'[key].frame == o'.frames[k]
      ensures MappedAs(o', roots, key, k)
    {
      assert MappedAs(o, roots, key, k);
      var p :| p in o.maps && KeyOf(o, roots, p, k) == key;
      assert KeyOf(o', roots, p, k) == key;
    }
  }

  lemma UnmapOtherObject(o: Obj, q: Obj, roots: Roots, space: Space, pid: nat)
    requires Injective(roots) && ObjOk(o, roots) && ObjOk(q, roots) && Translates(q, roots, space)
      && Exclusive(q, roots, space)
    requires pid in o.maps && (pid in q.maps ==> !Overlap(o.maps[pid], |o.frames|, q.maps[pid], |q.frames|))
    ensures var space' := DropRange(space, roots[pid], o.maps[pid] / 4096, |o.frames|);
      Translates(q, roots, space') && Exclusive(q, roots, space')
  {
  }

  // ---- taking frames, and what the rest of the kernel does ----

  lemma TakeKeepsInv(view: View, nextId: nat, roots: Roots, space: Space, fr: Frames, frames: seq<nat>, n: nat)
    requires Inv(view, nextId, roots, space, fr) && Loose(frames, view, space, fr) && n in fr.free && n < fr.total
    ensures var fr' := fr.(free := fr.free - {n});
      Inv(view, nextId, roots, space, fr') && Loose(frames + [n * 4096], view, space, fr')
  {
    var fr' := fr.(free := fr.free - {n});
    var frames' := frames + [n * 4096];
    forall id, k: nat | id in view && k < |frames'| ensures frames'[k] !in view[id].frames {
      forall j | 0 <= j < |view[id].frames| ensures view[id].frames[j] != n * 4096 {
        assert GoodFrame(view[id].frames[j], fr);
      }
    }
    forall id, k: nat | id in view && k < |view[id].frames| ensures GoodFrame(view[id].frames[k], fr') {
      assert GoodFrame(view[id].frames[k], fr);
    }
  }

  /** Other parts of the kernel may map frames of their own at other pages. */
  lemma ForeignMapKeepsInv(view: View, nextId: nat, roots: Roots, space: Space, fr: Frames, key: (nat, nat),
      x: PageTables.Mapping)
    requires Inv(view, nextId, roots, space, fr) && key !in space
    requires x.frame % 4096 == 0 && x.frame / 4096 !in fr.free
      && forall id :: id in view ==> x.frame !in view[id].frames
    ensures Inv(view, nextId, roots, space[key := x], fr)
  {
    var space' := space[key := x];
    forall id | id in view ensures Translates(view[id], roots, space') && Exclusive(view[id], roots, space') {
      var o := view[id];
      forall key', k: nat | key' in space' && k < |o.frames| && space'[key'].frame == o.frames[k]
        ensures MappedAs(o, roots, key', k)
      {
        assert o.frames[k] in o.frames;
      }
    }
  }
}
