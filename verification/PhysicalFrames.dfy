/** The physical frame allocator: a bitmap with one bit per 4 KiB frame, set while
    the frame is in use.  The methods work on the bitmap; their contracts speak of
    the set of free frames it stands for. */
module PhysicalFrames {
  import opened Common

  // ---- bits of one byte ----

  predicate BitSet(b: bv8, k: nat)
    requires k < 8
  {
    (b >> k) & 1 != 0
  }

  function Mask(k: nat): bv8
    requires k < 8
  {
    (1 as bv8) << k
  }

  function WithBit(b: bv8, k: nat, value: bool): bv8
    requires k < 8
  {
    if value then b | Mask(k) else b & !Mask(k)
  }

  lemma BitSetIsMasked(b: bv8, k: nat)
    requires k < 8
    ensures BitSet(b, k) == (b & Mask(k) != 0)
    ensures Mask(k) != 0
  {
    assert k == 0 || k == 1 || k == 2 || k == 3 || k == 4 || k == 5 || k == 6 || k == 7;
  }

  lemma MasksDisjoint(k: nat, j: nat)
    requires k < 8 && j < 8 && j != k
    ensures Mask(k) & Mask(j) == 0
  {
    assert k == 0 || k == 1 || k == 2 || k == 3 || k == 4 || k == 5 || k == 6 || k == 7;
    assert j == 0 || j == 1 || j == 2 || j == 3 || j == 4 || j == 5 || j == 6 || j == 7;
  }

  lemma Masking(b: bv8, m: bv8, n: bv8)
    requires m & n == 0
    ensures (b | m) & n == b & n && (b & !m) & n == b & n
    ensures (b | m) & m == m && (b & !m) & m == 0
  {
  }

  lemma WithBitChangesOneBit(b: bv8, k: nat, value: bool, j: nat)
    requires k < 8 && j < 8
    ensures BitSet(WithBit(b, k, value), j) == if j == k then value else BitSet(b, j)
  {
    BitSetIsMasked(b, j);
    BitSetIsMasked(WithBit(b, k, value), j);
    if j == k {
      Masking(b, Mask(k), 0);
    } else {
      MasksDisjoint(k, j);
      Masking(b, Mask(k), Mask(j));
    }
  }

  predicate Within(first: nat, f: nat, count: nat) { first <= f < first + count }

  /** Frames `first`, ..., `first + count - 1`. */
  function Run(first: nat, count: nat): set<nat> {
    set f: nat | f < first + count && Within(first, f, count)
  }

  /** The managed frames that `[physStart, physStart + size)` touches. */
  function Touched(physStart: nat, size: nat, total: nat): set<nat> {
    var first := physStart / 4096;
    var count := (physStart + size + 4096 - 1) / 4096 - first;
    set f: nat | f < total && Within(first, f, count)
  }

  /** Those are the frames that share a byte with the region; an empty region that does not
      start at a frame touches the frame that it starts in. */
  lemma TouchedIff(physStart: nat, size: nat, total: nat, f: nat)
    ensures size > 0 ==> (f in Touched(physStart, size, total) <==>
      f < total && exists a: nat :: physStart <= a < physStart + size && FrameNumber(a) == f)
    ensures size == 0 ==> (f in Touched(physStart, size, total) <==>
      f < total && f == physStart / 4096 && physStart % 4096 != 0)
  {
    if size > 0 && f in Touched(physStart, size, total) {
      var a := if f * 4096 < physStart then physStart else f * 4096;
      assert physStart <= a < physStart + size && FrameNumber(a) == f;
    }
  }

  function FrameNumber(a: nat): nat { a / 4096 }

  /** The free frames after those of `region` were marked. */
  function Marked(free: set<nat>, region: set<nat>, value: bool): set<nat> {
    if value then free - region else free + region
  }

  /** Those of them that were not in that state before. */
  function Changed(free: set<nat>, region: set<nat>, value: bool): set<nat> {
    if value then region * free else region - free
  }

  lemma NothingMarked(free: set<nat>, first: nat, value: bool)
    ensures Marked(free, Run(first, 0), value) == free && Changed(free, Run(first, 0), value) == {}
  {
  }

  lemma MarkStep(free: set<nat>, first: nat, i: nat, count: nat, value: bool)
    requires i < count
    ensures Marked(Marked(free, Run(first, i), value), {first + i}, value) == Marked(free, Run(first, i + 1), value)
    ensures first + i in Marked(free, Run(first, i), value) <==> first + i in free
    ensures Run(first, count) <= free ==> first + i in free
  {
    assert Run(first, i + 1) == Run(first, i) + {first + i} && first + i !in Run(first, i)
      && first + i in Run(first, count);
  }

  lemma OneMoreChanged(free: set<nat>, first: nat, i: nat, value: bool)
    ensures |Changed(free, Run(first, i + 1), value)| ==
      |Changed(free, Run(first, i), value)| + if (first + i in free) == value then 1 else 0
  {
    hide Run, Changed;
    RunGrows(first, i);
    OneMore(free, Run(first, i), first + i, value);
  }

  lemma RunGrows(first: nat, i: nat)
    ensures Run(first, i + 1) == Run(first, i) + {first + i} && first + i !in Run(first, i)
  {
  }

  lemma OneMore(free: set<nat>, region: set<nat>, f: nat, value: bool)
    requires f !in region
    ensures |Changed(free, region + {f}, value)| ==
      |Changed(free, region, value)| + if (f in free) == value then 1 else 0
  {
    var a, b := Changed(free, region, value), Changed(free, region + {f}, value);
    if (f in free) == value {
      assert b == a + {f};
    } else {
      assert b == a;
    }
  }

  /** The frame `i` places after `start` in cyclic order. */
  function Cyclic(start: nat, i: nat, total: nat): nat {
    if start + i < total then start + i else start + i - total
  }

  lemma CyclicIsMod(start: nat, i: nat, total: nat)
    requires start < total && i < total
    ensures Cyclic(start, i, total) == (start + i) % total
  {
    var x := start + i;
    var q, r := x / total, x % total;
    assert x == total * q + r;
    assert q >= 2 ==> total * q >= total * 2;
    assert q == 1 ==> total * q == total;
  }

  // ---- the allocator ----

  predicate BitAt(bytes: seq<bv8>, f: nat)
    requires f < |bytes| * 8
  {
    BitSet(bytes[f / 8], f % 8)
  }

  ghost function FreeOf(used: seq<bool>): set<nat> {
    set f: nat | f < |used| && !used[f]
  }

  lemma FreeAfterSetBit(used: seq<bool>, frame: nat, value: bool)
    requires frame < |used|
    ensures FreeOf(used[frame := value]) == Marked(FreeOf(used), {frame}, value)
  {
  }

  // ---- histories ----

  /** A free frame is taken, a used one is marked as used again, a frame is given. */
  datatype Event = Take(frame: nat) | Keep(frame: nat) | Give(frame: nat)

  /** What setting the bit of a frame to `value` does to the frame. */
  function Change(frame: nat, used: bool, value: bool): Event {
    if !value then Give(frame) else if used then Keep(frame) else Take(frame)
  }

  function Then(free: set<nat>, e: Event): set<nat> {
    match e
    case Take(f) => free - {f}
    case Keep(_) => free
    case Give(f) => free + {f}
  }

  /** Frames `first`, ..., `first + count - 1` are taken. */
  function Takes(first: nat, count: nat): seq<Event> { seq(count, (k: nat) => Take(first + k)) }

  /** The free frames after a history that began with none. */
  ghost function FreeAfter(log: seq<Event>): set<nat> {
    if log == [] then {} else Then(FreeAfter(log[..|log| - 1]), log[|log| - 1])
  }

  /** Frames were taken only while free. */
  ghost predicate IsHistory(log: seq<Event>) {
    forall i :: 0 <= i < |log| && log[i].Take? ==> log[i].frame in FreeAfter(log[..i])
  }

  lemma Happens(log: seq<Event>, e: Event)
    requires IsHistory(log) && (e.Take? ==> e.frame in FreeAfter(log))
    ensures IsHistory(log + [e])
    ensures FreeAfter(log + [e]) == Then(FreeAfter(log), e)
  {
    var now := log + [e];
    assert now[..|log|] == log;
    forall i | 0 <= i < |now| && now[i].Take? ensures now[i].frame in FreeAfter(now[..i]) {
      assert now[..i] == log[..i];
      assert i < |log| ==> log[i] == now[i];
    }
  }

  /** A frame that was taken is not free until it is given. */
  lemma {:induction false} StaysTaken(log: seq<Event>, i: nat, j: nat, f: nat)
    requires i < j <= |log| && log[i] == Take(f) && forall k :: i < k < j ==> log[k] != Give(f)
    ensures f !in FreeAfter(log[..j])
    decreases j
  {
    assert log[..j][..j - 1] == log[..j - 1];
    if j > i + 1 {
      StaysTaken(log, i, j - 1, f);
    }
  }

  class FrameAllocator {
    const bitmap: array<bv8>
    const total: nat
    var nextFrame: nat
    /** What the bits say: is the frame in use? */
    ghost var used: seq<bool>
    /** All that ever happened to frames, in order. */
    ghost var log: seq<Event>

    ghost predicate Valid()
      reads this, bitmap
    {
      && total == bitmap.Length * 8 == |used|
      && (total == 0 || nextFrame < total)
      && (forall f: nat {:trigger BitAt(bitmap[..], f)} :: f < total ==> BitAt(bitmap[..], f) == used[f])
      && IsHistory(log) && FreeAfter(log) == FreeOf(used)
    }

    ghost function Free(): set<nat>
      reads this
    {
      FreeOf(used)
    }

    /** Every frame starts out in use (`write_bytes(bitmap, 0xff, ..)`). */
    constructor (bitmapSize: nat)
      ensures Valid() && fresh(bitmap) && total == bitmapSize * 8
      ensures Free() == {} && nextFrame == 0 && log == []
    {
      bitmap := new bv8[bitmapSize](_ => 0xff);
      total := bitmapSize * 8;
      nextFrame := 0;
      used, log := seq(bitmapSize * 8, _ => true), [];
      new;
      forall f: nat | f < total ensures BitAt(bitmap[..], f) {
        var k := f % 8;
        assert k == 0 || k == 1 || k == 2 || k == 3 || k == 4 || k == 5 || k == 6 || k == 7;
      }
    }

    method GetBit(frame: nat) returns (u: bool)
      requires Valid() && frame < total
      ensures u == used[frame]
    {
      assert BitAt(bitmap[..], frame) == used[frame];
      u := BitSet(bitmap[frame / 8], frame % 8);
    }

    method SetBit(frame: nat, value: bool)
      requires Valid() && frame < total
      modifies bitmap, this`used, this`log
      ensures Valid() && used == old(used)[frame := value] && log == old(log) + [Change(frame, old(used)[frame], value)]
      ensures Free() == Marked(old(Free()), {frame}, value)
    {
      hide IsHistory, FreeAfter;
      ghost var e := Change(frame, used[frame], value);
      Happens(log, e);
      log := log + [e];
      ghost var before := bitmap[..];
      bitmap[frame / 8] := WithBit(bitmap[frame / 8], frame % 8, value);
      used := used[frame := value];
      FreeAfterSetBit(old(used), frame, value);
      forall f: nat | f < total
        ensures BitAt(bitmap[..], f) == used[f]
      {
        assert BitAt(before, f) == old(used)[f];
        if f / 8 == frame / 8 {
          WithBitChangesOneBit(before[f / 8], frame % 8, value, f % 8);
        }
      }
    }

    /** Marks the frames that `[physStart, physStart + size)` touches. */
    method MarkRegion(physStart: nat, size: nat, value: bool) returns (changed: nat)
      requires Valid()
      modifies bitmap, this`used, this`log
      ensures Valid() && old(log) <= log
      ensures Free() == Marked(old(Free()), Touched(physStart, size, total), value)
      ensures changed == |Changed(old(Free()), Touched(physStart, size, total), value)|
    {
      hide IsHistory, FreeAfter;
      var first := physStart / 4096;
      var last := Min((physStart + size + 4096 - 1) / 4096, total);
      assert Touched(physStart, size, total) == Run(first, if first < last then last - first else 0);
      changed := MarkRun(first, if first < last then last - first else 0, value);
    }

    method MarkRun(first: nat, count: nat, value: bool) returns (changed: nat)
      requires Valid() && (count > 0 ==> first + count <= total)
      modifies bitmap, this`used, this`log
      ensures Valid() && old(log) <= log
      ensures value && Run(first, count) <= old(Free()) ==> log == old(log) + Takes(first, count)
      ensures Free() == Marked(old(Free()), Run(first, count), value)
      ensures changed == |Changed(old(Free()), Run(first, count), value)|
    {
      hide IsHistory, FreeAfter, Changed, Run, Marked;
      ghost var free := Free();
      var i := 0;
      changed := 0;
      NothingMarked(free, first, value);
      while i < count
        invariant 0 <= i <= count && Valid() && old(log) <= log
        invariant value && Run(first, count) <= old(Free()) ==> log == old(log) + Takes(first, i)
        invariant Free() == Marked(free, Run(first, i), value) && changed == |Changed(free, Run(first, i), value)|
      {
        var was := GetBit(first + i);
        assert first + i in Free() <==> !was;
        MarkStep(free, first, i, count, value);
        OneMoreChanged(free, first, i, value);
        SetBit(first + i, value);
        if was != value {
          changed := changed + 1;
        }
        assert Takes(first, i + 1) == Takes(first, i) + [Take(first + i)];
        i := i + 1;
      }
    }

    /** `alloc_frame`: scan cyclically from the hint. */
    method AllocFrame() returns (r: Option<nat>)
      requires Valid()
      modifies this`nextFrame, this`used, this`log, bitmap
      ensures Valid()
      ensures r.None? <==> old(Free()) == {}
      ensures r.None? ==> Free() == {} && log == old(log)
      ensures r.Some? ==>
        && log == old(log) + [Take(r.value / 4096)]
        && r.value % 4096 == 0
        && r.value / 4096 in old(Free())
        && Free() == old(Free()) - {r.value / 4096}
        && nextFrame == (r.value / 4096 + 1) % total
        // no frame from the hint up to this one, cyclically, was free
        && (forall k: nat :: k < total && Cyclic(old(nextFrame), k, total) in old(Free()) ==>
              exists i: nat :: i <= k && r.value == Cyclic(old(nextFrame), i, total) * 4096)
    {
      hide IsHistory, FreeAfter;
      var start := nextFrame;
      var i := 0;
      while i < total
        invariant 0 <= i <= total
        invariant Valid() && nextFrame == start && used == old(used) && log == old(log)
        invariant forall k: nat :: k < i ==> Cyclic(start, k, total) !in Free()
      {
        var frame := (start + i) % total;
        CyclicIsMod(start, i, total);
        var bit := GetBit(frame);
        if !bit {
          assert frame in old(Free());
          SetBit(frame, true);
          nextFrame := (frame + 1) % total;
          r := Some(frame * 4096);
          assert r.value == Cyclic(start, i, total) * 4096;
          return;
        }
        i := i + 1;
      }
      forall f: nat | f < total ensures f !in Free() {
        assert f == Cyclic(start, if start <= f then f - start else f + total - start, total);
      }
      assert Free() == {};
      return None;
    }

    method RunIsFree(start: nat, count: nat) returns (b: bool)
      requires Valid() && start + count <= total
      ensures b <==> Run(start, count) <= Free()
    {
      var i := 0;
      while i < count
        invariant 0 <= i <= count
        invariant Run(start, i) <= Free()
      {
        var bit := GetBit(start + i);
        if bit {
          assert start + i in Run(start, count) && start + i !in Free();
          return false;
        }
        i := i + 1;
      }
      return true;
    }

    /** `alloc_frames`: first fit over the starts `0 .. total - count`, the last
        position excluded. */
    method AllocFrames(count: nat) returns (r: Option<nat>)
      requires Valid()
      modifies this`nextFrame, this`used, this`log, bitmap
      ensures Valid()
      ensures r.Some? ==>
        && r.value % 4096 == 0
        && var start := r.value / 4096;
        && start + count < total
        && Run(start, count) <= old(Free())
        && Free() == old(Free()) - Run(start, count)
        && nextFrame == (start + count) % total
        && (forall s: nat :: s < start ==> !(Run(s, count) <= old(Free())))
        && log == old(log) + Takes(start, count)
      ensures r.None? ==> Free() == old(Free()) && nextFrame == old(nextFrame) && log == old(log)
      // it fails exactly when no free run starts before the last position
      ensures r.None? <==> forall s: nat :: s + count < total ==> !(Run(s, count) <= old(Free()))
    {
      hide IsHistory, FreeAfter;
      var limit := if total < count then 0 else total - count;
      var start := 0;
      while start < limit
        invariant 0 <= start <= limit
        invariant Valid() && nextFrame == old(nextFrame) && used == old(used) && log == old(log)
        invariant forall s: nat :: s < start ==> !(Run(s, count) <= Free())
      {
        var free := RunIsFree(start, count);
        if free {
          var _ := MarkRun(start, count, true);
          nextFrame := (start + count) % total;
          return Some(start * 4096);
        }
        start := start + 1;
      }
      return None;
    }

    /** `free_frame`; an address past the managed range is ignored. */
    method FreeFrame(addr: nat)
      requires Valid()
      modifies bitmap, this`used, this`log
      ensures Valid()
      ensures Free() == if addr / 4096 < total then old(Free()) + {addr / 4096} else old(Free())
      ensures log == if addr / 4096 < total then old(log) + [Give(addr / 4096)] else old(log)
    {
      if addr / 4096 < total {
        SetBit(addr / 4096, false);
      }
    }

    /** `free_frames`: the inverse of `AllocFrames` on the set of free frames. */
    method FreeFrames(addr: nat, count: nat)
      requires Valid()
      modifies bitmap, this`used, this`log
      ensures Valid() && old(log) <= log
      ensures Free() == old(Free()) + (set f | f in Run(addr / 4096, count) && f < total)
    {
      hide IsHistory, FreeAfter;
      var i := 0;
      while i < count
        invariant 0 <= i <= count && Valid() && old(log) <= log
        invariant Free() == old(Free()) + (set f | f in Run(addr / 4096, i) && f < total)
      {
        assert (addr + i * 4096) / 4096 == addr / 4096 + i;
        FreeFrame(addr + i * 4096);
        i := i + 1;
      }
    }

    /** Over the whole life of the allocator: between two hand-outs of one frame there is
        a free of that frame. */
    lemma NoDoubleHandout(i: nat, j: nat, f: nat)
      requires Valid() && i < j < |log| && log[i] == Take(f) && log[j] == Take(f)
      ensures exists k :: i < k < j && log[k] == Give(f)
    {
      if forall k :: i < k < j ==> log[k] != Give(f) {
        StaysTaken(log, i, j, f);
      }
    }

    /** A frame that is free now and was taken has been given since. */
    lemma FreeMeansGiven(i: nat, f: nat)
      requires Valid() && i < |log| && log[i] == Take(f) && f in Free()
      ensures exists k :: i < k < |log| && log[k] == Give(f)
    {
      if forall k :: i < k < |log| ==> log[k] != Give(f) {
        assert log[..|log|] == log;
        StaysTaken(log, i, |log|, f);
      }
    }
  }

  /** The scan for a run stops before the last start: the last frame alone is free, a run
      of one frame is asked for, and the answer is none. */
  method LastStartIsNotTried() returns (a: FrameAllocator, r: Option<nat>)
    ensures fresh(a) && a.Valid() && a.total == 8 && a.Free() == {7} && r.None?
  {
    a := new FrameAllocator(1);
    a.FreeFrame(7 * 4096);
    assert a.Free() == {7};
    forall s: nat | s + 1 < 8 ensures !(Run(s, 1) <= a.Free()) {
      assert s in Run(s, 1);
    }
    r := a.AllocFrames(1);
  }
}
