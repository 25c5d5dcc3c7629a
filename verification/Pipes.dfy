/** Pipes, and the file-descriptor tables that hold their ends.

    A pipe counts its readers and writers; the counts stand for entries in the tables
    of all processes.  Methods are sections of the thread lock, which other CPUs' sections
    may follow in any order; the system calls at the end put sections together. */
module Pipes {
  import opened Common

  const MAX_FD: nat := 1024

  type Byte = nat

  datatype Entry = Empty | Other(kind: nat) | PipeRead(id: nat) | PipeWrite(id: nat)
  const CONSOLE_OUT := Other(0)
  const CONSOLE_IN := Other(1)

  datatype Pipe = Pipe(data: seq<Byte>, writeRefs: nat, readRefs: nat)

  type Tables = map<nat, seq<Entry>>
  type PipeTable = seq<Option<Pipe>>

  // ---- where an entry is ----

  /** The places, over all processes, that hold `e`. */
  ghost function Places(tables: Tables, e: Entry): set<(nat, nat)> {
    set p, fd | p in tables && 0 <= fd < |tables[p]| && tables[p][fd] == e :: (p, fd)
  }

  /** One entry overwritten. */
  function SetEntry(tables: Tables, p: nat, fd: nat, e: Entry): Tables
    requires p in tables && fd < |tables[p]|
  {
    tables[p := tables[p][fd := e]]
  }

  lemma PlacesAfterSet(tables: Tables, p: nat, fd: nat, e: Entry, x: Entry)
    requires p in tables && fd < |tables[p]|
    ensures Places(SetEntry(tables, p, fd, e), x) == Places(tables, x) - {(p, fd)} + if x == e then {(p, fd)} else {}
  {
  }

  lemma PlacesAfterGrow(tables: Tables, p: nat, more: seq<Entry>, x: Entry)
    requires forall i :: 0 <= i < |more| ==> more[i] == Empty
    requires x != Empty
    ensures Places(tables[p := (if p in tables then tables[p] else []) + more], x) == Places(tables, x)
  {
  }

  // ---- the counts ----

  ghost predicate Live(pipes: PipeTable, id: nat) { id < |pipes| && pipes[id].Some? }

  ghost predicate CountOk(pipes: PipeTable, tables: Tables, id: nat) {
    if Live(pipes, id)
    then pipes[id].value.readRefs == |Places(tables, PipeRead(id))|
      && pipes[id].value.writeRefs == |Places(tables, PipeWrite(id))|
    else Places(tables, PipeRead(id)) == {} && Places(tables, PipeWrite(id)) == {}
  }

  /** The counts of live pipes are the entries that name them, and no entry names a
      pipe that is gone. */
  ghost predicate CountsOk(pipes: PipeTable, tables: Tables) {
    forall id: nat :: CountOk(pipes, tables, id)
  }

  /** `pipe_clone`. */
  function Cloned(pipes: PipeTable, e: Entry): PipeTable {
    match e
    case PipeRead(id) =>
      if id < |pipes| && pipes[id].Some?
      then pipes[id := Some(pipes[id].value.(readRefs := pipes[id].value.readRefs + 1))]
      else pipes
    case PipeWrite(id) =>
      if id < |pipes| && pipes[id].Some?
      then pipes[id := Some(pipes[id].value.(writeRefs := pipes[id].value.writeRefs + 1))]
      else pipes
    case _ => pipes
  }

  function Down(n: nat): nat { if n > 0 then n - 1 else 0 }

  function Unless(p: Pipe): Option<Pipe> { if p.writeRefs == 0 && p.readRefs == 0 then None else Some(p) }

  /** `close_entry`: `close_read` or `close_write`, which free the slot with the last
      reference. */
  function Dropped(pipes: PipeTable, e: Entry): PipeTable {
    match e
    case PipeRead(id) =>
      if id < |pipes| && pipes[id].Some?
      then pipes[id := Unless(pipes[id].value.(readRefs := Down(pipes[id].value.readRefs)))]
      else pipes
    case PipeWrite(id) =>
      if id < |pipes| && pipes[id].Some?
      then pipes[id := Unless(pipes[id].value.(writeRefs := Down(pipes[id].value.writeRefs)))]
      else pipes
    case _ => pipes
  }

  predicate Names(e: Entry, id: nat) { e == PipeRead(id) || e == PipeWrite(id) }

  lemma Sizes(a: set<(nat, nat)>, x: (nat, nat))
    ensures x !in a ==> |a + {x}| == |a| + 1 && a - {x} == a
    ensures x in a ==> |a - {x}| == |a| - 1
    ensures a + {} == a
  {
  }

  lemma InstallCount(pipes: PipeTable, tables: Tables, tables': Tables, e: Entry, at: (nat, nat), id: nat)
    requires CountOk(pipes, tables, id) && (Names(e, id) ==> Live(pipes, id))
    requires var r, w := PipeRead(id), PipeWrite(id);
      && at !in Places(tables, r) && Places(tables', r) == Places(tables, r) + (if r == e then {at} else {})
      && at !in Places(tables, w) && Places(tables', w) == Places(tables, w) + (if w == e then {at} else {})
    ensures CountOk(Cloned(pipes, e), tables', id)
  {
    hide Places;
    var r, w := Places(tables, PipeRead(id)), Places(tables, PipeWrite(id));
    Sizes(r, at);
    Sizes(w, at);
    if e == PipeRead(id) {
      assert Cloned(pipes, e)[id] == Some(pipes[id].value.(readRefs := |r + {at}|));
    } else if e == PipeWrite(id) {
      assert Cloned(pipes, e)[id] == Some(pipes[id].value.(writeRefs := |w + {at}|));
    } else {
      assert r + {} == r && w + {} == w;
    }
  }

  /** An entry for a live pipe put in an empty place. */
  lemma InstallKeepsCounts(pipes: PipeTable, tables: Tables, tables': Tables, e: Entry, at: (nat, nat))
    requires CountsOk(pipes, tables) && (forall id: nat :: Names(e, id) ==> Live(pipes, id))
    requires forall x :: x != Empty ==> Places(tables', x) == Places(tables, x) + if x == e then {at} else {}
    requires forall x :: x != Empty ==> at !in Places(tables, x)
    ensures CountsOk(Cloned(pipes, e), tables')
  {
    hide Places, CountOk, Cloned, Live;
    forall id: nat ensures CountOk(Cloned(pipes, e), tables', id) {
      assert CountOk(pipes, tables, id);
      InstallCount(pipes, tables, tables', e, at, id);
    }
  }

  lemma RemoveCount(pipes: PipeTable, tables: Tables, tables': Tables, e: Entry, at: (nat, nat), id: nat)
    requires CountOk(pipes, tables, id) && at in Places(tables, e)
    requires var r, w := PipeRead(id), PipeWrite(id);
      && Places(tables', r) == Places(tables, r) - {at} && (r != e ==> at !in Places(tables, r))
      && Places(tables', w) == Places(tables, w) - {at} && (w != e ==> at !in Places(tables, w))
    ensures CountOk(Dropped(pipes, e), tables', id)
    ensures Names(e, id) ==>
      (!Live(Dropped(pipes, e), id) <==> Places(tables', PipeRead(id)) == {} && Places(tables', PipeWrite(id)) == {})
  {
    hide Places;
    var r, w := Places(tables, PipeRead(id)), Places(tables, PipeWrite(id));
    Sizes(r, at);
    Sizes(w, at);
    if e == PipeRead(id) {
      assert Live(pipes, id) && Down(pipes[id].value.readRefs) == |r - {at}|;
      assert Dropped(pipes, e)[id] == Unless(pipes[id].value.(readRefs := |r - {at}|));
    } else if e == PipeWrite(id) {
      assert Live(pipes, id) && Down(pipes[id].value.writeRefs) == |w - {at}|;
      assert Dropped(pipes, e)[id] == Unless(pipes[id].value.(writeRefs := |w - {at}|));
    } else {
      OthersStay(pipes, e, id);
    }
  }

  lemma OthersStay(pipes: PipeTable, e: Entry, id: nat)
    requires !Names(e, id)
    ensures Live(Dropped(pipes, e), id) == Live(pipes, id) && (Live(pipes, id) ==> Dropped(pipes, e)[id] == pipes[id])
  {
  }

  /** The entry at `at` taken away: the slot goes exactly with the last entry that
      names it. */
  lemma RemoveKeepsCounts(pipes: PipeTable, tables: Tables, tables': Tables, e: Entry, at: (nat, nat))
    requires CountsOk(pipes, tables) && e != Empty && at in Places(tables, e)
    requires forall x :: x != Empty ==> Places(tables', x) == Places(tables, x) - {at}
    requires forall x :: x != Empty && x != e ==> at !in Places(tables, x)
    ensures CountsOk(Dropped(pipes, e), tables')
    ensures forall id: nat :: Names(e, id) ==>
      (!Live(Dropped(pipes, e), id) <==> Places(tables', PipeRead(id)) == {} && Places(tables', PipeWrite(id)) == {})
  {
    hide Places, CountOk, Dropped, Live;
    forall id: nat
      ensures CountOk(Dropped(pipes, e), tables', id)
      ensures Names(e, id) ==>
        (!Live(Dropped(pipes, e), id) <==> Places(tables', PipeRead(id)) == {} && Places(tables', PipeWrite(id)) == {})
    {
      assert CountOk(pipes, tables, id);
      RemoveCount(pipes, tables, tables', e, at, id);
    }
  }

  // ---- the bytes ----

  /** All that was accepted by a pipe, and all that came out of it. */
  datatype Hist = Hist(accepted: seq<Byte>, delivered: seq<Byte>)

  ghost predicate StreamOk(p: Pipe, h: Hist) { h.delivered + p.data == h.accepted }

  /** What came out, in order, followed by what is buffered, is what went in. */
  ghost predicate StreamsOk(pipes: PipeTable, hist: seq<Hist>) {
    |hist| == |pipes| && forall i :: 0 <= i < |pipes| && pipes[i].Some? ==> StreamOk(pipes[i].value, hist[i])
  }

  datatype Wait = Wait(pipe: nat, len: nat)
  /** A thread: what it sleeps on, and what the last wake put into its buffer. */
  datatype Reader = Reader(wait: Option<Wait>, got: seq<Byte>)

  predicate Waits(r: Reader, id: nat) { r.wait.Some? && r.wait.value.pipe == id }

  datatype Served = Served(readers: seq<Reader>, rest: seq<Byte>, out: seq<Byte>)

  /** What a thread takes of the bytes that are left: as much as its buffer holds, if it
      sleeps on the pipe and the buffer is still writable. */
  function Share(r: Reader, id: nat, writable: bool, rest: seq<Byte>): (n: nat)
    ensures n <= |rest|
  {
    if Waits(r, id) && writable then Min(r.wait.value.len, |rest|) else 0
  }

  function Woken(r: Reader, id: nat, writable: bool, rest: seq<Byte>): Reader {
    if Waits(r, id) && writable then Reader(None, rest[..Share(r, id, writable, rest)]) else r
  }

  /** Threads [..k] have been served from `data`, in the order of the thread table. */
  ghost function Serve(readers: seq<Reader>, id: nat, writable: set<nat>, data: seq<Byte>, k: nat): (s: Served)
    requires k <= |readers|
    ensures |s.readers| == |readers|
  {
    if k == 0 then Served(readers, data, []) else
      var s := Serve(readers, id, writable, data, k - 1);
      var r, ok := readers[k - 1], k - 1 in writable;
      var n := Share(r, id, ok, s.rest);
      Served(s.readers[k - 1 := Woken(r, id, ok, s.rest)], s.rest[n..], s.out + s.rest[..n])
  }

  lemma MoveOver(out: seq<Byte>, rest: seq<Byte>, n: nat)
    requires n <= |rest|
    ensures out + rest[..n] + rest[n..] == out + rest
  {
    assert rest[..n] + rest[n..] == rest;
    assert out + rest[..n] + rest[n..] == out + (rest[..n] + rest[n..]);
  }

  /** No byte is lost or reordered: what the readers got and what is left is what was
      there. */
  lemma {:induction false} ServeConserves(readers: seq<Reader>, id: nat, writable: set<nat>, data: seq<Byte>, k: nat)
    requires k <= |readers|
    ensures var s := Serve(readers, id, writable, data, k); s.out + s.rest == data
  {
    hide Share, Woken;
    if k == 0 {
      assert [] + data == data;
    } else {
      ServeConserves(readers, id, writable, data, k - 1);
      var s := Serve(readers, id, writable, data, k - 1);
      MoveOver(s.out, s.rest, Share(readers[k - 1], id, k - 1 in writable, s.rest));
    }
  }

  lemma {:induction false} ServeUntouched(
      readers: seq<Reader>, id: nat, writable: set<nat>, data: seq<Byte>, k: nat, j: nat)
    requires k <= j < |readers|
    ensures Serve(readers, id, writable, data, k).readers[j] == readers[j]
  {
    if k > 0 {
      ServeUntouched(readers, id, writable, data, k - 1, j);
    }
  }

  /** Nobody whose buffer is writable is left asleep on the pipe. */
  lemma {:induction false} AllServed(readers: seq<Reader>, id: nat, writable: set<nat>, data: seq<Byte>, k: nat, j: nat)
    requires k <= |readers| && j < k
    ensures var s := Serve(readers, id, writable, data, k);
      && (Waits(readers[j], id) && j in writable ==>
           s.readers[j].wait.None? && |s.readers[j].got| <= readers[j].wait.value.len)
      && (!Waits(readers[j], id) || j !in writable ==> s.readers[j] == readers[j])
  {
    if j < k - 1 {
      AllServed(readers, id, writable, data, k - 1, j);
    } else {
      ServeUntouched(readers, id, writable, data, j, j);
    }
  }

  /** What the threads before `k` that are served have room for. */
  ghost function Asked(readers: seq<Reader>, id: nat, writable: set<nat>, k: nat): nat
    requires k <= |readers|
  {
    if k == 0 then 0
    else
      var r := readers[k - 1];
      Asked(readers, id, writable, k - 1) + if Waits(r, id) && k - 1 in writable then r.wait.value.len else 0
  }

  lemma {:induction false} RestIs(readers: seq<Reader>, id: nat, writable: set<nat>, data: seq<Byte>, k: nat)
    requires k <= |readers|
    ensures Serve(readers, id, writable, data, k).rest == data[Min(Asked(readers, id, writable, k), |data|)..]
  {
    if k > 0 {
      RestIs(readers, id, writable, data, k - 1);
    }
  }

  lemma {:induction false} ServedAt(
      readers: seq<Reader>, id: nat, writable: set<nat>, data: seq<Byte>, k: nat, j: nat)
    requires j < k <= |readers|
    ensures var rest := Serve(readers, id, writable, data, j).rest;
      Serve(readers, id, writable, data, k).readers[j] == Woken(readers[j], id, j in writable, rest)
  {
    hide Woken, Share;
    if j < k - 1 {
      ServedAt(readers, id, writable, data, k - 1, j);
    }
  }

  /** A woken thread gets the bytes after what was asked before it, and so none at all,
      which reads as the end of the file, exactly when that was all there is. */
  lemma WokenGetsSlice(readers: seq<Reader>, id: nat, writable: set<nat>, data: seq<Byte>, j: nat)
    requires j < |readers| && Waits(readers[j], id) && j in writable && readers[j].wait.value.len > 0
    ensures var before := Asked(readers, id, writable, j);
      var got := Serve(readers, id, writable, data, |readers|).readers[j].got;
      && got == data[Min(before, |data|)..Min(before + readers[j].wait.value.len, |data|)]
      && (got == [] <==> |data| <= before)
  {
    hide Serve, Asked;
    ServedAt(readers, id, writable, data, |readers|, j);
    RestIs(readers, id, writable, data, j);
    FirstOfRest(data, Asked(readers, id, writable, j), readers[j].wait.value.len);
  }

  lemma FirstOfRest(data: seq<Byte>, before: nat, len: nat)
    requires len > 0
    ensures var rest := data[Min(before, |data|)..];
      && rest[..Min(len, |rest|)] == data[Min(before, |data|)..Min(before + len, |data|)]
      && (rest[..Min(len, |rest|)] == [] <==> |data| <= before)
  {
    var lo := Min(before, |data|);
    var n := Min(len, |data| - lo);
    assert data[lo..][..n] == data[lo..lo + n];
  }

  /** With nothing left a thread is woken all the same. */
  lemma WokenWithNothing(readers: seq<Reader>, id: nat, writable: set<nat>, j: nat)
    requires j < |readers| && Waits(readers[j], id) && j in writable
    ensures Serve(readers, id, writable, [], |readers|).readers[j] == Reader(None, [])
  {
    hide Serve;
    ServedAt(readers, id, writable, [], |readers|, j);
    ServeNothing(readers, id, writable, j);
  }

  // ---- who sleeps ----

  /** The state in which `sys_read` puts a thread to sleep. */
  ghost predicate Quiet(pipes: PipeTable, id: nat) {
    Live(pipes, id) && pipes[id].value.data == [] && pipes[id].value.writeRefs > 0
  }

  /** Nobody sleeps who could be served: the pipe of every sleeping thread is empty and
      has a writer, except for those `but`. */
  ghost predicate SleepersOk(pipes: PipeTable, readers: seq<Reader>, skipped: set<nat>) {
    forall k :: 0 <= k < |readers| && readers[k].wait.Some? && k !in skipped ==>
      Quiet(pipes, readers[k].wait.value.pipe)
  }

  /** The same for all pipes but `id`. */
  ghost predicate SleepersOkBut(pipes: PipeTable, readers: seq<Reader>, skipped: set<nat>, id: nat) {
    forall k :: 0 <= k < |readers| && readers[k].wait.Some? && k !in skipped && readers[k].wait.value.pipe != id ==>
      Quiet(pipes, readers[k].wait.value.pipe)
  }

  /** The threads that a wake-up on the pipe passes over: their buffers are not writable. */
  ghost function Passed(readers: seq<Reader>, id: nat, writable: set<nat>): set<nat> {
    set k | 0 <= k < |readers| && Waits(readers[k], id) && k !in writable
  }

  /** Only threads that sleep on the pipe have changed. */
  ghost predicate OnlyWaiters(was: seq<Reader>, now: seq<Reader>, id: nat) {
    |was| == |now| && forall k :: 0 <= k < |was| && !Waits(was[k], id) ==> now[k] == was[k]
  }

  lemma ServeOnlyWaiters(readers: seq<Reader>, id: nat, writable: set<nat>, data: seq<Byte>)
    ensures OnlyWaiters(readers, Serve(readers, id, writable, data, |readers|).readers, id)
  {
    hide Serve;
    forall k | 0 <= k < |readers| && !Waits(readers[k], id)
      ensures Serve(readers, id, writable, data, |readers|).readers[k] == readers[k]
    {
      AllServed(readers, id, writable, data, |readers|, k);
    }
  }

  /** Only threads whose buffer is not writable were passed over since. */
  ghost predicate SkipsOnly(was: set<nat>, now: set<nat>, writable: set<nat>) { now - was !! writable }

  lemma QuietStays(a: PipeTable, b: PipeTable, readers: seq<Reader>, skipped: set<nat>)
    requires SleepersOk(a, readers, skipped) && forall id: nat :: Quiet(a, id) ==> Quiet(b, id)
    ensures SleepersOk(b, readers, skipped)
  {
  }

  /** A change of one pipe disturbs no sleeper of another. */
  lemma OthersQuiet(a: PipeTable, b: PipeTable, readers: seq<Reader>, skipped: set<nat>, id: nat)
    requires SleepersOk(a, readers, skipped) && forall j: nat :: j != id && Quiet(a, j) ==> Quiet(b, j)
    ensures SleepersOkBut(b, readers, skipped, id)
  {
  }

  /** The bytes of one pipe are no matter to the sleepers of the others. */
  lemma OthersStayQuiet(pipes: PipeTable, id: nat, data: seq<Byte>, readers: seq<Reader>, skipped: set<nat>)
    requires SleepersOkBut(pipes, readers, skipped, id) && Live(pipes, id)
    ensures SleepersOkBut(pipes[id := Some(pipes[id].value.(data := data))], readers, skipped, id)
  {
  }

  lemma AllButOne(pipes: PipeTable, readers: seq<Reader>, skipped: set<nat>, id: nat)
    requires SleepersOk(pipes, readers, skipped)
    ensures SleepersOkBut(pipes, readers, skipped, id)
  {
  }

  /** A write leaves its sleepers to the notification that follows. */
  lemma PendingOk(pipes: PipeTable, readers: seq<Reader>, skipped: set<nat>, due: set<nat>, id: nat)
    requires SleepersOkBut(pipes, readers, skipped + due, id)
    ensures SleepersOk(pipes, readers, skipped + (due + Passed(readers, id, {})))
  {
  }

  /** After the notification nobody on the pipe is due any more. */
  lemma SettledOk(pipes: PipeTable, readers: seq<Reader>, skipped: set<nat>, due: set<nat>, id: nat, writable: set<nat>,
      data: seq<Byte>)
    requires SleepersOkBut(pipes, readers, skipped + due, id)
    ensures var s := Serve(readers, id, writable, data, |readers|);
      SleepersOk(pipes, s.readers, skipped + Passed(readers, id, writable) + (due - Passed(readers, id, {})))
  {
    hide Serve, Quiet;
    var s := Serve(readers, id, writable, data, |readers|);
    forall k | 0 <= k < |readers| && s.readers[k].wait.Some?
        && k !in skipped + Passed(readers, id, writable) + (due - Passed(readers, id, {}))
      ensures Quiet(pipes, s.readers[k].wait.value.pipe)
    {
      AllServed(readers, id, writable, data, |readers|, k);
    }
  }

  /** A pipe that is not quiet has no sleeper that was not passed over. */
  lemma NobodySleeps(pipes: PipeTable, readers: seq<Reader>, skipped: set<nat>, id: nat)
    requires SleepersOk(pipes, readers, skipped) && !Quiet(pipes, id)
    ensures forall k :: 0 <= k < |readers| && Waits(readers[k], id) ==> k in skipped
  {
  }

  /** A reference more, or an end for reading less, keeps a quiet pipe quiet. */
  lemma CloneAndDropKeepQuiet(pipes: PipeTable, e: Entry, id: nat)
    requires Quiet(pipes, id)
    ensures Quiet(Cloned(pipes, e), id)
    ensures e != PipeWrite(id) ==> Quiet(Dropped(pipes, e), id)
  {
  }

  lemma CloneKeepsSleepers(pipes: PipeTable, e: Entry, readers: seq<Reader>, skipped: set<nat>)
    requires SleepersOk(pipes, readers, skipped)
    ensures SleepersOk(Cloned(pipes, e), readers, skipped)
  {
    hide Quiet, Cloned;
    forall id: nat | Quiet(pipes, id) ensures Quiet(Cloned(pipes, e), id) {
      CloneAndDropKeepQuiet(pipes, e, id);
    }
    QuietStays(pipes, Cloned(pipes, e), readers, skipped);
  }

  lemma DropKeepsSleepers(pipes: PipeTable, e: Entry, readers: seq<Reader>, skipped: set<nat>)
    requires SleepersOk(pipes, readers, skipped)
    ensures !e.PipeWrite? ==> SleepersOk(Dropped(pipes, e), readers, skipped)
    ensures e.PipeWrite? ==> SleepersOkBut(Dropped(pipes, e), readers, skipped, e.id)
  {
    hide Quiet, Dropped;
    forall id: nat | Quiet(pipes, id) && e != PipeWrite(id) ensures Quiet(Dropped(pipes, e), id) {
      CloneAndDropKeepQuiet(pipes, e, id);
    }
    if e.PipeWrite? {
      OthersQuiet(pipes, Dropped(pipes, e), readers, skipped, e.id);
    } else {
      QuietStays(pipes, Dropped(pipes, e), readers, skipped);
    }
  }

  // ---- closing ----

  /** The pipes and the threads after `close_entry` of `e`. */
  ghost function CloseOne(
      pipes: PipeTable, readers: seq<Reader>, e: Entry, writable: set<nat>): (r: (PipeTable, seq<Reader>))
    ensures |r.1| == |readers|
  {
    var b := Dropped(pipes, e);
    if !e.PipeWrite? then (b, readers)
    else
      var s := Serve(readers, e.id, writable, DataOf(b, e.id), |readers|);
      (if Live(b, e.id) then b[e.id := Some(b[e.id].value.(data := s.rest))] else b, s.readers)
  }

  /** The same for the first `n` entries of `t`, in order. */
  ghost function CloseFirst(pipes: PipeTable, readers: seq<Reader>, t: seq<Entry>, n: nat, writable: set<nat>)
    : (r: (PipeTable, seq<Reader>))
    requires n <= |t|
    ensures |r.1| == |readers|
  {
    if n == 0 then (pipes, readers)
    else
      var s := CloseFirst(pipes, readers, t, n - 1, writable);
      CloseOne(s.0, s.1, t[n - 1], writable)
  }

  /** A thread is woken exactly when its buffer is writable and an end for writing to its
      pipe is among the closed entries. */
  lemma {:induction false} CloseWakesIff(
      pipes: PipeTable, readers: seq<Reader>, t: seq<Entry>, n: nat, writable: set<nat>, k: nat)
    requires n <= |t| && k < |readers| && readers[k].wait.Some?
    ensures var r := CloseFirst(pipes, readers, t, n, writable).1[k];
      && (r.wait.None? <==> k in writable && PipeWrite(readers[k].wait.value.pipe) in t[..n])
      && (r.wait.Some? ==> r == readers[k])
  {
    if n > 0 {
      CloseWakesIff(pipes, readers, t, n - 1, writable, k);
      var s := CloseFirst(pipes, readers, t, n - 1, writable);
      assert t[..n] == t[..n - 1] + [t[n - 1]];
      if t[n - 1].PipeWrite? {
        AllServed(s.1, t[n - 1].id, writable, DataOf(Dropped(s.0, t[n - 1]), t[n - 1].id), |readers|, k);
      }
    }
  }

  // ---- the operations ----

  ghost predicate TablesOk(tables: Tables) { forall p :: p in tables ==> |tables[p]| <= MAX_FD }

  /** Only reference counts differ, and slots that are gone. */
  ghost predicate SameData(a: PipeTable, b: PipeTable) {
    |a| == |b| && forall i :: 0 <= i < |a| && b[i].Some? ==> a[i].Some? && b[i].value.data == a[i].value.data
  }

  lemma SameDataKeepsStreams(a: PipeTable, b: PipeTable, hist: seq<Hist>)
    requires StreamsOk(a, hist) && SameData(a, b)
    ensures StreamsOk(b, hist)
  {
    forall i | 0 <= i < |b| && b[i].Some? ensures StreamOk(b[i].value, hist[i]) {
      assert StreamOk(a[i].value, hist[i]);
    }
  }

  lemma CloneAndDropKeepData(pipes: PipeTable, e: Entry)
    ensures SameData(pipes, Cloned(pipes, e)) && SameData(pipes, Dropped(pipes, e))
  {
  }

  /** The same slots in use, with the same counts. */
  ghost predicate SameRefs(a: PipeTable, b: PipeTable) {
    && |a| == |b|
    && (forall i :: 0 <= i < |a| ==> (a[i].Some? <==> b[i].Some?))
    && (forall i :: 0 <= i < |a| && a[i].Some? ==>
          a[i].value.readRefs == b[i].value.readRefs && a[i].value.writeRefs == b[i].value.writeRefs)
  }

  predicate FreeAt(t: seq<Entry>, i: nat) { i < MAX_FD && (i >= |t| || t[i] == Empty) }

  /** At least two descriptors are free. */
  ghost predicate RoomForTwo(t: seq<Entry>) { exists i: nat, j: nat :: i < j && FreeAt(t, i) && FreeAt(t, j) }

  /** A table is full once its last free place is taken. */
  lemma TwoPlaces(t: seq<Entry>, r: nat, e: Entry)
    requires |t| <= MAX_FD && LowestEmpty(t, r) && r < MAX_FD && e != Empty
    ensures var u := if r < |t| then t[r := e] else t + [e]; RoomForTwo(t) <==> !FullTable(u)
  {
    var u := if r < |t| then t[r := e] else t + [e];
    assert FreeAt(t, r);
    if RoomForTwo(t) {
      var i: nat, j: nat :| i < j && FreeAt(t, i) && FreeAt(t, j);
      assert FreeAt(u, j);
    }
    if !FullTable(u) {
      if |u| < MAX_FD {
        assert FreeAt(t, |u|) && r < |u|;
      } else {
        var j: nat :| j < MAX_FD && u[j] == Empty;
        assert FreeAt(t, j) && r < j;
      }
    }
  }

  lemma NoPlace(t: seq<Entry>)
    requires FullTable(t)
    ensures !RoomForTwo(t)
  {
  }

  /** The same entries, and free ones at the end. */
  ghost predicate Padded(a: seq<Entry>, b: seq<Entry>) {
    |a| <= |b| && forall j :: 0 <= j < |b| ==> b[j] == if j < |a| then a[j] else Empty
  }

  /** No descriptor is free. */
  ghost predicate FullTable(t: seq<Entry>) { |t| == MAX_FD && forall j :: 0 <= j < MAX_FD ==> t[j] != Empty }

  /** Whatever a table names is live. */
  lemma NamedIsLive(pipes: PipeTable, tables: Tables, p: nat, fd: nat, id: nat)
    requires CountsOk(pipes, tables) && p in tables && fd < |tables[p]| && Names(tables[p][fd], id)
    ensures Live(pipes, id)
  {
    assert CountOk(pipes, tables, id);
    assert (p, fd) in Places(tables, tables[p][fd]);
  }

  /** The lowest empty entry, if any. */
  ghost predicate LowestEmpty(table: seq<Entry>, fd: nat) {
    && fd <= |table| && (forall j :: 0 <= j < fd ==> table[j] != Empty)
    && (fd < |table| ==> table[fd] == Empty)
  }

  /** Table `t` with `e` at its lowest free place `fd`. */
  function Taking(t: seq<Entry>, fd: nat, e: Entry): seq<Entry>
    requires fd <= |t|
  {
    if fd < |t| then t[fd := e] else t + [e]
  }

  /** Two entries taken one after the other. */
  ghost predicate TwoTaken(was: seq<Entry>, now: seq<Entry>, a: nat, b: nat, e: Entry, f: Entry) {
    && a < b < |now| && now[a] == e && now[b] == f
    && forall j :: 0 <= j < |now| && j != a && j != b ==> j < |was| && now[j] == was[j]
  }

  lemma BothTaken(was: seq<Entry>, a: nat, b: nat, e: Entry, f: Entry)
    requires LowestEmpty(was, a) && e != Empty && LowestEmpty(Taking(was, a, e), b)
    ensures TwoTaken(was, Taking(Taking(was, a, e), b, f), a, b, e, f)
  {
  }

  predicate IsPipe(e: Entry) { e.PipeRead? || e.PipeWrite? }

  /** The pipe that an entry names is there. */
  ghost predicate Named(pipes: PipeTable, e: Entry) { IsPipe(e) ==> Live(pipes, e.id) }

  /** An entry written over another one keeps the counts right exactly when that one is no
      end of a pipe and the pipe of the new one is there. */
  lemma OverwriteKeepsIff(pipes: PipeTable, tables: Tables, p: nat, fd: nat, e: Entry)
    requires CountsOk(pipes, tables) && p in tables && fd < |tables[p]|
    ensures CountsOk(Cloned(pipes, e), SetEntry(tables, p, fd, e)) <==> !IsPipe(tables[p][fd]) && Named(pipes, e)
  {
    hide Places, Cloned, CountsOk;
    if IsPipe(tables[p][fd]) {
      LeftOpen(pipes, tables, p, fd, e);
    } else if Named(pipes, e) {
      FreePlaceKeepsCounts(pipes, tables, p, fd, e);
    } else {
      Dangles(pipes, tables, p, fd, e);
    }
  }

  lemma FreePlaceKeepsCounts(pipes: PipeTable, tables: Tables, p: nat, fd: nat, e: Entry)
    requires CountsOk(pipes, tables) && p in tables && fd < |tables[p]| && !IsPipe(tables[p][fd]) && Named(pipes, e)
    ensures CountsOk(Cloned(pipes, e), SetEntry(tables, p, fd, e))
  {
    hide Places, Cloned;
    var tables', at := SetEntry(tables, p, fd, e), (p, fd);
    forall id: nat ensures CountOk(Cloned(pipes, e), tables', id) {
      assert CountOk(pipes, tables, id);
      NotThere(tables, p, fd, PipeRead(id));
      NotThere(tables, p, fd, PipeWrite(id));
      PlacesAfterSet(tables, p, fd, e, PipeRead(id));
      PlacesAfterSet(tables, p, fd, e, PipeWrite(id));
      Sizes(Places(tables, PipeRead(id)), at);
      Sizes(Places(tables, PipeWrite(id)), at);
      InstallCount(pipes, tables, tables', e, at, id);
    }
  }

  /** An entry for a pipe that is gone is not counted. */
  lemma Dangles(pipes: PipeTable, tables: Tables, p: nat, fd: nat, e: Entry)
    requires p in tables && fd < |tables[p]| && !Named(pipes, e)
    ensures !CountsOk(Cloned(pipes, e), SetEntry(tables, p, fd, e))
  {
    hide Places;
    Here(SetEntry(tables, p, fd, e), p, fd);
    assert !CountOk(Cloned(pipes, e), SetEntry(tables, p, fd, e), e.id);
  }

  lemma NotThere(tables: Tables, p: nat, fd: nat, x: Entry)
    requires p in tables && fd < |tables[p]| && tables[p][fd] != x
    ensures (p, fd) !in Places(tables, x)
  {
  }

  /** The end of the pipe that was overwritten stays counted. */
  lemma LeftOpen(pipes: PipeTable, tables: Tables, p: nat, fd: nat, e: Entry)
    requires CountsOk(pipes, tables) && p in tables && fd < |tables[p]| && IsPipe(tables[p][fd])
    ensures !CountsOk(Cloned(pipes, e), SetEntry(tables, p, fd, e))
  {
    hide Places;
    var o, at := tables[p][fd], (p, fd);
    var id := o.id;
    var tables', pipes' := SetEntry(tables, p, fd, e), Cloned(pipes, e);
    assert CountOk(pipes, tables, id);
    assert at in Places(tables, o) by { Here(tables, p, fd); }
    PlacesAfterSet(tables, p, fd, e, o);
    Sizes(Places(tables, o), at);
    assert Places(tables, o) - {at} + {at} == Places(tables, o)
      && Places(tables, o) - {at} + {} == Places(tables, o) - {at};
    assert !CountOk(pipes', tables', id);
  }

  lemma Here(tables: Tables, p: nat, fd: nat)
    requires p in tables && fd < |tables[p]|
    ensures (p, fd) in Places(tables, tables[p][fd])
  {
  }

  /** No pipe that is still there accepted or lost a byte; readers may have got some. */
  ghost predicate NoByteLost(pipes: PipeTable, hist: seq<Hist>, pipes': PipeTable, hist': seq<Hist>) {
    && |hist| == |pipes| && |hist'| == |pipes'|
    && forall i: nat :: Live(pipes, i) && Live(pipes', i) ==>
        hist'[i].accepted == hist[i].accepted && hist[i].delivered <= hist'[i].delivered
  }

  function SlotOf(pipes: PipeTable, id: nat): Option<Pipe> { if id < |pipes| then pipes[id] else None }

  ghost function DataOf(pipes: PipeTable, id: nat): seq<Byte> { if Live(pipes, id) then pipes[id].value.data else [] }

  /** One entry closed: only the slot it names changes, and it stays only with a
      reference left. */
  ghost predicate OneClosed(e: Entry, pipes: PipeTable, hist: seq<Hist>, pipes': PipeTable, hist': seq<Hist>) {
    && NoByteLost(pipes, hist, pipes', hist')
    && (forall id: nat :: Live(pipes', id) ==> Live(pipes, id))
    && (forall id: nat :: !Names(e, id) ==> SlotOf(pipes', id) == SlotOf(pipes, id))
    && (forall id: nat :: Names(e, id) && Live(pipes', id) ==>
         pipes'[id].value.readRefs + pipes'[id].value.writeRefs > 0)
  }

  /** The same for the first `n` entries of `t`. */
  ghost predicate SomeClosed(
      t: seq<Entry>, n: nat, pipes: PipeTable, hist: seq<Hist>, pipes': PipeTable, hist': seq<Hist>) {
    && NoByteLost(pipes, hist, pipes', hist')
    && (forall id: nat :: Live(pipes', id) ==> Live(pipes, id))
    && (forall id: nat :: !NamedIn(t, n, id) ==> SlotOf(pipes', id) == SlotOf(pipes, id))
    && (forall id: nat :: NamedIn(t, n, id) && Live(pipes', id) ==>
         pipes'[id].value.readRefs + pipes'[id].value.writeRefs > 0)
  }

  lemma OneMoreClosed(t: seq<Entry>, n: nat, a: PipeTable, ha: seq<Hist>, b: PipeTable, hb: seq<Hist>, c: PipeTable,
      hc: seq<Hist>)
    requires n < |t| && SomeClosed(t, n, a, ha, b, hb) && OneClosed(t[n], b, hb, c, hc)
    ensures SomeClosed(t, n + 1, a, ha, c, hc)
  {
    forall id: nat ensures NamedIn(t, n + 1, id) <==> NamedIn(t, n, id) || Names(t[n], id) {
      assert NamedIn(t, n, id) ==> exists j :: 0 <= j < n + 1 && j < |t| && Names(t[j], id);
    }
    forall id: nat | NamedIn(t, n + 1, id) && Live(c, id) ensures c[id].value.readRefs + c[id].value.writeRefs > 0 {
      assert !Names(t[n], id) ==> SlotOf(c, id) == SlotOf(b, id);
    }
    forall i: nat | Live(a, i) && Live(c, i)
      ensures hc[i].accepted == ha[i].accepted && ha[i].delivered <= hc[i].delivered
    {
      assert Live(b, i);
    }
  }

  lemma NoneClosed(t: seq<Entry>, pipes: PipeTable, hist: seq<Hist>)
    requires |hist| == |pipes|
    ensures SomeClosed(t, 0, pipes, hist, pipes, hist)
  {
  }

  lemma SomeClosedFacts(t: seq<Entry>, a: PipeTable, ha: seq<Hist>, b: PipeTable, hb: seq<Hist>)
    requires SomeClosed(t, |t|, a, ha, b, hb)
    ensures NoByteLost(a, ha, b, hb) && forall id: nat :: !NamedIn(t, |t|, id) ==> SlotOf(b, id) == SlotOf(a, id)
  {
  }

  lemma NoneNamed()
    ensures forall id: nat :: !NamedIn([], 0, id)
  {
  }

  /** A named slot is there exactly while something still names it. */
  lemma ClosedIffUnnamed(
      t: seq<Entry>, a: PipeTable, ha: seq<Hist>, b: PipeTable, hb: seq<Hist>, tables: Tables, id: nat)
    requires SomeClosed(t, |t|, a, ha, b, hb) && NamedIn(t, |t|, id) && CountsOk(b, tables)
    ensures Live(b, id) <==> Places(tables, PipeRead(id)) != {} || Places(tables, PipeWrite(id)) != {}
  {
    hide Places;
    assert CountOk(b, tables, id);
  }

  lemma StreamsSized(pipes: PipeTable, hist: seq<Hist>)
    requires StreamsOk(pipes, hist)
    ensures |hist| == |pipes|
  {
  }

  /** What closing an entry and serving the readers does to the streams. */
  lemma DropThenServe(e: Entry, a: PipeTable, ha: seq<Hist>, c: PipeTable, hc: seq<Hist>)
    requires |ha| == |a|
    requires var b := Dropped(a, e);
      (c == b && hc == ha)
      || exists id: nat, data, out :: Names(e, id) && Live(b, id)
           && c == b[id := Some(b[id].value.(data := data))]
           && hc == ha[id := ha[id].(delivered := ha[id].delivered + out)]
    ensures OneClosed(e, a, ha, c, hc)
  {
    forall id: nat | !Names(e, id) ensures SlotOf(c, id) == SlotOf(a, id) {
      OthersStay(a, e, id);
    }
  }

  /** One of the first `n` entries of `t` names pipe `id`. */
  ghost predicate NamedIn(t: seq<Entry>, n: nat, id: nat) { exists j :: 0 <= j < n && j < |t| && Names(t[j], id) }

  function TableOf(tables: Tables, p: nat): seq<Entry> { if p in tables then tables[p] else [] }

  function Entries(n: nat): (r: seq<Entry>)
    ensures |r| == n && forall i :: 0 <= i < n ==> r[i] == Empty
  {
    if n == 0 then [] else Entries(n - 1) + [Empty]
  }

  class Descriptors {
    var pipes: PipeTable
    var tables: Tables
    var readers: seq<Reader>
    ghost var hist: seq<Hist>
    ghost var skipped: set<nat>    // asleep: the buffer was not writable when the bytes came
    ghost var due: set<nat>        // asleep: a writer has written and not notified yet

    ghost predicate Valid()
      reads this
    {
      && CountsOk(pipes, tables) && StreamsOk(pipes, hist) && TablesOk(tables)
      && SleepersOk(pipes, readers, skipped + due)
    }

    constructor (threads: nat)
      ensures Valid() && pipes == [] && tables == map[] && |readers| == threads && skipped == {} && due == {}
      ensures forall j :: 0 <= j < threads ==> readers[j].wait.None?
    {
      pipes, tables, hist, skipped, due := [], map[], [], {}, {};
      readers := seq(threads, _ => Reader(None, []));
    }

    /** `pipe::create`: the first free slot, or a new one; no reference yet. */
    method CreatePipe() returns (id: nat)
      requires Valid()
      modifies this`pipes, this`hist
      ensures Valid() && !Live(old(pipes), id) && Live(pipes, id) && pipes[id].value == Pipe([], 0, 0)
        && hist[id] == Hist([], [])
      ensures |old(pipes)| <= |pipes| && forall j :: 0 <= j < |old(pipes)| && j != id ==>
        pipes[j] == old(pipes)[j] && hist[j] == old(hist)[j]
    {
      hide Places;
      id := 0;
      while id < |pipes| && pipes[id].Some?
        invariant 0 <= id <= |pipes|
      {
        id := id + 1;
      }
      ghost var was := pipes;
      if id < |pipes| {
        pipes, hist := pipes[id := Some(Pipe([], 0, 0))], hist[id := Hist([], [])];
      } else {
        pipes, hist := pipes + [Some(Pipe([], 0, 0))], hist + [Hist([], [])];
      }
      forall i: nat ensures CountOk(pipes, tables, i) {
        assert CountOk(was, tables, i);
      }
      QuietStays(was, pipes, readers, skipped + due);
    }

    /** Empty entries up to `n`, and the table itself if there was none. */
    method Widen(p: nat, n: nat)
      requires Valid() && n <= MAX_FD
      modifies this`tables
      ensures Valid() && p in tables && tables == old(tables)[p := tables[p]]
      ensures var was := TableOf(old(tables), p); tables[p] == was + Entries(if n > |was| then n - |was| else 0)
    {
      hide Places, CountOk, SleepersOk;
      var was := TableOf(tables, p);
      var more := Entries(if n > |was| then n - |was| else 0);
      GrowKeepsCounts(pipes, tables, p, more);
      tables := tables[p := was + more];
    }

    /** Puts an entry in an empty place and counts it. */
    method Install(p: nat, fd: nat, e: Entry)
      requires Valid() && p in tables && fd < |tables[p]| && tables[p][fd] == Empty && Named(pipes, e)
      modifies this`pipes, this`tables
      ensures Valid() && pipes == Cloned(old(pipes), e) && tables == SetEntry(old(tables), p, fd, e)
    {
      hide CountOk;
      if e != Empty {
        forall x | x != Empty
          ensures Places(SetEntry(tables, p, fd, e), x) == Places(tables, x) + (if x == e then {(p, fd)} else {})
          ensures (p, fd) !in Places(tables, x)
        {
          PlacesAfterSet(tables, p, fd, e, x);
        }
        InstallKeepsCounts(pipes, tables, SetEntry(tables, p, fd, e), e, (p, fd));
      } else {
        assert tables[p][fd := Empty] == tables[p];
        assert SetEntry(tables, p, fd, e) == tables;
      }
      CloneAndDropKeepData(pipes, e);
      SameDataKeepsStreams(pipes, Cloned(pipes, e), hist);
      CloneKeepsSleepers(pipes, e, readers, skipped + due);
      pipes, tables := Cloned(pipes, e), SetEntry(tables, p, fd, e);
    }

    /** The lowest free descriptor, or None when all of them are taken. */
    method AllocFd(p: nat, e: Entry) returns (r: Option<nat>)
      requires Valid() && e != Empty && Named(pipes, e)
      modifies this`pipes, this`tables
      ensures Valid()
      ensures var was := TableOf(old(tables), p);
        && (r.None? <==> FullTable(was))
        && (r.None? ==> pipes == old(pipes) && tables == old(tables))
        && (r.Some? ==>
              && LowestEmpty(was, r.value) && pipes == Cloned(old(pipes), e)
              && tables == old(tables)[p := if r.value < |was| then was[r.value := e] else was + [e]])
    {
      hide Places, CountsOk, StreamsOk, SleepersOk;
      var was := TableOf(tables, p);
      var i := 0;
      while i < |was|
        invariant 0 <= i <= |was| && forall j :: 0 <= j < i ==> was[j] != Empty
      {
        if was[i] == Empty {
          Install(p, i, e);
          return Some(i);
        }
        i := i + 1;
      }
      if i < MAX_FD {
        Widen(p, i + 1);
        assert Entries(1) == [Empty];
        Install(p, i, e);
        assert (was + [Empty])[i := e] == was + [e];
        return Some(i);
      }
      return None;
    }

    /** A descriptor at a fixed number.  An entry that is there is overwritten, not closed,
        and an entry for a pipe that is gone is installed all the same. */
    method AllocFdAt(p: nat, fd: nat, e: Entry) returns (ok: bool)
      requires Valid()
      modifies this`pipes, this`tables
      ensures StreamsOk(pipes, hist) && TablesOk(tables) && SleepersOk(pipes, readers, skipped + due)
      ensures ok == (fd < MAX_FD) && (!ok ==> pipes == old(pipes) && tables == old(tables))
      ensures CountsOk(pipes, tables) <==>
        !ok || (!(fd < |TableOf(old(tables), p)| && IsPipe(old(tables)[p][fd])) && Named(old(pipes), e))
      ensures ok ==> pipes == Cloned(old(pipes), e)
      ensures ok ==> p in tables && fd < |tables[p]| && tables[p][fd] == e && tables == old(tables)[p := tables[p]]
      ensures ok ==> var was := TableOf(old(tables), p);
        && |tables[p]| == (if fd < |was| then |was| else fd + 1)
        && forall j :: 0 <= j < |tables[p]| && j != fd ==> tables[p][j] == if j < |was| then was[j] else Empty
    {
      hide Places, CountsOk, StreamsOk, Cloned, SleepersOk;
      if fd >= MAX_FD {
        return false;
      }
      Widen(p, fd + 1);
      OverwriteKeepsIff(pipes, tables, p, fd, e);
      CloneAndDropKeepData(pipes, e);
      SameDataKeepsStreams(pipes, Cloned(pipes, e), hist);
      CloneKeepsSleepers(pipes, e, readers, skipped + due);
      pipes, tables := Cloned(pipes, e), SetEntry(tables, p, fd, e);
      return true;
    }

    method ServeAll(id: nat, writable: set<nat>, data: seq<Byte>) returns (rest: seq<Byte>)
      modifies this`readers
      ensures var s := Serve(old(readers), id, writable, data, |old(readers)|); readers == s.readers && rest == s.rest
    {
      rest := data;
      ghost var readers0 := readers;
      var k := 0;
      while k < |readers|
        invariant 0 <= k <= |readers| == |readers0|
        invariant readers == Serve(readers0, id, writable, data, k).readers
          && rest == Serve(readers0, id, writable, data, k).rest
      {
        ServeUntouched(readers0, id, writable, data, k, k);
        var r, ok := readers[k], k in writable;
        readers := readers[k := Woken(r, id, ok, rest)];
        rest := rest[Share(r, id, ok, rest)..];
        k := k + 1;
      }
    }

    /** `notify_pipe_readers`: every thread asleep on the pipe gets the next bytes. */
    method Notify(id: nat, writable: set<nat>, ghost counted: Tables)
      requires CountsOk(pipes, counted) && StreamsOk(pipes, hist)
      requires SleepersOkBut(pipes, readers, skipped + due, id)
      modifies this`pipes, this`readers, this`hist, this`skipped, this`due
      ensures CountsOk(pipes, counted) && StreamsOk(pipes, hist) && SleepersOk(pipes, readers, skipped + due)
      ensures skipped == old(skipped) + Passed(old(readers), id, writable)
      ensures due == old(due) - Passed(old(readers), id, {})
      ensures var data := if Live(old(pipes), id) then old(pipes)[id].value.data else [];
        var s := Serve(old(readers), id, writable, data, |old(readers)|);
        && readers == s.readers
        && (Live(old(pipes), id) ==>
              && pipes == old(pipes)[id := Some(old(pipes)[id].value.(data := s.rest))]
              && hist == old(hist)[id := old(hist)[id].(delivered := old(hist)[id].delivered + s.out)])
        && (!Live(old(pipes), id) ==> pipes == old(pipes) && hist == old(hist))
    {
      hide Places, Serve, CountOk, SleepersOk, SleepersOkBut, Passed;
      var live := id < |pipes| && pipes[id].Some?;
      ghost var readers0 := readers;
      var data := if live then pipes[id].value.data else [];
      var rest := ServeAll(id, writable, data);
      ghost var k := |readers0|;
      if live {
        ghost var out := Serve(readers0, id, writable, data, k).out;
        ServeConserves(readers0, id, writable, data, k);
        DeliverKeeps(pipes, counted, hist, id, out, rest);
        hist := hist[id := hist[id].(delivered := hist[id].delivered + out)];
        OthersStayQuiet(pipes, id, rest, readers0, skipped + due);
        pipes := pipes[id := Some(pipes[id].value.(data := rest))];
      } else {
        ServeNothing(readers0, id, writable, k);
      }
      SettledOk(pipes, readers0, skipped, due, id, writable, data);
      skipped, due := skipped + Passed(readers0, id, writable), due - Passed(readers0, id, {});
    }

    /** Closes a descriptor; a pipe goes exactly when nothing names it any more. */
    method FreeFd(p: nat, fd: nat, writable: set<nat>) returns (ok: bool)
      requires Valid()
      modifies this
      ensures Valid() && ok == (fd < |TableOf(old(tables), p)|) && (!ok ==> unchanged(this))
      ensures ok ==> var e := old(tables)[p][fd];
        && tables == SetEntry(old(tables), p, fd, Empty) && SameRefs(Dropped(old(pipes), e), pipes)
        && (forall id: nat :: Names(e, id) ==>
              (!Live(pipes, id) <==> Places(tables, PipeRead(id)) == {} && Places(tables, PipeWrite(id)) == {}))
        && (forall id: nat :: !Names(e, id) ==> (Live(pipes, id) <==> Live(old(pipes), id)) && (Live(pipes, id) ==>
              pipes[id] == old(pipes)[id]))
        && NoByteLost(old(pipes), old(hist), pipes, hist)
        && (!e.PipeWrite? ==> readers == old(readers) && hist == old(hist))
        && (e.PipeWrite? ==>
              var data := DataOf(Dropped(old(pipes), e), e.id);
              readers == Serve(old(readers), e.id, writable, data, |old(readers)|).readers)
        && skipped == old(skipped) + (if e.PipeWrite? then Passed(old(readers), e.id, writable) else {})
        && due == old(due) - (if e.PipeWrite? then Passed(old(readers), e.id, {}) else {})
        && |hist| == |old(hist)| && (forall j: nat :: j < |hist| && !Names(e, j) ==> hist[j] == old(hist)[j])
    {
      hide Places, CountOk, StreamsOk, Serve, SleepersOk, SleepersOkBut;
      if p !in tables || fd >= |tables[p]| {
        return false;
      }
      var e := tables[p][fd];
      DropKeepsSleepers(pipes, e, readers, skipped + due);
      ClearKeepsCounts(pipes, tables, p, fd);
      CloneAndDropKeepData(pipes, e);
      SameDataKeepsStreams(pipes, Dropped(pipes, e), hist);
      forall id: nat | !Names(e, id)
        ensures Live(Dropped(pipes, e), id) == Live(pipes, id)
          && (Live(pipes, id) ==> Dropped(pipes, e)[id] == pipes[id])
      {
        OthersStay(pipes, e, id);
      }
      pipes, tables := Dropped(pipes, e), SetEntry(tables, p, fd, Empty);
      if e.PipeWrite? {
        Notify(e.id, writable, tables);
      }
      StreamsSized(old(pipes), old(hist));
      DropThenServe(e, old(pipes), old(hist), pipes, hist);
      return true;
    }

    /** Everything a dead process had open is closed. */
    method CloseAll(p: nat, writable: set<nat>)
      requires Valid()
      modifies this
      ensures Valid()
      ensures p !in old(tables) ==> unchanged(this)
      ensures p in old(tables) ==> tables == old(tables)[p := []]
      ensures NoByteLost(old(pipes), old(hist), pipes, hist)
      ensures forall id: nat :: !NamedIn(TableOf(old(tables), p), |TableOf(old(tables), p)|, id) ==>
        SlotOf(pipes, id) == SlotOf(old(pipes), id)
      ensures forall id: nat :: NamedIn(TableOf(old(tables), p), |TableOf(old(tables), p)|, id) ==>
        (Live(pipes, id) <==> Places(tables, PipeRead(id)) != {} || Places(tables, PipeWrite(id)) != {})
      ensures var t := TableOf(old(tables), p);
        (pipes, readers) == CloseFirst(old(pipes), old(readers), t, |t|, writable)
      ensures SkipsOnly(old(skipped), skipped, writable) && due <= old(due)
    {
      hide Places, StreamsOk, Serve, CountOk, SomeClosed, OneClosed, NoByteLost, NamedIn, SleepersOk, CloseOne;
      StreamsSized(pipes, hist);
      NoneClosed(TableOf(tables, p), pipes, hist);
      if p !in tables {
        NoneNamed();
        SomeClosedFacts([], pipes, hist, pipes, hist);
        return;
      }
      ghost var tables0 := tables;
      var t := tables[p];
      assert ClearedPrefix(t, 0) == t && tables[p := t] == tables;
      var i := 0;
      while i < |t|
        invariant 0 <= i <= |t| && tables == tables0 && TablesOk(tables)
        invariant CountsOk(pipes, tables0[p := ClearedPrefix(t, i)]) && StreamsOk(pipes, hist)
        invariant SomeClosed(t, i, old(pipes), old(hist), pipes, hist)
        invariant SleepersOk(pipes, readers, skipped + due)
        invariant SkipsOnly(old(skipped), skipped, writable) && due <= old(due)
        invariant (pipes, readers) == CloseFirst(old(pipes), old(readers), t, i, writable)
      {
        ghost var pipes1, hist1 := pipes, hist;
        CloseEntry(p, t, i, tables0, writable);
        OneMoreClosed(t, i, old(pipes), old(hist), pipes1, hist1, pipes, hist);
        i := i + 1;
      }
      NothingLeft(pipes, tables0, p);
      tables := tables[p := []];
      SomeClosedFacts(t, old(pipes), old(hist), pipes, hist);
      forall id: nat | NamedIn(t, |t|, id)
        ensures Live(pipes, id) <==> Places(tables, PipeRead(id)) != {} || Places(tables, PipeWrite(id)) != {}
      {
        ClosedIffUnnamed(t, old(pipes), old(hist), pipes, hist, tables, id);
      }
    }

    /** `close_entry` on entry `i`, whose place is cleared only after the loop. */
    method CloseEntry(p: nat, t: seq<Entry>, i: nat, ghost tables0: Tables, writable: set<nat>)
      requires p in tables0 && t == tables0[p] && i < |t| && tables == tables0 && TablesOk(tables)
      requires CountsOk(pipes, tables0[p := ClearedPrefix(t, i)]) && StreamsOk(pipes, hist)
      requires SleepersOk(pipes, readers, skipped + due)
      modifies this
      ensures tables == tables0 && StreamsOk(pipes, hist) && CountsOk(pipes, tables0[p := ClearedPrefix(t, i + 1)])
      ensures OneClosed(t[i], old(pipes), old(hist), pipes, hist) && SleepersOk(pipes, readers, skipped + due)
      ensures (pipes, readers) == CloseOne(old(pipes), old(readers), t[i], writable)
      ensures SkipsOnly(old(skipped), skipped, writable) && due <= old(due)
    {
      hide Places, CountOk, StreamsOk, Serve, SleepersOk, SleepersOkBut, OneClosed;
      DropKeepsSleepers(pipes, t[i], readers, skipped + due);
      ghost var now := tables0[p := ClearedPrefix(t, i)];
      ClearNext(t, i);
      ClearKeepsCounts(pipes, now, p, i);
      assert SetEntry(now, p, i, Empty) == tables0[p := ClearedPrefix(t, i + 1)];
      CloneAndDropKeepData(pipes, t[i]);
      SameDataKeepsStreams(pipes, Dropped(pipes, t[i]), hist);
      pipes := Dropped(pipes, t[i]);
      if t[i].PipeWrite? {
        Notify(t[i].id, writable, tables0[p := ClearedPrefix(t, i + 1)]);
      }
      StreamsSized(old(pipes), old(hist));
      DropThenServe(t[i], old(pipes), old(hist), pipes, hist);
    }

    /** `pipe::write`: nothing is accepted once the last reader is gone.  Its sleepers are
        due until the notification. */
    method Write(id: nat, data: seq<Byte>) returns (n: nat)
      requires Valid()
      modifies this`pipes, this`hist, this`due
      ensures Valid() && due == old(due) + Passed(readers, id, {})
      ensures n == if Live(old(pipes), id) && old(pipes)[id].value.readRefs > 0 then |data| else 0
      ensures !Live(old(pipes), id) ==> pipes == old(pipes) && hist == old(hist)
      ensures Live(old(pipes), id) ==> var pipe := old(pipes)[id].value;
        && pipes == old(pipes)[id := Some(pipe.(data := pipe.data + data[..n]))]
        && hist == old(hist)[id := old(hist)[id].(accepted := old(hist)[id].accepted + data[..n])]
    {
      hide Places, SleepersOk, SleepersOkBut, Passed;
      AllButOne(pipes, readers, skipped + due, id);
      n := 0;
      if id < |pipes| && pipes[id].Some? {
        var pipe := pipes[id].value;
        n := if pipe.readRefs == 0 then 0 else |data|;
        AcceptKeeps(pipes, tables, hist, id, data[..n]);
        OthersStayQuiet(pipes, id, pipe.data + data[..n], readers, skipped + due);
        hist := hist[id := hist[id].(accepted := hist[id].accepted + data[..n])];
        pipes := pipes[id := Some(pipe.(data := pipe.data + data[..n]))];
      }
      PendingOk(pipes, readers, skipped, due, id);
      due := due + Passed(readers, id, {});
    }

    /** The section of `sys_read` for a process with main thread `k`, which is the one put
        to sleep: bytes, an empty answer when no writer is left, or sleep.  The pipe may be
        gone by now, which reads as no writer. */
    method Read(k: nat, id: nat, len: nat) returns (r: Option<seq<Byte>>)
      requires Valid() && k < |readers| && len > 0
      modifies this`pipes, this`readers, this`hist, this`skipped, this`due
      ensures Valid() && (r.None? <==> Quiet(old(pipes), id))
      ensures !Live(old(pipes), id) ==> r == Some([]) && unchanged(this)
      ensures r.None? ==>
        && pipes == old(pipes) && hist == old(hist) && readers == old(readers)[k := Reader(Some(Wait(id, len)), [])]
        && skipped == old(skipped) - {k} && due == old(due) - {k}
      ensures r.Some? && Live(old(pipes), id) ==> var pipe := old(pipes)[id].value;
        && readers == old(readers) && skipped == old(skipped) && due == old(due)
        && r.value == pipe.data[..Min(len, |pipe.data|)]
        && pipes == old(pipes)[id := Some(pipe.(data := pipe.data[|r.value|..]))]
        && hist == old(hist)[id := old(hist)[id].(delivered := old(hist)[id].delivered + r.value)]
    {
      hide Places;
      if id >= |pipes| || pipes[id].None? {
        return Some([]);
      }
      var pipe := pipes[id].value;
      if pipe.data == [] && pipe.writeRefs > 0 {
        readers, skipped, due := readers[k := Reader(Some(Wait(id, len)), [])], skipped - {k}, due - {k};
        return None;
      }
      var n := Min(len, |pipe.data|);
      assert pipe.data == pipe.data[..n] + pipe.data[n..];
      DeliverKeeps(pipes, tables, hist, id, pipe.data[..n], pipe.data[n..]);
      hist := hist[id := hist[id].(delivered := hist[id].delivered + pipe.data[..n])];
      NobodySleeps(pipes, readers, skipped + due, id);
      pipes := pipes[id := Some(pipe.(data := pipe.data[n..]))];
      return Some(pipe.data[..n]);
    }

    // ---- system calls ----

    /** `sys_pipe`; `writes` says whether the numbers can be written to the caller.  On
        failure nothing stays open, except that a full table leaves the new pipe behind
        with no descriptor to close it by. */
    method SysPipe(p: nat, writes: bool, writable: set<nat>) returns (r: Option<(nat, nat)>, ghost id: nat)
      requires Valid()
      modifies this
      ensures Valid() && !Live(old(pipes), id)
      ensures r.Some? <==> writes && RoomForTwo(TableOf(old(tables), p))
      ensures r.Some? ==> var was := TableOf(old(tables), p);
        && LowestEmpty(was, r.value.0)
        && var one := Taking(was, r.value.0, PipeRead(id));
        && LowestEmpty(one, r.value.1)
        && tables == old(tables)[p := Taking(one, r.value.1, PipeWrite(id))]
        && Live(pipes, id) && pipes[id].value == Pipe([], 1, 1) && id < |hist| && hist[id] == Hist([], [])
      ensures r.Some? ==>
        TwoTaken(TableOf(old(tables), p), tables[p], r.value.0, r.value.1, PipeRead(id), PipeWrite(id))
      ensures forall j: nat :: Live(old(pipes), j) ==> Live(pipes, j) && pipes[j] == old(pipes)[j]
      ensures forall q :: q != p ==> TableOf(tables, q) == TableOf(old(tables), q)
      ensures r.None? ==> (Live(pipes, id) <==> FullTable(TableOf(old(tables), p)))
      ensures Live(pipes, id) && r.None? ==> pipes[id].value.readRefs == 0 && pipes[id].value.writeRefs == 0
      ensures r.None? ==> Padded(TableOf(old(tables), p), TableOf(tables, p))
      ensures SkipsOnly(old(skipped), skipped, writable) && due <= old(due)
      ensures r.Some? ==> readers == old(readers) && skipped == old(skipped) && due == old(due)
      // a thread may still sleep on an earlier pipe of this slot; nobody else is touched
      ensures OnlyWaiters(old(readers), readers, id)
      ensures forall j: nat :: Live(old(pipes), j) ==> j < |hist| && hist[j] == old(hist)[j]
    {
      hide Places, CountsOk, StreamsOk, Serve, NoByteLost, RoomForTwo, SleepersOk, TwoTaken;
      StreamsSized(pipes, hist);
      var made := CreatePipe();
      StreamsSized(pipes, hist);
      id := made;
      var was := TableOf(tables, p);
      var read := AllocFd(p, PipeRead(made));
      if read.Some? {
        TwoPlaces(was, read.value, PipeRead(made));
      } else {
        NoPlace(was);
      }
      var write := AllocFd(p, PipeWrite(made));
      if read.Some? && write.Some? && writes {
        BothTaken(was, read.value, write.value, PipeRead(made), PipeWrite(made));
        return Some((read.value, write.value)), made;
      }
      if read.Some? {
        RollBack(p, read.value, write, made, writable, was);
      }
      return None, made;
    }

    /** Frees the descriptors that a failing `sys_pipe` got, and the pipe with them. */
    method RollBack(p: nat, r: nat, w: Option<nat>, id: nat, writable: set<nat>, ghost was: seq<Entry>)
      requires Valid() && p in tables && r < |tables[p]| && tables[p][r] == PipeRead(id) && Live(pipes, id)
      requires w.Some? ==> w.value < |tables[p]| && tables[p][w.value] == PipeWrite(id)
      requires pipes[id].value.readRefs == 1 && pipes[id].value.writeRefs == if w.Some? then 1 else 0
      requires |was| <= |tables[p]| && forall j :: 0 <= j < |tables[p]| && j != r && Some(j) != w ==>
        tables[p][j] == if j < |was| then was[j] else Empty
      requires (r < |was| ==> was[r] == Empty) && (w.Some? && w.value < |was| ==> was[w.value] == Empty)
      modifies this
      ensures Valid() && !Live(pipes, id) && p in tables && Padded(was, tables[p])
        && tables == old(tables)[p := tables[p]]
      ensures forall j: nat :: j != id && Live(old(pipes), j) ==> Live(pipes, j) && pipes[j] == old(pipes)[j]
      ensures SkipsOnly(old(skipped), skipped, writable) && due <= old(due) && OnlyWaiters(old(readers), readers, id)
      ensures |hist| == |old(hist)| && forall j: nat :: j < |hist| && j != id ==> hist[j] == old(hist)[j]
    {
      hide Places, CountsOk, StreamsOk, Serve, NoByteLost, SleepersOk;
      var _ := FreeFd(p, r, writable);
      if w.Some? {
        ghost var pipes1 := pipes;
        var _ := FreeFd(p, w.value, writable);
        ServeOnlyWaiters(old(readers), id, writable, DataOf(Dropped(pipes1, PipeWrite(id)), id));
      }
    }

    /** The pipe branch of `sys_write`, with no section of another CPU in between: with a
        reader left all bytes are accepted, and sleeping readers are served. */
    method SysWrite(p: nat, fd: nat, data: seq<Byte>, writable: set<nat>) returns (n: nat)
      requires Valid() && p in tables && fd < |tables[p]| && tables[p][fd].PipeWrite?
      modifies this`pipes, this`readers, this`hist, this`skipped, this`due
      ensures Valid()
      ensures var id := tables[p][fd].id;
        && Live(old(pipes), id) && Live(pipes, id)
        && n == (if old(pipes)[id].value.readRefs == 0 then 0 else |data|)
        && hist[id].accepted == old(hist)[id].accepted + data[..n]
        && var s := Serve(old(readers), id, writable, old(pipes)[id].value.data + data[..n], |old(readers)|);
        && readers == s.readers && pipes[id].value.data == s.rest
        && hist[id].delivered == old(hist)[id].delivered + s.out
        && pipes == old(pipes)[id := pipes[id]] && hist == old(hist)[id := hist[id]]
        && skipped == old(skipped) + Passed(old(readers), id, writable)
        && due == old(due) - Passed(old(readers), id, {})
    {
      hide Places, Serve, CountsOk, StreamOk, SleepersOk, SleepersOkBut, Passed;
      var id := tables[p][fd].id;
      NamedIsLive(pipes, tables, p, fd, id);
      n := Write(id, data);
      AllButOne(pipes, readers, skipped + due, id);
      Notify(id, writable, tables);
    }

    /** The pipe branch of `sys_read`, likewise. */
    method SysRead(k: nat, p: nat, fd: nat, len: nat) returns (r: Option<seq<Byte>>)
      requires Valid() && k < |readers| && p in tables && fd < |tables[p]| && tables[p][fd].PipeRead? && len > 0
      modifies this`pipes, this`readers, this`hist, this`skipped, this`due
      ensures Valid()
      ensures var id := tables[p][fd].id;
        && Live(old(pipes), id)
        && var pipe := old(pipes)[id].value;
        && (r.None? <==> pipe.data == [] && pipe.writeRefs > 0)
        && (r == Some([]) <==> pipe.data == [] && pipe.writeRefs == 0)
        && (r.Some? ==> r.value == pipe.data[..Min(len, |pipe.data|)])
    {
      hide Places, CountsOk, StreamsOk, SleepersOk;
      var id := tables[p][fd].id;
      NamedIsLive(pipes, tables, p, fd, id);
      r := Read(k, id, len);
    }

    /** The descriptors of a new child: 2 is the console, 0 and 1 are taken over from the
        caller when named, and so is a terminal at 3. */
    method Exec(caller: nat, child: nat, stdin: Option<nat>, stdout: Option<nat>, ctty: bool)
      requires Valid() && child !in tables && child != caller
      modifies this`pipes, this`tables
      ensures Valid() && child in tables && |tables[child]| >= 3 && tables == old(tables)[child := tables[child]]
      ensures tables[child][0] ==
        if stdin.Some? && caller in old(tables) && stdin.value < |old(tables)[caller]|
        then old(tables)[caller][stdin.value] else CONSOLE_IN
      ensures tables[child][1] ==
        if stdout.Some? && caller in old(tables) && stdout.value < |old(tables)[caller]|
        then old(tables)[caller][stdout.value] else CONSOLE_OUT
      ensures tables[child][2] == CONSOLE_OUT
      ensures |tables[child]| == if ctty && |TableOf(old(tables), caller)| > 0 then 4 else 3
      ensures |tables[child]| == 4 ==> tables[child][3] == old(tables)[caller][0]
      // each end of a pipe counts the descriptors that the child has for it, and no byte moves
      ensures CountedMore(old(pipes), pipes, tables[child])
    {
      hide Places, CountsOk, StreamsOk, SleepersOk, Cloned, Named, Live, Inherited, CountedMore;
      ghost var tables0, pipes0 := tables, pipes;
      Stdio(caller, child, stdin, stdout);
      InheritedIs(tables0, caller, stdin, CONSOLE_IN);
      InheritedIs(tables0, caller, stdout, CONSOLE_OUT);
      if ctty && caller in tables && |tables[caller]| > 0 {
        ghost var t, pipes3 := tables[child], pipes;
        var tty := tables[caller][0];
        InheritedLive(caller, Some(0), CONSOLE_OUT);
        InheritedIs(tables, caller, Some(0), CONSOLE_OUT);
        var _ := AllocFdAt(child, 3, tty);
        assert tables[child] == t + [tty];
        OneMoreClone(pipes0, pipes3, t, tty);
      }
    }

    method Stdio(caller: nat, child: nat, stdin: Option<nat>, stdout: Option<nat>)
      requires Valid() && child !in tables && child != caller
      modifies this`pipes, this`tables
      ensures Valid() && child in tables && tables == old(tables)[child := tables[child]]
      ensures tables[child] ==
        [Inherited(old(tables), caller, stdin, CONSOLE_IN), Inherited(old(tables), caller, stdout, CONSOLE_OUT),
         CONSOLE_OUT]
      ensures CountedMore(old(pipes), pipes, tables[child])
    {
      hide Places, CountsOk, StreamsOk, SleepersOk, Cloned, Named, CountedMore, Inherited;
      ghost var tables0, pipes0 := tables, pipes;
      InheritedLive(caller, None, CONSOLE_OUT);
      var _ := AllocFdAt(child, 2, CONSOLE_OUT);
      SameInheritance(tables0, tables, caller, stdin, CONSOLE_IN);
      InheritedLive(caller, stdin, CONSOLE_IN);
      var first := Inherited(tables, caller, stdin, CONSOLE_IN);
      var _ := AllocFdAt(child, 0, first);
      SameInheritance(tables0, tables, caller, stdout, CONSOLE_OUT);
      InheritedLive(caller, stdout, CONSOLE_OUT);
      var second := Inherited(tables, caller, stdout, CONSOLE_OUT);
      var _ := AllocFdAt(child, 1, second);
      assert tables[child] == [first, second, CONSOLE_OUT];
      ThreeClones(pipes0, CONSOLE_OUT, first, second);
    }

    lemma InheritedLive(caller: nat, fd: Option<nat>, console: Entry)
      requires Valid() && console.Other?
      ensures Named(pipes, Inherited(tables, caller, fd, console)) && Named(pipes, console)
    {
      var e := Inherited(tables, caller, fd, console);
      if IsPipe(e) {
        NamedIsLive(pipes, tables, caller, fd.value, e.id);
      }
    }
  }

  /** An entry that a child takes over from its parent, or the console. */
  function Inherited(tables: Tables, caller: nat, fd: Option<nat>, console: Entry): Entry {
    if fd.Some? && fd.value < |TableOf(tables, caller)| then TableOf(tables, caller)[fd.value] else console
  }

  lemma InheritedIs(tables: Tables, caller: nat, fd: Option<nat>, console: Entry)
    ensures Inherited(tables, caller, fd, console) ==
      if fd.Some? && caller in tables && fd.value < |tables[caller]| then tables[caller][fd.value] else console
  {
  }

  lemma SameInheritance(a: Tables, b: Tables, caller: nat, fd: Option<nat>, console: Entry)
    requires TableOf(a, caller) == TableOf(b, caller)
    ensures Inherited(a, caller, fd, console) == Inherited(b, caller, fd, console)
  {
  }

  /** Pipes `b` are pipes `a` with the entries of `t` counted as well. */
  ghost predicate CountedMore(a: PipeTable, b: PipeTable, t: seq<Entry>) {
    && |b| == |a|
    && forall id: nat :: Live(a, id) ==> Live(b, id) && var was := a[id].value;
         && b[id].value.data == was.data
         && b[id].value.readRefs == was.readRefs + multiset(t)[PipeRead(id)]
         && b[id].value.writeRefs == was.writeRefs + multiset(t)[PipeWrite(id)]
  }

  lemma OneMoreClone(a: PipeTable, b: PipeTable, t: seq<Entry>, e: Entry)
    requires CountedMore(a, b, t)
    ensures CountedMore(a, Cloned(b, e), t + [e])
  {
    assert multiset(t + [e]) == multiset(t) + multiset{e};
  }

  lemma ThreeClones(a: PipeTable, e: Entry, f: Entry, g: Entry)
    ensures CountedMore(a, Cloned(Cloned(Cloned(a, e), f), g), [f, g, e])
  {
    hide CountedMore, Cloned;
    var none: seq<Entry> := [];
    assert CountedMore(a, a, none) by { NothingCounted(a); }
    OneMoreClone(a, a, none, e);
    OneMoreClone(a, Cloned(a, e), none + [e], f);
    OneMoreClone(a, Cloned(Cloned(a, e), f), none + [e] + [f], g);
    Rotated(e, f, g);
    AnyOrder(a, Cloned(Cloned(Cloned(a, e), f), g), none + [e] + [f] + [g], [f, g, e]);
  }

  lemma Rotated(e: Entry, f: Entry, g: Entry)
    ensures var none: seq<Entry> := []; multiset(none + [e] + [f] + [g]) == multiset([f, g, e])
  {
    var none: seq<Entry> := [];
    assert none + [e] + [f] + [g] == [e] + [f, g] && [f, g, e] == [f, g] + [e];
  }

  lemma NothingCounted(a: PipeTable)
    ensures CountedMore(a, a, [])
  {
  }

  lemma AnyOrder(a: PipeTable, b: PipeTable, t: seq<Entry>, u: seq<Entry>)
    requires CountedMore(a, b, t) && multiset(t) == multiset(u)
    ensures CountedMore(a, b, u)
  {
  }

  lemma AcceptKeeps(pipes: PipeTable, tables: Tables, hist: seq<Hist>, id: nat, data: seq<Byte>)
    requires CountsOk(pipes, tables) && StreamsOk(pipes, hist) && Live(pipes, id)
    ensures var pipes' := pipes[id := Some(pipes[id].value.(data := pipes[id].value.data + data))];
      CountsOk(pipes', tables) && StreamsOk(pipes', hist[id := hist[id].(accepted := hist[id].accepted + data)])
  {
    hide Places;
    var pipes' := pipes[id := Some(pipes[id].value.(data := pipes[id].value.data + data))];
    forall i: nat ensures CountOk(pipes', tables, i) {
      assert CountOk(pipes, tables, i);
    }
    assert StreamOk(pipes[id].value, hist[id]);
    assert hist[id].delivered + (pipes[id].value.data + data) == hist[id].delivered + pipes[id].value.data + data;
  }

  /** Table `t` with its first `n` entries cleared. */
  function ClearedPrefix(t: seq<Entry>, n: nat): seq<Entry>
    requires n <= |t|
  {
    Entries(n) + t[n..]
  }

  lemma ClearNext(t: seq<Entry>, i: nat)
    requires i < |t|
    ensures ClearedPrefix(t, i)[i] == t[i] && ClearedPrefix(t, i)[i := Empty] == ClearedPrefix(t, i + 1)
  {
  }

  lemma NothingLeft(pipes: PipeTable, tables: Tables, p: nat)
    requires p in tables && CountsOk(pipes, tables[p := ClearedPrefix(tables[p], |tables[p]|)])
    ensures CountsOk(pipes, tables[p := []])
  {
    var a, b := tables[p := ClearedPrefix(tables[p], |tables[p]|)], tables[p := []];
    assert a[p] == Entries(|tables[p]|);
    forall id: nat ensures CountOk(pipes, b, id) {
      assert CountOk(pipes, a, id);
      assert Places(a, PipeRead(id)) == Places(b, PipeRead(id));
      assert Places(a, PipeWrite(id)) == Places(b, PipeWrite(id));
    }
  }

  lemma ClearKeepsCounts(pipes: PipeTable, tables: Tables, p: nat, fd: nat)
    requires CountsOk(pipes, tables) && p in tables && fd < |tables[p]|
    ensures var e := tables[p][fd];
      && CountsOk(Dropped(pipes, e), SetEntry(tables, p, fd, Empty))
      && forall id: nat :: Names(e, id) ==>
           (!Live(Dropped(pipes, e), id) <==>
            Places(SetEntry(tables, p, fd, Empty), PipeRead(id)) == {}
              && Places(SetEntry(tables, p, fd, Empty), PipeWrite(id)) == {})
  {
    hide CountOk, Dropped;
    var e := tables[p][fd];
    if e != Empty {
      forall x | x != Empty
        ensures Places(SetEntry(tables, p, fd, Empty), x) == Places(tables, x) - {(p, fd)}
        ensures x != e ==> (p, fd) !in Places(tables, x)
      {
        PlacesAfterSet(tables, p, fd, Empty, x);
      }
      RemoveKeepsCounts(pipes, tables, SetEntry(tables, p, fd, Empty), e, (p, fd));
    } else {
      assert tables[p][fd := Empty] == tables[p];
      assert SetEntry(tables, p, fd, Empty) == tables;
      assert Dropped(pipes, Empty) == pipes by { DropNothing(pipes); }
    }
  }

  lemma DropNothing(pipes: PipeTable)
    ensures Dropped(pipes, Empty) == pipes
  {
  }

  lemma GrowKeepsCounts(pipes: PipeTable, tables: Tables, p: nat, more: seq<Entry>)
    requires CountsOk(pipes, tables) && forall i :: 0 <= i < |more| ==> more[i] == Empty
    ensures CountsOk(pipes, tables[p := TableOf(tables, p) + more])
  {
    var tables' := tables[p := TableOf(tables, p) + more];
    forall id: nat ensures CountOk(pipes, tables', id) {
      assert CountOk(pipes, tables, id);
      PlacesAfterGrow(tables, p, more, PipeRead(id));
      PlacesAfterGrow(tables, p, more, PipeWrite(id));
    }
  }

  /** The counts do not depend on the bytes. */
  lemma DeliverKeeps(pipes: PipeTable, tables: Tables, hist: seq<Hist>, id: nat, out: seq<Byte>, rest: seq<Byte>)
    requires CountsOk(pipes, tables) && StreamsOk(pipes, hist) && Live(pipes, id) && pipes[id].value.data == out + rest
    ensures var pipes' := pipes[id := Some(pipes[id].value.(data := rest))];
      && CountsOk(pipes', tables)
      && StreamsOk(pipes', hist[id := hist[id].(delivered := hist[id].delivered + out)])
  {
    hide Places;
    var pipes' := pipes[id := Some(pipes[id].value.(data := rest))];
    forall i: nat ensures CountOk(pipes', tables, i) {
      assert CountOk(pipes, tables, i);
    }
    assert StreamOk(pipes[id].value, hist[id]);
    assert hist[id].delivered + (out + rest) == hist[id].delivered + out + rest;
  }

  lemma {:induction false} ServeNothing(readers: seq<Reader>, id: nat, writable: set<nat>, k: nat)
    requires k <= |readers|
    ensures Serve(readers, id, writable, [], k).out == [] && Serve(readers, id, writable, [], k).rest == []
  {
    if k > 0 {
      ServeNothing(readers, id, writable, k - 1);
    }
  }

  /** A process with every descriptor taken leaves a pipe behind that no entry names. */
  method FullTableLeaks() returns (d: Descriptors, ghost id: nat)
    ensures fresh(d) && d.Valid() && Live(d.pipes, id)
    ensures Places(d.tables, PipeRead(id)) == {} && Places(d.tables, PipeWrite(id)) == {}
  {
    hide Places, CountsOk, StreamsOk, SleepersOk;
    d := new Descriptors(0);
    var fd := 0;
    while fd < MAX_FD
      invariant 0 <= fd <= MAX_FD && fresh(d) && d.Valid() && |TableOf(d.tables, 1)| == fd
      invariant forall j :: 0 <= j < fd ==> TableOf(d.tables, 1)[j] == Other(0)
    {
      var _ := d.AllocFdAt(1, fd, Other(0));
      fd := fd + 1;
    }
    NoPlace(TableOf(d.tables, 1));
    var _, made := d.SysPipe(1, true, {});
    id := made;
    NoReferences(d.pipes, d.tables, id);
  }

  /** Thread 0 sleeps; a writer writes; thread 1 takes the byte before the writer notifies.
      The state is in order throughout, but thread 0 is answered with no bytes, as at the
      end of the file, while a writer is left. */
  method OvertakenReader() returns (d: Descriptors, ghost id: nat, r: Option<seq<Byte>>)
    ensures fresh(d) && d.Valid() && |d.readers| == 2 && d.skipped == {} && d.due == {}
    ensures r == Some([7]) && d.readers[0] == Reader(None, [])
    ensures Live(d.pipes, id) && d.pipes[id].value == Pipe([], 1, 1) && d.hist[id] == Hist([7], [7])
  {
    hide Places, CountsOk, StreamsOk, SleepersOk, SleepersOkBut, Serve, Passed;
    d := new Descriptors(2);
    NothingTaken();
    var fds, made := d.SysPipe(1, true, {});
    id := made;
    StreamsSized(d.pipes, d.hist);
    var pipe := d.tables[1][0].id;
    var _ := d.Read(0, pipe, 1);
    OnlyFirst(d.readers, pipe);
    var none, one: seq<Byte> := [], [7];
    assert none + one[..1] == one && one[..1] == one && one[1..] == none && one + none == one && none + none == none;
    var _ := d.Write(pipe, one);
    assert d.pipes[pipe].value == Pipe(one, 1, 1) && d.due == {0};
    r := d.Read(1, pipe, 1);
    AllButOne(d.pipes, d.readers, d.skipped + d.due, pipe);
    ServeNothing(d.readers, pipe, {0, 1}, 2);
    WokenWithNothing(d.readers, pipe, {0, 1}, 0);
    d.Notify(pipe, {0, 1}, d.tables);
  }

  lemma OnlyFirst(readers: seq<Reader>, id: nat)
    requires |readers| == 2 && Waits(readers[0], id) && !Waits(readers[1], id)
    ensures Passed(readers, id, {}) == {0} && Passed(readers, id, {0, 1}) == {}
  {
  }

  /** The lookup in the caller and the installation in the child are two sections: a pipe
      closed in between leaves the child an entry for a pipe that is gone. */
  method StaleEntryDangles() returns (d: Descriptors, ghost id: nat)
    ensures fresh(d) && 2 in d.tables && d.tables[2] == [PipeRead(id)] && !Live(d.pipes, id)
      && !CountsOk(d.pipes, d.tables)
  {
    hide Places, CountsOk, StreamsOk, SleepersOk, Serve, NoByteLost;
    d := new Descriptors(0);
    NothingTaken();
    var _, made := d.SysPipe(1, true, {});
    id := made;
    var e := Inherited(d.tables, 1, Some(0), Other(1));
    var _ := d.FreeFd(1, 0, {});
    var _ := d.FreeFd(1, 1, {});
    var _ := d.AllocFdAt(2, 0, e);
  }

  lemma NothingTaken()
    ensures RoomForTwo([]) && LowestEmpty([], 0)
  {
    assert FreeAt([], 0) && FreeAt([], 1);
  }

  lemma NoReferences(pipes: PipeTable, tables: Tables, id: nat)
    requires CountsOk(pipes, tables) && Live(pipes, id) && pipes[id].value.readRefs == 0
      && pipes[id].value.writeRefs == 0
    ensures Places(tables, PipeRead(id)) == {} && Places(tables, PipeWrite(id)) == {}
  {
    hide Places;
    assert CountOk(pipes, tables, id);
  }
}
