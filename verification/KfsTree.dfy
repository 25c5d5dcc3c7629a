/** Which images unpack to a tree.  `ensure_parents` makes missing ancestors, but takes an
    ancestor that is a file for a directory. */
module KfsTree {
  import opened Common
  import opened Bytes
  import opened Paths
  import opened KfsImage
  import Vfs

  // ---- nodes that may fail to be a tree in one way only ----

  /** Live nodes under distinct valid paths, each with its parent, the root first. */
  ghost predicate WellMade(nodes: Vfs.Nodes) {
    && |nodes| > 0 && nodes[0] == Dir("/")
    && (forall i :: 0 <= i < |nodes| ==> nodes[i].node.Some? && Paths.Valid(nodes[i].node.value.path))
    && (forall i, j :: 0 <= i < j < |nodes| ==> nodes[i].node.value.path != nodes[j].node.value.path)
    && (forall i :: 0 <= i < |nodes| && nodes[i].node.value.path != "/" ==>
         ParentOf(nodes[i].node.value.path) in PathsOf(nodes))
  }

  ghost predicate FileAt(nodes: Vfs.Nodes, p: Path) {
    exists j :: 0 <= j < |nodes| && nodes[j].node.Some? && nodes[j].node.value.path == p && !nodes[j].node.value.isDir
  }

  ghost predicate UnderFile(nodes: Vfs.Nodes, i: nat) {
    i < |nodes| && nodes[i].node.Some? && nodes[i].node.value.path != "/"
      && FileAt(nodes, ParentOf(nodes[i].node.value.path))
  }

  /** Some node is under a file. */
  ghost predicate Broken(nodes: Vfs.Nodes) { exists i: nat :: UnderFile(nodes, i) }

  lemma PathIsThere(nodes: Vfs.Nodes, p: Path) returns (i: nat)
    requires p in PathsOf(nodes)
    ensures i < |nodes| && nodes[i].node.Some? && nodes[i].node.value.path == p
  {
    var k :| 0 <= k < |nodes| && nodes[k].node.Some? && nodes[k].node.value.path == p;
    i := k;
  }

  lemma ThereIsPath(nodes: Vfs.Nodes, i: nat)
    requires i < |nodes| && nodes[i].node.Some?
    ensures nodes[i].node.value.path in PathsOf(nodes)
  {
  }

  /** They are a tree exactly when no node is under a file. */
  lemma TreeIffNotBroken(nodes: Vfs.Nodes)
    requires WellMade(nodes)
    ensures Vfs.Tree(nodes) <==> !Broken(nodes)
  {
    hide Paths.Valid, ParentOf, PathsOf;
    forall i: nat | i < |nodes| && nodes[i].node.value.path != "/"
      && Vfs.HasDir(nodes, ParentOf(nodes[i].node.value.path))
      ensures !UnderFile(nodes, i)
    {
      var k: nat :| Vfs.LiveAt(nodes, k) && nodes[k].node.value.path == ParentOf(nodes[i].node.value.path)
        && nodes[k].node.value.isDir;
    }
    assert Vfs.Tree(nodes) ==> forall i: nat :: i < |nodes| ==>
      Vfs.LiveAt(nodes, i) && Vfs.Rooted(nodes, nodes[i].node.value.path);
    if !Broken(nodes) {
      assert Vfs.LiveAt(nodes, 0);
      forall i: nat | Vfs.LiveAt(nodes, i) ensures Vfs.Rooted(nodes, nodes[i].node.value.path) {
        if nodes[i].node.value.path != "/" {
          var j := PathIsThere(nodes, ParentOf(nodes[i].node.value.path));
          assert !UnderFile(nodes, i);
          assert Vfs.LiveAt(nodes, j);
        }
      }
    }
  }

  // ---- one more node ----

  lemma PathsOfMore(nodes: Vfs.Nodes, s: Vfs.Slot)
    requires s.node.Some?
    ensures PathsOf(nodes + [s]) == PathsOf(nodes) + {s.node.value.path}
  {
    var more := nodes + [s];
    forall p ensures p in PathsOf(more) <==> p in PathsOf(nodes) || p == s.node.value.path {
      if p in PathsOf(nodes) {
        var i := PathIsThere(nodes, p);
        assert more[i] == nodes[i];
        ThereIsPath(more, i);
      }
      if p == s.node.value.path {
        assert more[|nodes|] == s;
        ThereIsPath(more, |nodes|);
      }
      if p in PathsOf(more) {
        var i := PathIsThere(more, p);
        if i < |nodes| {
          ThereIsPath(nodes, i);
        }
      }
    }
  }

  lemma FileAtMore(nodes: Vfs.Nodes, s: Vfs.Slot, p: Path)
    requires s.node.Some?
    ensures FileAt(nodes + [s], p) <==> FileAt(nodes, p) || (s.node.value.path == p && !s.node.value.isDir)
  {
    var more := nodes + [s];
    if FileAt(nodes, p) {
      var j :| 0 <= j < |nodes| && nodes[j].node.Some? && nodes[j].node.value.path == p && !nodes[j].node.value.isDir;
      assert more[j] == nodes[j];
    }
    assert more[|nodes|] == s;
  }

  /** A new node breaks the tree exactly when its parent is a file. */
  lemma Append(nodes: Vfs.Nodes, s: Vfs.Slot)
    requires WellMade(nodes) && s.node.Some? && Paths.Valid(s.node.value.path)
    requires s.node.value.path !in PathsOf(nodes) && ParentOf(s.node.value.path) in PathsOf(nodes)
    ensures WellMade(nodes + [s])
    ensures Broken(nodes + [s]) <==> Broken(nodes) || FileAt(nodes, ParentOf(s.node.value.path))
  {
    hide Paths.Valid, ParentOf, PathsOf, FileAt;
    var more, n := nodes + [s], |nodes|;
    PathsOfMore(nodes, s);
    RootIsThere(nodes);
    forall i | 0 <= i < n ensures nodes[i].node.value.path != s.node.value.path {
      ThereIsPath(nodes, i);
    }
    forall i: nat | i < n && nodes[i].node.value.path != "/" ensures UnderFile(more, i) <==> UnderFile(nodes, i) {
      FileAtMore(nodes, s, ParentOf(nodes[i].node.value.path));
    }
    FileAtMore(nodes, s, ParentOf(s.node.value.path));
    ParentDiffers(s.node.value.path);
    assert UnderFile(more, n) <==> FileAt(nodes, ParentOf(s.node.value.path));
    if Broken(nodes) {
      var i: nat :| UnderFile(nodes, i);
      assert UnderFile(more, i);
    }
    if Broken(more) {
      var i: nat :| UnderFile(more, i);
      assert i < n ==> UnderFile(nodes, i);
    }
  }

  lemma RootIsThere(nodes: Vfs.Nodes)
    requires WellMade(nodes)
    ensures "/" in PathsOf(nodes)
  {
    ThereIsPath(nodes, 0);
  }

  lemma ParentDiffers(p: Path)
    requires Paths.Valid(p)
    ensures p != "/" ==> ParentOf(p) != p
  {
    if p != "/" {
      ParentValid(p);
    }
  }

  // ---- one more entry ----

  /** Some proper ancestor of `p` is a file. */
  ghost predicate FileAbove(nodes: Vfs.Nodes, p: Path)
    decreases |p|
  {
    p != "/" && |ParentOf(p)| < |p| && (FileAt(nodes, ParentOf(p)) || FileAbove(nodes, ParentOf(p)))
  }

  /** A node below a file further up shows a node right under it. */
  lemma {:induction false} AboveMeansBroken(nodes: Vfs.Nodes, p: Path)
    requires WellMade(nodes) && p in PathsOf(nodes) && FileAbove(nodes, p)
    ensures Broken(nodes)
    decreases |p|
  {
    hide Paths.Valid, ParentOf, PathsOf, FileAt;
    var i := PathIsThere(nodes, p);
    if FileAt(nodes, ParentOf(p)) {
      assert UnderFile(nodes, i);
    } else {
      AboveMeansBroken(nodes, ParentOf(p));
    }
  }

  /** Only directories are added on the way. */
  lemma {:induction false} ParentsBreak(nodes: Vfs.Nodes, p: Path)
    requires WellMade(nodes) && Paths.Valid(p) && p != "/"
    ensures var above := EnsureParents(nodes, p);
      && WellMade(above) && ParentOf(p) in PathsOf(above) && PathsOf(nodes) <= PathsOf(above)
      && (p in PathsOf(above) <==> p in PathsOf(nodes))
      && (forall q :: FileAt(above, q) <==> FileAt(nodes, q))
      && (forall q :: q in PathsOf(above) && q !in PathsOf(nodes) ==> |q| < |p|)
      && (Broken(above) <==> Broken(nodes) || (ParentOf(p) !in PathsOf(nodes) && FileAbove(nodes, ParentOf(p))))
    decreases |p|
  {
    hide Paths.Valid, ParentOf, PathsOf, FileAt, WellMade, Broken;
    ParentValid(p);
    var parent := ParentOf(p);
    if parent == "/" {
      RootIsThere(nodes);
    } else {
      var above := EnsureParents(nodes, parent);
      ParentsBreak(nodes, parent);
      ParentValid(parent);
      assert FileAbove(nodes, parent) <==> FileAt(nodes, ParentOf(parent)) || FileAbove(nodes, ParentOf(parent));
      if parent !in PathsOf(above) {
        var s := Dir(parent);
        Append(above, s);
        PathsOfMore(above, s);
        forall q ensures FileAt(above + [s], q) <==> FileAt(nodes, q) {
          FileAtMore(above, s, q);
        }
        if ParentOf(parent) in PathsOf(nodes) && FileAbove(nodes, ParentOf(parent)) {
          AboveMeansBroken(nodes, ParentOf(parent));
        }
      } else {
        GrandparentThere(nodes, parent);
      }
    }
  }

  lemma GrandparentThere(nodes: Vfs.Nodes, p: Path)
    requires WellMade(nodes) && p in PathsOf(nodes) && p != "/"
    ensures ParentOf(p) in PathsOf(nodes)
  {
    hide PathsOf;
    var i := PathIsThere(nodes, p);
  }

  /** An entry breaks the tree exactly when it is new and below a file. */
  lemma EntryBreaksIff(image: Data, e: Info, nodes: Vfs.Nodes)
    requires WellMade(nodes) && Paths.Valid(e.path) && AddEntry(image, e, nodes).Good?
    ensures var nodes' := AddEntry(image, e, nodes).value;
      WellMade(nodes') && (Broken(nodes') <==> Broken(nodes) || (e.path !in PathsOf(nodes) && FileAbove(nodes, e.path)))
  {
    hide Paths.Valid, ParentOf, PathsOf, FileAt, WellMade, Broken;
    if e.path == "/" {
      RootIsThere(nodes);
      RootHasNoParents(nodes);
    } else {
      var above := EnsureParents(nodes, e.path);
      ParentsBreak(nodes, e.path);
      ParentValid(e.path);
      var parent := ParentOf(e.path);
      if parent in PathsOf(nodes) && FileAbove(nodes, parent) {
        AboveMeansBroken(nodes, parent);
      }
      if e.path in PathsOf(above) {
        GrandparentThere(nodes, e.path);
      } else {
        var s := AddEntry(image, e, nodes).value[|above|];
        assert AddEntry(image, e, nodes).value == above + [s];
        Append(above, s);
      }
    }
  }

  lemma RootHasNoParents(nodes: Vfs.Nodes)
    ensures EnsureParents(nodes, "/") == nodes
  {
    RootValid();
  }

  // ---- what the entries say ----

  /** `q` is a proper ancestor of `p`. */
  predicate Above(q: Path, p: Path)
    decreases |p|
  {
    p != "/" && |ParentOf(p)| < |p| && (q == ParentOf(p) || Above(q, ParentOf(p)))
  }

  /** Path `p` is the root, or the path or an ancestor of one of the first `k` entries. */
  predicate Known(es: seq<Info>, k: nat, p: Path)
    requires k <= |es|
  {
    p == "/" || exists i :: 0 <= i < k && (es[i].path == p || Above(p, es[i].path))
  }

  /** Entry `i` is a file whose path no earlier entry mentions. */
  predicate MakesFile(es: seq<Info>, i: nat) {
    i < |es| && es[i].flags / 2 % 2 == 1 && !Known(es, i, es[i].path)
  }

  /** Entry `k` has a path that no earlier entry mentions, below an earlier new file. */
  predicate NewBelowFile(es: seq<Info>, k: nat) {
    k < |es| && !Known(es, k, es[k].path) && exists i :: 0 <= i < k && MakesFile(es, i) && Above(es[i].path, es[k].path)
  }

  /** The nodes after the first `k` entries are known from the entries alone. */
  ghost predicate Described(es: seq<Info>, k: nat, nodes: Vfs.Nodes) {
    && k <= |es|
    && (forall p :: p in PathsOf(nodes) <==> Known(es, k, p))
    && (forall p :: FileAt(nodes, p) <==> MadeFile(es, k, p))
  }

  ghost predicate MadeFile(es: seq<Info>, k: nat, p: Path) {
    exists i :: 0 <= i < k && MakesFile(es, i) && es[i].path == p
  }

  lemma {:induction false} FileAboveMeans(nodes: Vfs.Nodes, p: Path)
    ensures FileAbove(nodes, p) <==> exists q :: Above(q, p) && FileAt(nodes, q)
    decreases |p|
  {
    hide ParentOf, FileAt;
    if p != "/" && |ParentOf(p)| < |p| {
      FileAboveMeans(nodes, ParentOf(p));
      assert Above(ParentOf(p), p);
    }
  }

  /** `ensure_parents` adds the ancestors. */
  lemma {:induction false} ParentsAre(nodes: Vfs.Nodes, p: Path, q: Path)
    requires Paths.Valid(p) && p != "/" && "/" in PathsOf(nodes)
    ensures q in PathsOf(EnsureParents(nodes, p)) <==> q in PathsOf(nodes) || Above(q, p)
    decreases |p|
  {
    hide Paths.Valid, ParentOf, PathsOf;
    ParentValid(p);
    var parent := ParentOf(p);
    if parent == "/" {
      assert Above(q, p) <==> q == "/";
    } else {
      ParentsAre(nodes, parent, q);
      ParentsAre(nodes, parent, parent);
      PathsOfMore(EnsureParents(nodes, parent), Dir(parent));
    }
  }

  /** One more entry knows its path and its ancestors. */
  lemma KnownNext(es: seq<Info>, k: nat, p: Path)
    requires k < |es|
    ensures Known(es, k + 1, p) <==> Known(es, k, p) || p == es[k].path || Above(p, es[k].path)
  {
    hide Above;
  }

  lemma MadeNext(es: seq<Info>, k: nat, p: Path)
    ensures MadeFile(es, k + 1, p) <==> MadeFile(es, k, p) || (MakesFile(es, k) && es[k].path == p)
  {
    hide Known;
    if MadeFile(es, k, p) {
      var i :| 0 <= i < k && MakesFile(es, i) && es[i].path == p;
      assert 0 <= i < k + 1;
    }
    if MadeFile(es, k + 1, p) {
      var i :| 0 <= i < k + 1 && MakesFile(es, i) && es[i].path == p;
      assert i < k ==> MadeFile(es, k, p);
    }
  }

  lemma {:induction false} AboveIsNotRoot(q: Path, p: Path)
    requires Above(q, p)
    ensures |q| < |p|
    decreases |p|
  {
    hide ParentOf;
    if q != ParentOf(p) {
      AboveIsNotRoot(q, ParentOf(p));
    }
  }

  /** The paths and the files after one more entry. */
  lemma EntryDescribed(image: Data, es: seq<Info>, k: nat, nodes: Vfs.Nodes, q: Path)
    requires WellMade(nodes) && Described(es, k, nodes) && k < |es| && Paths.Valid(es[k].path)
    requires AddEntry(image, es[k], nodes).Good?
    ensures var nodes' := AddEntry(image, es[k], nodes).value;
      (q in PathsOf(nodes') <==> Known(es, k + 1, q)) && (FileAt(nodes', q) <==> MadeFile(es, k + 1, q))
  {
    hide Paths.Valid, ParentOf, PathsOf, FileAt, WellMade, Known, MadeFile, Above;
    var e := es[k];
    RootIsThere(nodes);
    KnownNext(es, k, q);
    MadeNext(es, k, q);
    if e.path == "/" {
      RootHasNoParents(nodes);
      NothingAboveRoot(q);
    } else {
      var above := EnsureParents(nodes, e.path);
      ParentsAre(nodes, e.path, q);
      ParentsAre(nodes, e.path, e.path);
      if Above(e.path, e.path) {
        AboveIsNotRoot(e.path, e.path);
      }
      ParentsBreak(nodes, e.path);
      if e.path !in PathsOf(above) {
        var s := AddEntry(image, e, nodes).value[|above|];
        assert AddEntry(image, e, nodes).value == above + [s];
        PathsOfMore(above, s);
        FileAtMore(above, s, q);
      }
    }
  }

  lemma NothingAboveRoot(q: Path)
    ensures !Above(q, "/")
  {
  }

  /** Of the nodes so far: below a file means below the path of a file entry. */
  lemma BelowFileMeans(es: seq<Info>, k: nat, nodes: Vfs.Nodes)
    requires Described(es, k, nodes) && k < |es|
    ensures es[k].path !in PathsOf(nodes) && FileAbove(nodes, es[k].path) <==> NewBelowFile(es, k)
  {
    hide Known, Above, PathsOf, FileAt, FileAbove, MakesFile;
    var p := es[k].path;
    FileAboveMeans(nodes, p);
    if q :| Above(q, p) && FileAt(nodes, q) {
      var i :| 0 <= i < k && MakesFile(es, i) && es[i].path == q;
    }
    if i :| 0 <= i < k && MakesFile(es, i) && Above(es[i].path, p) {
      assert MadeFile(es, k, es[i].path);
    }
  }

  // ---- the whole image ----

  function InfoAt(image: Data, pathsStart: nat, i: nat): Info {
    var e := ReadEntry(image, pathsStart, i);
    if e.Good? then e.value else Info("", 0, 0, 0)
  }

  function InfosOf(image: Data, count: nat, pathsStart: nat): (es: seq<Info>)
    ensures |es| == count
  {
    seq(count, i requires 0 <= i < count => InfoAt(image, pathsStart, i))
  }

  lemma {:induction false} RestIsTreeIff(image: Data, count: nat, pathsStart: nat, i: nat, nodes: Vfs.Nodes)
    requires WellMade(nodes) && i <= count && Described(InfosOf(image, count, pathsStart), i, nodes)
    requires Unpack(image, count, pathsStart, i, nodes).Good?
    ensures var nodes' := Unpack(image, count, pathsStart, i, nodes).value;
      var es := InfosOf(image, count, pathsStart);
      WellMade(nodes') && (Broken(nodes') <==> Broken(nodes) || exists k :: i <= k < count && NewBelowFile(es, k))
    decreases count - i
  {
    hide WellMade, Broken, AddEntry, PathsOf, FileAt, FileAbove, Paths.Valid, Known, MadeFile, ReadEntry, NewBelowFile;
    var es := InfosOf(image, count, pathsStart);
    if i < count {
      var e := ReadEntry(image, pathsStart, i).value;
      assert es[i] == e;
      EntryIsValid(image, pathsStart, i);
      EntryBreaksIff(image, e, nodes);
      BelowFileMeans(es, i, nodes);
      var nodes' := AddEntry(image, e, nodes).value;
      forall q
        ensures (q in PathsOf(nodes') <==> Known(es, i + 1, q)) && (FileAt(nodes', q) <==> MadeFile(es, i + 1, q))
      {
        EntryDescribed(image, es, i, nodes, q);
      }
      RestIsTreeIff(image, count, pathsStart, i + 1, nodes');
    }
  }

  lemma EntryIsValid(image: Data, pathsStart: nat, i: nat)
    ensures ReadEntry(image, pathsStart, i).Good? ==> Paths.Valid(ReadEntry(image, pathsStart, i).value.path)
  {
    hide Paths.Valid, ReadLe;
  }

  /** No entry of the image with a new path is below the path of an earlier file. */
  ghost predicate NoFileIsParent(image: Data) {
    |image| >= HEADER_SIZE ==>
      var count := ReadLe(image, 8, 4).value;
      var es := InfosOf(image, count, HEADER_SIZE + count * ENTRY_SIZE);
      forall k :: 0 <= k < count ==> !NewBelowFile(es, k)
  }

  /** Whatever bytes the kernel accepts, the nodes are live, under distinct valid paths and
      each with its parent, and they are a tree exactly when no entry is below a file. */
  lemma AcceptedIsTreeIff(image: Data)
    requires Unpacked(image).Good?
    ensures WellMade(Unpacked(image).value) && (Vfs.Tree(Unpacked(image).value) <==> NoFileIsParent(image))
  {
    hide Unpack, NewBelowFile, Paths.Valid, WellMade, Broken, Vfs.Tree, Described;
    var count := ReadLe(image, 8, 4).value;
    RootAlone();
    RootDescribed(InfosOf(image, count, HEADER_SIZE + count * ENTRY_SIZE));
    RestIsTreeIff(image, count, HEADER_SIZE + count * ENTRY_SIZE, 0, [Dir("/")]);
    TreeIffNotBroken(Unpacked(image).value);
  }

  lemma RootDescribed(es: seq<Info>)
    ensures Described(es, 0, [Dir("/")])
  {
    var nodes := [Dir("/")];
    ThereIsPath(nodes, 0);
  }

  // ---- which images are accepted ----

  /** Nothing is asked of an entry whose path is known; a new file has its data inside the
      image, and anything else has the flag of a directory. */
  predicate Fits(image: Data, es: seq<Info>, k: nat)
    requires k < |es|
  {
    || Known(es, k, es[k].path)
    || if es[k].flags / 2 % 2 == 1 then es[k].dataOffset + es[k].size <= |image| else es[k].flags % 2 == 1
  }

  /** Entry `k` of a table that lies inside the image names a valid path inside it. */
  predicate PathReads(image: Data, pathsStart: nat, k: nat)
    requires HEADER_SIZE + (k + 1) * ENTRY_SIZE <= |image|
  {
    var base := HEADER_SIZE + k * ENTRY_SIZE;
    var from, len := pathsStart + UnLe(image[base + 2..base + 4]), UnLe(image[base..base + 2]);
    from + len <= |image| && Utf8.WellFormed(image[from..from + len]) && Paths.Valid(Text(image[from..from + len]))
  }

  lemma PathReadsIff(image: Data, pathsStart: nat, k: nat)
    requires HEADER_SIZE + (k + 1) * ENTRY_SIZE <= |image|
    ensures ReadEntry(image, pathsStart, k).Good? <==> PathReads(image, pathsStart, k)
  {
    hide UnLe, Paths.Valid, Utf8.WellFormed, Text;
  }

  lemma AddEntryIff(image: Data, es: seq<Info>, k: nat, nodes: Vfs.Nodes)
    requires WellMade(nodes) && Described(es, k, nodes) && k < |es| && Paths.Valid(es[k].path)
    ensures AddEntry(image, es[k], nodes).Good? <==> Fits(image, es, k)
  {
    hide Paths.Valid, ParentOf, PathsOf, FileAt, WellMade, Known, MadeFile, Above, EnsureParents;
    var e := es[k];
    RootIsThere(nodes);
    if e.path == "/" {
      RootHasNoParents(nodes);
    } else {
      ParentsAre(nodes, e.path, e.path);
      if Above(e.path, e.path) {
        AboveIsNotRoot(e.path, e.path);
      }
    }
  }

  lemma {:induction false} RestIsGoodIff(image: Data, count: nat, pathsStart: nat, i: nat, nodes: Vfs.Nodes)
    requires WellMade(nodes) && i <= count && Described(InfosOf(image, count, pathsStart), i, nodes)
    ensures var es := InfosOf(image, count, pathsStart);
      Unpack(image, count, pathsStart, i, nodes).Good? <==>
      forall k :: i <= k < count ==> ReadEntry(image, pathsStart, k).Good? && Fits(image, es, k)
    decreases count - i
  {
    hide WellMade, Broken, AddEntry, PathsOf, FileAt, FileAbove, Paths.Valid, Known, MadeFile, ReadEntry, Fits;
    var es := InfosOf(image, count, pathsStart);
    if i < count && ReadEntry(image, pathsStart, i).Good? {
      var e := ReadEntry(image, pathsStart, i).value;
      assert es[i] == e;
      EntryIsValid(image, pathsStart, i);
      AddEntryIff(image, es, i, nodes);
      if AddEntry(image, e, nodes).Good? {
        var nodes' := AddEntry(image, e, nodes).value;
        EntryBreaksIff(image, e, nodes);
        forall q
          ensures (q in PathsOf(nodes') <==> Known(es, i + 1, q)) && (FileAt(nodes', q) <==> MadeFile(es, i + 1, q))
        {
          EntryDescribed(image, es, i, nodes, q);
        }
        RestIsGoodIff(image, count, pathsStart, i + 1, nodes');
      }
    }
  }

  /** An image is accepted exactly when its header is right, its table lies inside, and every
      entry has a valid path inside and, if that is new, data inside or the flag of a
      directory. */
  lemma AcceptedIff(image: Data)
    ensures Unpacked(image).Good? <==>
      && |image| >= HEADER_SIZE && image[..4] == [0x4b, 0x46, 0x53, 0] && UnLe(image[4..8]) == 1
      && var count := UnLe(image[8..12]);
      && HEADER_SIZE + count * ENTRY_SIZE <= |image|
      && var start := HEADER_SIZE + count * ENTRY_SIZE;
      forall k :: 0 <= k < count ==>
        && HEADER_SIZE + (k + 1) * ENTRY_SIZE <= |image|
        && PathReads(image, start, k) && Fits(image, InfosOf(image, count, start), k)
  {
    hide Unpack, Paths.Valid, WellMade, Described, Fits, PathReads, ReadEntry, UnLe;
    if |image| >= HEADER_SIZE {
      var count := UnLe(image[8..12]);
      var start := HEADER_SIZE + count * ENTRY_SIZE;
      RootAlone();
      RootDescribed(InfosOf(image, count, start));
      if start <= |image| {
        RestIsGoodIff(image, count, start, 0, [Dir("/")]);
        forall k | 0 <= k < count
          ensures HEADER_SIZE + (k + 1) * ENTRY_SIZE <= |image|
          ensures ReadEntry(image, start, k).Good? <==> PathReads(image, start, k)
        {
          assert (k + 1) * ENTRY_SIZE <= count * ENTRY_SIZE;
          PathReadsIff(image, start, k);
        }
      }
    }
  }

  // ---- what the files hold ----

  /** File `x` was made by entry `e` and holds the bytes that the entry names. */
  predicate Holds(image: Data, e: Info, x: Vfs.Node) {
    && e.path == x.path && e.flags / 2 % 2 == 1
    && e.dataOffset + e.size <= |image| && x.data == image[e.dataOffset..e.dataOffset + e.size]
  }

  ghost predicate Filled(image: Data, es: seq<Info>, nodes: Vfs.Nodes) {
    forall j :: 0 <= j < |nodes| && nodes[j].node.Some? && !nodes[j].node.value.isDir ==>
      exists i :: 0 <= i < |es| && Holds(image, es[i], nodes[j].node.value)
  }

  lemma {:induction false} ParentsAreDirectories(image: Data, es: seq<Info>, nodes: Vfs.Nodes, p: Path)
    requires Filled(image, es, nodes)
    ensures Filled(image, es, EnsureParents(nodes, p))
    decreases |p|
  {
    hide Holds, PathsOf;
    if ParentOf(p) != "/" {
      ParentsAreDirectories(image, es, nodes, ParentOf(p));
    }
  }

  lemma EntryFills(image: Data, es: seq<Info>, k: nat, nodes: Vfs.Nodes)
    requires Filled(image, es, nodes) && k < |es| && AddEntry(image, es[k], nodes).Good?
    ensures Filled(image, es, AddEntry(image, es[k], nodes).value)
  {
    hide EnsureParents, PathsOf, Filled;
    ParentsAreDirectories(image, es, nodes, es[k].path);
    var above := EnsureParents(nodes, es[k].path);
    if es[k].path !in PathsOf(above) {
      var s := AddEntry(image, es[k], nodes).value[|above|];
      assert !s.node.value.isDir ==> Holds(image, es[k], s.node.value);
      OneMoreFilled(image, es, above, s, k);
    }
  }

  lemma OneMoreFilled(image: Data, es: seq<Info>, nodes: Vfs.Nodes, s: Vfs.Slot, k: nat)
    requires Filled(image, es, nodes) && k < |es| && s.node.Some?
    requires !s.node.value.isDir ==> Holds(image, es[k], s.node.value)
    ensures Filled(image, es, nodes + [s])
  {
    hide Holds;
  }

  lemma {:induction false} RestFills(image: Data, count: nat, pathsStart: nat, i: nat, nodes: Vfs.Nodes)
    requires i <= count && Filled(image, InfosOf(image, count, pathsStart), nodes)
    requires Unpack(image, count, pathsStart, i, nodes).Good?
    ensures Filled(image, InfosOf(image, count, pathsStart), Unpack(image, count, pathsStart, i, nodes).value)
    decreases count - i
  {
    hide AddEntry, ReadEntry, Filled;
    if i < count {
      var es := InfosOf(image, count, pathsStart);
      assert es[i] == ReadEntry(image, pathsStart, i).value;
      EntryFills(image, es, i, nodes);
      RestFills(image, count, pathsStart, i + 1, AddEntry(image, es[i], nodes).value);
    }
  }

  /** Every file of an accepted image holds the bytes of the image that an entry with its
      path names. */
  lemma FilesHoldTheirBytes(image: Data)
    requires Unpacked(image).Good?
    ensures |image| >= HEADER_SIZE
    ensures var count := UnLe(image[8..12]);
      Filled(image, InfosOf(image, count, HEADER_SIZE + count * ENTRY_SIZE), Unpacked(image).value)
  {
    hide Unpack, UnLe;
    var count := UnLe(image[8..12]);
    RestFills(image, count, HEADER_SIZE + count * ENTRY_SIZE, 0, [Dir("/")]);
  }

  // ---- an image that is not a tree ----

  /** A file and a file below it, to be laid out as the build lays out an image. */
  const FILE_UNDER_FILE: seq<Source> := [Source("/", [], false), Source("/a", [], true), Source("/a/b", [], true)]

  lemma PathsAreValid()
    ensures Paths.Valid("/a") && Paths.Valid("/a/b") && ParentOf("/a") == "/" && ParentOf("/a/b") == "/a"
    ensures IsUtf8("/") && IsUtf8("/a") && IsUtf8("/a/b")
  {
    OneSlash("/a");
    AsciiIsUtf8("/");
    AsciiIsUtf8("/a");
    AsciiIsUtf8("/a/b");
    var p := "/a/b";
    forall i | 0 <= i < |p| ensures !OccursAt(p, "//", i) && !OccursAt(p, "/./", i) && !OccursAt(p, "/../", i) {
      OccursMeans(p, "//", i);
      OccursMeans(p, "/./", i);
      OccursMeans(p, "/../", i);
    }
    LastSlashIs(p, 2);
    assert p[..2] == "/a";
  }

  lemma SmallEnough()
    ensures Small(FILE_UNDER_FILE)
  {
    var s := FILE_UNDER_FILE;
    var p, d := PathParts(s), DataParts(s);
    RowsEnd(s);
    FlatOfThree(p);
    FlatOfThree(d);
  }

  lemma FlatOfThree(parts: seq<Data>)
    requires |parts| == 3
    ensures |Flat(parts)| == |parts[0]| + |parts[1]| + |parts[2]|
  {
    FlatPush(parts, 0);
    FlatPush(parts, 1);
    FlatPush(parts, 2);
    assert parts[..0] == [] && parts[..3] == parts;
  }

  lemma UnpackStep(image: Data, count: nat, pathsStart: nat, i: nat, nodes: Vfs.Nodes, e: Info, nodes': Vfs.Nodes)
    requires i < count && ReadEntry(image, pathsStart, i) == Good(e) && AddEntry(image, e, nodes) == Good(nodes')
    ensures Unpack(image, count, pathsStart, i, nodes) == Unpack(image, count, pathsStart, i + 1, nodes')
  {
  }

  lemma ThreeUnpack()
    ensures Unpacked(Image(FILE_UNDER_FILE)) == Good(NodesOf(FILE_UNDER_FILE))
  {
    hide Image, Paths.Valid, IsUtf8, ReadEntry, ReadLe, Small, ParentOf, AddEntry, Unpack, InfoOf;
    var s := FILE_UNDER_FILE;
    var image, start := Image(s), HEADER_SIZE + |s| * ENTRY_SIZE;
    PathsAreValid();
    RootValid();
    SmallEnough();
    HeaderReads(s);
    var root, a, ab := Dir("/"), NodeOf(s[1]), NodeOf(s[2]);
    assert NodesOf(s) == [root, a, ab] && [root] + [a] == [root, a] && [root, a] + [ab] == [root, a, ab];
    EntryReads(s, 0);
    RootEntry(s);
    AddsRoot(image, InfoOf(s, 0));
    UnpackStep(image, 3, start, 0, [root], InfoOf(s, 0), [root]);
    EntryReads(s, 1);
    AddsFile(s, 1, [root]);
    UnpackStep(image, 3, start, 1, [root], InfoOf(s, 1), [root, a]);
    EntryReads(s, 2);
    AddsFile(s, 2, [root, a]);
    UnpackStep(image, 3, start, 2, [root, a], InfoOf(s, 2), [root, a, ab]);
    UnpackEnd(image, start, [root, a, ab]);
  }

  lemma RootEntry(s: seq<Source>)
    requires |s| > 0 && s[0].path == "/"
    ensures InfoOf(s, 0).path == "/"
  {
  }

  lemma UnpackEnd(image: Data, pathsStart: nat, nodes: Vfs.Nodes)
    ensures Unpack(image, 3, pathsStart, 3, nodes) == Good(nodes)
  {
  }

  /** The kernel accepts an image with a file below a file, and the result is no tree. */
  lemma FileCanBeParent() returns (image: Data)
    ensures Unpacked(image) == Good(NodesOf(FILE_UNDER_FILE)) && !Vfs.Tree(NodesOf(FILE_UNDER_FILE))
  {
    hide Image, Paths.Valid, IsUtf8, Unpacked, ParentOf, Vfs.Tree, WellMade, NoFileIsParent;
    var s := FILE_UNDER_FILE;
    image := Image(s);
    ThreeUnpack();
    PathsAreValid();
    AcceptedIsTreeIff(image);
    var nodes := NodesOf(s);
    TreeIffNotBroken(nodes);
    assert nodes[1] == NodeOf(s[1]) && nodes[2] == NodeOf(s[2]);
    assert FileAt(nodes, "/a");
    assert UnderFile(nodes, 2);
  }

  lemma AddsRoot(image: Data, e: Info)
    requires e.path == "/"
    ensures AddEntry(image, e, [Dir("/")]) == Good([Dir("/")])
  {
    RootHasNoParents([Dir("/")]);
    ThereIsPath([Dir("/")], 0);
  }

  lemma AddsFile(s: seq<Source>, i: nat, nodes: Vfs.Nodes)
    requires s == FILE_UNDER_FILE && (i == 1 || i == 2)
    requires nodes == if i == 1 then [Dir("/")] else [Dir("/"), NodeOf(s[1])]
    ensures AddEntry(Image(s), InfoOf(s, i), nodes) == Good(nodes + [NodeOf(s[i])])
  {
    hide Image, Paths.Valid, IsUtf8, ParentOf, PathParts, DataParts, Flat;
    PathsAreValid();
    DataAt(s, i);
    if i == 2 {
      assert nodes[1].node.value.path == "/a";
      ThereIsPath(nodes, 1);
      assert EnsureParents(nodes, "/a") == nodes;
    }
    assert EnsureParents(nodes, s[i].path) == nodes;
  }

  lemma RootAlone()
    ensures WellMade([Dir("/")]) && !Broken([Dir("/")])
  {
    RootValid();
  }
}
