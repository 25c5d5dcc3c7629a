/** The RAM file system: a table of slots that hold path-named nodes, and handles that
    name a slot together with its generation. */
module Vfs {
  import opened Common
  import opened Paths

  const GENERATIONS: nat := 0x1_0000_0000

  type Byte = nat

  datatype Node = Node(path: Path, isDir: bool, data: seq<Byte>)
  datatype Slot = Slot(generation: nat, node: Option<Node>)
  type Nodes = seq<Slot>

  datatype FsError = InvalidPath | NotFound | NotAFile | NotADirectory | AlreadyExists | NotEmpty
  datatype Result<T> = Ok(value: T) | Err(error: FsError)

  // ---- the tree ----

  predicate LiveAt(nodes: Nodes, i: nat) { i < |nodes| && nodes[i].node.Some? }

  ghost predicate Has(nodes: Nodes, p: Path) { exists i: nat :: LiveAt(nodes, i) && nodes[i].node.value.path == p }

  ghost predicate HasDir(nodes: Nodes, p: Path) {
    exists i: nat :: LiveAt(nodes, i) && nodes[i].node.value.path == p && nodes[i].node.value.isDir
  }

  ghost predicate Unique(nodes: Nodes) {
    forall i: nat, j: nat ::
      LiveAt(nodes, i) && LiveAt(nodes, j) && nodes[i].node.value.path == nodes[j].node.value.path ==>
      i == j
  }

  /** A valid path whose parent is a directory here. */
  ghost predicate Rooted(nodes: Nodes, p: Path) {
    Paths.Valid(p) && (p == "/" || HasDir(nodes, ParentOf(p)))
  }

  /** The root is there, paths name one node each, and every node has its parent. */
  ghost predicate Tree(nodes: Nodes) {
    && HasDir(nodes, "/") && Unique(nodes)
    && forall i: nat :: LiveAt(nodes, i) ==> Rooted(nodes, nodes[i].node.value.path)
  }

  /** Directories stay where they are. */
  lemma StillRooted(nodes: Nodes, nodes': Nodes, p: Path)
    requires Rooted(nodes, p) && (p != "/" && HasDir(nodes, ParentOf(p)) ==> HasDir(nodes', ParentOf(p)))
    ensures Rooted(nodes', p)
  {
  }

  lemma AddKeepsTree(nodes: Nodes, nodes': Nodes, at: nat, n: Node)
    requires Tree(nodes) && !Has(nodes, n.path) && Rooted(nodes, n.path)
    requires LiveAt(nodes', at) && nodes'[at].node.value == n && !LiveAt(nodes, at)
    requires forall i: nat :: i != at ==> (LiveAt(nodes', i) <==> LiveAt(nodes, i)) && (LiveAt(nodes, i) ==>
      nodes'[i] == nodes[i])
    ensures Tree(nodes')
  {
    forall p | HasDir(nodes, p) ensures HasDir(nodes', p) {
      var i: nat :| LiveAt(nodes, i) && nodes[i].node.value.path == p && nodes[i].node.value.isDir;
      assert LiveAt(nodes', i);
    }
    forall i: nat | LiveAt(nodes', i) ensures Rooted(nodes', nodes'[i].node.value.path) {
      StillRooted(nodes, nodes', nodes'[i].node.value.path);
    }
  }

  /** What has no child may go. */
  lemma RemoveKeepsTree(nodes: Nodes, nodes': Nodes, at: nat)
    requires Tree(nodes) && LiveAt(nodes, at) && !LiveAt(nodes', at) && nodes[at].node.value.path != "/"
    requires forall i: nat :: i != at ==> (LiveAt(nodes', i) <==> LiveAt(nodes, i)) && (LiveAt(nodes, i) ==>
      nodes'[i] == nodes[i])
    requires forall i: nat :: LiveAt(nodes, i) && nodes[i].node.value.path != "/" ==>
      ParentOf(nodes[i].node.value.path) != nodes[at].node.value.path
    ensures Tree(nodes') && !Has(nodes', nodes[at].node.value.path)
  {
    forall p | HasDir(nodes, p) && p != nodes[at].node.value.path ensures HasDir(nodes', p) {
      var i: nat :| LiveAt(nodes, i) && nodes[i].node.value.path == p && nodes[i].node.value.isDir;
      assert LiveAt(nodes', i);
    }
    forall i: nat | LiveAt(nodes', i) ensures Rooted(nodes', nodes'[i].node.value.path) {
      assert LiveAt(nodes, i);
      StillRooted(nodes, nodes', nodes'[i].node.value.path);
    }
  }

  /** New contents do not matter to the tree. */
  lemma WriteKeepsTree(nodes: Nodes, at: nat, data: seq<Byte>)
    requires Tree(nodes) && LiveAt(nodes, at)
    ensures Tree(nodes[at := nodes[at].(node := Some(nodes[at].node.value.(data := data)))])
  {
    var nodes' := nodes[at := nodes[at].(node := Some(nodes[at].node.value.(data := data)))];
    forall p | HasDir(nodes, p) ensures HasDir(nodes', p) {
      var i: nat :| LiveAt(nodes, i) && nodes[i].node.value.path == p && nodes[i].node.value.isDir;
      assert LiveAt(nodes', i);
    }
    forall i: nat | LiveAt(nodes', i) ensures Rooted(nodes', nodes'[i].node.value.path) {
      assert LiveAt(nodes, i);
      StillRooted(nodes, nodes', nodes'[i].node.value.path);
    }
    forall i: nat, j: nat | LiveAt(nodes', i) && LiveAt(nodes', j)
      && nodes'[i].node.value.path == nodes'[j].node.value.path
      ensures i == j
    {
      assert LiveAt(nodes, i) && LiveAt(nodes, j);
    }
  }

  // ---- handles ----

  /** What a slot's `generation` stands for: how often the slot was used before.  The
      kernel keeps it modulo 2^32. */
  ghost predicate Counts(nodes: Nodes, uses: seq<nat>) {
    |uses| == |nodes| && forall i :: 0 <= i < |nodes| ==> nodes[i].generation == uses[i] % GENERATIONS
  }

  /** Every live node is the one that was born at that use of its slot. */
  ghost predicate BornHere(nodes: Nodes, uses: seq<nat>, born: map<(nat, nat), Path>)
    requires |uses| == |nodes|
  {
    && (forall i: nat :: LiveAt(nodes, i) ==> (i, uses[i]) in born && born[(i, uses[i])] == nodes[i].node.value.path)
    && (forall i: nat, u: nat :: (i, u) in born ==> i < |nodes| && u <= uses[i])
  }

  /** `live`: the node behind a handle, if the slot still has the handle's generation. */
  function Lookup(nodes: Nodes, i: nat, generation: nat): Option<Node> {
    if i < |nodes| && nodes[i].generation == generation then nodes[i].node else None
  }

  /** The nodes of an image are the first in their slots. */
  ghost function FirstBorn(nodes: Nodes): map<(nat, nat), Path> {
    map i: nat | i < |nodes| && nodes[i].node.Some? :: (i, 0) := nodes[i].node.value.path
  }

  lemma StartsOk(nodes: Nodes)
    requires forall i :: 0 <= i < |nodes| ==> nodes[i].generation == 0
    ensures Counts(nodes, Zeros(|nodes|)) && BornHere(nodes, Zeros(|nodes|), FirstBorn(nodes))
  {
  }

  lemma {:induction false} SameModulo(a: nat, b: nat)
    requires a <= b < a + GENERATIONS && a % GENERATIONS == b % GENERATIONS
    ensures a == b
  {
  }

  /** A handle leads to the file it was issued for, or nowhere, as long as its slot was
      not used 2^32 times since. */
  lemma HandleIsExact(nodes: Nodes, uses: seq<nat>, born: map<(nat, nat), Path>, i: nat, u: nat)
    requires Counts(nodes, uses) && BornHere(nodes, uses, born) && (i, u) in born
    requires uses[i] < u + GENERATIONS && Lookup(nodes, i, u % GENERATIONS).Some?
    ensures uses[i] == u && Lookup(nodes, i, u % GENERATIONS).value.path == born[(i, u)]
  {
    SameModulo(u, uses[i]);
  }

  /** In general it leads to the use of the slot that is now, exactly when the two
      differ by a multiple of 2^32. */
  lemma HandleAliasesIff(nodes: Nodes, uses: seq<nat>, i: nat, u: nat)
    requires Counts(nodes, uses) && LiveAt(nodes, i) && u <= uses[i]
    ensures Lookup(nodes, i, u % GENERATIONS).Some? <==> (uses[i] - u) % GENERATIONS == 0
  {
  }

  // ---- contents ----

  function Zeros(n: nat): (r: seq<Byte>)
    ensures |r| == n && forall i :: 0 <= i < n ==> r[i] == 0
  {
    if n == 0 then [] else Zeros(n - 1) + [0]
  }

  /** `resize` and `copy_from_slice`: the file grows with zeros up to the write. */
  function Overlay(data: seq<Byte>, offset: nat, src: seq<Byte>): seq<Byte> {
    var end := offset + |src|;
    var grown := if end > |data| then data + Zeros(end - |data|) else data;
    grown[..offset] + src + grown[end..]
  }

  /** `read_at` on the contents of a file. */
  function Slice(data: seq<Byte>, offset: nat, len: nat): seq<Byte> {
    if offset >= |data| then [] else data[offset..offset + Min(len, |data| - offset)]
  }

  /** What was written is read back, and every other byte is as before, or zero. */
  lemma ReadsBack(data: seq<Byte>, offset: nat, src: seq<Byte>, k: nat)
    ensures Slice(Overlay(data, offset, src), offset, |src|) == src
    ensures |Overlay(data, offset, src)| == if offset + |src| > |data| then offset + |src| else |data|
    ensures k < |Overlay(data, offset, src)| && (k < offset || offset + |src| <= k) ==>
      Overlay(data, offset, src)[k] == if k < |data| then data[k] else 0
  {
  }

  /** The bytes that reads of these lengths give, each from where the one before ended. */
  ghost function ReadFrom(data: seq<Byte>, offset: nat, lens: seq<nat>): seq<Byte>
    decreases lens
  {
    if lens == [] then []
    else
      var r := Slice(data, offset, lens[0]);
      r + ReadFrom(data, offset + |r|, lens[1..])
  }

  ghost function Total(lens: seq<nat>): nat { if lens == [] then 0 else lens[0] + Total(lens[1..]) }

  /** They are the contents from the start of the first on, as far as was asked. */
  lemma {:induction false} ConsecutiveReads(data: seq<Byte>, offset: nat, lens: seq<nat>)
    requires offset <= |data|
    ensures ReadFrom(data, offset, lens) == data[offset..offset + Min(Total(lens), |data| - offset)]
    decreases lens
  {
    hide Slice;
    if lens != [] {
      var r, rest := Slice(data, offset, lens[0]), Total(lens[1..]);
      TwoReads(data, offset, lens[0], rest);
      ConsecutiveReads(data, offset + |r|, lens[1..]);
    }
  }

  lemma TwoReads(data: seq<Byte>, offset: nat, a: nat, b: nat)
    requires offset <= |data|
    ensures var r := Slice(data, offset, a);
      && offset + |r| <= |data|
      && r + data[offset + |r|..offset + |r| + Min(b, |data| - offset - |r|)] ==
           data[offset..offset + Min(a + b, |data| - offset)]
  {
    var n, m := Min(a, |data| - offset), Min(a + b, |data| - offset);
    assert Slice(data, offset, a) == data[offset..offset + n];
    assert data[offset..offset + n] + data[offset + n..offset + m] == data[offset..offset + m];
  }

  /** Reads until one that asked for bytes gives none have given the whole file. */
  lemma ReadToTheEnd(data: seq<Byte>, lens: seq<nat>, last: nat)
    requires last > 0 && Slice(data, |ReadFrom(data, 0, lens)|, last) == []
    ensures ReadFrom(data, 0, lens) == data
  {
    ConsecutiveReads(data, 0, lens);
  }

  // ---- the file system ----

  /** File `i` with other contents. */
  function WithData(nodes: Nodes, i: nat, data: seq<Byte>): Nodes
    requires LiveAt(nodes, i)
  {
    nodes[i := nodes[i].(node := Some(nodes[i].node.value.(data := data)))]
  }

  class FileSystem {
    var nodes: Nodes
    ghost var uses: seq<nat>
    ghost var born: map<(nat, nat), Path>

    ghost predicate Valid()
      reads this
    {
      Tree(nodes) && Counts(nodes, uses) && BornHere(nodes, uses, born)
    }

    /** A file system with the nodes of an image. */
    constructor (initial: Nodes)
      requires Tree(initial) && forall i :: 0 <= i < |initial| ==> initial[i].generation == 0
      ensures Valid() && nodes == initial && uses == Zeros(|initial|)
    {
      hide Tree, Counts, BornHere, FirstBorn;
      nodes, uses, born := initial, Zeros(|initial|), FirstBorn(initial);
      StartsOk(initial);
      new;
    }

    method Find(path: Path) returns (r: Option<nat>)
      ensures r.Some? ==> LiveAt(nodes, r.value) && nodes[r.value].node.value.path == path
      ensures r.None? <==> !Has(nodes, path)
    {
      var i := 0;
      while i < |nodes|
        invariant 0 <= i <= |nodes|
        invariant forall j: nat :: j < i && LiveAt(nodes, j) ==> nodes[j].node.value.path != path
      {
        if nodes[i].node.Some? && nodes[i].node.value.path == path {
          assert LiveAt(nodes, i);
          return Some(i);
        }
        i := i + 1;
      }
      return None;
    }

    /** The first tombstone, or the end of the table. */
    method Vacant() returns (i: nat)
      ensures i <= |nodes| && !LiveAt(nodes, i) && forall j: nat :: j < i ==> LiveAt(nodes, j)
    {
      i := 0;
      while i < |nodes| && nodes[i].node.Some?
        invariant 0 <= i <= |nodes| && forall j: nat :: j < i ==> LiveAt(nodes, j)
      {
        i := i + 1;
      }
    }

    /** Creates a file or directory under an existing directory; the handle names a use
        of a slot that no earlier handle named. */
    method Make(path: Path, isDir: bool) returns (r: Result<(nat, nat)>, ghost u: nat)
      requires Valid()
      modifies this
      ensures Valid()
      ensures r == Err(InvalidPath) <==> !Paths.Valid(path)
      ensures r == Err(AlreadyExists) <==> Paths.Valid(path) && Has(old(nodes), path)
      ensures r == Err(NotFound) <==> Paths.Valid(path) && !Has(old(nodes), path) && !Has(old(nodes), ParentOf(path))
      ensures r == Err(NotADirectory) <==>
        Paths.Valid(path) && !Has(old(nodes), path) && Has(old(nodes), ParentOf(path))
          && !HasDir(old(nodes), ParentOf(path))
      ensures r.Ok? <==> Paths.Valid(path) && !Has(old(nodes), path) && HasDir(old(nodes), ParentOf(path))
      ensures r.Err? ==> unchanged(this)
      ensures r.Ok? ==> var (i, g) := r.value;
        && !LiveAt(old(nodes), i) && (forall j: nat :: j < i ==> LiveAt(old(nodes), j)) && g == u % GENERATIONS
        && PutAt(old(nodes), i, Slot(g, Some(Node(path, isDir, []))), nodes) && PutAt(old(uses), i, u, uses)
        && u == (if i < |old(uses)| then old(uses)[i] + 1 else 0)
        && (i, u) !in old(born) && born == old(born)[(i, u) := path]
    {
      u := 0;
      if !Paths.Valid(path) {
        return Err(InvalidPath), u;
      }
      if path == "/" {
        RootIsThere(nodes);
        return Err(AlreadyExists), u;
      }
      var same := Find(path);
      if same.Some? {
        return Err(AlreadyExists), u;
      }
      var parent := Find(ParentOf(path));
      if parent.None? {
        return Err(NotFound), u;
      }
      if !nodes[parent.value].node.value.isDir {
        NoDirTwice(nodes, parent.value);
        return Err(NotADirectory), u;
      }
      assert HasDir(nodes, ParentOf(path));
      assert Has(nodes, ParentOf(path));
      var i := Vacant();
      r, u := Put(i, Node(path, isDir, []));
    }

    method Put(i: nat, n: Node) returns (r: Result<(nat, nat)>, ghost u: nat)
      requires Valid() && i <= |nodes| && !LiveAt(nodes, i) && !Has(nodes, n.path) && Rooted(nodes, n.path)
      modifies this
      ensures Valid() && r.Ok? && r.value.0 == i && r.value.1 == u % GENERATIONS
      ensures PutAt(old(nodes), i, Slot(r.value.1, Some(n)), nodes) && PutAt(old(uses), i, u, uses)
      ensures u == if i < |old(uses)| then old(uses)[i] + 1 else 0
      ensures (i, u) !in old(born) && born == old(born)[(i, u) := n.path]
    {
      hide Tree, Rooted;
      ghost var was := nodes;
      if i < |nodes| {
        u := uses[i] + 1;
        NextGeneration(uses[i]);
        nodes := nodes[i := Slot((nodes[i].generation + 1) % GENERATIONS, Some(n))];
        uses := uses[i := u];
      } else {
        u := 0;
        nodes := nodes + [Slot(0, Some(n))];
        uses := uses + [0];
      }
      assert forall j: nat :: j != i ==>
        (LiveAt(nodes, j) <==> LiveAt(was, j)) && (LiveAt(was, j) ==> nodes[j] == was[j]);
      AddKeepsTree(was, nodes, i, n);
      born := born[(i, u) := n.path];
      return Ok((i, nodes[i].generation)), u;
    }

    method Unlink(path: Path) returns (r: Result<()>)
      requires Valid()
      modifies this`nodes
      ensures Valid() && (r.Err? ==> nodes == old(nodes))
      ensures r == Err(InvalidPath) <==> !Paths.Valid(path)
      ensures r == Err(NotFound) <==> Paths.Valid(path) && !Has(old(nodes), path)
      ensures r == Err(NotAFile) <==> Paths.Valid(path) && HasDir(old(nodes), path)
      ensures r.Ok? <==> Paths.Valid(path) && Has(old(nodes), path) && !HasDir(old(nodes), path)
      ensures r.Ok? ==> Removal(old(nodes), nodes, path)
    {
      if !Paths.Valid(path) {
        return Err(InvalidPath);
      }
      var id := Find(path);
      if id.None? {
        return Err(NotFound);
      }
      NoDirTwice(nodes, id.value);
      if nodes[id.value].node.value.isDir {
        return Err(NotAFile);
      }
      FileHasNoChild(nodes, id.value);
      Bury(id.value);
      return Ok(());
    }

    /** Removes a directory other than the root that has no child. */
    method Rmdir(path: Path) returns (r: Result<()>)
      requires Valid()
      modifies this`nodes
      ensures Valid() && (r.Err? ==> nodes == old(nodes))
      ensures r == Err(InvalidPath) <==> !Paths.Valid(path)
      ensures r == Err(NotFound) <==> Paths.Valid(path) && !Has(old(nodes), path)
      ensures r == Err(NotADirectory) <==> Paths.Valid(path) && Has(old(nodes), path) && !HasDir(old(nodes), path)
      ensures r.Ok? <==> Paths.Valid(path) && path != "/" && HasDir(old(nodes), path) && !HasChild(old(nodes), path)
      ensures r == Err(NotEmpty) <==>
        Paths.Valid(path) && (path == "/" || (HasDir(old(nodes), path) && HasChild(old(nodes), path)))
      ensures r.Ok? ==> Removal(old(nodes), nodes, path)
    {
      if !Paths.Valid(path) {
        return Err(InvalidPath);
      }
      RootIsThere(nodes);
      if path == "/" {
        return Err(NotEmpty);
      }
      var id := Find(path);
      if id.None? {
        return Err(NotFound);
      }
      NoDirTwice(nodes, id.value);
      if !nodes[id.value].node.value.isDir {
        return Err(NotADirectory);
      }
      var child := AnyChild(path);
      if child {
        return Err(NotEmpty);
      }
      Bury(id.value);
      return Ok(());
    }

    method AnyChild(path: Path) returns (r: bool)
      requires Valid() && Paths.Valid(path)
      ensures r <==> HasChild(nodes, path)
    {
      var i := 0;
      while i < |nodes|
        invariant 0 <= i <= |nodes|
        invariant forall j: nat :: j < i && LiveAt(nodes, j) ==> !ChildAt(nodes, path, j)
      {
        if nodes[i].node.Some? {
          assert LiveAt(nodes, i) && Rooted(nodes, nodes[i].node.value.path);
          NodeIsChild(path, nodes[i].node.value.path);
          if IsChild(path, nodes[i].node.value.path) {
            assert ChildAt(nodes, path, i);
            return true;
          }
        }
        i := i + 1;
      }
      return false;
    }

    method Bury(i: nat)
      requires Valid() && LiveAt(nodes, i) && nodes[i].node.value.path != "/"
        && !HasChild(nodes, nodes[i].node.value.path)
      modifies this`nodes
      ensures Valid() && Removal(old(nodes), nodes, old(nodes)[i].node.value.path)
    {
      hide Rooted;
      ghost var was := nodes;
      nodes := nodes[i := nodes[i].(node := None)];
      assert forall j: nat :: j != i ==>
        (LiveAt(nodes, j) <==> LiveAt(was, j)) && (LiveAt(was, j) ==> nodes[j] == was[j]);
      assert forall j: nat :: LiveAt(was, j) ==> !ChildAt(was, was[i].node.value.path, j);
      RemoveKeepsTree(was, nodes, i);
    }

    method ReadAt(i: nat, generation: nat, offset: nat, len: nat) returns (r: seq<Byte>)
      requires Valid()
      ensures var n := Lookup(nodes, i, generation);
        r == if n.Some? && !n.value.isDir then Slice(n.value.data, offset, len) else []
      // as much as there is from the offset on, and no more than asked for
      ensures LiveAt(nodes, i) && nodes[i].generation == generation && !nodes[i].node.value.isDir ==>
        var data := nodes[i].node.value.data;
        && |r| == (if offset >= |data| then 0 else if len <= |data| - offset then len else |data| - offset)
        && forall k :: 0 <= k < |r| ==> r[k] == data[offset + k]
    {
      if i >= |nodes| || nodes[i].generation != generation || nodes[i].node.None? || nodes[i].node.value.isDir {
        return [];
      }
      var data := nodes[i].node.value.data;
      if offset >= |data| {
        return [];
      }
      return data[offset..offset + Min(len, |data| - offset)];
    }

    /** Writes to the file behind the handle and to nothing else. */
    method WriteAt(i: nat, generation: nat, offset: nat, src: seq<Byte>) returns (n: nat)
      requires Valid()
      modifies this`nodes
      ensures Valid()
      ensures var f := Lookup(old(nodes), i, generation);
        if f.Some? && !f.value.isDir
        then n == |src| && nodes == WithData(old(nodes), i, Overlay(f.value.data, offset, src))
        else n == 0 && nodes == old(nodes)
    {
      hide Tree;
      if i >= |nodes| || nodes[i].generation != generation || nodes[i].node.None? || nodes[i].node.value.isDir {
        return 0;
      }
      Replace(i, Overlay(nodes[i].node.value.data, offset, src));
      return |src|;
    }

    method Truncate(i: nat, generation: nat)
      requires Valid()
      modifies this`nodes
      ensures Valid()
      ensures var f := Lookup(old(nodes), i, generation);
        nodes == if f.Some? && !f.value.isDir then WithData(old(nodes), i, []) else old(nodes)
    {
      if i < |nodes| && nodes[i].generation == generation && nodes[i].node.Some? && !nodes[i].node.value.isDir {
        Replace(i, []);
      }
    }

    method Replace(i: nat, data: seq<Byte>)
      requires Valid() && LiveAt(nodes, i)
      modifies this`nodes
      ensures Valid() && nodes == old(nodes)[i := old(nodes)[i].(node := Some(old(nodes)[i].node.value.(data := data)))]
    {
      hide Tree;
      WriteKeepsTree(nodes, i, data);
      ghost var was := nodes;
      nodes := nodes[i := nodes[i].(node := Some(nodes[i].node.value.(data := data)))];
      assert forall j: nat :: LiveAt(nodes, j) <==> LiveAt(was, j);
    }
  }

  predicate ChildAt(nodes: Nodes, path: Path, j: nat)
    requires LiveAt(nodes, j)
  {
    nodes[j].node.value.path != "/" && ParentOf(nodes[j].node.value.path) == path
  }

  ghost predicate HasChild(nodes: Nodes, path: Path) { exists j: nat :: LiveAt(nodes, j) && ChildAt(nodes, path, j) }

  /** The path is gone, and nothing else. */
  ghost predicate Removal(nodes: Nodes, nodes': Nodes, path: Path) {
    && !Has(nodes', path)
    && exists i: nat ::
       && LiveAt(nodes, i) && nodes[i].node.value.path == path
       && nodes' == nodes[i := nodes[i].(node := None)]
  }

  /** Element `i` replaced, or put at the end. */
  ghost predicate PutAt<T>(s: seq<T>, i: nat, x: T, s': seq<T>) {
    i <= |s| && s' == if i < |s| then s[i := x] else s + [x]
  }

  lemma NodeIsChild(parent: Path, child: Path)
    requires Paths.Valid(parent) && Paths.Valid(child)
    ensures IsChild(parent, child) <==> child != "/" && ParentOf(child) == parent
  {
    if child != "/" {
      ChildIffParent(parent, child);
    }
  }

  lemma RootIsThere(nodes: Nodes)
    requires Tree(nodes)
    ensures Has(nodes, "/") && HasDir(nodes, "/")
  {
    var i: nat :| LiveAt(nodes, i) && nodes[i].node.value.path == "/" && nodes[i].node.value.isDir;
  }

  /** A path is a directory exactly if the node found is one. */
  lemma NoDirTwice(nodes: Nodes, i: nat)
    requires Tree(nodes) && LiveAt(nodes, i)
    ensures HasDir(nodes, nodes[i].node.value.path) <==> nodes[i].node.value.isDir
  {
  }

  lemma FileHasNoChild(nodes: Nodes, i: nat)
    requires Tree(nodes) && LiveAt(nodes, i) && !nodes[i].node.value.isDir
    ensures nodes[i].node.value.path != "/" && !HasChild(nodes, nodes[i].node.value.path)
  {
    NoDirTwice(nodes, i);
    forall j: nat | LiveAt(nodes, j) ensures !ChildAt(nodes, nodes[i].node.value.path, j) {
      assert Rooted(nodes, nodes[j].node.value.path);
    }
  }

  lemma NextGeneration(u: nat)
    ensures (u % GENERATIONS + 1) % GENERATIONS == (u + 1) % GENERATIONS
  {
  }

  const ROOT := Slot(0, Some(Node("/", true, [])))

  /** A file system with the root and one tombstone. */
  lemma EmptyDirectory(g: nat, p: Path)
    requires p == "/a" || p == "/b"
    ensures Paths.Valid(p) && !Has([ROOT], p) && !Has([ROOT, Slot(g, None)], p) && ParentOf(p) == "/"
    ensures HasDir([ROOT], "/") && Has([ROOT], "/") && HasDir([ROOT, Slot(g, None)], "/")
      && Has([ROOT, Slot(g, None)], "/") && Tree([ROOT])
  {
    assert LiveAt([ROOT], 0) && LiveAt([ROOT, Slot(g, None)], 0);
  }

  lemma OneFile(g: nat, p: Path, nodes: Nodes)
    requires p == "/a" || p == "/b"
    ensures var was := [ROOT, Slot(g, Some(Node(p, false, [])))];
      Has(was, p) && !HasDir(was, p) && (Removal(was, nodes, p) ==> nodes == [ROOT, Slot(g, None)])
  {
    assert LiveAt([ROOT, Slot(g, Some(Node(p, false, [])))], 1);
  }

  /** One use of the slot: the file is made and removed again. */
  method UseSlot(fs: FileSystem, p: Path, ghost n: nat)
    requires fs.Valid() && (p == "/a" || p == "/b") && n < GENERATIONS
    requires (n == 0 && fs.nodes == [ROOT] && fs.uses == [0])
      || (n > 0 && fs.nodes == [ROOT, Slot(n - 1, None)] && fs.uses == [0, n - 1])
    modifies fs
    ensures fs.Valid() && fs.nodes == [ROOT, Slot(n, None)] && fs.uses == [0, n] && fs.born == old(fs.born)[(1, n) := p]
  {
    hide Tree, Counts, BornHere, Has, HasDir, Paths.Valid, ParentOf, Removal;
    EmptyDirectory(if n == 0 then 0 else n - 1, p);
    assert LiveAt(fs.nodes, 0) && !LiveAt(fs.nodes, 1);
    var r, u := fs.Make(p, false);
    assert r.value.0 == 1 && u == n && n % GENERATIONS == n;
    assert fs.nodes == [ROOT, Slot(n, Some(Node(p, false, [])))];
    OneFile(n, p, []);
    var _ := fs.Unlink(p);
    OneFile(n, p, fs.nodes);
  }

  /** A file "/a" is made and removed, and then its slot is used again and again: after
      2^32 files "/b" the handle of "/a" leads to the last of them. */
  method HandleCanAlias() returns (fs: FileSystem, i: nat, g: nat)
    ensures fresh(fs) && fs.Valid()
    ensures (i, 0) in fs.born && fs.born[(i, 0)] == "/a" && g == 0 % GENERATIONS
    ensures Lookup(fs.nodes, i, g).Some? && Lookup(fs.nodes, i, g).value.path == "/b"
  {
    hide Tree, Counts, BornHere, Has, HasDir, Paths.Valid, ParentOf;
    EmptyDirectory(0, "/a");
    fs := new FileSystem([ROOT]);
    i, g := 1, 0;
    UseSlot(fs, "/a", 0);
    var n := 0;
    while n < GENERATIONS - 1
      invariant 0 <= n <= GENERATIONS - 1 && fresh(fs) && fs.Valid()
      invariant fs.nodes == [ROOT, Slot(n, None)] && fs.uses == [0, n] && (1, 0) in fs.born && fs.born[(1, 0)] == "/a"
    {
      UseSlot(fs, "/b", n + 1);
      n := n + 1;
    }
    EmptyDirectory(n, "/b");
    assert LiveAt(fs.nodes, 0) && !LiveAt(fs.nodes, 1);
    var r, u := fs.Make("/b", false);
    assert r.value.0 == 1;
    assert u == GENERATIONS && fs.nodes == [ROOT, Slot(0, Some(Node("/b", false, [])))];
  }
}
