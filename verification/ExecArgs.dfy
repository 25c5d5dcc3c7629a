/** Program arguments on their way from one program to the next: encoded by the caller,
    parsed by the kernel, laid out on the new stack, read by the new program. */
module ExecArgs {
  import opened Common
  import opened Bytes
  import Utf8

  const STACK_TOP: nat := 0x80_8000_0000
  const STACK_SIZE: nat := 0x1_0000
  const STACK_BASE: nat := STACK_TOP - STACK_SIZE

  predicate NulFree(b: Data) { forall i :: 0 <= i < |b| ==> b[i] != 0 }

  ghost predicate GoodArgs(args: seq<Data>) { forall i :: 0 <= i < |args| ==> args[i] != [] && NulFree(args[i]) }

  /** Every argument with its terminator. */
  function Terminated(args: seq<Data>): (r: seq<Data>)
    ensures |r| == |args| && forall i :: 0 <= i < |r| ==> r[i] == args[i] + [0]
  {
    seq(|args|, i requires 0 <= i < |args| => args[i] + [0])
  }

  // ---- the caller ----

  function Encoded(path: Data, args: seq<Data>): Data { path + [0] + Flat(Terminated(args)) + [0] }

  /** `part` written over the bytes at `at`. */
  function Put(s: Data, at: nat, part: Data): (r: Data)
    requires at + |part| <= |s|
    ensures |r| == |s|
  {
    s[..at] + part + s[at + |part|..]
  }

  method Store(a: array<Byte>, at: nat, part: Data)
    requires at + |part| <= a.Length
    modifies a
    ensures a[..] == Put(old(a[..]), at, part)
  {
    var i := 0;
    while i < |part|
      invariant 0 <= i <= |part|
      invariant forall k :: 0 <= k < a.Length ==> a[k] == if at <= k < at + i then part[k - at] else old(a[k])
    {
      a[at + i] := part[i];
      i := i + 1;
    }
  }

  lemma PutExtends(s: Data, lo: nat, at: nat, part: Data)
    requires lo <= at && at + |part| <= |s|
    ensures Put(s, at, part)[lo..at + |part|] == s[lo..at] + part
  {
  }

  lemma PutKeeps(s: Data, at: nat, part: Data, lo: nat, hi: nat)
    requires at + |part| <= |s| && lo <= hi <= |s| && (hi <= at || at + |part| <= lo)
    ensures Put(s, at, part)[lo..hi] == s[lo..hi]
  {
  }

  function Nulls(n: nat): (r: Data)
    ensures |r| == n && forall i :: 0 <= i < n ==> r[i] == 0
  {
    if n == 0 then [] else Nulls(n - 1) + [0]
  }

  /** Copying into zeros leaves a terminator behind. */
  lemma FillStep(front: Data, m: nat, part: Data)
    requires |part| < m
    ensures Put(front + Nulls(m), |front|, part) == front + (part + [0]) + Nulls(m - |part| - 1)
  {
    var r := Put(front + Nulls(m), |front|, part);
    var t := front + (part + [0]) + Nulls(m - |part| - 1);
    assert |r| == |t|;
    forall k | 0 <= k < |r| ensures r[k] == t[k] {}
  }

  /** The length of the buffer. */
  method Measure(path: Data, args: seq<Data>) returns (total: nat)
    ensures total == |Encoded(path, args)|
  {
    var parts := Terminated(args);
    total := |path| + 1;
    var i := 0;
    while i < |args|
      invariant 0 <= i <= |args| && total == |path| + 1 + Offset(parts, i)
    {
      FlatPush(parts, i);
      total := total + |args[i]| + 1;
      i := i + 1;
    }
    assert parts[..i] == parts;
    total := total + 1;
  }

  /** `sys_exec_with`: a zeroed buffer, with the path and the arguments copied in. */
  method Encode(path: Data, args: seq<Data>) returns (buffer: array<Byte>)
    ensures fresh(buffer) && buffer[..] == Encoded(path, args)
  {
    hide Flat, Put, Nulls;
    var total := Measure(path, args);
    buffer := new Byte[total](_ => 0);
    assert buffer[..] == [] + Nulls(total);
    FillStep([], total, path);
    Store(buffer, 0, path);
    assert buffer[..] == path + [0] + Nulls(total - |path| - 1);
    FillArgs(buffer, path + [0], args);
  }

  method FillArgs(buffer: array<Byte>, start: Data, args: seq<Data>)
    requires buffer.Length == |start| + |Flat(Terminated(args))| + 1
      && buffer[..] == start + Nulls(buffer.Length - |start|)
    modifies buffer
    ensures buffer[..] == start + Flat(Terminated(args)) + [0]
  {
    hide Flat, Put, Nulls, Terminated;
    var parts := Terminated(args);
    var offset, i := |start|, 0;
    ghost var total := buffer.Length;
    FlatNothing(parts);
    assert start + Flat(parts[..0]) == start;
    while i < |args|
      invariant 0 <= i <= |args| && offset == |start| + Offset(parts, i) && buffer.Length == total
      invariant offset < total && buffer[..] == start + Flat(parts[..i]) + Nulls(total - offset)
    {
      FlatPush(parts, i);
      FlatSlice(parts, i);
      ghost var front := start + Flat(parts[..i]);
      FillStep(front, total - offset, args[i]);
      Store(buffer, offset, args[i]);
      assert front + (args[i] + [0]) == start + Flat(parts[..i + 1]);
      offset := offset + |args[i]| + 1;
      i := i + 1;
      EndsInside(parts, i);
    }
    assert parts[..i] == parts;
    OneNull();
  }

  lemma OneNull()
    ensures Nulls(1) == [0]
  {
  }

  lemma FlatNothing(parts: seq<Data>)
    ensures parts[..0] == [] && Flat(parts[..0]) == []
  {
  }

  lemma EndsInside(parts: seq<Data>, i: nat)
    requires i <= |parts|
    ensures Offset(parts, i) <= |Flat(parts)|
  {
    if i < |parts| {
      FlatSlice(parts, i);
    } else {
      assert parts[..i] == parts;
    }
  }

  // ---- the kernel ----

  /** The first NUL at or after `from`, or the end. */
  function NulFrom(b: Data, from: nat): (r: nat)
    requires from <= |b|
    ensures from <= r <= |b| && (r < |b| ==> b[r] == 0)
    ensures forall k :: from <= k < r ==> b[k] != 0
    decreases |b| - from
  {
    if from == |b| || b[from] == 0 then from else NulFrom(b, from + 1)
  }

  /** Arguments from `pos` on, up to an empty one or the end. */
  function ArgsFrom(b: Data, pos: nat): seq<Data>
    decreases |b| - pos
  {
    if pos >= |b| || b[pos] == 0 then [] else
      var end := NulFrom(b, pos);
      [b[pos..end]] + ArgsFrom(b, end + 1)
  }

  function ParsedArgs(b: Data): seq<Data> {
    var end := NulFrom(b, 0);
    if end + 1 < |b| then ArgsFrom(b, end + 1) else []
  }

  /** The path up to the first NUL, or nothing if that is not UTF-8. */
  function ParsedPath(b: Data): Data {
    var path := b[..NulFrom(b, 0)];
    if Utf8.WellFormed(path) then path else []
  }

  method Scan(bytes: Data, from: nat) returns (pos: nat)
    requires from <= |bytes|
    ensures pos == NulFrom(bytes, from)
  {
    pos := from;
    while pos < |bytes| && bytes[pos] != 0
      invariant from <= pos <= |bytes| && NulFrom(bytes, pos) == NulFrom(bytes, from)
    {
      pos := pos + 1;
    }
  }

  /** The parser of `sys_exec`. */
  method Parse(bytes: Data) returns (path: Data, args: seq<Data>)
    requires bytes != []
    ensures path == ParsedPath(bytes) && args == ParsedArgs(bytes)
  {
    var pathEnd := Scan(bytes, 0);
    path, args := if Utf8.WellFormed(bytes[..pathEnd]) then bytes[..pathEnd] else [], [];
    if pathEnd < |bytes| - 1 {
      args := ScanArgs(bytes, pathEnd + 1);
    }
  }

  method ScanArgs(bytes: Data, from: nat) returns (args: seq<Data>)
    requires from <= |bytes|
    ensures args == ArgsFrom(bytes, from)
  {
    hide ArgsFrom, NulFrom;
    args := [];
    var pos := from;
    while pos < |bytes| && bytes[pos] != 0
      invariant 0 <= pos <= |bytes| && args + ArgsFrom(bytes, pos) == ArgsFrom(bytes, from)
      decreases |bytes| - pos
    {
      var start := pos;
      pos := Scan(bytes, start);
      ArgStep(bytes, start, args);
      args := args + [bytes[start..pos]];
      if pos < |bytes| {
        pos := pos + 1;
      }
    }
    ArgsEnd(bytes, pos);
  }

  lemma ArgsEnd(b: Data, pos: nat)
    requires pos >= |b| || b[pos] == 0
    ensures ArgsFrom(b, pos) == []
  {
  }

  lemma ArgStep(b: Data, pos: nat, args: seq<Data>)
    requires pos < |b| && b[pos] != 0
    ensures var end := NulFrom(b, pos);
      && end > pos && args + ArgsFrom(b, pos) == args + [b[pos..end]] + ArgsFrom(b, end + 1)
      && (end == |b| ==> ArgsFrom(b, end) == ArgsFrom(b, end + 1))
  {
    var end := NulFrom(b, pos);
    assert args + ([b[pos..end]] + ArgsFrom(b, end + 1)) == args + [b[pos..end]] + ArgsFrom(b, end + 1);
  }

  lemma {:induction false} FlatCons(x: Data, parts: seq<Data>)
    ensures Flat([x] + parts) == x + Flat(parts)
  {
    if parts == [] {
      assert [x] + parts == [x] && [x][..0] == [];
      assert Flat([x]) == Flat([]) + x;
    } else {
      var n := |parts| - 1;
      FlatCons(x, parts[..n]);
      assert ([x] + parts)[..n + 1] == [x] + parts[..n];
    }
  }

  lemma TerminatedCons(x: Data, rest: seq<Data>)
    ensures Flat(Terminated([x] + rest)) == x + [0] + Flat(Terminated(rest))
  {
    assert Terminated([x] + rest) == [x + [0]] + Terminated(rest);
    FlatCons(x + [0], Terminated(rest));
  }

  lemma FirstArg(b: Data, pos: nat)
    requires pos < |b| && b[pos] != 0
    ensures var end := NulFrom(b, pos);
      && pos < end && ArgsFrom(b, pos) == [b[pos..end]] + ArgsFrom(b, end + 1)
      && b[pos..end] != [] && NulFree(b[pos..end])
      && end + 1 <= |b| + 1 && (b + [0])[pos..end + 1] == b[pos..end] + [0]
  {
  }

  /** On any bytes: the arguments are not empty, hold no NUL, lie one after the other with a
      NUL between them, and stop where a NUL or the end is next. */
  lemma {:induction false} ArgsAreExact(b: Data, pos: nat)
    requires pos <= |b| + 1
    ensures GoodArgs(ArgsFrom(b, pos))
    ensures var t := Flat(Terminated(ArgsFrom(b, pos)));
      && pos + |t| <= |b| + 1 && (b + [0])[pos..pos + |t|] == t
      && (pos + |t| >= |b| || b[pos + |t|] == 0)
    decreases |b| + 1 - pos
  {
    hide ArgsFrom, NulFrom, Flat, Terminated, NulFree;
    if pos < |b| && b[pos] != 0 {
      FirstArg(b, pos);
      var end := NulFrom(b, pos);
      ArgsAreExact(b, end + 1);
      var t := Flat(Terminated(ArgsFrom(b, end + 1)));
      TerminatedCons(b[pos..end], ArgsFrom(b, end + 1));
      Glue(b + [0], pos, end + 1, end + 1 + |t|);
    } else {
      ArgsEnd(b, pos);
      NoArgs();
    }
  }

  lemma Glue(b: Data, i: nat, j: nat, k: nat)
    requires i <= j <= k <= |b|
    ensures b[i..k] == b[i..j] + b[j..k]
  {
  }

  lemma NoArgs()
    ensures Flat(Terminated([])) == []
  {
  }

  lemma NulAfter(b: Data, from: nat, part: Data)
    requires from + |part| < |b| && b[from..from + |part|] == part && NulFree(part) && b[from + |part|] == 0
    ensures NulFrom(b, from) == from + |part|
  {
    var r := NulFrom(b, from);
    forall k | from <= k < from + |part| ensures b[k] != 0 {
      assert b[from..from + |part|][k - from] == part[k - from];
    }
  }

  /** Argument `i` and its terminator in the encoding. */
  lemma EncodedAt(path: Data, args: seq<Data>, i: nat)
    requires i < |args|
    ensures var b, pos := Encoded(path, args), |path| + 1 + Offset(Terminated(args), i);
      && pos + |args[i]| + 1 < |b| && b[pos..pos + |args[i]|] == args[i] && b[pos + |args[i]|] == 0
      && pos + |args[i]| + 1 == |path| + 1 + Offset(Terminated(args), i + 1)
  {
    hide Flat, Terminated;
    var parts, b, pos := Terminated(args), Encoded(path, args), |path| + 1 + Offset(Terminated(args), i);
    SliceInside(path + [0], parts, [0], i);
    FlatPush(parts, i);
    EndsInside(parts, i + 1);
    var t := b[pos..pos + |args[i]| + 1];
    assert t == args[i] + [0];
    SubSlice(b, pos, pos + |args[i]| + 1, 0, |args[i]|);
    assert t[..|args[i]|] == args[i] && t[|args[i]|] == 0;
  }

  /** The first empty argument from `i` on, or the end. */
  function EmptyFrom(args: seq<Data>, i: nat): (r: nat)
    requires i <= |args|
    ensures i <= r <= |args| && (r < |args| ==> args[r] == []) && forall k :: i <= k < r ==> args[k] != []
    decreases |args| - i
  {
    if i == |args| || args[i] == [] then i else EmptyFrom(args, i + 1)
  }

  /** Arguments come back up to the first empty one. */
  lemma {:induction false} ArgsComeBack(path: Data, args: seq<Data>, i: nat)
    requires i <= |args| && forall k :: 0 <= k < |args| ==> NulFree(args[k])
    ensures ArgsFrom(Encoded(path, args), |path| + 1 + Offset(Terminated(args), i)) == args[i..EmptyFrom(args, i)]
    decreases |args| - i
  {
    hide Flat, Encoded, Terminated;
    var b, pos := Encoded(path, args), |path| + 1 + Offset(Terminated(args), i);
    if i == |args| {
      LastByte(path, args);
    } else {
      EncodedAt(path, args, i);
      if args[i] != [] {
        NulAfter(b, pos, args[i]);
        ArgsComeBack(path, args, i + 1);
        assert b[pos] == b[pos..pos + |args[i]|][0];
        assert args[i..EmptyFrom(args, i)] == [args[i]] + args[i + 1..EmptyFrom(args, i + 1)];
      }
    }
  }

  lemma LastByte(path: Data, args: seq<Data>)
    ensures var b, pos := Encoded(path, args), |path| + 1 + Offset(Terminated(args), |args|); pos < |b| && b[pos] == 0
  {
    assert Terminated(args)[..|args|] == Terminated(args);
  }

  /** The kernel reads the path and the arguments that the caller wrote, up to the first
      empty argument. */
  lemma ParsedUpToEmpty(path: Data, args: seq<Data>)
    requires NulFree(path) && forall k :: 0 <= k < |args| ==> NulFree(args[k])
    ensures var b := Encoded(path, args);
      ParsedPath(b) == (if Utf8.WellFormed(path) then path else []) && ParsedArgs(b) == args[..EmptyFrom(args, 0)]
  {
    hide Flat, Terminated, NulFrom, ArgsFrom, Encoded, EmptyFrom;
    PathComesBack(path, args);
    FlatNothing(Terminated(args));
    ArgsComeBack(path, args, 0);
    assert args[0..EmptyFrom(args, 0)] == args[..EmptyFrom(args, 0)];
  }

  lemma PathComesBack(path: Data, args: seq<Data>)
    requires NulFree(path)
    ensures var b := Encoded(path, args); |b| >= |path| + 2 && NulFrom(b, 0) == |path| && b[..|path|] == path
  {
    hide Flat, Terminated, NulFrom;
    var b := Encoded(path, args);
    assert b[0..0 + |path|] == path && b[|path|] == 0;
    NulAfter(b, 0, path);
  }

  /** So the encoding is undone exactly for a path in UTF-8 and arguments none of which is
      empty. */
  lemma EncodingRoundTrip(path: Data, args: seq<Data>)
    requires NulFree(path) && forall k :: 0 <= k < |args| ==> NulFree(args[k])
    ensures var b := Encoded(path, args);
      (ParsedPath(b) == path <==> Utf8.WellFormed(path)) && (ParsedArgs(b) == args <==> GoodArgs(args))
  {
    hide Flat, Terminated, Encoded, NulFrom, ParsedArgs, ParsedPath;
    ParsedUpToEmpty(path, args);
    var k := EmptyFrom(args, 0);
    assert k < |args| ==> |args[..k]| < |args|;
    assert k == |args| ==> args[..k] == args;
  }

  /** An empty first argument takes the second one with it, and a path that is no text is
      lost. */
  lemma EmptyArgumentCutsOff()
    ensures ParsedArgs(Encoded([97], [[], [98]])) == []
    ensures ParsedPath(Encoded([0xff], [[], [98]])) == []
  {
    hide Flat, Terminated, Encoded, NulFrom, ParsedArgs;
    var args: seq<Data> := [[], [98]];
    assert EmptyFrom(args, 0) == 0;
    ParsedUpToEmpty([97], args);
    ParsedUpToEmpty([0xff], args);
    assert args[..0] == [];
  }

  // ---- the new stack ----

  /** Bytes of the argument block: count, pointers, null pointer, strings. */
  function Total(args: seq<Data>): nat { (|args| + 2) * 8 + |Flat(Terminated(args))| }

  /** The stack pointer: the block ends at the top, aligned down to 16. */
  function BaseOf(args: seq<Data>): int { var b := STACK_TOP - Total(args); b - b % 16 }

  ghost predicate Fits(args: seq<Data>) { args != [] ==> BaseOf(args) >= STACK_BASE }

  /** User address of string `i`. */
  function AddressOf(args: seq<Data>, base: nat, i: nat): nat
    requires i <= |args|
  {
    base + (|args| + 2) * 8 + Offset(Terminated(args), i)
  }

  function Pointers(args: seq<Data>, base: nat): (r: seq<Data>)
    ensures |r| == |args| && forall i :: 0 <= i < |r| ==> r[i] == Le(AddressOf(args, base, i), 8)
  {
    seq(|args|, i requires 0 <= i < |args| => Le(AddressOf(args, base, i), 8))
  }

  function Layout(args: seq<Data>, base: nat): Data {
    Le(|args|, 8) + Flat(Pointers(args, base)) + Le(0, 8) + Flat(Terminated(args))
  }

  /** Pointers [..i] and strings [..i] are in place. */
  ghost predicate Half(m: Data, off: nat, args: seq<Data>, base: nat, i: nat)
    requires i <= |args|
  {
    var ptrs, strs, at := Pointers(args, base), Terminated(args), off + (|args| + 2) * 8;
    && off + Total(args) <= |m|
    && m[off + 8..off + 8 + i * 8] == Flat(ptrs[..i])
    && Offset(strs, i) <= |Flat(strs)| && m[at..at + Offset(strs, i)] == Flat(strs[..i])
  }

  lemma HalfStarts(m: Data, off: nat, args: seq<Data>, base: nat)
    requires off + Total(args) <= |m|
    ensures Half(m, off, args, base, 0)
  {
    FlatNothing(Pointers(args, base));
    FlatNothing(Terminated(args));
  }

  /** One more pointer and one more string. */
  lemma HalfGrows(m: Data, off: nat, args: seq<Data>, base: nat, i: nat)
    requires i < |args| && Half(m, off, args, base, i)
    ensures var strs, at := Terminated(args), off + (|args| + 2) * 8 + Offset(Terminated(args), i);
      && at + |args[i]| + 1 <= |m|
      && var m1 := Put(m, off + 8 + i * 8, Le(AddressOf(args, base, i), 8));
      && var m2 := Put(m1, at, args[i]);
      && Half(Put(m2, at + |args[i]|, [0]), off, args, base, i + 1)
      && Offset(strs, i + 1) == Offset(strs, i) + |args[i]| + 1
  {
    hide Flat, Le, Terminated, Pointers, Put;
    var ptrs, strs, start := Pointers(args, base), Terminated(args), off + (|args| + 2) * 8;
    FlatPush(strs, i);
    FlatPush(ptrs, i);
    EndsInside(strs, i + 1);
    var at, word := start + Offset(strs, i), off + 8 + i * 8;
    var p := Le(AddressOf(args, base, i), 8);
    var m1 := Put(m, word, p);
    PutExtends(m, off + 8, word, p);
    PutKeeps(m, word, p, start, at);
    var m2 := Put(m1, at, args[i]);
    PutKeeps(m1, at, args[i], off + 8, word + 8);
    PutExtends(m1, start, at, args[i]);
    var m3 := Put(m2, at + |args[i]|, [0]);
    PutKeeps(m2, at + |args[i]|, [0], off + 8, word + 8);
    PutExtends(m2, start, at + |args[i]|, [0]);
    assert word + 8 == off + 8 + (i + 1) * 8;
    assert Flat(strs[..i]) + args[i] + [0] == Flat(strs[..i]) + (args[i] + [0]);
  }

  /** The null pointer and the count complete the block. */
  lemma HalfCompletes(m: Data, off: nat, args: seq<Data>, base: nat)
    requires Half(m, off, args, base, |args|)
    ensures var m1 := Put(m, off + 8 + |args| * 8, Le(0, 8));
      var m2 := Put(m1, off, Le(|args|, 8));
      off + Total(args) <= |m2| && m2[off..off + Total(args)] == Layout(args, base)
  {
    hide Flat, Le, Terminated, Pointers, Put;
    var n, ptrs, strs, start := |args|, Pointers(args, base), Terminated(args), off + (|args| + 2) * 8;
    assert ptrs[..n] == ptrs && strs[..n] == strs;
    var end := off + Total(args);
    var m1 := Put(m, off + 8 + n * 8, Le(0, 8));
    PutExtends(m, off + 8, off + 8 + n * 8, Le(0, 8));
    PutKeeps(m, off + 8 + n * 8, Le(0, 8), start, end);
    var m2 := Put(m1, off, Le(n, 8));
    PutExtends(m1, off, off, Le(n, 8));
    PutKeeps(m1, off, Le(n, 8), off + 8, start);
    PutKeeps(m1, off, Le(n, 8), start, end);
    Join(m2, off, off + 8, start, end);
    assert m1[off..off] == [];
    assert Le(n, 8) + (Flat(ptrs) + Le(0, 8)) + Flat(strs) == Layout(args, base);
  }

  lemma Join(m: Data, a: nat, b: nat, c: nat, d: nat)
    requires a <= b <= c <= d <= |m|
    ensures m[a..d] == m[a..b] + m[b..c] + m[c..d]
  {
  }

  lemma BaseInside(args: seq<Data>)
    requires args != [] && Fits(args)
    ensures STACK_BASE <= BaseOf(args) && BaseOf(args) + Total(args) <= STACK_TOP && BaseOf(args) % 16 == 0
    ensures STACK_TOP < BaseOf(args) + Total(args) + 16
  {
    hide Flat, Terminated;
  }

  /** Outside the block at `off` nothing has changed. */
  ghost predicate SameAround(m: Data, m': Data, off: nat, size: nat) {
    |m'| == |m| && forall k :: 0 <= k < |m| && (k < off || off + size <= k) ==> m'[k] == m[k]
  }

  lemma NothingChanged(m: Data, off: nat, size: nat)
    ensures SameAround(m, m, off, size)
  {
  }

  lemma AroundChain(m: Data, m1: Data, m2: Data, off: nat, size: nat)
    requires SameAround(m, m1, off, size) && SameAround(m1, m2, off, size)
    ensures SameAround(m, m2, off, size)
  {
  }

  lemma AroundPut(m: Data, off: nat, size: nat, at: nat, part: Data)
    requires off <= at && at + |part| <= off + size <= |m|
    ensures SameAround(m, Put(m, at, part), off, size)
  {
  }

  lemma AroundTwo(m: Data, off: nat, size: nat, at: nat, part: Data, at2: nat, part2: Data)
    requires off <= at && at + |part| <= off + size <= |m| && off <= at2 && at2 + |part2| <= off + size
    ensures SameAround(m, Put(Put(m, at, part), at2, part2), off, size)
  {
    hide Put, SameAround;
    AroundPut(m, off, size, at, part);
    AroundPut(Put(m, at, part), off, size, at2, part2);
    AroundChain(m, Put(m, at, part), Put(Put(m, at, part), at2, part2), off, size);
  }

  lemma AroundTrans(m: Data, off: nat, size: nat, at: nat, part: Data, at2: nat, part2: Data)
    requires off <= at && at + |part| <= off + size <= |m| && off <= at2 && at2 + |part2| + 1 <= off + size
    ensures SameAround(m, Put(Put(Put(m, at, part), at2, part2), at2 + |part2|, [0]), off, size)
  {
    hide Put, SameAround;
    var m2 := Put(Put(m, at, part), at2, part2);
    AroundTwo(m, off, size, at, part, at2, part2);
    AroundPut(m2, off, size, at2 + |part2|, [0]);
    AroundChain(m, m2, Put(m2, at2 + |part2|, [0]), off, size);
  }

  /** Pointer `i` and string `i` lie inside the block. */
  lemma RoomFor(m: Data, args: seq<Data>, rsp: nat, i: nat)
    requires STACK_BASE <= rsp && i < |args| && Half(m, rsp - STACK_BASE, args, rsp, i)
    ensures var off := rsp - STACK_BASE;
      && off + 8 + i * 8 + 8 <= off + Total(args) <= |m|
      && off + (|args| + 2) * 8 + Offset(Terminated(args), i) + |args[i]| + 1 <= off + Total(args)
  {
    hide Flat, Terminated;
    FlatPush(Terminated(args), i);
    EndsInside(Terminated(args), i + 1);
  }

  /** Writes pointer `i` and string `i` with its terminator. */
  method PushOne(stack: array<Byte>, args: seq<Data>, rsp: nat, i: nat, at: nat, address: nat)
    requires STACK_BASE <= rsp && i < |args| && Half(stack[..], rsp - STACK_BASE, args, rsp, i)
    requires address == AddressOf(args, rsp, i)
      && at == rsp - STACK_BASE + (|args| + 2) * 8 + Offset(Terminated(args), i)
    modifies stack
    ensures Half(stack[..], rsp - STACK_BASE, args, rsp, i + 1)
    ensures Offset(Terminated(args), i + 1) == Offset(Terminated(args), i) + |args[i]| + 1
    ensures SameAround(old(stack[..]), stack[..], rsp - STACK_BASE, Total(args))
  {
    hide Flat, Le, Terminated, Pointers, Put, Half;
    RoomFor(stack[..], args, rsp, i);
    AroundTrans(stack[..], rsp - STACK_BASE, Total(args), rsp - STACK_BASE + 8 + i * 8, Le(address, 8), at, args[i]);
    HalfGrows(stack[..], rsp - STACK_BASE, args, rsp, i);
    Store(stack, rsp - STACK_BASE + 8 + i * 8, Le(address, 8));
    Store(stack, at, args[i]);
    Store(stack, at + |args[i]|, [0]);
  }

  /** `push_args_onto_stack`, on the memory of [STACK_BASE, STACK_TOP). */
  method PushArgs(stack: array<Byte>, args: seq<Data>) returns (rsp: nat, argc: nat, argv: nat)
    requires stack.Length == STACK_SIZE && Fits(args)
    modifies stack
    ensures argc == |args| && rsp % 16 == 0
    ensures args == [] ==> rsp == STACK_TOP && argv == 0 && stack[..] == old(stack[..])
    ensures args != [] ==>
      && STACK_BASE <= rsp && rsp + Total(args) <= STACK_TOP && argv == rsp + 8
      && stack[..][rsp - STACK_BASE..rsp - STACK_BASE + Total(args)] == Layout(args, rsp)
      // as high as it can be, and nothing else on the stack is written
      && STACK_TOP < rsp + Total(args) + 16 && SameAround(old(stack[..]), stack[..], rsp - STACK_BASE, Total(args))
  {
    hide Flat, Le, Terminated, Pointers, Put, Half, Layout, BaseOf, SameAround;
    argc := |args|;
    if argc == 0 {
      return STACK_TOP, 0, 0;
    }
    BaseInside(args);
    rsp := BaseOf(args);
    var off := rsp - STACK_BASE;
    var at, address := off + (argc + 2) * 8, rsp + (argc + 2) * 8;
    HalfStarts(stack[..], off, args, rsp);
    FlatNothing(Terminated(args));
    NothingChanged(stack[..], off, Total(args));
    var i := 0;
    while i < argc
      invariant 0 <= i <= argc && Half(stack[..], off, args, rsp, i)
      invariant SameAround(old(stack[..]), stack[..], off, Total(args))
      invariant address == AddressOf(args, rsp, i) && at == off + (argc + 2) * 8 + Offset(Terminated(args), i)
    {
      ghost var before := stack[..];
      PushOne(stack, args, rsp, i, at, address);
      AroundChain(old(stack[..]), before, stack[..], off, Total(args));
      at := at + |args[i]| + 1;
      address := address + |args[i]| + 1;
      i := i + 1;
    }
    HalfCompletes(stack[..], off, args, rsp);
    ghost var before := stack[..];
    AroundTwo(before, off, Total(args), off + 8 + argc * 8, Le(0, 8), off, Le(argc, 8));
    Store(stack, off + 8 + argc * 8, Le(0, 8));
    Store(stack, off, Le(argc, 8));
    AroundChain(old(stack[..]), before, stack[..], off, Total(args));
    argv := rsp + 8;
  }

  // ---- the new program ----

  /** The argument block of `args` lies at user address `rsp`. */
  ghost predicate Laid(m: Data, args: seq<Data>, rsp: nat) {
    && |m| == STACK_SIZE && STACK_BASE <= rsp && rsp + Total(args) <= STACK_TOP
    && m[rsp - STACK_BASE..rsp - STACK_BASE + Total(args)] == Layout(args, rsp)
  }

  lemma LayoutSize(args: seq<Data>, base: nat)
    ensures |Layout(args, base)| == Total(args) && |Flat(Pointers(args, base))| == |args| * 8
  {
    hide Flat, Le, Terminated, Pointers;
    EqualParts(Pointers(args, base), 8, |args|);
    assert Pointers(args, base)[..|args|] == Pointers(args, base);
  }

  lemma PointerSlice(m: Data, args: seq<Data>, rsp: nat, i: nat)
    requires Laid(m, args, rsp) && i < |args|
    ensures var at := rsp - STACK_BASE + 8 + i * 8; at + 8 <= |m| && m[at..at + 8] == Pointers(args, rsp)[i]
  {
    hide Flat, Le, Terminated, Pointers, AddressOf, Offset;
    var off, ptrs := rsp - STACK_BASE, Pointers(args, rsp);
    var after := Le(0, 8) + Flat(Terminated(args));
    LayoutSize(args, rsp);
    EqualParts(ptrs, 8, i);
    SliceInside(Le(|args|, 8), ptrs, after, i);
    assert Layout(args, rsp) == Le(|args|, 8) + Flat(ptrs) + after;
    SubSlice(m, off, off + Total(args), 8 + i * 8, 16 + i * 8);
  }

  /** Pointer `i` is the address of string `i`. */
  lemma PointerAt(m: Data, args: seq<Data>, rsp: nat, i: nat)
    requires Laid(m, args, rsp) && i < |args|
    ensures ReadLe(m, rsp - STACK_BASE + 8 + i * 8, 8) == Some(AddressOf(args, rsp, i))
  {
    hide Flat, Le, Terminated, Pointers, ReadLe, UnLe, Layout, AddressOf;
    PointerSlice(m, args, rsp, i);
    Small8(args, rsp, i);
    LeRoundTrip(AddressOf(args, rsp, i), 8);
    ReadWord(m, rsp - STACK_BASE + 8 + i * 8, Pointers(args, rsp)[i]);
  }

  /** The count comes first, and a null pointer ends the pointers. */
  lemma CountAndNullAt(m: Data, args: seq<Data>, rsp: nat)
    requires Laid(m, args, rsp)
    ensures ReadLe(m, rsp - STACK_BASE, 8) == Some(|args|)
    ensures ReadLe(m, rsp - STACK_BASE + 8 + |args| * 8, 8) == Some(0)
  {
    hide Flat, Le, Terminated, Pointers, ReadLe, UnLe;
    LayoutSize(args, rsp);
    Powers();
    var off, n, ptrs, strs := rsp - STACK_BASE, |args|, Flat(Pointers(args, rsp)), Flat(Terminated(args));
    assert n < Power(8);
    var layout := Layout(args, rsp);
    assert layout == [] + Le(n, 8) + (ptrs + Le(0, 8) + strs);
    ReadField(m, off, layout, [], n, 8, ptrs + Le(0, 8) + strs);
    assert layout == (Le(n, 8) + ptrs) + Le(0, 8) + strs;
    ReadField(m, off, layout, Le(n, 8) + ptrs, 0, 8, strs);
  }

  lemma ReadWord(m: Data, at: nat, word: Data)
    requires at + 8 <= |m| && m[at..at + 8] == word
    ensures ReadLe(m, at, 8) == Some(UnLe(word))
  {
  }

  lemma Small8(args: seq<Data>, rsp: nat, i: nat)
    requires rsp + Total(args) <= STACK_TOP && i <= |args|
    ensures AddressOf(args, rsp, i) < Power(8)
  {
    EndsInside(Terminated(args), i);
    Powers();
  }

  /** String `i` and its terminator are at its address. */
  lemma StringAt(m: Data, args: seq<Data>, rsp: nat, i: nat)
    requires Laid(m, args, rsp) && i < |args|
    ensures var at := AddressOf(args, rsp, i) - STACK_BASE;
      0 <= at && at + |args[i]| < |m| && m[at..at + |args[i]|] == args[i] && m[at + |args[i]|] == 0
  {
    hide Flat, Le, Terminated, Pointers;
    var off, strs, n := rsp - STACK_BASE, Terminated(args), |args[i]|;
    var before := Le(|args|, 8) + Flat(Pointers(args, rsp)) + Le(0, 8);
    LayoutSize(args, rsp);
    SliceInside(before, strs, [], i);
    assert Layout(args, rsp) == before + Flat(strs) + [];
    FlatPush(strs, i);
    EndsInside(strs, i + 1);
    var from := |before| + Offset(strs, i);
    SubSlice(m, off, off + Total(args), from, from + n + 1);
    var at := AddressOf(args, rsp, i) - STACK_BASE;
    var t := m[at..at + n + 1];
    assert t == args[i] + [0];
    SubSlice(m, at, at + n + 1, 0, n);
    assert t[..n] == args[i] && t[n] == 0;
  }

  /** `parse_args` of a program: it sees the arguments that were laid out. */
  method ReadArgs(stack: array<Byte>, argc: nat, argv: nat, ghost args: seq<Data>) returns (out: seq<Data>)
    requires argc == |args| && (forall i :: 0 <= i < |args| ==> NulFree(args[i]))
    requires args != [] ==> argv >= 8 && Laid(stack[..], args, argv - 8)
    ensures out == args
  {
    hide Flat, Le, Terminated, Pointers, Layout, UnLe, NulFrom;
    out := [];
    if argc == 0 {
      return;
    }
    var i := 0;
    while i < argc
      invariant 0 <= i <= argc && out == args[..i]
    {
      PointerAt(stack[..], args, argv - 8, i);
      StringAt(stack[..], args, argv - 8, i);
      var ptr := ReadLe(stack[..], argv - STACK_BASE + i * 8, 8).value;
      if ptr == 0 {
        break;
      }
      var at := ptr - STACK_BASE;
      NulAfter(stack[..], at, args[i]);
      var end := Scan(stack[..], at);
      out := out + [stack[..][at..end]];
      i := i + 1;
    }
  }

  /** From the caller's arguments to the new program's, through encoding, parsing and the
      stack. */
  method Deliver(path: Data, args: seq<Data>, stack: array<Byte>) returns (name: Data, out: seq<Data>)
    requires NulFree(path) && GoodArgs(args) && Fits(args) && stack.Length == STACK_SIZE
    modifies stack
    ensures out == args && (name == path <==> Utf8.WellFormed(path))
  {
    hide Flat, Le, Terminated, Pointers, Encoded, NulFrom, ArgsFrom, ParsedArgs, ParsedPath, Layout, BaseOf, Total,
      Utf8.WellFormed;
    var buffer := Encode(path, args);
    EncodingRoundTrip(path, args);
    NotEmpty(path, args);
    var parsed: seq<Data>;
    name, parsed := Parse(buffer[..]);
    var rsp, argc, argv := PushArgs(stack, parsed);
    out := ReadArgs(stack, argc, argv, args);
  }

  lemma NotEmpty(path: Data, args: seq<Data>)
    ensures Encoded(path, args) != []
  {
  }
}
