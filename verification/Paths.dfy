/** Absolute paths of the RAM file system. */
module Paths {
  import opened Common

  type Path = string

  predicate OccursAt(s: string, t: string, i: nat) { i + |t| <= |s| && s[i..i + |t|] == t }

  predicate Contains(s: string, t: string) {
    exists i :: 0 <= i < |s| && OccursAt(s, t, i)
  }

  /** `validate_path`. */
  predicate Valid(p: Path) {
    && |p| > 0 && p[0] == '/'
    && (|p| > 1 ==> p[|p| - 1] != '/')
    && !Contains(p, "//") && !Contains(p, "/./") && !Contains(p, "/../")
  }

  predicate NoSlashFrom(s: string, n: nat) { forall i :: n <= i < |s| ==> s[i] != '/' }

  /** `rfind('/')`. */
  function LastSlash(p: Path): (r: Option<nat>)
    ensures r.None? ==> NoSlashFrom(p, 0)
    ensures r.Some? ==> r.value < |p| && p[r.value] == '/' && NoSlashFrom(p, r.value + 1)
  {
    if p == "" then None
    else if p[|p| - 1] == '/' then Some(|p| - 1)
    else LastSlash(p[..|p| - 1])
  }

  /** `parent_of`. */
  function ParentOf(p: Path): Path {
    var r := LastSlash(p);
    if r.None? || r.value == 0 then "/" else p[..r.value]
  }

  predicate HasPrefix(s: string, t: string) { |t| <= |s| && s[..|t|] == t }

  /** `is_child`: one more component. */
  predicate IsChild(parent: Path, child: Path) {
    if child == parent then false
    else if parent == "/" then HasPrefix(child, "/") && child[1..] != "" && NoSlashFrom(child, 1)
    else
      && HasPrefix(child, parent) && HasPrefix(child[|parent|..], "/")
      && child[|parent| + 1..] != "" && NoSlashFrom(child, |parent| + 1)
  }

  /** The last slash is determined by what follows it. */
  lemma LastSlashIs(p: Path, i: nat)
    requires i < |p| && p[i] == '/' && NoSlashFrom(p, i + 1)
    ensures LastSlash(p) == Some(i)
  {
  }

  /** A valid path other than the root is its parent, a slash and a name. */
  lemma Split(p: Path) returns (i: nat)
    requires Valid(p) && p != "/"
    ensures LastSlash(p) == Some(i) && i < |p| - 1 && p[i] == '/' && NoSlashFrom(p, i + 1)
    ensures i == 0 ==> ParentOf(p) == "/"
    ensures i > 0 ==> ParentOf(p) == p[..i]
  {
    i := LastSlash(p).value;
  }

  lemma ContainsPrefix(s: string, n: nat, t: string)
    requires n <= |s| && Contains(s[..n], t)
    ensures Contains(s, t)
  {
    var i :| 0 <= i < n && OccursAt(s[..n], t, i);
    assert OccursAt(s, t, i);
  }

  /** Parents of valid paths are valid, and shorter. */
  lemma ParentValid(p: Path)
    requires Valid(p) && p != "/"
    ensures Valid(ParentOf(p)) && |ParentOf(p)| < |p| && ParentOf(p) != p
  {
    var i := Split(p);
    if i == 0 {
      RootValid();
    } else {
      var q := p[..i];
      assert p[i - 1] == '/' ==> OccursAt(p, "//", i - 1);
      forall t | t in {"//", "/./", "/../"} ensures !Contains(q, t) {
        if Contains(q, t) {
          ContainsPrefix(p, i, t);
        }
      }
    }
  }

  /** What follows the last slash. */
  function Name(p: Path): string {
    var r := LastSlash(p);
    if r.None? then p else p[r.value + 1..]
  }

  predicate Dots(name: string) { name == "." || name == ".." }

  /** Which paths are accepted, component by component: every component has a name, and none
      before the last is a dot or two dots. */
  lemma ValidIff(p: Path)
    requires |p| > 1 && p[0] == '/'
    ensures LastSlash(p).Some?
    ensures var i := LastSlash(p).value;
      Valid(p) <==> i < |p| - 1 && (i == 0 || (i > 1 && Valid(p[..i]) && !Dots(Name(p[..i]))))
  {
    hide Contains, Dots, Name;
    assert LastSlash(p).Some? by { assert p[0] == '/'; }
    var i := LastSlash(p).value;
    if Valid(p) {
      ParentValid(p);
      SecondIsNoSlash(p);
      if i > 1 && Dots(Name(p[..i])) {
        DotsInside(p, i);
      }
    }
    Forbidden(p, i, "//");
    Forbidden(p, i, "/./");
    Forbidden(p, i, "/../");
  }

  lemma Forbidden(p: Path, i: nat, t: string)
    requires |p| > 1 && p[0] == '/' && i < |p| && p[i] == '/' && NoSlashFrom(p, i + 1)
    requires t == "//" || t == "/./" || t == "/../"
    ensures Contains(p, t) ==> i > 0 && (Contains(p[..i], t) || p[i - 1] == '/' || Dots(Name(p[..i])))
  {
    hide Dots, Name;
    if Contains(p, t) {
      var k :| 0 <= k < |p| && OccursAt(p, t, k);
      Across(p, i, t, k);
      assert i > 0 && OccursAt(p[..i], t, k) ==> Contains(p[..i], t);
    }
  }

  /** A parent that is a dot or two dots shows inside the path. */
  lemma DotsInside(p: Path, i: nat)
    requires 1 < i < |p| && p[i] == '/' && p[0] == '/' && Dots(Name(p[..i]))
    ensures Contains(p, "/./") || Contains(p, "/../")
  {
    var q := p[..i];
    assert LastSlash(q).Some? by { assert q[0] == '/'; }
    var j := LastSlash(q).value;
    assert p[j..i + 1] == "/" + Name(q) + "/";
    if Name(q) == "." {
      assert OccursAt(p, "/./", j);
    } else {
      assert OccursAt(p, "/../", j);
    }
  }

  /** Something forbidden lies before the last slash, or ends there. */
  lemma Across(p: Path, i: nat, t: string, k: nat)
    requires i < |p| && p[0] == '/' && p[i] == '/' && NoSlashFrom(p, i + 1) && OccursAt(p, t, k)
    requires t == "//" || t == "/./" || t == "/../"
    ensures i > 0 && (OccursAt(p[..i], t, k) || p[i - 1] == '/' || Dots(Name(p[..i])))
  {
    var e := k + |t| - 1;
    assert p[e] == p[k..k + |t|][|t| - 1] && p[k] == p[k..k + |t|][0];
    assert e <= i;
    var q := p[..i];
    if e < i {
      assert q[k..k + |t|] == p[k..k + |t|];
    } else if t != "//" {
      assert forall x :: k < x < i ==> p[x] == p[k..k + |t|][x - k];
      LastSlashIs(q, k);
      assert Name(q) == t[1..|t| - 1];
    }
  }

  /** So the last component may be two dots. */
  lemma DotsAtTheEnd()
    ensures Valid("/a/..") && !Valid("/../a")
  {
    ValidIff("/a");
    LastSlashIs("/a", 0);
    LastSlashIs("/a/..", 2);
    assert "/a/.."[..2] == "/a" && Name("/a") == "a";
    ValidIff("/a/..");
    assert OccursAt("/../a", "/../", 0);
  }

  lemma RootValid()
    ensures Valid("/") && ParentOf("/") == "/"
  {
    assert LastSlash("/") == Some(0);
  }

  lemma SecondIsNoSlash(p: Path)
    requires Valid(p) && |p| > 1
    ensures p[1] != '/'
  {
    assert !OccursAt(p, "//", 0);
    assert p[0..2] == [p[0], p[1]];
  }

  /** `is_child` and `parent_of` agree. */
  lemma ChildIffParent(parent: Path, child: Path)
    requires Valid(parent) && Valid(child) && child != "/"
    ensures IsChild(parent, child) <==> ParentOf(child) == parent
  {
    var i := Split(child);
    if IsChild(parent, child) {
      var j := if parent == "/" then 0 else |parent|;
      assert parent != "/" ==> child[|parent|..][..1][0] == '/';
      LastSlashIs(child, j);
    }
    if ParentOf(child) == parent {
      ParentValid(child);
      SecondIsNoSlash(child);
      assert i > 0 ==> |parent| == i && child[i..][..1] == "/" && parent != "/";
      assert child[..1] == "/";
    }
  }
}
