/**
 Slash-separated names as the archive code sees them: joining, splitting, cleaning against a base
 directory, and the guard against path traversal.
 */
module Paths {
  import opened Text

  /** An absolute path, or a path relative to some directory, by its components. */
  type Path = seq<string>

  /** The components of a path written with '/' between them. */
  function Join(p: Path): string
  {
    JoinOn(p, '/')
  }

  function Split(s: string): Path
  {
    SplitOn(s, '/')
  }

  /** `filepath.Join(base, name)`: empty components and "." are dropped, ".." climbs. */
  function Resolve(base: Path, comps: seq<string>): Path
    decreases |comps|
  {
    if comps == [] then base
    else
      var c := comps[0];
      var next := if c == "" || c == "." then base
                  else if c == ".." then (if base == [] then [] else base[..|base| - 1])
                  else base + [c];
      Resolve(next, comps[1..])
  }

  /** Empty components and single dots go nowhere, double dots go to the parent and stay at the root, and every other
      component goes down. */
  lemma ResolveOne(base: Path, name: string)
    ensures Resolve(base, [""]) == base && Resolve(base, ["."]) == base
    ensures Resolve(base + [name], [".."]) == base && Resolve([], [".."]) == []
    ensures RealName(name) ==> Resolve(base, [name]) == base + [name]
  {
  }

  lemma ResolveFirst(base: Path, a: Path)
    requires a != []
    ensures Resolve(base, a) == Resolve(Resolve(base, [a[0]]), a[1..])
  {
    assert [a[0]][1..] == [];
  }

  /** Components are taken one after the other. */
  lemma {:induction false} ResolveAppend(base: Path, a: Path, b: Path)
    ensures Resolve(base, a + b) == Resolve(Resolve(base, a), b)
    decreases |a|
  {
    if a == [] {
      assert a + b == b;
    } else {
      assert (a + b)[0] == a[0] && (a + b)[1..] == a[1..] + b;
      ResolveFirst(base, a);
      ResolveFirst(base, a + b);
      ResolveAppend(Resolve(base, [a[0]]), a[1..], b);
    }
  }

  /** "../" stands at position `i`. */
  predicate ClimbAt(s: string, i: nat)
  {
    i + 2 < |s| && s[i] == '.' && s[i + 1] == '.' && s[i + 2] == '/'
  }

  /** `validRelPath` */
  predicate ValidRelPath(s: string)
  {
    s != "" && '\\' !in s && s[0] != '/' && !exists i: nat | i < |s| :: ClimbAt(s, i)
  }

  predicate EndsInDots(n: string)
  {
    |n| >= 2 && n[|n| - 1] == '.' && n[|n| - 2] == '.'
  }

  /** A name that a directory listing can return. */
  predicate RealName(n: string)
  {
    n != "" && '/' !in n && n != "." && n != ".."
  }

  predicate RealPath(p: Path)
  {
    forall k :: 0 <= k < |p| ==> RealName(p[k])
  }

  lemma {:induction false} ResolveReal(base: Path, p: Path)
    requires RealPath(p)
    ensures Resolve(base, p) == base + p
    decreases |p|
  {
    if p == [] {
      assert base + p == base;
    } else {
      ResolveReal(base + [p[0]], p[1..]);
      assert base + [p[0]] + p[1..] == base + p;
    }
  }

  /** A written name resolves to the path it was made from. */
  lemma NameResolves(base: Path, p: Path)
    requires p != [] && RealPath(p)
    ensures Resolve(base, Split(Join(p))) == base + p
  {
    SplitJoin(p, '/');
    ResolveReal(base, p);
  }

  /** Which names pass `validRelPath`: no backslash anywhere, and no directory component that ends
      in two dots. */
  predicate Admissible(p: Path)
  {
    && (forall k :: 0 <= k < |p| ==> '\\' !in p[k])
    && (forall k :: 0 <= k < |p| - 1 ==> !EndsInDots(p[k]))
  }

  ghost predicate Climbs(s: string)
  {
    exists i: nat | i < |s| :: ClimbAt(s, i)
  }

  /** The guard as a whole: some text without a backslash, not absolute, and without "../" anywhere in it. */
  lemma ValidRelPathExactly(s: string)
    ensures ValidRelPath(s) <==>
              s != "" && '\\' !in s && !("/" <= s) && forall a: string, b: string :: s != a + "../" + b
  {
    if Climbs(s) {
      var i: nat :| i < |s| && ClimbAt(s, i);
      assert s[i..i + 3] == "../";
      assert s == s[..i] + "../" + s[i + 3..];
    }
    if a: string, b: string :| s == a + "../" + b {
      assert ClimbAt(s, |a|);
    }
  }

  lemma ClimbsSplit(a: string, rest: string)
    requires '/' !in a
    ensures Climbs(a + "/" + rest) <==> EndsInDots(a) || Climbs(rest)
  {
    var s := a + "/" + rest;
    if Climbs(s) {
      var i: nat :| i < |s| && ClimbAt(s, i);
      assert s[i + 2] == '/';
      if i + 2 > |a| {
        assert s[|a|] == '/';
        assert ClimbAt(rest, i - |a| - 1);
      }
    }
    if EndsInDots(a) {
      assert ClimbAt(s, |a| - 2);
    }
    if Climbs(rest) {
      var i: nat :| i < |rest| && ClimbAt(rest, i);
      assert ClimbAt(s, i + |a| + 1);
    }
  }

  lemma {:induction false} JoinChecks(p: Path)
    requires p != [] && RealPath(p)
    ensures Join(p) != "" && Join(p)[0] != '/'
    ensures '\\' !in Join(p) && !Climbs(Join(p)) <==> Admissible(p)
  {
    if |p| == 1 {
      assert p[0][0] in p[0];
      assert forall i: nat | i < |p[0]| :: p[0][i] in p[0];
    } else {
      assert p[0][0] in p[0];
      JoinChecks(p[1..]);
      ClimbsSplit(p[0], Join(p[1..]));
      assert forall k :: 0 < k < |p| ==> p[k] == p[1..][k - 1];
      assert '\\' in Join(p) <==> '\\' in p[0] || '\\' in Join(p[1..]);
    }
  }

  /** The guard accepts a written name exactly when the path is admissible. */
  lemma ValidExactly(p: Path)
    requires p != [] && RealPath(p)
    ensures ValidRelPath(Join(p)) <==> Admissible(p)
  {
    JoinChecks(p);
  }
}
