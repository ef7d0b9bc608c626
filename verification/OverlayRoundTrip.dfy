/**
 Untarring what the writer emitted puts exactly the source tree in place of the entries of the same
 name, leaves everything else alone, restores directory times and counts the bytes of the regular
 files; it fails exactly when some name trips the path-traversal guard.
 */
module OverlayRoundTrip {
  import opened Bytes
  import opened Paths
  import opened FileSystem
  import opened Overlay

  // ---------------------------------------------------------------- the tree as a set of paths

  /** What the subtree `t` looks like in a file system when its root is `p`. */
  function Flat(p: Path, t: Tree): FS
    decreases t, 0
  {
    match t
    case Regular(mode, mtime, data) => map[p := Inode(File(mode, mtime, data), false)]
    case Device(uid, gid) => map[p := Inode(Whiteout(uid, gid), false)]
    case Directory(mode, mtime, isOpaque, kids) => FlatForest(p, kids)[p := Inode(Dir(mode, mtime), isOpaque)]
  }

  function FlatForest(dir: Path, f: Forest): FS
    decreases f, 1
  {
    match f
    case Nil => map[]
    case Cons(name, node, rest) => Flat(dir + [name], node) + FlatForest(dir, rest)
  }

  function Names(f: Forest): set<string>
  {
    match f
    case Nil => {}
    case Cons(name, _, rest) => {name} + Names(rest)
  }

  /** A directory listing: real names, each once, none that itself uses the whiteout convention. */
  ghost predicate Proper(f: Forest)
  {
    match f
    case Nil => true
    case Cons(name, node, rest) =>
      && RealName(name) && !HasWhiteoutPrefix(name) && name !in Names(rest)
      && (node.Directory? ==> Proper(node.kids))
      && Proper(rest)
  }

  /** No name has a backslash, and no directory below which something is written ends in two dots. */
  predicate Loadable(f: Forest)
  {
    match f
    case Nil => true
    case Cons(name, node, rest) =>
      && '\\' !in name
      && (node.Directory? && (node.isOpaque || node.kids.Cons?) ==> !EndsInDots(name))
      && (node.Directory? ==> Loadable(node.kids))
      && Loadable(rest)
  }

  /** The bytes of all regular files. */
  function ByteCount(t: Tree): nat
    decreases t, 0
  {
    match t
    case Regular(_, _, data) => |data|
    case Device(_, _) => 0
    case Directory(_, _, _, kids) => ByteCountForest(kids)
  }

  function ByteCountForest(f: Forest): nat
    decreases f, 1
  {
    match f
    case Nil => 0
    case Cons(_, node, rest) => ByteCount(node) + ByteCountForest(rest)
  }

  /** The directories of the tree with their archived times, in the order they are written. */
  function DirList(p: Path, t: Tree): DirTimes
    decreases t, 0
  {
    if t.Directory? then [(p, t.mtime)] + DirListForest(p, t.kids) else []
  }

  function DirListForest(dir: Path, f: Forest): DirTimes
    decreases f, 1
  {
    match f
    case Nil => []
    case Cons(name, node, rest) => DirList(dir + [name], node) + DirListForest(dir, rest)
  }

  // ---------------------------------------------------------------- grafting

  /** `q` lies below `dir`, in one of the entries `names`. */
  predicate Within(dir: Path, names: set<string>, q: Path)
  {
    |q| > |dir| && dir <= q && q[|dir|] in names
  }

  predicate SameButTime(a: Inode, b: Inode)
  {
    && a.opaqueDir == b.opaqueDir
    && if a.kind.Dir? && b.kind.Dir? then a.kind.mode == b.kind.mode else a.kind == b.kind
  }

  ghost predicate SameAt(a: FS, b: FS, q: Path)
  {
    (q in a <==> q in b) && (q in a ==> a[q] == b[q])
  }

  ghost predicate AlikeAt(a: FS, b: FS, q: Path)
  {
    (q in a <==> q in b) && (q in a ==> SameButTime(a[q], b[q]))
  }

  /** `fs'` is `fs` with the entries `names` of the directory `dir` replaced by `flat`, up to the times of
      the directories in `flat` and of `dir` itself. */
  ghost predicate Grafted(fs: FS, fs': FS, dir: Path, names: set<string>, flat: FS)
  {
    && IsDir(fs, dir) && IsDir(fs', dir) && SameButTime(fs'[dir], fs[dir])
    && (forall q {:trigger AlikeAt(fs', flat, q)} :: Within(dir, names, q) ==> AlikeAt(fs', flat, q))
    && (forall q {:trigger SameAt(fs', fs, q)} :: q != dir && !Within(dir, names, q) ==> SameAt(fs', fs, q))
  }

  lemma WithinOne(dir: Path, name: string, q: Path)
    ensures Within(dir, {name}, q) <==> dir + [name] <= q
  {
  }

  /** All paths of a flattened forest lie in its entries. */
  lemma {:induction false} FlatForestWithin(dir: Path, f: Forest, q: Path)
    requires q in FlatForest(dir, f)
    ensures Within(dir, Names(f), q)
    decreases f, 1
  {
    if q in Flat(dir + [f.name], f.node) {
      FlatWithin(dir + [f.name], f.node, q);
    } else {
      FlatForestWithin(dir, f.rest, q);
    }
  }

  lemma {:induction false} FlatWithin(p: Path, t: Tree, q: Path)
    requires q in Flat(p, t)
    ensures p <= q
    decreases t, 0
  {
    if t.Directory? && q != p {
      FlatForestWithin(p, t.kids, q);
    }
  }

  /** Removing what was there before. */
  lemma Clears(fs: FS, dir: Path, name: string, now: Time)
    requires WellFormed(fs) && IsDir(fs, dir)
    ensures var p := dir + [name];
            var e := if p in fs then RemoveAll(fs, p, now) else Effect(fs, true);
            e.ok && WellFormed(e.fs) && Grafted(fs, e.fs, dir, {name}, map[])
  {
    var p := dir + [name];
    var e := if p in fs then RemoveAll(fs, p, now) else Effect(fs, true);
    assert Parent(p) == dir;
    RemoveAllKeeps(fs, p, now);
    forall q | Within(dir, {name}, q) ensures AlikeAt(e.fs, map[], q) {
      WithinOne(dir, name, q);
      if p !in fs && q in fs {
        NoOrphans(fs, p, q);
        assert false;
      }
      assert q != dir;
    }
    forall q | q != dir && !Within(dir, {name}, q) ensures SameAt(e.fs, fs, q) {
      WithinOne(dir, name, q);
    }
    WithinOne(dir, name, dir);
  }

  /** Making the one new entry. */
  lemma Enters(fs: FS, mid: FS, dir: Path, name: string, n: Inode, now: Time)
    requires Grafted(fs, mid, dir, {name}, map[]) && WellFormed(mid)
    ensures var p := dir + [name];
            && p !in mid && Parent(p) == dir && WellFormed(Enter(mid, p, n, now))
            && Grafted(fs, Enter(mid, p, n, now), dir, {name}, map[p := n])
  {
    var p := dir + [name];
    var r := Enter(mid, p, n, now);
    WithinOne(dir, name, p);
    assert AlikeAt(mid, map[], p);
    assert Parent(p) == dir;
    EnterKeeps(mid, p, n, now);
    forall q | Within(dir, {name}, q) ensures AlikeAt(r, map[p := n], q) {
      assert AlikeAt(mid, map[], q);
    }
    forall q | q != dir && !Within(dir, {name}, q) ensures SameAt(r, fs, q) {
      assert SameAt(mid, fs, q);
    }
  }

  /** Two entries grafted one after the other. */
  lemma GraftBeside(fs: FS, mid: FS, fs': FS, dir: Path, name: string, a: FS, names: set<string>, b: FS)
    requires Grafted(fs, mid, dir, {name}, a) && Grafted(mid, fs', dir, names, b) && name !in names
    requires forall q :: q in a ==> Within(dir, {name}, q)
    requires forall q :: q in b ==> Within(dir, names, q)
    ensures Grafted(fs, fs', dir, {name} + names, a + b)
  {
    forall q | Within(dir, {name} + names, q) ensures AlikeAt(fs', a + b, q) {
      if Within(dir, names, q) {
        assert AlikeAt(fs', b, q);
      } else {
        assert AlikeAt(mid, a, q) && SameAt(fs', mid, q);
      }
    }
    forall q | q != dir && !Within(dir, {name} + names, q) ensures SameAt(fs', fs, q) {
      assert SameAt(mid, fs, q) && SameAt(fs', mid, q);
    }
  }

  /** The entries of a directory grafted into the directory just made. */
  lemma GraftBelow(fs: FS, mid: FS, fs': FS, dir: Path, name: string, d: Inode, names: set<string>, b: FS)
    requires Grafted(fs, mid, dir, {name}, map[dir + [name] := d]) && d.kind.Dir?
    requires Grafted(mid, fs', dir + [name], names, b)
    requires forall q :: q in b ==> Within(dir + [name], names, q)
    ensures Grafted(fs, fs', dir, {name}, b[dir + [name] := d])
  {
    var p := dir + [name];
    var flat := b[p := d];
    forall q | Within(dir, {name}, q) ensures AlikeAt(fs', flat, q) {
      WithinOne(dir, name, q);
      assert AlikeAt(mid, map[p := d], q);
      if q != p {
        if Within(p, names, q) {
          assert AlikeAt(fs', b, q);
        } else {
          assert SameAt(fs', mid, q);
        }
      }
    }
    forall q | q != dir && !Within(dir, {name}, q) ensures SameAt(fs', fs, q) {
      WithinOne(dir, name, q);
      assert SameAt(mid, fs, q);
      assert q != p && !Within(p, names, q);
      assert SameAt(fs', mid, q);
    }
    assert dir != p && !Within(p, names, dir);
    assert SameAt(fs', mid, dir);
  }

  // ---------------------------------------------------------------- one member

  ghost predicate Ready(s: Progress, dst: Path, dir: Path)
  {
    s.ok && WellFormed(s.fs) && IsDir(s.fs, dst + dir) && RealPath(dir)
  }

  ghost predicate Plain(name: string)
  {
    RealName(name) && !HasWhiteoutPrefix(name)
  }

  lemma TargetOf(dst: Path, dir: Path, name: string)
    requires RealPath(dir) && RealName(name) && Admissible(dir + [name])
    ensures ValidRelPath(Join(dir + [name]))
    ensures var target := Resolve(dst, Split(Join(dir + [name])));
            target == dst + dir + [name] && Base(target) == name && Parent(target) == dst + dir
  {
    ValidExactly(dir + [name]);
    NameResolves(dst, dir + [name]);
    assert dst + (dir + [name]) == dst + dir + [name];
  }

  /** The iteration for a written name works at the path the name was made from. */
  lemma ExtractHere(s: Progress, dst: Path, dir: Path, name: string, m: Member, now: Time)
    requires RealPath(dir) && RealName(name) && Admissible(dir + [name]) && m.name == Join(dir + [name])
    ensures Extract(s, dst, m, now) == ExtractAt(s, m, dst + dir + [name], now)
  {
    TargetOf(dst, dir, name);
  }

  lemma BaseParent(dir: Path, name: string)
    ensures Base(dir + [name]) == name && Parent(dir + [name]) == dir
  {
  }

  lemma MaterialiseFile(fs: FS, m: Member, dir: Path, name: string, now: Time)
    requires IsDir(fs, dir) && dir + [name] !in fs && m.typ == TypeReg
    ensures Materialise(fs, m, dir + [name], now) ==
            Effect(Enter(fs, dir + [name], Inode(File(m.mode, m.mtime, m.data), false), now), true)
  {
    BaseParent(dir, name);
  }

  lemma MaterialiseDir(fs: FS, m: Member, dir: Path, name: string, now: Time)
    requires IsDir(fs, dir) && dir + [name] !in fs && m.typ == TypeDir
    ensures Materialise(fs, m, dir + [name], now) ==
            Effect(Enter(fs, dir + [name], Inode(Dir(m.mode, now), false), now), true)
  {
    BaseParent(dir, name);
    assert MkdirAll(fs, dir, m.mode, now) == Effect(fs, true);
  }

  ghost predicate Standing(s: Progress, dir: Path)
  {
    s.ok && WellFormed(s.fs) && IsDir(s.fs, dir)
  }

  function Cleared(fs: FS, p: Path, now: Time): Effect
  {
    if p in fs then RemoveAll(fs, p, now) else Effect(fs, true)
  }

  /** Clearing and making the entry, together. */
  lemma Replaces(fs: FS, dir: Path, name: string, n: Inode, now: Time)
    requires WellFormed(fs) && IsDir(fs, dir)
    ensures var p := dir + [name];
            var cleared := Cleared(fs, p, now);
            var r := Enter(cleared.fs, p, n, now);
            && cleared.ok && IsDir(cleared.fs, dir) && p !in cleared.fs
            && WellFormed(r) && IsDir(r, dir) && Grafted(fs, r, dir, {name}, map[p := n])
  {
    Clears(fs, dir, name, now);
    Enters(fs, Cleared(fs, dir + [name], now).fs, dir, name, n, now);
  }

  /** What an iteration does at a path whose last name is not a marker. */
  lemma ExtractPlain(s: Progress, dir: Path, name: string, m: Member, now: Time, e: Effect)
    requires !HasWhiteoutPrefix(name) && Cleared(s.fs, dir + [name], now).ok
    requires e == Materialise(Cleared(s.fs, dir + [name], now).fs, m, dir + [name], now) && e.ok
    requires dir + [name] !in Cleared(s.fs, dir + [name], now).fs
    ensures ExtractAt(s, m, dir + [name], now)
         == Progress(e.fs, s.dirs + if m.typ == TypeDir then [(dir + [name], m.mtime)] else [], s.size + |m.data|, true)
  {
    BaseParent(dir, name);
    assert RemovePrevious(s.fs, dir + [name], now) == Cleared(s.fs, dir + [name], now);
  }

  lemma ExtractsRegular(s: Progress, dir: Path, name: string, m: Member, now: Time)
    requires Standing(s, dir) && Plain(name) && m.typ == TypeReg
    ensures var r := ExtractAt(s, m, dir + [name], now);
            && Standing(r, dir) && r.dirs == s.dirs && r.size == s.size + |m.data|
            && Grafted(s.fs, r.fs, dir, {name}, map[dir + [name] := Inode(File(m.mode, m.mtime, m.data), false)])
  {
    var n := Inode(File(m.mode, m.mtime, m.data), false);
    Replaces(s.fs, dir, name, n, now);
    var cleared := Cleared(s.fs, dir + [name], now).fs;
    MaterialiseFile(cleared, m, dir, name, now);
    ExtractPlain(s, dir, name, m, now, Effect(Enter(cleared, dir + [name], n, now), true));
  }

  lemma ExtractsDirectory(s: Progress, dir: Path, name: string, m: Member, now: Time)
    requires Standing(s, dir) && Plain(name) && m.typ == TypeDir && m.data == []
    ensures var r := ExtractAt(s, m, dir + [name], now);
            && Standing(r, dir) && r.dirs == s.dirs + [(dir + [name], m.mtime)] && r.size == s.size
            && Grafted(s.fs, r.fs, dir, {name}, map[dir + [name] := Inode(Dir(m.mode, now), false)])
  {
    var n := Inode(Dir(m.mode, now), false);
    Replaces(s.fs, dir, name, n, now);
    var cleared := Cleared(s.fs, dir + [name], now).fs;
    MaterialiseDir(cleared, m, dir, name, now);
    ExtractPlain(s, dir, name, m, now, Effect(Enter(cleared, dir + [name], n, now), true));
  }

  lemma MarkerNames(name: string)
    requires Plain(name)
    ensures var marked := WHITEOUT + name;
            RealName(marked) && HasWhiteoutPrefix(marked) && marked[|WHITEOUT|..] == name && marked != OPAQUE
  {
  }

  lemma ExtractsDevice(s: Progress, dir: Path, name: string, marked: string, m: Member, now: Time)
    requires Standing(s, dir) && Plain(name)
    requires HasWhiteoutPrefix(marked) && marked[|WHITEOUT|..] == name && marked != OPAQUE
    ensures var r := ExtractAt(s, m, dir + [marked], now);
            && Standing(r, dir) && r.dirs == s.dirs && r.size == s.size + |m.data|
            && Grafted(s.fs, r.fs, dir, {name}, map[dir + [name] := Inode(Whiteout(m.uid, m.gid), false)])
  {
    BaseParent(dir, marked);
    BaseParent(dir, name);
    ResolveReal(dir, [name]);
    Replaces(s.fs, dir, name, Inode(Whiteout(m.uid, m.gid), false), now);
    assert RemovePrevious(s.fs, dir + [marked], now) == Cleared(s.fs, dir + [name], now);
  }

  lemma HiddenName()
    ensures HasWhiteoutPrefix(OPAQUE) && OPAQUE[|WHITEOUT|..] == ".wh..opq" && RealName(OPAQUE) && RealName(".wh..opq")
  {
  }

  /** Setting the attribute on the directory just made. */
  lemma MarksOpaque(fs: FS, mid: FS, dir: Path, name: string, hidden: string, d: Inode)
    requires Grafted(fs, mid, dir, {name}, map[dir + [name] := d]) && d.kind.Dir? && WellFormed(mid)
    ensures dir + [name] + [hidden] !in mid
    ensures var e := SetOpaque(mid, dir + [name]);
            e.ok && WellFormed(e.fs) && Grafted(fs, e.fs, dir, {name}, map[dir + [name] := d.(opaqueDir := true)])
  {
    var p := dir + [name];
    WithinOne(dir, name, p + [hidden]);
    assert AlikeAt(mid, map[p := d], p + [hidden]);
    WithinOne(dir, name, p);
    assert AlikeAt(mid, map[p := d], p);
    SetOpaqueKeeps(mid, p);
    var r := SetOpaque(mid, p).fs;
    forall q | Within(dir, {name}, q) ensures AlikeAt(r, map[p := d.(opaqueDir := true)], q) {
      assert AlikeAt(mid, map[p := d], q);
    }
    forall q | q != dir && !Within(dir, {name}, q) ensures SameAt(r, fs, q) {
      assert SameAt(mid, fs, q);
    }
  }

  lemma ExtractsOpaque(fs: FS, s: Progress, dir: Path, name: string, mark: string, hidden: string, d: Inode,
                       m: Member, now: Time)
    requires Standing(s, dir) && m.data == [] && mark == OPAQUE
    requires HasWhiteoutPrefix(mark) && mark[|WHITEOUT|..] == hidden && RealName(hidden)
    requires Grafted(fs, s.fs, dir, {name}, map[dir + [name] := d]) && d.kind.Dir?
    ensures var r := ExtractAt(s, m, dir + [name] + [mark], now);
            && Standing(r, dir) && r.dirs == s.dirs && r.size == s.size
            && Grafted(fs, r.fs, dir, {name}, map[dir + [name] := d.(opaqueDir := true)])
  {
    MarksOpaque(fs, s.fs, dir, name, hidden, d);
    BaseParent(dir + [name], mark);
    ResolveReal(dir + [name], [hidden]);
  }

  // ---------------------------------------------------------------- whole subtrees

  type Stepper = (Progress, Member, nat) -> Progress

  /** The members one after the other, by any step. */
  function Fold(step: Stepper, s: Progress, ms: seq<Member>, i: nat): Progress
    decreases |ms|
  {
    if ms == [] then s else Fold(step, step(s, ms[0], i), ms[1..], i + 1)
  }

  lemma {:induction false} FoldAppend(step: Stepper, s: Progress, a: seq<Member>, b: seq<Member>, i: nat)
    ensures Fold(step, s, a + b, i) == Fold(step, Fold(step, s, a, i), b, i + |a|)
    decreases |a|
  {
    if a == [] {
      assert a + b == b;
    } else {
      assert (a + b)[0] == a[0] && (a + b)[1..] == a[1..] + b;
      FoldAppend(step, step(s, a[0], i), a[1..], b, i + 1);
    }
  }

  /** One turn of the loop of `Decompress`, which does nothing after a failure. */
  function Stepping(dst: Path, clock: nat -> Time): Stepper
  {
    (s: Progress, m: Member, i: nat) => if s.ok then Extract(s, dst, m, clock(i)) else s
  }

  lemma {:induction false} FoldStops(dst: Path, clock: nat -> Time, s: Progress, ms: seq<Member>, i: nat)
    requires !s.ok
    ensures Fold(Stepping(dst, clock), s, ms, i) == s
    decreases |ms|
  {
    if ms != [] {
      FoldStops(dst, clock, s, ms[1..], i + 1);
    }
  }

  lemma {:induction false} ExtractAllFolds(s: Progress, dst: Path, ms: seq<Member>, i: nat, clock: nat -> Time)
    ensures ExtractAll(s, dst, ms, i, clock) == Fold(Stepping(dst, clock), s, ms, i)
    decreases |ms|
  {
    if !s.ok {
      FoldStops(dst, clock, s, ms, i);
    } else if ms != [] {
      ExtractAllFolds(Extract(s, dst, ms[0], clock(i)), dst, ms[1..], i + 1, clock);
    }
  }

  lemma ExtractAppend(s: Progress, dst: Path, a: seq<Member>, b: seq<Member>, i: nat, clock: nat -> Time)
    ensures ExtractAll(s, dst, a + b, i, clock) == ExtractAll(ExtractAll(s, dst, a, i, clock), dst, b, i + |a|, clock)
  {
    ExtractAllFolds(s, dst, a, i, clock);
    ExtractAllFolds(s, dst, a + b, i, clock);
    ExtractAllFolds(ExtractAll(s, dst, a, i, clock), dst, b, i + |a|, clock);
    FoldAppend(Stepping(dst, clock), s, a, b, i);
  }

  lemma Retimed(fs: FS, fs': FS, dir: Path, names: set<string>, flat: FS, flat': FS)
    requires Grafted(fs, fs', dir, names, flat)
    requires forall q :: AlikeAt(flat, flat', q)
    ensures Grafted(fs, fs', dir, names, flat')
  {
    forall q | Within(dir, names, q) ensures AlikeAt(fs', flat', q) {
      assert AlikeAt(fs', flat, q) && AlikeAt(flat, flat', q);
    }
  }

  /** A directory in which members can be written. */
  ghost predicate Open(dir: Path)
  {
    forall k :: 0 <= k < |dir| ==> RealName(dir[k]) && '\\' !in dir[k] && !EndsInDots(dir[k])
  }

  ghost predicate Sound(f: Forest)
  {
    Proper(f) && Loadable(f)
  }

  /** Where the headers of an entry are handled. */
  lemma HeaderTargets(s: Progress, dst: Path, dir: Path, name: string, t: Tree, m: Member, now: Time)
    requires Open(dir) && Sound(Cons(name, t, Nil))
             && m.name == Join(dir + [if t.Device? then WHITEOUT + name else name])
    ensures Extract(s, dst, m, now) == ExtractAt(s, m, dst + dir + [if t.Device? then WHITEOUT + name else name], now)
  {
    MarkerNames(name);
    var last := if t.Device? then WHITEOUT + name else name;
    assert '\\' !in last;
    assert Admissible(dir + [last]);
    ExtractHere(s, dst, dir, last, m, now);
  }

  lemma OpaqueTarget(s: Progress, dst: Path, dir: Path, name: string, mark: string, m: Member, now: Time)
    requires Open(dir + [name]) && mark == OPAQUE && m.name == Join(dir + [name, mark])
    ensures Extract(s, dst, m, now) == ExtractAt(s, m, dst + dir + [name] + [mark], now)
  {
    HiddenName();
    var sub := dir + [name];
    assert sub + [mark] == dir + [name, mark] && dst + sub == dst + dir + [name];
    assert '\\' !in mark;
    assert Admissible(sub + [mark]);
    ExtractHere(s, dst, sub, mark, m, now);
  }

  lemma ExtractOne(s: Progress, dst: Path, m: Member, i: nat, clock: nat -> Time)
    requires s.ok
    ensures ExtractAll(s, dst, [m], i, clock) == Extract(s, dst, m, clock(i))
  {
    assert [m][1..] == [];
  }

  lemma ExtractTwo(s: Progress, dst: Path, m: Member, m': Member, i: nat, clock: nat -> Time)
    requires s.ok && Extract(s, dst, m, clock(i)).ok
    ensures ExtractAll(s, dst, [m] + [m'], i, clock) == Extract(Extract(s, dst, m, clock(i)), dst, m', clock(i + 1))
  {
    ExtractOne(s, dst, m, i, clock);
    ExtractAppend(s, dst, [m], [m'], i, clock);
    ExtractOne(Extract(s, dst, m, clock(i)), dst, m', i + 1, clock);
  }

  /** Extracting a plain file or a whiteout. */
  lemma GraftLeaf(s: Progress, dst: Path, dir: Path, name: string, t: Tree, i: nat, clock: nat -> Time)
    requires Ready(s, dst, dir) && Open(dir) && Sound(Cons(name, t, Nil)) && !t.Directory?
    ensures var r := ExtractAll(s, dst, WriteHeaders(dir, name, t), i, clock);
            && Standing(r, dst + dir) && r.size == s.size + ByteCount(t) && r.dirs == s.dirs
            && Grafted(s.fs, r.fs, dst + dir, {name}, Flat(dst + dir + [name], t))
  {
    var m := WriteHeaders(dir, name, t)[0];
    assert WriteHeaders(dir, name, t) == [m];
    ExtractOne(s, dst, m, i, clock);
    HeaderTargets(s, dst, dir, name, t, m, clock(i));
    if t.Regular? {
      ExtractsRegular(s, dst + dir, name, m, clock(i));
    } else {
      MarkerNames(name);
      ExtractsDevice(s, dst + dir, name, WHITEOUT + name, m, clock(i));
    }
  }

  /** Extracting the header of a directory. */
  lemma GraftDirHeader(s: Progress, dst: Path, dir: Path, name: string, t: Tree, now: Time)
    requires Ready(s, dst, dir) && Open(dir) && Sound(Cons(name, t, Nil)) && t.Directory?
    ensures var r := Extract(s, dst, WriteHeaders(dir, name, t)[0], now);
            var p := dst + dir + [name];
            && Standing(r, dst + dir) && r.size == s.size && r.dirs == s.dirs + [(p, t.mtime)]
            && Grafted(s.fs, r.fs, dst + dir, {name}, map[p := Inode(Dir(t.mode, now), false)])
  {
    var m := WriteHeaders(dir, name, t)[0];
    HeaderTargets(s, dst, dir, name, t, m, now);
    ExtractsDirectory(s, dst + dir, name, m, now);
  }

  /** Extracting the marker of an opaque directory. */
  lemma GraftMarker(fs: FS, s: Progress, dst: Path, dir: Path, name: string, t: Tree, d: Inode, now: Time)
    requires Standing(s, dst + dir) && Open(dir + [name]) && t.Directory? && t.isOpaque && d.kind.Dir?
    requires Grafted(fs, s.fs, dst + dir, {name}, map[dst + dir + [name] := d])
    ensures var r := Extract(s, dst, WriteHeaders(dir, name, t)[1], now);
            && Standing(r, dst + dir) && r.size == s.size && r.dirs == s.dirs
            && Grafted(fs, r.fs, dst + dir, {name}, map[dst + dir + [name] := d.(opaqueDir := true)])
  {
    var m := WriteHeaders(dir, name, t)[1];
    OpaqueTarget(s, dst, dir, name, OPAQUE, m, now);
    HiddenName();
    ExtractsOpaque(fs, s, dst + dir, name, OPAQUE, ".wh..opq", d, m, now);
  }

  /** Extracting the header of a directory and, if it is opaque, the marker. */
  lemma GraftDirectory(s: Progress, dst: Path, dir: Path, name: string, t: Tree, i: nat, clock: nat -> Time)
    requires Ready(s, dst, dir) && Open(dir) && Sound(Cons(name, t, Nil)) && t.Directory?
    ensures var r := ExtractAll(s, dst, WriteHeaders(dir, name, t), i, clock);
            var p := dst + dir + [name];
            && Standing(r, dst + dir) && r.size == s.size && r.dirs == s.dirs + [(p, t.mtime)]
            && Grafted(s.fs, r.fs, dst + dir, {name}, map[p := Inode(Dir(t.mode, t.mtime), t.isOpaque)])
  {
    var ms := WriteHeaders(dir, name, t);
    var p, d := dst + dir + [name], Inode(Dir(t.mode, clock(i)), false);
    GraftDirHeader(s, dst, dir, name, t, clock(i));
    var r := Extract(s, dst, ms[0], clock(i));
    if t.isOpaque {
      assert ms == [ms[0]] + [ms[1]];
      ExtractTwo(s, dst, ms[0], ms[1], i, clock);
      GraftMarker(s.fs, r, dst, dir, name, t, d, clock(i + 1));
      r := Extract(r, dst, ms[1], clock(i + 1));
    } else {
      assert ms == [ms[0]];
      ExtractOne(s, dst, ms[0], i, clock);
    }
    Retimed(s.fs, r.fs, dst + dir, {name}, map[p := d.(opaqueDir := t.isOpaque)],
      map[p := Inode(Dir(t.mode, t.mtime), t.isOpaque)]);
  }

  /** `r` is `s` after the entries `names` of `dir` were extracted as `flat`. */
  ghost predicate Done(s: Progress, r: Progress, dst: Path, dir: Path, names: set<string>, flat: FS, dirs: DirTimes,
                       bytes: nat)
  {
    && Ready(r, dst, dir) && r.size == s.size + bytes && r.dirs == s.dirs + dirs
    && Grafted(s.fs, r.fs, dst + dir, names, flat)
  }

  lemma DoneBeside(s: Progress, m: Progress, r: Progress, dst: Path, dir: Path, f: Forest)
    requires f.Cons? && f.name !in Names(f.rest)
    requires Done(s, m, dst, dir, {f.name}, Flat(dst + dir + [f.name], f.node), DirList(dst + dir + [f.name], f.node),
             ByteCount(f.node))
    requires Done(m, r, dst, dir, Names(f.rest), FlatForest(dst + dir, f.rest), DirListForest(dst + dir, f.rest),
             ByteCountForest(f.rest))
    ensures Done(s, r, dst, dir, Names(f), FlatForest(dst + dir, f), DirListForest(dst + dir, f), ByteCountForest(f))
  {
    var up, p := dst + dir, dst + dir + [f.name];
    var here, others := Flat(p, f.node), FlatForest(up, f.rest);
    forall q | q in here ensures Within(up, {f.name}, q) {
      FlatWithin(p, f.node, q);
      WithinOne(up, f.name, q);
    }
    forall q | q in others ensures Within(up, Names(f.rest), q) {
      FlatForestWithin(up, f.rest, q);
    }
    GraftBeside(s.fs, m.fs, r.fs, up, f.name, here, Names(f.rest), others);
    assert s.dirs + DirList(p, f.node) + DirListForest(up, f.rest) ==
      s.dirs + (DirList(p, f.node) + DirListForest(up, f.rest));
  }

  lemma DoneBelow(s: Progress, m: Progress, r: Progress, dst: Path, dir: Path, name: string, t: Tree)
    requires t.Directory?
    requires Done(s, m, dst, dir, {name}, map[dst + dir + [name] := Inode(Dir(t.mode, t.mtime), t.isOpaque)],
             [(dst + dir + [name], t.mtime)], 0)
    requires Done(m, r, dst, dir + [name], Names(t.kids), FlatForest(dst + dir + [name], t.kids),
             DirListForest(dst + dir + [name], t.kids), ByteCountForest(t.kids))
    ensures Done(s, r, dst, dir, {name}, Flat(dst + dir + [name], t), DirList(dst + dir + [name], t), ByteCount(t))
  {
    var up, p := dst + dir, dst + dir + [name];
    assert dst + (dir + [name]) == p;
    var below := FlatForest(p, t.kids);
    forall q | q in below ensures Within(p, Names(t.kids), q) {
      FlatForestWithin(p, t.kids, q);
    }
    GraftBelow(s.fs, m.fs, r.fs, up, name, Inode(Dir(t.mode, t.mtime), t.isOpaque), Names(t.kids), below);
    assert s.dirs + [(p, t.mtime)] + DirListForest(p, t.kids) == s.dirs + DirList(p, t);
  }

  /** A directory's own headers, and that its entries can follow. */
  lemma GraftTop(s: Progress, dst: Path, dir: Path, name: string, t: Tree, i: nat, clock: nat -> Time)
    requires Ready(s, dst, dir) && Open(dir) && Sound(Cons(name, t, Nil)) && t.Directory?
    ensures var m, p := ExtractAll(s, dst, WriteHeaders(dir, name, t), i, clock), dst + dir + [name];
            && Done(s, m, dst, dir, {name}, map[p := Inode(Dir(t.mode, t.mtime), t.isOpaque)], [(p, t.mtime)], 0)
            && Ready(m, dst, dir + [name])
  {
    var m, p := ExtractAll(s, dst, WriteHeaders(dir, name, t), i, clock), dst + dir + [name];
    GraftDirectory(s, dst, dir, name, t, i, clock);
    assert dst + (dir + [name]) == p;
    WithinOne(dst + dir, name, p);
    assert AlikeAt(m.fs, map[p := Inode(Dir(t.mode, t.mtime), t.isOpaque)], p);
  }

  /** An entry without entries of its own. */
  lemma GraftBare(s: Progress, dst: Path, dir: Path, name: string, t: Tree, i: nat, clock: nat -> Time)
    requires Ready(s, dst, dir) && Open(dir) && Sound(Cons(name, t, Nil)) && !(t.Directory? && t.kids.Cons?)
    ensures Done(s, ExtractAll(s, dst, TarEntry(dir, name, t), i, clock), dst, dir, {name},
                 Flat(dst + dir + [name], t), DirList(dst + dir + [name], t), ByteCount(t))
  {
    assert TarEntry(dir, name, t) == WriteHeaders(dir, name, t);
    if t.Directory? {
      GraftTop(s, dst, dir, name, t, i, clock);
      EmptyDirectory(dst + dir + [name], t);
    } else {
      GraftLeaf(s, dst, dir, name, t, i, clock);
    }
  }

  lemma {:induction false} GraftEntry(s: Progress, dst: Path, dir: Path, name: string, t: Tree, i: nat,
                                      clock: nat -> Time)
    requires Ready(s, dst, dir) && Open(dir) && Sound(Cons(name, t, Nil))
    ensures Done(s, ExtractAll(s, dst, TarEntry(dir, name, t), i, clock), dst, dir, {name},
                 Flat(dst + dir + [name], t), DirList(dst + dir + [name], t), ByteCount(t))
    decreases t, 0
  {
    if t.Directory? && t.kids.Cons? {
      var hs, sub := WriteHeaders(dir, name, t), dir + [name];
      var below := TarForest(sub, t.kids);
      var m := ExtractAll(s, dst, hs, i, clock);
      GraftTop(s, dst, dir, name, t, i, clock);
      GraftForest(m, dst, sub, t.kids, i + |hs|, clock);
      assert dst + sub == dst + dir + [name];
      ExtractAppend(s, dst, hs, below, i, clock);
      DoneBelow(s, m, ExtractAll(m, dst, below, i + |hs|, clock), dst, dir, name, t);
    } else {
      GraftBare(s, dst, dir, name, t, i, clock);
    }
  }

  lemma EmptyDirectory(p: Path, t: Tree)
    requires t.Directory? && t.kids.Nil?
    ensures Flat(p, t) == map[p := Inode(Dir(t.mode, t.mtime), t.isOpaque)]
    ensures DirList(p, t) == [(p, t.mtime)] && ByteCount(t) == 0
  {
  }

  lemma {:induction false} GraftForest(s: Progress, dst: Path, dir: Path, f: Forest, i: nat, clock: nat -> Time)
    requires Ready(s, dst, dir) && Open(dir) && Sound(f)
    ensures Done(s, ExtractAll(s, dst, TarForest(dir, f), i, clock), dst, dir, Names(f),
                 FlatForest(dst + dir, f), DirListForest(dst + dir, f), ByteCountForest(f))
    decreases f, 1
  {
    match f
    case Nil =>
    case Cons(name, node, rest) =>
      var here := TarEntry(dir, name, node);
      GraftEntry(s, dst, dir, name, node, i, clock);
      var m := ExtractAll(s, dst, here, i, clock);
      GraftForest(m, dst, dir, rest, i + |here|, clock);
      ExtractAppend(s, dst, here, TarForest(dir, rest), i, clock);
      DoneBeside(s, m, ExtractAll(m, dst, TarForest(dir, rest), i + |here|, clock), dst, dir, f);
  }

  // ---------------------------------------------------------------- directory times

  /** `dirs` lists directories of `flat` with the times they have there. */
  ghost predicate Listed(dirs: DirTimes, flat: FS)
  {
    forall k :: 0 <= k < |dirs| ==>
      dirs[k].0 in flat && flat[dirs[k].0].kind.Dir? && flat[dirs[k].0].kind.mtime == dirs[k].1
  }

  ghost predicate Mentions(dirs: DirTimes, q: Path)
  {
    exists k :: 0 <= k < |dirs| && dirs[k].0 == q
  }

  ghost predicate Complete(dirs: DirTimes, flat: FS)
  {
    forall q :: q in flat && flat[q].kind.Dir? ==> Mentions(dirs, q)
  }

  lemma MentionsAppend(a: DirTimes, b: DirTimes, q: Path)
    ensures Mentions(a, q) ==> Mentions(a + b, q)
    ensures Mentions(b, q) ==> Mentions(a + b, q)
  {
    if Mentions(a, q) {
      var k :| 0 <= k < |a| && a[k].0 == q;
      assert (a + b)[k].0 == q;
    }
    if Mentions(b, q) {
      var k :| 0 <= k < |b| && b[k].0 == q;
      assert (a + b)[|a| + k].0 == q;
    }
  }

  lemma {:induction false} DirListExact(p: Path, t: Tree)
    requires t.Directory? ==> Proper(t.kids)
    ensures Listed(DirList(p, t), Flat(p, t)) && Complete(DirList(p, t), Flat(p, t))
    decreases t, 0
  {
    if t.Directory? {
      var below := DirListForest(p, t.kids);
      DirListForestExact(p, t.kids);
      forall k | 0 <= k < |below| ensures below[k].0 != p {
        FlatForestWithin(p, t.kids, below[k].0);
      }
      assert DirList(p, t)[0].0 == p;
      forall q | q in Flat(p, t) && Flat(p, t)[q].kind.Dir? ensures Mentions(DirList(p, t), q) {
        if q != p {
          MentionsAppend([(p, t.mtime)], below, q);
        }
      }
    }
  }

  lemma {:induction false} DirListForestExact(dir: Path, f: Forest)
    requires Proper(f)
    ensures Listed(DirListForest(dir, f), FlatForest(dir, f)) && Complete(DirListForest(dir, f), FlatForest(dir, f))
    decreases f, 1
  {
    if f.Cons? {
      var p := dir + [f.name];
      var a, b := DirList(p, f.node), DirListForest(dir, f.rest);
      var here, others := Flat(p, f.node), FlatForest(dir, f.rest);
      var both: FS := here + others;
      DirListExact(p, f.node);
      DirListForestExact(dir, f.rest);
      forall q | q in here ensures q !in others {
        FlatWithin(p, f.node, q);
        assert q[|dir|] == p[|dir|] == f.name;
        if q in others {
          FlatForestWithin(dir, f.rest, q);
          assert false;
        }
      }
      forall q | q in both && both[q].kind.Dir? ensures Mentions(a + b, q) {
        MentionsAppend(a, b, q);
      }
      forall k | 0 <= k < |a + b|
        ensures var e := (a + b)[k]; e.0 in both && both[e.0].kind.Dir? && both[e.0].kind.mtime == e.1
      {
        assert (a + b)[k] == if k < |a| then a[k] else b[k - |a|];
      }
    }
  }

  /** The final loop gives every listed directory its archived time and changes nothing else. */
  lemma {:induction false} TimesRestored(fs: FS, dirs: DirTimes, flat: FS)
    requires WellFormed(fs) && Listed(dirs, flat)
    requires forall k :: 0 <= k < |dirs| ==> AlikeAt(fs, flat, dirs[k].0)
    ensures var e := RestoreTimes(fs, dirs);
            && e.ok && WellFormed(e.fs)
            && (forall q {:trigger SameAt(e.fs, flat, q)} :: Mentions(dirs, q) ==> SameAt(e.fs, flat, q))
            && (forall q {:trigger SameAt(e.fs, fs, q)} :: !Mentions(dirs, q) ==> SameAt(e.fs, fs, q))
    decreases |dirs|
  {
    if dirs != [] {
      var p := dirs[0].0;
      var one := Chtimes(fs, p, dirs[0].1);
      assert AlikeAt(fs, flat, p);
      ChtimesKeeps(fs, p, dirs[0].1);
      assert one.fs[p] == flat[p];
      var rest := dirs[1..];
      forall k | 0 <= k < |rest| ensures AlikeAt(one.fs, flat, rest[k].0) {
        assert rest[k] == dirs[k + 1] && AlikeAt(fs, flat, dirs[k + 1].0);
      }
      TimesRestored(one.fs, rest, flat);
      var e := RestoreTimes(one.fs, rest);
      assert dirs == [dirs[0]] + rest;
      forall q | Mentions(dirs, q) ensures SameAt(e.fs, flat, q) {
        if Mentions(rest, q) {
          assert SameAt(e.fs, flat, q);
        } else {
          var k :| 0 <= k < |dirs| && dirs[k].0 == q;
          assert q == p && SameAt(e.fs, one.fs, p);
        }
      }
      forall q | !Mentions(dirs, q) ensures SameAt(e.fs, fs, q) {
        MentionsAppend([dirs[0]], rest, q);
        assert dirs[0].0 != q;
        assert SameAt(e.fs, one.fs, q);
      }
    }
  }

  // ---------------------------------------------------------------- the destination directory

  ghost predicate Usable(fs: FS, dst: Path)
  {
    WellFormed(fs) && forall q :: q <= dst && q in fs ==> IsDir(fs, q)
  }

  /** A directory on the way to the destination keeps all but its time, or was made with mode 0755. */
  ghost predicate KeptDir(fs: FS, fs': FS, q: Path)
  {
    IsDir(fs', q) && if q in fs then SameButTime(fs'[q], fs[q]) else fs'[q].kind.mode == 0x1ED && !fs'[q].opaqueDir
  }

  lemma {:induction false} DestinationMade(fs: FS, dst: Path, now: Time)
    requires Usable(fs, dst)
    ensures var e := MkdirAll(fs, dst, 0x1ED, now);
            && e.ok && WellFormed(e.fs)
            && (forall q {:trigger KeptDir(fs, e.fs, q)} :: q <= dst ==> KeptDir(fs, e.fs, q))
            && (forall q {:trigger SameAt(e.fs, fs, q)} :: !(q <= dst) ==> SameAt(e.fs, fs, q))
    decreases |dst|
  {
    MkdirAllKeeps(fs, dst, 0x1ED, now);
    if dst in fs {
      forall q | q <= dst ensures KeptDir(fs, fs, q) {
        NoOrphans(fs, q, dst);
      }
    } else {
      var up := Parent(dst);
      DestinationMade(fs, up, now);
      var u := MkdirAll(fs, up, 0x1ED, now).fs;
      var r := MkdirAll(fs, dst, 0x1ED, now).fs;
      forall q | q <= dst ensures KeptDir(fs, r, q) {
        if q != dst {
          PrefixParent(q, dst);
          assert KeptDir(fs, u, q);
        }
      }
      forall q | !(q <= dst) ensures SameAt(r, fs, q) {
        assert SameAt(u, fs, q);
      }
    }
  }

  // ---------------------------------------------------------------- which streams are accepted

  lemma {:induction false} AcceptedNames(s: Progress, dst: Path, ms: seq<Member>, i: nat, clock: nat -> Time, k: nat)
    requires s.ok && ExtractAll(s, dst, ms, i, clock).ok && k < |ms|
    ensures ValidRelPath(ms[k].name)
    decreases |ms|
  {
    if k > 0 {
      AcceptedNames(Extract(s, dst, ms[0], clock(i)), dst, ms[1..], i + 1, clock, k - 1);
    }
  }

  ghost predicate AllAccepted(ms: seq<Member>)
  {
    forall k :: 0 <= k < |ms| ==> ValidRelPath(ms[k].name)
  }

  lemma AcceptedParts(a: seq<Member>, b: seq<Member>)
    requires AllAccepted(a + b)
    ensures AllAccepted(a) && AllAccepted(b)
  {
    forall k | 0 <= k < |a| ensures ValidRelPath(a[k].name) {
      assert (a + b)[k] == a[k];
    }
    forall k | 0 <= k < |b| ensures ValidRelPath(b[k].name) {
      assert (a + b)[|a| + k] == b[k];
    }
  }

  /** If the guard lets every written name pass, the tree is loadable. */
  lemma {:induction false} AcceptedIsLoadable(dir: Path, f: Forest)
    requires RealPath(dir) && Proper(f) && AllAccepted(TarForest(dir, f))
    ensures Loadable(f)
    ensures f.Cons? && dir != [] ==> !EndsInDots(dir[|dir| - 1])
    decreases f
  {
    if f.Cons? {
      var hs := WriteHeaders(dir, f.name, f.node);
      AcceptedParts(TarEntry(dir, f.name, f.node), TarForest(dir, f.rest));
      AcceptedIsLoadable(dir, f.rest);
      var below := if f.node.Directory? then TarForest(dir + [f.name], f.node.kids) else [];
      AcceptedParts(hs, below);
      assert ValidRelPath(hs[0].name);
      var last := if f.node.Device? then WHITEOUT + f.name else f.name;
      assert RealName(last) && RealPath(dir + [last]);
      ValidExactly(dir + [last]);
      assert (dir + [last])[|dir|] == last;
      if dir != [] {
        assert (dir + [last])[|dir| - 1] == dir[|dir| - 1];
      }
      if f.node.Directory? {
        AcceptedIsLoadable(dir + [f.name], f.node.kids);
        assert (dir + [f.name])[|dir|] == f.name;
        if f.node.isOpaque {
          assert ValidRelPath(hs[1].name);
          HiddenName();
          ValidExactly(dir + [f.name, OPAQUE]);
          assert (dir + [f.name, OPAQUE])[|dir|] == f.name;
        }
      }
    }
  }

  // ---------------------------------------------------------------- the theorems

  /** `fs'` is `fs` with every top-level name of `f` under `dst` replaced by exactly that subtree, times
      included.  The directories down to `dst` exist: only the times of old ones may differ, new ones have mode 0755. */
  ghost predicate Replaced(fs: FS, fs': FS, dst: Path, f: Forest)
  {
    && (forall q {:trigger SameAt(fs', FlatForest(dst, f), q)} ::
          Within(dst, Names(f), q) ==> SameAt(fs', FlatForest(dst, f), q))
    && (forall q {:trigger KeptDir(fs, fs', q)} :: q <= dst ==> KeptDir(fs, fs', q))
    && (forall q {:trigger SameAt(fs', fs, q)} ::
          !(q <= dst) && !Within(dst, Names(f), q) ==> SameAt(fs', fs, q))
  }

  lemma TimesComplete(fs: FS, made: FS, r: Progress, e: Effect, dst: Path, f: Forest)
    requires Proper(f) && WellFormed(r.fs) && IsDir(r.fs, dst)
    requires forall q {:trigger KeptDir(fs, made, q)} :: q <= dst ==> KeptDir(fs, made, q)
    requires forall q {:trigger SameAt(made, fs, q)} :: !(q <= dst) ==> SameAt(made, fs, q)
    requires Grafted(made, r.fs, dst, Names(f), FlatForest(dst, f)) && r.dirs == DirListForest(dst, f)
    requires e == RestoreTimes(r.fs, r.dirs)
    ensures e.ok && WellFormed(e.fs) && Replaced(fs, e.fs, dst, f)
  {
    var flat := FlatForest(dst, f);
    DirListForestExact(dst, f);
    forall k | 0 <= k < |r.dirs| ensures AlikeAt(r.fs, flat, r.dirs[k].0) {
      FlatForestWithin(dst, f, r.dirs[k].0);
    }
    TimesRestored(r.fs, r.dirs, flat);
    forall q | Mentions(r.dirs, q) ensures Within(dst, Names(f), q) {
      var k :| 0 <= k < |r.dirs| && r.dirs[k].0 == q;
      FlatForestWithin(dst, f, q);
    }
    forall q | Within(dst, Names(f), q) ensures SameAt(e.fs, flat, q) {
      assert AlikeAt(r.fs, flat, q);
      if !Mentions(r.dirs, q) {
        assert SameAt(e.fs, r.fs, q);
      }
    }
    forall q | q <= dst ensures KeptDir(fs, e.fs, q) {
      assert KeptDir(fs, made, q) && !Within(dst, Names(f), q);
      assert SameAt(e.fs, r.fs, q);
      if q != dst {
        assert SameAt(r.fs, made, q);
      }
    }
    forall q | !(q <= dst) && !Within(dst, Names(f), q) ensures SameAt(e.fs, fs, q) {
      assert SameAt(made, fs, q) && SameAt(r.fs, made, q) && SameAt(e.fs, r.fs, q);
    }
  }

  /** Overlay archive round trip, exactly: untarring succeeds if and only if the tree is loadable, and
      then it replaces the top-level names by the tree and returns the bytes of its regular files. */
  lemma RoundTrip(fs: FS, dst: Path, f: Forest, clock: nat -> Time)
    requires Usable(fs, dst) && Proper(f)
    ensures var (e, size) := Untar(fs, dst, TarForest([], f), clock);
            && (e.ok <==> Loadable(f))
            && (e.ok ==> size == ByteCountForest(f) && Usable(e.fs, dst) && Replaced(fs, e.fs, dst, f))
            && (!e.ok ==> size == 0)
  {
    var ms := TarForest([], f);
    DestinationMade(fs, dst, clock(0));
    var made := MkdirAll(fs, dst, 0x1ED, clock(0)).fs;
    var s := Progress(made, [], 0, true);
    var r := ExtractAll(s, dst, ms, 1, clock);
    assert dst + [] == dst;
    assert KeptDir(fs, made, dst);
    if Loadable(f) {
      GraftForest(s, dst, [], f, 1, clock);
      assert r.dirs == DirListForest(dst, f);
      TimesComplete(fs, made, r, RestoreTimes(r.fs, r.dirs), dst, f);
      var e := RestoreTimes(r.fs, r.dirs);
      forall q | q <= dst && q in e.fs ensures IsDir(e.fs, q) {
        assert KeptDir(fs, e.fs, q);
      }
    } else if r.ok {
      forall k | 0 <= k < |ms| ensures ValidRelPath(ms[k].name) {
        AcceptedNames(s, dst, ms, 1, clock, k);
      }
      AcceptedIsLoadable([], f);
      assert false;
    }
  }

  /** Extracting a second time changes nothing but the times of the directories down to `dst`. */
  lemma ExtractionIsIdempotent(fs: FS, dst: Path, f: Forest, clock: nat -> Time, later: nat -> Time)
    requires Usable(fs, dst) && Proper(f) && Loadable(f)
    ensures var once := Untar(fs, dst, TarForest([], f), clock).0.fs;
            var twice := Untar(once, dst, TarForest([], f), later).0;
            && twice.ok
            && (forall q {:trigger SameAt(twice.fs, once, q)} :: !(q <= dst) ==> SameAt(twice.fs, once, q))
            && (forall q {:trigger KeptDir(once, twice.fs, q)} :: q <= dst ==> KeptDir(once, twice.fs, q))
  {
    RoundTrip(fs, dst, f, clock);
    var once := Untar(fs, dst, TarForest([], f), clock).0.fs;
    RoundTrip(once, dst, f, later);
    var twice := Untar(once, dst, TarForest([], f), later).0.fs;
    var flat := FlatForest(dst, f);
    forall q | !(q <= dst) ensures SameAt(twice, once, q) {
      if Within(dst, Names(f), q) {
        assert SameAt(once, flat, q) && SameAt(twice, flat, q);
      }
    }
  }

  /** Why names must not use the convention themselves: a regular file called `.wh.x` comes back as a
      whiteout of `x`, its content lost. */
  lemma ReservedNamesAreNotCarried(s: Progress, dst: Path, name: string, mode: nat, mtime: Time, data: seq<byte>,
                                   now: Time)
    requires Standing(s, dst) && Plain(name) && '\\' !in name
    ensures var ms := WriteHeaders([], WHITEOUT + name, Regular(mode, mtime, data));
            && |ms| == 1
            && Grafted(s.fs, Extract(s, dst, ms[0], now).fs, dst, {name},
              map[dst + [name] := Inode(Whiteout(0, 0), false)])
  {
    var m := WriteHeaders([], WHITEOUT + name, Regular(mode, mtime, data))[0];
    assert dst + [] == dst;
    MarkerNames(name);
    assert Admissible([] + [WHITEOUT + name]);
    ExtractHere(s, dst, [], WHITEOUT + name, m, now);
    ExtractsDevice(s, dst, name, WHITEOUT + name, m, now);
  }
}
