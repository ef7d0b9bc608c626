/**
 The file system calls the archive reader makes, on a symlink-free tree of inodes.  Creating or
 removing an entry stamps the parent directory with the current time.
 */
module FileSystem {
  import opened Bytes
  import opened Paths

  type Time = int

  datatype Kind =
    | Dir(mode: nat, mtime: Time)
    | File(mode: nat, mtime: Time, data: seq<byte>)
    | Whiteout(uid: nat, gid: nat)

  /** `opaque` is the extended attribute `trusted.overlay.opaque=y`. */
  datatype Inode = Inode(kind: Kind, opaqueDir: bool)

  type FS = map<Path, Inode>

  /** The effect of a call that may fail part of the way. */
  datatype Effect = Effect(fs: FS, ok: bool)

  predicate IsDir(fs: FS, p: Path)
  {
    p in fs && fs[p].kind.Dir?
  }

  function Parent(p: Path): Path
  {
    if p == [] then [] else p[..|p| - 1]
  }

  predicate Hangs(fs: FS, p: Path)
  {
    IsDir(fs, Parent(p))
  }

  /** Every entry hangs in a directory, up to the root. */
  ghost predicate WellFormed(fs: FS)
  {
    IsDir(fs, []) && forall p {:trigger Hangs(fs, p)} :: p in fs ==> Hangs(fs, p)
  }

  function WithTime(k: Kind, t: Time): Kind
  {
    match k
    case Dir(mode, _) => Dir(mode, t)
    case File(mode, _, data) => File(mode, t, data)
    case Whiteout(_, _) => k
  }

  function Stamp(fs: FS, p: Path, now: Time): FS
  {
    if IsDir(fs, p) then fs[p := fs[p].(kind := WithTime(fs[p].kind, now))] else fs
  }

  /** `os.RemoveAll` */
  function RemoveAll(fs: FS, p: Path, now: Time): Effect
  {
    if p == [] then Effect(fs, false)
    else if p !in fs then Effect(fs, true)
    else Effect(Stamp(map q | q in fs && !(p <= q) :: fs[q], Parent(p), now), true)
  }

  /** A new entry in an existing directory. */
  function Enter(fs: FS, p: Path, n: Inode, now: Time): FS
  {
    Stamp(fs, Parent(p), now)[p := n]
  }

  /** `os.MkdirAll` under umask 0: missing ancestors get the same mode. */
  function MkdirAll(fs: FS, p: Path, mode: nat, now: Time): Effect
    decreases |p|
  {
    if p in fs then Effect(fs, fs[p].kind.Dir?)
    else if p == [] then Effect(fs, false)
    else
      var up := MkdirAll(fs, Parent(p), mode, now);
      if !up.ok then up else Effect(Enter(up.fs, p, Inode(Dir(mode, now), false), now), true)
  }

  /** `os.OpenFile` with create and truncate, the copy of the content, and `os.Chtimes`. */
  function WriteFile(fs: FS, p: Path, mode: nat, mtime: Time, data: seq<byte>, now: Time): Effect
  {
    if p in fs then
      if fs[p].kind.File? then Effect(fs[p := fs[p].(kind := File(fs[p].kind.mode, mtime, data))], true)
      else Effect(fs, false)
    else if p == [] || !IsDir(fs, Parent(p)) then Effect(fs, false)
    else Effect(Enter(fs, p, Inode(File(mode, mtime, data), false), now), true)
  }

  /** `unix.Mknod(p, S_IFCHR, 0)` followed by `os.Chown`. */
  function MakeWhiteout(fs: FS, p: Path, uid: nat, gid: nat, now: Time): Effect
  {
    if p in fs || p == [] || !IsDir(fs, Parent(p)) then Effect(fs, false)
    else Effect(Enter(fs, p, Inode(Whiteout(uid, gid), false), now), true)
  }

  /** `unix.Setxattr(p, "trusted.overlay.opaque", "y")` */
  function SetOpaque(fs: FS, p: Path): Effect
  {
    if p in fs then Effect(fs[p := fs[p].(opaqueDir := true)], true) else Effect(fs, false)
  }

  /** `os.Chtimes` on a directory or file. */
  function Chtimes(fs: FS, p: Path, t: Time): Effect
  {
    if p !in fs then Effect(fs, false)
    else Effect(fs[p := fs[p].(kind := WithTime(fs[p].kind, t))], true)
  }

  // ---------------------------------------------------------------- what the calls keep

  lemma PrefixParent(p: Path, q: Path)
    requires p <= q && p != q
    ensures p <= Parent(q)
  {
  }

  lemma {:induction false} NoOrphans(fs: FS, p: Path, q: Path)
    requires WellFormed(fs) && p <= q && q in fs
    ensures p in fs && (p != q ==> IsDir(fs, p))
    decreases |q|
  {
    if p != q {
      PrefixParent(p, q);
      assert Hangs(fs, q);
      NoOrphans(fs, p, Parent(q));
    }
  }

  lemma StampKeeps(fs: FS, p: Path, now: Time)
    requires WellFormed(fs)
    ensures WellFormed(Stamp(fs, p, now))
  {
    var r := Stamp(fs, p, now);
    forall q | q in r ensures Hangs(r, q) {
      assert q in fs && Hangs(fs, q);
    }
  }

  lemma RemoveAllKeeps(fs: FS, p: Path, now: Time)
    requires WellFormed(fs)
    ensures WellFormed(RemoveAll(fs, p, now).fs)
  {
    if p != [] && p in fs {
      var left := map q | q in fs && !(p <= q) :: fs[q];
      assert IsDir(left, []);
      forall q | q in left ensures Hangs(left, q) {
        assert Hangs(fs, q);
      }
      StampKeeps(left, Parent(p), now);
    }
  }

  lemma EnterKeeps(fs: FS, p: Path, n: Inode, now: Time)
    requires WellFormed(fs) && p != [] && IsDir(fs, Parent(p)) && p !in fs
    ensures WellFormed(Enter(fs, p, n, now))
  {
    StampKeeps(fs, Parent(p), now);
    var a := Stamp(fs, Parent(p), now);
    var r := a[p := n];
    forall q | q in r ensures Hangs(r, q) {
      if q != p {
        assert Hangs(a, q) && Hangs(fs, q);
      }
    }
  }

  lemma {:induction false} MkdirAllKeeps(fs: FS, p: Path, mode: nat, now: Time)
    requires WellFormed(fs)
    ensures WellFormed(MkdirAll(fs, p, mode, now).fs)
    ensures MkdirAll(fs, p, mode, now).ok ==> IsDir(MkdirAll(fs, p, mode, now).fs, p)
    ensures forall q :: q !in fs && q in MkdirAll(fs, p, mode, now).fs ==> q <= p
    decreases |p|
  {
    if p !in fs && p != [] {
      MkdirAllKeeps(fs, Parent(p), mode, now);
      var up := MkdirAll(fs, Parent(p), mode, now);
      if up.ok {
        assert p !in up.fs;
        EnterKeeps(up.fs, p, Inode(Dir(mode, now), false), now);
      }
    }
  }

  lemma SetOpaqueKeeps(fs: FS, p: Path)
    requires WellFormed(fs)
    ensures WellFormed(SetOpaque(fs, p).fs)
  {
    var r := SetOpaque(fs, p).fs;
    forall q | q in r ensures Hangs(r, q) {
      assert q in fs && Hangs(fs, q);
    }
  }

  lemma ChtimesKeeps(fs: FS, p: Path, t: Time)
    requires WellFormed(fs)
    ensures WellFormed(Chtimes(fs, p, t).fs)
  {
    var r := Chtimes(fs, p, t).fs;
    forall q | q in r ensures Hangs(r, q) {
      assert q in fs && Hangs(fs, q);
    }
  }
}
