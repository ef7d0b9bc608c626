/**
 What the archive reader makes of single members, whoever wrote them: missing parents, the markers of the OCI Image
 Layer Filesystem Changeset specification, types it does not know, and names it refuses.
 */
module OverlayForeign {
  import opened Paths
  import opened FileSystem
  import opened Overlay
  import opened OverlayRoundTrip

  /** The names and modes under which a whiteout and an opaque directory are written. */
  lemma WrittenMarkers(dir: Path, name: string, uid: nat, gid: nat, mode: nat, mtime: Time, kids: Forest)
    ensures WriteHeaders(dir, name, Device(uid, gid)) ==
            [Member(Join(dir + [".wh." + name]), TypeReg, 0x180, 0, uid, gid, [])]
    ensures WriteHeaders(dir, name, Directory(mode, mtime, true, kids)) ==
            [Member(Join(dir + [name]), TypeDir, mode, mtime, 0, 0, []),
             Member(Join(dir + [name, ".wh..wh..opq"]), TypeReg, mode, 0, 0, 0, [])]
  {
  }

  // ---------------------------------------------------------------- missing parents

  /** `fs'` is `fs` with the file `n` at `target` in place of anything that was there; the directories above it
      exist. */
  ghost predicate Placed(fs: FS, fs': FS, target: Path, n: Inode)
  {
    && target in fs' && fs'[target] == n
    && (forall q {:trigger KeptDir(fs, fs', q)} :: q <= Parent(target) ==> KeptDir(fs, fs', q))
    && (forall q {:trigger SameAt(fs', map[], q)} :: target <= q && q != target ==> SameAt(fs', map[], q))
    && (forall q {:trigger SameAt(fs', fs, q)} :: !(q <= Parent(target)) && !(target <= q) ==> SameAt(fs', fs, q))
  }

  lemma GraftPlaces(fs: FS, mid: FS, fs': FS, dir: Path, name: string, n: Inode)
    requires forall q {:trigger KeptDir(fs, mid, q)} :: q <= dir ==> KeptDir(fs, mid, q)
    requires forall q {:trigger SameAt(mid, fs, q)} :: !(q <= dir) ==> SameAt(mid, fs, q)
    requires Grafted(mid, fs', dir, {name}, map[dir + [name] := n]) && n.kind.File?
    ensures Placed(fs, fs', dir + [name], n)
  {
    var p := dir + [name];
    assert Parent(p) == dir;
    WithinOne(dir, name, p);
    assert AlikeAt(fs', map[p := n], p);
    forall q | q <= dir ensures KeptDir(fs, fs', q) {
      assert KeptDir(fs, mid, q) && !Within(dir, {name}, q);
      if q != dir {
        assert SameAt(fs', mid, q);
      }
    }
    forall q | p <= q && q != p ensures SameAt(fs', map[], q) {
      WithinOne(dir, name, q);
      assert AlikeAt(fs', map[p := n], q);
    }
    forall q | !(q <= dir) && !(p <= q) ensures SameAt(fs', fs, q) {
      WithinOne(dir, name, q);
      assert SameAt(fs', mid, q) && SameAt(mid, fs, q);
    }
  }

  /** Making the missing parents first gives the same result. */
  lemma ParentsFirst(s: Progress, dir: Path, name: string, m: Member, now: Time, made: FS)
    requires WellFormed(s.fs) && dir !in s.fs && Plain(name) && m.typ == TypeReg
    requires MkdirAll(s.fs, dir, 0x1ED, now) == Effect(made, true) && IsDir(made, dir) && dir + [name] !in made
    ensures ExtractAt(s, m, dir + [name], now) == ExtractAt(s.(fs := made), m, dir + [name], now)
  {
    BaseParent(dir, name);
    if dir + [name] in s.fs {
      NoOrphans(s.fs, dir, dir + [name]);
      assert false;
    }
    assert MkdirAll(made, dir, 0x1ED, now) == Effect(made, true);
  }

  lemma PlacesFile(s: Progress, dir: Path, name: string, m: Member, now: Time)
    requires s.ok && Usable(s.fs, dir) && Plain(name) && m.typ == TypeReg
    ensures var r := ExtractAt(s, m, dir + [name], now);
            && r.ok && r.dirs == s.dirs && r.size == s.size + |m.data|
            && Placed(s.fs, r.fs, dir + [name], Inode(File(m.mode, m.mtime, m.data), false))
  {
    var n := Inode(File(m.mode, m.mtime, m.data), false);
    var made := MkdirAll(s.fs, dir, 0x1ED, now).fs;
    DestinationMade(s.fs, dir, now);
    assert KeptDir(s.fs, made, dir);
    ExtractsRegular(s.(fs := made), dir, name, m, now);
    if dir !in s.fs {
      assert SameAt(made, s.fs, dir + [name]);
      if dir + [name] in s.fs {
        NoOrphans(s.fs, dir, dir + [name]);
        assert false;
      }
      ParentsFirst(s, dir, name, m, now, made);
    }
    GraftPlaces(s.fs, made, ExtractAt(s.(fs := made), m, dir + [name], now).fs, dir, name, n);
  }

  /** A regular file is written with its mode, time and content even when the directories above it are missing; those
      are made with mode 0755, and nothing else changes. */
  lemma FileMakesParents(s: Progress, dst: Path, dir: Path, name: string, m: Member, now: Time)
    requires s.ok && Usable(s.fs, dst + dir) && RealPath(dir) && Plain(name) && Admissible(dir + [name])
    requires m.typ == TypeReg && m.name == Join(dir + [name])
    ensures var r := Extract(s, dst, m, now);
            && r.ok && r.dirs == s.dirs && r.size == s.size + |m.data|
            && Placed(s.fs, r.fs, dst + dir + [name], Inode(File(m.mode, m.mtime, m.data), false))
  {
    ExtractHere(s, dst, dir, name, m, now);
    PlacesFile(s, dst + dir, name, m, now);
  }

  lemma {:induction false} MadeModes(fs: FS, p: Path, mode: nat, now: Time, q: Path)
    requires WellFormed(fs) && MkdirAll(fs, p, mode, now).ok && q <= p && q !in fs
    ensures var r := MkdirAll(fs, p, mode, now).fs; IsDir(r, q) && r[q].kind.mode == mode && !r[q].opaqueDir
    decreases |p|
  {
    if p in fs {
      NoOrphans(fs, q, p);
      assert false;
    } else if q != p {
      PrefixParent(q, p);
      MadeModes(fs, Parent(p), mode, now, q);
    }
  }

  /** A directory below missing ones: all of those are made too, with its own mode, and it is listed for its time. */
  lemma DirectoryMakesParents(s: Progress, dst: Path, dir: Path, name: string, m: Member, now: Time, q: Path)
    requires s.ok && Usable(s.fs, dst + dir) && dst + dir !in s.fs && RealPath(dir) && Plain(name)
    requires Admissible(dir + [name]) && m.typ == TypeDir && m.name == Join(dir + [name])
    ensures var r, target := Extract(s, dst, m, now), dst + dir + [name];
            && r.ok && r.dirs == s.dirs + [(target, m.mtime)] && r.size == s.size + |m.data|
            && (q <= target && q !in s.fs ==> IsDir(r.fs, q) && r.fs[q].kind.mode == m.mode && !r.fs[q].opaqueDir)
  {
    var target := dst + dir + [name];
    ExtractHere(s, dst, dir, name, m, now);
    BaseParent(dst + dir, name);
    if target in s.fs {
      NoOrphans(s.fs, dst + dir, target);
      assert false;
    }
    MkdirSucceeds(s.fs, dst + dir, m.mode, now);
    MakesDirectory(s, dst + dir, name, m, now);
    if q <= target && q !in s.fs {
      MadeModes(s.fs, target, m.mode, now, q);
    }
  }

  lemma {:induction false} MkdirSucceeds(fs: FS, p: Path, mode: nat, now: Time)
    requires Usable(fs, p)
    ensures MkdirAll(fs, p, mode, now).ok
    decreases |p|
  {
    if p !in fs {
      MkdirSucceeds(fs, Parent(p), mode, now);
    }
  }

  lemma MakesDirectory(s: Progress, dir: Path, name: string, m: Member, now: Time)
    requires s.ok && dir + [name] !in s.fs && Plain(name) && m.typ == TypeDir && MkdirAll(s.fs, dir, m.mode, now).ok
    ensures MkdirAll(s.fs, dir + [name], m.mode, now).ok
    ensures ExtractAt(s, m, dir + [name], now) ==
            Progress(MkdirAll(s.fs, dir + [name], m.mode, now).fs, s.dirs + [(dir + [name], m.mtime)],
              s.size + |m.data|, true)
  {
    BaseParent(dir, name);
    assert RemovePrevious(s.fs, dir + [name], now) == Effect(s.fs, true);
  }

  /** A failed extraction reports no bytes, wherever it failed. */
  lemma FailureReportsNothing(fs: FS, dst: Path, ms: seq<Member>, clock: nat -> Time)
    ensures !Untar(fs, dst, ms, clock).0.ok ==> Untar(fs, dst, ms, clock).1 == 0
  {
  }

  /** The last loop works exactly when every listed path is still there. */
  lemma {:induction false} TimesNeedPaths(fs: FS, dirs: DirTimes)
    ensures RestoreTimes(fs, dirs).ok <==> forall k :: 0 <= k < |dirs| ==> dirs[k].0 in fs
    decreases |dirs|
  {
    if dirs != [] {
      var e := Chtimes(fs, dirs[0].0, dirs[0].1);
      TimesNeedPaths(e.fs, dirs[1..]);
      assert dirs == [dirs[0]] + dirs[1..];
      assert forall k :: 0 < k < |dirs| ==> dirs[k] == dirs[1..][k - 1];
    }
  }

  // ---------------------------------------------------------------- markers

  /** A member called `.wh.x`, whatever its type, replaces all of `x` by a whiteout with the owner of the member, and
      its content is dropped. */
  lemma MarkerHides(s: Progress, dst: Path, dir: Path, name: string, m: Member, now: Time)
    requires Standing(s, dst + dir) && RealPath(dir) && Plain(name) && Admissible(dir + [".wh." + name])
    requires m.name == Join(dir + [".wh." + name])
    ensures var r := Extract(s, dst, m, now);
            && r.ok && r.dirs == s.dirs && r.size == s.size + |m.data|
            && Grafted(s.fs, r.fs, dst + dir, {name},
              map[dst + dir + [name] := Inode(Whiteout(m.uid, m.gid), false)])
  {
    MarkerNames(name);
    MarkerLiteral();
    ExtractHere(s, dst, dir, WHITEOUT + name, m, now);
    ExtractsDevice(s, dst + dir, name, WHITEOUT + name, m, now);
  }

  lemma MarksAt(s: Progress, dir: Path, mark: string, hidden: string, m: Member, now: Time)
    requires mark == OPAQUE && HasWhiteoutPrefix(mark) && mark[|WHITEOUT|..] == hidden && RealName(hidden)
    requires dir + [hidden] !in s.fs
    ensures var e := SetOpaque(s.fs, dir);
            ExtractAt(s, m, dir + [mark], now) == s.(fs := e.fs, size := s.size + |m.data|, ok := e.ok)
  {
    BaseParent(dir, mark);
    ResolveReal(dir, [hidden]);
  }

  /** A member called `.wh..wh..opq` marks the directory it stands in as opaque and changes nothing else; without that
      directory the extraction fails. */
  lemma OpaqueMarkerMarks(s: Progress, dst: Path, dir: Path, m: Member, now: Time)
    requires s.ok && RealPath(dir) && Admissible(dir + [".wh..wh..opq"])
    requires m.name == Join(dir + [".wh..wh..opq"]) && dst + dir + [".wh..opq"] !in s.fs
    ensures var r, p := Extract(s, dst, m, now), dst + dir;
            if p in s.fs
            then r == s.(fs := s.fs[p := s.fs[p].(opaqueDir := true)], size := s.size + |m.data|)
            else r == s.(size := s.size + |m.data|, ok := false)
  {
    HiddenName();
    MarkerLiteral();
    ExtractHere(s, dst, dir, OPAQUE, m, now);
    MarksAt(s, dst + dir, OPAQUE, ".wh..opq", m, now);
  }

  lemma MarkerLiteral()
    ensures OPAQUE == ".wh..wh..opq" && WHITEOUT == ".wh."
  {
  }

  lemma ClearsOnly(s: Progress, dir: Path, name: string, m: Member, now: Time)
    requires Standing(s, dir) && Plain(name) && m.typ == TypeOther
    ensures ExtractAt(s, m, dir + [name], now) ==
            s.(fs := Cleared(s.fs, dir + [name], now).fs, size := s.size + |m.data|)
  {
    var cleared := Cleared(s.fs, dir + [name], now);
    Replaces(s.fs, dir, name, Inode(Whiteout(0, 0), false), now);
    ExtractPlain(s, dir, name, m, now, cleared);
  }

  /** A member that is neither a directory nor a regular file, a link for instance, removes what stood at its name and
      puts nothing there. */
  lemma OtherTypesOnlyClear(s: Progress, dst: Path, dir: Path, name: string, m: Member, now: Time)
    requires Standing(s, dst + dir) && RealPath(dir) && Plain(name) && Admissible(dir + [name])
    requires m.typ == TypeOther && m.name == Join(dir + [name])
    ensures var r := Extract(s, dst, m, now);
            && r.ok && r.dirs == s.dirs && r.size == s.size + |m.data|
            && Grafted(s.fs, r.fs, dst + dir, {name}, map[])
  {
    ExtractHere(s, dst, dir, name, m, now);
    Clears(s.fs, dst + dir, name, now);
    ClearsOnly(s, dst + dir, name, m, now);
  }

  // ---------------------------------------------------------------- refused names

  /** The first refused name ends the extraction: what was extracted before it stays, without the directory times, and
      no later member is looked at. */
  lemma StopsAtRefusedName(fs: FS, dst: Path, good: seq<Member>, bad: Member, rest: seq<Member>, clock: nat -> Time)
    requires Usable(fs, dst) && !ValidRelPath(bad.name)
    ensures var s := ExtractAll(Progress(MkdirAll(fs, dst, 0x1ED, clock(0)).fs, [], 0, true), dst, good, 1, clock);
            s.ok ==> Untar(fs, dst, good + [bad] + rest, clock) == (Effect(s.fs, false), 0)
  {
    DestinationMade(fs, dst, clock(0));
    var s0 := Progress(MkdirAll(fs, dst, 0x1ED, clock(0)).fs, [], 0, true);
    var s := ExtractAll(s0, dst, good, 1, clock);
    assert good + [bad] + rest == good + ([bad] + rest);
    ExtractAppend(s0, dst, good, [bad] + rest, 1, clock);
    if s.ok {
      assert ([bad] + rest)[0] == bad;
      assert !Extract(s, dst, bad, clock(1 + |good|)).ok;
    }
  }
}
