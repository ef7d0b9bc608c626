/**
 `utils/archive/compress.go`: the tar writer that encodes overlay whiteouts and opaque directories into
 member names, and the reader that decodes them onto a file system.  The encoding is the "Whiteouts"
 section of the OCI Image Layer Filesystem Changeset specification.
 */
module Overlay {
  import opened Bytes
  import opened Paths
  import opened FileSystem

  const WHITEOUT := ".wh."
  const OPAQUE := ".wh..wh..opq"

  datatype Typeflag = TypeDir | TypeReg | TypeOther

  /** A tar header with the content that follows it. */
  datatype Member = Member(name: string, typ: Typeflag, mode: nat, mtime: Time, uid: nat, gid: nat, data: seq<byte>)

  // ---------------------------------------------------------------- the source tree and the writer

  /** What `filepath.Walk` meets: regular files, 0/0 character devices, directories. */
  datatype Tree =
    | Regular(mode: nat, mtime: Time, data: seq<byte>)
    | Device(uid: nat, gid: nat)
    | Directory(mode: nat, mtime: Time, isOpaque: bool, kids: Forest)

  /** The entries of a directory in the order they are visited. */
  datatype Forest = Nil | Cons(name: string, node: Tree, rest: Forest)

  /** `writeWhiteout`: the header that is written for an entry, and the extra one for an opaque
      directory. */
  function WriteHeaders(dir: Path, name: string, t: Tree): (ms: seq<Member>)
  {
    match t
    case Regular(mode, mtime, data) => [Member(Join(dir + [name]), TypeReg, mode, mtime, 0, 0, data)]
    case Device(uid, gid) => [Member(Join(dir + [WHITEOUT + name]), TypeReg, 0x180, 0, uid, gid, [])]
    case Directory(mode, mtime, isOpaque, _) =>
      [Member(Join(dir + [name]), TypeDir, mode, mtime, 0, 0, [])]
      + if isOpaque then [Member(Join(dir + [name, OPAQUE]), TypeReg, mode, 0, 0, 0, [])] else []
  }

  /** `writeToTarWriter` over one entry and everything below it. */
  function TarEntry(dir: Path, name: string, t: Tree): seq<Member>
    decreases t, 0
  {
    WriteHeaders(dir, name, t) + if t.Directory? then TarForest(dir + [name], t.kids) else []
  }

  /** `TarWithoutRootDir` on a directory with these entries, for `dir == []`. */
  function TarForest(dir: Path, f: Forest): seq<Member>
    decreases f, 1
  {
    match f
    case Nil => []
    case Cons(name, node, rest) => TarEntry(dir, name, node) + TarForest(dir, rest)
  }

  // ---------------------------------------------------------------- the reader

  predicate HasWhiteoutPrefix(base: string)
  {
    WHITEOUT <= base
  }

  function Base(p: Path): string
  {
    if p == [] then "/" else p[|p| - 1]
  }

  /** `removePreviousFiles` */
  function RemovePrevious(fs: FS, target: Path, now: Time): Effect
  {
    var base := Base(target);
    var existing := if HasWhiteoutPrefix(base) then Resolve(Parent(target), [base[|WHITEOUT|..]]) else target;
    if existing in fs then RemoveAll(fs, existing, now) else Effect(fs, true)
  }

  /** `readWhiteout` for a name that marks a whiteout or an opaque directory. */
  function ReadWhiteout(fs: FS, m: Member, target: Path, now: Time): Effect
    requires HasWhiteoutPrefix(Base(target))
  {
    var base := Base(target);
    if base == OPAQUE then SetOpaque(fs, Parent(target))
    else MakeWhiteout(fs, Resolve(Parent(target), [base[|WHITEOUT|..]]), m.uid, m.gid, now)
  }

  /** The `switch header.Typeflag` of `Decompress`. */
  function Materialise(fs: FS, m: Member, target: Path, now: Time): Effect
  {
    match m.typ
    case TypeDir => if target in fs then Effect(fs, true) else MkdirAll(fs, target, m.mode, now)
    case TypeReg =>
      var up := MkdirAll(fs, Parent(target), 0x1ED, now);
      if !up.ok then up else WriteFile(up.fs, target, m.mode, m.mtime, m.data, now)
    case TypeOther => Effect(fs, true)
  }

  /** The directories whose times are restored at the end. */
  type DirTimes = seq<(Path, Time)>

  datatype Progress = Progress(fs: FS, dirs: DirTimes, size: nat, ok: bool)

  /** One iteration of the loop of `Decompress`, once the name has passed the guard. */
  function ExtractAt(s: Progress, m: Member, target: Path, now: Time): Progress
  {
    var counted := s.(size := s.size + |m.data|);
    var cleared := RemovePrevious(s.fs, target, now);
    if !cleared.ok then counted.(fs := cleared.fs, ok := false)
    else if HasWhiteoutPrefix(Base(target)) then
      var e := ReadWhiteout(cleared.fs, m, target, now);
      counted.(fs := e.fs, ok := e.ok)
    else
      var e := Materialise(cleared.fs, m, target, now);
      var made := m.typ == TypeDir && target !in cleared.fs && e.ok;
      counted.(fs := e.fs, ok := e.ok, dirs := s.dirs + if made then [(target, m.mtime)] else [])
  }

  /** One iteration of the loop of `Decompress`. */
  function Extract(s: Progress, dst: Path, m: Member, now: Time): Progress
  {
    if !ValidRelPath(m.name) then s.(size := s.size + |m.data|, ok := false)
    else ExtractAt(s, m, Resolve(dst, Split(m.name)), now)
  }

  /** The loop over the members of the stream; `clock(i)` is the time at which member `i` is handled. */
  function ExtractAll(s: Progress, dst: Path, ms: seq<Member>, i: nat, clock: nat -> Time): Progress
    decreases |ms|
  {
    if ms == [] || !s.ok then s else ExtractAll(Extract(s, dst, ms[0], clock(i)), dst, ms[1..], i + 1, clock)
  }

  /** The final loop: restore the directory times. */
  function RestoreTimes(fs: FS, dirs: DirTimes): Effect
    decreases |dirs|
  {
    if dirs == [] then Effect(fs, true)
    else
      var e := Chtimes(fs, dirs[0].0, dirs[0].1);
      if e.ok then RestoreTimes(e.fs, dirs[1..]) else e
  }

  /** `Decompress`, with the total size of the members. */
  function Untar(fs: FS, dst: Path, ms: seq<Member>, clock: nat -> Time): (Effect, nat)
  {
    var made := MkdirAll(fs, dst, 0x1ED, clock(0));
    if !made.ok then (made, 0)
    else
      var s := ExtractAll(Progress(made.fs, [], 0, true), dst, ms, 1, clock);
      if !s.ok then (Effect(s.fs, false), 0)
      else
        var e := RestoreTimes(s.fs, s.dirs);
        (e, if e.ok then s.size else 0)
  }

  /** The machine on which an archive is unpacked. */
  class Disk {
    var nodes: FS

    constructor (nodes: FS)
      ensures this.nodes == nodes
    {
      this.nodes := nodes;
    }

    /** `removePreviousFiles` */
    method RemovePreviousFiles(target: Path, now: Time) returns (ok: bool)
      modifies this
      ensures Effect(nodes, ok) == RemovePrevious(old(nodes), target, now)
    {
      var base, existing := Base(target), target;
      if HasWhiteoutPrefix(base) {
        existing := Resolve(Parent(target), [base[|WHITEOUT|..]]);
      }
      ok := true;
      if existing in nodes {
        var e := RemoveAll(nodes, existing, now);
        nodes, ok := e.fs, e.ok;
      }
    }

    /** `readWhiteout`: whether to go on and write the member itself. */
    method ApplyWhiteout(m: Member, target: Path, now: Time) returns (goon: bool, ok: bool)
      modifies this
      ensures goon <==> !HasWhiteoutPrefix(Base(target))
      ensures goon ==> ok && nodes == old(nodes)
      ensures !goon ==> Effect(nodes, ok) == ReadWhiteout(old(nodes), m, target, now)
    {
      var base := Base(target);
      goon, ok := true, true;
      if base == OPAQUE {
        var e := SetOpaque(nodes, Parent(target));
        nodes, ok, goon := e.fs, e.ok, false;
      } else if HasWhiteoutPrefix(base) {
        var e := MakeWhiteout(nodes, Resolve(Parent(target), [base[|WHITEOUT|..]]), m.uid, m.gid, now);
        nodes, ok, goon := e.fs, e.ok, false;
      }
    }

    /** `Decompress` on an uncompressed stream. */
    method Decompress(dst: Path, stream: seq<Member>, clock: nat -> Time) returns (total: nat, ok: bool)
      modifies this
      ensures (Effect(nodes, ok), total) == Untar(old(nodes), dst, stream, clock)
    {
      total := 0;
      var made := MkdirAll(nodes, dst, 0x1ED, clock(0));
      nodes, ok := made.fs, made.ok;
      if !ok {
        return;
      }
      ghost var start := Progress(nodes, [], 0, true);
      var size: nat, dirs: DirTimes := 0, [];
      for i := 0 to |stream|
        invariant ExtractAll(Progress(nodes, dirs, size, true), dst, stream[i..], i + 1, clock)
               == ExtractAll(start, dst, stream, 1, clock)
      {
        var m, now := stream[i], clock(i + 1);
        ghost var before := Progress(nodes, dirs, size, true);
        assert stream[i..][0] == m && stream[i..][1..] == stream[i + 1..];
        size := size + |m.data|;
        if !ValidRelPath(m.name) {
          ok := false;
          assert Extract(before, dst, m, now) == before.(size := size, ok := false);
          return;
        }
        var target := Resolve(dst, Split(m.name));
        ok := RemovePreviousFiles(target, now);
        if !ok {
          assert !Extract(before, dst, m, now).ok;
          return;
        }
        ghost var cleared := nodes;
        var goon;
        goon, ok := ApplyWhiteout(m, target, now);
        if !ok {
          assert !Extract(before, dst, m, now).ok;
          return;
        }
        if goon {
          match m.typ {
            case TypeDir =>
              if target !in nodes {
                var e := MkdirAll(nodes, target, m.mode, now);
                nodes, ok := e.fs, e.ok;
                if ok {
                  dirs := dirs + [(target, m.mtime)];
                }
              }
            case TypeReg =>
              var up := MkdirAll(nodes, Parent(target), 0x1ED, now);
              nodes, ok := up.fs, up.ok;
              if ok {
                var e := WriteFile(nodes, target, m.mode, m.mtime, m.data, now);
                nodes, ok := e.fs, e.ok;
              }
            case TypeOther =>
          }
        }
        assert Extract(before, dst, m, now) == Progress(nodes, dirs, size, ok);
        if !ok {
          return;
        }
      }
      assert stream[|stream|..] == [];
      ghost var extracted := nodes;
      for k := 0 to |dirs|
        invariant ok && RestoreTimes(nodes, dirs[k..]) == RestoreTimes(extracted, dirs)
      {
        assert dirs[k..][0] == dirs[k] && dirs[k..][1..] == dirs[k + 1..];
        var e := Chtimes(nodes, dirs[k].0, dirs[k].1);
        nodes, ok := e.fs, e.ok;
        if !ok {
          return;
        }
      }
      assert dirs[|dirs|..] == [];
      total := size;
    }
  }
}
