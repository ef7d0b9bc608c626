/**
 The writing side of `utils/archive/compress.go` as it runs: the walk over a directory appends headers to the
 tar stream, and `writeWhiteout` turns the header of an overlay whiteout in place.
 */
module OverlayWriter {
  import opened Options
  import opened Bytes
  import opened Paths
  import opened FileSystem
  import opened Overlay

  /** A `tar.Header`; its name is the path relative to the walked directory. */
  class Header {
    var path: Path
    var typ: Typeflag
    var mode: nat
    var mtime: Time
    var uid: nat
    var gid: nat
    var size: nat

    /** `tar.FileInfoHeader` with the relative name. */
    constructor (path: Path, t: Tree)
      ensures this.path == path && typ == KindOf(t) && mode == PermOf(t) && mtime == TimeOf(t)
      ensures uid == (if t.Device? then t.uid else 0) && gid == (if t.Device? then t.gid else 0)
      ensures size == |ContentOf(t)|
    {
      this.path, typ, mode, mtime := path, KindOf(t), PermOf(t), TimeOf(t);
      uid, gid := if t.Device? then t.uid else 0, if t.Device? then t.gid else 0;
      size := |ContentOf(t)|;
    }

    /** The tar member that starts with this header. */
    function Written(data: seq<byte>): Member
      reads this
    {
      Member(Join(path), typ, mode, mtime, uid, gid, data)
    }
  }

  function KindOf(t: Tree): Typeflag
  {
    match t
    case Regular(_, _, _) => TypeReg
    case Device(_, _) => TypeOther
    case Directory(_, _, _, _) => TypeDir
  }

  function PermOf(t: Tree): nat
  {
    if t.Device? then 0 else t.mode
  }

  function TimeOf(t: Tree): Time
  {
    if t.Device? then 0 else t.mtime
  }

  function ContentOf(t: Tree): seq<byte>
  {
    if t.Regular? then t.data else []
  }

  /** `writeWhiteout`: the header of a whiteout becomes that of an empty regular file under the marked name; for an
      opaque directory the header of its marker is returned. */
  method WriteWhiteout(header: Header, t: Tree) returns (opaqueHeader: Option<Member>)
    requires header.path != []
    modifies header
    ensures t.Device? ==>
              && header.path == Parent(old(header.path)) + [WHITEOUT + Base(old(header.path))]
              && header.mode == 0x180 && header.typ == TypeReg && header.size == 0
    ensures !t.Device? ==>
              header.path == old(header.path) && header.mode == old(header.mode) && header.typ == old(header.typ)
                && header.size == old(header.size)
    ensures header.uid == old(header.uid) && header.gid == old(header.gid) && header.mtime == old(header.mtime)
    ensures opaqueHeader ==
            if t.Directory? && t.isOpaque
            then Some(Member(Join(header.path + [OPAQUE]), TypeReg, header.mode, 0, header.uid, header.gid, []))
            else None
  {
    if t.Device? {
      header.path := Parent(header.path) + [WHITEOUT + Base(header.path)];
      header.mode, header.typ, header.size := 0x180, TypeReg, 0;
    }
    if t.Directory? && t.isOpaque {
      return Some(Member(Join(header.path + [OPAQUE]), TypeReg, header.mode, 0, header.uid, header.gid, []));
    }
    return None;
  }

  lemma Associate(a: seq<Member>, b: seq<Member>, c: seq<Member>)
    ensures a + (b + c) == a + b + c
  {
  }

  class TarWriter {
    var stream: seq<Member>

    constructor ()
      ensures stream == []
    {
      stream := [];
    }

    /** The function `writeToTarWriter` passes to `filepath.Walk`, for one entry. */
    method WriteEntry(dir: Path, name: string, t: Tree)
      modifies this
      ensures stream == old(stream) + WriteHeaders(dir, name, t)
    {
      var header := new Header(dir + [name], t);
      assert Parent(dir + [name]) == dir && Base(dir + [name]) == name;
      var marker := WriteWhiteout(header, t);
      stream := stream + [header.Written(if header.typ == TypeReg && header.size > 0 then ContentOf(t) else [])];
      if marker.Some? {
        assert dir + [name] + [OPAQUE] == dir + [name, OPAQUE];
        stream := stream + [marker.value];
      }
    }

    /** `filepath.Walk` below one entry. */
    method Walk(dir: Path, name: string, t: Tree)
      modifies this
      ensures stream == old(stream) + TarEntry(dir, name, t)
      decreases t, 0
    {
      Associate(stream, WriteHeaders(dir, name, t), if t.Directory? then TarForest(dir + [name], t.kids) else []);
      WriteEntry(dir, name, t);
      if t.Directory? {
        WalkEntries(dir + [name], t.kids);
      }
    }

    /** `writeToTarWriter` without the root directory, when `dir` is empty. */
    method WalkEntries(dir: Path, f: Forest)
      modifies this
      ensures stream == old(stream) + TarForest(dir, f)
      decreases f, 1
    {
      var rest := f;
      while rest.Cons?
        invariant stream + TarForest(dir, rest) == old(stream) + TarForest(dir, f)
        invariant rest == f || rest < f
        decreases rest
      {
        Associate(stream, TarEntry(dir, rest.name, rest.node), TarForest(dir, rest.rest));
        Walk(dir, rest.name, rest.node);
        rest := rest.rest;
      }
    }
  }
}
