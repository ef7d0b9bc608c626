/**
 The buffered file writer of the image store (`pkg/image/save/filesystem.go`): a `bufio.Writer` over a file
 whose every operation may fail, and `PutContent` on top of it.
 */
module FileWriter {
  import opened Options
  import opened Bytes

  const CAPACITY := 4096

  /** The n-th file operation: a write stores at most so many bytes and may report an error, any other one
      succeeds or not. */
  datatype Faults = Faults(stores: nat -> nat, writeFails: nat -> bool, succeeds: nat -> bool)

  /** A `bufio.Writer` and the file behind it: `failed` is the error the writer keeps. */
  datatype Buf = Buf(disk: seq<byte>, buffer: seq<byte>, failed: bool, handle: bool, clock: nat)

  /** `present`: the file still has its name. */
  datatype Writer = Writer(buf: Buf, size: nat, present: bool, closed: bool, committed: bool, cancelled: bool)

  // ---------------------------------------------------------------- the file

  function Min(a: nat, b: nat): nat
  {
    if a <= b then a else b
  }

  /** `File.Write`: the new state, the bytes written, and whether there was no error. */
  function FileWrite(s: Buf, p: seq<byte>, f: Faults): (r: (Buf, nat, bool))
    ensures r.1 <= |p| && (r.1 < |p| ==> !r.2)
  {
    if !s.handle then (s, 0, false)
    else
      var n := Min(f.stores(s.clock), |p|);
      (s.(disk := s.disk + p[..n], clock := s.clock + 1), n, !f.writeFails(s.clock) && n == |p|)
  }

  /** `File.Sync` */
  function Sync(s: Buf, f: Faults): (Buf, bool)
  {
    (s.(clock := s.clock + 1), s.handle && f.succeeds(s.clock))
  }

  /** `File.Close`: the handle is gone whether or not it succeeds. */
  function CloseFile(s: Buf, f: Faults): (Buf, bool)
  {
    (s.(handle := false, clock := s.clock + 1), s.handle && f.succeeds(s.clock))
  }

  // ---------------------------------------------------------------- bufio.Writer

  /** `bufio.Writer.Flush` */
  function Flush(s: Buf, f: Faults): (Buf, bool)
  {
    if s.failed then (s, false)
    else if s.buffer == [] then (s, true)
    else
      var (t, n, ok) := FileWrite(s, s.buffer, f);
      if ok then (t.(buffer := []), true) else (t.(buffer := s.buffer[n..], failed := true), false)
  }

  ghost predicate Fits(s: Buf)
  {
    |s.buffer| <= CAPACITY
  }

  lemma FlushFits(s: Buf, f: Faults)
    requires Fits(s)
    ensures Fits(Flush(s, f).0) && |Flush(s, f).0.buffer| <= |s.buffer|
    ensures Flush(s, f).1 ==> Flush(s, f).0.buffer == []
    ensures !Flush(s, f).1 ==> Flush(s, f).0.failed
  {
  }

  /** One turn of the loop of `bufio.Writer.Write`: how many bytes it takes from a text longer than the space
      left. */
  function Turn(s: Buf, p: seq<byte>, f: Faults): (r: (Buf, nat))
    requires Fits(s) && !s.failed && |p| > CAPACITY - |s.buffer|
    ensures r.1 <= |p| && Fits(r.0)
    ensures r.0.failed || r.1 == |p| || r.0.buffer == []
    ensures !r.0.failed && s.buffer == [] ==> r.1 == |p|
  {
    if s.buffer == [] then
      var (t, n, ok) := FileWrite(s, p, f);
      (t.(failed := !ok), n)
    else
      var n := CAPACITY - |s.buffer|;
      var filled := s.(buffer := s.buffer + p[..n]);
      FlushFits(filled, f);
      (Flush(filled, f).0, n)
  }

  /** `bufio.Writer.Write` after `taken` bytes: the new state, the number of bytes taken in all, and whether there
      was no error. */
  function Buffered(s: Buf, p: seq<byte>, taken: nat, f: Faults): (r: (Buf, nat, bool))
    requires Fits(s)
    ensures taken <= r.1 <= taken + |p| && Fits(r.0)
    decreases |p|, |s.buffer|
  {
    if s.failed then (s, taken, false)
    else if |p| <= CAPACITY - |s.buffer| then (s.(buffer := s.buffer + p), taken + |p|, true)
    else
      var (t, n) := Turn(s, p, f);
      if t.failed then (t, taken + n, false) else Buffered(t, p[n..], taken + n, f)
  }

  lemma BufferedTurn(s: Buf, p: seq<byte>, taken: nat, f: Faults)
    requires Fits(s) && !s.failed && |p| > CAPACITY - |s.buffer|
    ensures var (t, k) := Turn(s, p, f); Buffered(s, p, taken, f) == Buffered(t, p[k..], taken + k, f)
  {
  }

  // ---------------------------------------------------------------- fileWriter

  datatype Op = Write(p: seq<byte>) | Commit | Close | Cancel

  function Written(s: Writer, p: seq<byte>, f: Faults): (r: (Writer, nat, bool))
    requires Fits(s.buf)
    ensures r.1 <= |p| && Fits(r.0.buf)
  {
    if s.closed || s.committed || s.cancelled then (s, 0, false)
    else
      var (t, n, ok) := Buffered(s.buf, p, 0, f);
      (s.(buf := t, size := s.size + n), n, ok)
  }

  /** A flush followed by a sync. */
  function Synced(s: Buf, f: Faults): (Buf, bool)
  {
    var (t, flushed) := Flush(s, f);
    if flushed then Sync(t, f) else (t, false)
  }

  function Committed(s: Writer, f: Faults): (Writer, bool)
  {
    if s.closed || s.committed || s.cancelled then (s, false)
    else
      var (t, ok) := Synced(s.buf, f);
      (s.(buf := t, committed := ok), ok)
  }

  function Closed(s: Writer, f: Faults): (Writer, bool)
  {
    if s.closed then (s, false)
    else
      var (t, synced) := Synced(s.buf, f);
      if !synced then (s.(buf := t), false)
      else
        var (u, ok) := CloseFile(t, f);
        (s.(buf := u, closed := ok), ok)
  }

  function Cancelled(s: Writer, f: Faults): (Writer, bool)
  {
    if s.closed then (s, false)
    else
      var (t, done) := CloseFile(s.buf, f);
      if !done then (s.(buf := t, cancelled := true), false)
      else
        var removed := s.present && f.succeeds(t.clock);
        (s.(buf := t.(clock := t.clock + 1), cancelled := true, present := s.present && !removed), removed)
  }

  lemma SyncedFits(s: Buf, f: Faults)
    requires Fits(s)
    ensures Fits(Synced(s, f).0)
  {
    FlushFits(s, f);
  }

  /** One call: the new state, the bytes it accepted, and whether it succeeded. */
  function Step(s: Writer, op: Op, f: Faults): (r: (Writer, seq<byte>, bool))
    requires Fits(s.buf)
    ensures Fits(r.0.buf)
  {
    SyncedFits(s.buf, f);
    match op
    case Write(p) =>
      var (t, n, ok) := Written(s, p, f);
      (t, p[..n], ok)
    case Commit =>
      var (t, ok) := Committed(s, f);
      (t, [], ok)
    case Close =>
      var (t, ok) := Closed(s, f);
      (t, [], ok)
    case Cancel =>
      var (t, ok) := Cancelled(s, f);
      (t, [], ok)
  }

  /** `newFileWriter` on a file with some content, positioned at its end. */
  function Open(base: seq<byte>): Writer
  {
    Writer(Buf(base, [], false, true, 0), |base|, true, false, false, false)
  }

  /** A sequence of calls: the last state and all bytes accepted, in order. */
  function Run(s: Writer, ops: seq<Op>, f: Faults): (r: (Writer, seq<byte>))
    requires Fits(s.buf)
    ensures Fits(r.0.buf)
  {
    if ops == [] then (s, [])
    else
      var (t, bytes) := Run(s, ops[..|ops| - 1], f);
      var (u, more, _) := Step(t, ops[|ops| - 1], f);
      (u, bytes + more)
  }

  // ---------------------------------------------------------------- the object

  class FileWriter {
    var file: seq<byte>
    var handle: bool
    var present: bool
    var size: nat
    var buffer: seq<byte>
    var failed: bool
    var closed: bool
    var committed: bool
    var cancelled: bool
    var clock: nat
    const faults: Faults

    function Inner(): Buf
      reads this
    {
      Buf(file, buffer, failed, handle, clock)
    }

    function View(): Writer
      reads this
    {
      Writer(Inner(), size, present, closed, committed, cancelled)
    }

    constructor (base: seq<byte>, faults: Faults)
      ensures View() == Open(base) && this.faults == faults
    {
      file, handle, present, size := base, true, true, |base|;
      buffer, failed, closed, committed, cancelled, clock := [], false, false, false, false, 0;
      this.faults := faults;
    }

    method WriteFile(p: seq<byte>) returns (n: nat, ok: bool)
      modifies this`file, this`clock
      ensures (Inner(), n, ok) == FileWrite(old(Inner()), p, faults)
    {
      if !handle {
        return 0, false;
      }
      n := Min(faults.stores(clock), |p|);
      ok := !faults.writeFails(clock) && n == |p|;
      file := file + p[..n];
      clock := clock + 1;
    }

    method FlushBuffer() returns (ok: bool)
      modifies this`file, this`clock, this`buffer, this`failed
      ensures (Inner(), ok) == Flush(old(Inner()), faults)
    {
      if failed {
        return false;
      }
      if buffer == [] {
        return true;
      }
      var n;
      n, ok := WriteFile(buffer);
      if ok {
        buffer := [];
      } else {
        buffer, failed := buffer[n..], true;
      }
    }

    method FlushAndSync() returns (ok: bool)
      modifies this`file, this`clock, this`buffer, this`failed
      ensures (Inner(), ok) == Synced(old(Inner()), faults)
    {
      ok := FlushBuffer();
      if ok {
        ok := handle && faults.succeeds(clock);
        clock := clock + 1;
      }
    }

    method CloseHandle() returns (ok: bool)
      modifies this`clock, this`handle
      ensures (Inner(), ok) == CloseFile(old(Inner()), faults)
    {
      ok := handle && faults.succeeds(clock);
      handle, clock := false, clock + 1;
    }

    /** One turn of the loop of `bufio.Writer.Write`. */
    method TakeTurn(p: seq<byte>, taken: nat) returns (total: nat, rest: seq<byte>)
      requires Fits(Inner()) && !failed && |p| > CAPACITY - |buffer|
      modifies this`file, this`clock, this`buffer, this`failed
      ensures Fits(Inner()) && Buffered(Inner(), rest, total, faults) == Buffered(old(Inner()), p, taken, faults)
      ensures failed || |rest| < |p| || (|rest| == |p| && |buffer| < old(|buffer|))
    {
      var k := FillOrWrite(p);
      BufferedTurn(old(Inner()), p, taken, faults);
      return taken + k, p[k..];
    }

    method FillOrWrite(p: seq<byte>) returns (k: nat)
      requires Fits(Inner()) && !failed && |p| > CAPACITY - |buffer|
      modifies this`file, this`clock, this`buffer, this`failed
      ensures (Inner(), k) == Turn(old(Inner()), p, faults)
    {
      if buffer == [] {
        var ok;
        k, ok := WriteFile(p);
        failed := !ok;
      } else {
        k := CAPACITY - |buffer|;
        buffer := buffer + p[..k];
        var _ := FlushBuffer();
      }
    }

    /** `bufio.Writer.Write` */
    method WriteBuffered(p: seq<byte>) returns (n: nat, ok: bool)
      requires Fits(Inner())
      modifies this`file, this`clock, this`buffer, this`failed
      ensures (Inner(), n, ok) == Buffered(old(Inner()), p, 0, faults)
    {
      n := 0;
      var rest := p;
      while |rest| > CAPACITY - |buffer| && !failed
        invariant Fits(Inner())
        invariant Buffered(old(Inner()), p, 0, faults) == Buffered(Inner(), rest, n, faults)
        decreases if failed then 0 else 1, |rest|, |buffer|
      {
        n, rest := TakeTurn(rest, n);
      }
      if failed {
        return n, false;
      }
      buffer := buffer + rest;
      return n + |rest|, true;
    }

    /** `Write` */
    method Write(p: seq<byte>) returns (n: nat, ok: bool)
      requires Fits(Inner())
      modifies this`file, this`clock, this`buffer, this`failed, this`size
      ensures (View(), n, ok) == Written(old(View()), p, faults)
    {
      if closed || committed || cancelled {
        return 0, false;
      }
      n, ok := WriteBuffered(p);
      size := size + n;
    }

    /** `Commit` */
    method Commit() returns (ok: bool)
      modifies this`file, this`clock, this`buffer, this`failed, this`committed
      ensures (View(), ok) == Committed(old(View()), faults)
    {
      if closed || committed || cancelled {
        return false;
      }
      ok := FlushAndSync();
      if ok {
        committed := true;
      }
    }

    /** `Close` */
    method Close() returns (ok: bool)
      modifies this`file, this`clock, this`buffer, this`failed, this`handle, this`closed
      ensures (View(), ok) == Closed(old(View()), faults)
    {
      if closed {
        return false;
      }
      ok := FlushAndSync();
      if ok {
        ok := CloseHandle();
        if ok {
          closed := true;
        }
      }
    }

    /** `Cancel` */
    method Cancel() returns (ok: bool)
      modifies this`clock, this`handle, this`cancelled, this`present
      ensures (View(), ok) == Cancelled(old(View()), faults)
    {
      if closed {
        return false;
      }
      cancelled := true;
      ok := CloseHandle();
      if !ok {
        return;
      }
      ok := present && faults.succeeds(clock);
      present, clock := present && !ok, clock + 1;
    }

    /** `io.Copy` into this writer. */
    method Copy(contents: seq<byte>) returns (ok: bool)
      requires View() == Open([])
      modifies this`file, this`clock, this`buffer, this`failed, this`size
      ensures (View(), ok) == Copied(contents, faults)
    {
      if contents == [] {
        return true;
      }
      var n;
      n, ok := Write(contents);
      ok := ok && n == |contents|;
    }

    /** The commit or cancel after the copy, and the deferred close. */
    method Finish(copied: bool) returns (done: bool, closed: bool)
      modifies this
      ensures (View(), done, closed) == Finished(old(View()), copied, faults)
    {
      if copied {
        done := Commit();
      } else {
        done := Cancel();
      }
      closed := Close();
    }
  }

  // ---------------------------------------------------------------- nothing is lost or reordered

  lemma FlushConserves(s: Buf, f: Faults)
    ensures Flush(s, f).0.disk + Flush(s, f).0.buffer == s.disk + s.buffer
  {
  }

  lemma TurnConserves(s: Buf, p: seq<byte>, f: Faults)
    requires Fits(s) && !s.failed && |p| > CAPACITY - |s.buffer|
    ensures var (t, k) := Turn(s, p, f); t.disk + t.buffer == s.disk + s.buffer + p[..k]
  {
    if s.buffer != [] {
      var n := CAPACITY - |s.buffer|;
      FlushConserves(s.(buffer := s.buffer + p[..n]), f);
    }
  }

  /** A buffered write takes a prefix of `p`, all of it unless there was an error. */
  ghost predicate Takes(s: Buf, p: seq<byte>, taken: nat, r: (Buf, nat, bool))
  {
    && taken <= r.1 <= taken + |p|
    && r.0.disk + r.0.buffer == s.disk + s.buffer + p[..r.1 - taken]
    && (r.2 ==> r.1 == taken + |p|)
    && (r.2 <==> !r.0.failed)
  }

  lemma TakesAfter(s: Buf, p: seq<byte>, taken: nat, t: Buf, k: nat, r: (Buf, nat, bool))
    requires k <= |p| && t.disk + t.buffer == s.disk + s.buffer + p[..k] && Takes(t, p[k..], taken + k, r)
    ensures Takes(s, p, taken, r)
  {
    var m := r.1 - taken;
    assert p[..k] + p[k..][..m - k] == p[..m];
  }

  lemma TakesAtEnd(s: Buf, p: seq<byte>, taken: nat, f: Faults)
    requires Fits(s) && (s.failed || |p| <= CAPACITY - |s.buffer|)
    ensures Takes(s, p, taken, Buffered(s, p, taken, f))
  {
    assert p[..|p|] == p;
  }

  lemma {:induction false} BufferedConserves(s: Buf, p: seq<byte>, taken: nat, f: Faults)
    requires Fits(s)
    ensures Takes(s, p, taken, Buffered(s, p, taken, f))
    decreases if s.failed then 0 else 1, |p|, |s.buffer|
  {
    if s.failed || |p| <= CAPACITY - |s.buffer| {
      TakesAtEnd(s, p, taken, f);
    } else {
      var (t, k) := Turn(s, p, f);
      TurnConserves(s, p, f);
      BufferedTurn(s, p, taken, f);
      BufferedConserves(t, p[k..], taken + k, f);
      TakesAfter(s, p, taken, t, k, Buffered(t, p[k..], taken + k, f));
    }
  }

  /** Disk and buffer together hold the base and the accepted bytes in order, and the size counts them. */
  ghost predicate Conserved(base: seq<byte>, accepted: seq<byte>, s: Writer)
  {
    s.buf.disk + s.buf.buffer == base + accepted && s.size == |base| + |accepted|
  }

  lemma WrittenConserves(base: seq<byte>, accepted: seq<byte>, s: Writer, p: seq<byte>, f: Faults)
    requires Fits(s.buf) && Conserved(base, accepted, s)
    ensures var (t, n, _) := Written(s, p, f); Conserved(base, accepted + p[..n], t)
  {
    BufferedConserves(s.buf, p, 0, f);
    var n := Written(s, p, f).1;
    assert base + accepted + p[..n] == base + (accepted + p[..n]);
    assert p[..0] == [] && accepted + [] == accepted;
  }

  lemma StepConserves(base: seq<byte>, accepted: seq<byte>, s: Writer, op: Op, f: Faults)
    requires Fits(s.buf) && Conserved(base, accepted, s)
    ensures var (t, more, _) := Step(s, op, f); Conserved(base, accepted + more, t)
  {
    if op.Write? {
      WrittenConserves(base, accepted, s, op.p, f);
    } else {
      FlushConserves(s.buf, f);
      assert accepted + [] == accepted;
    }
  }

  /** Over every sequence of calls and whatever file operations fail, disk plus buffer is the base content plus
      the accepted bytes in order, and the size is the start offset plus their number. */
  lemma {:induction false} NothingIsLost(base: seq<byte>, ops: seq<Op>, f: Faults)
    ensures var (s, accepted) := Run(Open(base), ops, f); Conserved(base, accepted, s)
  {
    if ops == [] {
      assert base + [] == base;
    } else {
      var front := ops[..|ops| - 1];
      NothingIsLost(base, front, f);
      var (s, accepted) := Run(Open(base), front, f);
      StepConserves(base, accepted, s, ops[|ops| - 1], f);
    }
  }

  // ---------------------------------------------------------------- commit is final

  /** Committed, with nothing left to write. */
  ghost predicate Final(s: Writer, disk: seq<byte>)
  {
    s.committed && s.buf.buffer == [] && s.buf.disk == disk
  }

  lemma StepFinal(s: Writer, op: Op, disk: seq<byte>, f: Faults)
    requires Fits(s.buf) && Final(s, disk) && op != Cancel
    ensures var (t, more, _) := Step(s, op, f);
            Final(t, disk) && more == [] && t.size == s.size && t.present == s.present
  {
  }

  lemma {:induction false} FinalStays(s: Writer, ops: seq<Op>, disk: seq<byte>, f: Faults)
    requires Fits(s.buf) && Final(s, disk) && Cancel !in ops
    ensures var (t, more) := Run(s, ops, f); Final(t, disk) && more == [] && t.size == s.size && t.present == s.present
  {
    if ops != [] {
      var front := ops[..|ops| - 1];
      FinalStays(s, front, disk, f);
      assert ops[|ops| - 1] in ops;
      StepFinal(Run(s, front, f).0, ops[|ops| - 1], disk, f);
    }
  }

  /** After a successful `Commit` the disk holds every accepted byte, and no later `Write`, `Commit` or `Close`
      changes it. */
  lemma CommitIsFinal(base: seq<byte>, ops: seq<Op>, more: seq<Op>, f: Faults)
    requires Step(Run(Open(base), ops, f).0, Commit, f).2 && Cancel !in more
    ensures var (s, accepted), (t, late) := Run(Open(base), ops, f),
            Run(Step(Run(Open(base), ops, f).0, Commit, f).0, more, f);
            t.buf.disk == base + accepted && t.size == |base| + |accepted| && late == []
  {
    var (s, accepted) := Run(Open(base), ops, f);
    NothingIsLost(base, ops, f);
    StepConserves(base, accepted, s, Commit, f);
    FlushFits(s.buf, f);
    var t := Step(s, Commit, f).0;
    assert t.buf.buffer == [];
    assert t.buf.disk + t.buf.buffer == t.buf.disk && accepted + [] == accepted;
    FinalStays(t, more, base + accepted, f);
  }

  // ---------------------------------------------------------------- close, and what is refused

  lemma SyncedEmpties(s: Buf, f: Faults)
    requires Fits(s) && Synced(s, f).1
    ensures Synced(s, f).0.disk == s.disk + s.buffer && Synced(s, f).0.buffer == []
  {
    FlushConserves(s, f);
    FlushFits(s, f);
  }

  lemma ClosedRefuses(s: Writer, op: Op, f: Faults)
    requires Fits(s.buf) && s.closed
    ensures Step(s, op, f) == (s, [], false)
  {
    if op.Write? {
      assert op.p[..0] == [];
    }
  }

  lemma {:induction false} ClosedStays(s: Writer, ops: seq<Op>, f: Faults)
    requires Fits(s.buf) && s.closed
    ensures Run(s, ops, f) == (s, [])
  {
    if ops != [] {
      ClosedStays(s, ops[..|ops| - 1], f);
      ClosedRefuses(s, ops[|ops| - 1], f);
      var (_, bytes) := Run(s, ops[..|ops| - 1], f);
      var (_, more, _) := Step(s, ops[|ops| - 1], f);
      assert bytes + more == [];
    }
  }

  /** After a `Close` that succeeds the disk holds the base and every accepted byte and the buffer is empty, and from
      then on every call, a `Cancel` too, is refused and changes nothing. */
  lemma CloseIsFinal(base: seq<byte>, ops: seq<Op>, more: seq<Op>, last: Op, f: Faults)
    requires Step(Run(Open(base), ops, f).0, Close, f).2
    ensures var (s, accepted), t := Run(Open(base), ops, f), Step(Run(Open(base), ops, f).0, Close, f).0;
            && t.buf.disk == base + accepted && t.buf.buffer == [] && t.size == |base| + |accepted|
            && t.present == s.present && !t.buf.handle
            && Run(t, more, f) == (t, []) && Step(t, last, f) == (t, [], false)
  {
    var (s, accepted) := Run(Open(base), ops, f);
    NothingIsLost(base, ops, f);
    SyncedEmpties(s.buf, f);
    var t := Step(s, Close, f).0;
    ClosedStays(t, more, f);
    ClosedRefuses(t, last, f);
  }

  /** Once committed, cancelled or closed, a writer refuses to write and to commit. */
  lemma SealedRefuses(s: Writer, p: seq<byte>, f: Faults)
    requires Fits(s.buf) && (s.closed || s.committed || s.cancelled)
    ensures Step(s, Write(p), f) == (s, [], false) && Step(s, Commit, f) == (s, [], false)
  {
    assert p[..0] == [];
  }

  /** `Commit` and `Close` work exactly when the writer allows them and every operation on the way works, and only then
      they seal it. */
  lemma CommitAndCloseExactly(s: Writer, f: Faults)
    requires Fits(s.buf)
    ensures var (t, _, ok) := Step(s, Commit, f);
            && (ok <==> !s.closed && !s.committed && !s.cancelled && Flush(s.buf, f).1 && s.buf.handle
                        && f.succeeds(Flush(s.buf, f).0.clock))
            && (t.committed <==> s.committed || ok) && t.closed == s.closed && t.cancelled == s.cancelled
            && t.present == s.present
    ensures var (t, _, ok) := Step(s, Close, f);
            && (ok <==> !s.closed && Flush(s.buf, f).1 && s.buf.handle && f.succeeds(Flush(s.buf, f).0.clock)
                        && f.succeeds(Flush(s.buf, f).0.clock + 1))
            && (t.closed <==> s.closed || ok) && t.committed == s.committed && t.cancelled == s.cancelled
            && t.present == s.present
  {
  }

  /** `Cancel` works exactly when the writer is not closed, its file closes, and the name can be removed; the name is
      gone exactly then.  It never touches the content, and unless the writer was closed it seals it in any case. */
  lemma CancelExactly(s: Writer, f: Faults)
    requires Fits(s.buf)
    ensures var (t, more, ok) := Step(s, Cancel, f);
            && (ok <==> !s.closed && s.buf.handle && f.succeeds(s.buf.clock)
                        && s.present && f.succeeds(s.buf.clock + 1))
            && (t.present <==> s.present && !ok) && more == []
            && t.buf.disk == s.buf.disk && t.size == s.size && t.closed == s.closed && t.committed == s.committed
            && (if s.closed then t == s else t.cancelled && !t.buf.handle)
  {
  }

  /** A write that fits into the buffer of 4096 bytes does not touch the file. */
  lemma SmallWriteStays(s: Writer, p: seq<byte>, f: Faults)
    requires Fits(s.buf) && !s.buf.failed && !s.closed && !s.committed && !s.cancelled
    requires |s.buf.buffer| + |p| <= 4096
    ensures Step(s, Write(p), f) ==
            (s.(buf := s.buf.(buffer := s.buf.buffer + p), size := s.size + |p|), p, true)
  {
    assert p[..|p|] == p;
  }

  // ---------------------------------------------------------------- when nothing fails

  ghost predicate NoFaults(f: Faults)
  {
    forall i: nat :: f.stores(i) >= 0x1_0000_0000_0000_0000 && !f.writeFails(i) && f.succeeds(i)
  }

  lemma {:induction false} HealthyWrite(s: Buf, p: seq<byte>, taken: nat, f: Faults)
    requires Fits(s) && NoFaults(f) && s.handle && !s.failed && |p| < 0x1_0000_0000_0000_0000
    ensures Buffered(s, p, taken, f).2 && Buffered(s, p, taken, f).0.handle
    decreases |p|, |s.buffer|
  {
    if |p| > CAPACITY - |s.buffer| {
      var (t, k) := Turn(s, p, f);
      BufferedTurn(s, p, taken, f);
      HealthyWrite(t, p[k..], taken + k, f);
    }
  }

  function Texts(ps: seq<seq<byte>>): seq<byte>
  {
    if ps == [] then [] else Texts(ps[..|ps| - 1]) + ps[|ps| - 1]
  }

  function Writes(ps: seq<seq<byte>>): (ops: seq<Op>)
    ensures |ops| == |ps|
  {
    seq(|ps|, i requires 0 <= i < |ps| => Write(ps[i]))
  }

  /** Open for writing, with nothing gone wrong. */
  ghost predicate Usable(s: Writer)
  {
    && Fits(s.buf) && s.buf.handle && !s.buf.failed && s.present && !s.closed && !s.committed && !s.cancelled
  }

  lemma UsableWrite(s: Writer, p: seq<byte>, f: Faults)
    requires Usable(s) && NoFaults(f) && |p| < 0x1_0000_0000_0000_0000
    ensures Step(s, Write(p), f).1 == p && Step(s, Write(p), f).2 && Usable(Step(s, Write(p), f).0)
  {
    HealthyWrite(s.buf, p, 0, f);
    BufferedConserves(s.buf, p, 0, f);
    assert p[..|p|] == p;
  }

  lemma {:induction false} HealthyWrites(base: seq<byte>, ps: seq<seq<byte>>, f: Faults)
    requires NoFaults(f) && forall i :: 0 <= i < |ps| ==> |ps[i]| < 0x1_0000_0000_0000_0000
    ensures Run(Open(base), Writes(ps), f).1 == Texts(ps) && Usable(Run(Open(base), Writes(ps), f).0)
    decreases |ps|
  {
    if ps != [] {
      var front := ps[..|ps| - 1];
      assert Writes(ps)[..|ps| - 1] == Writes(front);
      HealthyWrites(base, front, f);
      UsableWrite(Run(Open(base), Writes(front), f).0, ps[|ps| - 1], f);
    }
  }

  /** When nothing fails, any texts can be written, committed and closed, and then the file holds the base and the texts
      in order. */
  lemma HealthyWriterStores(base: seq<byte>, ps: seq<seq<byte>>, f: Faults)
    requires NoFaults(f) && forall i :: 0 <= i < |ps| ==> |ps[i]| < 0x1_0000_0000_0000_0000
    ensures var s := Run(Open(base), Writes(ps), f).0;
            var (t, _, committed) := Step(s, Commit, f);
            var (u, _, closed) := Step(t, Close, f);
            && committed && t.committed && closed && u.closed && u.present
            && u.buf.disk == base + Texts(ps) && u.buf.buffer == [] && u.size == |base| + |Texts(ps)|
  {
    HealthyWrites(base, ps, f);
    var s := Run(Open(base), Writes(ps), f).0;
    NothingIsLost(base, Writes(ps), f);
    SyncedEmpties(s.buf, f);
    StepConserves(base, Texts(ps), s, Commit, f);
    var t := Step(s, Commit, f).0;
    assert t.buf.buffer == [] && t.buf.disk + [] == t.buf.disk;
    assert Texts(ps) + [] == Texts(ps);
    StepConserves(base, Texts(ps), t, Close, f);
  }

  // ---------------------------------------------------------------- PutContent and GetContent

  /** The operations before the writer exists: opening, truncating, and the close after a failed truncation. */
  datatype OpenFaults = OpenFaults(opens: bool, truncates: bool, closes: bool)

  /** `Crashed`: the process panics or exits. */
  datatype Status = Stored | Refused | Crashed

  /** `io.Copy` from a byte reader: a single `Write`, or none for no bytes. */
  function Copied(contents: seq<byte>, f: Faults): (r: (Writer, bool))
    ensures Fits(r.0.buf)
  {
    if contents == [] then (Open([]), true)
    else
      var (s, n, ok) := Written(Open([]), contents, f);
      (s, ok && n == |contents|)
  }

  /** `PutContent` over a file that exists or not: its new content and the result. */
  function Finished(s: Writer, copied: bool, f: Faults): (Writer, bool, bool)
  {
    var (t, ok) := if copied then Committed(s, f) else Cancelled(s, f);
    var (u, closed) := Closed(t, f);
    (u, ok, closed)
  }

  function Put(before: Option<seq<byte>>, contents: seq<byte>, o: OpenFaults, f: Faults): (Option<seq<byte>>, Status)
  {
    if !o.opens then (before, Refused)
    else if !o.truncates then (Some(if before.Some? then before.value else []), if o.closes then Crashed else Refused)
    else
      var (s, copied) := Copied(contents, f);
      var (u, ok, closed) := Finished(s, copied, f);
      (if u.present then Some(u.buf.disk) else None, if !closed then Crashed else if ok then Stored else Refused)
  }

  class Driver {
    var files: map<string, seq<byte>>

    function Content(path: string): Option<seq<byte>>
      reads this
    {
      if path in files then Some(files[path]) else None
    }

    /** `PutContent` */
    method PutContent(path: string, contents: seq<byte>, o: OpenFaults, f: Faults) returns (status: Status)
      modifies this
      ensures (Content(path), status) == Put(old(Content(path)), contents, o, f)
      ensures forall q :: q != path ==> Content(q) == old(Content(q))
    {
      if !o.opens {
        return Refused;
      }
      if path !in files {
        files := files[path := []];
      }
      if !o.truncates {
        return if o.closes then Crashed else Refused;
      }
      var w := new FileWriter([], f);
      var copied := w.Copy(contents);
      var done, closed := w.Finish(copied);
      files := if w.present then files[path := w.file] else files - {path};
      status := if !closed then Crashed else if done then Stored else Refused;
    }

    /** `GetContent` when no file operation fails. */
    method GetContent(path: string) returns (r: Option<seq<byte>>)
      ensures r == Content(path)
    {
      r := if path in files then Some(files[path]) else None;
    }
  }

  lemma CopiedConserves(contents: seq<byte>, f: Faults)
    ensures var (s, ok) := Copied(contents, f);
            ok ==> s.buf.disk + s.buf.buffer == contents && !s.buf.failed && s.present
    ensures var (s, ok) := Copied(contents, f); !ok ==> s.buf.failed && !s.closed
  {
    BufferedConserves(Open([]).buf, contents, 0, f);
    assert contents[..|contents|] == contents;
  }

  lemma HealthyFinish(s: Writer, f: Faults)
    requires Fits(s.buf) && NoFaults(f) && s.buf.handle && !s.buf.failed && !s.closed && !s.committed && !s.cancelled
    ensures Finished(s, true, f).1 && Finished(s, true, f).2
  {
  }

  lemma FinishStores(s: Writer, f: Faults)
    requires Fits(s.buf) && Finished(s, true, f).1
    ensures Finished(s, true, f).0.buf.disk == s.buf.disk + s.buf.buffer && Finished(s, true, f).0.present == s.present
  {
    FlushConserves(s.buf, f);
    FlushFits(s.buf, f);
  }

  lemma FailedCopyDoesNotClose(s: Writer, f: Faults)
    requires s.buf.failed
    ensures !Finished(s, false, f).2
  {
  }

  /** When `PutContent` reports success, whatever failed on the way, `GetContent` returns exactly the contents; and
      it does report success when nothing fails. */
  lemma PutThenGet(before: Option<seq<byte>>, contents: seq<byte>, o: OpenFaults, f: Faults)
    ensures Put(before, contents, o, f).1 == Stored ==> Put(before, contents, o, f).0 == Some(contents)
    ensures o.opens && o.truncates && NoFaults(f) && |contents| < 0x1_0000_0000_0000_0000 ==>
            Put(before, contents, o, f).1 == Stored
  {
    CopiedConserves(contents, f);
    var (s, copied) := Copied(contents, f);
    if !copied {
      FailedCopyDoesNotClose(s, f);
    } else if Finished(s, true, f).1 {
      FinishStores(s, f);
    }
    if NoFaults(f) && |contents| < 0x1_0000_0000_0000_0000 {
      HealthyWrite(Open([]).buf, contents, 0, f);
      BufferedConserves(Open([]).buf, contents, 0, f);
      HealthyFinish(s, f);
    }
  }

  /** A copy that fails never gets reported: the deferred `Close` fails on the closed file, and that ends the
      process. */
  lemma FailedCopyCrashes(before: Option<seq<byte>>, contents: seq<byte>, o: OpenFaults, f: Faults)
    requires o.opens && o.truncates && !Copied(contents, f).1
    ensures Put(before, contents, o, f).1 == Crashed
  {
    CopiedConserves(contents, f);
  }

  lemma CopiedKeepsName(contents: seq<byte>, f: Faults)
    ensures Copied(contents, f).0.present && !Copied(contents, f).0.closed && !Copied(contents, f).0.committed
            && !Copied(contents, f).0.cancelled
  {
  }

  lemma CopiedPrefix(contents: seq<byte>, f: Faults)
    ensures var s := Copied(contents, f).0.buf; s.disk + s.buffer <= contents
  {
    BufferedConserves(Open([]).buf, contents, 0, f);
  }

  lemma CommittedKeeps(s: Writer, f: Faults)
    ensures Committed(s, f).0.buf.disk + Committed(s, f).0.buf.buffer == s.buf.disk + s.buf.buffer
  {
    FlushConserves(s.buf, f);
  }

  lemma ClosedKeeps(s: Writer, f: Faults)
    ensures Closed(s, f).0.buf.disk + Closed(s, f).0.buf.buffer == s.buf.disk + s.buf.buffer
  {
    FlushConserves(s.buf, f);
  }

  lemma FinishedPrefix(s: Writer, copied: bool, f: Faults)
    requires Fits(s.buf)
    ensures var t := Finished(s, copied, f).0; t.buf.disk + t.buf.buffer == s.buf.disk + s.buf.buffer
  {
    CommittedKeeps(s, f);
    ClosedKeeps(if copied then Committed(s, f).0 else Cancelled(s, f).0, f);
  }

  /** What `PutContent` leaves behind, whatever its result: nothing changed when the file does not open; the old
      content, or an empty file, when it cannot be truncated; otherwise some prefix of the new contents, or no file
      after a copy that failed and was cancelled. */
  lemma PutLeaves(before: Option<seq<byte>>, contents: seq<byte>, o: OpenFaults, f: Faults)
    ensures var after := Put(before, contents, o, f).0;
            && (!o.opens ==> after == before)
            && (o.opens && !o.truncates ==> after == Some(if before.Some? then before.value else []))
            && (o.opens && o.truncates ==> if after.Some? then after.value <= contents else !Copied(contents, f).1)
  {
    if o.opens && o.truncates {
      var (s, copied) := Copied(contents, f);
      CopiedPrefix(contents, f);
      CopiedKeepsName(contents, f);
      FinishedPrefix(s, copied, f);
    }
  }

  lemma {:induction false} BufferedKeepsHandle(s: Buf, p: seq<byte>, taken: nat, f: Faults)
    requires Fits(s)
    ensures Buffered(s, p, taken, f).0.handle == s.handle
    decreases if s.failed then 0 else 1, |p|, |s.buffer|
  {
    if !s.failed && |p| > CAPACITY - |s.buffer| {
      var (t, k) := Turn(s, p, f);
      BufferedTurn(s, p, taken, f);
      BufferedKeepsHandle(t, p[k..], taken + k, f);
    }
  }

  /** The three operations after the flush of a completed copy: the commit's sync, and the deferred close's sync and
      close. */
  ghost predicate ClosesAfter(s: Buf, f: Faults)
  {
    Flush(s, f).1 && f.succeeds(Flush(s, f).0.clock + 1) && f.succeeds(Flush(s, f).0.clock + 2)
  }

  lemma FinishedExactly(s: Writer, f: Faults)
    requires Fits(s.buf) && s.buf.handle && !s.buf.failed && !s.closed && !s.committed && !s.cancelled
    ensures Finished(s, true, f).2 <==> ClosesAfter(s.buf, f)
    ensures Finished(s, true, f).1 <==> Flush(s.buf, f).1 && f.succeeds(Flush(s.buf, f).0.clock)
  {
    FlushFits(s.buf, f);
  }

  /** `PutContent` ends the process exactly when the truncation fails and its close works (there is no writer then), or
      the copy fails, or the flush, the second sync or the close after it fails.  It reports success exactly when the
      truncation, the copy, the flush, both syncs and the close work; every other failure is reported. */
  lemma PutExactly(before: Option<seq<byte>>, contents: seq<byte>, o: OpenFaults, f: Faults)
    ensures var (s, copied) := Copied(contents, f);
            && (Put(before, contents, o, f).1 == Crashed <==>
                  o.opens && if !o.truncates then o.closes else !copied || !ClosesAfter(s.buf, f))
            && (Put(before, contents, o, f).1 == Stored <==>
                  o.opens && o.truncates && copied && ClosesAfter(s.buf, f) && f.succeeds(Flush(s.buf, f).0.clock))
  {
    CopiedConserves(contents, f);
    BufferedKeepsHandle(Open([]).buf, contents, 0, f);
    var (s, copied) := Copied(contents, f);
    if copied {
      FinishedExactly(s, f);
    } else {
      FailedCopyDoesNotClose(s, f);
    }
  }
}
