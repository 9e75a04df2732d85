/**
 A mounted file system with its open files: the methods of file system and files together, each run of which
 moves the device as the value level says and keeps all copies of the table equal.
 */
module Session {
  import opened Bytes
  import opened FatTable
  import opened FileSpec
  import opened FileCursor
  import opened FileWrite
  import opened Volume
  import O = OpenFile
  import opened Chains
  import opened Names
  import opened Options
  import opened CStrings
  import opened Directory
  import opened FileOps
  import opened PathOps
  import opened FileSystem
  import opened NameCodec
  import R = Runs

  class Mounted {
    const fs: FatFileSystem
    var files: map<nat, O.File>

    /** The open files are different objects over this volume. */
    ghost predicate Shape()
      reads this, fs, fs.vol, files.Values
    {
      && fs.vol.Valid()
      && (forall f :: f in files ==> files[f].vol == fs.vol && !files[f].isDir)
      && (forall f, g :: f in files && g in files && f != g ==> files[f] != files[g])
    }

    ghost function Handles(): map<nat, Handle>
      reads this, files.Values
    {
      map f | f in files :: files[f].H()
    }

    ghost function W(): R.World
      requires Shape()
      reads this, fs, fs.vol, files.Values
    {
      R.World(fs.Fs(), Handles())
    }

    ghost predicate Valid()
      reads this, fs, fs.vol, files.Values
    {
      Shape() && R.WorldOk(W())
    }

    /** Mount a well-formed volume; no file is open. */
    constructor (mounted: FatFileSystem)
      requires mounted.Valid()
      ensures Valid() && fs == mounted && W() == R.World(mounted.Fs(), map[]) && files == map[]
    {
      hide FsOk, MountedVolume.Valid, MountedVolume.Abs;
      fs, files := mounted, map[];
      new;
      assert Handles() == map[];
    }

    /** Read from an open file. */
    method Read(fd: nat, n: nat) returns (r: R.Reply)
      requires Valid() && R.Enabled(W(), R.Read(fd, n))
      modifies files.Values
      ensures Valid() && W() == R.Step(old(W()), R.Read(fd, n)) && r == R.Answer(old(W()), R.Read(fd, n))
    {
      hide R.WorldOk, R.Enabled, R.Step, R.Answer, MountedVolume.Valid, MountedVolume.Abs, ReadRun;
      ghost var w := W();
      ReadIs(w, fd, n);
      var buffer := new byte[n];
      var file := files[fd];
      var count := file.Read(buffer, n);
      r := R.Bytes(buffer[..count]);
      assert Handles() == w.files[fd := file.H()];
    }

    /** Move the cursor of an open file. */
    method Seek(fd: nat, offset: nat) returns (r: R.Reply)
      requires Valid() && R.Enabled(W(), R.Seek(fd, offset)) && offset < UINT32
      modifies files.Values
      ensures Valid() && W() == R.Step(old(W()), R.Seek(fd, offset)) && r == R.Answer(old(W()), R.Seek(fd, offset))
    {
      hide R.WorldOk, R.Enabled, R.Step, R.Answer, MountedVolume.Valid, MountedVolume.Abs, SeekRun, SeekWalk;
      ghost var w := W();
      SeekIs(w, fd, offset);
      var file := files[fd];
      var ok := file.Seek(offset);
      r := R.Done(ok);
      assert Handles() == w.files[fd := file.H()];
    }

    /** Write at the end of an open file or in its last cluster. */
    method Write(fd: nat, buf: seq<byte>) returns (r: R.Reply)
      requires Valid() && R.Enabled(W(), R.Write(fd, buf))
      modifies fs.vol, fs`chains, files.Values
      ensures Valid() && W() == R.Step(old(W()), R.Write(fd, buf)) && r == R.Answer(old(W()), R.Write(fd, buf))
    {
      hide R.WorldOk, R.Enabled, R.Step, R.Answer, MountedVolume.Valid, MountedVolume.Abs, WriteRun, WriteChain, Writable;
      ghost var w := W();
      WriteIs(w, fd, buf);
      var file := files[fd];
      var ok := file.Write(buf);
      r := R.Done(ok);
      ghost var h := w.files[fd];
      fs.chains := Rechain(w.fs.chains, h.start, WriteChain(w.fs.vol, h, ChainOf(w.fs.chains, h.start), buf));
      assert Handles() == w.files[fd := file.H()];
    }

    /** Replace an open file. */
    method Rewrite(fd: nat, buf: seq<byte>) returns (r: R.Reply)
      requires Valid() && R.Enabled(W(), R.Rewrite(fd, buf))
      modifies fs.vol, fs`chains, files.Values
      ensures Valid() && W() == R.Step(old(W()), R.Rewrite(fd, buf)) && r == R.Answer(old(W()), R.Rewrite(fd, buf))
    {
      hide R.WorldOk, R.Enabled, R.Step, R.Answer, MountedVolume.Valid, MountedVolume.Abs, RewriteRun, RewriteChain;
      ghost var w := W();
      RewriteIs(w, fd, buf);
      var file := files[fd];
      var ok := file.Rewrite(buf);
      r := R.Done(ok);
      ghost var start := w.files[fd].start;
      fs.chains := Rechain(w.fs.chains, start, RewriteChain(w.fs.vol, start, buf));
      assert Handles() == w.files[fd := file.H()];
    }

    /** The handle of an opened file. */
    method AddFile(fd: nat, start: nat, size: nat)
      requires fd !in files
      modifies this`files
      ensures fd in files && fresh(files[fd]) && files == old(files)[fd := files[fd]]
      ensures files[fd].vol == fs.vol && !files[fd].isDir && Handles() == old(Handles())[fd := R.Opened(start, size)]
    {
      var file := new O.File(fs.vol, start, size, false);
      files := files[fd := file];
      assert Handles() == old(Handles())[fd := file.H()];
    }

    /** Open a file; its path's string becomes upper-case. A directory opens as well, but its handle is none of the files. */
    method Open(fd: nat, path: array<byte>) returns (r: R.Reply)
      requires Valid() && Terminated(path[..], 0) && R.Enabled(W(), R.OpenFile(fd, StrAt(path[..], 0)))
      modifies this`files, path
      ensures Valid() && W() == R.Step(old(W()), R.OpenFile(fd, StrAt(old(path[..]), 0)))
      ensures r == R.Answer(old(W()), R.OpenFile(fd, StrAt(old(path[..]), 0)))
      ensures files == old(files) || (fd in files && fresh(files[fd]) && files == old(files)[fd := files[fd]])
    {
      hide R.WorldOk, R.Enabled, R.Step, R.Answer, MountedVolume.Valid, MountedVolume.Abs, Directory.Open, StrAt, Terminated,
           UpperCased, FsOk;
      ghost var w, p := W(), StrAt(path[..], 0);
      OpenIs(w, fd, p);
      var target := fs.OpenPath(path);
      if target.Some? && target.value.File? {
        AddFile(fd, target.value.start, target.value.size);
      }
      r := R.Done(target.Some?);
    }

    /** Create an empty file. */
    method Create(path: array<byte>, stamp: Stamp) returns (r: R.Reply)
      requires Valid() && Terminated(path[..], 0) && PathFits(StrAt(path[..], 0))
      requires R.Enabled(W(), R.Create(StrAt(path[..], 0), stamp))
      modifies fs.vol, path
      ensures Valid() && W() == R.Step(old(W()), R.Create(StrAt(old(path[..]), 0), stamp))
      ensures r == R.Answer(old(W()), R.Create(StrAt(old(path[..]), 0), stamp))
    {
      hide R.WorldOk, R.Enabled, R.Step, R.Answer, MountedVolume.Valid, MountedVolume.Abs, CreateRun, StrAt, Terminated,
           UpperCased, PathFits, FsOk;
      ghost var w := W();
      CreateIs(w, StrAt(path[..], 0), stamp);
      var ok := fs.Create(path, stamp);
      r := R.Done(ok);
      assert Handles() == w.files;
    }

    /** Make a directory. */
    method Mkdir(path: array<byte>, stamp: Stamp) returns (r: R.Reply)
      requires Valid() && Terminated(path[..], 0) && PathFits(StrAt(path[..], 0))
      requires R.Enabled(W(), R.Mkdir(StrAt(path[..], 0), stamp))
      modifies fs.vol, fs`chains, fs`dirs, path
      ensures Valid() && W() == R.Step(old(W()), R.Mkdir(StrAt(old(path[..]), 0), stamp))
      ensures r == R.Answer(old(W()), R.Mkdir(StrAt(old(path[..]), 0), stamp))
    {
      hide R.WorldOk, R.Enabled, R.Step, R.Answer, MountedVolume.Valid, MountedVolume.Abs, MkdirRun, StrAt, Terminated,
           UpperCased, PathFits, FsOk;
      ghost var w := W();
      MkdirIs(w, StrAt(path[..], 0), stamp);
      var ok := fs.Mkdir(path, stamp);
      r := R.Done(ok);
      assert Handles() == w.files;
    }

    /** Record start cluster and size of an open file in the entry of the path. */
    method Record(fd: nat, path: array<byte>, stamp: Stamp) returns (r: R.Reply)
      requires Valid() && Terminated(path[..], 0) && PathFits(StrAt(path[..], 0))
      requires R.Enabled(W(), R.Record(fd, StrAt(path[..], 0), stamp))
      modifies fs.vol, path
      ensures Valid() && W() == R.Step(old(W()), R.Record(fd, StrAt(old(path[..]), 0), stamp))
      ensures r == R.Answer(old(W()), R.Record(fd, StrAt(old(path[..]), 0), stamp))
    {
      hide R.WorldOk, R.Enabled, R.Step, R.Answer, MountedVolume.Valid, MountedVolume.Abs, UpdateRun, StrAt, Terminated,
           UpperCased, PathFits, FsOk;
      ghost var w := W();
      RecordIs(w, fd, StrAt(path[..], 0), stamp);
      var ok := fs.UpdateFileEntry(path, files[fd].startCluster, files[fd].size, stamp);
      r := R.Done(ok);
      assert Handles() == w.files;
    }

    /** Close an open file. */
    method Close(fd: nat) returns (r: R.Reply)
      requires Valid() && R.Enabled(W(), R.Close(fd))
      modifies this`files, files.Values
      ensures Valid() && W() == R.Step(old(W()), R.Close(fd)) && r == R.Answer(old(W()), R.Close(fd))
      ensures files == old(files) - {fd}
    {
      hide R.WorldOk, R.Enabled, R.Step, R.Answer, MountedVolume.Valid, MountedVolume.Abs, FsOk;
      ghost var w := W();
      CloseIs(w, fd);
      files[fd].Close();
      files := files - {fd};
      r := R.Done(true);
      assert Handles() == w.files - {fd};
    }

    /** One operation. */
    method Execute(op: R.Op) returns (r: R.Reply)
      requires Valid() && Issuable(W(), op)
      modifies this, fs, fs.vol, files.Values
      ensures Valid() && W() == R.Step(old(W()), op) && r == R.Answer(old(W()), op)
      ensures fresh(files.Values - old(files.Values))
    {
      hide R.WorldOk, R.Enabled, R.Step, R.Answer, MountedVolume.Valid, MountedVolume.Abs, StrAt, Terminated, UpperCased, PathFits;
      match op
      case Read(f, n) => r := Read(f, n);
      case Seek(f, offset) => r := Seek(f, offset);
      case Write(f, buf) => r := Write(f, buf);
      case Rewrite(f, buf) => r := Rewrite(f, buf);
      case OpenFile(f, path) =>
        var p := StringOf(path);
        r := Open(f, p);
      case Create(path, stamp) =>
        var p := StringOf(path);
        r := Create(p, stamp);
      case Mkdir(path, stamp) =>
        var p := StringOf(path);
        r := Mkdir(p, stamp);
      case Record(f, path, stamp) =>
        var p := StringOf(path);
        r := Record(f, p, stamp);
      case Close(f) => r := Close(f);
    }

    /** A whole run: the device moves as the run on values says, and all copies of the table stay equal. */
    method ExecuteAll(ops: seq<R.Op>) returns (replies: seq<R.Reply>)
      requires Valid() && IssuableRun(W(), ops)
      modifies this, fs, fs.vol, files.Values
      ensures Valid() && W() == R.Run(old(W()), ops) && replies == Answers(old(W()), ops)
      ensures CopiesEqual(fs.vol.g, fs.vol.disk) && R.ChainsSafe(W().fs.vol.fat, W().fs.chains)
      ensures fresh(files.Values - old(files.Values))
    {
      hide R.WorldOk, R.Step, R.Answer, Issuable, R.ChainsSafe, IssuableRun, Answers, R.Run;
      ghost var w := W();
      replies := [];
      NothingDone(w, ops);
      for i := 0 to |ops|
        invariant Valid() && IssuableRun(W(), ops[i..])
        invariant R.Run(W(), ops[i..]) == R.Run(w, ops)
        invariant replies + Answers(W(), ops[i..]) == Answers(w, ops)
        invariant fresh(files.Values - old(files.Values))
      {
        OneDone(W(), ops[i..]);
        assert ops[i..][1..] == ops[i + 1..] && ops[i..][0] == ops[i];
        var r := Execute(ops[i]);
        replies := replies + [r];
      }
      AllDone(W(), ops[|ops|..]);
      R.WholeRunSafety(w, ops);
    }
  }

  /** What the device needs besides: paths that fit the buffers, offsets of 32 bits. */
  ghost predicate Issuable(w: R.World, op: R.Op)
    requires R.WorldOk(w)
  {
    && R.Enabled(w, op)
    && match op
       case Seek(_, offset) => offset < UINT32
       case Create(path, _) => PathFits(path)
       case Mkdir(path, _) => PathFits(path)
       case Record(_, path, _) => PathFits(path)
       case _ => true
  }

  /** Every operation can be issued where it is reached. */
  ghost predicate IssuableRun(w: R.World, ops: seq<R.Op>)
    requires R.WorldOk(w)
    decreases |ops|
  {
    ops == [] || (Issuable(w, ops[0]) && (R.StepKeepsWorld(w, ops[0]); IssuableRun(R.Step(w, ops[0]), ops[1..])))
  }

  ghost function Answers(w: R.World, ops: seq<R.Op>): seq<R.Reply>
    requires R.WorldOk(w) && IssuableRun(w, ops)
    decreases |ops|
  {
    if ops == [] then []
    else
      R.StepKeepsWorld(w, ops[0]);
      [R.Answer(w, ops[0])] + Answers(R.Step(w, ops[0]), ops[1..])
  }

  lemma NothingDone(w: R.World, ops: seq<R.Op>)
    requires R.WorldOk(w) && IssuableRun(w, ops)
    ensures ops[0..] == ops && [] + Answers(w, ops) == Answers(w, ops)
  {
  }

  lemma OneDone(w: R.World, ops: seq<R.Op>)
    requires R.WorldOk(w) && IssuableRun(w, ops) && ops != []
    ensures Issuable(w, ops[0]) && R.WorldOk(R.Step(w, ops[0])) && IssuableRun(R.Step(w, ops[0]), ops[1..])
    ensures R.Run(w, ops) == R.Run(R.Step(w, ops[0]), ops[1..])
    ensures Answers(w, ops) == [R.Answer(w, ops[0])] + Answers(R.Step(w, ops[0]), ops[1..])
  {
    hide R.WorldOk, R.Step, R.Answer, Issuable;
    R.StepKeepsWorld(w, ops[0]);
  }

  lemma AllDone(w: R.World, ops: seq<R.Op>)
    requires R.WorldOk(w) && ops == []
    ensures R.Run(w, ops) == w && IssuableRun(w, ops) && Answers(w, ops) == []
  {
  }

  /** A path as a string in a buffer of its own. */
  method StringOf(s: CString) returns (a: array<byte>)
    ensures fresh(a) && Terminated(a[..], 0) && StrAt(a[..], 0) == s
  {
    a := new byte[|s| + 1](i => 0);
    for i := 0 to |s|
      invariant a[..i] == s[..i] && a[|s|] == 0
    {
      a[i] := s[i];
    }
    TerminatedAt(a[..], 0, |s|);
    assert a[..][0..|s|] == s;
    StrAtIs(a[..], 0, |s|);
  }

  // ---------- the steps spelt out ----------

  lemma ReadIs(w: R.World, f: nat, n: nat)
    requires R.WorldOk(w) && R.Enabled(w, R.Read(f, n))
    ensures f in w.files
    ensures var (v, h) := (w.fs.vol, w.files[f]);
            && VolOk(v) && (h.off < h.size ==> InRange(v.fat, h.cur))
            && R.Step(w, R.Read(f, n)) == w.(files := w.files[f := ReadRun(v, h, n).0])
            && R.Answer(w, R.Read(f, n)) == R.Bytes(ReadRun(v, h, n).1)
            && R.WorldOk(R.Step(w, R.Read(f, n)))
  {
    hide R.WorldOk, ReadRun;
    R.FileIsUsable(w, f);
    R.StepKeepsWorld(w, R.Read(f, n));
  }

  lemma SeekIs(w: R.World, f: nat, offset: nat)
    requires R.WorldOk(w) && R.Enabled(w, R.Seek(f, offset))
    ensures f in w.files
    ensures var (v, h) := (w.fs.vol, w.files[f]);
            && VolOk(v) && (h.start == 0 || InRange(v.fat, h.start)) && (h.start == 0 ==> h.size < v.csize) && v.csize < UINT32
            && (offset <= h.size ==> SeekWalk(v, h.start, 0, offset) != Wrapped)
            && R.Step(w, R.Seek(f, offset)) == w.(files := w.files[f := SeekRun(v, h, offset).1])
            && R.Answer(w, R.Seek(f, offset)) == R.Done(SeekRun(v, h, offset).0)
            && R.WorldOk(R.Step(w, R.Seek(f, offset)))
  {
    R.FileIsUsable(w, f);
    SeekDoesNotWrap(w, f, offset);
    R.StepKeepsWorld(w, R.Seek(f, offset));
    hide R.WorldOk, SeekRun, SeekWalk;
  }

  /** A seek to where the walk can compute its position does not wrap. */
  lemma SeekDoesNotWrap(w: R.World, f: nat, offset: nat)
    requires R.WorldOk(w) && R.Enabled(w, R.Seek(f, offset))
    ensures var (v, h) := (w.fs.vol, w.files[f]);
            && VolOk(v) && (h.start == 0 || InRange(v.fat, h.start)) && (h.start == 0 ==> h.size < v.csize) && v.csize < UINT32
            && (offset <= h.size ==> SeekWalk(v, h.start, 0, offset) != Wrapped)
  {
    R.FileIsUsable(w, f);
    hide FsOk, SeekWalk;
    assert R.FileOk(w.fs, w.files[f]);
    if offset <= w.files[f].size {
      SeekMovesCursor(w.fs.vol, w.files[f], ChainOf(w.fs.chains, w.files[f].start), offset);
    }
  }

  lemma WriteIs(w: R.World, f: nat, buf: seq<byte>)
    requires R.WorldOk(w) && R.Enabled(w, R.Write(f, buf))
    ensures f in w.files && (w.files[f].start == 0 || w.files[f].start in w.fs.chains)
    ensures var (v, h) := (w.fs.vol, w.files[f]);
            && Writable(v, h) && h.off + |buf| < UINT32
            && R.Step(w, R.Write(f, buf)) ==
               R.World(RegrowFs(w.fs, h.start, WriteRun(v, h, buf).vol, WriteChain(v, h, ChainOf(w.fs.chains, h.start), buf)),
                       w.files[f := WriteRun(v, h, buf).handle])
            && R.Answer(w, R.Write(f, buf)) == R.Done(WriteRun(v, h, buf).count == |buf|)
            && R.WorldOk(R.Step(w, R.Write(f, buf)))
  {
    hide R.WorldOk, WriteRun, WriteChain, Writable;
    R.WriteIsUsable(w, f, buf);
    StartInChains(w, f);
    R.StepKeepsWorld(w, R.Write(f, buf));
  }

  lemma StartInChains(w: R.World, f: nat)
    requires R.WorldOk(w) && f in w.files
    ensures w.files[f].start == 0 || w.files[f].start in w.fs.chains
  {
    hide FsOk;
    assert R.FileOk(w.fs, w.files[f]);
  }

  lemma RewriteIs(w: R.World, f: nat, buf: seq<byte>)
    requires R.WorldOk(w) && R.Enabled(w, R.Rewrite(f, buf))
    ensures f in w.files
    ensures var (v, start) := (w.fs.vol, w.files[f].start);
            && VolOk(v) && (start == 0 || InRange(v.fat, start)) && |buf| < UINT32
            && R.Step(w, R.Rewrite(f, buf)) ==
               R.World(RegrowFs(w.fs, start, RewriteRun(v, start, buf).vol, RewriteChain(v, start, buf)),
                       w.files[f := RewriteRun(v, start, buf).handle])
            && R.Answer(w, R.Rewrite(f, buf)) == R.Done(RewriteRun(v, start, buf).count == |buf|)
            && R.WorldOk(R.Step(w, R.Rewrite(f, buf)))
  {
    hide R.WorldOk, RewriteRun, RewriteChain;
    R.FileIsUsable(w, f);
    R.StepKeepsWorld(w, R.Rewrite(f, buf));
  }

  lemma OpenIs(w: R.World, f: nat, path: CString)
    requires R.WorldOk(w) && R.Enabled(w, R.OpenFile(f, path))
    ensures f !in w.files && FsOk(w.fs)
    ensures var (op, t) := (R.OpenFile(f, path), Directory.Open(w.fs, path));
            && t != Some(Astray) && R.WorldOk(R.Step(w, op))
            && match t
               case Some(File(start, size)) =>
                 R.Step(w, op) == w.(files := w.files[f := R.Opened(start, size)]) && R.Answer(w, op) == R.Done(true)
               case _ => R.Step(w, op) == w && R.Answer(w, op) == R.Done(t.Some?)
  {
    hide FsOk, R.FileOk, Directory.Open, R.Openable;
    R.StepKeepsWorld(w, R.OpenFile(f, path));
    R.FsOfWorld(w);
    R.OpensFile(w, f, path);
    hide R.WorldOk, R.Enabled;
  }

  lemma WorldHasFs(w: R.World)
    requires R.WorldOk(w)
    ensures FsOk(w.fs)
  {
  }

  lemma CreateIs(w: R.World, path: CString, stamp: Stamp)
    requires R.WorldOk(w) && R.Enabled(w, R.Create(path, stamp))
    ensures FsOk(w.fs) && Slotted(w.fs.vol) && EachIsChain(w.fs.vol.fat, w.fs.chains) && OnCourse(w.fs, path)
    ensures var op := R.Create(path, stamp);
            && R.Step(w, op) == w.(fs := CreateRun(w.fs, path, stamp).1)
            && R.Answer(w, op) == R.Done(CreateRun(w.fs, path, stamp).0) && R.WorldOk(R.Step(w, op))
  {
    hide R.WorldOk, FsOk, CreateRun, OnCourse;
    WorldHasFs(w);
    FsParts(w.fs);
    R.StepKeepsWorld(w, R.Create(path, stamp));
  }

  lemma MkdirIs(w: R.World, path: CString, stamp: Stamp)
    requires R.WorldOk(w) && R.Enabled(w, R.Mkdir(path, stamp))
    ensures FsOk(w.fs) && Slotted(w.fs.vol) && EachIsChain(w.fs.vol.fat, w.fs.chains) && OnCourse(w.fs, path)
    ensures var op := R.Mkdir(path, stamp);
            && R.Step(w, op) == w.(fs := MkdirRun(w.fs, path, stamp).1)
            && R.Answer(w, op) == R.Done(MkdirRun(w.fs, path, stamp).0) && R.WorldOk(R.Step(w, op))
  {
    hide R.WorldOk, FsOk, MkdirRun, OnCourse;
    WorldHasFs(w);
    FsParts(w.fs);
    R.StepKeepsWorld(w, R.Mkdir(path, stamp));
  }

  lemma RecordIs(w: R.World, f: nat, path: CString, stamp: Stamp)
    requires R.WorldOk(w) && R.Enabled(w, R.Record(f, path, stamp))
    ensures FsOk(w.fs) && f in w.files && Slotted(w.fs.vol) && EachIsChain(w.fs.vol.fat, w.fs.chains) && OnCourse(w.fs, path)
    ensures var (op, h) := (R.Record(f, path, stamp), w.files[f]);
            && R.Step(w, op) == w.(fs := UpdateRun(w.fs, path, h.start, h.size, stamp).1)
            && R.Answer(w, op) == R.Done(UpdateRun(w.fs, path, h.start, h.size, stamp).0) && R.WorldOk(R.Step(w, op))
  {
    hide R.WorldOk, FsOk, UpdateRun, R.Recordable, OnCourse;
    WorldHasFs(w);
    R.RecordableIsOnCourse(w.fs, path);
    R.StepKeepsWorld(w, R.Record(f, path, stamp));
  }

  lemma CloseIs(w: R.World, f: nat)
    requires R.WorldOk(w) && R.Enabled(w, R.Close(f))
    ensures f in w.files && R.Step(w, R.Close(f)) == w.(files := w.files - {f}) && R.Answer(w, R.Close(f)) == R.Done(true)
    ensures R.WorldOk(R.Step(w, R.Close(f)))
  {
    hide R.WorldOk;
    R.StepKeepsWorld(w, R.Close(f));
  }
}
