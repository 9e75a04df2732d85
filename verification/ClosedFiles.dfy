/** Files that are not open: over every run that does not open them they keep their clusters and their bytes. */
module ClosedFiles {
  import opened Arith
  import opened Bytes
  import opened FatTable
  import opened FileSpec
  import opened FileCursor
  import opened FileWrite
  import opened MidWrite
  import opened Chains
  import opened Names
  import opened Options
  import opened Directory
  import opened FileOps
  import opened PathOps
  import opened Session
  import opened PlainRuns
  import R = Runs

  /** A file's chain that no open file has. */
  ghost predicate IsClosed(w: R.World, s: nat) {
    s in w.fs.chains && s !in w.fs.dirs && forall g :: g in w.files ==> w.files[g].start != s
  }

  /** The call opens the file that starts at s. */
  ghost predicate OpensStart(w: R.World, op: R.Op, s: nat)
    requires R.WorldOk(w)
  {
    op.OpenFile? && match Open(w.fs, op.path) case Some(File(start, _)) => start == s case _ => false
  }

  /** The file stays closed, with its clusters and bytes. */
  ghost predicate StaysClosed(w: R.World, w': R.World, s: nat)
    requires R.WorldOk(w) && R.WorldOk(w')
  {
    WorldHasFs(w);
    WorldHasFs(w');
    PartsOf(w.fs);
    PartsOf(w'.fs);
    s in w.fs.chains && IsClosed(w', s) && FileKept(w.fs, w'.fs, s)
  }

  lemma SameFsStaysClosed(w: R.World, files: map<nat, Handle>, s: nat)
    requires R.WorldOk(w) && R.WorldOk(w.(files := files)) && IsClosed(w, s)
    requires forall g :: g in files ==> files[g].start != s
    ensures StaysClosed(w, w.(files := files), s)
  {
    hide R.WorldOk, EachIsChain, VolOk;
    WorldHasFs(w);
    PartsOf(w.fs);
  }

  lemma TreeStaysClosed(w: R.World, fs': Fs, s: nat)
    requires R.WorldOk(w) && R.WorldOk(w.(fs := fs')) && IsClosed(w, s)
    requires Readable(w.fs) && Readable(fs')
    requires FilesKept(w.fs, fs')
    ensures StaysClosed(w, w.(fs := fs'), s)
  {
    hide R.WorldOk, EachIsChain, VolOk, ChainBytes;
    assert FileKept(w.fs, fs', s);
  }

  lemma RegrownStaysClosed(w: R.World, f: nat, v: Vol, ch: seq<nat>, h: Handle, s: nat)
    requires R.WorldOk(w) && FsOk(w.fs) && f in w.files && IsFileStart(w.fs, w.files[f].start) && IsClosed(w, s)
    requires RegrownVol(w.fs, w.files[f].start, v, ch) && Settled(v, h, ch)
    requires R.WorldOk(R.World(RegrowFs(w.fs, w.files[f].start, v, ch), w.files[f := h]))
    ensures StaysClosed(w, R.World(RegrowFs(w.fs, w.files[f].start, v, ch), w.files[f := h]), s)
  {
    hide R.WorldOk, FsOk, RegrownVol, RegrowFs, Rechain, ChainBytes, EachIsChain, IsChain, FileKept;
    var start := w.files[f].start;
    RegrowKeepsFiles(w.fs, start, v, ch, s);
    RegrowKeepsOthers(w.fs, start, v, ch, s);
    NotZero(w.fs, s);
    KeptIsClosed(w.fs, RegrowFs(w.fs, start, v, ch), s);
  }

  lemma NotZero(fs: Fs, s: nat)
    requires FsOk(fs) && s in fs.chains
    ensures s != 0
  {
    ZeroIsNoStart(fs.vol.fat, fs.chains);
  }

  lemma KeptIsClosed(fs: Fs, fs': Fs, s: nat)
    requires Readable(fs) && Readable(fs')
    requires s in fs.chains && FileKept(fs, fs', s)
    ensures s in fs'.chains && s !in fs'.dirs
  {
  }

  lemma WriteStaysClosed(w: R.World, f: nat, buf: seq<byte>, s: nat)
    requires R.WorldOk(w) && R.Enabled(w, R.Write(f, buf)) && IsClosed(w, s)
    ensures R.WorldOk(R.Step(w, R.Write(f, buf))) && StaysClosed(w, R.Step(w, R.Write(f, buf)), s)
  {
    hide R.WorldOk, R.Step, R.Answer, CursorOk, Content, FsOk, WriteRun, WriteChain, Writable, RegrownVol, RegrowFs,
         MayWrite, Grown, WriteAt, StaysClosed;
    WorldHasFs(w);
    WriteIs(w, f, buf);
    R.WriteIsUsable(w, f, buf);
    var (v, h) := (w.fs.vol, w.files[f]);
    var ch := ChainOf(w.fs.chains, h.start);
    PlacedWrite(v, h, ch, buf);
    WriteRegrows(w.fs, h, buf);
    RegrownStaysClosed(w, f, WriteRun(v, h, buf).vol, WriteChain(v, h, ch, buf), WriteRun(v, h, buf).handle, s);
  }

  lemma RewriteStaysClosed(w: R.World, f: nat, buf: seq<byte>, s: nat)
    requires R.WorldOk(w) && R.Enabled(w, R.Rewrite(f, buf)) && IsClosed(w, s)
    ensures R.WorldOk(R.Step(w, R.Rewrite(f, buf))) && StaysClosed(w, R.Step(w, R.Rewrite(f, buf)), s)
  {
    hide R.WorldOk, R.Step, R.Answer, CursorOk, Content, FsOk, RewriteRun, RewriteChain, RegrownVol, RegrowFs,
         WriteReady, Ceil, StaysClosed;
    WorldHasFs(w);
    RewriteIs(w, f, buf);
    FileOkOf(w, f);
    var (v, start) := (w.fs.vol, w.files[f].start);
    FileStartInRange(w.fs, start);
    RewriteReplacesFile(v, start, ChainOf(w.fs.chains, start), buf);
    RewriteRegrows(w.fs, start, buf);
    var (r, ch) := (RewriteRun(v, start, buf), RewriteChain(v, start, buf));
    ReadyIsSettled(r.vol, r.handle, ch);
    RegrownStaysClosed(w, f, r.vol, ch, r.handle, s);
  }

  lemma CursorStaysClosed(w: R.World, op: R.Op, s: nat)
    requires R.WorldOk(w) && R.Enabled(w, op) && IsClosed(w, s) && (op.Read? || op.Seek? || op.Close?)
    ensures R.WorldOk(R.Step(w, op)) && StaysClosed(w, R.Step(w, op), s)
  {
    hide R.WorldOk, R.Step, R.Answer, FsOk, ReadRun, SeekWalk, StaysClosed, CursorOk;
    match op
    case Read(f, n) =>
      ReadIs(w, f, n);
      FileOkOf(w, f);
      ReadMovesCursor(w.fs.vol, w.files[f], ChainOf(w.fs.chains, w.files[f].start), n);
      SameFsStaysClosed(w, w.files[f := ReadRun(w.fs.vol, w.files[f], n).0], s);
    case Seek(f, offset) =>
      SeekIs(w, f, offset);
      SameFsStaysClosed(w, w.files[f := SeekRun(w.fs.vol, w.files[f], offset).1], s);
    case Close(f) =>
      CloseIs(w, f);
      SameFsStaysClosed(w, w.files - {f}, s);
  }

  lemma TreeStepStaysClosed(w: R.World, op: R.Op, s: nat)
    requires R.WorldOk(w) && R.Enabled(w, op) && IsClosed(w, s) && (op.Create? || op.Mkdir? || op.Record?)
    ensures R.WorldOk(R.Step(w, op)) && StaysClosed(w, R.Step(w, op), s)
  {
    hide R.WorldOk, R.Step, R.Answer, FsOk, CreateRun, MkdirRun, UpdateRun, FilesKept, EachIsChain, StaysClosed, IsClosed, FreeSet;
    match op
    case Create(path, stamp) =>
      CreateIs(w, path, stamp);
      CreateKeepsFiles(w.fs, path, stamp);
      TreeStaysClosed(w, CreateRun(w.fs, path, stamp).1, s);
    case Mkdir(path, stamp) =>
      MkdirIs(w, path, stamp);
      MkdirKeepsFiles(w.fs, path, stamp);
      TreeStaysClosed(w, MkdirRun(w.fs, path, stamp).1, s);
    case Record(f, path, stamp) =>
      RecordIs(w, f, path, stamp);
      UpdateKeepsFiles(w.fs, path, w.files[f].start, w.files[f].size, stamp);
      TreeStaysClosed(w, UpdateRun(w.fs, path, w.files[f].start, w.files[f].size, stamp).1, s);
  }

  lemma OpenStaysClosed(w: R.World, f: nat, path: CString, s: nat)
    requires R.WorldOk(w) && R.Enabled(w, R.OpenFile(f, path)) && IsClosed(w, s) && !OpensStart(w, R.OpenFile(f, path), s)
    ensures R.WorldOk(R.Step(w, R.OpenFile(f, path))) && StaysClosed(w, R.Step(w, R.OpenFile(f, path)), s)
  {
    hide R.WorldOk, R.Step, R.Answer, FsOk, Open, StaysClosed, R.FileOk;
    OpenIs(w, f, path);
    PartsOf(w.fs);
    match Open(w.fs, path)
    case Some(File(start, size)) => SameFsStaysClosed(w, w.files[f := R.Opened(start, size)], s);
    case _ => StillClosed(w, s);
  }

  lemma StepStaysClosed(w: R.World, op: R.Op, s: nat)
    requires R.WorldOk(w) && R.Enabled(w, op) && IsClosed(w, s) && !OpensStart(w, op, s)
    ensures R.WorldOk(R.Step(w, op)) && StaysClosed(w, R.Step(w, op), s)
  {
    hide *;
    match op
    case OpenFile(f, path) => OpenStaysClosed(w, f, path, s);
    case Write(f, buf) => WriteStaysClosed(w, f, buf, s);
    case Rewrite(f, buf) => RewriteStaysClosed(w, f, buf, s);
    case Read(_, _) => CursorStaysClosed(w, op, s);
    case Seek(_, _) => CursorStaysClosed(w, op, s);
    case Close(_) => CursorStaysClosed(w, op, s);
    case Create(_, _) => TreeStepStaysClosed(w, op, s);
    case Mkdir(_, _) => TreeStepStaysClosed(w, op, s);
    case Record(_, _, _) => TreeStepStaysClosed(w, op, s);
  }

  /** No call of the run opens the file. */
  ghost predicate NeverOpens(w: R.World, ops: seq<R.Op>, s: nat)
    requires R.WorldOk(w) && IssuableRun(w, ops)
    decreases |ops|
  {
    ops == [] ||
    (R.StepKeepsWorld(w, ops[0]); !OpensStart(w, ops[0], s) && NeverOpens(R.Step(w, ops[0]), ops[1..], s))
  }

  lemma ClosedTwice(a: R.World, b: R.World, c: R.World, s: nat)
    requires R.WorldOk(a) && R.WorldOk(b) && R.WorldOk(c) && StaysClosed(a, b, s) && StaysClosed(b, c, s)
    ensures StaysClosed(a, c, s)
  {
    hide R.WorldOk, EachIsChain, VolOk, ChainBytes;
  }

  /** Over every run that does not open it, a closed file stays closed with its clusters and bytes. */
  lemma {:induction false} ClosedFilesKept(w: R.World, ops: seq<R.Op>, s: nat)
    requires R.WorldOk(w) && IssuableRun(w, ops) && IsClosed(w, s) && NeverOpens(w, ops, s)
    ensures StaysClosed(w, R.Run(w, ops), s)
    decreases |ops|
  {
    hide R.WorldOk, R.Step, R.Enabled, OpensStart, StaysClosed, IsClosed, Issuable;
    if ops == [] {
      StillClosed(w, s);
    } else {
      OneDone(w, ops);
      FirstDeed(w, ops);
      StepStaysClosed(w, ops[0], s);
      var w1 := R.Step(w, ops[0]);
      ClosedIsClosed(w, w1, s);
      ClosedFilesKept(w1, ops[1..], s);
      ClosedTwice(w, w1, R.Run(w1, ops[1..]), s);
    }
  }

  lemma ClosedIsClosed(w: R.World, w': R.World, s: nat)
    requires R.WorldOk(w) && R.WorldOk(w') && StaysClosed(w, w', s)
    ensures IsClosed(w', s)
  {
    hide R.WorldOk, FileKept;
  }

  lemma StillClosed(w: R.World, s: nat)
    requires R.WorldOk(w) && IsClosed(w, s)
    ensures StaysClosed(w, w, s)
  {
    hide R.WorldOk, EachIsChain, VolOk;
  }

  /** Opened after such a run, the file gives the bytes it had before, as many as the entry says. */
  lemma ReopenedHasItsBytes(w: R.World, ops: seq<R.Op>, s: nat, f: nat, path: CString)
    requires R.WorldOk(w) && IssuableRun(w, ops) && IsClosed(w, s) && NeverOpens(w, ops, s)
    requires R.Enabled(R.Run(w, ops), R.OpenFile(f, path)) && OpensStart(R.Run(w, ops), R.OpenFile(f, path), s)
    ensures Readable(w.fs)
    ensures var deed := DeedOf(R.Run(w, ops), R.OpenFile(f, path));
            deed.Opens? && deed.bytes <= ChainBytes(w.fs.vol, w.fs.chains[s])
            && Readable(R.Run(w, ops).fs) && Slotted(R.Run(w, ops).fs.vol)
            && Some(File(s, |deed.bytes|)) == Open(R.Run(w, ops).fs, path)
  {
    hide R.WorldOk, R.Run, IssuableRun, NeverOpens, Open, ChainBytes, EachIsChain, Settled;
    ClosedFilesKept(w, ops, s);
    WorldHasFs(w);
    PartsOf(w.fs);
    var w' := R.Run(w, ops);
    WorldHasFs(w');
    PartsOf(w'.fs);
    NotZero(w'.fs, s);
    BytesArePrefix(w'.fs, R.Opened(s, Open(w'.fs, path).value.size));
  }

  lemma BytesArePrefix(fs: Fs, h: Handle)
    requires R.FileOk(fs, h) && h.start != 0 && Readable(fs)
    ensures h.start in fs.chains && BytesOf(fs, h) <= ChainBytes(fs.vol, fs.chains[h.start])
  {
    hide IsChain, ChainBytes;
  }
}
