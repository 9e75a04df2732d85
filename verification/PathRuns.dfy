/**
 Paths over whole runs: a path that no call creates over and none records over opens as the same thing after every
 run, and a file that is not opened meanwhile gives the same bytes through it.
 */
module PathRuns {
  import opened Bytes
  import opened FatTable
  import opened FileSpec
  import opened FileCursor
  import opened FileWrite
  import opened MidWrite
  import opened Chains
  import opened Names
  import opened Options
  import opened DirSlots
  import opened Directory
  import opened FileOps
  import opened FsOps
  import opened PathOps
  import opened Persistence
  import opened PathChanges
  import opened Session
  import opened PlainFiles
  import opened PlainRuns
  import opened ClosedFiles
  import R = Runs

  /** The walk of q meets the entry that a creation of the path makes. */
  predicate CreatedOver(fs: Fs, path: CString, e: Slot, q: CString)
    requires Slotted(fs.vol) && EachIsChain(fs.vol.fat, fs.chains)
  {
    match ParentOf(fs, path)
    case None => false
    case Some(d) => InRange(fs.vol.fat, d) && Meets(fs, d, EntryIndex(fs, d), e, fs.root, Upper(q))
  }

  /** q leads to what the entry says that an update of the path rewrites. */
  ghost predicate RecordedOver(fs: Fs, path: CString, q: CString)
    requires Slotted(fs.vol) && EachIsChain(fs.vol.fat, fs.chains)
  {
    match ParentOf(fs, path)
    case None => false
    case Some(d) => exists k: nat :: EntryAt(fs, d, NameOf(path), k) && Open(fs, q) == Some(TargetOf(SlotsAt(fs, d)[k]))
  }

  /** The call neither creates nor records over q. */
  ghost predicate Spares(fs: Fs, op: R.Op, q: CString)
    requires Slotted(fs.vol) && EachIsChain(fs.vol.fat, fs.chains)
  {
    match op
    case Create(path, stamp) => !CreatedOver(fs, path, FileSlot(NameOf(path), stamp), q)
    case Mkdir(path, stamp) => !CreatedOver(fs, path, DirSlot(NameOf(path), FirstFree(fs.vol.fat), stamp), q)
    case Record(_, path, _) => !RecordedOver(fs, path, q)
    case _ => true
  }

  lemma CreateSpares(fs: Fs, path: CString, stamp: Stamp, q: CString)
    requires FsOk(fs) && Slotted(fs.vol) && EachIsChain(fs.vol.fat, fs.chains) && OnCourse(fs, path)
    requires !CreatedOver(fs, path, FileSlot(NameOf(path), stamp), q)
    ensures var fs' := CreateRun(fs, path, stamp).1;
            Slotted(fs'.vol) && EachIsChain(fs'.vol.fat, fs'.chains) && Open(fs', q) == Open(fs, q)
  {
    hide FsOk, Slotted, EachIsChain, ParentOf, NameOf, FileSlot, Meets, OnCourse, Open, EntryIndex;
    if CreateRun(fs, path, stamp).0 {
      OpensAfterCreate(fs, path, stamp, q);
    }
  }

  lemma MkdirSpares(fs: Fs, path: CString, stamp: Stamp, q: CString)
    requires FsOk(fs) && Slotted(fs.vol) && EachIsChain(fs.vol.fat, fs.chains) && OnCourse(fs, path)
    requires !CreatedOver(fs, path, DirSlot(NameOf(path), FirstFree(fs.vol.fat), stamp), q)
    ensures var fs' := MkdirRun(fs, path, stamp).1;
            Slotted(fs'.vol) && EachIsChain(fs'.vol.fat, fs'.chains) && Open(fs', q) == Open(fs, q)
  {
    hide FsOk, Slotted, EachIsChain, ParentOf, NameOf, DirSlot, Meets, OnCourse, Open, EntryIndex, MkdirRun, FirstFree;
    OpensAfterMkdir(fs, path, stamp, q);
  }

  lemma RecordSpares(fs: Fs, path: CString, start: nat, size: nat, stamp: Stamp, q: CString)
    requires FsOk(fs) && Slotted(fs.vol) && EachIsChain(fs.vol.fat, fs.chains) && R.Recordable(fs, path) && OnCourse(fs, path)
    requires !RecordedOver(fs, path, q)
    ensures var fs' := UpdateRun(fs, path, start, size, stamp).1;
            Slotted(fs'.vol) && EachIsChain(fs'.vol.fat, fs'.chains) && Open(fs', q) == Open(fs, q)
  {
    hide DirOk, Covers, Disjoint, EachIsChain, FatOk, SlotsAt, ParentOf, NameOf, EntryAt, UpdateEntry, UpdatedSlot, OnCourse, Resolve, TargetOf;
    ParentInDirs(fs, path);
    var d := ParentOf(fs, path).value;
    var k :| EntryAt(fs, d, NameOf(path), k);
    RecordedEntry(fs, d, NameOf(path), k, start, size, stamp, q);
  }

  lemma RecordedEntry(fs: Fs, d: nat, name: CString, k: nat, start: nat, size: nat, stamp: Stamp, q: CString)
    requires FsOk(fs) && EntryAt(fs, d, name, k) && InRange(fs.vol.fat, d)
    ensures k < |SlotsAt(fs, d)| && UpdateEntry(fs.vol, d, name, start, size, stamp.time, stamp.date).Some?
    ensures var fs' := fs.(vol := UpdateEntry(fs.vol, d, name, start, size, stamp.time, stamp.date).value);
            && Slotted(fs'.vol) && EachIsChain(fs'.vol.fat, fs'.chains)
            && (Open(fs, q) != Some(TargetOf(SlotsAt(fs, d)[k])) ==> Open(fs', q) == Open(fs, q))
  {
    hide DirOk, Covers, Disjoint, FatOk, ChainSlots, UpdateEntry, UpdatedSlot, Resolve, TargetOf, Hit, NamedAlike, IsChain;
    UpdateRewritesEntry(fs, d, name, k, start, size, stamp);
    var fs' := fs.(vol := UpdateEntry(fs.vol, d, name, start, size, stamp.time, stamp.date).value);
    var e := UpdatedSlot(SlotsAt(fs, d)[k], start, size, stamp.time, stamp.date);
    ResolveAfterSave(fs, fs', d, k, e, fs.root, Upper(q));
  }

  lemma RegrowSpares(fs: Fs, start: nat, v: Vol, ch: seq<nat>, q: CString)
    requires FsOk(fs) && IsFileStart(fs, start) && RegrownVol(fs, start, v, ch)
    ensures var fs' := RegrowFs(fs, start, v, ch);
            && Slotted(fs.vol) && EachIsChain(fs.vol.fat, fs.chains) && Slotted(fs'.vol) && EachIsChain(fs'.vol.fat, fs'.chains)
            && Open(fs', q) == Open(fs, q)
  {
    hide DirOk, Covers, Disjoint, FatOk, ChainSlots, RegrownVol, Rechain, Resolve, IsChain;
    RegrowKeepsFsOk(fs, start, v, ch);
    ResolveSame(fs, RegrowFs(fs, start, v, ch), fs.root, Upper(q));
  }

  /** The path opens as the same thing in both worlds. */
  ghost predicate SameOpen(w: R.World, w': R.World, q: CString)
    requires R.WorldOk(w) && R.WorldOk(w')
  {
    R.FsOfWorld(w);
    R.FsOfWorld(w');
    Open(w'.fs, q) == Open(w.fs, q)
  }

  lemma WriteSpares(w: R.World, f: nat, buf: seq<byte>, q: CString)
    requires R.WorldOk(w) && R.Enabled(w, R.Write(f, buf))
    ensures R.WorldOk(R.Step(w, R.Write(f, buf))) && SameOpen(w, R.Step(w, R.Write(f, buf)), q)
  {
    hide R.WorldOk, R.Step, R.Answer, CursorOk, Content, FsOk, WriteRun, WriteChain, Writable, RegrownVol, RegrowFs,
         MayWrite, Grown, WriteAt, Open, Slotted, EachIsChain;
    WorldHasFs(w);
    WriteIs(w, f, buf);
    R.WriteIsUsable(w, f, buf);
    var (v, h) := (w.fs.vol, w.files[f]);
    var ch := ChainOf(w.fs.chains, h.start);
    PlacedWrite(v, h, ch, buf);
    WriteRegrows(w.fs, h, buf);
    RegrowSpares(w.fs, h.start, WriteRun(v, h, buf).vol, WriteChain(v, h, ch, buf), q);
  }

  lemma RewriteSpares(w: R.World, f: nat, buf: seq<byte>, q: CString)
    requires R.WorldOk(w) && R.Enabled(w, R.Rewrite(f, buf))
    ensures R.WorldOk(R.Step(w, R.Rewrite(f, buf))) && SameOpen(w, R.Step(w, R.Rewrite(f, buf)), q)
  {
    hide R.WorldOk, R.Step, R.Answer, CursorOk, Content, FsOk, RewriteRun, RewriteChain, RegrownVol, RegrowFs, Open, Slotted, EachIsChain;
    WorldHasFs(w);
    RewriteIs(w, f, buf);
    FileOkOf(w, f);
    var start := w.files[f].start;
    RewriteRegrows(w.fs, start, buf);
    RegrowSpares(w.fs, start, RewriteRun(w.fs.vol, start, buf).vol, RewriteChain(w.fs.vol, start, buf), q);
  }

  lemma StepSpares(w: R.World, op: R.Op, q: CString)
    requires R.WorldOk(w) && R.Enabled(w, op)
    requires Slotted(w.fs.vol) && EachIsChain(w.fs.vol.fat, w.fs.chains) && Spares(w.fs, op, q)
    ensures R.WorldOk(R.Step(w, op)) && SameOpen(w, R.Step(w, op), q)
  {
    hide R.WorldOk, R.Step, R.Answer, R.Enabled, FsOk, Slotted, EachIsChain, CreateRun, MkdirRun, UpdateRun, CreatedOver, RecordedOver, OnCourse,
         Open, R.Recordable, FileSlot, DirSlot, NameOf, FirstFree, ReadRun, SeekWalk, CursorOk;
    R.FsOfWorld(w);
    match op
    case Create(path, stamp) => CreateIs(w, path, stamp); CreateSpares(w.fs, path, stamp, q);
    case Mkdir(path, stamp) => MkdirIs(w, path, stamp); MkdirSpares(w.fs, path, stamp, q);
    case Record(f, path, stamp) =>
      RecordIs(w, f, path, stamp);
      R.EnabledRecordable(w, f, path, stamp);
      RecordSpares(w.fs, path, w.files[f].start, w.files[f].size, stamp, q);
    case Write(f, buf) => WriteSpares(w, f, buf, q);
    case Rewrite(f, buf) => RewriteSpares(w, f, buf, q);
    case OpenFile(f, path) => OpenIs(w, f, path);
    case Read(f, n) => ReadIs(w, f, n);
    case Seek(f, offset) => SeekIs(w, f, offset);
    case Close(f) => CloseIs(w, f);
  }

  // ---------- whole runs ----------

  /** No call of the run creates or records over q. */
  ghost predicate SparesAll(w: R.World, ops: seq<R.Op>, q: CString)
    requires R.WorldOk(w) && IssuableRun(w, ops)
    decreases |ops|
  {
    R.FsOfWorld(w);
    ops == [] || (R.StepKeepsWorld(w, ops[0]); Spares(w.fs, ops[0], q) && SparesAll(R.Step(w, ops[0]), ops[1..], q))
  }

  /** After every such run the path opens as it did, or still does not. */
  lemma {:induction false} PathStays(w: R.World, ops: seq<R.Op>, q: CString)
    requires R.WorldOk(w) && IssuableRun(w, ops) && SparesAll(w, ops, q)
    ensures SameOpen(w, R.Run(w, ops), q)
    decreases |ops|
  {
    hide R.WorldOk, R.Step, R.Enabled, Issuable, Spares, Open, Slotted, EachIsChain;
    R.FsOfWorld(w);
    if ops != [] {
      OneDone(w, ops);
      FirstDeed(w, ops);
      StepSpares(w, ops[0], q);
      PathStays(R.Step(w, ops[0]), ops[1..], q);
    }
  }

  lemma SameOpenMeans(w: R.World, w': R.World, q: CString)
    requires R.WorldOk(w) && R.WorldOk(w') && SameOpen(w, w', q)
    ensures FsOk(w.fs) && FsOk(w'.fs) && Slotted(w.fs.vol) && EachIsChain(w.fs.vol.fat, w.fs.chains)
    ensures Slotted(w'.fs.vol) && EachIsChain(w'.fs.vol.fat, w'.fs.chains) && Open(w'.fs, q) == Open(w.fs, q)
  {
    R.FsOfWorld(w);
    R.FsOfWorld(w');
    hide R.WorldOk, FsOk, Open;
  }

  /** The file could be opened now through q. */
  ghost predicate CouldOpen(w: R.World, q: CString, s: nat, size: nat)
    requires R.WorldOk(w)
  {
    R.FsOfWorld(w);
    Open(w.fs, q) == Some(File(s, size)) && R.FileOk(w.fs, R.Opened(s, size))
  }

  /**
   Over every run that does not open the file, nor creates or records over its path: the path still opens as the same
   file, it can be opened, and it then has exactly the bytes that it had before.
   */
  lemma SameFileAgain(w: R.World, ops: seq<R.Op>, s: nat, size: nat, q: CString, f: nat)
    requires R.WorldOk(w) && IssuableRun(w, ops) && IsClosed(w, s) && NeverOpens(w, ops, s) && SparesAll(w, ops, q)
    requires CouldOpen(w, q, s, size) && f !in R.Run(w, ops).files
    ensures R.WorldOk(R.Run(w, ops)) && R.FileOk(w.fs, R.Opened(s, size)) && R.Enabled(R.Run(w, ops), R.OpenFile(f, q))
    ensures DeedOf(R.Run(w, ops), R.OpenFile(f, q)) == Opens(f, BytesOf(w.fs, R.Opened(s, size)))
  {
    hide R.WorldOk, R.Run, IssuableRun, NeverOpens, SparesAll, Open, FsOk, R.FileOk, Slotted, EachIsChain;
    var w' := R.Run(w, ops);
    CouldOpenMeans(w, q, s, size);
    PathStays(w, ops, q);
    SameOpenMeans(w, w', q);
    ClosedFilesKept(w, ops, s);
    SameFile(w, w', s, size);
    OpensAgain(w', q, s, size, f);
  }

  lemma OpensAgain(w: R.World, q: CString, s: nat, size: nat, f: nat)
    requires R.WorldOk(w) && IsClosed(w, s) && CouldOpen(w, q, s, size) && f !in w.files
    ensures R.Enabled(w, R.OpenFile(f, q)) && DeedOf(w, R.OpenFile(f, q)) == Opens(f, BytesOf(w.fs, R.Opened(s, size)))
  {
    hide R.WorldOk, R.FileOk, FsOk, Open, Content;
    R.FsOfWorld(w);
  }

  lemma CouldOpenMeans(w: R.World, q: CString, s: nat, size: nat)
    requires R.WorldOk(w) && CouldOpen(w, q, s, size)
    ensures FsOk(w.fs) && Slotted(w.fs.vol) && EachIsChain(w.fs.vol.fat, w.fs.chains)
    ensures Open(w.fs, q) == Some(File(s, size)) && R.FileOk(w.fs, R.Opened(s, size))
  {
    R.FsOfWorld(w);
    hide R.WorldOk, R.FileOk, FsOk, Open;
  }

  lemma SameFile(w: R.World, w': R.World, s: nat, size: nat)
    requires R.WorldOk(w) && R.WorldOk(w') && StaysClosed(w, w', s) && R.FileOk(w.fs, R.Opened(s, size))
    ensures IsClosed(w', s) && R.FileOk(w'.fs, R.Opened(s, size)) && BytesOf(w'.fs, R.Opened(s, size)) == BytesOf(w.fs, R.Opened(s, size))
  {
    hide R.WorldOk, R.FileOk, FsOk, Readable, ChainBytes;
    R.FsOfWorld(w);
    R.FsOfWorld(w');
    PartsOf(w.fs);
    PartsOf(w'.fs);
    R.FileOkFramed(w.fs, w'.fs, R.Opened(s, size));
    SameBytes(w.fs, w'.fs, R.Opened(s, size));
  }
}
