/**
 Whole runs: any sequence of opens, reads, seeks, writes, rewrites, creations, new directories, entry
 updates and closes, over any number of open files with different chains, keeps the volume and every cursor well formed.
 */
module Runs {
  import opened Arith
  import opened Bytes
  import opened FatTable
  import opened FileSpec
  import opened FileCursor
  import opened FileWrite
  import opened MidWrite
  import opened Chains
  import opened Names
  import opened DirSlots
  import opened Directory
  import opened FileOps
  import opened FsOps
  import opened PathOps
  import opened Persistence

  /** A mounted file system and the files open on it. */
  datatype World = World(fs: Fs, files: map<nat, Handle>)

  datatype Op =
    | OpenFile(fd: nat, path: CString)
    | Read(fd: nat, n: nat)
    | Seek(fd: nat, offset: nat)
    | Write(fd: nat, buf: seq<byte>)
    | Rewrite(fd: nat, buf: seq<byte>)
    | Create(path: CString, stamp: Stamp)
    | Mkdir(path: CString, stamp: Stamp)
    | Record(fd: nat, path: CString, stamp: Stamp)
    | Close(fd: nat)

  /**
   An open file: its chain belongs to it, is as long as its size needs, and its cursor stands on it; sizes are
   32-bit numbers.
   */
  ghost predicate FileOk(fs: Fs, h: Handle) {
    && IsFileStart(fs, h.start) && h.size < UINT32 && fs.vol.csize < UINT32
    && Settled(fs.vol, h, ChainOf(fs.chains, h.start))
  }

  ghost predicate WorldOk(w: World) {
    && FsOk(w.fs)
    && (forall f :: f in w.files ==> FileOk(w.fs, w.files[f]))
    && (forall f, g :: f in w.files && g in w.files && f != g && w.files[f].start != 0 ==>
          w.files[f].start != w.files[g].start)
  }

  /** The handle that fat32_open_file fills for a file's entry. */
  function Opened(start: nat, size: nat): Handle {
    Handle(start, start, 0, 0, size)
  }

  /** The path leads to a file that its entry describes rightly and that is not open yet. */
  ghost predicate Openable(w: World, path: CString)
    requires WorldOk(w)
  {
    match Open(w.fs, path)
    case Some(File(start, size)) =>
      FileOk(w.fs, Opened(start, size)) && (start != 0 ==> forall g :: g in w.files ==> w.files[g].start != start)
    case _ => false
  }

  /** The path leads to nothing, or to a directory, whose handle is not among the files. */
  predicate LeadsToNoFile(fs: Fs, path: CString)
    requires Slotted(fs.vol) && EachIsChain(fs.vol.fat, fs.chains)
  {
    match Open(fs, path) case None => true case Some(Dir(_)) => true case _ => false
  }

  /** The path's entry is a file's, where fat32_update_file_entry finds it. */
  ghost predicate Recordable(fs: Fs, path: CString)
    requires FsOk(fs)
  {
    ParentOf(fs, path).Some? && exists k :: EntryAt(fs, ParentOf(fs, path).value, NameOf(path), k)
  }

  /**
   Whether a call is made: on open files only; writes only from the file's last cluster, or inside a cluster before
   it, and up to 4 GiB; an entry is updated from an open file's handle.
   */
  ghost predicate Enabled(w: World, op: Op)
    requires WorldOk(w)
  {
    match op
    case OpenFile(f, path) => f !in w.files && (Openable(w, path) || LeadsToNoFile(w.fs, path))
    case Read(f, _) => f in w.files
    case Seek(f, offset) => f in w.files && (offset <= w.files[f].size ==> Reachable(w.fs.vol, offset))
    case Write(f, buf) =>
      f in w.files && w.files[f].off + |buf| < UINT32
      && MayWrite(w.fs.vol, w.files[f], ChainOf(w.fs.chains, w.files[f].start), |buf|)
    case Rewrite(f, buf) => f in w.files && |buf| < UINT32
    case Create(path, _) => OnCourse(w.fs, path)
    case Mkdir(path, _) => OnCourse(w.fs, path)
    case Record(f, path, _) => f in w.files && Recordable(w.fs, path)
    case Close(f) => f in w.files
  }

  lemma FileIsUsable(w: World, f: nat)
    requires WorldOk(w) && f in w.files
    ensures var (v, h, ch) := (w.fs.vol, w.files[f], ChainOf(w.fs.chains, w.files[f].start));
            && VolOk(v) && (h.off < h.size ==> InRange(v.fat, h.cur))
            && (h.start == 0 || InRange(v.fat, h.start)) && (h.start == 0 ==> h.size < v.csize) && v.csize < UINT32
  {
    hide FsOk;
    assert FileOk(w.fs, w.files[f]);
  }

  lemma WriteIsUsable(w: World, f: nat, buf: seq<byte>)
    requires WorldOk(w) && Enabled(w, Write(f, buf))
    ensures var (v, h) := (w.fs.vol, w.files[f]);
            VolOk(v) && IsFileStart(w.fs, h.start) && Settled(v, h, ChainOf(w.fs.chains, h.start)) && Writable(v, h)
  {
    hide FsOk, CursorOk, StaysInside, AtTail;
    assert FileOk(w.fs, w.files[f]);
    FileIsUsable(w, f);
    MayWriteIsWritable(w.fs.vol, w.files[f], ChainOf(w.fs.chains, w.files[f].start), |buf|);
  }

  /** What a call returns: the bytes read, or whether it succeeded. */
  datatype Reply = Bytes(bytes: seq<byte>) | Done(ok: bool)

  lemma FsOfWorld(w: World)
    requires WorldOk(w)
    ensures FsOk(w.fs) && Slotted(w.fs.vol) && EachIsChain(w.fs.vol.fat, w.fs.chains)
  {
  }

  /** An enabled open does not stray, and a file that it finds can be opened. */
  lemma OpensFile(w: World, f: nat, path: CString)
    requires WorldOk(w) && Enabled(w, OpenFile(f, path))
    ensures f !in w.files && Slotted(w.fs.vol) && EachIsChain(w.fs.vol.fat, w.fs.chains)
    ensures match Open(w.fs, path)
            case Some(File(start, size)) => FileOk(w.fs, Opened(start, size))
            case Some(Astray) => false
            case _ => true
  {
    hide FsOk, FileOk, Open;
    FsOfWorld(w);
  }

  ghost function OpenEffect(w: World, f: nat, path: CString): (World, Reply)
    requires WorldOk(w) && Enabled(w, OpenFile(f, path))
  {
    match Open(w.fs, path)
    case Some(File(start, size)) => (w.(files := w.files[f := Opened(start, size)]), Done(true))
    case target => (w, Done(target.Some?))
  }

  ghost function ReadEffect(w: World, f: nat, n: nat): (World, Reply)
    requires WorldOk(w) && Enabled(w, Read(f, n))
  {
    FileIsUsable(w, f);
    var (h, bytes) := ReadRun(w.fs.vol, w.files[f], n);
    (w.(files := w.files[f := h]), Bytes(bytes))
  }

  ghost function SeekEffect(w: World, f: nat, offset: nat): (World, Reply)
    requires WorldOk(w) && Enabled(w, Seek(f, offset))
  {
    FileIsUsable(w, f);
    var (ok, h) := SeekRun(w.fs.vol, w.files[f], offset);
    (w.(files := w.files[f := h]), Done(ok))
  }

  ghost function WriteEffect(w: World, f: nat, buf: seq<byte>): (World, Reply)
    requires WorldOk(w) && Enabled(w, Write(f, buf))
  {
    WriteIsUsable(w, f, buf);
    var h := w.files[f];
    var r := WriteRun(w.fs.vol, h, buf);
    var fs := RegrowFs(w.fs, h.start, r.vol, WriteChain(w.fs.vol, h, ChainOf(w.fs.chains, h.start), buf));
    (World(fs, w.files[f := r.handle]), Done(r.count == |buf|))
  }

  ghost function RewriteEffect(w: World, f: nat, buf: seq<byte>): (World, Reply)
    requires WorldOk(w) && Enabled(w, Rewrite(f, buf))
  {
    FileIsUsable(w, f);
    var start := w.files[f].start;
    var r := RewriteRun(w.fs.vol, start, buf);
    (World(RegrowFs(w.fs, start, r.vol, RewriteChain(w.fs.vol, start, buf)), w.files[f := r.handle]), Done(r.count == |buf|))
  }

  ghost function TreeEffect(w: World, result: (bool, Fs)): (World, Reply) {
    (w.(fs := result.1), Done(result.0))
  }

  lemma RecordableIsOnCourse(fs: Fs, path: CString)
    requires FsOk(fs) && Recordable(fs, path)
    ensures Slotted(fs.vol) && EachIsChain(fs.vol.fat, fs.chains) && OnCourse(fs, path)
  {
    hide EntryAt;
  }

  lemma EnabledIsOnCourse(w: World, op: Op)
    requires WorldOk(w) && Enabled(w, op) && (op.Create? || op.Mkdir? || op.Record?)
    ensures FsOk(w.fs) && Slotted(w.fs.vol) && EachIsChain(w.fs.vol.fat, w.fs.chains) && OnCourse(w.fs, op.path)
    ensures op.Record? ==> op.fd in w.files
  {
    hide WorldOk, FsOk, OnCourse, Recordable;
    FsOfWorld(w);
    if op.Record? {
      RecordableIsOnCourse(w.fs, op.path);
    }
  }

  lemma EnabledRecordable(w: World, f: nat, path: CString, stamp: Stamp)
    requires WorldOk(w) && Enabled(w, Record(f, path, stamp))
    ensures FsOk(w.fs) && Recordable(w.fs, path)
  {
    hide WorldOk, Recordable, FsOk, OnCourse, Openable, MayWrite;
    FsOfWorld(w);
  }

  ghost function CreateEffect(w: World, path: CString, stamp: Stamp): (World, Reply)
    requires WorldOk(w) && Enabled(w, Create(path, stamp))
  {
    hide *;
    EnabledIsOnCourse(w, Create(path, stamp));
    TreeEffect(w, CreateRun(w.fs, path, stamp))
  }

  ghost function MkdirEffect(w: World, path: CString, stamp: Stamp): (World, Reply)
    requires WorldOk(w) && Enabled(w, Mkdir(path, stamp))
  {
    hide *;
    EnabledIsOnCourse(w, Mkdir(path, stamp));
    TreeEffect(w, MkdirRun(w.fs, path, stamp))
  }

  ghost function RecordEffect(w: World, f: nat, path: CString, stamp: Stamp): (World, Reply)
    requires WorldOk(w) && Enabled(w, Record(f, path, stamp))
  {
    hide *;
    EnabledIsOnCourse(w, Record(f, path, stamp));
    TreeEffect(w, UpdateRun(w.fs, path, w.files[f].start, w.files[f].size, stamp))
  }

  ghost function CloseEffect(w: World, f: nat): (World, Reply) {
    (w.(files := w.files - {f}), Done(true))
  }

  /** What a call does and returns. */
  ghost function Effect(w: World, op: Op): (World, Reply)
    requires WorldOk(w) && Enabled(w, op)
  {
    hide Enabled, FsOk, FileOk;
    match op
    case OpenFile(f, path) => OpenEffect(w, f, path)
    case Read(f, n) => ReadEffect(w, f, n)
    case Seek(f, offset) => SeekEffect(w, f, offset)
    case Write(f, buf) => WriteEffect(w, f, buf)
    case Rewrite(f, buf) => RewriteEffect(w, f, buf)
    case Create(path, stamp) => CreateEffect(w, path, stamp)
    case Mkdir(path, stamp) => MkdirEffect(w, path, stamp)
    case Record(f, path, stamp) => RecordEffect(w, f, path, stamp)
    case Close(f) => CloseEffect(w, f)
  }

  ghost function Step(w: World, op: Op): World
    requires WorldOk(w)
  {
    if Enabled(w, op) then Effect(w, op).0 else w
  }

  ghost function Answer(w: World, op: Op): Reply
    requires WorldOk(w) && Enabled(w, op)
  {
    Effect(w, op).1
  }

  // ---------- one step ----------

  /** A file keeps its standing in a file system that kept its chain. */
  lemma FileOkFramed(fs: Fs, fs': Fs, h: Handle)
    requires FileOk(fs, h) && FsOk(fs') && fs'.vol.csize == fs.vol.csize
    requires h.start != 0 ==> h.start in fs'.chains && fs'.chains[h.start] == fs.chains[h.start] && h.start !in fs'.dirs
    ensures FileOk(fs', h)
  {
    hide DirOk, Covers, Disjoint, IsChain, Times, Quot, Rem;
  }

  lemma FirstInRange(v: Vol, h: Handle, ch: seq<nat>)
    requires Settled(v, h, ch)
    ensures ch != [] ==> InRange(v.fat, ch[0])
  {
  }

  /** Regrowing one open file keeps the world well formed. */
  lemma RegrowKeepsWorld(w: World, f: nat, v: Vol, ch: seq<nat>, h: Handle)
    requires WorldOk(w) && f in w.files && RegrownVol(w.fs, w.files[f].start, v, ch) && Settled(v, h, ch)
    requires h.size < UINT32
    ensures WorldOk(World(RegrowFs(w.fs, w.files[f].start, v, ch), w.files[f := h]))
  {
    hide DirOk, Covers, Disjoint, EachIsChain, IsChain, FatOk, Times, Quot, Rem, Regrown, FsOk, Rechain;
    var start := w.files[f].start;
    assert FileOk(w.fs, w.files[f]);
    var fs' := RegrowFs(w.fs, start, v, ch);
    RegrowKeepsFsOk(w.fs, start, v, ch);
    FirstInRange(v, h, ch);
    NewFileOk(fs', h, ch);
    forall g | g in w.files && g != f
      ensures FileOk(fs', w.files[g]) && (h.start != 0 ==> w.files[g].start != h.start)
    {
      var s := w.files[g].start;
      assert FileOk(w.fs, w.files[g]);
      if s != 0 {
        RegrowKeepsOthers(w.fs, start, v, ch, s);
      }
      FileOkFramed(w.fs, fs', w.files[g]);
    }
  }

  lemma NewFileOk(fs: Fs, h: Handle, ch: seq<nat>)
    requires Settled(fs.vol, h, ch) && h.size < UINT32 && fs.vol.csize < UINT32
    requires ch != [] ==> ch[0] in fs.chains && fs.chains[ch[0]] == ch && ch[0] !in fs.dirs && ch[0] != 0
    ensures FileOk(fs, h) && (h.start != 0 ==> ch != [] && h.start == ch[0])
  {
  }

  /** Creating a file or a directory leaves all other chains, and with them all open files, alone. */
  lemma TreeStepKeepsWorld(w: World, fs': Fs)
    requires WorldOk(w) && FsOk(fs') && fs'.vol.csize == w.fs.vol.csize
    requires forall s :: s in w.fs.chains && s !in w.fs.dirs ==>
               s in fs'.chains && fs'.chains[s] == w.fs.chains[s] && s !in fs'.dirs
    ensures WorldOk(w.(fs := fs'))
  {
    hide FsOk, CursorOk;
    forall g | g in w.files ensures FileOk(fs', w.files[g]) {
      assert FileOk(w.fs, w.files[g]);
      FileOkFramed(w.fs, fs', w.files[g]);
    }
  }

  lemma CreateKeepsChains(fs: Fs, path: CString, stamp: Stamp)
    requires FsOk(fs) && OnCourse(fs, path)
    ensures var fs' := CreateRun(fs, path, stamp).1;
            fs'.chains == fs.chains && fs'.dirs == fs.dirs && fs'.vol.csize == fs.vol.csize
  {
    hide DirOk, Covers, Disjoint, EachIsChain, ParentOf, MakeSlot, Encode;
  }

  lemma MkdirKeepsChains(fs: Fs, path: CString, stamp: Stamp)
    requires FsOk(fs) && OnCourse(fs, path)
    ensures var fs' := MkdirRun(fs, path, stamp).1;
            && fs'.vol.csize == fs.vol.csize
            && forall s :: s in fs.chains && s !in fs.dirs ==>
                 s in fs'.chains && fs'.chains[s] == fs.chains[s] && s !in fs'.dirs
  {
    hide DirOk, Covers, Disjoint, EachIsChain, ParentOf, DirSlot, NewDir;
    ParentInDirs(fs, path);
    if ParentOf(fs, path).Some? && FirstFree(fs.vol.fat) != 0 {
      NewDirVol(fs, ParentOf(fs, path).value);
    }
  }

  lemma CursorStepKeepsWorld(w: World, f: nat, h: Handle)
    requires WorldOk(w) && f in w.files && h.start == w.files[f].start && h.size == w.files[f].size
    requires CursorOk(w.fs.vol, h, ChainOf(w.fs.chains, h.start))
    ensures WorldOk(w.(files := w.files[f := h]))
  {
    hide FsOk, CursorOk;
    assert FileOk(w.fs, w.files[f]);
    assert FileOk(w.fs, h);
  }

  lemma StepKeepsWorld(w: World, op: Op)
    requires WorldOk(w)
    ensures WorldOk(Step(w, op))
  {
    hide FsOk, FileOk, CursorOk, MayWrite, ReadRun, SeekRun, WriteRun, RewriteRun, WriteChain, RewriteChain, RegrowFs,
         CreateRun, MkdirRun, UpdateRun, RegrownVol, Content, Recordable, Openable, OnCourse;
    if Enabled(w, op) {
      match op
      case OpenFile(f, path) =>
        OpenStep(w, f, path);
      case Read(f, n) =>
        FileIsUsable(w, f);
        ReadStep(w, f, n);
      case Seek(f, offset) =>
        FileIsUsable(w, f);
        SeekStep(w, f, offset);
      case Write(f, buf) =>
        WriteStep(w, f, buf);
      case Rewrite(f, buf) =>
        FileIsUsable(w, f);
        RewriteStep(w, f, buf);
      case Create(path, stamp) =>
        CreateKeepsFsOk(w.fs, path, stamp);
        CreateKeepsChains(w.fs, path, stamp);
        TreeStepKeepsWorld(w, CreateRun(w.fs, path, stamp).1);
      case Mkdir(path, stamp) =>
        MkdirKeepsFsOk(w.fs, path, stamp);
        MkdirKeepsChains(w.fs, path, stamp);
        TreeStepKeepsWorld(w, MkdirRun(w.fs, path, stamp).1);
      case Record(f, path, stamp) =>
        RecordableIsOnCourse(w.fs, path);
        RecordKeepsFs(w.fs, path, w.files[f].start, w.files[f].size, stamp);
        TreeStepKeepsWorld(w, UpdateRun(w.fs, path, w.files[f].start, w.files[f].size, stamp).1);
      case Close(f) =>
    }
  }

  lemma OpenStep(w: World, f: nat, path: CString)
    requires WorldOk(w) && Enabled(w, Op.OpenFile(f, path))
    ensures WorldOk(Step(w, Op.OpenFile(f, path)))
  {
    hide FsOk, FileOk, Open;
  }

  /** An update of a file's entry keeps the file system well formed and every chain as it was. */
  lemma RecordKeepsFs(fs: Fs, path: CString, start: nat, size: nat, stamp: Stamp)
    requires FsOk(fs) && Recordable(fs, path)
    ensures Slotted(fs.vol) && EachIsChain(fs.vol.fat, fs.chains) && OnCourse(fs, path)
    ensures var fs' := UpdateRun(fs, path, start, size, stamp).1;
            FsOk(fs') && fs'.vol.csize == fs.vol.csize && fs'.chains == fs.chains && fs'.dirs == fs.dirs
  {
    hide DirOk, Covers, Disjoint, EachIsChain, ParentOf, NameOf, EntryAt, UpdateEntry, UpdatedSlot, OnCourse, SlotsAt;
    RecordableIsOnCourse(fs, path);
    ParentInDirs(fs, path);
    var k :| EntryAt(fs, ParentOf(fs, path).value, NameOf(path), k);
    UpdateRewritesEntry(fs, ParentOf(fs, path).value, NameOf(path), k, start, size, stamp);
  }

  lemma ReadStep(w: World, f: nat, n: nat)
    requires WorldOk(w) && f in w.files
    ensures WorldOk(Step(w, Op.Read(f, n)))
  {
    hide FsOk, ReadRun;
    assert FileOk(w.fs, w.files[f]);
    FileIsUsable(w, f);
    ReadMovesCursor(w.fs.vol, w.files[f], ChainOf(w.fs.chains, w.files[f].start), n);
    hide CursorOk;
    CursorStepKeepsWorld(w, f, ReadRun(w.fs.vol, w.files[f], n).0);
  }

  lemma SeekStep(w: World, f: nat, offset: nat)
    requires WorldOk(w) && Enabled(w, Op.Seek(f, offset))
    ensures WorldOk(Step(w, Op.Seek(f, offset)))
  {
    hide FsOk, SeekWalk;
    assert FileOk(w.fs, w.files[f]);
    FileIsUsable(w, f);
    var ch := ChainOf(w.fs.chains, w.files[f].start);
    SeekMovesCursor(w.fs.vol, w.files[f], ch, offset);
    var (ok, h) := SeekRun(w.fs.vol, w.files[f], offset);
    assert CursorOk(w.fs.vol, h, ch);
    assert h.start == w.files[f].start && h.size == w.files[f].size;
    hide CursorOk;
    CursorStepKeepsWorld(w, f, h);
  }

  lemma WriteStep(w: World, f: nat, buf: seq<byte>)
    requires WorldOk(w) && f in w.files && Enabled(w, Op.Write(f, buf))
    ensures WorldOk(Step(w, Op.Write(f, buf)))
  {
    hide FsOk, CursorOk, WriteRun, WriteChain, RegrowFs, RegrownVol, MayWrite, Content, WriteAt, Grown, Times;
    WriteIsUsable(w, f, buf);
    assert FileOk(w.fs, w.files[f]);
    var h := w.files[f];
    var ch := ChainOf(w.fs.chains, h.start);
    PlacedWrite(w.fs.vol, h, ch, buf);
    WriteRegrows(w.fs, h, buf);
    var r := WriteRun(w.fs.vol, h, buf);
    RegrowKeepsWorld(w, f, r.vol, WriteChain(w.fs.vol, h, ch, buf), r.handle);
  }

  lemma RewriteStep(w: World, f: nat, buf: seq<byte>)
    requires WorldOk(w) && Enabled(w, Op.Rewrite(f, buf))
    ensures WorldOk(Step(w, Op.Rewrite(f, buf)))
  {
    hide FsOk, CursorOk, WriteReady, RewriteRun, RewriteChain, RegrowFs, RegrownVol, Content, Ceil, Settled;
    FileIsUsable(w, f);
    assert FileOk(w.fs, w.files[f]);
    var start := w.files[f].start;
    RewriteRegrows(w.fs, start, buf);
    FileStartInRange(w.fs, start);
    RewriteReplacesFile(w.fs.vol, start, ChainOf(w.fs.chains, start), buf);
    var r := RewriteRun(w.fs.vol, start, buf);
    ReadyIsSettled(r.vol, r.handle, RewriteChain(w.fs.vol, start, buf));
    RegrowKeepsWorld(w, f, r.vol, RewriteChain(w.fs.vol, start, buf), r.handle);
  }

  // ---------- whole runs ----------

  ghost function Run(w: World, ops: seq<Op>): (r: World)
    requires WorldOk(w)
    ensures WorldOk(r)
    decreases |ops|
  {
    if ops == [] then w
    else
      StepKeepsWorld(w, ops[0]);
      Run(Step(w, ops[0]), ops[1..])
  }

  /** No chain visits a cluster twice. */
  ghost predicate Acyclic(chains: ChainMap) {
    forall s, i, j :: s in chains && 0 <= i < j < |chains[s]| ==> chains[s][i] != chains[s][j]
  }

  /** The clusters in no chain are exactly those with a zero entry. */
  ghost predicate FreeIsUnchained(fat: Fat, chains: ChainMap) {
    forall c :: 2 <= c < |fat| ==> (fat[c] == 0 <==> forall s :: s in chains ==> c !in chains[s])
  }

  /**
   Every chain starts where its file starts, follows the table's entries inside the volume to an end mark, and
   visits no cluster twice; no two chains share one, and the clusters in none are the free ones.
   */
  ghost predicate ChainsSafe(fat: Fat, chains: ChainMap) {
    EachIsChain(fat, chains) && Acyclic(chains) && Disjoint(chains) && FreeIsUnchained(fat, chains)
  }

  lemma SoundIsAcyclic(fat: Fat, chains: ChainMap)
    requires Sound(fat, chains)
    ensures Acyclic(chains)
  {
    hide Covers, Disjoint;
    forall s, i, j | s in chains && 0 <= i < j < |chains[s]| ensures chains[s][i] != chains[s][j] {
      hide IsChain;
      ChainIsAcyclic(fat, chains[s], i, j);
    }
  }

  lemma SoundFree(fat: Fat, chains: ChainMap)
    requires Sound(fat, chains)
    ensures FreeIsUnchained(fat, chains)
  {
    hide Sound;
    forall c | 2 <= c < |fat| ensures fat[c] == 0 <==> forall s :: s in chains ==> c !in chains[s] {
      FreeIffUnchained(fat, chains, c);
    }
  }

  lemma SoundIsSafe(fat: Fat, chains: ChainMap)
    requires Sound(fat, chains)
    ensures ChainsSafe(fat, chains)
  {
    hide Covers, Disjoint, FatOk, Acyclic, FreeIsUnchained;
    SoundIsAcyclic(fat, chains);
    SoundFree(fat, chains);
  }

  /** The chains are safe after every run. */
  lemma WholeRunSafety(w: World, ops: seq<Op>)
    requires WorldOk(w)
    ensures ChainsSafe(Run(w, ops).fs.vol.fat, Run(w, ops).fs.chains)
  {
    hide Run, Sound, ChainsSafe, DirOk;
    SoundIsSafe(Run(w, ops).fs.vol.fat, Run(w, ops).fs.chains);
  }
}
