/**
 Runs seen as plain files: every reply and every open file's bytes and offset are those of a map from handles to
 byte sequences, whatever happens to table, clusters and directories underneath.
 */
module PlainRuns {
  import opened Arith
  import opened Bytes
  import opened FatTable
  import opened FileSpec
  import opened FileCursor
  import opened FileWrite
  import opened MidWrite
  import opened Volume
  import opened Chains
  import opened Names
  import opened DirSlots
  import opened Directory
  import opened FileOps
  import opened FsOps
  import opened PathOps
  import opened Session
  import opened PlainFiles
  import R = Runs

  // ---------- what changes of the tree leave alone ----------

  predicate Readable(fs: Fs) {
    VolOk(fs.vol) && EachIsChain(fs.vol.fat, fs.chains)
  }

  /** Every file's chain has the same clusters and the same bytes. */
  ghost predicate FilesKept(fs: Fs, fs': Fs)
    requires Readable(fs) && Readable(fs')
  {
    && fs'.vol.csize == fs.vol.csize
    && forall s :: s in fs.chains && s !in fs.dirs ==> FileKept(fs, fs', s)
  }

  ghost predicate FileKept(fs: Fs, fs': Fs, s: nat)
    requires Readable(fs) && Readable(fs')
    requires s in fs.chains
  {
    && fs'.vol.csize == fs.vol.csize && s in fs'.chains && s !in fs'.dirs && fs'.chains[s] == fs.chains[s]
    && ChainBytes(fs'.vol, fs'.chains[s]) == ChainBytes(fs.vol, fs.chains[s])
  }

  lemma PartsOf(fs: Fs)
    requires FsOk(fs)
    ensures Readable(fs) && Slotted(fs.vol)
  {
  }

  /** Replacing a slot of a directory. */
  lemma SlotKeepsFiles(fs: Fs, d: nat, i: nat, e: Slot)
    requires FsOk(fs) && d in fs.dirs && i < fs.vol.csize / SLOT && InRange(fs.vol.fat, d)
    ensures var fs' := fs.(vol := PutSlot(fs.vol, d, i, e));
            Readable(fs) && Readable(fs') && FilesKept(fs, fs')
  {
    hide FsOk, ChainBytes, SlotsAt, PutSlot, FatOk, Covers, Disjoint, EachIsChain;
    PutSlotAt(fs, d, i, e);
    PartsOf(fs);
  }

  lemma CreateKeepsFiles(fs: Fs, path: CString, stamp: Stamp)
    requires FsOk(fs) && OnCourse(fs, path)
    ensures var fs' := CreateRun(fs, path, stamp).1;
            && Readable(fs) && Readable(fs')
            && FilesKept(fs, fs') && fs'.vol.fat == fs.vol.fat
  {
    hide FsOk, ParentOf, MakeSlot, FirstFreeSlot, EachIsChain, ChainBytes, FilesKept;
    PartsOf(fs);
    ParentInDirs(fs, path);
    if CreateRun(fs, path, stamp).0 {
      var d := ParentOf(fs, path).value;
      SlotKeepsFiles(fs, d, FirstFreeSlot(ClusterSlots(fs.vol, d), 0), FileSlot(NameOf(path), stamp));
    } else {
      NothingKeepsFiles(fs);
    }
  }

  lemma NothingKeepsFiles(fs: Fs)
    requires FsOk(fs)
    ensures Readable(fs) && FilesKept(fs, fs)
  {
  }

  lemma UpdateKeepsFiles(fs: Fs, path: CString, start: nat, size: nat, stamp: Stamp)
    requires FsOk(fs) && OnCourse(fs, path)
    ensures var fs' := UpdateRun(fs, path, start, size, stamp).1;
            && Readable(fs) && Readable(fs')
            && FilesKept(fs, fs') && fs'.vol.fat == fs.vol.fat
  {
    hide FsOk, ParentOf, UpdatedSlot, UpdateIndex, EachIsChain, ChainBytes, FilesKept;
    PartsOf(fs);
    ParentInDirs(fs, path);
    if UpdateRun(fs, path, start, size, stamp).0 {
      var d := ParentOf(fs, path).value;
      var slots := ClusterSlots(fs.vol, d);
      var i := UpdateIndex(slots, 0, NameOf(path));
      SlotKeepsFiles(fs, d, i, UpdatedSlot(slots[i], start, size, stamp.time, stamp.date));
    } else {
      NothingKeepsFiles(fs);
    }
  }

  lemma NewDirKeepsFiles(fs: Fs, d: nat)
    requires FsOk(fs) && d in fs.dirs && FirstFree(fs.vol.fat) != 0
    ensures var fs' := NewDir(fs, d);
            && FsOk(fs') && Readable(fs) && Readable(fs')
            && FilesKept(fs, fs') && |FreeSet(fs'.vol.fat)| == |FreeSet(fs.vol.fat)| - 1
  {
    hide FsOk, NewDir, ChainBytes, SlotsAt, FreeSet, FirstFree, EachIsChain, Slotted, Sound;
    PartsOf(fs);
    NewDirVol(fs, d);
    var fs' := NewDir(fs, d);
    NewDirKeepsFsOk(fs, fs', d);
    PartsOf(fs');
    forall s | s in fs.chains && s !in fs.dirs ensures FileKept(fs, fs', s) {
      NewDirKeepsBytes(fs, fs', d, s);
    }
  }

  /** fat32_mkdir takes one cluster, and has taken it when it fails for want of a slot. */
  lemma MkdirKeepsFiles(fs: Fs, path: CString, stamp: Stamp)
    requires FsOk(fs) && OnCourse(fs, path)
    ensures var fs' := MkdirRun(fs, path, stamp).1;
            && Readable(fs) && Readable(fs')
            && FilesKept(fs, fs')
            && |FreeSet(fs'.vol.fat)| == |FreeSet(fs.vol.fat)|
                 - if ParentOf(fs, path).Some? && FirstFree(fs.vol.fat) != 0 then 1 else 0
  {
    hide FsOk, ParentOf, DirSlot, FirstFreeSlot, NewDir, FirstFree, FreeSet, EachIsChain, ChainBytes, FilesKept;
    PartsOf(fs);
    ParentInDirs(fs, path);
    if ParentOf(fs, path).Some? && FirstFree(fs.vol.fat) != 0 {
      var d, n := ParentOf(fs, path).value, FirstFree(fs.vol.fat);
      var made := NewDir(fs, d);
      NewDirKeepsFiles(fs, d);
      NewDirVol(fs, d);
      if MkdirRun(fs, path, stamp).0 {
        var i := FirstFreeSlot(ClusterSlots(made.vol, d), 0);
        SlotKeepsFiles(made, d, i, DirSlot(NameOf(path), n, stamp));
        KeptTwice(fs, made, made.(vol := PutSlot(made.vol, d, i, DirSlot(NameOf(path), n, stamp))), n);
      }
    } else {
      NothingKeepsFiles(fs);
    }
  }

  /** Two changes, and a cluster that was no file's becoming a directory. */
  lemma KeptTwice(a: Fs, b: Fs, c: Fs, n: nat)
    requires Readable(a) && Readable(b)
    requires Readable(c) && b.dirs == a.dirs && c.dirs == a.dirs && n !in a.chains
    requires FilesKept(a, b) && FilesKept(b, c)
    ensures FilesKept(a, c.(dirs := a.dirs + {n}))
  {
    hide EachIsChain, ChainBytes;
    forall s | s in a.chains && s !in a.dirs ensures FileKept(a, c.(dirs := a.dirs + {n}), s) {
      assert FileKept(a, b, s);
      assert FileKept(b, c, s);
    }
  }

  // ---------- the view ----------

  ghost function BytesOf(fs: Fs, h: Handle): (b: seq<byte>)
    requires R.FileOk(fs, h)
    ensures |b| == h.size
  {
    Content(fs.vol, ChainOf(fs.chains, h.start), h.size)
  }

  ghost function FileView(fs: Fs, h: Handle): PlainFile
    requires R.FileOk(fs, h)
  {
    PlainFile(BytesOf(fs, h), h.off)
  }

  /** The open files as a map from handles to bytes and offset. */
  ghost function FilesView(w: R.World): map<nat, PlainFile>
    requires R.WorldOk(w)
  {
    map f | f in w.files :: FileView(w.fs, w.files[f])
  }

  ghost function View(w: R.World): Plain
    requires R.WorldOk(w)
  {
    Plain(FilesView(w), |FreeSet(w.fs.vol.fat)|)
  }

  /** Opening a file brings the bytes that its entry and its chain say; opening nothing or a directory brings no file. */
  ghost function OpenDeed(w: R.World, f: nat, path: CString): Deed
    requires R.WorldOk(w) && R.Enabled(w, R.OpenFile(f, path))
  {
    hide *;
    R.OpensFile(w, f, path);
    var target := Open(w.fs, path);
    if target.Some? && target.value.File? then Opens(f, BytesOf(w.fs, R.Opened(target.value.start, target.value.size)))
    else Changes(0, target.Some?)
  }

  /** The clusters that a change of the tree takes: one for a directory whose parent exists, if there is one. */
  ghost function Taken(fs: Fs, op: R.Op): nat
    requires FsOk(fs)
  {
    if op.Mkdir? && ParentOf(fs, op.path).Some? && FirstFree(fs.vol.fat) != 0 then 1 else 0
  }

  ghost function DeedOf(w: R.World, op: R.Op): Deed
    requires R.WorldOk(w) && R.Enabled(w, op)
  {
    hide R.WorldOk, R.Enabled;
    match op
    case OpenFile(f, path) => OpenDeed(w, f, path)
    case Read(f, n) => Reads(f, n)
    case Seek(f, offset) => Seeks(f, offset)
    case Write(f, buf) => Writes(f, buf)
    case Rewrite(f, buf) => Rewrites(f, buf)
    case Close(f) => Closes(f)
    case _ =>
      WorldHasFs(w);
      Changes(Taken(w.fs, op), R.Answer(w, op) == R.Done(true))
  }

  /** The step is the plain one, and so is the reply. */
  ghost predicate Refines(w: R.World, op: R.Op)
    requires R.WorldOk(w) && R.Enabled(w, op)
  {
    && R.WorldOk(R.Step(w, op)) && R.Step(w, op).fs.vol.csize == w.fs.vol.csize > 0
    && Doable(View(w), DeedOf(w, op))
    && (View(R.Step(w, op)), R.Answer(w, op)) == Do(View(w), w.fs.vol.csize, DeedOf(w, op))
  }

  lemma FileOkOf(w: R.World, f: nat)
    requires R.WorldOk(w) && f in w.files
    ensures VolOk(w.fs.vol) && w.fs.vol.csize > 0 && R.FileOk(w.fs, w.files[f]) && IsFileStart(w.fs, w.files[f].start)
    ensures Settled(w.fs.vol, w.files[f], ChainOf(w.fs.chains, w.files[f].start))
    ensures f in View(w).files && View(w).files[f] == FileView(w.fs, w.files[f])
    ensures w.files[f].off <= w.files[f].size == |View(w).files[f].bytes|
    ensures |ChainOf(w.fs.chains, w.files[f].start)| == Ceil(w.files[f].size, w.fs.vol.csize)
  {
    assert R.FileOk(w.fs, w.files[f]);
    hide FsOk;
    SettledHasCeil(w.fs.vol, w.files[f], ChainOf(w.fs.chains, w.files[f].start));
  }

  lemma SettledHasCeil(v: Vol, h: Handle, ch: seq<nat>)
    requires Settled(v, h, ch)
    ensures |ch| == Ceil(h.size, v.csize)
  {
    CeilIs(h.size, |ch|, v.csize);
  }

  /** Moving a cursor changes the offset and nothing else. */
  lemma CursorMoves(w: R.World, f: nat, h: Handle)
    requires R.WorldOk(w) && f in w.files && h.start == w.files[f].start && h.size == w.files[f].size
    requires R.WorldOk(w.(files := w.files[f := h]))
    ensures View(w.(files := w.files[f := h])) == View(w).(files := View(w).files[f := View(w).files[f].(off := h.off)])
  {
    hide FsOk, R.FileOk, Content, FreeSet;
    var w' := w.(files := w.files[f := h]);
    assert R.FileOk(w'.fs, w'.files[f]);
    forall g | g in w.files ensures R.FileOk(w.fs, w.files[g]) {
    }
    hide R.WorldOk;
    assert View(w').files == View(w).files[f := View(w).files[f].(off := h.off)];
  }

  lemma ReadRefines(w: R.World, f: nat, n: nat)
    requires R.WorldOk(w) && R.Enabled(w, R.Read(f, n))
    ensures Refines(w, R.Read(f, n))
  {
    hide R.WorldOk, ReadRun, Content, R.Step, R.Answer, View, CursorOk;
    ReadIs(w, f, n);
    FileOkOf(w, f);
    var (v, h, ch) := (w.fs.vol, w.files[f], ChainOf(w.fs.chains, w.files[f].start));
    ReadReturnsContent(v, h, ch, n);
    ReadMovesCursor(v, h, ch, n);
    CursorMoves(w, f, ReadRun(v, h, n).0);
  }

  lemma SeekBounds(v: Vol, h: Handle, ch: seq<nat>, offset: nat)
    requires Settled(v, h, ch) && h.size < UINT32 && v.csize < UINT32 && (offset <= h.size ==> Reachable(v, offset))
    requires (h.start == 0 || InRange(v.fat, h.start)) && (h.start == 0 ==> h.size < v.csize)
    requires offset <= h.size ==> SeekWalk(v, h.start, 0, offset) != Wrapped
    ensures var (ok, h') := SeekRun(v, h, offset);
            && (ok <==> offset <= h.size && (offset < v.csize || Quot(offset, v.csize) < |ch|))
            && h'.start == h.start && h'.size == h.size && h'.off == if offset > h.size then h.off else offset
  {
    hide SeekWalk, IsChain, Quot, Times;
    SeekMovesCursor(v, h, ch, offset);
  }

  lemma SeekRefines(w: R.World, f: nat, offset: nat)
    requires R.WorldOk(w) && R.Enabled(w, R.Seek(f, offset))
    ensures Refines(w, R.Seek(f, offset))
  {
    hide R.WorldOk, SeekRun, SeekWalk, Content, R.Step, R.Answer, View, CursorOk, Quot;
    SeekIs(w, f, offset);
    FileOkOf(w, f);
    var (v, h, ch) := (w.fs.vol, w.files[f], ChainOf(w.fs.chains, w.files[f].start));
    SeekBounds(v, h, ch, offset);
    CursorMoves(w, f, SeekRun(v, h, offset).1);
    assert View(w).files[f := View(w).files[f]] == View(w).files;
  }

  // ---------- what becomes of one file ----------

  /** One file of the world becomes h in fs', all other open files keep their chains and bytes. */
  lemma OneFileChanges(w: R.World, f: nat, fs': Fs, h: Handle)
    requires R.WorldOk(w) && f in w.files && R.WorldOk(R.World(fs', w.files[f := h]))
    requires Readable(w.fs) && Readable(fs')
    requires forall s :: s in w.fs.chains && s !in w.fs.dirs && s != w.files[f].start ==> FileKept(w.fs, fs', s)
    ensures R.FileOk(fs', h)
    ensures View(R.World(fs', w.files[f := h])) ==
            Plain(View(w).files[f := FileView(fs', h)], |FreeSet(fs'.vol.fat)|)
  {
    hide FsOk, Content, FreeSet, EachIsChain, FileKept, VolOk, Settled;
    var w' := R.World(fs', w.files[f := h]);
    assert R.FileOk(fs', w'.files[f]);
    forall g | g in w.files && g != f
      ensures R.FileOk(w.fs, w.files[g]) && R.FileOk(fs', w'.files[g])
      ensures FileView(fs', w'.files[g]) == FileView(w.fs, w.files[g])
    {
      assert R.FileOk(w.fs, w.files[g]);
      assert R.FileOk(fs', w'.files[g]);
      SameBytes(w.fs, fs', w.files[g]);
    }
    hide R.WorldOk;
    assert View(w').files == View(w).files[f := FileView(fs', h)];
  }

  lemma SameBytes(fs: Fs, fs': Fs, h: Handle)
    requires R.FileOk(fs, h) && R.FileOk(fs', h)
    requires Readable(fs) && Readable(fs')
    requires h.start != 0 ==> h.start in fs.chains && FileKept(fs, fs', h.start)
    ensures BytesOf(fs', h) == BytesOf(fs, h)
  {
  }

  /** A change of the tree leaves all open files alone. */
  lemma TreeChanges(w: R.World, fs': Fs)
    requires R.WorldOk(w) && R.WorldOk(w.(fs := fs'))
    requires Readable(w.fs) && Readable(fs')
    requires FilesKept(w.fs, fs')
    ensures View(w.(fs := fs')) == Plain(View(w).files, |FreeSet(fs'.vol.fat)|) && fs'.vol.csize == w.fs.vol.csize > 0
  {
    hide FsOk, Content, FreeSet, EachIsChain, FileKept, Settled;
    var w' := w.(fs := fs');
    forall g | g in w.files
      ensures R.FileOk(w.fs, w.files[g]) && R.FileOk(fs', w.files[g])
      ensures FileView(fs', w.files[g]) == FileView(w.fs, w.files[g])
    {
      assert R.FileOk(w.fs, w.files[g]);
      assert R.FileOk(fs', w'.files[g]);
      SameBytes(w.fs, fs', w.files[g]);
    }
    hide R.WorldOk;
    assert View(w').files == View(w).files;
  }

  /** Regrowing a file leaves all others alone. */
  lemma RegrowKeepsFiles(fs: Fs, start: nat, w: Vol, ch: seq<nat>, s: nat)
    requires FsOk(fs) && IsFileStart(fs, start) && RegrownVol(fs, start, w, ch) && s in fs.chains && s != start && s !in fs.dirs
    ensures Readable(fs)
    ensures var fs' := RegrowFs(fs, start, w, ch);
            Readable(fs') && FileKept(fs, fs', s)
  {
    hide RegrownVol, Rechain, ChainBytes, DirOk, Covers, Disjoint;
    RegrowKeepsFsOk(fs, start, w, ch);
    RegrowKeepsOthers(fs, start, w, ch, s);
  }

  lemma TreeRefines(w: R.World, op: R.Op, fs': Fs)
    requires R.WorldOk(w) && R.Enabled(w, op) && (op.Create? || op.Mkdir? || op.Record?)
    requires R.Step(w, op) == w.(fs := fs') && R.Answer(w, op).Done?
    requires FsOk(w.fs) && Readable(w.fs) && Readable(fs')
    requires FilesKept(w.fs, fs') && |FreeSet(fs'.vol.fat)| == |FreeSet(w.fs.vol.fat)| - Taken(w.fs, op)
    ensures Refines(w, op)
  {
    hide R.WorldOk, R.Enabled, R.Step, R.Answer, EachIsChain, FilesKept, FreeSet, Taken, FsOk, FilesView;
    R.StepKeepsWorld(w, op);
    TreeChanges(w, fs');
  }

  lemma CreateRefines(w: R.World, path: CString, stamp: Stamp)
    requires R.WorldOk(w) && R.Enabled(w, R.Create(path, stamp))
    ensures Refines(w, R.Create(path, stamp))
  {
    hide R.WorldOk, R.Enabled, R.Step, R.Answer, FsOk, CreateRun, FilesKept, FreeSet, EachIsChain, Refines;
    CreateIs(w, path, stamp);
    CreateKeepsFiles(w.fs, path, stamp);
    TreeRefines(w, R.Create(path, stamp), CreateRun(w.fs, path, stamp).1);
  }

  lemma MkdirRefines(w: R.World, path: CString, stamp: Stamp)
    requires R.WorldOk(w) && R.Enabled(w, R.Mkdir(path, stamp))
    ensures Refines(w, R.Mkdir(path, stamp))
  {
    hide R.WorldOk, R.Enabled, R.Step, R.Answer, FsOk, MkdirRun, FilesKept, FreeSet, EachIsChain, Refines, ParentOf, FirstFree;
    MkdirIs(w, path, stamp);
    MkdirKeepsFiles(w.fs, path, stamp);
    TreeRefines(w, R.Mkdir(path, stamp), MkdirRun(w.fs, path, stamp).1);
  }

  lemma RecordRefines(w: R.World, f: nat, path: CString, stamp: Stamp)
    requires R.WorldOk(w) && R.Enabled(w, R.Record(f, path, stamp))
    ensures Refines(w, R.Record(f, path, stamp))
  {
    hide R.WorldOk, R.Enabled, R.Step, R.Answer, FsOk, UpdateRun, FilesKept, FreeSet, EachIsChain, Refines;
    RecordIs(w, f, path, stamp);
    UpdateKeepsFiles(w.fs, path, w.files[f].start, w.files[f].size, stamp);
    TreeRefines(w, R.Record(f, path, stamp), UpdateRun(w.fs, path, w.files[f].start, w.files[f].size, stamp).1);
  }

  lemma ClosedView(w: R.World, f: nat)
    requires R.WorldOk(w) && R.WorldOk(w.(files := w.files - {f}))
    ensures View(w.(files := w.files - {f})) == View(w).(files := View(w).files - {f})
  {
    hide FsOk, R.FileOk, Content, FreeSet;
    var w' := w.(files := w.files - {f});
    forall g | g in w.files ensures R.FileOk(w.fs, w.files[g]) {
    }
    hide R.WorldOk;
    assert View(w').files == View(w).files - {f};
  }

  lemma CloseRefines(w: R.World, f: nat)
    requires R.WorldOk(w) && R.Enabled(w, R.Close(f))
    ensures Refines(w, R.Close(f))
  {
    hide R.WorldOk, R.Step, R.Answer, View, CursorOk, Content;
    CloseIs(w, f);
    FileOkOf(w, f);
    ClosedView(w, f);
  }

  lemma OpenedView(w: R.World, f: nat, h: Handle)
    requires R.WorldOk(w) && f !in w.files && R.WorldOk(w.(files := w.files[f := h]))
    ensures R.FileOk(w.fs, h) && f !in View(w).files
    ensures View(w.(files := w.files[f := h])) == View(w).(files := View(w).files[f := FileView(w.fs, h)])
  {
    hide FsOk, R.FileOk, Content, FreeSet;
    var w' := w.(files := w.files[f := h]);
    assert R.FileOk(w'.fs, w'.files[f]);
    forall g | g in w.files ensures R.FileOk(w.fs, w.files[g]) {
    }
    hide R.WorldOk;
    assert View(w').files == View(w).files[f := FileView(w.fs, h)];
  }

  lemma OpenRefines(w: R.World, f: nat, path: CString)
    requires R.WorldOk(w) && R.Enabled(w, R.OpenFile(f, path))
    ensures Refines(w, R.OpenFile(f, path))
  {
    hide R.WorldOk, R.Step, R.Answer, View, CursorOk, Content, Open, FsOk, R.FileOk;
    OpenIs(w, f, path);
    PartsOf(w.fs);
    match Open(w.fs, path)
    case Some(File(start, size)) => OpenedView(w, f, R.Opened(start, size));
    case _ => WorldHasFs(w);
  }

  // ---------- writing ----------

  /** How many bytes went in, from the counts of clusters before and after. */
  lemma CountIsFitting(size: nat, off: nat, len: nat, count: nat, free: nat, free': nat, size': nat, d: nat)
    requires d > 0 && off <= size && count <= len && free + Ceil(size, d) == free' + Ceil(size', d)
    requires off + count <= size' && (count < len ==> free' == 0 && off + count == Times(Ceil(size', d), d))
    ensures count == Fitting(free + Ceil(size, d), d, off, len) && free' == Left(free, size, size', d)
  {
    hide Ceil, Times;
    CeilBrackets(size', d);
    TimesMono(Ceil(size', d), free + Ceil(size, d), d);
  }

  lemma RegrownChain(chains: ChainMap, start: nat, fat: Fat, h: Handle, ch: seq<nat>)
    requires Chained(fat, h.start, ch)
    ensures h.start == 0 || h.start in Rechain(chains, start, ch)
    ensures ch != [] && h.start != 0 ==> ChainOf(Rechain(chains, start, ch), h.start) == ch
    ensures ch == [] ==> h.start == 0
  {
    RechainEntries(chains, start, ch);
  }

  /** The view after a file was regrown. */
  lemma RegrownView(w: R.World, f: nat, v: Vol, ch: seq<nat>, h: Handle)
    requires R.WorldOk(w) && FsOk(w.fs) && f in w.files && IsFileStart(w.fs, w.files[f].start)
    requires RegrownVol(w.fs, w.files[f].start, v, ch) && Settled(v, h, ch)
    requires R.WorldOk(R.World(RegrowFs(w.fs, w.files[f].start, v, ch), w.files[f := h]))
    ensures View(R.World(RegrowFs(w.fs, w.files[f].start, v, ch), w.files[f := h])) ==
            Plain(View(w).files[f := PlainFile(Content(v, ch, h.size), h.off)], |FreeSet(v.fat)|)
    ensures RegrowFs(w.fs, w.files[f].start, v, ch).vol.csize == v.csize == w.fs.vol.csize
  {
    assert v.csize == w.fs.vol.csize;
    hide R.WorldOk, FsOk, RegrownVol, FileKept, Rechain, Content, View, ChainBytes, IsChain, EachIsChain;
    var start := w.files[f].start;
    var fs' := RegrowFs(w.fs, start, v, ch);
    PartsOf(w.fs);
    WorldHasFs(R.World(fs', w.files[f := h]));
    PartsOf(fs');
    forall s | s in w.fs.chains && s !in w.fs.dirs && s != start ensures FileKept(w.fs, fs', s) {
      RegrowKeepsFiles(w.fs, start, v, ch, s);
    }
    OneFileChanges(w, f, fs', h);
    RegrownChain(w.fs.chains, start, v.fat, h, ch);
    StartNotZero(v, ch);
  }

  lemma StartNotZero(v: Vol, ch: seq<nat>)
    requires ch != [] ==> IsChain(v.fat, ch)
    ensures ch != [] ==> ch[0] != 0
  {
  }

  lemma WriteRefines(w: R.World, f: nat, buf: seq<byte>)
    requires R.WorldOk(w) && R.Enabled(w, R.Write(f, buf))
    ensures Refines(w, R.Write(f, buf))
  {
    hide R.WorldOk, R.Step, R.Answer, FilesView, CursorOk, Content, FsOk, WriteRun, WriteChain, Writable, RegrownVol, RegrowFs,
         WriteAt, Ceil, Times, FreeSet, MayWrite, Left, Fitting, Grown;
    WorldHasFs(w);
    WriteIs(w, f, buf);
    R.WriteIsUsable(w, f, buf);
    FileOkOf(w, f);
    var (v, h) := (w.fs.vol, w.files[f]);
    var ch := ChainOf(w.fs.chains, h.start);
    var (r, ch') := (WriteRun(v, h, buf), WriteChain(v, h, ch, buf));
    PlacedWrite(v, h, ch, buf);
    WriteRegrows(w.fs, h, buf);
    RegrownView(w, f, r.vol, ch', r.handle);
    SettledHasCeil(r.vol, r.handle, ch');
    GrownCounts(v, ch, r.vol, ch');
    CountIsFitting(h.size, h.off, |buf|, r.count, |FreeSet(v.fat)|, |FreeSet(r.vol.fat)|, r.handle.size, v.csize);
  }

  lemma GrownCounts(v: Vol, ch: seq<nat>, w: Vol, ch': seq<nat>)
    requires Grown(v, ch, w, ch')
    ensures |FreeSet(v.fat)| + |ch| == |FreeSet(w.fat)| + |ch'| && w.csize == v.csize
  {
    hide FreeSet;
  }

  lemma RewriteRefines(w: R.World, f: nat, buf: seq<byte>)
    requires R.WorldOk(w) && R.Enabled(w, R.Rewrite(f, buf))
    ensures Refines(w, R.Rewrite(f, buf))
  {
    hide R.WorldOk, R.Step, R.Answer, FilesView, CursorOk, Content, FsOk, RewriteRun, RewriteChain, RegrownVol, RegrowFs,
         Ceil, Times, FreeSet, Left, Fitting, WriteReady;
    WorldHasFs(w);
    RewriteIs(w, f, buf);
    FileOkOf(w, f);
    var (v, start) := (w.fs.vol, w.files[f].start);
    var ch := ChainOf(w.fs.chains, start);
    FileStartInRange(w.fs, start);
    var (r, ch') := (RewriteRun(v, start, buf), RewriteChain(v, start, buf));
    RewriteReplacesFile(v, start, ch, buf);
    RewriteRegrows(w.fs, start, buf);
    ReadyIsSettled(r.vol, r.handle, ch');
    RegrownView(w, f, r.vol, ch', r.handle);
    if r.count < |buf| {
      CeilIs(r.count, |FreeSet(v.fat)| + |ch|, v.csize);
    }
    CountIsFitting(w.files[f].size, 0, |buf|, r.count, |FreeSet(v.fat)|, |FreeSet(r.vol.fat)|, r.count, v.csize);
  }

  // ---------- whole runs ----------

  lemma StepRefines(w: R.World, op: R.Op)
    requires R.WorldOk(w) && R.Enabled(w, op)
    ensures Refines(w, op)
  {
    hide *;
    match op
    case OpenFile(f, path) => OpenRefines(w, f, path);
    case Read(f, n) => ReadRefines(w, f, n);
    case Seek(f, offset) => SeekRefines(w, f, offset);
    case Write(f, buf) => WriteRefines(w, f, buf);
    case Rewrite(f, buf) => RewriteRefines(w, f, buf);
    case Create(path, stamp) => CreateRefines(w, path, stamp);
    case Mkdir(path, stamp) => MkdirRefines(w, path, stamp);
    case Record(f, path, stamp) => RecordRefines(w, f, path, stamp);
    case Close(f) => CloseRefines(w, f);
  }

  /** The run as plain files see it. */
  ghost function Deeds(w: R.World, ops: seq<R.Op>): (deeds: seq<Deed>)
    requires R.WorldOk(w) && IssuableRun(w, ops)
    ensures |deeds| == |ops|
    decreases |ops|
  {
    if ops == [] then []
    else
      R.StepKeepsWorld(w, ops[0]);
      [DeedOf(w, ops[0])] + Deeds(R.Step(w, ops[0]), ops[1..])
  }

  lemma RefinesMeans(w: R.World, op: R.Op)
    requires R.WorldOk(w) && R.Enabled(w, op)
    ensures R.Step(w, op).fs.vol.csize == w.fs.vol.csize > 0 && R.WorldOk(R.Step(w, op)) && Doable(View(w), DeedOf(w, op))
    ensures (View(R.Step(w, op)), R.Answer(w, op)) == Do(View(w), w.fs.vol.csize, DeedOf(w, op))
  {
    hide R.WorldOk, R.Enabled, R.Step, R.Answer, View, Do, Doable, DeedOf;
    StepRefines(w, op);
  }

  lemma NothingRefines(w: R.World, ops: seq<R.Op>)
    requires R.WorldOk(w) && ops == []
    ensures w.fs.vol.csize > 0 && IssuableRun(w, ops) && Deeds(w, ops) == [] && Answers(w, ops) == [] && R.Run(w, ops) == w
  {
    WorldHasFs(w);
    PartsOf(w.fs);
  }

  lemma FirstDeed(w: R.World, ops: seq<R.Op>)
    requires R.WorldOk(w) && IssuableRun(w, ops) && ops != []
    ensures R.Enabled(w, ops[0]) && R.WorldOk(R.Step(w, ops[0])) && IssuableRun(R.Step(w, ops[0]), ops[1..])
    ensures Deeds(w, ops) == [DeedOf(w, ops[0])] + Deeds(R.Step(w, ops[0]), ops[1..])
  {
    hide R.WorldOk, R.Step, R.Enabled, DeedOf;
    OneDone(w, ops);
  }

  lemma FirstDo(p: Plain, csize: nat, deeds: seq<Deed>, deed: Deed, rest: seq<Deed>)
    requires csize > 0 && deeds == [deed] + rest && Doable(p, deed) && DoableAll(Do(p, csize, deed).0, csize, rest)
    ensures DoableAll(p, csize, deeds)
    ensures DoAll(p, csize, deeds) ==
            (DoAll(Do(p, csize, deed).0, csize, rest).0, [Do(p, csize, deed).1] + DoAll(Do(p, csize, deed).0, csize, rest).1)
  {
    hide Do, Doable;
    assert deeds[0] == deed && deeds[1..] == rest;
  }

  /**
   Over every run on any number of open files, all replies are those of the plain files, and so are the bytes and
   offsets of all open files and the number of free clusters at its end.
   */
  lemma {:induction false} RunRefines(w: R.World, ops: seq<R.Op>)
    requires R.WorldOk(w) && IssuableRun(w, ops)
    ensures w.fs.vol.csize > 0 && DoableAll(View(w), w.fs.vol.csize, Deeds(w, ops))
    ensures (View(R.Run(w, ops)), Answers(w, ops)) == DoAll(View(w), w.fs.vol.csize, Deeds(w, ops))
    decreases |ops|
  {
    hide R.WorldOk, R.Step, R.Answer, R.Enabled, R.Run, IssuableRun, Answers, View, Deeds, DeedOf, Do, Doable;
    if ops == [] {
      NothingRefines(w, ops);
    } else {
      FirstDeed(w, ops);
      OneDone(w, ops);
      RefinesMeans(w, ops[0]);
      var w1 := R.Step(w, ops[0]);
      RunRefines(w1, ops[1..]);
      hide DoAll, DoableAll;
      FirstDo(View(w), w.fs.vol.csize, Deeds(w, ops), DeedOf(w, ops[0]), Deeds(w1, ops[1..]));
    }
  }

  /** So it is on the device: the calls of a session are those of plain files. */
  method RunPlainly(m: Mounted, ops: seq<R.Op>) returns (replies: seq<R.Reply>)
    requires m.Valid() && IssuableRun(m.W(), ops)
    modifies m, m.fs, m.fs.vol, m.files.Values
    ensures m.Valid() && old(m.W().fs.vol.csize) > 0
    ensures DoableAll(View(old(m.W())), old(m.W().fs.vol.csize), Deeds(old(m.W()), ops))
    ensures (View(m.W()), replies) == DoAll(View(old(m.W())), old(m.W().fs.vol.csize), Deeds(old(m.W()), ops))
    ensures CopiesEqual(m.fs.vol.g, m.fs.vol.disk)
  {
    hide R.WorldOk, IssuableRun, R.Run, Answers, View, Deeds, DoAll, DoableAll, MountedVolume.Valid, MountedVolume.Abs, CopiesEqual,
         R.ChainsSafe, FsOk;
    RunRefines(m.W(), ops);
    replies := m.ExecuteAll(ops);
  }
}
