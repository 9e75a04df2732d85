/**
 Saving a new file by calls on a mounted file system: create it, open it, rewrite it, record its entry, close
 it, open its path again, and read.
 */
module SaveRun {
  import opened Arith
  import opened Bytes
  import opened FatTable
  import opened FileSpec
  import opened FileCursor
  import opened FileWrite
  import opened Volume
  import opened Chains
  import opened Names
  import opened Options
  import opened DirSlots
  import opened Directory
  import opened FsOps
  import opened PathOps
  import opened Persistence
  import opened FileSystem
  import opened Session
  import R = Runs

  /** The calls, through handle f. */
  function SaveOps(f: nat, path: CString, buf: seq<byte>, created: Stamp, saved: Stamp, n: nat): seq<R.Op> {
    [R.Create(path, created), R.OpenFile(f, path), R.Rewrite(f, buf), R.Record(f, path, saved),
     R.Close(f), R.OpenFile(f, path), R.Read(f, n)]
  }

  /** The path names a new file that can be created, its slot will be found, and its bytes fit the free clusters. */
  ghost predicate Savable(fs: Fs, path: CString, d: nat, buf: seq<byte>, created: Stamp)
    requires FsOk(fs)
  {
    && OnCourse(fs, path) && NewName(fs, path, d) && CreateRun(fs, path, created).0
    && d in fs.dirs && InRange(fs.vol.fat, d) && SlotIsVisible(fs, d)
    && Unshadowed(SlotsAt(fs, d), NameOf(path))
    && Ceil(|buf|, fs.vol.csize) <= |FreeSet(fs.vol.fat)| && |buf| < UINT32
  }

  /** The new file is recordable after its rewrite. */
  lemma SavedIsRecordable(fs: Fs, path: CString, d: nat, buf: seq<byte>, created: Stamp)
    requires FsOk(fs) && OnCourse(fs, path) && Savable(fs, path, d, buf, created)
    ensures FsOk(CreateRun(fs, path, created).1) && FsOk(RewriteFs(CreateRun(fs, path, created).1, 0, buf))
    ensures R.Recordable(RewriteFs(CreateRun(fs, path, created).1, 0, buf), path)
  {
    hide DirOk, Covers, Disjoint, CreateRun, EntryIndex, RewriteFs, NewName, EntryAt, OnCourse;
    var fs1, k := CreateRun(fs, path, created).1, EntryIndex(fs, d);
    CreatedEntryAt(fs, path, created, d);
    CreatedFileEntryAt(fs, path, created, d);
    RewrittenIsRecordable(fs1, path, d, k, buf);
  }

  lemma RewrittenIsRecordable(fs: Fs, path: CString, d: nat, k: nat, buf: seq<byte>)
    requires FsOk(fs) && FileEntryAt(fs, path, d, k, 0)
    ensures FsOk(RewriteFs(fs, 0, buf)) && R.Recordable(RewriteFs(fs, 0, buf), path)
  {
    hide DirOk, Covers, Disjoint, RewriteFs, Resolve, ChainSlots, NameOf, Find, Hit, NamedAlike;
    RewriteKeepsFsOk(fs, 0, buf);
    var fs1 := RewriteFs(fs, 0, buf);
    forall c | c in fs.dirs ensures Kept(SlotsAt(fs, c), SlotsAt(fs1, c)) {
    }
    ParentKept(fs, fs1, path);
    EntryKept(fs, fs1, d, NameOf(path), k);
  }

  /** A handle moved back to the start stands where it may. */
  lemma RewoundIsOk(fs: Fs, h: Handle)
    requires FsOk(fs) && R.FileOk(fs, h)
    ensures R.FileOk(fs, R.Opened(h.start, h.size))
  {
    hide FsOk;
  }

  /** A closed file can be opened again through a path whose entry says where it starts and how long it is. */
  lemma ClosedCanBeOpened(w: R.World, f: nat, path: CString)
    requires R.WorldOk(w) && f in w.files && Open(w.fs, path) == Some(File(w.files[f].start, w.files[f].size))
    ensures R.WorldOk(w.(files := w.files - {f})) && R.Enabled(w.(files := w.files - {f}), R.OpenFile(f, path))
  {
    hide FsOk, R.FileOk, Open;
    RewoundIsOk(w.fs, w.files[f]);
  }

  // ---------- the run ----------

  /** The call can be issued; it leads to w' and returns r. */
  ghost predicate Does(w: R.World, op: R.Op, w': R.World, r: R.Reply)
    requires R.WorldOk(w)
  {
    Issuable(w, op) && R.Step(w, op) == w' && R.Answer(w, op) == r && R.WorldOk(w')
  }

  lemma OpensEmpty(fs: Fs, path: CString, d: nat, buf: seq<byte>, created: Stamp)
    requires FsOk(fs) && OnCourse(fs, path) && Savable(fs, path, d, buf, created)
    ensures var (ok, fs1) := CreateRun(fs, path, created);
            ok && FsOk(fs1) && Open(fs1, path) == Some(File(0, 0)) && fs1.vol.csize == fs.vol.csize
  {
    hide FsOk, CreateRun, NewName, SlotIsVisible, Unshadowed, Ceil, Open, OnCourse;
    NewFileReadsBack(fs, path, d, buf, created, created, |buf|);
    R.CreateKeepsChains(fs, path, created);
  }

  /** An empty file without clusters is well formed. */
  lemma EmptyIsOk(fs: Fs)
    requires FsOk(fs) && fs.vol.csize < UINT32
    ensures R.FileOk(fs, R.Opened(0, 0))
  {
    hide DirOk, Covers, Disjoint, EachIsChain, SlotsAt;
  }

  /** Creating the new file. */
  lemma CreateDoes(w: R.World, path: CString, stamp: Stamp)
    requires R.WorldOk(w) && OnCourse(w.fs, path) && CreateRun(w.fs, path, stamp).0 && PathFits(path)
    ensures Does(w, R.Create(path, stamp), w.(fs := CreateRun(w.fs, path, stamp).1), R.Done(true))
  {
    hide FsOk, R.FileOk, CreateRun, R.Step, R.Answer, PathFits, OnCourse;
    CreateIs(w, path, stamp);
  }

  /** Opening it while it is empty. */
  lemma OpenEmptyDoes(w: R.World, f: nat, path: CString)
    requires R.WorldOk(w) && f !in w.files && Open(w.fs, path) == Some(File(0, 0)) && w.fs.vol.csize < UINT32
    ensures Does(w, R.OpenFile(f, path), w.(files := w.files[f := R.Opened(0, 0)]), R.Done(true))
  {
    hide FsOk, R.FileOk, R.Step, R.Answer, Open;
    EmptyIsOk(w.fs);
    OpenIs(w, f, path);
  }

  /** Rewriting it. */
  lemma RewriteDoes(w: R.World, f: nat, buf: seq<byte>)
    requires R.WorldOk(w) && f in w.files && w.files[f].start == 0 && |buf| < UINT32
    requires RewriteRun(w.fs.vol, 0, buf).count == |buf|
    ensures Does(w, R.Rewrite(f, buf),
                 R.World(RewriteFs(w.fs, 0, buf), w.files[f := RewriteRun(w.fs.vol, 0, buf).handle]), R.Done(true))
  {
    hide FsOk, R.FileOk, R.Step, R.Answer, RewriteRun, RewriteChain;
    RewriteIs(w, f, buf);
  }

  /** Recording it. */
  lemma RecordDoes(w: R.World, f: nat, path: CString, stamp: Stamp)
    requires R.WorldOk(w) && f in w.files && R.Recordable(w.fs, path) && PathFits(path)
    requires UpdateRun(w.fs, path, w.files[f].start, w.files[f].size, stamp).0
    ensures Does(w, R.Record(f, path, stamp),
                 w.(fs := UpdateRun(w.fs, path, w.files[f].start, w.files[f].size, stamp).1), R.Done(true))
  {
    hide FsOk, R.FileOk, R.Step, R.Answer, UpdateRun, R.Recordable, PathFits;
    RecordIs(w, f, path, stamp);
  }

  /** Closing it. */
  lemma CloseDoes(w: R.World, f: nat)
    requires R.WorldOk(w) && f in w.files
    ensures Does(w, R.Close(f), w.(files := w.files - {f}), R.Done(true))
  {
    hide FsOk, R.FileOk, R.Step, R.Answer;
    CloseIs(w, f);
  }

  /** Opening it again. */
  lemma ReopenDoes(w: R.World, f: nat, path: CString)
    requires R.WorldOk(w) && f in w.files && Open(w.fs, path) == Some(File(w.files[f].start, w.files[f].size))
    ensures var closed := w.(files := w.files - {f});
            && R.WorldOk(closed)
            && Does(closed, R.OpenFile(f, path), w.(files := w.files[f := R.Opened(w.files[f].start, w.files[f].size)]), R.Done(true))
  {
    hide FsOk, R.FileOk, R.Step, R.Answer, Open;
    var closed := w.(files := w.files - {f});
    ClosedCanBeOpened(w, f, path);
    OpenIs(closed, f, path);
    assert closed.files[f := R.Opened(w.files[f].start, w.files[f].size)] == w.files[f := R.Opened(w.files[f].start, w.files[f].size)];
  }

  /** Reading it. */
  lemma ReadDoes(w: R.World, f: nat, n: nat)
    requires R.WorldOk(w) && f in w.files
    requires w.files[f].off < w.files[f].size ==> InRange(w.fs.vol.fat, w.files[f].cur)
    ensures var (h, s) := ReadRun(w.fs.vol, w.files[f], n);
            Does(w, R.Read(f, n), w.(files := w.files[f := h]), R.Bytes(s))
  {
    hide FsOk, R.FileOk, R.Step, R.Answer, ReadRun;
    ReadIs(w, f, n);
  }

  /** The run can be issued; it leads to w' and returns rs. */
  ghost predicate Leads(w: R.World, ops: seq<R.Op>, w': R.World, rs: seq<R.Reply>)
    requires R.WorldOk(w)
  {
    IssuableRun(w, ops) && R.Run(w, ops) == w' && Answers(w, ops) == rs
  }

  lemma NoCalls(w: R.World)
    requires R.WorldOk(w)
    ensures Leads(w, [], w, [])
  {
  }

  /** One call before a run; rest and tail name the calls and replies behind the first. */
  lemma OneMore(w: R.World, w1: R.World, w': R.World, ops: seq<R.Op>, rs: seq<R.Reply>, rest: seq<R.Op>, tail: seq<R.Reply>)
    requires ops != [] && rs != [] && ops[1..] == rest && rs[1..] == tail
    requires R.WorldOk(w) && Does(w, ops[0], w1, rs[0]) && R.WorldOk(w1) && Leads(w1, rest, w', tail)
    ensures Leads(w, ops, w', rs)
  {
    hide R.WorldOk, R.Step, R.Answer, Issuable;
    R.StepKeepsWorld(w, ops[0]);
  }

  /** The second half: close, open again, read. */
  lemma CloseOpenRead(w: R.World, f: nat, path: CString, n: nat, buf: seq<byte>)
    requires R.WorldOk(w) && f in w.files && Open(w.fs, path) == Some(File(w.files[f].start, w.files[f].size))
    requires var h := R.Opened(w.files[f].start, w.files[f].size);
             VolOk(w.fs.vol) && (h.off < h.size ==> InRange(w.fs.vol.fat, h.cur)) && ReadRun(w.fs.vol, h, n).1 == buf
    ensures var h := ReadRun(w.fs.vol, R.Opened(w.files[f].start, w.files[f].size), n).0;
            Leads(w, [R.Close(f), R.OpenFile(f, path), R.Read(f, n)], w.(files := w.files[f := h]),
                  [R.Done(true), R.Done(true), R.Bytes(buf)])
  {
    hide FsOk, R.WorldOk, Does, Leads, Open, ReadRun;
    CloseDoes(w, f);
    ReopenDoes(w, f, path);
    var h := R.Opened(w.files[f].start, w.files[f].size);
    var closed, reopened := w.(files := w.files - {f}), w.(files := w.files[f := h]);
    DoesIsOk(closed, R.OpenFile(f, path), reopened, R.Done(true));
    ReadDoes(reopened, f, n);
    var after := reopened.(files := reopened.files[f := ReadRun(w.fs.vol, h, n).0]);
    DoesIsOk(reopened, R.Read(f, n), after, R.Bytes(buf));
    assert after == w.(files := w.files[f := ReadRun(w.fs.vol, h, n).0]);
    NoCalls(after);
    var (a, b, c) := (R.Close(f), R.OpenFile(f, path), R.Read(f, n));
    OneMore(reopened, after, after, [c], [R.Bytes(buf)], [], []);
    OneMore(closed, reopened, after, [b, c], [R.Done(true), R.Bytes(buf)], [c], [R.Bytes(buf)]);
    OneMore(w, closed, after, [a, b, c], [R.Done(true), R.Done(true), R.Bytes(buf)], [b, c], [R.Done(true), R.Bytes(buf)]);
  }

  lemma DoesIsOk(w: R.World, op: R.Op, w': R.World, r: R.Reply)
    requires R.WorldOk(w) && Does(w, op, w', r)
    ensures R.WorldOk(w')
  {
  }

  /** What the calls before the close need and leave: the file systems in between and the handle. */
  lemma SaveStages(fs: Fs, path: CString, d: nat, buf: seq<byte>, created: Stamp, saved: Stamp, n: nat)
    requires FsOk(fs) && OnCourse(fs, path) && Savable(fs, path, d, buf, created) && |buf| <= n
    ensures var (ok, fs1) := CreateRun(fs, path, created);
            && ok && FsOk(fs1) && fs1.vol.csize == fs.vol.csize && Open(fs1, path) == Some(File(0, 0))
            && var r := RewriteRun(fs1.vol, 0, buf);
               && r.count == |buf| == r.handle.size < UINT32
               && FsOk(RewriteFs(fs1, 0, buf)) && OnCourse(RewriteFs(fs1, 0, buf), path) && R.Recordable(RewriteFs(fs1, 0, buf), path)
               && var (done, fs3) := UpdateRun(RewriteFs(fs1, 0, buf), path, r.handle.start, r.handle.size, saved);
                  && done && FsOk(fs3) && Open(fs3, path) == Some(File(r.handle.start, |buf|))
                  && var h := R.Opened(r.handle.start, |buf|);
                     (h.off < h.size ==> InRange(fs3.vol.fat, h.cur)) && ReadRun(fs3.vol, h, n).1 == buf
  {
    OpensEmpty(fs, path, d, buf, created);
    SavedIsRecordable(fs, path, d, buf, created);
    hide FsOk, CreateRun, NewName, SlotIsVisible, Unshadowed, Open, RewriteRun, R.Recordable, UpdateRun, ReadRun, OnCourse;
    NewFileReadsBack(fs, path, d, buf, created, saved, n);
    var fs1 := CreateRun(fs, path, created).1;
    EmptyRewriteSize(fs1, buf);
  }

  lemma EmptyRewriteSize(fs: Fs, buf: seq<byte>)
    requires FsOk(fs) && RewriteRun(fs.vol, 0, buf).count == |buf|
    ensures RewriteRun(fs.vol, 0, buf).handle.size == |buf|
  {
    hide DirOk, Covers, Disjoint, RewriteRun;
    RewriteReplacesFile(fs.vol, 0, [], buf);
  }

  lemma SavableIsOnCourse(fs: Fs, path: CString, d: nat, buf: seq<byte>, created: Stamp)
    requires FsOk(fs) && Savable(fs, path, d, buf, created)
    ensures Slotted(fs.vol) && EachIsChain(fs.vol.fat, fs.chains) && OnCourse(fs, path)
  {
    hide NewName, SlotIsVisible, Unshadowed, Ceil, CreateRun, OnCourse;
  }

  /** The file system that the save leaves, and the file's handle once it is recorded. */
  ghost function SavedState(fs: Fs, path: CString, d: nat, buf: seq<byte>, created: Stamp, saved: Stamp): (Fs, Handle)
    requires FsOk(fs) && Savable(fs, path, d, buf, created)
  {
    hide *;
    SavableIsOnCourse(fs, path, d, buf, created);
    SaveStages(fs, path, d, buf, created, saved, |buf|);
    var fs1 := CreateRun(fs, path, created).1;
    FsParts(fs1);
    hide Slotted, EachIsChain;
    VolOkOf(fs1);
    var h := RewriteRun(fs1.vol, 0, buf).handle;
    (UpdateRun(RewriteFs(fs1, 0, buf), path, h.start, h.size, saved).1, h)
  }

  lemma VolOkOf(fs: Fs)
    requires FsOk(fs)
    ensures VolOk(fs.vol)
  {
  }

  /** The first half: create, open, rewrite, record. */
  lemma CreateOpenRewriteRecord(w: R.World, f: nat, path: CString, d: nat, buf: seq<byte>, created: Stamp, saved: Stamp,
                                w': R.World, rest: seq<R.Op>, tail: seq<R.Reply>)
    requires R.WorldOk(w) && f !in w.files && w.fs.vol.csize < UINT32 && PathFits(path) && Savable(w.fs, path, d, buf, created)
    requires var (fs', h) := SavedState(w.fs, path, d, buf, created, saved);
             var recorded := R.World(fs', w.files[f := h]);
             R.WorldOk(recorded) ==> Leads(recorded, rest, w', tail)
    ensures Leads(w, [R.Create(path, created), R.OpenFile(f, path), R.Rewrite(f, buf), R.Record(f, path, saved)] + rest, w',
                  [R.Done(true), R.Done(true), R.Done(true), R.Done(true)] + tail)
  {
    hide FsOk, R.WorldOk, Does, Leads, Open, CreateRun, RewriteRun, RewriteFs, UpdateRun, R.Recordable, Savable, PathFits, ReadRun, OnCourse;
    WorldHasFs(w);
    SavableIsOnCourse(w.fs, path, d, buf, created);
    SaveStages(w.fs, path, d, buf, created, saved, |buf|);
    var fs1 := CreateRun(w.fs, path, created).1;
    FsParts(fs1);
    var fs2, h := RewriteFs(fs1, 0, buf), RewriteRun(fs1.vol, 0, buf).handle;
    var fs3 := UpdateRun(fs2, path, h.start, h.size, saved).1;
    var w1, w2 := w.(fs := fs1), R.World(fs1, w.files[f := R.Opened(0, 0)]);
    var w3, w4 := R.World(fs2, w.files[f := h]), R.World(fs3, w.files[f := h]);
    var yes := R.Done(true);
    CreateDoes(w, path, created);
    DoesIsOk(w, R.Create(path, created), w1, yes);
    OpenEmptyDoes(w1, f, path);
    DoesIsOk(w1, R.OpenFile(f, path), w2, yes);
    RewriteDoes(w2, f, buf);
    assert w2.files[f := h] == w3.files;
    DoesIsOk(w2, R.Rewrite(f, buf), w3, yes);
    RecordDoes(w3, f, path, saved);
    DoesIsOk(w3, R.Record(f, path, saved), w4, yes);
    var (a, b, c, e) := (R.Create(path, created), R.OpenFile(f, path), R.Rewrite(f, buf), R.Record(f, path, saved));
    OneMore(w3, w4, w', [e] + rest, [yes] + tail, rest, tail);
    OneMore(w2, w3, w', [c, e] + rest, [yes, yes] + tail, [e] + rest, [yes] + tail);
    OneMore(w1, w2, w', [b, c, e] + rest, [yes, yes, yes] + tail, [c, e] + rest, [yes, yes] + tail);
    OneMore(w, w1, w', [a, b, c, e] + rest, [yes, yes, yes, yes] + tail, [b, c, e] + rest, [yes, yes, yes] + tail);
  }

  /**
   End to end on a mounted file system with any files open: the run succeeds call by call, and its last call
   returns exactly buf.
   */
  lemma SaveRunReadsBack(w: R.World, f: nat, path: CString, d: nat, buf: seq<byte>, created: Stamp, saved: Stamp, n: nat)
    requires R.WorldOk(w) && f !in w.files && w.fs.vol.csize < UINT32 && PathFits(path)
    requires Savable(w.fs, path, d, buf, created) && |buf| <= n
    ensures var ops := SaveOps(f, path, buf, created, saved, n);
            && IssuableRun(w, ops)
            && Answers(w, ops) == [R.Done(true), R.Done(true), R.Done(true), R.Done(true), R.Done(true), R.Done(true), R.Bytes(buf)]
            && R.Run(w, ops).fs == SavedState(w.fs, path, d, buf, created, saved).0
            && R.Run(w, ops).files.Keys == w.files.Keys + {f}
            && forall g :: g in w.files ==> R.Run(w, ops).files[g] == w.files[g]
  {
    hide FsOk, R.WorldOk, Does, Open, CreateRun, RewriteRun, RewriteFs, UpdateRun, R.Recordable, Savable, PathFits, ReadRun, OnCourse,
         IssuableRun, R.Run, Answers;
    WorldHasFs(w);
    SavableIsOnCourse(w.fs, path, d, buf, created);
    SaveStages(w.fs, path, d, buf, created, saved, n);
    var fs1 := CreateRun(w.fs, path, created).1;
    FsParts(fs1);
    var (fs3, h) := SavedState(w.fs, path, d, buf, created, saved);
    FsParts(fs3);
    var w4 := R.World(fs3, w.files[f := h]);
    var w' := w4.(files := w4.files[f := ReadRun(fs3.vol, R.Opened(h.start, h.size), n).0]);
    var (rest, tail) := ([R.Close(f), R.OpenFile(f, path), R.Read(f, n)], [R.Done(true), R.Done(true), R.Bytes(buf)]);
    if R.WorldOk(w4) {
      CloseOpenRead(w4, f, path, n, buf);
    }
    hide Leads;
    CreateOpenRewriteRecord(w, f, path, d, buf, created, saved, w', rest, tail);
    SaveOpsAre(f, path, buf, created, saved, n, rest);
    LeadsIs(w, SaveOps(f, path, buf, created, saved, n), w', [R.Done(true), R.Done(true), R.Done(true), R.Done(true)] + tail);
  }

  lemma SaveOpsAre(f: nat, path: CString, buf: seq<byte>, created: Stamp, saved: Stamp, n: nat, rest: seq<R.Op>)
    requires rest == [R.Close(f), R.OpenFile(f, path), R.Read(f, n)]
    ensures SaveOps(f, path, buf, created, saved, n) ==
            [R.Create(path, created), R.OpenFile(f, path), R.Rewrite(f, buf), R.Record(f, path, saved)] + rest
  {
  }

  lemma LeadsIs(w: R.World, ops: seq<R.Op>, w': R.World, rs: seq<R.Reply>)
    requires R.WorldOk(w) && Leads(w, ops, w', rs)
    ensures IssuableRun(w, ops) && R.Run(w, ops) == w' && Answers(w, ops) == rs
  {
  }

  /** The same run keeps every path that opened, and the clusters and bytes of all chains but the parent directory's. */
  lemma SaveRunKeepsRest(w: R.World, f: nat, path: CString, d: nat, buf: seq<byte>, created: Stamp, saved: Stamp, n: nat)
    requires R.WorldOk(w) && f !in w.files && w.fs.vol.csize < UINT32 && PathFits(path)
    requires Savable(w.fs, path, d, buf, created) && |buf| <= n
    ensures var fs' := R.Run(w, SaveOps(f, path, buf, created, saved, n)).fs;
            && FsOk(w.fs) && FsOk(fs') && OpensKept(w.fs, fs')
            && forall s :: s in w.fs.chains && s != d ==>
                 s in fs'.chains && fs'.chains[s] == w.fs.chains[s]
                 && ChainBytes(fs'.vol, w.fs.chains[s]) == ChainBytes(w.fs.vol, w.fs.chains[s])
  {
    SaveRunReadsBack(w, f, path, d, buf, created, saved, n);
    hide R.WorldOk, CreateRun, RewriteRun, RewriteFs, UpdateRun, PathFits, R.Run, NewName, SlotIsVisible, Unshadowed, Ceil,
         DirOk, Covers, Disjoint, OpensKept, EachIsChain, FatOk, SaveOps, Answers, IssuableRun;
    WorldHasFs(w);
    NewFileKeepsRest(w.fs, path, d, buf, created, saved);
  }

  /**
   The run on the device: each call succeeds, the last one returns buf, all copies of the table are equal, and
   the session goes on as the value level says.
   */
  method SaveAndRead(m: Mounted, f: nat, path: CString, ghost d: nat, buf: seq<byte>, created: Stamp, saved: Stamp, n: nat)
    returns (replies: seq<R.Reply>)
    requires m.Valid() && f !in m.files && PathFits(path)
    requires Savable(m.fs.Fs(), path, d, buf, created) && |buf| <= n
    modifies m, m.fs, m.fs.vol, m.files.Values
    ensures m.Valid() && m.W() == R.Run(old(m.W()), SaveOps(f, path, buf, created, saved, n))
    ensures replies == [R.Done(true), R.Done(true), R.Done(true), R.Done(true), R.Done(true), R.Done(true), R.Bytes(buf)]
    ensures CopiesEqual(m.fs.vol.g, m.fs.vol.disk) && R.ChainsSafe(m.W().fs.vol.fat, m.W().fs.chains)
    ensures OpensKept(old(m.W().fs), m.W().fs)
  {
    hide R.WorldOk, MountedVolume.Valid, Savable, PathFits, IssuableRun, Answers, R.Run, R.ChainsSafe, SaveOps, OpensKept, FsOk;
    SaveRunReadsBack(m.W(), f, path, d, buf, created, saved, n);
    SaveRunKeepsRest(m.W(), f, path, d, buf, created, saved, n);
    replies := m.ExecuteAll(SaveOps(f, path, buf, created, saved, n));
  }
}
