/**
 Saving a file end to end: rewriting its contents, recording start cluster and size in its directory
 entry, and reading it back through its path.
 */
module Persistence {
  import opened Arith
  import opened Bytes
  import opened FatTable
  import opened FileSpec
  import opened FileCursor
  import opened FileWrite
  import opened Chains
  import opened Names
  import opened Options
  import opened DirSlots
  import opened Directory
  import opened FileOps
  import opened FsOps
  import opened PathOps

  // ---------- rewriting a file inside a file system ----------

  /** The file system after fat32_rewrite of the file that starts at start. */
  function RewriteFs(fs: Fs, start: nat, buf: seq<byte>): Fs
    requires VolOk(fs.vol) && (start == 0 || InRange(fs.vol.fat, start))
  {
    RegrowFs(fs, start, RewriteRun(fs.vol, start, buf).vol, RewriteChain(fs.vol, start, buf))
  }

  lemma RewriteKeepsOthers(fs: Fs, start: nat, buf: seq<byte>, s: nat)
    requires FsOk(fs) && IsFileStart(fs, start) && s in fs.chains && s != start
    ensures start == 0 || InRange(fs.vol.fat, start)
    ensures var fs' := RewriteFs(fs, start, buf);
            && VolOk(fs'.vol) && fs'.vol.csize == fs.vol.csize
            && s in fs'.chains && fs'.chains[s] == fs.chains[s]
            && IsChain(fs'.vol.fat, fs.chains[s])
            && ChainBytes(fs'.vol, fs.chains[s]) == ChainBytes(fs.vol, fs.chains[s])
  {
    hide DirOk, Covers, Disjoint, RewriteRun, RewriteChain, Regrown, FatOk;
    RewriteRegrows(fs, start, buf);
    RegrowKeepsOthers(fs, start, RewriteRun(fs.vol, start, buf).vol, RewriteChain(fs.vol, start, buf), s);
  }

  lemma RewriteKeepsFsOk(fs: Fs, start: nat, buf: seq<byte>)
    requires FsOk(fs) && IsFileStart(fs, start)
    ensures start == 0 || InRange(fs.vol.fat, start)
    ensures var fs' := RewriteFs(fs, start, buf);
            && FsOk(fs') && fs'.root == fs.root && fs'.dirs == fs.dirs && fs'.vol.csize == fs.vol.csize
            && forall d :: d in fs.dirs ==> SlotsAt(fs', d) == SlotsAt(fs, d)
  {
    hide DirOk, Covers, Disjoint, RewriteRun, RewriteChain, Regrown, SlotsAt, FatOk;
    RewriteRegrows(fs, start, buf);
    RegrowKeepsFsOk(fs, start, RewriteRun(fs.vol, start, buf).vol, RewriteChain(fs.vol, start, buf));
  }

  // ---------- recording start cluster and size ----------

  /** A live slot whose name compares equal: an entry that fat32_update_file_entry would rewrite. */
  predicate NamedAlike(s: Slot, name: CString) {
    !IsFreeSlot(s) && CaseCompare(Decode(NameField(s)), name) == 0
  }

  /**
   Slot k of directory d, inside its first cluster and not the chain's last, is the file entry that a
   lookup of the name returns, and no label or long-name slot before it decodes to the same name.
   */
  ghost predicate EntryAt(fs: Fs, d: nat, name: CString, k: nat)
    requires Slotted(fs.vol) && EachIsChain(fs.vol.fat, fs.chains)
  {
    && d in fs.dirs && d in fs.chains
    && k < fs.vol.csize / SLOT && k + 1 < |SlotsAt(fs, d)|
    && Hit(SlotsAt(fs, d)[k], name) && !IsDirSlot(SlotsAt(fs, d)[k])
    && forall j :: 0 <= j < k ==> SlotsAt(fs, d)[j][0] != 0 && !NamedAlike(SlotsAt(fs, d)[j], name)
  }

  lemma {:induction false} UpdateIndexIs(slots: seq<Slot>, i: nat, name: CString, k: nat)
    requires i <= k < |slots| && NamedAlike(slots[k], name)
    requires forall j :: i <= j < k ==> !NamedAlike(slots[j], name)
    ensures UpdateIndex(slots, i, name) == k
    decreases k - i
  {
    if i < k {
      UpdateIndexIs(slots, i + 1, name, k);
    }
  }

  /** The update finds the entry, rewrites it, and changes no other slot of any directory and no other chain's bytes. */
  lemma UpdateRewritesEntry(fs: Fs, d: nat, name: CString, k: nat, start: nat, size: nat, stamp: Stamp)
    requires FsOk(fs) && EntryAt(fs, d, name, k) && InRange(fs.vol.fat, d)
    ensures var r := UpdateEntry(fs.vol, d, name, start, size, stamp.time, stamp.date);
            && r.Some?
            && var fs' := fs.(vol := r.value);
               && FsOk(fs')
               && SlotsAt(fs', d) == SlotsAt(fs, d)[k := UpdatedSlot(SlotsAt(fs, d)[k], start, size, stamp.time, stamp.date)]
               && (forall c :: c in fs.chains && c != d ==>
                     ChainBytes(fs'.vol, fs.chains[c]) == ChainBytes(fs.vol, fs.chains[c])
                     && SlotsAt(fs', c) == SlotsAt(fs, c))
               && fs'.vol.fat == fs.vol.fat && fs'.vol.csize == fs.vol.csize
  {
    hide DirOk, Covers, Disjoint, Decode, CaseCompare, IsChain, ChainSlots;
    var slots := SlotsAt(fs, d);
    var e := UpdatedSlot(slots[k], start, size, stamp.time, stamp.date);
    FirstClusterIsPrefix(fs, d);
    var first := ClusterSlots(fs.vol, d);
    assert forall j :: 0 <= j <= k ==> first[j] == slots[j];
    UpdateIndexIs(first, 0, name, k);
    SameNameSameHit(slots[k], e, name);
    PutSlotAt(fs, d, k, e);
    UpdateKeepsDir(slots, k, e, fs.dirs);
  }

  lemma UpdateKeepsDir(slots: seq<Slot>, k: nat, e: Slot, dirs: set<nat>)
    requires DirOk(slots, dirs) && k < |slots| && e[..12] == slots[k][..12] && !IsDirSlot(slots[k])
    ensures DirOk(slots[k := e], dirs)
  {
  }

  lemma FirstClusterIsPrefix(fs: Fs, d: nat)
    requires Slotted(fs.vol) && EachIsChain(fs.vol.fat, fs.chains) && d in fs.chains && InRange(fs.vol.fat, d)
    ensures fs.vol.csize / SLOT <= |SlotsAt(fs, d)|
    ensures ClusterSlots(fs.vol, d) == SlotsAt(fs, d)[..fs.vol.csize / SLOT]
  {
    assert fs.chains[d][0] == d;
    FirstClusterSlots(fs.vol, fs.chains[d]);
  }

  // ---------- saving ----------

  /** What a save leaves: the file rewritten and its entry updated. */
  datatype Saved = Saved(fs: Fs, start: nat, size: nat)

  /** fat32_rewrite followed by recording the new start cluster and size in the entry of that name in d. */
  function Save(fs: Fs, d: nat, name: CString, start: nat, buf: seq<byte>, stamp: Stamp): Option<Saved>
    requires Slotted(fs.vol) && (start == 0 || InRange(fs.vol.fat, start)) && InRange(fs.vol.fat, d)
    requires Slotted(RewriteFs(fs, start, buf).vol) && InRange(RewriteFs(fs, start, buf).vol.fat, d)
  {
    var r := RewriteRun(fs.vol, start, buf);
    var fs' := RewriteFs(fs, start, buf);
    match UpdateEntry(fs'.vol, d, name, r.handle.start, r.handle.size, stamp.time, stamp.date)
    case None => None
    case Some(v) => Some(Saved(fs'.(vol := v), r.handle.start, r.handle.size))
  }

  lemma EntryKept(fs: Fs, fs': Fs, d: nat, name: CString, k: nat)
    requires Slotted(fs.vol) && EachIsChain(fs.vol.fat, fs.chains) && EntryAt(fs, d, name, k)
    requires Slotted(fs'.vol) && EachIsChain(fs'.vol.fat, fs'.chains) && d in fs'.chains && fs'.dirs == fs.dirs
    requires fs'.vol.csize == fs.vol.csize && SlotsAt(fs', d) == SlotsAt(fs, d)
    ensures EntryAt(fs', d, name, k)
  {
  }

  /** The slots of all directories after a save: the entry's start cluster and size, and nothing else. */
  lemma SaveSlots(fs: Fs, d: nat, name: CString, k: nat, start: nat, buf: seq<byte>, stamp: Stamp)
    requires FsOk(fs) && EntryAt(fs, d, name, k) && IsFileStart(fs, start)
    ensures start == 0 || InRange(fs.vol.fat, start)
    ensures InRange(fs.vol.fat, d)
    ensures Slotted(RewriteFs(fs, start, buf).vol) && InRange(RewriteFs(fs, start, buf).vol.fat, d)
    ensures var r := RewriteRun(fs.vol, start, buf);
            var o := Save(fs, d, name, start, buf, stamp);
            && o.Some? && FsOk(o.value.fs)
            && o.value.fs.root == fs.root && o.value.fs.dirs == fs.dirs
            && o.value.start == r.handle.start && o.value.size == r.handle.size
            && SlotsAt(o.value.fs, d) == SlotsAt(fs, d)[k :=
                 UpdatedSlot(SlotsAt(fs, d)[k], r.handle.start, r.handle.size, stamp.time, stamp.date)]
            && (forall c :: c in fs.dirs && c != d ==> SlotsAt(o.value.fs, c) == SlotsAt(fs, c))
  {
    hide DirOk, Covers, Disjoint, IsChain, ChainSlots, UpdateEntry, UpdatedSlot, RewriteRun, RewriteChain, Hit, NamedAlike;
    RewriteKeepsFsOk(fs, start, buf);
    var fs1 := RewriteFs(fs, start, buf);
    var r := RewriteRun(fs.vol, start, buf);
    ZeroIsNoStart(fs.vol.fat, fs.chains);
    ZeroIsNoStart(fs1.vol.fat, fs1.chains);
    EntryKept(fs, fs1, d, name, k);
    UpdateRewritesEntry(fs1, d, name, k, r.handle.start, r.handle.size, stamp);
  }

  /** A rewrite that fits leaves a file that holds buf. */
  lemma RewriteHolds(fs: Fs, start: nat, buf: seq<byte>)
    requires FsOk(fs) && IsFileStart(fs, start)
    requires Ceil(|buf|, fs.vol.csize) <= |FreeSet(fs.vol.fat)| + |ChainOf(fs.chains, start)|
    ensures start == 0 || InRange(fs.vol.fat, start)
    ensures var r := RewriteRun(fs.vol, start, buf);
            && r.count == |buf| == r.handle.size && (r.handle.start == 0 || InRange(fs.vol.fat, r.handle.start))
            && FileHolds(r.vol, r.handle.start, RewriteChain(fs.vol, start, buf), buf)
  {
    hide DirOk, Covers, Disjoint, RewriteRun, RewriteChain, Content, Ceil, Times;
    FileStartInRange(fs, start);
    RewriteReplacesFile(fs.vol, start, ChainOf(fs.chains, start), buf);
    RewriteFrame(fs.vol, start, ChainOf(fs.chains, start), buf);
    assert buf[..|buf|] == buf;
  }

  /** After a save the file's chain holds exactly the saved bytes. */
  lemma SaveBytes(fs: Fs, d: nat, name: CString, k: nat, start: nat, buf: seq<byte>, stamp: Stamp)
    requires FsOk(fs) && EntryAt(fs, d, name, k) && IsFileStart(fs, start)
    requires Ceil(|buf|, fs.vol.csize) <= |FreeSet(fs.vol.fat)| + |ChainOf(fs.chains, start)|
    requires InRange(fs.vol.fat, d) && (start == 0 || InRange(fs.vol.fat, start))
    requires Slotted(RewriteFs(fs, start, buf).vol) && InRange(RewriteFs(fs, start, buf).vol.fat, d)
    requires Save(fs, d, name, start, buf, stamp).Some? && FsOk(Save(fs, d, name, start, buf, stamp).value.fs)
    ensures var o := Save(fs, d, name, start, buf, stamp).value;
            && o.size == |buf| && (o.start == 0 || InRange(fs.vol.fat, o.start))
            && FileHolds(o.fs.vol, o.start, RewriteChain(fs.vol, start, buf), buf)
  {
    hide DirOk, Covers, Disjoint, EachIsChain, FatOk, ChainSlots, UpdatedSlot, RewriteRun, RewriteChain, NamedAlike, Regrown,
         Rechain, Find, Hit, UpdateEntry, FileHolds, Content, Times, Ceil;
    var r, ch := RewriteRun(fs.vol, start, buf), RewriteChain(fs.vol, start, buf);
    var fs1 := RewriteFs(fs, start, buf);
    RewriteHolds(fs, start, buf);
    RewriteKeepsFsOk(fs, start, buf);
    RewriteRegrows(fs, start, buf);
    RegrowKeepsFsOk(fs, start, fs1.vol, ch);
    EntryKept(fs, fs1, d, name, k);
    UpdateRewritesEntry(fs1, d, name, k, r.handle.start, r.handle.size, stamp);
    FileHoldsFramed(fs1.vol, Save(fs, d, name, start, buf, stamp).value.fs.vol, r.handle.start, ch, buf);
  }

  /** Every other chain but the parent directory's keeps its clusters and its bytes. */
  lemma SaveKeepsOthers(fs: Fs, d: nat, name: CString, k: nat, start: nat, buf: seq<byte>, stamp: Stamp, s: nat)
    requires FsOk(fs) && EntryAt(fs, d, name, k) && IsFileStart(fs, start)
    requires InRange(fs.vol.fat, d) && (start == 0 || InRange(fs.vol.fat, start))
    requires Slotted(RewriteFs(fs, start, buf).vol) && InRange(RewriteFs(fs, start, buf).vol.fat, d)
    requires Save(fs, d, name, start, buf, stamp).Some? && FsOk(Save(fs, d, name, start, buf, stamp).value.fs)
    requires s in fs.chains && s != start && s != d
    ensures var fs' := Save(fs, d, name, start, buf, stamp).value.fs;
            && s in fs'.chains && fs'.chains[s] == fs.chains[s]
            && ChainBytes(fs'.vol, fs.chains[s]) == ChainBytes(fs.vol, fs.chains[s])
  {
    hide DirOk, Covers, Disjoint, ChainSlots, UpdatedSlot, RewriteRun, RewriteChain, NamedAlike, Rechain, Find, Hit, UpdateEntry;
    var r, fs1 := RewriteRun(fs.vol, start, buf), RewriteFs(fs, start, buf);
    RewriteKeepsFsOk(fs, start, buf);
    RewriteKeepsOthers(fs, start, buf, s);
    EntryKept(fs, fs1, d, name, k);
    UpdateRewritesEntry(fs1, d, name, k, r.handle.start, r.handle.size, stamp);
  }

  /** Reading a freshly opened file of known content gives that content. */
  lemma OpenedFileReads(v: Vol, start: nat, ch: seq<nat>, buf: seq<byte>, n: nat)
    requires FileHolds(v, start, ch, buf) && |buf| <= n
    ensures var h := Handle(start, start, 0, 0, |buf|);
            && (h.off < h.size ==> InRange(v.fat, h.cur))
            && ReadRun(v, h, n).1 == buf
  {
    hide ReadRun, Content;
    var h := Handle(start, start, 0, 0, |buf|);
    ReadReturnsContent(v, h, ch, n);
    assert buf[0..|buf|] == buf;
  }

  // ---------- the path view of a save ----------

  /** After a save every path resolves as before, or to the saved file where it used to resolve to the old one. */
  lemma {:induction false} ResolveAfterSave(fs: Fs, fs': Fs, d: nat, k: nat, e: Slot, c: nat, p: CString)
    requires FsOk(fs) && Slotted(fs'.vol) && EachIsChain(fs'.vol.fat, fs'.chains) && c in fs.dirs && d in fs.dirs
    requires k < |SlotsAt(fs, d)| && e[..12] == SlotsAt(fs, d)[k][..12] && !IsDirSlot(SlotsAt(fs, d)[k])
    requires fs.dirs <= fs'.chains.Keys && SlotsAt(fs', d) == SlotsAt(fs, d)[k := e]
    requires forall x :: x in fs.dirs && x != d ==> SlotsAt(fs', x) == SlotsAt(fs, x)
    ensures var (was, now) := (Resolve(fs, c, p), Resolve(fs', c, p));
            now == was || (was == Some(TargetOf(SlotsAt(fs, d)[k])) && now == Some(TargetOf(e)))
    decreases |p|
  {
    hide Find, DirOk, EachIsChain, Disjoint, Covers, FirstCluster, FileSize, ChainSlots;
    var q := SkipSlashes(p);
    if q != [] {
      var m := ComponentLength(q, COMPONENT_MAX);
      var r := Find(SlotsAt(fs, c), 0, q[..m]);
      FindAfterRewrite(SlotsAt(fs, d), k, e, 0, q[..m]);
      SameNameSameHit(SlotsAt(fs, d)[k], e, q[..m]);
      FindInSlots(SlotsAt(fs, c), 0, q[..m], fs.dirs);
      if r.Some? && LeadsOn(r.value) {
        ResolveAfterSave(fs, fs', d, k, e, FirstCluster(r.value), q[m..]);
      }
    }
  }

  /** The file whose entry is slot k of the directory that holds the path's last component. */
  ghost predicate FileEntryAt(fs: Fs, path: CString, d: nat, k: nat, start: nat)
    requires Slotted(fs.vol) && EachIsChain(fs.vol.fat, fs.chains)
  {
    && ParentOf(fs, path) == Some(d) && IsComponent(NameOf(path)) && EntryAt(fs, d, NameOf(path), k)
    && FirstCluster(SlotsAt(fs, d)[k]) == start && IsFileStart(fs, start)
  }

  lemma EntryOpens(fs: Fs, path: CString, d: nat, k: nat, start: nat)
    requires FsOk(fs) && FileEntryAt(fs, path, d, k, start)
    ensures Open(fs, path) == Some(File(start, FileSize(SlotsAt(fs, d)[k])))
  {
    hide DirOk, Covers, Disjoint, Hit, ChainSlots, Resolve;
    var slots := SlotsAt(fs, d);
    assert forall j :: 0 <= j < k ==> slots[j][0] != 0 && !Hit(slots[j], NameOf(path)) by {
      HitIsNamedAlike(slots, NameOf(path));
    }
    FindAfterUpdate(slots, k, slots[k], 0, NameOf(path));
    ResolveSplit(fs, Upper(path), d);
  }

  lemma HitIsNamedAlike(slots: seq<Slot>, name: CString)
    ensures forall j :: 0 <= j < |slots| ==> Hit(slots[j], name) ==> NamedAlike(slots[j], name)
  {
  }

  /** The parent is still found after the rewrite, so the update goes to the same entry. */
  lemma UpdateIsSave(fs: Fs, path: CString, d: nat, k: nat, start: nat, buf: seq<byte>, stamp: Stamp)
    requires FsOk(fs) && FileEntryAt(fs, path, d, k, start)
    ensures start == 0 || InRange(fs.vol.fat, start)
    ensures InRange(fs.vol.fat, d)
    ensures Slotted(RewriteFs(fs, start, buf).vol) && InRange(RewriteFs(fs, start, buf).vol.fat, d)
    ensures var r := RewriteRun(fs.vol, start, buf);
            var o := Save(fs, d, NameOf(path), start, buf, stamp);
            && FsOk(RewriteFs(fs, start, buf)) && OnCourse(RewriteFs(fs, start, buf), path) && o.Some?
            && UpdateRun(RewriteFs(fs, start, buf), path, r.handle.start, r.handle.size, stamp) == (true, o.value.fs)
  {
    hide DirOk, Covers, Disjoint, ChainSlots, Resolve, Hit, NamedAlike, RewriteRun, RewriteChain, Rechain, UpdateEntry, NameOf;
    SaveSlots(fs, d, NameOf(path), k, start, buf, stamp);
    RewriteKeepsFsOk(fs, start, buf);
    var fs1 := RewriteFs(fs, start, buf);
    forall c | c in fs.dirs ensures Kept(SlotsAt(fs, c), SlotsAt(fs1, c)) {
    }
    ParentKept(fs, fs1, path);
  }

  lemma ParentKept(fs: Fs, fs': Fs, path: CString)
    requires FsOk(fs) && Slotted(fs'.vol) && EachIsChain(fs'.vol.fat, fs'.chains) && fs'.root == fs.root
    requires forall d :: d in fs.dirs ==> d in fs'.chains && Kept(SlotsAt(fs, d), SlotsAt(fs', d))
    ensures ParentOf(fs, path).Some? ==> ParentOf(fs', path) == ParentOf(fs, path)
  {
    hide DirOk, Covers, Disjoint, EachIsChain, ChainSlots, Kept;
    NameIsUpper(path);
    ResolveKept(fs, fs', fs.root, SplitPath(Upper(path)).0);
  }

  lemma SavedPaths(fs: Fs, o: Saved, path: CString, d: nat, k: nat, start: nat, stamp: Stamp)
    requires FsOk(fs) && FileEntryAt(fs, path, d, k, start) && FsOk(o.fs) && o.fs.root == fs.root && o.fs.dirs == fs.dirs
    requires o.start < 0x1_0000_0000 && o.size < 0x1_0000_0000
    requires SlotsAt(o.fs, d) == SlotsAt(fs, d)[k := UpdatedSlot(SlotsAt(fs, d)[k], o.start, o.size, stamp.time, stamp.date)]
    requires forall c :: c in fs.dirs && c != d ==> SlotsAt(o.fs, c) == SlotsAt(fs, c)
    ensures Open(o.fs, path) == Some(File(o.start, o.size))
    ensures forall q: CString :: Open(o.fs, q) == Open(fs, q)
                                 || (Open(fs, q) == Open(fs, path) && Open(o.fs, q) == Open(o.fs, path))
  {
    hide DirOk, Covers, Disjoint, ChainSlots, Resolve, NamedAlike, Find;
    var slots := SlotsAt(fs, d);
    var e := UpdatedSlot(slots[k], o.start, o.size, stamp.time, stamp.date);
    UpdatedSlotFields(slots[k], o.start, o.size, stamp.time, stamp.date);
    SameNameSameHit(slots[k], e, NameOf(path));
    EntryOpens(fs, path, d, k, start);
    HitIsNamedAlike(slots, NameOf(path));
    FindAfterUpdate(slots, k, e, 0, NameOf(path));
    ResolveAfterSave(fs, o.fs, d, k, e, fs.root, SplitPath(Upper(path)).0);
    ResolveSplit(o.fs, Upper(path), d);
    forall q: CString ensures Open(o.fs, q) == Open(fs, q)
                              || (Open(fs, q) == Open(fs, path) && Open(o.fs, q) == Open(o.fs, path)) {
      ResolveAfterSave(fs, o.fs, d, k, e, fs.root, Upper(q));
    }
  }

  /**
   Saving an existing file: rewrite it, record start cluster and size in its entry, open the path again,
   and a read returns exactly the saved bytes.
   */
  lemma SavedFileReadsBack(fs: Fs, path: CString, d: nat, k: nat, start: nat, buf: seq<byte>, stamp: Stamp, n: nat)
    requires FsOk(fs) && FileEntryAt(fs, path, d, k, start)
    requires Ceil(|buf|, fs.vol.csize) <= |FreeSet(fs.vol.fat)| + |ChainOf(fs.chains, start)|
    requires |buf| < 0x1_0000_0000 && |buf| <= n
    ensures start == 0 || InRange(fs.vol.fat, start)
    ensures var r := RewriteRun(fs.vol, start, buf);
            && r.count == |buf| && FsOk(RewriteFs(fs, start, buf)) && OnCourse(RewriteFs(fs, start, buf), path)
            && var (ok, fs') := UpdateRun(RewriteFs(fs, start, buf), path, r.handle.start, r.handle.size, stamp);
               && ok && FsOk(fs')
               && Open(fs', path) == Some(File(r.handle.start, |buf|))
               && var h := Handle(r.handle.start, r.handle.start, 0, 0, |buf|);
                  (h.off < h.size ==> InRange(fs'.vol.fat, h.cur)) && ReadRun(fs'.vol, h, n).1 == buf
  {
    hide DirOk, Covers, Disjoint, EachIsChain, FatOk, ChainSlots, Resolve, NamedAlike, EntryAt, Open, RewriteRun, RewriteChain,
         RewriteFs, Save, UpdateRun, NameOf, ReadRun, Content, Ceil, Times, IsFileStart, UpdatedSlot;
    UpdateIsSave(fs, path, d, k, start, buf, stamp);
    SaveSlots(fs, d, NameOf(path), k, start, buf, stamp);
    SaveBytes(fs, d, NameOf(path), k, start, buf, stamp);
    RewriteHolds(fs, start, buf);
    var o := Save(fs, d, NameOf(path), start, buf, stamp).value;
    SavedPaths(fs, o, path, d, k, start, stamp);
    OpenedFileReads(o.fs.vol, o.start, RewriteChain(fs.vol, start, buf), buf, n);
  }

  /**
   The same save leaves the rest alone: every other path opens as before (another path to this entry
   follows it), and every chain but the file's and the parent directory's keeps its clusters and bytes.
   */
  lemma SavedFileKeepsRest(fs: Fs, path: CString, d: nat, k: nat, start: nat, buf: seq<byte>, stamp: Stamp)
    requires FsOk(fs) && FileEntryAt(fs, path, d, k, start)
    requires Ceil(|buf|, fs.vol.csize) <= |FreeSet(fs.vol.fat)| + |ChainOf(fs.chains, start)|
    requires |buf| < 0x1_0000_0000
    ensures start == 0 || InRange(fs.vol.fat, start)
    ensures FsOk(RewriteFs(fs, start, buf)) && OnCourse(RewriteFs(fs, start, buf), path)
    ensures var r := RewriteRun(fs.vol, start, buf);
            var fs' := UpdateRun(RewriteFs(fs, start, buf), path, r.handle.start, r.handle.size, stamp).1;
            && FsOk(fs')
            && (forall s :: s in fs.chains && s != start && s != d ==>
                  s in fs'.chains && fs'.chains[s] == fs.chains[s]
                  && ChainBytes(fs'.vol, fs.chains[s]) == ChainBytes(fs.vol, fs.chains[s]))
            && (forall q: CString :: Open(fs', q) == Open(fs, q)
                                     || (Open(fs, q) == Open(fs, path) && Open(fs', q) == Open(fs', path)))
  {
    hide DirOk, Covers, Disjoint, FatOk, ChainSlots, Resolve, NamedAlike, EntryAt, Open, RewriteRun, RewriteChain,
         RewriteFs, Save, UpdateRun, NameOf, Ceil, Times, IsFileStart, UpdatedSlot, ChainBytes;
    UpdateIsSave(fs, path, d, k, start, buf, stamp);
    SaveSlots(fs, d, NameOf(path), k, start, buf, stamp);
    SaveBytes(fs, d, NameOf(path), k, start, buf, stamp);
    var o := Save(fs, d, NameOf(path), start, buf, stamp).value;
    SavedPaths(fs, o, path, d, k, start, stamp);
    forall s | s in fs.chains && s != start && s != d
      ensures s in o.fs.chains && o.fs.chains[s] == fs.chains[s]
      ensures ChainBytes(o.fs.vol, fs.chains[s]) == ChainBytes(fs.vol, fs.chains[s])
    {
      SaveKeepsOthers(fs, d, NameOf(path), k, start, buf, stamp, s);
    }
  }

  // ---------- a new file ----------

  /** No volume label or long-name slot of the directory decodes to the name. */
  ghost predicate Unshadowed(slots: seq<Slot>, name: CString) {
    forall j :: 0 <= j < |slots| && NamedAlike(slots[j], name) ==> Hit(slots[j], name)
  }

  lemma FileSlotFields(name: CString, stamp: Stamp)
    ensures FirstCluster(FileSlot(name, stamp)) == 0 && !IsDirSlot(FileSlot(name, stamp))
  {
    MakeSlotFields(Encode(name), ATTR_ARCHIVE, 0, 0, stamp.time, stamp.date);
  }

  /** fat32_create leaves the new entry where the update will find it, and every other chain's bytes alone. */
  lemma CreatedEntryAt(fs: Fs, path: CString, stamp: Stamp, d: nat)
    requires FsOk(fs) && NewName(fs, path, d) && CreateRun(fs, path, stamp).0
    requires d in fs.dirs && InRange(fs.vol.fat, d) && SlotIsVisible(fs, d)
    requires Unshadowed(SlotsAt(fs, d), NameOf(path))
    ensures var fs1 := CreateRun(fs, path, stamp).1;
            && FsOk(fs1) && fs1 == fs.(vol := fs1.vol) && fs1.vol.fat == fs.vol.fat && fs1.vol.csize == fs.vol.csize
            && EntryIndex(fs, d) < |SlotsAt(fs, d)|
            && SlotsAt(fs1, d) == SlotsAt(fs, d)[EntryIndex(fs, d) := FileSlot(NameOf(path), stamp)]
            && EntryAt(fs1, d, NameOf(path), EntryIndex(fs, d))
            && FirstCluster(SlotsAt(fs1, d)[EntryIndex(fs, d)]) == 0
            && (forall c :: c in fs.chains && c != d ==>
                  ChainBytes(fs1.vol, fs.chains[c]) == ChainBytes(fs.vol, fs.chains[c])
                  && SlotsAt(fs1, c) == SlotsAt(fs, c))
  {
    hide DirOk, Covers, Disjoint, EachIsChain, FatOk, ChainSlots, Resolve, NameOf, FileSlot, Hit, FirstFreeSlot, FirstCluster;
    var e, i := FileSlot(NameOf(path), stamp), EntryIndex(fs, d);
    CreateKeepsFsOk(fs, path, stamp);
    EntryIndexIsFirstFree(fs, d);
    NewSlotHit(path, e, 0);
    PutSlotAt(fs, d, i, e);
    FileSlotFields(NameOf(path), stamp);
    NoneAlikeBefore(SlotsAt(fs, d), i, NameOf(path));
  }

  lemma NoneAlikeBefore(slots: seq<Slot>, i: nat, name: CString)
    requires i + 1 < |slots| && Find(slots, 0, name) == None && Unshadowed(slots, name)
    requires forall j :: 0 <= j < i ==> !IsFreeSlot(slots[j])
    ensures forall j :: 0 <= j < i ==> slots[j][0] != 0 && !NamedAlike(slots[j], name)
  {
    hide Hit, Find;
    FindIsFirstHit(slots, 0, name);
  }

  lemma CreatedFileEntryAt(fs: Fs, path: CString, stamp: Stamp, d: nat)
    requires FsOk(fs) && NewName(fs, path, d) && CreateRun(fs, path, stamp).0
    requires d in fs.dirs && InRange(fs.vol.fat, d) && SlotIsVisible(fs, d)
    requires Unshadowed(SlotsAt(fs, d), NameOf(path))
    ensures FsOk(CreateRun(fs, path, stamp).1)
    ensures FileEntryAt(CreateRun(fs, path, stamp).1, path, d, EntryIndex(fs, d), 0)
  {
    hide DirOk, Covers, Disjoint, EachIsChain, FatOk, ChainSlots, Resolve, NameOf, EntryIndex, NamedAlike, Find, EntryAt, CreateRun, FileSlot;
    CreatedEntryAt(fs, path, stamp, d);
    CreateThenOpen(fs, path, stamp, d);
    var fs1 := CreateRun(fs, path, stamp).1;
    CreatedKept(fs, path, stamp, d);
    ParentKept(fs, fs1, path);
  }

  /** Names that were found before are found as the same entries after the creation. */
  lemma CreatedKept(fs: Fs, path: CString, stamp: Stamp, d: nat)
    requires FsOk(fs) && NewName(fs, path, d) && CreateRun(fs, path, stamp).0 && d in fs.dirs && InRange(fs.vol.fat, d)
    ensures var fs1 := CreateRun(fs, path, stamp).1;
            && Slotted(fs1.vol) && EachIsChain(fs1.vol.fat, fs1.chains) && fs1.chains == fs.chains && fs1.root == fs.root
            && (forall c :: c in fs.dirs ==> Kept(SlotsAt(fs, c), SlotsAt(fs1, c)))
  {
    hide DirOk, Covers, Disjoint, EachIsChain, FatOk, ChainSlots, Resolve, NameOf, EntryIndex, Find, FileSlot, Hit;
    var e := FileSlot(NameOf(path), stamp);
    NewSlotHit(path, e, 0);
    CreateEntryFound(fs, d, e, NameOf(path));
  }

  /**
   End to end: create a file, rewrite it with buf, record start cluster and size, open the path again, and
   a read returns exactly buf.
   */
  lemma NewFileReadsBack(fs: Fs, path: CString, d: nat, buf: seq<byte>, created: Stamp, saved: Stamp, n: nat)
    requires FsOk(fs) && NewName(fs, path, d) && CreateRun(fs, path, created).0
    requires d in fs.dirs && InRange(fs.vol.fat, d) && SlotIsVisible(fs, d)
    requires Unshadowed(SlotsAt(fs, d), NameOf(path))
    requires Ceil(|buf|, fs.vol.csize) <= |FreeSet(fs.vol.fat)| && |buf| < 0x1_0000_0000 && |buf| <= n
    ensures var fs1 := CreateRun(fs, path, created).1;
            && FsOk(fs1) && Open(fs1, path) == Some(File(0, 0))
            && var r := RewriteRun(fs1.vol, 0, buf);
               && r.count == |buf| && FsOk(RewriteFs(fs1, 0, buf)) && OnCourse(RewriteFs(fs1, 0, buf), path)
               && var (ok, fs3) := UpdateRun(RewriteFs(fs1, 0, buf), path, r.handle.start, r.handle.size, saved);
                  && ok && FsOk(fs3)
                  && Open(fs3, path) == Some(File(r.handle.start, |buf|))
                  && var h := Handle(r.handle.start, r.handle.start, 0, 0, |buf|);
                     (h.off < h.size ==> InRange(fs3.vol.fat, h.cur)) && ReadRun(fs3.vol, h, n).1 == buf
  {
    hide DirOk, Covers, Disjoint, EachIsChain, FatOk, ChainSlots, Resolve, NameOf, EntryIndex, NamedAlike, Find, EntryAt, CreateRun,
         FileSlot, RewriteRun, RewriteFs, UpdateRun, ReadRun, Open, Ceil;
    CreatedEntryAt(fs, path, created, d);
    CreatedFileEntryAt(fs, path, created, d);
    CreateThenOpen(fs, path, created, d);
    SavedFileReadsBack(CreateRun(fs, path, created).1, path, d, EntryIndex(fs, d), 0, buf, saved, n);
  }

  /**
   The same run leaves every path that opened before as it was, and every chain but the parent directory's
   keeps its clusters and bytes.
   */
  lemma NewFileKeepsRest(fs: Fs, path: CString, d: nat, buf: seq<byte>, created: Stamp, saved: Stamp)
    requires FsOk(fs) && NewName(fs, path, d) && CreateRun(fs, path, created).0
    requires d in fs.dirs && InRange(fs.vol.fat, d) && SlotIsVisible(fs, d)
    requires Unshadowed(SlotsAt(fs, d), NameOf(path))
    requires Ceil(|buf|, fs.vol.csize) <= |FreeSet(fs.vol.fat)| && |buf| < 0x1_0000_0000
    ensures var fs1 := CreateRun(fs, path, created).1;
            && FsOk(fs1) && FsOk(RewriteFs(fs1, 0, buf)) && OnCourse(RewriteFs(fs1, 0, buf), path)
            && var r := RewriteRun(fs1.vol, 0, buf);
               var fs3 := UpdateRun(RewriteFs(fs1, 0, buf), path, r.handle.start, r.handle.size, saved).1;
               && FsOk(fs3) && OpensKept(fs, fs3)
               && forall s :: s in fs.chains && s != d ==>
                    s in fs3.chains && fs3.chains[s] == fs.chains[s]
                    && ChainBytes(fs3.vol, fs.chains[s]) == ChainBytes(fs.vol, fs.chains[s])
  {
    hide DirOk, Covers, Disjoint, EachIsChain, FatOk, ChainSlots, Resolve, NameOf, EntryIndex, NamedAlike, Find, EntryAt, CreateRun,
         FileSlot, RewriteRun, RewriteFs, UpdateRun, Open, Ceil, ChainBytes, Kept, UpdatedSlot, Save;
    var fs1, k := CreateRun(fs, path, created).1, EntryIndex(fs, d);
    CreatedEntryAt(fs, path, created, d);
    CreatedFileEntryAt(fs, path, created, d);
    SavedFileKeepsRest(fs1, path, d, k, 0, buf, saved);
    UpdateIsSave(fs1, path, d, k, 0, buf, saved);
    SaveSlots(fs1, d, NameOf(path), k, 0, buf, saved);
    var o := Save(fs1, d, NameOf(path), 0, buf, saved).value;
    NewFileKept(fs, path, d, created, o, saved);
    forall q: CString | Open(fs, q).Some? ensures Open(o.fs, q) == Open(fs, q) {
      OpenKept(fs, o.fs, q);
    }
    ZeroIsNoStart(fs.vol.fat, fs.chains);
  }

  lemma OpenKept(fs: Fs, fs': Fs, q: CString)
    requires FsOk(fs) && Slotted(fs'.vol) && EachIsChain(fs'.vol.fat, fs'.chains) && fs'.root == fs.root
    requires forall d :: d in fs.dirs ==> d in fs'.chains && Kept(SlotsAt(fs, d), SlotsAt(fs', d))
    ensures Open(fs, q).Some? ==> Open(fs', q) == Open(fs, q)
  {
    hide DirOk, Covers, Disjoint, EachIsChain, ChainSlots, Kept, Resolve;
    ResolveKept(fs, fs', fs.root, Upper(q));
  }

  /** Names that were found before the creation are found as the same entries after the save. */
  lemma NewFileKept(fs: Fs, path: CString, d: nat, created: Stamp, o: Saved, saved: Stamp)
    requires FsOk(fs) && NewName(fs, path, d) && CreateRun(fs, path, created).0
    requires d in fs.dirs && InRange(fs.vol.fat, d) && SlotIsVisible(fs, d) && Unshadowed(SlotsAt(fs, d), NameOf(path))
    requires FsOk(CreateRun(fs, path, created).1) && EntryIndex(fs, d) < |SlotsAt(CreateRun(fs, path, created).1, d)|
    requires FsOk(o.fs) && fs.dirs <= o.fs.chains.Keys && CreateRun(fs, path, created).1.dirs == fs.dirs
    requires var slots := SlotsAt(CreateRun(fs, path, created).1, d);
             SlotsAt(o.fs, d) == slots[EntryIndex(fs, d) :=
               UpdatedSlot(slots[EntryIndex(fs, d)], o.start, o.size, saved.time, saved.date)]
    requires forall c :: c in fs.dirs && c != d ==> SlotsAt(o.fs, c) == SlotsAt(CreateRun(fs, path, created).1, c)
    ensures forall c :: c in fs.dirs ==> Kept(SlotsAt(fs, c), SlotsAt(o.fs, c))
  {
    hide DirOk, Covers, Disjoint, EachIsChain, FatOk, ChainSlots, Resolve, NameOf, EntryIndex, NamedAlike, Find, EntryAt, CreateRun,
         FileSlot, UpdatedSlot, Hit;
    var fs1, k := CreateRun(fs, path, created).1, EntryIndex(fs, d);
    var slots := SlotsAt(fs1, d);
    var e := UpdatedSlot(slots[k], o.start, o.size, saved.time, saved.date);
    CreatedEntryAt(fs, path, created, d);
    CreatedKept(fs, path, created, d);
    NewSlotHit(path, FileSlot(NameOf(path), created), 0);
    forall m: CString | IsUpper(m) && Find(SlotsAt(fs, d), 0, m).Some?
      ensures Find(SlotsAt(o.fs, d), 0, m) == Find(SlotsAt(fs, d), 0, m)
    {
      FindAfterRewrite(slots, k, e, 0, m);
    }
  }
}
