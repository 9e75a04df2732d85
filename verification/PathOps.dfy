/** fat32_create, fat32_mkdir and fat32_update_file_entry on paths. */
module PathOps {
  import opened FatTable
  import opened Chains
  import opened Names
  import opened Options
  import opened DirSlots
  import opened Directory
  import opened FsOps

  /** The clock value that an operation writes into an entry. */
  datatype Stamp = Stamp(time: nat, date: nat)

  /** The directory that fat32_open_file finds for the parent part of a path. */
  function ParentOf(fs: Fs, path: CString): Option<nat>
    requires Slotted(fs.vol) && EachIsChain(fs.vol.fat, fs.chains)
  {
    match Resolve(fs, fs.root, SplitPath(Upper(path)).0)
    case Some(Dir(d)) => Some(d)
    case _ => None
  }

  /** The walk to the path's parent does not step into cluster 0. */
  predicate OnCourse(fs: Fs, path: CString)
    requires Slotted(fs.vol) && EachIsChain(fs.vol.fat, fs.chains)
  {
    Resolve(fs, fs.root, SplitPath(Upper(path)).0) != Some(Astray)
  }

  function NameOf(path: CString): CString {
    SplitPath(Upper(path)).1
  }

  lemma ParentInDirs(fs: Fs, path: CString)
    requires FsOk(fs)
    ensures ParentOf(fs, path).Some? ==>
              ParentOf(fs, path).value in fs.dirs && InRange(fs.vol.fat, ParentOf(fs, path).value)
  {
    hide DirOk, Covers, Disjoint;
    ResolveInDirs(fs, fs.root, SplitPath(Upper(path)).0);
    ZeroIsNoStart(fs.vol.fat, fs.chains);
  }

  function FileSlot(name: CString, stamp: Stamp): Slot {
    MakeSlot(Encode(name), ATTR_ARCHIVE, 0, 0, stamp.time, stamp.date)
  }

  function DirSlot(name: CString, n: nat, stamp: Stamp): Slot {
    MakeSlot(Encode(name), ATTR_DIRECTORY, n, 0, stamp.time, stamp.date)
  }

  /** fat32_create: an empty file's entry in the parent. */
  function CreateRun(fs: Fs, path: CString, stamp: Stamp): (bool, Fs)
    requires FsOk(fs) && OnCourse(fs, path)
  {
    ParentInDirs(fs, path);
    match ParentOf(fs, path)
    case None => (false, fs)
    case Some(d) =>
      match CreateEntry(fs.vol, d, FileSlot(NameOf(path), stamp))
      case None => (false, fs)
      case Some(v) => (true, fs.(vol := v))
  }

  /**
   fat32_mkdir: take a cluster, fill it, then add the entry. When the parent's first cluster has no free
   slot the cluster stays taken although the call fails.
   */
  function MkdirRun(fs: Fs, path: CString, stamp: Stamp): (bool, Fs)
    requires FsOk(fs) && OnCourse(fs, path)
  {
    ParentInDirs(fs, path);
    var n := FirstFree(fs.vol.fat);
    match ParentOf(fs, path)
    case None => (false, fs)
    case Some(d) =>
      if n == 0 then (false, fs)
      else
        NewDirKeepsFsOk(fs, NewDir(fs, d), d);
        var made := NewDir(fs, d);
        match CreateEntry(made.vol, d, DirSlot(NameOf(path), n, stamp))
        case None => (false, made)
        case Some(v) => (true, made.(vol := v, dirs := fs.dirs + {n}))
  }

  /** fat32_update_file_entry: new start cluster and size for the entry of the path. */
  function UpdateRun(fs: Fs, path: CString, start: nat, size: nat, stamp: Stamp): (bool, Fs)
    requires FsOk(fs) && OnCourse(fs, path)
  {
    ParentInDirs(fs, path);
    match ParentOf(fs, path)
    case None => (false, fs)
    case Some(d) =>
      match UpdateEntry(fs.vol, d, NameOf(path), start, size, stamp.time, stamp.date)
      case None => (false, fs)
      case Some(v) => (true, fs.(vol := v))
  }

  // ---------- upper and lower case ----------

  /** Paths that agree up to the case of their letters lead to the same thing, and the calls that change it do the same. */
  lemma CaseDoesNotMatter(fs: Fs, p: CString, q: CString, stamp: Stamp, start: nat, size: nat)
    requires FsOk(fs) && SameButCase(p, q)
    ensures Open(fs, p) == Open(fs, q) && ParentOf(fs, p) == ParentOf(fs, q) && OnCourse(fs, p) == OnCourse(fs, q)
    ensures OnCourse(fs, p) ==>
              && CreateRun(fs, p, stamp) == CreateRun(fs, q, stamp)
              && MkdirRun(fs, p, stamp) == MkdirRun(fs, q, stamp)
              && UpdateRun(fs, p, start, size, stamp) == UpdateRun(fs, q, start, size, stamp)
  {
    hide FsOk, Resolve, SplitPath, Upper, CreateEntry, UpdateEntry, NewDir, DirSlot, FileSlot, FirstFree;
    UpperForgetsCase(p, q);
    ParentInDirs(fs, p);
    SlottedOf(fs);
  }

  // ---------- what every call keeps ----------

  lemma EncodedNameNotZero(name: CString)
    ensures Encode(name)[0] != 0
  {
  }

  lemma CreateKeepsFsOk(fs: Fs, path: CString, stamp: Stamp)
    requires FsOk(fs) && OnCourse(fs, path)
    ensures FsOk(CreateRun(fs, path, stamp).1)
  {
    hide DirOk, Covers, Disjoint, EachIsChain, MakeSlot, CreateEntry;
    ParentInDirs(fs, path);
    if ParentOf(fs, path).Some? {
      var e := FileSlot(NameOf(path), stamp);
      EncodedNameNotZero(NameOf(path));
      assert e[0] == e[..11][0];
      CreateEntryKeepsFsOk(fs, ParentOf(fs, path).value, e);
    }
  }

  lemma MkdirKeepsFsOk(fs: Fs, path: CString, stamp: Stamp)
    requires FsOk(fs) && OnCourse(fs, path)
    ensures FsOk(MkdirRun(fs, path, stamp).1)
  {
    hide DirOk, Covers, Disjoint, EachIsChain, NewDir, DirSlot, CreateEntry;
    ParentInDirs(fs, path);
    var n := FirstFree(fs.vol.fat);
    if ParentOf(fs, path).Some? && n != 0 {
      var d := ParentOf(fs, path).value;
      var made := NewDir(fs, d);
      NewDirKeepsFsOk(fs, made, d);
      DirSlotFields(NameOf(path), n, stamp);
      CreateEntryKeepsFsOk(made.(dirs := fs.dirs + {n}), d, DirSlot(NameOf(path), n, stamp));
    }
  }

  lemma DirSlotFields(name: CString, n: nat, stamp: Stamp)
    requires n < EOC
    ensures var e := DirSlot(name, n, stamp); e[0] != 0 && IsDirSlot(e) && FirstCluster(e) == n
  {
    var e := DirSlot(name, n, stamp);
    EncodedNameNotZero(name);
    assert e[0] == e[..11][0];
    MakeSlotFields(Encode(name), ATTR_DIRECTORY, n, 0, stamp.time, stamp.date);
  }

  // ---------- a new entry is found by its path ----------

  lemma {:induction false} ResolveIgnoresDirs(fs: Fs, dirs: set<nat>, c: nat, p: CString)
    requires Slotted(fs.vol) && EachIsChain(fs.vol.fat, fs.chains)
    ensures Resolve(fs.(dirs := dirs), c, p) == Resolve(fs, c, p)
    decreases |p|
  {
    hide Find, EachIsChain, ChainSlots, LeadsOn, TargetOf, FirstCluster, FileSize;
    var q := SkipSlashes(p);
    if q != [] && c in fs.chains {
      var k := ComponentLength(q, COMPONENT_MAX);
      var r := Find(SlotsAt(fs, c), 0, q[..k]);
      if r.Some? && LeadsOn(r.value) {
        ResolveIgnoresDirs(fs, dirs, FirstCluster(r.value), q[k..]);
      }
    }
  }

  /** Every path that opens in fs opens as the same thing in fs'. */
  ghost predicate OpensKept(fs: Fs, fs': Fs)
    requires Slotted(fs.vol) && EachIsChain(fs.vol.fat, fs.chains)
    requires Slotted(fs'.vol) && EachIsChain(fs'.vol.fat, fs'.chains)
  {
    forall q: CString :: Open(fs, q).Some? ==> Open(fs', q) == Open(fs, q)
  }

  /** The name part of the path is a new 8.3 name in an existing directory d. */
  ghost predicate NewName(fs: Fs, path: CString, d: nat)
    requires Slotted(fs.vol) && EachIsChain(fs.vol.fat, fs.chains)
  {
    && ParentOf(fs, path) == Some(d)
    && IsComponent(NameOf(path)) && Fits83(NameOf(path)) && NameOf(path)[0] != DELETED
    && ResolveName(fs, d, NameOf(path)) == None
  }

  /** The slot an entry for d goes to is not the very last one of the directory's chain. */
  predicate SlotIsVisible(fs: Fs, d: nat)
    requires Slotted(fs.vol) && EachIsChain(fs.vol.fat, fs.chains) && d in fs.chains && InRange(fs.vol.fat, d)
  {
    EntryIndex(fs, d) + 1 < |SlotsAt(fs, d)|
  }

  lemma NameIsUpper(path: CString)
    ensures IsUpper(NameOf(path)) && IsUpper(SplitPath(Upper(path)).0)
  {
  }

  /** An entry for a new name makes the path open as that entry and keeps every path that opened before. */
  lemma EntryThenOpen(fs: Fs, path: CString, d: nat, e: Slot)
    requires FsOk(fs) && d in fs.dirs && NewName(fs, path, d) && InRange(fs.vol.fat, d)
    requires e[0] != 0 && Hit(e, NameOf(path)) && CreateEntry(fs.vol, d, e).Some?
    requires forall n: CString :: IsUpper(n) && Hit(e, n) ==> n == NameOf(path)
    ensures var fs' := fs.(vol := CreateEntry(fs.vol, d, e).value);
            && Slotted(fs'.vol) && EachIsChain(fs'.vol.fat, fs'.chains)
            && Open(fs', path) == (if SlotIsVisible(fs, d) then Some(TargetOf(e)) else None)
            && OpensKept(fs, fs')
  {
    hide DirOk, Covers, Disjoint, EachIsChain, CreateEntry, Hit, Find, SlotsAt, EntryIndex, Fits83;
    var fs' := fs.(vol := CreateEntry(fs.vol, d, e).value);
    CreateEntryFound(fs, d, e, NameOf(path));
    NameIsUpper(path);
    ResolveKept(fs, fs', fs.root, SplitPath(Upper(path)).0);
    ResolveSplit(fs', Upper(path), d);
    forall q: CString | Open(fs, q).Some? ensures Open(fs', q) == Open(fs, q) {
      ResolveKept(fs, fs', fs.root, Upper(q));
    }
  }

  /** A created file opens, empty, unless its entry went to the chain's last slot; all other paths are kept. */
  lemma CreateThenOpen(fs: Fs, path: CString, stamp: Stamp, d: nat)
    requires FsOk(fs) && NewName(fs, path, d) && CreateRun(fs, path, stamp).0
    ensures d in fs.dirs && InRange(fs.vol.fat, d)
    ensures var fs' := CreateRun(fs, path, stamp).1;
            && FsOk(fs')
            && Open(fs', path) == (if SlotIsVisible(fs, d) then Some(File(0, 0)) else None)
            && OpensKept(fs, fs')
  {
    hide DirOk, Covers, Disjoint, EachIsChain, CreateEntry, Hit, Find, SlotsAt, EntryIndex, Resolve, NameOf, MakeSlot;
    ParentInDirs(fs, path);
    CreateKeepsFsOk(fs, path, stamp);
    var e := FileSlot(NameOf(path), stamp);
    NewSlotHit(path, e, 0);
    EntryThenOpen(fs, path, d, e);
    MakeSlotFields(Encode(NameOf(path)), ATTR_ARCHIVE, 0, 0, stamp.time, stamp.date);
  }

  /** It opens in any case: what was created as /PROGRAM.BIN is found as /program.bin. */
  lemma CreatedOpensInAnyCase(fs: Fs, path: CString, stamp: Stamp, d: nat, asked: CString)
    requires FsOk(fs) && NewName(fs, path, d) && CreateRun(fs, path, stamp).0 && SameButCase(path, asked)
    ensures d in fs.dirs && InRange(fs.vol.fat, d)
    ensures var fs' := CreateRun(fs, path, stamp).1;
            FsOk(fs') && Open(fs', asked) == if SlotIsVisible(fs, d) then Some(File(0, 0)) else None
  {
    CreateThenOpen(fs, path, stamp, d);
    hide FsOk, NewName, SlotIsVisible, CreateRun, Resolve;
    CaseDoesNotMatter(CreateRun(fs, path, stamp).1, path, asked, stamp, 0, 0);
  }

  /** The entries that create and mkdir make are hit by their own name only. */
  lemma NewSlotHit(path: CString, e: Slot, n: nat)
    requires IsComponent(NameOf(path)) && Fits83(NameOf(path)) && NameOf(path)[0] != DELETED
    requires exists stamp :: e == FileSlot(NameOf(path), stamp) || e == DirSlot(NameOf(path), n, stamp)
    ensures e[0] != 0 && Hit(e, NameOf(path))
    ensures forall m: CString :: IsUpper(m) && Hit(e, m) ==> m == NameOf(path)
  {
    hide Hit, Fits83, NameOf, MakeSlot;
    var name := NameOf(path);
    NameIsUpper(path);
    var stamp :| e == FileSlot(name, stamp) || e == DirSlot(name, n, stamp);
    var (attributes, cluster) := if e == FileSlot(name, stamp) then (ATTR_ARCHIVE, 0) else (ATTR_DIRECTORY, n);
    EncodedNameNotZero(name);
    assert e[0] == e[..11][0];
    MadeSlotHit(name, attributes, cluster, 0, stamp.time, stamp.date, name);
    forall m: CString | IsUpper(m) && Hit(e, m) ensures m == name {
      MadeSlotHit(name, attributes, cluster, 0, stamp.time, stamp.date, m);
    }
  }

  /** Before its entry is written, the new cluster changes no path, no free slot, and only itself becomes used. */
  lemma MadeKeepsPaths(fs: Fs, path: CString, d: nat)
    requires FsOk(fs) && NewName(fs, path, d) && FirstFree(fs.vol.fat) != 0
    ensures d in fs.dirs && InRange(fs.vol.fat, d)
    ensures var made := NewDir(fs, d);
            && FsOk(made) && made.dirs == fs.dirs && NewName(made, path, d) && OpensKept(fs, made)
            && InRange(made.vol.fat, d) && made.vol.csize == fs.vol.csize
            && SlotIsVisible(made, d) == SlotIsVisible(fs, d)
  {
    hide DirOk, Covers, Disjoint, EachIsChain, Find, ChainSlots, NewDir, Fits83;
    ParentInDirs(fs, path);
    var made := NewDir(fs, d);
    NewDirVol(fs, d);
    NewDirKeepsFsOk(fs, made, d);
    forall c | c in fs.dirs ensures SlotsAt(made, c) == SlotsAt(fs, c) {
      NewDirKeepsBytes(fs, made, d, c);
    }
    NameIsUpper(path);
    ResolveKept(fs, made, fs.root, SplitPath(Upper(path)).0);
    forall q: CString | Open(fs, q).Some? ensures Open(made, q) == Open(fs, q) {
      ResolveKept(fs, made, fs.root, Upper(q));
    }
  }

  lemma OpenIgnoresDirs(fs: Fs, dirs: set<nat>)
    requires Slotted(fs.vol) && EachIsChain(fs.vol.fat, fs.chains)
    ensures forall q: CString :: Open(fs.(dirs := dirs), q) == Open(fs, q)
  {
    forall q: CString ensures Open(fs.(dirs := dirs), q) == Open(fs, q) {
      ResolveIgnoresDirs(fs, dirs, fs.root, Upper(q));
    }
  }

  /** The dot entries of the new directory, once its own entry is in place. */
  lemma MadeDotsResolve(fs: Fs, d: nat, e: Slot)
    requires FsOk(fs) && d in fs.dirs && FirstFree(fs.vol.fat) != 0 && FsOk(NewDir(fs, d)) && InRange(NewDir(fs, d).vol.fat, d)
    requires CreateEntry(NewDir(fs, d).vol, d, e).Some?
    ensures var n := FirstFree(fs.vol.fat);
            var fs' := NewDir(fs, d).(vol := CreateEntry(NewDir(fs, d).vol, d, e).value);
            && Slotted(fs'.vol) && EachIsChain(fs'.vol.fat, fs'.chains)
            && ResolveName(fs', n, DOT_NAME) == Some(Dir(n)) && ResolveName(fs', n, DOT_DOT_NAME) == Some(Dir(d))
            && fs'.vol.fat == NewDir(fs, d).vol.fat
  {
    hide DirOk, Covers, Disjoint, EachIsChain, Find, ChainSlots, NewDir, DirBytes, SlotsOf, Hit;
    var n, made := FirstFree(fs.vol.fat), NewDir(fs, d);
    NewDirVol(fs, d);
    NewDirSlots(fs, made, d);
    ZeroIsNoStart(fs.vol.fat, fs.chains);
    DirBytesSlots(fs.vol.csize, n, d, fs.dirs + {n});
    PutSlotAt(made, d, EntryIndex(made, d), e);
  }

  /**
   fat32_mkdir then fat32_open_file: the path opens as the cluster that was newly taken, whose "." and ".."
   lead to itself and to the parent; exactly that cluster became used; every path that opened before opens
   as the same thing.
   */
  lemma MkdirThenOpen(fs: Fs, path: CString, stamp: Stamp, d: nat)
    requires FsOk(fs) && NewName(fs, path, d) && MkdirRun(fs, path, stamp).0
    ensures d in fs.dirs && InRange(fs.vol.fat, d)
    ensures var (n, fs') := (FirstFree(fs.vol.fat), MkdirRun(fs, path, stamp).1);
            && FsOk(fs') && n in FreeSet(fs.vol.fat)
            && Open(fs', path) == (if SlotIsVisible(fs, d) then Some(Dir(n)) else None)
            && ResolveName(fs', n, DOT_NAME) == Some(Dir(n)) && ResolveName(fs', n, DOT_DOT_NAME) == Some(Dir(d))
            && FreeSet(fs'.vol.fat) == FreeSet(fs.vol.fat) - {n}
            && OpensKept(fs, fs')
  {
    hide DirOk, Covers, Disjoint, EachIsChain, CreateEntry, Hit, Find, ChainSlots, EntryIndex, Resolve, NameOf, NewDir, DirSlot;
    ParentInDirs(fs, path);
    MkdirKeepsFsOk(fs, path, stamp);
    var n, made := FirstFree(fs.vol.fat), NewDir(fs, d);
    NewDirVol(fs, d);
    MadeKeepsPaths(fs, path, d);
    var e := DirSlot(NameOf(path), n, stamp);
    DirSlotFields(NameOf(path), n, stamp);
    NewSlotHit(path, e, n);
    EntryThenOpen(made, path, d, e);
    MadeDotsResolve(fs, d, e);
    var linked := made.(vol := CreateEntry(made.vol, d, e).value);
    OpenIgnoresDirs(linked, fs.dirs + {n});
  }

  // ---------- when they fail ----------

  /** fat32_create succeeds iff the parent is a directory and its first cluster has a free slot. */
  lemma CreateSucceedsIff(fs: Fs, path: CString, stamp: Stamp)
    requires FsOk(fs) && OnCourse(fs, path)
    ensures CreateRun(fs, path, stamp).0 <==>
            ParentOf(fs, path).Some? && InRange(fs.vol.fat, ParentOf(fs, path).value)
            && EntryIndex(fs, ParentOf(fs, path).value) < fs.vol.csize / SLOT
  {
    hide FsOk, ParentOf, MakeSlot, FirstFreeSlot;
    ParentInDirs(fs, path);
    SlottedOf(fs);
  }

  lemma SlottedOf(fs: Fs)
    requires FsOk(fs)
    ensures Slotted(fs.vol) && EachIsChain(fs.vol.fat, fs.chains)
  {
  }

  /** The parent's first cluster is the same before and after the new cluster is taken. */
  lemma NewDirKeepsEntryIndex(fs: Fs, d: nat)
    requires FsOk(fs) && d in fs.dirs && FirstFree(fs.vol.fat) != 0
    ensures var made := NewDir(fs, d);
            && Slotted(made.vol) && InRange(fs.vol.fat, d) && InRange(made.vol.fat, d) && made.vol.csize == fs.vol.csize
            && EntryIndex(made, d) == EntryIndex(fs, d)
  {
    NewDirVol(fs, d);
    SlottedOf(fs);
    hide FsOk, NewDir, Slotted;
    assert ClusterSlots(NewDir(fs, d).vol, d) == ClusterSlots(fs.vol, d);
  }

  /** fat32_mkdir succeeds iff, besides, there is a free cluster. */
  lemma MkdirSucceedsIff(fs: Fs, path: CString, stamp: Stamp)
    requires FsOk(fs) && OnCourse(fs, path)
    ensures MkdirRun(fs, path, stamp).0 <==>
            ParentOf(fs, path).Some? && InRange(fs.vol.fat, ParentOf(fs, path).value) && FirstFree(fs.vol.fat) != 0
            && EntryIndex(fs, ParentOf(fs, path).value) < fs.vol.csize / SLOT
  {
    hide FsOk, ParentOf, DirSlot, FirstFreeSlot, NewDir, FirstFree;
    ParentInDirs(fs, path);
    SlottedOf(fs);
    if ParentOf(fs, path).Some? && FirstFree(fs.vol.fat) != 0 {
      NewDirKeepsFsOk(fs, NewDir(fs, ParentOf(fs, path).value), ParentOf(fs, path).value);
      NewDirKeepsEntryIndex(fs, ParentOf(fs, path).value);
    }
  }

  /** A fat32_mkdir that fails keeps the first free cluster exactly when it got as far as taking one. */
  lemma FailedMkdirKeepsCluster(fs: Fs, path: CString, stamp: Stamp)
    requires FsOk(fs) && OnCourse(fs, path) && !MkdirRun(fs, path, stamp).0
    ensures FreeSet(MkdirRun(fs, path, stamp).1.vol.fat) ==
            if ParentOf(fs, path).Some? && FirstFree(fs.vol.fat) != 0 then FreeSet(fs.vol.fat) - {FirstFree(fs.vol.fat)}
            else FreeSet(fs.vol.fat)
    ensures FreeSet(MkdirRun(fs, path, stamp).1.vol.fat) != FreeSet(fs.vol.fat) <==>
            ParentOf(fs, path).Some? && FirstFree(fs.vol.fat) != 0
  {
    hide FsOk, ParentOf, DirSlot, FirstFreeSlot, NewDir, FirstFree, FreeSet;
    ParentInDirs(fs, path);
    SlottedOf(fs);
    FirstFreeIsLeast(fs.vol.fat);
    if ParentOf(fs, path).Some? && FirstFree(fs.vol.fat) != 0 {
      NewDirKeepsFsOk(fs, NewDir(fs, ParentOf(fs, path).value), ParentOf(fs, path).value);
      NewDirVol(fs, ParentOf(fs, path).value);
    }
  }
}
