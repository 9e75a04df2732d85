/** A freshly formatted volume: one empty root directory and otherwise free clusters. Every 8.3 name can be saved on it. */
module FreshVolume {
  import opened Arith
  import opened Bytes
  import opened FatTable
  import opened FileSpec
  import opened FileCursor
  import opened FileWrite
  import opened Volume
  import opened Chains
  import opened Names
  import opened Options
  import opened DirSlots
  import opened Directory
  import opened FsOps
  import opened PathOps
  import opened Persistence
  import opened Runs

  const ROOT: nat := 2

  /** Clusters of csize bytes, n of them, the first of which is the root directory's. */
  predicate Format(csize: nat, n: nat) {
    0 < csize && csize % 512 == 0 && 1 <= n && n + 2 <= EOC
  }

  /** The value of an entry: two reserved ones, the end of the root's chain, then free ones. */
  function FreshEntry(c: nat): nat {
    if c == 0 then EOC else if c == 1 then ENTRY_MODULUS - 1 else if c == ROOT then EOC else 0
  }

  function FreshFat(n: nat): (fat: Fat)
    requires 1 <= n && n + 2 <= EOC
    ensures |fat| == n + 2 && forall c :: 0 <= c < |fat| ==> fat[c] == FreshEntry(c)
  {
    seq(n + 2, c requires 0 <= c => FreshEntry(c))
  }

  function Repeat(b: byte, n: nat): (s: seq<byte>)
    ensures |s| == n && forall i :: 0 <= i < n ==> s[i] == b
  {
    seq(n, i => b)
  }

  /** The root directory's cluster as given, all others zero. */
  function RootData(csize: nat, n: nat, root: seq<byte>): (data: seq<seq<byte>>)
    ensures |data| == n + 2
    ensures forall c :: 0 <= c < |data| ==> data[c] == if c < 2 then [] else if c == ROOT then root else Zeros(csize)
  {
    seq(n + 2, c => if c < 2 then [] else if c == ROOT then root else Zeros(csize))
  }

  function Formatted(csize: nat, n: nat, root: seq<byte>): (fs: Fs)
    requires Format(csize, n) && |root| == csize
    ensures VolOk(fs.vol)
  {
    Fs(Vol(csize, FreshFat(n), RootData(csize, n, root)), map[ROOT := [ROOT]], {ROOT}, ROOT)
  }

  function Fresh(csize: nat, n: nat): (fs: Fs)
    requires Format(csize, n)
    ensures VolOk(fs.vol)
  {
    Formatted(csize, n, Zeros(csize))
  }

  lemma FreshIsSound(n: nat)
    requires 1 <= n && n + 2 <= EOC
    ensures Sound(FreshFat(n), map[ROOT := [ROOT]]) && InRange(FreshFat(n), ROOT)
  {
    var fat, chains := FreshFat(n), map[ROOT := [ROOT]];
    assert IsChain(fat, [ROOT]);
    assert forall c :: 2 <= c < |fat| && fat[c] != 0 ==> ROOT in chains && c in chains[ROOT];
  }

  lemma FormattedShape(csize: nat, n: nat, root: seq<byte>)
    requires Format(csize, n) && |root| == csize
    ensures var fs := Formatted(csize, n, root);
            && Slotted(fs.vol) && Sound(fs.vol.fat, fs.chains) && InRange(fs.vol.fat, ROOT)
            && OneDirectory(fs) && fs.vol.csize == csize
  {
    hide RootData, FreshFat, Sound, InRange, VolOk;
    FreshIsSound(n);
  }

  /** The root is the only directory, and its chain the only chain. */
  predicate OneDirectory(fs: Fs) {
    fs.root == ROOT && fs.dirs == {ROOT} && fs.chains == map[ROOT := [ROOT]]
  }

  lemma OneDirectoryOk(fs: Fs)
    requires Slotted(fs.vol) && Sound(fs.vol.fat, fs.chains) && OneDirectory(fs) && DirOk(SlotsAt(fs, ROOT), {ROOT})
    ensures FsOk(fs)
  {
    hide Slotted, EachIsChain, Disjoint, Covers, DirOk, SlotsAt;
  }

  lemma OneCluster(v: Vol, c: nat)
    requires VolOk(v) && InRange(v.fat, c)
    ensures ChainBytes(v, [c]) == v.data[c]
  {
    assert [c][1..] == [];
    assert ChainBytes(v, [c]) == v.data[c] + [];
  }

  lemma OneDirectorySlots(fs: Fs)
    requires Slotted(fs.vol) && EachIsChain(fs.vol.fat, fs.chains) && OneDirectory(fs) && InRange(fs.vol.fat, ROOT)
    ensures SlotsAt(fs, ROOT) == SlotsOf(fs.vol.data[ROOT])
  {
    OneCluster(fs.vol, ROOT);
    hide ChainBytes, SlotsOf;
  }

  lemma SlotCount(root: seq<byte>)
    requires 0 < |root| && |root| % 512 == 0
    ensures |root| % SLOT == 0 && |SlotsOf(root)| == |root| / SLOT >= 16
  {
    SectorSlots(|root|);
    hide SlotsOf;
  }

  lemma SectorSlots(n: nat)
    requires 0 < n && n % 512 == 0
    ensures n % SLOT == 0 && n / SLOT == n / 512 * 16 >= 16
  {
  }

  /** The slots of the root are those of its bytes. */
  lemma FormattedSlots(csize: nat, n: nat, root: seq<byte>)
    requires Format(csize, n) && |root| == csize
    ensures var fs := Formatted(csize, n, root);
            && Slotted(fs.vol) && EachIsChain(fs.vol.fat, fs.chains)
            && csize % SLOT == 0 && SlotsAt(fs, ROOT) == SlotsOf(root) && |SlotsOf(root)| == csize / SLOT >= 16
  {
    SlotCount(root);
    FormattedShape(csize, n, root);
    var fs := Formatted(csize, n, root);
    assert fs.vol.data[ROOT] == root;
    hide Formatted, SlotsAt, SlotsOf, Slotted, EachIsChain, OneDirectory, Format;
    OneDirectorySlots(fs);
  }

  lemma RepeatedSlots(b: byte, n: nat)
    requires n % SLOT == 0
    ensures forall k :: 0 <= k < |SlotsOf(Repeat(b, n))| ==> SlotsOf(Repeat(b, n))[k] == Repeat(b, SLOT)
  {
    var s := Repeat(b, n);
    forall k | 0 <= k < |SlotsOf(s)| ensures SlotsOf(s)[k] == Repeat(b, SLOT) {
      assert SlotsOf(s)[k] == s[k * SLOT..k * SLOT + SLOT];
    }
  }

  /** All slots of a fresh root are unused. */
  lemma FreshSlots(csize: nat, n: nat)
    requires Format(csize, n)
    ensures var fs := Fresh(csize, n);
            && Slotted(fs.vol) && EachIsChain(fs.vol.fat, fs.chains)
            && |SlotsAt(fs, ROOT)| >= 16
            && forall k :: 0 <= k < |SlotsAt(fs, ROOT)| ==> SlotsAt(fs, ROOT)[k][0] == 0
  {
    FormattedSlots(csize, n, Zeros(csize));
    RepeatedSlots(0, csize);
    assert Zeros(csize) == Repeat(0, csize);
    hide SlotsAt, SlotsOf;
  }

  lemma NoEntries(slots: seq<Slot>, dirs: set<nat>)
    requires forall k :: 0 <= k < |slots| ==> slots[k][0] == 0
    ensures DirOk(slots, dirs)
  {
  }

  /** The volume is well formed, and so is the world in which no file is open yet. */
  lemma FreshIsOk(csize: nat, n: nat)
    requires Format(csize, n)
    ensures FsOk(Fresh(csize, n)) && WorldOk(World(Fresh(csize, n), map[]))
  {
    FormattedShape(csize, n, Zeros(csize));
    FreshSlots(csize, n);
    var fs := Fresh(csize, n);
    hide Sound, Slotted, DirOk, EachIsChain, SlotsAt, Formatted, Fresh, FsOk, WorldOk, OneDirectory;
    NoEntries(SlotsAt(fs, ROOT), {ROOT});
    OneDirectoryOk(fs);
    NoFileOpen(fs);
  }

  lemma NoFileOpen(fs: Fs)
    requires FsOk(fs)
    ensures WorldOk(World(fs, map[]))
  {
    hide FsOk;
  }

  /** All clusters but the root's are free. */
  lemma FreshFree(csize: nat, n: nat)
    requires Format(csize, n)
    ensures |FreeSet(Fresh(csize, n).vol.fat)| == n - 1
  {
    var free, rest := FreeSet(FreshFat(n)), Interval(3, n + 2);
    forall c | c in free ensures c in rest {
    }
    forall c | c in rest ensures c in free {
    }
    assert free == rest;
  }

  /** A name without a slash is a new name in the root. */
  lemma FreshName(csize: nat, n: nat, name: CString)
    requires Format(csize, n) && IsComponent(name) && Fits83(Upper(name)) && Upper(name)[0] != DELETED
    ensures FsOk(Fresh(csize, n)) && NameOf(name) == Upper(name) && NewName(Fresh(csize, n), name, ROOT)
  {
    FreshIsOk(csize, n);
    FreshSlots(csize, n);
    hide FsOk, SlotsAt, Slotted, EachIsChain;
    NoSlash(name);
    var fs := Fresh(csize, n);
    assert SplitPath(Upper(name)) == ([], Upper(name));
    assert Find(SlotsAt(fs, ROOT), 0, Upper(name)) == None;
    assert Resolve(fs, ROOT, []) == Some(Dir(ROOT));
  }

  lemma NoSlash(name: CString)
    requires SLASH !in name
    ensures SLASH !in Upper(name)
  {
    forall i | 0 <= i < |name| ensures Upper(name)[i] != SLASH {
      assert name[i] in name;
    }
  }

  /** Creating it succeeds, in a slot that is found. */
  lemma FreshCreate(csize: nat, n: nat, name: CString, stamp: Stamp)
    requires Format(csize, n) && IsComponent(name) && Fits83(Upper(name)) && Upper(name)[0] != DELETED
    ensures var fs := Fresh(csize, n);
            && FsOk(fs) && CreateRun(fs, name, stamp).0
            && InRange(fs.vol.fat, ROOT) && SlotIsVisible(fs, ROOT) && Unshadowed(SlotsAt(fs, ROOT), NameOf(name))
  {
    FreshName(csize, n, name);
    FreshSlots(csize, n);
    FormattedShape(csize, n, Zeros(csize));
    var fs := Fresh(csize, n);
    hide Sound, EachIsChain, NameOf, FileSlot, Resolve, SlotsAt, DirOk;
    EntryIndexIsFirstFree(fs, ROOT);
    assert IsFreeSlot(SlotsAt(fs, ROOT)[0]);
  }

  /**
   On a freshly formatted volume, any name that fits 8.3 can be created, rewritten with any bytes that the
   free clusters hold, recorded and reopened, and a read then returns those bytes.
   */
  lemma FreshFileReadsBack(csize: nat, n: nat, name: CString, buf: seq<byte>, created: Stamp, saved: Stamp, m: nat)
    requires Format(csize, n) && IsComponent(name) && Fits83(Upper(name)) && Upper(name)[0] != DELETED
    requires Ceil(|buf|, csize) <= n - 1 && |buf| < 0x1_0000_0000 && |buf| <= m
    ensures FsOk(Fresh(csize, n))
    ensures var fs1 := CreateRun(Fresh(csize, n), name, created).1;
            && FsOk(fs1)
            && var r := RewriteRun(fs1.vol, 0, buf);
               && r.count == |buf| && FsOk(RewriteFs(fs1, 0, buf))
               && var (ok, fs3) := UpdateRun(RewriteFs(fs1, 0, buf), name, r.handle.start, r.handle.size, saved);
                  && ok && FsOk(fs3)
                  && Open(fs3, name) == Some(File(r.handle.start, |buf|))
                  && var h := Handle(r.handle.start, r.handle.start, 0, 0, |buf|);
                     (h.off < h.size ==> InRange(fs3.vol.fat, h.cur)) && ReadRun(fs3.vol, h, m).1 == buf
  {
    FreshName(csize, n, name);
    FreshCreate(csize, n, name, created);
    FreshFree(csize, n);
    var fs := Fresh(csize, n);
    assert ROOT in fs.dirs && fs.vol.csize == csize;
    hide FsOk, NewName, CreateRun, SlotIsVisible, Unshadowed, Fresh, RewriteRun, UpdateRun, RewriteFs, Ceil, FreeSet, Open, ReadRun;
    NewFileReadsBack(fs, name, ROOT, buf, created, saved, m);
  }

  /** Whole runs on it keep all chains safe. */
  lemma FreshRunsAreSafe(csize: nat, n: nat, ops: seq<Op>)
    requires Format(csize, n)
    ensures WorldOk(World(Fresh(csize, n), map[]))
    ensures var w := Run(World(Fresh(csize, n), map[]), ops); ChainsSafe(w.fs.vol.fat, w.fs.chains)
  {
    hide WorldOk, Run, ChainsSafe, Fresh;
    FreshIsOk(csize, n);
    WholeRunSafety(World(Fresh(csize, n), map[]), ops);
  }

  // ---------- a full root directory ----------

  const LETTER: byte := 0x41

  /** A volume whose root directory has no slot left: every entry is a file of the same odd name. */
  function FullRoot(csize: nat, n: nat): (fs: Fs)
    requires Format(csize, n)
    ensures VolOk(fs.vol)
  {
    Formatted(csize, n, Repeat(LETTER, csize))
  }

  lemma FullDirOk(slots: seq<Slot>, dirs: set<nat>)
    requires forall k :: 0 <= k < |slots| ==> slots[k] == Repeat(LETTER, SLOT)
    ensures DirOk(slots, dirs)
  {
  }

  lemma FullSlotsUsed(slots: seq<Slot>)
    requires forall k :: 0 <= k < |slots| ==> slots[k] == Repeat(LETTER, SLOT)
    ensures forall k :: 0 <= k < |slots| ==> !IsFreeSlot(slots[k])
  {
  }

  /** A directory without a free slot takes no entry. */
  lemma NoSlotLeft(fs: Fs)
    requires FsOk(fs) && OneDirectory(fs) && forall k :: 0 <= k < |SlotsAt(fs, ROOT)| ==> !IsFreeSlot(SlotsAt(fs, ROOT)[k])
    ensures InRange(fs.vol.fat, ROOT) && EntryIndex(fs, ROOT) == fs.vol.csize / SLOT
  {
    hide FsOk, SlotsAt;
    EntryIndexIsFirstFree(fs, ROOT);
  }

  lemma FullRootIsOk(csize: nat, n: nat)
    requires Format(csize, n)
    ensures var fs := FullRoot(csize, n);
            && FsOk(fs) && OneDirectory(fs) && fs.vol.csize == csize
            && InRange(fs.vol.fat, ROOT) && EntryIndex(fs, ROOT) == csize / SLOT
  {
    FormattedShape(csize, n, Repeat(LETTER, csize));
    FormattedSlots(csize, n, Repeat(LETTER, csize));
    RepeatedSlots(LETTER, csize);
    var fs := FullRoot(csize, n);
    hide Sound, Slotted, DirOk, EachIsChain, SlotsAt, Formatted, FullRoot, FsOk, EntryIndex, OneDirectory, Repeat;
    FullDirOk(SlotsAt(fs, ROOT), {ROOT});
    OneDirectoryOk(fs);
    FullSlotsUsed(SlotsAt(fs, ROOT));
    NoSlotLeft(fs);
  }

  lemma RootIsParent(fs: Fs, name: CString)
    requires FsOk(fs) && fs.root == ROOT && SLASH !in name
    ensures Slotted(fs.vol) && EachIsChain(fs.vol.fat, fs.chains)
    ensures ParentOf(fs, name) == Some(ROOT) && OnCourse(fs, name)
  {
    NoSlash(name);
    SlottedOf(fs);
    hide FsOk, Slotted, EachIsChain;
    assert SplitPath(Upper(name)) == ([], Upper(name));
    assert Resolve(fs, ROOT, []) == Some(Dir(ROOT));
  }

  lemma MkdirWithoutSlot(fs: Fs, name: CString, stamp: Stamp)
    requires FsOk(fs) && OneDirectory(fs) && SLASH !in name && FirstFree(fs.vol.fat) != 0
    requires InRange(fs.vol.fat, ROOT) && EntryIndex(fs, ROOT) == fs.vol.csize / SLOT
    ensures Slotted(fs.vol) && EachIsChain(fs.vol.fat, fs.chains) && OnCourse(fs, name)
    ensures var (ok, fs') := MkdirRun(fs, name, stamp); !ok && |FreeSet(fs'.vol.fat)| == |FreeSet(fs.vol.fat)| - 1
  {
    hide FsOk, ParentOf, EntryIndex, MkdirRun, FreeSet, FirstFree, OnCourse;
    RootIsParent(fs, name);
    FirstFreeIsLeast(fs.vol.fat);
    MkdirSucceedsIff(fs, name, stamp);
    FailedMkdirKeepsCluster(fs, name, stamp);
  }

  /** On it fat32_mkdir fails for every name, and each call that still finds a free cluster keeps it. */
  lemma MkdirOnFullRootKeepsCluster(csize: nat, n: nat, name: CString, stamp: Stamp)
    requires Format(csize, n) && 2 <= n && SLASH !in name
    ensures FsOk(FullRoot(csize, n)) && OnCourse(FullRoot(csize, n), name)
    ensures var (ok, fs') := MkdirRun(FullRoot(csize, n), name, stamp);
            !ok && |FreeSet(fs'.vol.fat)| == |FreeSet(FullRoot(csize, n).vol.fat)| - 1
  {
    var fs := FullRoot(csize, n);
    FirstFreeIsLeast(fs.vol.fat);
    assert 3 in FreeSet(fs.vol.fat);
    hide FsOk, EntryIndex, MkdirRun, FullRoot, FreeSet, FirstFree, OneDirectory, OnCourse;
    FullRootIsOk(csize, n);
    MkdirWithoutSlot(fs, name, stamp);
  }

  // ---------- a root directory with its last slot free ----------

  /** All slots but the last belong to long names. */
  function LastSlotBytes(csize: nat): (b: seq<byte>)
    requires SLOT <= csize
    ensures |b| == csize
  {
    Repeat(ATTR_LONG_NAME, csize - SLOT) + Zeros(SLOT)
  }

  function LastSlotRoot(csize: nat, n: nat): (fs: Fs)
    requires Format(csize, n)
    ensures VolOk(fs.vol)
  {
    Formatted(csize, n, LastSlotBytes(csize))
  }

  lemma LastSlotSlots(csize: nat)
    requires SLOT <= csize && csize % SLOT == 0
    ensures var slots := SlotsOf(LastSlotBytes(csize));
            && |slots| == csize / SLOT >= 1 && slots[|slots| - 1] == Zeros(SLOT)
            && forall k :: 0 <= k < |slots| - 1 ==> slots[k] == Repeat(ATTR_LONG_NAME, SLOT)
  {
    var b := LastSlotBytes(csize);
    var slots := SlotsOf(b);
    assert slots[|slots| - 1] == b[csize - SLOT..csize];
    forall k | 0 <= k < |slots| - 1 ensures slots[k] == Repeat(ATTR_LONG_NAME, SLOT) {
      assert slots[k] == b[k * SLOT..k * SLOT + SLOT];
    }
  }

  /** No name is found among such slots, the last one is the first free one, and no directory is among them. */
  lemma LastSlotFacts(slots: seq<Slot>, name: CString, dirs: set<nat>)
    requires |slots| > 0 && slots[|slots| - 1] == Zeros(SLOT)
    requires forall k :: 0 <= k < |slots| - 1 ==> slots[k] == Repeat(ATTR_LONG_NAME, SLOT)
    ensures Find(slots, 0, name) == None && DirOk(slots, dirs) && IsFreeSlot(slots[|slots| - 1])
    ensures forall k :: 0 <= k < |slots| - 1 ==> !IsFreeSlot(slots[k])
  {
    FindIsFirstHit(slots, 0, name);
  }

  lemma LastSlotIsOk(csize: nat, n: nat)
    requires Format(csize, n)
    ensures var fs := LastSlotRoot(csize, n);
            && FsOk(fs) && OneDirectory(fs) && fs.vol.csize == csize && InRange(fs.vol.fat, ROOT)
            && |SlotsAt(fs, ROOT)| == csize / SLOT && csize % SLOT == 0 && SlotsAt(fs, ROOT) == SlotsOf(LastSlotBytes(csize))
  {
    var fs := LastSlotRoot(csize, n);
    assert fs == Formatted(csize, n, LastSlotBytes(csize));
    hide Sound, Slotted, DirOk, EachIsChain, SlotsAt, SlotsOf, Formatted, LastSlotRoot, FsOk, OneDirectory, Repeat, LastSlotBytes;
    FormattedShape(csize, n, LastSlotBytes(csize));
    FormattedSlots(csize, n, LastSlotBytes(csize));
    LastSlotSlots(csize);
    LastSlotFacts(SlotsOf(LastSlotBytes(csize)), [], {ROOT});
    OneDirectoryOk(fs);
  }

  /** On it every new 8.3 name is created with success, and no file opens under it. */
  lemma CreatedButNotFound(csize: nat, n: nat, name: CString, stamp: Stamp)
    requires Format(csize, n) && IsComponent(name) && Fits83(Upper(name)) && Upper(name)[0] != DELETED
    ensures FsOk(LastSlotRoot(csize, n))
    ensures var (ok, fs') := CreateRun(LastSlotRoot(csize, n), name, stamp);
            ok && FsOk(fs') && Open(fs', name) == None
  {
    var fs := LastSlotRoot(csize, n);
    LastSlotIsOk(csize, n);
    LastSlotSlots(csize);
    LastSlotFacts(SlotsAt(fs, ROOT), Upper(name), {ROOT});
    hide FsOk, SlotsAt, SlotsOf, LastSlotRoot, LastSlotBytes, Find, Open, Resolve, Slotted, EachIsChain, DirOk;
    CreateInLastSlot(fs, name, stamp);
  }

  lemma RootInChains(fs: Fs)
    requires OneDirectory(fs)
    ensures fs.root == ROOT && ROOT in fs.chains
  {
  }

  lemma BareNameSplits(name: CString)
    requires SLASH !in Upper(name)
    ensures NameOf(name) == Upper(name)
  {
    assert SplitPath(Upper(name)) == ([], Upper(name));
  }

  lemma NewInRoot(fs: Fs, name: CString)
    requires FsOk(fs) && OneDirectory(fs) && IsComponent(name) && Fits83(Upper(name)) && Upper(name)[0] != DELETED
    requires Find(SlotsAt(fs, ROOT), 0, Upper(name)) == None
    ensures NewName(fs, name, ROOT)
  {
    hide FsOk, SlotsAt, Find, ParentOf, Fits83, Slotted, EachIsChain, OnCourse, OneDirectory, LastSlash;
    RootInChains(fs);
    RootIsParent(fs, name);
    NoSlash(name);
    BareNameSplits(name);
  }

  lemma CreateInLastSlot(fs: Fs, name: CString, stamp: Stamp)
    requires FsOk(fs) && OneDirectory(fs) && IsComponent(name) && Fits83(Upper(name)) && Upper(name)[0] != DELETED && SLASH !in name
    requires Find(SlotsAt(fs, ROOT), 0, Upper(name)) == None
    requires var slots := SlotsAt(fs, ROOT);
             |slots| == fs.vol.csize / SLOT > 0 && IsFreeSlot(slots[|slots| - 1])
             && forall k :: 0 <= k < |slots| - 1 ==> !IsFreeSlot(slots[k])
    ensures var (ok, fs') := CreateRun(fs, name, stamp);
            ok && FsOk(fs') && Open(fs', name) == None
  {
    hide FsOk, SlotsAt, Find, Open, ParentOf, EntryIndex, CreateRun, Fits83, NewName, IsComponent, Slotted, EachIsChain;
    SlottedOf(fs);
    RootIsParent(fs, name);
    NewInRoot(fs, name);
    EntryIndexIsFirstFree(fs, ROOT);
    CreateSucceedsIff(fs, name, stamp);
    CreateThenOpen(fs, name, stamp, ROOT);
  }
}
