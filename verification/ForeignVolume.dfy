/** A volume as other systems leave it: a subdirectory of the root whose entry ".." holds cluster 0. */
module ForeignVolume {
  import opened Bytes
  import opened FatTable
  import opened FileSpec
  import opened Chains
  import opened Names
  import opened Options
  import opened DirSlots
  import opened Directory
  import opened FsOps
  import opened PathOps
  import opened FreshVolume
  import opened StrayPaths
  import opened PathChanges
  import R = Runs

  const SUB: nat := 3
  const SUB_NAME: CString := [0x53, 0x55, 0x42]
  const FILE_NAME: CString := [0x58]
  const PLAIN_PATH: CString := [SLASH] + FILE_NAME
  const STRAY_PATH: CString := [SLASH] + SUB_NAME + ([SLASH] + DOT_DOT_NAME + PLAIN_PATH)

  /** The root holds the directory SUB and the empty file X. */
  function RootBytes(csize: nat): (b: seq<byte>)
    requires csize >= 96
    ensures |b| == csize
  {
    MakeSlot(Encode(SUB_NAME), ATTR_DIRECTORY, SUB, 0, 0, 0) + MakeSlot(Encode(FILE_NAME), ATTR_ARCHIVE, 0, 0, 0, 0) + Zeros(csize - 64)
  }

  function ForeignFat(n: nat): (fat: Fat)
    requires 2 <= n && n + 2 <= EOC
    ensures |fat| == n + 2 && FatOk(fat)
  {
    FreshFat(n)[SUB := EOC]
  }

  function ForeignData(csize: nat, n: nat): (data: seq<seq<byte>>)
    requires csize >= 96 && 2 <= n
    ensures |data| == n + 2 && data[ROOT] == RootBytes(csize) && data[SUB] == DirBytes(csize, SUB, 0)
    ensures forall c :: 2 <= c < |data| ==> |data[c]| == csize
  {
    RootData(csize, n, RootBytes(csize))[SUB := DirBytes(csize, SUB, 0)]
  }

  const FOREIGN_CHAINS: ChainMap := map[ROOT := [ROOT], SUB := [SUB]]

  function Foreign(csize: nat, n: nat): (fs: Fs)
    requires Format(csize, n) && 2 <= n
    ensures VolOk(fs.vol)
  {
    Fs(Vol(csize, ForeignFat(n), ForeignData(csize, n)), FOREIGN_CHAINS, {ROOT, SUB}, ROOT)
  }

  lemma ForeignEntries(n: nat)
    requires 2 <= n && n + 2 <= EOC
    ensures forall c :: 2 <= c < n + 2 ==> ForeignFat(n)[c] == if c == ROOT || c == SUB then EOC else 0
  {
  }

  lemma ForeignChains(n: nat)
    requires 2 <= n && n + 2 <= EOC
    ensures EachIsChain(ForeignFat(n), FOREIGN_CHAINS) && Disjoint(FOREIGN_CHAINS)
  {
    ForeignEntries(n);
    hide ForeignFat;
    assert IsChain(ForeignFat(n), [ROOT]) && IsChain(ForeignFat(n), [SUB]);
  }

  lemma ForeignFatIsSound(n: nat)
    requires 2 <= n && n + 2 <= EOC
    ensures Sound(ForeignFat(n), FOREIGN_CHAINS) && InRange(ForeignFat(n), ROOT) && InRange(ForeignFat(n), SUB)
  {
    var fat := ForeignFat(n);
    hide EachIsChain, Disjoint, ForeignFat;
    ForeignEntries(n);
    ForeignChains(n);
    forall c | 2 <= c < |fat| && fat[c] != 0 ensures exists s :: s in FOREIGN_CHAINS && c in FOREIGN_CHAINS[s] {
      assert c in FOREIGN_CHAINS && c in FOREIGN_CHAINS[c];
    }
  }

  lemma ForeignShape(csize: nat, n: nat)
    requires Format(csize, n) && 2 <= n
    ensures var fs := Foreign(csize, n);
            && Slotted(fs.vol) && Sound(fs.vol.fat, fs.chains) && InRange(fs.vol.fat, ROOT) && InRange(fs.vol.fat, SUB)
            && csize % SLOT == 0 && csize >= 512
  {
    hide ForeignFat, ForeignData, Sound, InRange, VolOk;
    ForeignFatIsSound(n);
    SectorSlots(csize);
  }

  lemma ForeignSlots(csize: nat, n: nat)
    requires Format(csize, n) && 2 <= n && csize % SLOT == 0
    ensures var fs := Foreign(csize, n);
            && Slotted(fs.vol) && EachIsChain(fs.vol.fat, fs.chains)
            && SlotsAt(fs, ROOT) == SlotsOf(RootBytes(csize)) && SlotsAt(fs, SUB) == SlotsOf(DirBytes(csize, SUB, 0))
  {
    ForeignShape(csize, n);
    var fs := Foreign(csize, n);
    OneCluster(fs.vol, ROOT);
    OneCluster(fs.vol, SUB);
    hide RootBytes, DirBytes, ForeignFat, ForeignData, SlotsOf, ChainBytes, Slotted;
  }

  lemma RootSlots(csize: nat)
    requires csize >= 512 && csize % SLOT == 0
    ensures var slots := SlotsOf(RootBytes(csize));
            && |slots| >= 16
            && slots[0] == MakeSlot(Encode(SUB_NAME), ATTR_DIRECTORY, SUB, 0, 0, 0)
            && slots[1] == MakeSlot(Encode(FILE_NAME), ATTR_ARCHIVE, 0, 0, 0, 0)
            && forall k :: 2 <= k < |slots| ==> slots[k][0] == 0
  {
    hide MakeSlot, Encode;
    var b := RootBytes(csize);
    var slots := SlotsOf(b);
    assert slots[0] == b[0..32] && slots[1] == b[32..64];
    forall k | 2 <= k < |slots| ensures slots[k][0] == 0 {
      assert slots[k][0] == b[k * SLOT];
    }
  }

  lemma NamesFit()
    ensures Fits83(SUB_NAME) && IsUpper(SUB_NAME) && Fits83(FILE_NAME) && IsUpper(FILE_NAME)
    ensures IsComponent(SUB_NAME) && IsComponent(FILE_NAME) && IsComponent(DOT_DOT_NAME)
  {
    IndexOfIs(SUB_NAME, DOT, 3);
    IndexOfIs(FILE_NAME, DOT, 1);
  }

  /** The two entries of the root. */
  lemma RootEntries(a: Slot, b: Slot)
    requires a == MakeSlot(Encode(SUB_NAME), ATTR_DIRECTORY, SUB, 0, 0, 0) && b == MakeSlot(Encode(FILE_NAME), ATTR_ARCHIVE, 0, 0, 0, 0)
    ensures a[0] != 0 && Hit(a, SUB_NAME) && !Hit(a, FILE_NAME) && LeadsOn(a) && FirstCluster(a) == SUB
    ensures b[0] != 0 && Hit(b, FILE_NAME) && !IsDirSlot(b) && TargetOf(b) == File(0, 0)
  {
    hide MakeSlot, Encode, Hit, FirstCluster, FileSize, Attributes, Fits83;
    NamesFit();
    MadeSlotHit(SUB_NAME, ATTR_DIRECTORY, SUB, 0, 0, 0, SUB_NAME);
    MadeSlotHit(SUB_NAME, ATTR_DIRECTORY, SUB, 0, 0, 0, FILE_NAME);
    MadeSlotHit(FILE_NAME, ATTR_ARCHIVE, 0, 0, 0, 0, FILE_NAME);
    MakeSlotFields(Encode(SUB_NAME), ATTR_DIRECTORY, SUB, 0, 0, 0);
    MakeSlotFields(Encode(FILE_NAME), ATTR_ARCHIVE, 0, 0, 0, 0);
    AttributesOfMade(Encode(SUB_NAME), ATTR_DIRECTORY, SUB);
    AttributesOfMade(Encode(FILE_NAME), ATTR_ARCHIVE, 0);
  }

  lemma RootIsOk(slots: seq<Slot>, dirs: set<nat>)
    requires |slots| >= 16 && SUB in dirs && forall k :: 2 <= k < |slots| ==> slots[k][0] == 0
    requires slots[0] == MakeSlot(Encode(SUB_NAME), ATTR_DIRECTORY, SUB, 0, 0, 0)
    requires slots[1] == MakeSlot(Encode(FILE_NAME), ATTR_ARCHIVE, 0, 0, 0, 0)
    ensures DirOk(slots, dirs)
    ensures Find(slots, 0, SUB_NAME) == Some(slots[0]) && LeadsOn(slots[0]) && FirstCluster(slots[0]) == SUB
    ensures Find(slots, 0, FILE_NAME) == Some(slots[1]) && !IsDirSlot(slots[1]) && TargetOf(slots[1]) == File(0, 0)
  {
    hide MakeSlot, Encode, Hit, FirstCluster, FileSize, IsDirSlot, Attributes;
    RootEntries(slots[0], slots[1]);
    assert Find(slots, 1, FILE_NAME) == Some(slots[1]);
  }

  lemma AttributesOfMade(field: seq<byte>, attributes: byte, cluster: nat)
    requires |field| == 11 && cluster < 0x1_0000_0000
    ensures Attributes(MakeSlot(field, attributes, cluster, 0, 0, 0)) == attributes
  {
  }

  /** The volume is well formed, with no file open as well. */
  lemma ForeignIsOk(csize: nat, n: nat)
    requires Format(csize, n) && 2 <= n
    ensures FsOk(Foreign(csize, n)) && R.WorldOk(R.World(Foreign(csize, n), map[]))
  {
    hide SlotsAt, SlotsOf, RootBytes, DirBytes, Foreign, R.WorldOk, Sound, Slotted, EachIsChain, MakeSlot, Find, DirOk;
    ForeignShape(csize, n);
    ForeignSlots(csize, n);
    ForeignParts(csize, n);
    RootSlots(csize);
    RootIsOk(SlotsOf(RootBytes(csize)), {ROOT, SUB});
    DirBytesSlots(csize, SUB, 0, {ROOT, SUB});
    NoFileOpen(Foreign(csize, n));
  }

  lemma ForeignParts(csize: nat, n: nat)
    requires Format(csize, n) && 2 <= n
    ensures var fs := Foreign(csize, n);
            fs.root == ROOT && fs.dirs == {ROOT, SUB} && fs.chains == FOREIGN_CHAINS && fs.vol.csize == csize
  {
    hide ForeignFat, ForeignData;
  }

  /** On it /X opens as a file, /SUB/../X means the same file, and the source goes astray on it. */
  lemma StrayPathFails(csize: nat, n: nat)
    requires Format(csize, n) && 2 <= n
    ensures var fs := Foreign(csize, n);
            && FsOk(fs) && Open(fs, PLAIN_PATH) == Some(File(0, 0))
            && Meant(fs, fs.root, Upper(STRAY_PATH)) == Some(File(0, 0)) && Open(fs, STRAY_PATH) == Some(Astray)
  {
    hide SlotsAt, SlotsOf, RootBytes, DirBytes, Foreign, FsOk, R.WorldOk, Slotted, EachIsChain, MakeSlot, Find, DirOk, Resolve, Meant, Fits83,
         Sound, FirstCluster, FileSize;
    ForeignIsOk(csize, n);
    ForeignShape(csize, n);
    ForeignSlots(csize, n);
    ForeignParts(csize, n);
    RootSlots(csize);
    RootIsOk(SlotsOf(RootBytes(csize)), {ROOT, SUB});
    DirBytesSlots(csize, SUB, 0, {ROOT, SUB});
    NamesFit();
    var fs := Foreign(csize, n);
    FirstStep(fs, ROOT, FILE_NAME, []);
    assert [SLASH] + FILE_NAME + [] == PLAIN_PATH;
    DotDotOfRootStrays(fs, SUB_NAME, PLAIN_PATH);
    UpperOfUpper(PLAIN_PATH);
    UpperOfUpper(STRAY_PATH);
  }

  // ---------- a file behind a deleted entry ----------

  const OLD_SIZE: nat := 5

  /** The root's first entry is deleted, its second the file X of five bytes. */
  function HoleBytes(csize: nat): (b: seq<byte>)
    requires csize >= 96
    ensures |b| == csize
  {
    Repeat(DELETED, SLOT) + MakeSlot(Encode(FILE_NAME), ATTR_ARCHIVE, SUB, OLD_SIZE, 0, 0) + Zeros(csize - 64)
  }

  lemma HoleSlots(csize: nat)
    requires csize >= 512 && csize % SLOT == 0
    ensures var slots := SlotsOf(HoleBytes(csize));
            && |slots| >= 16 && slots[0] == Repeat(DELETED, SLOT)
            && slots[1] == MakeSlot(Encode(FILE_NAME), ATTR_ARCHIVE, SUB, OLD_SIZE, 0, 0)
            && forall k :: 2 <= k < |slots| ==> slots[k][0] == 0
  {
    hide MakeSlot, Encode;
    var b := HoleBytes(csize);
    var slots := SlotsOf(b);
    assert slots[0] == b[0..32] && slots[1] == b[32..64];
    forall k | 2 <= k < |slots| ensures slots[k][0] == 0 {
      assert slots[k][0] == b[k * SLOT];
    }
  }

  lemma HoleEntry(s: Slot)
    requires s == MakeSlot(Encode(FILE_NAME), ATTR_ARCHIVE, SUB, OLD_SIZE, 0, 0)
    ensures s[0] != 0 && Hit(s, FILE_NAME) && !LeadsOn(s) && TargetOf(s) == File(SUB, OLD_SIZE)
  {
    NamesFit();
    MadeSlotHit(FILE_NAME, ATTR_ARCHIVE, SUB, OLD_SIZE, 0, 0, FILE_NAME);
    MakeSlotFields(Encode(FILE_NAME), ATTR_ARCHIVE, SUB, OLD_SIZE, 0, 0);
    assert Attributes(s) == ATTR_ARCHIVE;
    hide MakeSlot, Encode, FirstCluster, FileSize, Attributes, Decode, CaseCompare;
  }

  lemma HoleFacts(slots: seq<Slot>, dirs: set<nat>)
    requires |slots| >= 16 && slots[0] == Repeat(DELETED, SLOT) && forall k :: 2 <= k < |slots| ==> slots[k][0] == 0
    requires slots[1] == MakeSlot(Encode(FILE_NAME), ATTR_ARCHIVE, SUB, OLD_SIZE, 0, 0)
    ensures DirOk(slots, dirs) && IsFreeSlot(slots[0]) && FindIndex(slots, 0, FILE_NAME) == 1
    ensures Find(slots, 0, FILE_NAME) == Some(slots[1]) && TargetOf(slots[1]) == File(SUB, OLD_SIZE)
  {
    hide MakeSlot, Encode, Hit, LeadsOn, TargetOf;
    HoleEntry(slots[1]);
    FreeIsNoHit(slots[0], FILE_NAME);
    assert FindIndex(slots, 1, FILE_NAME) == 1;
    FindIsAtIndex(slots, 0, FILE_NAME);
  }

  function HoleVolume(csize: nat, n: nat): (fs: Fs)
    requires Format(csize, n) && 2 <= n
    ensures VolOk(fs.vol)
  {
    Fs(Vol(csize, ForeignFat(n), RootData(csize, n, HoleBytes(csize))), FOREIGN_CHAINS, {ROOT}, ROOT)
  }

  lemma HoleShape(csize: nat, n: nat)
    requires Format(csize, n) && 2 <= n
    ensures var fs := HoleVolume(csize, n);
            && Slotted(fs.vol) && Sound(fs.vol.fat, fs.chains) && InRange(fs.vol.fat, ROOT)
            && fs.root == ROOT && fs.dirs == {ROOT} && fs.chains == FOREIGN_CHAINS && fs.vol.csize == csize
            && fs.vol.data[ROOT] == HoleBytes(csize) && csize % SLOT == 0 && csize >= 512
  {
    hide ForeignFat, Sound, InRange, VolOk, HoleBytes;
    ForeignFatIsSound(n);
    SectorSlots(csize);
  }

  lemma HoleIsOk(csize: nat, n: nat)
    requires Format(csize, n) && 2 <= n
    ensures var fs := HoleVolume(csize, n);
            && FsOk(fs) && fs.root == ROOT && ROOT in fs.dirs && ROOT in fs.chains && fs.vol.csize == csize
            && csize % SLOT == 0 && csize >= 512 && Slotted(fs.vol) && EachIsChain(fs.vol.fat, fs.chains)
            && InRange(fs.vol.fat, ROOT) && SlotsAt(fs, ROOT) == SlotsOf(HoleBytes(csize))
  {
    hide Slotted, DirOk, EachIsChain, Disjoint, Covers, FatOk, HoleVolume, HoleBytes, MakeSlot, Find, SlotsOf;
    HoleShape(csize, n);
    var fs := HoleVolume(csize, n);
    RootAlone(fs);
    HoleSlots(csize);
    HoleFacts(SlotsOf(HoleBytes(csize)), {ROOT});
  }

  lemma RootAlone(fs: Fs)
    requires Slotted(fs.vol) && EachIsChain(fs.vol.fat, fs.chains) && InRange(fs.vol.fat, ROOT) && fs.chains == FOREIGN_CHAINS
    ensures SlotsAt(fs, ROOT) == SlotsOf(fs.vol.data[ROOT])
  {
    OneCluster(fs.vol, ROOT);
    hide ChainBytes, SlotsOf;
  }

  /** Creating X on it succeeds, and X then opens as an empty file: the old one is hidden. */
  lemma CreateHidesOldFile(csize: nat, n: nat, stamp: Stamp)
    requires Format(csize, n) && 2 <= n
    ensures var fs := HoleVolume(csize, n);
            && FsOk(fs) && Open(fs, FILE_NAME) == Some(File(SUB, OLD_SIZE)) && OnCourse(fs, FILE_NAME)
            && var (ok, fs') := CreateRun(fs, FILE_NAME, stamp);
               && ok && Slotted(fs'.vol) && EachIsChain(fs'.vol.fat, fs'.chains) && Open(fs', FILE_NAME) == Some(File(0, 0))
  {
    hide FsOk, Slotted, DirOk, EachIsChain, SlotsAt, SlotsOf, HoleVolume, HoleBytes, MakeSlot, Find, FindIndex, TargetOf,
         ParentOf, OnCourse, CreateRun, Open, EntryIndex, IsFreeSlot;
    HoleIsOk(csize, n);
    HoleSlots(csize);
    NamesFit();
    UpperOfUpper(FILE_NAME);
    var fs := HoleVolume(csize, n);
    HoleFacts(SlotsAt(fs, ROOT), {ROOT});
    RootIsParent(fs, FILE_NAME);
    EntryIndexIsFirstFree(fs, ROOT);
    CreateSucceedsIff(fs, FILE_NAME, stamp);
    CreateOverExisting(fs, FILE_NAME, stamp, ROOT);
  }
}
