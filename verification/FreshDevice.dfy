/**
 A freshly formatted volume at sector level: table copies that hold only the root's chain, and zeroed data
 sectors. Mounted, it is the fresh volume of the value level, so saved files read back and runs are safe on it.
 */
module FreshDevice {
  import opened Arith
  import opened Bytes
  import opened FatTable
  import opened FileCursor
  import opened Volume
  import opened Chains
  import opened Names
  import opened DirSlots
  import opened Directory
  import opened FsOps
  import opened PathOps
  import opened Persistence
  import opened FileSystem
  import opened FreshVolume
  import opened Session
  import opened SaveRun
  import R = Runs

  /** Some clusters, the first of which is the root directory's. */
  predicate Formattable(g: Geometry) {
    g.Ok() && 1 <= g.totalClusters && g.rootCluster == ROOT
  }

  /** The first sector of each copy: the reserved entries and the root's end mark. */
  function FirstTableSector(): Sector {
    ToLe32(FreshEntry(0)) + ToLe32(FreshEntry(1)) + ToLe32(FreshEntry(2)) + Zeros(SECTOR - 12)
  }

  function BlankDisk(g: Geometry): (disk: seq<Sector>)
    ensures |disk| == g.dataStart + Times(g.totalClusters, g.sectorsPerCluster)
    ensures forall p :: 0 <= p < |disk| ==> disk[p] == Zeros(SECTOR)
  {
    seq(g.dataStart + Times(g.totalClusters, g.sectorsPerCluster), p => Zeros(SECTOR))
  }

  /** A zeroed disk with the first sector of each copy written. */
  function FreshDisk(g: Geometry): (disk: seq<Sector>)
    requires Formattable(g)
    ensures g.Fits(disk)
  {
    WriteCopies(g, BlankDisk(g), 0, FirstTableSector(), g.fatCount)
  }

  lemma TableIs(g: Geometry, i: nat, k: nat)
    requires Formattable(g) && i < g.fatCount && k < g.fatSize
    ensures CopySector(g, FreshDisk(g), i, k) == if k == 0 then FirstTableSector() else Zeros(SECTOR)
  {
    WriteCopiesSector(g, BlankDisk(g), 0, FirstTableSector(), g.fatCount, i, k);
    g.TableSectorInTable(i, k);
  }

  lemma FreshCopiesEqual(g: Geometry)
    requires Formattable(g)
    ensures CopiesEqual(g, FreshDisk(g))
  {
    forall i, k | 0 <= i < g.fatCount && 0 <= k < g.fatSize
      ensures CopySector(g, FreshDisk(g), i, k) == CopySector(g, FreshDisk(g), 0, k)
    {
      TableIs(g, i, k);
      TableIs(g, 0, k);
    }
  }

  lemma FirstBytes(c: nat)
    requires c < ENTRIES_PER_SECTOR
    ensures FirstTableSector()[c * 4..c * 4 + 4] == ToLe32(FreshEntry(c))
  {
    var s, z := FirstTableSector(), Zeros(SECTOR - 12);
    hide ToLe32;
    var front := ToLe32(FreshEntry(0)) + ToLe32(FreshEntry(1)) + ToLe32(FreshEntry(2));
    if c < 3 {
      assert s[c * 4..c * 4 + 4] == front[c * 4..c * 4 + 4];
    } else {
      assert s[c * 4..c * 4 + 4] == z[c * 4 - 12..c * 4 - 8];
      ZeroBytes();
    }
  }

  lemma ZeroBytes()
    ensures ToLe32(0) == [0, 0, 0, 0]
  {
  }

  lemma FirstEntries(c: nat)
    requires c < ENTRIES_PER_SECTOR
    ensures RawEntry(FirstTableSector(), c) == FreshEntry(c)
  {
    hide FirstTableSector, Le32, ToLe32;
    FirstBytes(c);
    Le32RoundTrip(FreshEntry(c));
  }

  lemma ZeroEntry(c: nat)
    ensures RawEntry(Zeros(SECTOR), c) == 0
  {
  }

  lemma FreshTable(g: Geometry)
    requires Formattable(g)
    ensures FatOf(g, FreshDisk(g)) == FreshFat(g.totalClusters)
  {
    forall c | 0 <= c < g.totalClusters + 2 ensures FatOf(g, FreshDisk(g))[c] == FreshEntry(c) {
      TableIs(g, 0, c / ENTRIES_PER_SECTOR);
      if c < ENTRIES_PER_SECTOR {
        FirstEntries(c);
      } else {
        ZeroEntry(c);
      }
    }
  }

  lemma {:induction false} ZeroSpan(disk: seq<Sector>, lba: nat, n: nat)
    requires lba + n <= |disk| && forall p :: lba <= p < lba + n ==> disk[p] == Zeros(SECTOR)
    ensures Span(disk, lba, n) == Zeros(Times(n, SECTOR))
    decreases n
  {
    if n > 0 {
      ZeroSpan(disk, lba, n - 1);
    }
  }

  lemma FreshClusters(g: Geometry)
    requires Formattable(g)
    ensures var csize := Times(g.sectorsPerCluster, SECTOR); DataOf(g, FreshDisk(g)) == RootData(csize, g.totalClusters, Zeros(csize))
  {
    var disk, csize := FreshDisk(g), Times(g.sectorsPerCluster, SECTOR);
    forall c | 2 <= c < g.totalClusters + 2 ensures DataOf(g, disk)[c] == Zeros(csize) {
      g.LbaInData(c);
      forall p | g.ClusterToLba(c) <= p < g.ClusterToLba(c) + g.sectorsPerCluster ensures disk[p] == Zeros(SECTOR) {
        WriteCopiesKeepsData(g, BlankDisk(g), 0, FirstTableSector(), g.fatCount, p);
      }
      ZeroSpan(disk, g.ClusterToLba(c), g.sectorsPerCluster);
    }
  }

  lemma GeometryFormat(g: Geometry)
    requires Formattable(g)
    ensures Format(Times(g.sectorsPerCluster, SECTOR), g.totalClusters)
    ensures Times(g.sectorsPerCluster, SECTOR) < UINT32
  {
    TimesIsProduct(g.sectorsPerCluster, SECTOR);
  }

  /** The sectors of the fresh disk are the fresh volume, in every copy of the table. */
  lemma FreshDiskIsFresh(g: Geometry)
    requires Formattable(g)
    ensures Format(Times(g.sectorsPerCluster, SECTOR), g.totalClusters)
    ensures Directory.Fs(VolOf(g, FreshDisk(g)), map[ROOT := [ROOT]], {ROOT}, g.rootCluster) ==
            Fresh(Times(g.sectorsPerCluster, SECTOR), g.totalClusters)
    ensures CopiesEqual(g, FreshDisk(g)) && FatOk(FatOf(g, FreshDisk(g)))
  {
    hide FreshDisk, FatOf, DataOf, FreshFat, RootData, CopiesEqual;
    GeometryFormat(g);
    FreshTable(g);
    FreshClusters(g);
    FreshCopiesEqual(g);
  }

  /** The fresh file system with no file open. */
  ghost function FreshWorld(g: Geometry): (w: R.World)
    requires Formattable(g)
    ensures R.WorldOk(w)
  {
    GeometryFormat(g);
    FreshIsOk(Times(g.sectorsPerCluster, SECTOR), g.totalClusters);
    R.World(Fresh(Times(g.sectorsPerCluster, SECTOR), g.totalClusters), map[])
  }

  /** Mount a fresh disk: the session starts in the fresh file system. */
  method MountFresh(g: Geometry) returns (m: Mounted)
    requires Formattable(g)
    ensures fresh(m) && fresh(m.fs) && fresh(m.fs.vol)
    ensures m.Valid() && m.files == map[] && m.fs.vol.g == g && m.W() == FreshWorld(g)
  {
    hide FreshDisk, CopiesEqual, FatOf, DataOf, Fresh, FsOk, R.WorldOk, FatOk;
    FreshDiskIsFresh(g);
    FreshIsOk(Times(g.sectorsPerCluster, SECTOR), g.totalClusters);
    var vol := new MountedVolume(g, FreshDisk(g));
    var files := new FatFileSystem(vol, map[ROOT := [ROOT]], {ROOT});
    m := new Mounted(files);
  }

  /** Any run on a fresh disk: the device follows the value level and all copies of the table stay equal. */
  method RunOnFresh(g: Geometry, ops: seq<R.Op>) returns (m: Mounted, replies: seq<R.Reply>)
    requires Formattable(g) && IssuableRun(FreshWorld(g), ops)
    ensures m.Valid() && m.fs.vol.g == g && m.W() == R.Run(FreshWorld(g), ops) && replies == Answers(FreshWorld(g), ops)
    ensures CopiesEqual(g, m.fs.vol.disk) && R.ChainsSafe(m.W().fs.vol.fat, m.W().fs.chains)
  {
    hide R.WorldOk, FreshWorld, IssuableRun, R.Run, Answers, CopiesEqual, R.ChainsSafe, MountedVolume.Abs;
    m := MountFresh(g);
    replies := m.ExecuteAll(ops);
  }

  lemma NameFits(name: CString)
    requires IsComponent(name) && Fits83(Upper(name))
    ensures PathFits(name) && NameOf(name) == Upper(name)
  {
    NoSlash(name);
    assert SplitPath(Upper(name)) == ([], Upper(name));
  }

  /** Any 8.3 name can be saved on it with any bytes that the free clusters hold. */
  lemma FreshIsSavable(g: Geometry, name: CString, buf: seq<byte>, created: Stamp)
    requires Formattable(g) && IsComponent(name) && Fits83(Upper(name)) && Upper(name)[0] != DELETED
    requires Ceil(|buf|, Times(g.sectorsPerCluster, SECTOR)) <= g.totalClusters - 1 && |buf| < UINT32
    ensures FreshWorld(g).files == map[] && FsOk(FreshWorld(g).fs) && Savable(FreshWorld(g).fs, name, ROOT, buf, created)
  {
    GeometryFormat(g);
    FreshName(Times(g.sectorsPerCluster, SECTOR), g.totalClusters, name);
    FreshCreate(Times(g.sectorsPerCluster, SECTOR), g.totalClusters, name, created);
    FreshFree(Times(g.sectorsPerCluster, SECTOR), g.totalClusters);
    hide FsOk, Sound, NewName, CreateRun, SlotIsVisible, Unshadowed, Ceil, FreeSet, R.FileOk;
  }

  /** On a fresh disk a new file of any such name and bytes is created, written, recorded, closed, opened and read back. */
  method SaveOnFresh(g: Geometry, f: nat, name: CString, buf: seq<byte>, created: Stamp, saved: Stamp, n: nat)
    returns (m: Mounted, replies: seq<R.Reply>)
    requires Formattable(g) && IsComponent(name) && Fits83(Upper(name)) && Upper(name)[0] != DELETED
    requires Ceil(|buf|, Times(g.sectorsPerCluster, SECTOR)) <= g.totalClusters - 1 && |buf| < UINT32 && |buf| <= n
    ensures m.Valid() && m.fs.vol.g == g && CopiesEqual(g, m.fs.vol.disk)
    ensures replies == [R.Done(true), R.Done(true), R.Done(true), R.Done(true), R.Done(true), R.Done(true), R.Bytes(buf)]
  {
    hide R.WorldOk, FreshWorld, IssuableRun, R.Run, Answers, CopiesEqual, R.ChainsSafe, MountedVolume.Abs, Savable, PathFits, FsOk,
         IsComponent, Fits83, Ceil, OpensKept, SaveOps;
    m := MountFresh(g);
    FreshIsSavable(g, name, buf, created);
    NameFits(name);
    replies := SaveAndRead(m, f, name, ROOT, buf, created, saved, n);
  }
}
