/**
 The volume on its sector device. The device is abstract: sectors written are read back. The file
 allocation table and the data clusters are views of the sectors; each method of the class moves the
 views exactly as the value-level operation of FatTable and FileSpec says, in every copy of the table.
 */
module Volume {
  import opened Arith
  import opened Bytes
  import opened FatTable
  import opened FileSpec

  const SECTOR: nat := 512
  const ENTRIES_PER_SECTOR: nat := 128
  const ENTRY_MODULUS: nat := 0x1000_0000  // FAT32_MASK + 1

  type Sector = s: seq<byte> | |s| == SECTOR witness Zeros(SECTOR)

  /** The fields of fat32_ctx_t, as fat32_init computes them from the boot sector. */
  datatype Geometry = Geometry(
    fatStart: nat, fatSize: nat, fatCount: nat, dataStart: nat,
    sectorsPerCluster: nat, rootCluster: nat, totalClusters: nat)
  {
    /** The data area follows the table copies, each copy holds an entry for every cluster, and sector numbers fit 32 bits. */
    predicate Ok() {
      && 1 <= fatCount && 1 <= sectorsPerCluster < 256
      && totalClusters + 2 <= EOC
      && totalClusters + 2 <= fatSize * ENTRIES_PER_SECTOR <= 0x4000_0000
      && dataStart == fatStart + Times(fatCount, fatSize)
      && dataStart + Times(totalClusters, sectorsPerCluster) <= 0x1_0000_0000
    }

    predicate Fits(disk: seq<Sector>) {
      Ok() && dataStart + Times(totalClusters, sectorsPerCluster) <= |disk|
    }

    /** Sector k of table copy i. */
    function TableSector(i: nat, k: nat): nat {
      fatStart + Times(i, fatSize) + k
    }

    function ClusterToLba(c: nat): nat
      requires 2 <= c
    {
      dataStart + Times(c - 2, sectorsPerCluster)
    }

    /** Where the sectors lie, in plain products. */
    lemma Places(i: nat, k: nat, c: nat)
      requires 2 <= c
      ensures TableSector(i, k) == fatStart + i * fatSize + k
      ensures ClusterToLba(c) == dataStart + (c - 2) * sectorsPerCluster
      ensures Ok() ==> dataStart == fatStart + fatCount * fatSize
    {
      TimesIsProduct(i, fatSize);
      TimesIsProduct(c - 2, sectorsPerCluster);
      TimesIsProduct(fatCount, fatSize);
    }

    lemma TableSectorInTable(i: nat, k: nat)
      requires Ok() && i < fatCount && k < fatSize
      ensures TableSector(i, k) < dataStart
    {
      TimesMono(i + 1, fatCount, fatSize);
    }

    /** Distinct copies occupy disjoint sectors. */
    lemma TableSectorsDisjoint(i: nat, k: nat, j: nat, l: nat)
      requires i < j && k < fatSize && l < fatSize
      ensures TableSector(i, k) < TableSector(j, l)
    {
      TimesMono(i + 1, j, fatSize);
    }

    lemma LbaInData(c: nat)
      requires Ok() && 2 <= c < totalClusters + 2
      ensures dataStart <= ClusterToLba(c)
      ensures ClusterToLba(c) + sectorsPerCluster <= dataStart + Times(totalClusters, sectorsPerCluster)
    {
      TimesMono(c - 1, totalClusters, sectorsPerCluster);
    }

    /** Distinct clusters occupy disjoint sectors. */
    lemma LbasDisjoint(c: nat, d: nat)
      requires 2 <= c < d
      ensures ClusterToLba(c) + sectorsPerCluster <= ClusterToLba(d)
    {
      TimesMono(c - 1, d - 2, sectorsPerCluster);
    }
  }

  // ---------- the views ----------

  function RawEntry(s: Sector, c: nat): nat {
    Le32(s[c % ENTRIES_PER_SECTOR * 4..c % ENTRIES_PER_SECTOR * 4 + 4]) % ENTRY_MODULUS
  }

  function CopySector(g: Geometry, disk: seq<Sector>, i: nat, k: nat): Sector
    requires g.Fits(disk) && i < g.fatCount && k < g.fatSize
  {
    g.TableSectorInTable(i, k);
    disk[g.TableSector(i, k)]
  }

  /** The table as copy i tells it. */
  function TableCopy(g: Geometry, disk: seq<Sector>, i: nat): (fat: Fat)
    requires g.Fits(disk) && i < g.fatCount
    ensures |fat| == g.totalClusters + 2
  {
    seq(g.totalClusters + 2, c requires 0 <= c < g.totalClusters + 2 =>
      RawEntry(CopySector(g, disk, i, c / ENTRIES_PER_SECTOR), c))
  }

  function FatOf(g: Geometry, disk: seq<Sector>): (fat: Fat)
    requires g.Fits(disk)
    ensures |fat| == g.totalClusters + 2
  {
    TableCopy(g, disk, 0)
  }

  /** n consecutive sectors as one byte sequence. */
  function Span(disk: seq<Sector>, lba: nat, n: nat): (s: seq<byte>)
    requires lba + n <= |disk|
    ensures |s| == Times(n, SECTOR)
    decreases n
  {
    if n == 0 then [] else Span(disk, lba, n - 1) + disk[lba + n - 1]
  }

  function DataOf(g: Geometry, disk: seq<Sector>): (data: seq<seq<byte>>)
    requires g.Fits(disk)
    ensures |data| == g.totalClusters + 2
  {
    seq(g.totalClusters + 2, c requires 0 <= c < g.totalClusters + 2 =>
      if c < 2 then [] else (g.LbaInData(c); Span(disk, g.ClusterToLba(c), g.sectorsPerCluster)))
  }

  function VolOf(g: Geometry, disk: seq<Sector>): Vol
    requires g.Fits(disk)
  {
    Vol(Times(g.sectorsPerCluster, SECTOR), FatOf(g, disk), DataOf(g, disk))
  }

  /** All copies of the table hold the same sectors. */
  predicate CopiesEqual(g: Geometry, disk: seq<Sector>)
    requires g.Fits(disk)
  {
    forall i, k | 0 <= i < g.fatCount && 0 <= k < g.fatSize ::
      CopySector(g, disk, i, k) == CopySector(g, disk, 0, k)
  }

  /**
   The entry of cluster c on disk: four bytes at place 4 * (c % 128) of sector c / 128 of the first table copy, the
   least significant one first. Of the last byte the upper half does not count.
   */
  lemma EntryBytes(g: Geometry, disk: seq<Sector>, c: nat)
    requires g.Fits(disk) && c < g.totalClusters + 2
    ensures c / 128 < g.fatSize && g.fatStart + c / 128 < |disk|
    ensures var s, at := disk[g.fatStart + c / 128], c % 128 * 4;
            FatOf(g, disk)[c] == s[at] as int + 256 * s[at + 1] as int + 65536 * s[at + 2] as int + 16777216 * (s[at + 3] as int % 16)
  {
    EntryRead(g, disk, c);
    var s, at := disk[g.fatStart + c / 128], c % 128 * 4;
    EntryValue(s, c, at);
    hide *;
    LowBits(s[at], s[at + 1], s[at + 2], s[at + 3]);
    assert s[at..at + 4] == [s[at], s[at + 1], s[at + 2], s[at + 3]];
  }

  lemma LowBits(b0: byte, b1: byte, b2: byte, b3: byte)
    ensures Le32([b0, b1, b2, b3]) % ENTRY_MODULUS == b0 as int + 256 * b1 as int + 65536 * b2 as int + 16777216 * (b3 as int % 16)
  {
    var low, high := b0 as int + 256 * b1 as int + 65536 * b2 as int + 16777216 * (b3 as int % 16), b3 as int / 16;
    assert b3 as int == b3 as int % 16 + 16 * high;
    assert Le32([b0, b1, b2, b3]) == low + 0x1000_0000 * high;
  }

  /** Cluster c on disk: its bytes are those of its sectors, 512 of each, in order. */
  lemma ClusterBytes(g: Geometry, disk: seq<Sector>, c: nat, j: nat, b: nat)
    requires g.Fits(disk) && 2 <= c < g.totalClusters + 2 && j < g.sectorsPerCluster && b < 512
    ensures VolOf(g, disk).csize == 512 * g.sectorsPerCluster == |DataOf(g, disk)[c]|
    ensures g.ClusterToLba(c) + j < |disk|
    ensures 512 * j + b < |DataOf(g, disk)[c]|
    ensures DataOf(g, disk)[c][512 * j + b] == disk[g.ClusterToLba(c) + j][b]
  {
    g.LbaInData(c);
    TimesIsProduct(g.sectorsPerCluster, SECTOR);
    SpanBytes(disk, g.ClusterToLba(c), g.sectorsPerCluster, j, b);
  }

  lemma {:induction false} SpanBytes(disk: seq<Sector>, lba: nat, n: nat, j: nat, b: nat)
    requires lba + n <= |disk| && j < n && b < 512
    ensures 512 * j + b < |Span(disk, lba, n)| == 512 * n
    ensures Span(disk, lba, n)[512 * j + b] == disk[lba + j][b]
    decreases n
  {
    TimesIsProduct(n, SECTOR);
    TimesIsProduct(n - 1, SECTOR);
    if j < n - 1 {
      SpanBytes(disk, lba, n - 1, j, b);
    }
  }

  // ---------- writing an entry ----------

  function SetRaw(s: Sector, c: nat, value: nat): Sector {
    var at := c % ENTRIES_PER_SECTOR * 4;
    s[..at] + ToLe32(value) + s[at + 4..]
  }

  lemma SetRawIs(s: Sector, c: nat, value: nat, at: nat)
    requires at == c % ENTRIES_PER_SECTOR * 4
    ensures SetRaw(s, c, value) == s[..at] + ToLe32(value) + s[at + 4..]
  {
  }

  lemma SetRawSets(s: Sector, c: nat, d: nat, value: nat)
    requires value < ENTRY_MODULUS && c / ENTRIES_PER_SECTOR == d / ENTRIES_PER_SECTOR
    ensures RawEntry(SetRaw(s, c, value), d) == if c == d then value else RawEntry(s, d)
  {
    var at, t := d % ENTRIES_PER_SECTOR * 4, SetRaw(s, c, value);
    Le32RoundTrip(value);
    if c == d {
      assert t[at..at + 4] == ToLe32(value);
    } else {
      assert c % ENTRIES_PER_SECTOR != d % ENTRIES_PER_SECTOR;
      assert t[at..at + 4] == s[at..at + 4];
    }
  }

  /** The disk with sector k of the first n copies replaced. */
  function WriteCopies(g: Geometry, disk: seq<Sector>, k: nat, s: Sector, n: nat): (d: seq<Sector>)
    requires g.Fits(disk) && k < g.fatSize && n <= g.fatCount
    ensures |d| == |disk|
    decreases n
  {
    if n == 0 then disk
    else
      g.TableSectorInTable(n - 1, k);
      WriteCopies(g, disk, k, s, n - 1)[g.TableSector(n - 1, k) := s]
  }

  lemma {:induction false} WriteCopiesSector(g: Geometry, disk: seq<Sector>, k: nat, s: Sector, n: nat, i: nat, j: nat)
    requires g.Fits(disk) && k < g.fatSize && n <= g.fatCount && i < g.fatCount && j < g.fatSize
    ensures CopySector(g, WriteCopies(g, disk, k, s, n), i, j) == if i < n && j == k then s else CopySector(g, disk, i, j)
    decreases n
  {
    if n > 0 {
      WriteCopiesSector(g, disk, k, s, n - 1, i, j);
      g.TableSectorInTable(i, j);
      g.TableSectorInTable(n - 1, k);
      if i < n - 1 {
        g.TableSectorsDisjoint(i, j, n - 1, k);
      } else if n - 1 < i {
        g.TableSectorsDisjoint(n - 1, k, i, j);
      }
    }
  }

  lemma {:induction false} WriteCopiesKeepsData(g: Geometry, disk: seq<Sector>, k: nat, s: Sector, n: nat, p: nat)
    requires g.Fits(disk) && k < g.fatSize && n <= g.fatCount && g.dataStart <= p < |disk|
    ensures WriteCopies(g, disk, k, s, n)[p] == disk[p]
    decreases n
  {
    if n > 0 {
      WriteCopiesKeepsData(g, disk, k, s, n - 1, p);
      g.TableSectorInTable(n - 1, k);
    }
  }

  lemma {:induction false} SpanFramed(a: seq<Sector>, b: seq<Sector>, lba: nat, n: nat)
    requires lba + n <= |a| && lba + n <= |b|
    requires forall p :: lba <= p < lba + n ==> a[p] == b[p]
    ensures Span(a, lba, n) == Span(b, lba, n)
    decreases n
  {
    if n > 0 {
      SpanFramed(a, b, lba, n - 1);
    }
  }

  /**
   The entry of cluster c is stored as value on disk: its four bytes hold the 28 bits of value in every copy of the
   table, the least significant byte first, and no other byte of any sector differs from before.
   */
  ghost predicate EntryStored(g: Geometry, before: seq<Sector>, after: seq<Sector>, c: nat, value: nat)
    requires g.Fits(before) && c < g.totalClusters + 2
  {
    && |after| == |before|
    && (forall i, b | 0 <= i < g.fatCount && 0 <= b < 512 ::
      CopySector(g, after, i, c / 128)[b] ==
        if 0 <= b - c % 128 * 4 < 4 then value % 0x1000_0000 / Pow256(b - c % 128 * 4) % 256
        else CopySector(g, before, i, c / 128)[b])
    && (forall p | 0 <= p < |before| :: (forall i | 0 <= i < g.fatCount :: p != g.TableSector(i, c / 128)) ==>
      after[p] == before[p])
  }

  lemma {:induction false} WriteCopiesOutside(g: Geometry, disk: seq<Sector>, k: nat, s: Sector, n: nat, p: nat)
    requires g.Fits(disk) && k < g.fatSize && n <= g.fatCount && p < |disk|
    requires forall i | 0 <= i < g.fatCount :: p != g.TableSector(i, k)
    ensures WriteCopies(g, disk, k, s, n)[p] == disk[p]
    decreases n
  {
    if n > 0 {
      WriteCopiesOutside(g, disk, k, s, n - 1, p);
      g.TableSectorInTable(n - 1, k);
      assert p != g.TableSector(n - 1, k);
    }
  }

  lemma SetRawBytes(s: Sector, c: nat, value: nat, b: nat)
    requires b < 512 && value < 0x1000_0000
    ensures SetRaw(s, c, value)[b] ==
            if 0 <= b - c % 128 * 4 < 4 then value % 0x1000_0000 / Pow256(b - c % 128 * 4) % 256 else s[b]
  {
    var at := c % 128 * 4;
    if 0 <= b - at < 4 {
      ToLe32Digits(value, b - at);
      assert SetRaw(s, c, value)[b] == ToLe32(value)[b - at];
    }
  }

  lemma SetEntryStores(g: Geometry, disk: seq<Sector>, c: nat, value: nat)
    requires g.Fits(disk) && CopiesEqual(g, disk) && c < g.totalClusters + 2
    ensures c / ENTRIES_PER_SECTOR < g.fatSize
    ensures var k := c / ENTRIES_PER_SECTOR;
            var s := SetRaw(CopySector(g, disk, 0, k), c, value % ENTRY_MODULUS);
            EntryStored(g, disk, WriteCopies(g, disk, k, s, g.fatCount), c, value)
  {
    hide SetRaw, WriteCopies, Pow256;
    var k, masked := c / ENTRIES_PER_SECTOR, value % ENTRY_MODULUS;
    var s := SetRaw(CopySector(g, disk, 0, k), c, masked);
    forall i, b | 0 <= i < g.fatCount && 0 <= b < 512
      ensures CopySector(g, WriteCopies(g, disk, k, s, g.fatCount), i, c / 128)[b] ==
              if 0 <= b - c % 128 * 4 < 4 then value % 0x1000_0000 / Pow256(b - c % 128 * 4) % 256
              else CopySector(g, disk, i, c / 128)[b] {
      WriteCopiesSector(g, disk, k, s, g.fatCount, i, k);
      SetRawBytes(CopySector(g, disk, 0, k), c, masked, b);
    }
    forall p | 0 <= p < |disk| && forall i | 0 <= i < g.fatCount :: p != g.TableSector(i, c / 128)
      ensures WriteCopies(g, disk, k, s, g.fatCount)[p] == disk[p] {
      WriteCopiesOutside(g, disk, k, s, g.fatCount, p);
    }
  }

  /** Setting an entry in every copy updates the table view at that cluster and nothing else. */
  lemma SetEntryRefines(g: Geometry, disk: seq<Sector>, c: nat, value: nat)
    requires g.Fits(disk) && CopiesEqual(g, disk) && 2 <= c < g.totalClusters + 2 && value < ENTRY_MODULUS
    ensures c / ENTRIES_PER_SECTOR < g.fatSize
    ensures var k := c / ENTRIES_PER_SECTOR;
            var d := WriteCopies(g, disk, k, SetRaw(CopySector(g, disk, 0, k), c, value), g.fatCount);
            && FatOf(g, d) == FatOf(g, disk)[c := value]
            && DataOf(g, d) == DataOf(g, disk)
            && CopiesEqual(g, d)
  {
    var k := c / ENTRIES_PER_SECTOR;
    var s := SetRaw(CopySector(g, disk, 0, k), c, value);
    var d := WriteCopies(g, disk, k, s, g.fatCount);
    forall x | 0 <= x < g.totalClusters + 2 ensures FatOf(g, d)[x] == FatOf(g, disk)[c := value][x] {
      WriteCopiesSector(g, disk, k, s, g.fatCount, 0, x / ENTRIES_PER_SECTOR);
      if x / ENTRIES_PER_SECTOR == k {
        SetRawSets(CopySector(g, disk, 0, k), c, x, value);
      }
    }
    forall x | 2 <= x < g.totalClusters + 2 ensures DataOf(g, d)[x] == DataOf(g, disk)[x] {
      g.LbaInData(x);
      forall p | g.ClusterToLba(x) <= p < g.ClusterToLba(x) + g.sectorsPerCluster ensures d[p] == disk[p] {
        WriteCopiesKeepsData(g, disk, k, s, g.fatCount, p);
      }
      SpanFramed(d, disk, g.ClusterToLba(x), g.sectorsPerCluster);
    }
    forall i, j | 0 <= i < g.fatCount && 0 <= j < g.fatSize ensures CopySector(g, d, i, j) == CopySector(g, d, 0, j) {
      WriteCopiesSector(g, disk, k, s, g.fatCount, i, j);
      WriteCopiesSector(g, disk, k, s, g.fatCount, 0, j);
    }
  }

  // ---------- writing a cluster ----------

  /** The disk with the n sectors from lba on replaced by the bytes buf. */
  function WriteSpan(disk: seq<Sector>, lba: nat, n: nat, buf: seq<byte>): (d: seq<Sector>)
    requires lba + n <= |disk| && |buf| == Times(n, SECTOR)
    ensures |d| == |disk|
    decreases n
  {
    if n == 0 then disk
    else WriteSpan(disk, lba, n - 1, buf[..|buf| - SECTOR])[lba + n - 1 := buf[|buf| - SECTOR..]]
  }

  lemma {:induction false} WriteSpanOutside(disk: seq<Sector>, lba: nat, n: nat, buf: seq<byte>, p: nat)
    requires lba + n <= |disk| && |buf| == Times(n, SECTOR) && p < |disk| && (p < lba || lba + n <= p)
    ensures WriteSpan(disk, lba, n, buf)[p] == disk[p]
    decreases n
  {
    if n > 0 {
      WriteSpanOutside(disk, lba, n - 1, buf[..|buf| - SECTOR], p);
    }
  }

  /** The device returns the sectors that were written. */
  lemma {:induction false} WriteSpanReadsBack(disk: seq<Sector>, lba: nat, n: nat, buf: seq<byte>)
    requires lba + n <= |disk| && |buf| == Times(n, SECTOR)
    ensures Span(WriteSpan(disk, lba, n, buf), lba, n) == buf
    decreases n
  {
    if n > 0 {
      var front := buf[..|buf| - SECTOR];
      WriteSpanReadsBack(disk, lba, n - 1, front);
      SpanFramed(WriteSpan(disk, lba, n, buf), WriteSpan(disk, lba, n - 1, front), lba, n - 1);
      assert buf == front + buf[|buf| - SECTOR..];
    }
  }

  /** Writing a cluster updates the data view at that cluster and nothing else. */
  lemma WriteClusterRefines(g: Geometry, disk: seq<Sector>, c: nat, buf: seq<byte>)
    requires g.Fits(disk) && CopiesEqual(g, disk) && 2 <= c < g.totalClusters + 2
    requires |buf| == Times(g.sectorsPerCluster, SECTOR)
    ensures g.ClusterToLba(c) + g.sectorsPerCluster <= |disk|
    ensures var d := WriteSpan(disk, g.ClusterToLba(c), g.sectorsPerCluster, buf);
            && FatOf(g, d) == FatOf(g, disk)
            && DataOf(g, d) == DataOf(g, disk)[c := buf]
            && CopiesEqual(g, d)
  {
    g.LbaInData(c);
    var lba, n := g.ClusterToLba(c), g.sectorsPerCluster;
    var d := WriteSpan(disk, lba, n, buf);
    forall i, j | 0 <= i < g.fatCount && 0 <= j < g.fatSize ensures CopySector(g, d, i, j) == CopySector(g, disk, i, j) {
      g.TableSectorInTable(i, j);
      WriteSpanOutside(disk, lba, n, buf, g.TableSector(i, j));
    }
    forall x | 0 <= x < g.totalClusters + 2 ensures FatOf(g, d)[x] == FatOf(g, disk)[x] {
      assert CopySector(g, d, 0, x / ENTRIES_PER_SECTOR) == CopySector(g, disk, 0, x / ENTRIES_PER_SECTOR);
    }
    forall x | 2 <= x < g.totalClusters + 2 ensures DataOf(g, d)[x] == DataOf(g, disk)[c := buf][x] {
      g.LbaInData(x);
      if x == c {
        WriteSpanReadsBack(disk, lba, n, buf);
      } else {
        if x < c {
          g.LbasDisjoint(x, c);
        } else {
          g.LbasDisjoint(c, x);
        }
        forall p | g.ClusterToLba(x) <= p < g.ClusterToLba(x) + n ensures d[p] == disk[p] {
          WriteSpanOutside(disk, lba, n, buf, p);
        }
        SpanFramed(d, disk, g.ClusterToLba(x), n);
      }
    }
  }

  /** Where the entry of cluster c lies. */
  lemma EntryPlace(c: nat)
    ensures c * 4 / SECTOR == c / ENTRIES_PER_SECTOR && c * 4 % SECTOR == c % ENTRIES_PER_SECTOR * 4
  {
  }

  lemma EntryRead(g: Geometry, disk: seq<Sector>, c: nat)
    requires g.Fits(disk) && c < g.totalClusters + 2
    ensures c / ENTRIES_PER_SECTOR < g.fatSize && g.fatStart + c / ENTRIES_PER_SECTOR < |disk|
    ensures FatOf(g, disk)[c] == RawEntry(disk[g.fatStart + c / ENTRIES_PER_SECTOR], c)
  {
  }

  lemma EntryOffset(k: nat, at: nat, c: nat)
    requires at % 4 == 0 && at < SECTOR && c == (k * SECTOR + at) / 4
    ensures c == k * ENTRIES_PER_SECTOR + at / 4 && c / ENTRIES_PER_SECTOR == k && c % ENTRIES_PER_SECTOR * 4 == at
  {
  }

  lemma EntryValue(s: Sector, c: nat, at: nat)
    requires c % ENTRIES_PER_SECTOR * 4 == at
    ensures RawEntry(s, c) == Le32(s[at..at + 4]) % ENTRY_MODULUS
  {
  }

  /** One more sector of a span written. */
  lemma WriteSpanStep(disk: seq<Sector>, lba: nat, n: nat, buf: seq<byte>)
    requires lba + n < |disk| && Times(n + 1, SECTOR) <= |buf|
    ensures Times(n, SECTOR) == n * SECTOR && Times(n + 1, SECTOR) == n * SECTOR + SECTOR
    ensures WriteSpan(disk, lba, n + 1, buf[..n * SECTOR + SECTOR]) ==
            WriteSpan(disk, lba, n, buf[..n * SECTOR])[lba + n := buf[n * SECTOR..n * SECTOR + SECTOR]]
  {
    TimesIsProduct(n, SECTOR);
    var upto := buf[..n * SECTOR + SECTOR];
    assert upto[..|upto| - SECTOR] == buf[..n * SECTOR];
    assert upto[|upto| - SECTOR..] == buf[n * SECTOR..n * SECTOR + SECTOR];
  }

  // ---------- the mounted volume ----------

  class MountedVolume {
    const g: Geometry
    var disk: seq<Sector>

    /** A well-formed volume: equal table copies whose entries are free, in range, or end marks. */
    ghost predicate Valid()
      reads this
    {
      g.Fits(disk) && CopiesEqual(g, disk) && FatOk(FatOf(g, disk))
    }

    ghost function Abs(): (v: Vol)
      requires Valid()
      reads this
      ensures VolOk(v) && v.csize < 0x1_0000_0000
    {
      var v := VolOf(g, disk);
      TimesIsProduct(g.sectorsPerCluster, SECTOR);
      assert v.csize > 0;
      v
    }

    constructor (g: Geometry, disk: seq<Sector>)
      requires g.Fits(disk) && CopiesEqual(g, disk) && FatOk(FatOf(g, disk))
      ensures Valid() && this.g == g && this.disk == disk
    {
      this.g, this.disk := g, disk;
    }

    method ReadSector(lba: nat) returns (s: Sector)
      requires lba < |disk|
      ensures s == disk[lba]
    {
      s := disk[lba];
    }

    method WriteSector(lba: nat, s: Sector)
      requires lba < |disk|
      modifies this
      ensures disk == old(disk)[lba := s]
    {
      disk := disk[lba := s];
    }

    method NextCluster(c: nat) returns (next: nat)
      requires Valid() && InRange(Abs().fat, c)
      ensures next == Next(Abs().fat, c)
      ensures c / 128 < g.fatSize && g.fatStart + c / 128 < |disk|
      ensures var s, at := disk[g.fatStart + c / 128], c % 128 * 4;
              var entry := s[at] as int + 256 * s[at + 1] as int + 65536 * s[at + 2] as int + 16777216 * (s[at + 3] as int % 16);
              next == if entry >= 0x0FFF_FFF8 then 0 else entry
    {
      hide RawEntry, TableCopy, DataOf, CopiesEqual;
      EntryPlace(c);
      EntryBytes(g, disk, c);
      EntryRead(g, disk, c);
      var k := c * 4 / SECTOR;
      var sector := ReadSector(g.fatStart + k);
      var at := c * 4 % SECTOR;
      EntryValue(sector, c, at);
      var entry := Le32(sector[at..at + 4]) % ENTRY_MODULUS;
      next := if entry >= EOC then 0 else entry;
    }

    /** The scan over all sectors of the first table copy. */
    method FindFreeCluster() returns (c: nat)
      requires Valid()
      ensures c == FirstFree(Abs().fat)
    {
      hide RawEntry, TableCopy, DataOf, CopiesEqual, CopySector;
      ghost var fat := Abs().fat;
      for k := 0 to g.fatSize
        invariant forall x :: 2 <= x < |fat| && x < k * ENTRIES_PER_SECTOR ==> fat[x] != 0
      {
        g.TableSectorInTable(0, k);
        var sector := ReadSector(g.fatStart + k);
        var at := 0;
        while at < SECTOR
          invariant 0 <= at <= SECTOR && at % 4 == 0
          invariant forall x :: 2 <= x < |fat| && x < k * ENTRIES_PER_SECTOR + at / 4 ==> fat[x] != 0
        {
          var entry := Le32(sector[at..at + 4]) % ENTRY_MODULUS;
          var cluster := (k * SECTOR + at) / 4;
          EntryOffset(k, at, cluster);
          if 2 <= cluster < g.totalClusters + 2 {
            EntryRead(g, disk, cluster);
            EntryValue(sector, cluster, at);
            if entry == 0 {
              FirstFreeIs(fat, cluster);
              return cluster;
            }
          }
          at := at + 4;
        }
      }
      c := 0;
    }

    /** Read the sector from the first copy, change the entry, write the sector to every copy. */
    method SetFatEntry(c: nat, value: nat)
      requires Valid() && InRange(Abs().fat, c) && FatOk(Abs().fat[c := value % ENTRY_MODULUS])
      modifies this
      ensures Valid() && Abs() == old(Abs()).(fat := old(Abs()).fat[c := value % 0x1000_0000])
      ensures EntryStored(g, old(disk), disk, c, value)
    {
      hide RawEntry, FatOf, DataOf, CopiesEqual, FatOk, SetRaw, EntryStored;
      var masked := value % ENTRY_MODULUS;
      var k := c * 4 / SECTOR;
      var at := c * 4 % SECTOR;
      EntryPlace(c);
      g.TableSectorInTable(0, k);
      var sector := ReadSector(g.fatStart + k);
      SetRawIs(sector, c, masked, at);
      sector := sector[..at] + ToLe32(masked) + sector[at + 4..];
      ghost var before := disk;
      WriteSector(g.fatStart + k, sector);
      assert WriteCopies(g, before, k, sector, 0) == before;
      for i := 1 to g.fatCount
        invariant disk == WriteCopies(g, before, k, sector, i)
      {
        g.TableSectorInTable(i, k);
        TimesIsProduct(i, g.fatSize);
        WriteSector(g.fatStart + k + i * g.fatSize, sector);
      }
      SetEntryRefines(g, before, c, masked);
      SetEntryStores(g, before, c, value);
    }

    method ReadCluster(c: nat) returns (buf: seq<byte>)
      requires Valid() && InRange(Abs().fat, c)
      ensures buf == Abs().data[c]
    {
      g.LbaInData(c);
      TimesIsProduct(c - 2, g.sectorsPerCluster);
      var lba := g.dataStart + (c - 2) * g.sectorsPerCluster;
      buf := [];
      for n := 0 to g.sectorsPerCluster
        invariant buf == Span(disk, lba, n)
      {
        var s := ReadSector(lba + n);
        buf := buf + s;
      }
    }

    method WriteCluster(c: nat, buf: seq<byte>)
      requires Valid() && InRange(Abs().fat, c) && |buf| == Abs().csize
      modifies this
      ensures Valid() && Abs() == old(Abs()).(data := old(Abs()).data[c := buf])
    {
      hide FatOf, DataOf, CopiesEqual, FatOk, WriteSpan, Times;
      g.LbaInData(c);
      TimesIsProduct(c - 2, g.sectorsPerCluster);
      var lba := g.dataStart + (c - 2) * g.sectorsPerCluster;
      ghost var before := disk;
      WriteSpanNone(before, lba, buf);
      for n := 0 to g.sectorsPerCluster
        invariant n * SECTOR == Times(n, SECTOR) <= |buf|
        invariant disk == WriteSpan(before, lba, n, buf[..n * SECTOR])
      {
        TimesMono(n + 1, g.sectorsPerCluster, SECTOR);
        WriteSpanStep(before, lba, n, buf);
        WriteSector(lba + n, buf[n * SECTOR..n * SECTOR + SECTOR]);
      }
      assert buf[..|buf|] == buf;
      WriteClusterRefines(g, before, c, buf);
    }
  }

  lemma WriteSpanNone(disk: seq<Sector>, lba: nat, buf: seq<byte>)
    requires lba <= |disk|
    ensures Times(0, SECTOR) == 0 && WriteSpan(disk, lba, 0, buf[..0]) == disk
  {
  }
}
