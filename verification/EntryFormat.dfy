/**
 The directory entries that fat32_create, fat32_mkdir and fat32_update_file_entry leave on disk, byte by byte, as the
 section "Directory Structure" of the FAT32 specification lays them out.
 */
module EntryFormat {
  import opened Bytes
  import opened FatTable
  import opened FileSpec
  import opened Chains
  import opened Names
  import opened Options
  import opened DirSlots
  import opened Directory
  import opened FsOps
  import opened PathOps

  /** The low 16 bits of n stand at place at, the less significant byte first. */
  predicate WordAt(s: seq<byte>, at: nat, n: nat) {
    at + 1 < |s| && s[at] as int == n % 256 && s[at + 1] as int == n / 256 % 256
  }

  /** Bytes 20 to 31: start cluster, in two halves, write time and date, size. */
  predicate HoldsFile(s: seq<byte>, cluster: nat, size: nat, stamp: Stamp) {
    && |s| == 32
    && WordAt(s, 20, cluster / 65536) && WordAt(s, 26, cluster)
    && WordAt(s, 22, stamp.time) && WordAt(s, 24, stamp.date)
    && WordAt(s, 28, size) && WordAt(s, 30, size / 65536)
  }

  /** Bytes 11 to 19: attributes, nothing, creation time and date, date of last access. */
  predicate HoldsBirth(s: seq<byte>, attributes: nat, stamp: Stamp) {
    && |s| == 32
    && s[11] as int == attributes && s[12] == 0 && s[13] == 0
    && WordAt(s, 14, stamp.time) && WordAt(s, 16, stamp.date) && WordAt(s, 18, stamp.date)
  }

  /** Bytes 0 to 10: the base cut or padded with blanks to eight bytes, the extension to three, in capitals. */
  predicate HoldsName(s: seq<byte>, base: seq<byte>, ext: seq<byte>) {
    && |s| >= 11
    && (forall i :: 0 <= i < 8 ==> if i < |base| then IsCapitalOf(s[i], base[i]) else s[i] == 0x20)
    && (forall i :: 8 <= i < 11 ==> if i - 8 < |ext| then IsCapitalOf(s[i], ext[i - 8]) else s[i] == 0x20)
  }

  /** The part of a name before its first dot and the part behind it. */
  predicate Parts(name: CString, base: CString, ext: CString) {
    0x2E !in base && (name == base + [0x2E] + ext || (name == base && ext == []))
  }

  lemma MadeSlotBytes(field: seq<byte>, attributes: byte, cluster: nat, size: nat, stamp: Stamp)
    requires |field| == 11
    ensures var s := MakeSlot(field, attributes, cluster, size, stamp.time, stamp.date);
            s[..11] == field && HoldsBirth(s, attributes, stamp) && HoldsFile(s, cluster, size, stamp)
  {
  }

  /** An update gives the entry its new cluster, size and write time; bytes 0 to 19 stay. */
  lemma UpdatedSlotBytes(s: Slot, cluster: nat, size: nat, stamp: Stamp)
    ensures var r := UpdatedSlot(s, cluster, size, stamp.time, stamp.date);
            r[..20] == s[..20] && HoldsFile(r, cluster, size, stamp)
  {
  }

  /** What the lookup reads of a slot. */
  lemma SlotReads(s: Slot)
    ensures FirstCluster(s) == s[26] as int + 256 * s[27] as int + 65536 * s[20] as int + 16777216 * s[21] as int
    ensures FileSize(s) == s[28] as int + 256 * s[29] as int + 65536 * s[30] as int + 16777216 * s[31] as int
    ensures IsDirSlot(s) <==> s[11] / 16 % 2 == 1
    ensures IsFreeSlot(s) <==> s[0] == 0 || s[0] == 0xE5
    ensures forall name: CString :: Hit(s, name) ==> s[0] != 0 && s[0] != 0xE5 && s[11] != 0x0F && s[11] != 0x08
  {
  }

  lemma EncodedNameBytes(name: CString, base: CString, ext: CString)
    requires Parts(name, base, ext)
    ensures HoldsName(Encode(name), base, ext)
  {
    IndexOfIs(name, 0x2E, |base|);
    if name == base {
      assert Base(name) == base && Ext(name) == [];
    } else {
      assert name[|base|] == 0x2E;
      assert Base(name) == base && Ext(name) == ext;
    }
    forall i | 0 <= i < 8 ensures if i < |base| then IsCapitalOf(Encode(name)[i], base[i]) else Encode(name)[i] == 0x20 {
      assert Encode(name)[i] == Field(base, 8)[i];
    }
    forall i | 8 <= i < 11
      ensures if i - 8 < |ext| then IsCapitalOf(Encode(name)[i], ext[i - 8]) else Encode(name)[i] == 0x20 {
      assert Encode(name)[i] == Field(ext, 3)[i - 8];
    }
  }

  // ---------- what the calls write ----------

  /** Of the clusters' bytes only the 32 of entry i of cluster d differ; they are those of entry. */
  ghost predicate EntryWritten(was: seq<seq<byte>>, now: seq<seq<byte>>, d: nat, i: nat, entry: seq<byte>) {
    && |now| == |was| && d < |was| && 32 * i + 32 <= |was[d]| && |entry| == 32
    && now == was[d := was[d][..32 * i] + entry + was[d][32 * i + 32..]]
  }

  /** The entry taken is the first that is unused or deleted. */
  predicate FirstFreeEntry(cluster: seq<byte>, i: nat) {
    && 32 * i < |cluster| && cluster[32 * i] in {0, 0xE5}
    && forall j :: 0 <= j < i ==> cluster[32 * j] !in {0, 0xE5}
  }

  lemma EntryIndexIsFirst(v: Vol, d: nat)
    requires Slotted(v) && InRange(v.fat, d)
    ensures var i := FirstFreeSlot(ClusterSlots(v, d), 0); i < v.csize / SLOT ==> FirstFreeEntry(v.data[d], i)
  {
    var i, slots := FirstFreeSlot(ClusterSlots(v, d), 0), ClusterSlots(v, d);
    if i < v.csize / SLOT {
      assert slots[i][0] == v.data[d][32 * i];
      forall j | 0 <= j < i ensures v.data[d][32 * j] !in {0, 0xE5} {
        assert slots[j][0] == v.data[d][32 * j] && !IsFreeSlot(slots[j]);
      }
    }
  }

  /** fat32_create writes the entry of an empty file into the first free entry of its parent, and nothing else. */
  lemma CreateWritesEntry(fs: Fs, path: CString, stamp: Stamp, base: CString, ext: CString) returns (entry: seq<byte>)
    requires FsOk(fs) && OnCourse(fs, path) && CreateRun(fs, path, stamp).0 && Parts(NameOf(path), base, ext)
    ensures ParentOf(fs, path).Some? && InRange(fs.vol.fat, ParentOf(fs, path).value)
    ensures var (d, fs') := (ParentOf(fs, path).value, CreateRun(fs, path, stamp).1);
            && fs'.vol.fat == fs.vol.fat && FirstFreeEntry(fs.vol.data[d], EntryIndex(fs, d))
            && EntryWritten(fs.vol.data, fs'.vol.data, d, EntryIndex(fs, d), entry)
            && HoldsName(entry, base, ext) && HoldsBirth(entry, 0x20, stamp) && HoldsFile(entry, 0, 0, stamp)
  {
    hide FsOk, NameOf, Encode, MakeSlot, FirstFreeSlot;
    ParentInDirs(fs, path);
    SlottedOf(fs);
    entry := FileSlot(NameOf(path), stamp);
    EntryIndexIsFirst(fs.vol, ParentOf(fs, path).value);
    EncodedNameBytes(NameOf(path), base, ext);
    MadeSlotBytes(Encode(NameOf(path)), ATTR_ARCHIVE, 0, 0, stamp);
    NameKept(Encode(NameOf(path)), entry, base, ext);
  }

  lemma NameKept(field: seq<byte>, s: seq<byte>, base: seq<byte>, ext: seq<byte>)
    requires |field| == 11 <= |s| && s[..11] == field && HoldsName(field, base, ext)
    ensures HoldsName(s, base, ext)
  {
    assert forall i :: 0 <= i < 11 ==> s[i] == field[i];
  }

  /** Entry i is the first live one, whatever its kind, whose name compares equal. */
  predicate FirstOfName(slots: seq<Slot>, i: nat, name: CString) {
    && i < |slots| && !IsFreeSlot(slots[i]) && CaseCompare(Decode(slots[i][..11]), name) == 0
    && forall j :: 0 <= j < i ==> IsFreeSlot(slots[j]) || CaseCompare(Decode(slots[j][..11]), name) != 0
  }

  /** fat32_update_file_entry writes start, size and the time of writing into bytes 20 to 31 of an entry, and nothing else. */
  lemma UpdateWritesEntry(fs: Fs, path: CString, start: nat, size: nat, stamp: Stamp) returns (entry: seq<byte>)
    requires FsOk(fs) && OnCourse(fs, path) && UpdateRun(fs, path, start, size, stamp).0
    ensures ParentOf(fs, path).Some? && InRange(fs.vol.fat, ParentOf(fs, path).value)
    ensures var (d, fs') := (ParentOf(fs, path).value, UpdateRun(fs, path, start, size, stamp).1);
            var i := UpdateIndex(ClusterSlots(fs.vol, d), 0, NameOf(path));
            && fs'.vol.fat == fs.vol.fat
            && FirstOfName(ClusterSlots(fs.vol, d), i, NameOf(path))
            && EntryWritten(fs.vol.data, fs'.vol.data, d, i, entry)
            && entry[..20] == fs.vol.data[d][32 * i..32 * i + 20] && HoldsFile(entry, start, size, stamp)
  {
    hide FsOk, NameOf, UpdateIndex, UpdatedSlot;
    ParentInDirs(fs, path);
    SlottedOf(fs);
    var slots := ClusterSlots(fs.vol, ParentOf(fs, path).value);
    var i := UpdateIndex(slots, 0, NameOf(path));
    entry := UpdatedSlot(slots[i], start, size, stamp.time, stamp.date);
    UpdatedSlotBytes(slots[i], start, size, stamp);
    assert slots[i][..20] == fs.vol.data[ParentOf(fs, path).value][32 * i..32 * i + 20];
  }

  /** The entries "." and ".." of a new directory; the rest of its cluster is zero. */
  predicate HoldsDots(b: seq<byte>, self: nat, parent: nat) {
    && |b| >= 64
    && HoldsName(b[..32], [0x2E], []) && HoldsBirth(b[..32], 0x10, Stamp(0, 0)) && HoldsFile(b[..32], self, 0, Stamp(0, 0))
    && HoldsName(b[32..64], [0x2E, 0x2E], []) && HoldsBirth(b[32..64], 0x10, Stamp(0, 0))
    && HoldsFile(b[32..64], parent, 0, Stamp(0, 0))
    && forall j :: 64 <= j < |b| ==> b[j] == 0
  }

  lemma DirBytesAre(csize: nat, self: nat, parent: nat)
    requires csize >= 64
    ensures HoldsDots(DirBytes(csize, self, parent), self, parent)
  {
    hide MakeSlot;
    var b := DirBytes(csize, self, parent);
    var dot := MakeSlot(DotField(1), ATTR_DIRECTORY, self, 0, 0, 0);
    var dots := MakeSlot(DotField(2), ATTR_DIRECTORY, parent, 0, 0, 0);
    assert b[..32] == dot && b[32..64] == dots;
    MadeSlotBytes(DotField(1), ATTR_DIRECTORY, self, 0, Stamp(0, 0));
    MadeSlotBytes(DotField(2), ATTR_DIRECTORY, parent, 0, Stamp(0, 0));
    NameKept(DotField(1), dot, [0x2E], []);
    NameKept(DotField(2), dots, [0x2E, 0x2E], []);
  }

  /** A directory entry in the parent, with its new cluster in place. */
  lemma DirEntryWritten(v: Vol, d: nat, name: CString, n: nat, stamp: Stamp, base: CString, ext: CString)
      returns (entry: seq<byte>)
    requires Slotted(v) && InRange(v.fat, d) && Parts(name, base, ext)
    requires CreateEntry(v, d, DirSlot(name, n, stamp)).Some?
    ensures FirstFreeEntry(v.data[d], FirstFreeSlot(ClusterSlots(v, d), 0))
    ensures CreateEntry(v, d, DirSlot(name, n, stamp)).value.fat == v.fat
    ensures var w := CreateEntry(v, d, DirSlot(name, n, stamp)).value;
            && EntryWritten(v.data, w.data, d, FirstFreeSlot(ClusterSlots(v, d), 0), entry)
            && HoldsName(entry, base, ext) && HoldsBirth(entry, 0x10, stamp) && HoldsFile(entry, n, 0, stamp)
  {
    hide Encode, MakeSlot, FirstFreeSlot;
    entry := DirSlot(name, n, stamp);
    EntryIndexIsFirst(v, d);
    EncodedNameBytes(name, base, ext);
    MadeSlotBytes(Encode(name), ATTR_DIRECTORY, n, 0, stamp);
    NameKept(Encode(name), entry, base, ext);
  }

  lemma NewDirData(fs: Fs, d: nat)
    requires FsOk(fs) && d in fs.dirs && FirstFree(fs.vol.fat) != 0
    ensures InRange(fs.vol.fat, d) && 2 <= FirstFree(fs.vol.fat) < |fs.vol.fat| && FirstFree(fs.vol.fat) != d
    ensures var (n, made) := (FirstFree(fs.vol.fat), NewDir(fs, d));
            && made.vol.fat == fs.vol.fat[n := 0x0FFF_FFF8] && made.vol.data == fs.vol.data[n := made.vol.data[n]]
            && HoldsDots(made.vol.data[n], n, d) && made.vol.data[d] == fs.vol.data[d]
  {
    NewDirVol(fs, d);
    hide FsOk, HoldsDots, DirBytes, Rechain, FirstFree;
    SlottedOf(fs);
    DirBytesAre(fs.vol.csize, FirstFree(fs.vol.fat), d);
    ParentIsUsed(fs, d);
  }

  lemma ParentIsUsed(fs: Fs, d: nat)
    requires FsOk(fs) && d in fs.dirs && FirstFree(fs.vol.fat) != 0
    ensures d != FirstFree(fs.vol.fat)
  {
    NewDirVol(fs, d);
  }

  /** Cluster n is now the end of a chain and holds the dot entries, entry i of cluster d is a new one; no more differs. */
  ghost predicate MkdirWrote(v: Vol, w: Vol, d: nat, i: nat, n: nat, entry: seq<byte>) {
    && 2 <= n < |v.fat| <= |v.data| && n != d && n < |w.data|
    && w.fat == v.fat[n := 0x0FFF_FFF8] && HoldsDots(w.data[n], n, d)
    && d < |v.data| && FirstFreeEntry(v.data[d], i)
    && EntryWritten(v.data[n := w.data[n]], w.data, d, i, entry)
  }

  /**
   fat32_mkdir marks the first free cluster as the end of a chain, fills it with the two dot entries, and writes the
   directory's entry into the first free entry of its parent; nothing else changes.
   */
  lemma MkdirWritesEntries(fs: Fs, path: CString, stamp: Stamp, base: CString, ext: CString)
      returns (d: nat, i: nat, entry: seq<byte>)
    requires FsOk(fs) && OnCourse(fs, path) && MkdirRun(fs, path, stamp).0 && Parts(NameOf(path), base, ext)
    ensures ParentOf(fs, path) == Some(d)
    ensures MkdirWrote(fs.vol, MkdirRun(fs, path, stamp).1.vol, d, i, FirstFree(fs.vol.fat), entry)
    ensures HoldsName(entry, base, ext) && HoldsBirth(entry, 0x10, stamp) && HoldsFile(entry, FirstFree(fs.vol.fat), 0, stamp)
  {
    hide FsOk, NameOf, DirSlot, FirstFreeSlot, HoldsDots, HoldsFile, HoldsBirth, HoldsName, FirstFree, ParentOf, NewDir,
      CreateEntry, Parts, FirstFreeEntry, ClusterSlots;
    ParentInDirs(fs, path);
    SlottedOf(fs);
    d := ParentOf(fs, path).value;
    i := EntryIndex(fs, d);
    var made := NewDir(fs, d);
    NewDirKeepsFsOk(fs, made, d);
    NewDirKeepsEntryIndex(fs, d);
    NewDirData(fs, d);
    entry := DirEntryWritten(made.vol, d, NameOf(path), FirstFree(fs.vol.fat), stamp, base, ext);
  }
}
