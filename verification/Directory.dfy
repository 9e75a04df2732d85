/**
 The directory tree: a file system is a volume with its chains and the start clusters of its
 directories. Paths resolve through the slots of the directories' chains.
 */
module Directory {
  import opened Arith
  import opened Bytes
  import opened FatTable
  import opened FileSpec
  import opened FileWrite
  import opened Chains
  import opened Names
  import opened Options
  import opened DirSlots

  datatype Fs = Fs(vol: Vol, chains: ChainMap, dirs: set<nat>, root: nat)

  /** What a path leads to; Astray when the walk has stepped into cluster 0, which lies in front of the data area. */
  datatype Target = Dir(cluster: nat) | File(start: nat, size: nat) | Astray

  /** Whole slots only; sectors are 512 bytes. */
  predicate Slotted(v: Vol) {
    VolOk(v) && v.csize % 512 == 0 && v.csize % SLOT == 0
  }

  /** The 32-byte slots of a byte sequence. */
  function SlotsOf(b: seq<byte>): (s: seq<Slot>)
    requires |b| % SLOT == 0
    ensures |s| == |b| / SLOT
    ensures forall i :: 0 <= i < |s| ==> s[i] == b[i * SLOT..i * SLOT + SLOT]
  {
    seq(|b| / SLOT, i requires 0 <= i < |b| / SLOT => b[i * SLOT..i * SLOT + SLOT])
  }

  lemma {:induction false} TimesSlotted(k: nat, d: nat)
    requires d % SLOT == 0
    ensures Times(k, d) % SLOT == 0
  {
    if k > 0 {
      TimesSlotted(k - 1, d);
    }
  }

  function ChainSlots(v: Vol, ch: seq<nat>): (s: seq<Slot>)
    requires Slotted(v) && AllInRange(v.fat, ch)
  {
    TimesSlotted(|ch|, v.csize);
    SlotsOf(ChainBytes(v, ch))
  }

  /** The slots of one cluster. */
  function ClusterSlots(v: Vol, c: nat): (s: seq<Slot>)
    requires Slotted(v) && InRange(v.fat, c)
    ensures |s| == v.csize / SLOT
  {
    SlotsOf(v.data[c])
  }

  /** The volume with slot i of cluster c replaced. */
  function PutSlot(v: Vol, c: nat, i: nat, e: Slot): (w: Vol)
    requires Slotted(v) && InRange(v.fat, c) && i < v.csize / SLOT
    ensures Slotted(w) && w.fat == v.fat && w.csize == v.csize
  {
    v.(data := v.data[c := v.data[c][..i * SLOT] + e + v.data[c][i * SLOT + SLOT..]])
  }

  lemma SlotsOfUpdate(b: seq<byte>, i: nat, e: Slot)
    requires |b| % SLOT == 0 && i < |b| / SLOT
    ensures WriteAt(b, i * SLOT, e) == b[..i * SLOT] + e + b[i * SLOT + SLOT..]
    ensures SlotsOf(WriteAt(b, i * SLOT, e)) == SlotsOf(b)[i := e]
  {
    var w := WriteAt(b, i * SLOT, e);
    assert w == b[..i * SLOT] + e + b[i * SLOT + SLOT..];
    forall j | 0 <= j < |b| / SLOT ensures SlotsOf(w)[j] == SlotsOf(b)[i := e][j] {
      assert w[j * SLOT..j * SLOT + SLOT] == if j == i then e else b[j * SLOT..j * SLOT + SLOT];
    }
  }

  /** The slots of a directory's first cluster are its first slots. */
  lemma FirstClusterSlots(v: Vol, ch: seq<nat>)
    requires Slotted(v) && IsChain(v.fat, ch)
    ensures v.csize / SLOT <= |ChainSlots(v, ch)|
    ensures ClusterSlots(v, ch[0]) == ChainSlots(v, ch)[..v.csize / SLOT]
  {
    ClusterIsBlock(v, ch, 0);
    TimesSlotted(|ch|, v.csize);
    var a, b := ClusterSlots(v, ch[0]), ChainSlots(v, ch)[..v.csize / SLOT];
    forall i | 0 <= i < v.csize / SLOT ensures a[i] == b[i] {
      assert v.data[ch[0]] == ChainBytes(v, ch)[..v.csize];
    }
  }

  /** Replacing a slot of the first cluster replaces that slot of the directory and nothing else. */
  lemma PutSlotUpdates(v: Vol, ch: seq<nat>, i: nat, e: Slot)
    requires Slotted(v) && IsChain(v.fat, ch) && i < v.csize / SLOT
    ensures i < |ChainSlots(v, ch)|
    ensures ChainSlots(PutSlot(v, ch[0], i, e), ch) == ChainSlots(v, ch)[i := e]
  {
    FirstClusterSlots(v, ch);
    forall a, b | 0 <= a < b < |ch| ensures ch[a] != ch[b] {
      ChainIsAcyclic(v.fat, ch, a, b);
    }
    BlockUpdate(v, PutSlot(v, ch[0], i, e), ch, 0, i * SLOT, e);
    TimesSlotted(|ch|, v.csize);
    SlotsOfUpdate(ChainBytes(v, ch), i, e);
  }

  // ---------- file systems ----------

  function SlotsAt(fs: Fs, d: nat): seq<Slot>
    requires Slotted(fs.vol) && EachIsChain(fs.vol.fat, fs.chains) && d in fs.chains
  {
    ChainSlots(fs.vol, fs.chains[d])
  }

  /**
   A directory's entry that holds a cluster. The format gives cluster 0 to the entry ".." of a directory whose parent
   is the root.
   */
  predicate LeadsOn(s: Slot) {
    IsDirSlot(s) && FirstCluster(s) != 0
  }

  function TargetOf(s: Slot): Target {
    if LeadsOn(s) then Dir(FirstCluster(s)) else if IsDirSlot(s) then Astray else File(FirstCluster(s), FileSize(s))
  }

  /** Unused slots at the end, and directory entries that lead to directories, or hold cluster 0. */
  ghost predicate DirOk(slots: seq<Slot>, dirs: set<nat>) {
    && TailUnused(slots)
    && forall k :: 0 <= k < |slots| && !IsFreeSlot(slots[k]) && LeadsOn(slots[k]) ==> FirstCluster(slots[k]) in dirs
  }

  ghost predicate FsOk(fs: Fs) {
    && Slotted(fs.vol)
    && Sound(fs.vol.fat, fs.chains)
    && fs.root in fs.dirs
    && fs.dirs <= fs.chains.Keys
    && forall d :: d in fs.dirs ==> DirOk(SlotsAt(fs, d), fs.dirs)
  }

  // ---------- paths ----------

  const COMPONENT_MAX: nat := 12

  function SkipSlashes(p: CString): (q: CString)
    ensures |q| <= |p| && (q != [] ==> q[0] != SLASH)
  {
    if p != [] && p[0] == SLASH then SkipSlashes(p[1..]) else p
  }

  /** How many characters fat32_open_file takes as one component: up to a slash, at most max. */
  function ComponentLength(p: CString, max: nat): (k: nat)
    ensures k <= |p| && k <= max && SLASH !in p[..k]
    ensures p != [] && p[0] != SLASH && max > 0 ==> k > 0
  {
    if p == [] || p[0] == SLASH || max == 0 then 0
    else
      var k := 1 + ComponentLength(p[1..], max - 1);
      assert p[..k] == [p[0]] + p[1..][..k - 1];
      k
  }

  /** A component ends at a slash, at the end of the path, or after twelve characters, whatever follows. */
  lemma ComponentIs(p: CString)
    ensures var k := ComponentLength(p, COMPONENT_MAX);
            && k <= 12 && k <= |p| && 0x2F !in p[..k] && (k < 12 && k < |p| ==> p[k] == 0x2F)
  {
    ComponentEnds(p, COMPONENT_MAX);
  }

  lemma {:induction false} ComponentEnds(p: CString, max: nat)
    ensures var k := ComponentLength(p, max); k < max && k < |p| ==> p[k] == SLASH
  {
    if p != [] && p[0] != SLASH && max > 0 {
      ComponentEnds(p[1..], max - 1);
    }
  }

  /**
   The component walk of fat32_open_file from directory c. A file ends the walk at once, whatever is
   left of the path. The source takes an entry's cluster 0 for a directory's like any other; there the walk is astray.
   */
  function Resolve(fs: Fs, c: nat, p: CString): Option<Target>
    requires Slotted(fs.vol) && EachIsChain(fs.vol.fat, fs.chains)
    decreases |p|
  {
    var q := SkipSlashes(p);
    if q == [] then Some(Dir(c))
    else if c !in fs.chains then None
    else
      var k := ComponentLength(q, COMPONENT_MAX);
      match Find(SlotsAt(fs, c), 0, q[..k])
      case None => None
      case Some(s) =>
        if LeadsOn(s) then Resolve(fs, FirstCluster(s), q[k..]) else Some(TargetOf(s))
  }

  /** fat32_open_file. */
  function Open(fs: Fs, path: CString): Option<Target>
    requires Slotted(fs.vol) && EachIsChain(fs.vol.fat, fs.chains)
  {
    Resolve(fs, fs.root, Upper(path))
  }

  lemma FindInSlots(slots: seq<Slot>, k: nat, name: CString, dirs: set<nat>)
    requires DirOk(slots, dirs)
    ensures var r := Find(slots, k, name);
            r.Some? && LeadsOn(r.value) ==> FirstCluster(r.value) in dirs
  {
    FindIsFirstHit(slots, k, name);
  }

  /** A path that resolves to a directory resolves to one of the file system's directories. */
  lemma {:induction false} ResolveInDirs(fs: Fs, c: nat, p: CString)
    requires FsOk(fs) && c in fs.dirs
    ensures var r := Resolve(fs, c, p); r.Some? && r.value.Dir? ==> r.value.cluster in fs.dirs
    decreases |p|
  {
    hide Find, DirOk, EachIsChain, Disjoint, Covers, FirstCluster, SlotsAt;
    var q := SkipSlashes(p);
    if q != [] {
      var k := ComponentLength(q, COMPONENT_MAX);
      FindInSlots(SlotsAt(fs, c), 0, q[..k], fs.dirs);
      var r := Find(SlotsAt(fs, c), 0, q[..k]);
      if r.Some? && LeadsOn(r.value) {
        ResolveInDirs(fs, FirstCluster(r.value), q[k..]);
      }
    }
  }

  /** The last slash among the first n characters, -1 if there is none. */
  function LastSlash(path: CString, n: nat): (i: int)
    requires n <= |path|
    ensures -1 <= i < n && (i >= 0 ==> path[i] == SLASH)
    ensures forall j :: i < j < n ==> path[j] != SLASH
  {
    if n == 0 then -1 else if path[n - 1] == SLASH then n - 1 else LastSlash(path, n - 1)
  }

  /** The directory part and the name part at the last slash, as split_path cuts them. */
  function SplitPath(path: CString): (CString, CString) {
    var i := LastSlash(path, |path|);
    if i < 0 then ([], path)
    else if i == 0 then ([SLASH], path[1..])
    else (path[..i], path[i + 1..])
  }
}
