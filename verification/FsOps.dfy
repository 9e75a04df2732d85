/** Creating files and directories and updating entries, as transformations of a file system. */
module FsOps {
  import opened Bytes
  import opened FatTable
  import opened FileSpec
  import opened FileWrite
  import opened Chains
  import opened Names
  import opened Options
  import opened DirSlots
  import opened Directory

  // ---------- resolving parent and name ----------

  /** What a single component means in directory d. */
  function ResolveName(fs: Fs, d: nat, name: CString): Option<Target>
    requires Slotted(fs.vol) && EachIsChain(fs.vol.fat, fs.chains)
  {
    if d !in fs.chains then None
    else
      match Find(SlotsAt(fs, d), 0, name)
      case None => None
      case Some(s) => Some(TargetOf(s))
  }

  predicate IsComponent(name: CString) {
    1 <= |name| <= COMPONENT_MAX && SLASH !in name
  }

  lemma {:induction false} WholeComponent(name: CString, max: nat)
    requires SLASH !in name && |name| <= max
    ensures ComponentLength(name, max) == |name|
  {
    if name != [] {
      assert name[0] in name;
      WholeComponent(name[1..], max - 1);
    }
  }

  lemma ResolveComponent(fs: Fs, d: nat, name: CString)
    requires Slotted(fs.vol) && EachIsChain(fs.vol.fat, fs.chains) && IsComponent(name)
    ensures Resolve(fs, d, name) == ResolveName(fs, d, name)
  {
    hide Find, SlotsAt;
    assert name[0] in name;
    WholeComponent(name, COMPONENT_MAX);
    assert name[..|name|] == name && name[|name|..] == [];
    assert forall c :: Resolve(fs, c, []) == Some(Dir(c));
  }

  lemma {:induction false} SkipSlashesAppend(p: CString, s: CString)
    ensures SkipSlashes(p) == [] ==> SkipSlashes(p + s) == SkipSlashes(s)
    ensures SkipSlashes(p) != [] ==> SkipSlashes(p + s) == SkipSlashes(p) + s
  {
    if p == [] {
      assert p + s == s;
    } else if p[0] == SLASH {
      SkipSlashesAppend(p[1..], s);
      assert (p + s)[1..] == p[1..] + s;
    }
  }

  lemma {:induction false} ComponentLengthAppend(p: CString, s: CString, max: nat)
    requires s != [] && s[0] == SLASH
    ensures ComponentLength(p + s, max) == ComponentLength(p, max)
  {
    if p != [] && p[0] != SLASH && max > 0 {
      ComponentLengthAppend(p[1..], s, max - 1);
      assert (p + s)[1..] == p[1..] + s;
    } else if p == [] {
      assert p + s == s;
    }
  }

  /** A path whose front resolves to a directory resolves as its last component does there. */
  lemma {:induction false} ResolveAppend(fs: Fs, c: nat, p: CString, name: CString)
    requires Slotted(fs.vol) && EachIsChain(fs.vol.fat, fs.chains) && IsComponent(name)
    requires Resolve(fs, c, p).Some? && Resolve(fs, c, p).value.Dir?
    ensures Resolve(fs, c, p + ([SLASH] + name)) == ResolveName(fs, Resolve(fs, c, p).value.cluster, name)
    decreases |p|
  {
    hide Find, SlotsAt, IsDirSlot, FirstCluster, ResolveName, EachIsChain;
    var tail := [SLASH] + name;
    var q := SkipSlashes(p);
    SkipSlashesAppend(p, tail);
    if q == [] {
      assert tail[1..] == name;
      assert SkipSlashes(tail) == SkipSlashes(name);
      assert Resolve(fs, c, p + tail) == Resolve(fs, c, name);
      ResolveComponent(fs, c, name);
    } else {
      ComponentLengthAppend(q, tail, COMPONENT_MAX);
      var k := ComponentLength(q, COMPONENT_MAX);
      assert (q + tail)[..k] == q[..k] && (q + tail)[k..] == q[k..] + tail;
      var s := Find(SlotsAt(fs, c), 0, q[..k]).value;
      ResolveAppend(fs, FirstCluster(s), q[k..], name);
    }
  }

  lemma ResolveSplit(fs: Fs, path: CString, d: nat)
    requires Slotted(fs.vol) && EachIsChain(fs.vol.fat, fs.chains) && IsComponent(SplitPath(path).1)
    requires Resolve(fs, fs.root, SplitPath(path).0) == Some(Dir(d))
    ensures Resolve(fs, fs.root, path) == ResolveName(fs, d, SplitPath(path).1)
  {
    hide ResolveName, EachIsChain;
    var (parent, name) := SplitPath(path);
    var i := LastSlash(path, |path|);
    if i < 0 {
      ResolveComponent(fs, fs.root, name);
    } else if i == 0 {
      assert path == [] + ([SLASH] + name);
      assert SkipSlashes([SLASH][1..]) == [];
      ResolveAppend(fs, fs.root, [], name);
    } else {
      assert path == parent + ([SLASH] + name);
      ResolveAppend(fs, fs.root, parent, name);
    }
  }

  // ---------- what keeps paths ----------

  /** Every upper-case name found in a is found in b as the same entry. */
  ghost predicate Kept(a: seq<Slot>, b: seq<Slot>) {
    forall n: CString :: IsUpper(n) && Find(a, 0, n).Some? ==> Find(b, 0, n) == Find(a, 0, n)
  }

  /** Directories that keep their names keep every path that resolves. */
  lemma {:induction false} ResolveKept(fs: Fs, fs': Fs, c: nat, p: CString)
    requires FsOk(fs) && Slotted(fs'.vol) && EachIsChain(fs'.vol.fat, fs'.chains) && c in fs.dirs && IsUpper(p)
    requires forall d :: d in fs.dirs ==> d in fs'.chains && Kept(SlotsAt(fs, d), SlotsAt(fs', d))
    ensures Resolve(fs, c, p).Some? ==> Resolve(fs', c, p) == Resolve(fs, c, p)
    decreases |p|
  {
    hide Find, DirOk, EachIsChain, Disjoint, Covers, LeadsOn, TargetOf, FirstCluster, SlotsAt;
    var q := SkipSlashes(p);
    SkipKeepsUpper(p);
    if q != [] {
      var k := ComponentLength(q, COMPONENT_MAX);
      var r := Find(SlotsAt(fs, c), 0, q[..k]);
      assert IsUpper(q[..k]) && IsUpper(q[k..]);
      FindInSlots(SlotsAt(fs, c), 0, q[..k], fs.dirs);
      if r.Some? && LeadsOn(r.value) {
        ResolveKept(fs, fs', FirstCluster(r.value), q[k..]);
      }
    }
  }

  lemma {:induction false} SkipKeepsUpper(p: CString)
    requires IsUpper(p)
    ensures IsUpper(SkipSlashes(p))
  {
    if p != [] && p[0] == SLASH {
      SkipKeepsUpper(p[1..]);
    }
  }

  // ---------- one directory changes ----------

  /** Clusters of different directories are different. */
  lemma ChainsApart(fs: Fs, d: nat, e: nat)
    requires EachIsChain(fs.vol.fat, fs.chains) && Disjoint(fs.chains) && d in fs.chains && e in fs.chains && d != e
    ensures d !in fs.chains[e]
  {
  }

  /** Replacing a slot in the first cluster of directory d replaces that slot of d and leaves every other chain's bytes alone. */
  lemma PutSlotAt(fs: Fs, d: nat, i: nat, e: Slot)
    requires FsOk(fs) && d in fs.dirs && i < fs.vol.csize / SLOT
    ensures InRange(fs.vol.fat, d) && i < |SlotsAt(fs, d)|
    ensures var fs' := fs.(vol := PutSlot(fs.vol, d, i, e));
            && Sound(fs'.vol.fat, fs'.chains)
            && SlotsAt(fs', d) == SlotsAt(fs, d)[i := e]
            && (forall c :: c in fs.chains && c != d ==>
                  ChainBytes(fs'.vol, fs.chains[c]) == ChainBytes(fs.vol, fs.chains[c])
                  && SlotsAt(fs', c) == SlotsAt(fs, c))
  {
    hide DirOk, Covers;
    ZeroIsNoStart(fs.vol.fat, fs.chains);
    assert fs.chains[d][0] == d;
    PutSlotUpdates(fs.vol, fs.chains[d], i, e);
    var w := PutSlot(fs.vol, d, i, e);
    forall c | c in fs.chains && c != d ensures ChainBytes(w, fs.chains[c]) == ChainBytes(fs.vol, fs.chains[c]) {
      ChainsApart(fs, d, c);
      ChainBytesFramed(fs.vol, w, fs.chains[c]);
    }
  }

  /** The directory that an insertion leaves is well formed, and names other than the new entry's are kept. */
  lemma InsertKeepsDir(slots: seq<Slot>, i: nat, e: Slot, dirs: set<nat>, more: set<nat>)
    requires DirOk(slots, dirs) && i < |slots| && dirs <= more
    requires IsFreeSlot(slots[i]) && (forall j :: 0 <= j < i ==> !IsFreeSlot(slots[j]))
    requires e[0] != 0 && (!IsFreeSlot(e) && LeadsOn(e) ==> FirstCluster(e) in more)
    ensures DirOk(slots[i := e], more)
  {
  }

  // ---------- create_direntry ----------

  /** Put the entry into the first free slot of the directory's first cluster; None if there is no free one. */
  function CreateEntry(v: Vol, d: nat, e: Slot): Option<Vol>
    requires Slotted(v) && InRange(v.fat, d)
  {
    var i := FirstFreeSlot(ClusterSlots(v, d), 0);
    if i == v.csize / SLOT then None else Some(PutSlot(v, d, i, e))
  }

  /** Rewrite the first entry of that name in the directory's first cluster; None if there is none. */
  function UpdateEntry(v: Vol, d: nat, name: CString, start: nat, size: nat, time: nat, date: nat): Option<Vol>
    requires Slotted(v) && InRange(v.fat, d)
  {
    var slots := ClusterSlots(v, d);
    var i := UpdateIndex(slots, 0, name);
    if i == |slots| then None else Some(PutSlot(v, d, i, UpdatedSlot(slots[i], start, size, time, date)))
  }

  /** The slot that an entry for directory d goes to. */
  function EntryIndex(fs: Fs, d: nat): nat
    requires Slotted(fs.vol) && InRange(fs.vol.fat, d)
  {
    FirstFreeSlot(ClusterSlots(fs.vol, d), 0)
  }

  /** In terms of the whole directory: the first free slot, provided it lies in the first cluster. */
  lemma EntryIndexIsFirstFree(fs: Fs, d: nat)
    requires FsOk(fs) && d in fs.dirs
    ensures InRange(fs.vol.fat, d)
    ensures var (i, slots) := (EntryIndex(fs, d), SlotsAt(fs, d));
            && (forall j :: 0 <= j < i && j < |slots| ==> !IsFreeSlot(slots[j]))
            && i <= fs.vol.csize / SLOT <= |slots|
            && (i < fs.vol.csize / SLOT ==> IsFreeSlot(slots[i]))
  {
    hide DirOk, Covers, Disjoint;
    ZeroIsNoStart(fs.vol.fat, fs.chains);
    assert fs.chains[d][0] == d;
    FirstClusterSlots(fs.vol, fs.chains[d]);
    var a := ClusterSlots(fs.vol, d);
    assert forall j :: 0 <= j < |a| ==> SlotsAt(fs, d)[j] == a[j];
  }

  /** A new entry keeps the file system well formed. */
  lemma CreateEntryKeepsFsOk(fs: Fs, d: nat, e: Slot)
    requires FsOk(fs) && d in fs.dirs && e[0] != 0
    requires !IsFreeSlot(e) && LeadsOn(e) ==> FirstCluster(e) in fs.dirs
    ensures InRange(fs.vol.fat, d)
    ensures var r := CreateEntry(fs.vol, d, e);
            r.Some? ==> FsOk(fs.(vol := r.value))
  {
    hide DirOk, SlotsAt, EachIsChain, Disjoint, Covers, FirstFreeSlot, LeadsOn, FirstCluster;
    EntryIndexIsFirstFree(fs, d);
    var i := EntryIndex(fs, d);
    if i < fs.vol.csize / SLOT {
      PutSlotAt(fs, d, i, e);
      InsertKeepsDir(SlotsAt(fs, d), i, e, fs.dirs, fs.dirs);
    }
  }

  /**
   A new entry for a name that was not found: the name now resolves to the entry, unless it went to the
   very last slot of the chain; every other name of that directory, and every name elsewhere, is kept.
   */
  lemma CreateEntryFound(fs: Fs, d: nat, e: Slot, name: CString)
    requires FsOk(fs) && d in fs.dirs && e[0] != 0
    requires Find(SlotsAt(fs, d), 0, name) == None && Hit(e, name)
    requires forall n: CString :: IsUpper(n) && Hit(e, n) ==> n == name
    requires InRange(fs.vol.fat, d) && CreateEntry(fs.vol, d, e).Some?
    ensures var fs' := fs.(vol := CreateEntry(fs.vol, d, e).value);
            && Slotted(fs'.vol) && EachIsChain(fs'.vol.fat, fs'.chains)
            && Find(SlotsAt(fs', d), 0, name) == (if EntryIndex(fs, d) + 1 < |SlotsAt(fs, d)| then Some(e) else None)
            && (forall n: CString :: IsUpper(n) && n != name ==>
                  Find(SlotsAt(fs', d), 0, n) == Find(SlotsAt(fs, d), 0, n))
            && (forall c :: c in fs.dirs ==> Kept(SlotsAt(fs, c), SlotsAt(fs', c)))
  {
    hide Covers, Disjoint, SlotsAt, Hit;
    var i, slots := EntryIndex(fs, d), SlotsAt(fs, d);
    EntryIndexIsFirstFree(fs, d);
    PutSlotAt(fs, d, i, e);
    FindAfterInsert(slots, i, e, 0, name);
    forall n: CString | IsUpper(n) && n != name ensures Find(slots[i := e], 0, n) == Find(slots, 0, n) {
      FindOtherAfterInsert(slots, i, e, 0, n);
    }
  }

  // ---------- a fresh directory cluster ----------

  function DotField(k: nat): (f: seq<byte>)
    requires k <= 8
    ensures |f| == 11
  {
    seq(11, i requires 0 <= i < 11 => if i < k then DOT else SPACE)
  }

  const DOT_NAME: CString := [DOT]
  const DOT_DOT_NAME: CString := [DOT, DOT]

  /** A new directory's cluster: "." and "..", then never-used slots. */
  function DirBytes(csize: nat, self: nat, parent: nat): (b: seq<byte>)
    requires csize >= 64
    ensures |b| == csize
  {
    MakeSlot(DotField(1), ATTR_DIRECTORY, self, 0, 0, 0)
    + MakeSlot(DotField(2), ATTR_DIRECTORY, parent, 0, 0, 0)
    + Zeros(csize - 64)
  }

  lemma DirBytesSlots(csize: nat, self: nat, parent: nat, dirs: set<nat>)
    requires csize >= 96 && csize % SLOT == 0 && self < 0x1_0000_0000 && parent < 0x1_0000_0000
    requires self in dirs && (parent == 0 || parent in dirs)
    ensures var slots := SlotsOf(DirBytes(csize, self, parent));
            && DirOk(slots, dirs)
            && Find(slots, 0, DOT_NAME).Some? && IsDirSlot(Find(slots, 0, DOT_NAME).value)
            && FirstCluster(Find(slots, 0, DOT_NAME).value) == self
            && Find(slots, 0, DOT_DOT_NAME).Some? && IsDirSlot(Find(slots, 0, DOT_DOT_NAME).value)
            && FirstCluster(Find(slots, 0, DOT_DOT_NAME).value) == parent
  {
    hide MakeSlot, FirstCluster, Hit;
    var a := MakeSlot(DotField(1), ATTR_DIRECTORY, self, 0, 0, 0);
    var b := MakeSlot(DotField(2), ATTR_DIRECTORY, parent, 0, 0, 0);
    var bytes, slots := DirBytes(csize, self, parent), SlotsOf(DirBytes(csize, self, parent));
    MakeSlotFields(DotField(1), ATTR_DIRECTORY, self, 0, 0, 0);
    MakeSlotFields(DotField(2), ATTR_DIRECTORY, parent, 0, 0, 0);
    assert slots[0] == a && slots[1] == b;
    forall k | 2 <= k < |slots| ensures slots[k][0] == 0 {
      assert slots[k][0] == bytes[k * SLOT];
    }
    DotHits(a, 1);
    DotHits(b, 2);
    assert Find(slots, 1, DOT_DOT_NAME) == Some(b);
  }

  /** The decoder reads k dots from such a field. */
  lemma DotHits(s: Slot, k: nat)
    requires 1 <= k <= 2 && NameField(s) == DotField(k) && Attributes(s) == ATTR_DIRECTORY
    ensures s[0] == DOT
    ensures Hit(s, DOT_NAME) <==> k == 1
    ensures Hit(s, DOT_DOT_NAME) <==> k == 2
  {
    var f, name := DotField(k), if k == 1 then DOT_NAME else DOT_DOT_NAME;
    assert s[0] == NameField(s)[0];
    assert f[..8][..k] == name;
    IndexOfIs(f[..8], SPACE, k);
    UpToNothing(name, 0);
    assert name + [] == name;
    assert Decode(f) == name;
    CaseCompareUpper(name, DOT_NAME);
    CaseCompareUpper(name, DOT_DOT_NAME);
  }

  /** The file system once the first free cluster holds an empty directory whose parent is d; no entry leads to it yet. */
  function NewDir(fs: Fs, d: nat): Fs
    requires Slotted(fs.vol) && FirstFree(fs.vol.fat) != 0
  {
    var n := FirstFree(fs.vol.fat);
    var bytes := DirBytes(fs.vol.csize, n, d);
    fs.(vol := fs.vol.(fat := fs.vol.fat[n := EOC], data := fs.vol.data[n := bytes]),
        chains := Rechain(fs.chains, 0, [n]))
  }

  /** Marking a free cluster as a one-cluster chain. */
  lemma MarkFree(fat: Fat, chains: ChainMap, n: nat)
    requires Sound(fat, chains) && n in FreeSet(fat)
    ensures FatOk(fat[n := EOC]) && Regrown(fat, fat[n := EOC], chains, 0, [n])
    ensures FreeSet(fat[n := EOC]) == FreeSet(fat) - {n}
  {
    hide EachIsChain, Covers, Disjoint;
  }

  lemma NewDirVol(fs: Fs, d: nat)
    requires FsOk(fs) && d in fs.dirs && FirstFree(fs.vol.fat) != 0
    ensures InRange(fs.vol.fat, d)
    ensures var (n, fs') := (FirstFree(fs.vol.fat), NewDir(fs, d));
            && Slotted(fs'.vol) && Sound(fs'.vol.fat, fs'.chains)
            && fs'.root == fs.root && fs'.dirs == fs.dirs && fs'.vol.csize == fs.vol.csize
            && |fs'.vol.fat| == |fs.vol.fat| && fs'.vol.data[d] == fs.vol.data[d]
            && InRange(fs.vol.fat, n) && n !in fs.chains && n in fs'.chains && fs'.chains[n] == [n]
            && FreeSet(fs'.vol.fat) == FreeSet(fs.vol.fat) - {n} && n in FreeSet(fs.vol.fat)
            && (forall c :: c in fs.chains ==> c in fs'.chains && fs'.chains[c] == fs.chains[c])
  {
    hide DirOk, EachIsChain, Covers, Disjoint, Rechain, Regrown, DirBytes, FirstFree;
    FirstFreeIsLeast(fs.vol.fat);
    ZeroIsNoStart(fs.vol.fat, fs.chains);
    var n := FirstFree(fs.vol.fat);
    MarkFree(fs.vol.fat, fs.chains, n);
    RechainSound(fs.vol.fat, fs.vol.fat[n := EOC], fs.chains, 0, [n]);
    RechainEach(fs.vol.fat, fs.vol.fat[n := EOC], fs.chains, 0, [n]);
  }

  lemma NewDirKeepsBytes(fs: Fs, fs': Fs, d: nat, c: nat)
    requires FsOk(fs) && d in fs.dirs && FirstFree(fs.vol.fat) != 0 && fs' == NewDir(fs, d)
    requires Slotted(fs'.vol) && EachIsChain(fs'.vol.fat, fs'.chains)
    requires c in fs.chains && c in fs'.chains && fs'.chains[c] == fs.chains[c]
    ensures ChainBytes(fs'.vol, fs.chains[c]) == ChainBytes(fs.vol, fs.chains[c])
    ensures SlotsAt(fs', c) == SlotsAt(fs, c)
  {
    hide DirOk, Covers, Disjoint, DirBytes, Rechain, FatOk;
    FirstFreeIsLeast(fs.vol.fat);
    ChainIsUsed(fs.vol.fat, fs.chains[c]);
    ChainBytesFramed(fs.vol, fs'.vol, fs.chains[c]);
  }

  lemma NewDirSlots(fs: Fs, fs': Fs, d: nat)
    requires Slotted(fs.vol) && FirstFree(fs.vol.fat) != 0 && fs' == NewDir(fs, d)
    requires Slotted(fs'.vol) && EachIsChain(fs'.vol.fat, fs'.chains)
    requires FirstFree(fs.vol.fat) in fs'.chains && fs'.chains[FirstFree(fs.vol.fat)] == [FirstFree(fs.vol.fat)]
    ensures fs.vol.csize >= 96
    ensures SlotsAt(fs', FirstFree(fs.vol.fat)) == SlotsOf(DirBytes(fs.vol.csize, FirstFree(fs.vol.fat), d))
  {
    hide DirBytes, Rechain, FatOk;
    var n := FirstFree(fs.vol.fat);
    FirstFreeIsLeast(fs.vol.fat);
    assert ChainBytes(fs'.vol, [n]) == fs'.vol.data[n] + ChainBytes(fs'.vol, [n][1..]);
    assert [n][1..] == [] && ChainBytes(fs'.vol, []) == [];
    assert fs'.vol.data[n] + [] == fs'.vol.data[n] == DirBytes(fs.vol.csize, n, d);
  }

  /** With or without an entry that leads to it, the new cluster leaves the file system well formed. */
  lemma NewDirKeepsFsOk(fs: Fs, fs': Fs, d: nat)
    requires FsOk(fs) && d in fs.dirs && FirstFree(fs.vol.fat) != 0 && fs' == NewDir(fs, d)
    ensures FsOk(fs') && FsOk(fs'.(dirs := fs.dirs + {FirstFree(fs.vol.fat)}))
  {
    hide DirOk, Covers, Disjoint, EachIsChain, DirBytes, SlotsOf, ChainSlots, FatOk;
    var n := FirstFree(fs.vol.fat);
    ZeroIsNoStart(fs.vol.fat, fs.chains);
    NewDirVol(fs, d);
    NewDirSlots(fs, fs', d);
    DirBytesSlots(fs.vol.csize, n, d, fs.dirs + {n});
    forall c | c in fs.dirs ensures DirOk(SlotsAt(fs', c), fs.dirs) && DirOk(SlotsAt(fs', c), fs.dirs + {n}) {
      NewDirKeepsBytes(fs, fs', d, c);
      DirOkMore(SlotsAt(fs, c), fs.dirs, fs.dirs + {n});
    }
  }

  lemma DirOkMore(slots: seq<Slot>, dirs: set<nat>, more: set<nat>)
    requires DirOk(slots, dirs) && dirs <= more
    ensures DirOk(slots, more)
  {
  }
}
