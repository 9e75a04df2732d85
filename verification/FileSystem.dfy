/** The mounted file system: directory scans, path walks, and the operations that change the tree. */
module FileSystem {
  import opened Arith
  import opened Bytes
  import opened FatTable
  import opened FileSpec
  import opened Volume
  import opened Chains
  import opened Names
  import opened Options
  import opened CStrings
  import opened NameCodec
  import opened DirSlots
  import opened Directory
  import opened FsOps
  import opened PathOps

  /** Directory part and name of the path fit the buffers that the callers of split_path have. */
  predicate PathFits(path: CString) {
    |SplitPath(Upper(path)).0| <= 255 && |NameOf(path)| <= COMPONENT_MAX
  }

  /** A position inside a directory: slot k of its chain, byte coff of cluster q. */
  ghost predicate DirPosition(v: Vol, ch: seq<nat>, q: nat, coff: nat, k: nat)
    requires Slotted(v)
  {
    && q < |ch| && coff % SLOT == 0 && coff < v.csize
    && k * SLOT == Times(q, v.csize) + coff
  }

  lemma ChainSlotsCover(v: Vol, ch: seq<nat>)
    requires Slotted(v) && AllInRange(v.fat, ch)
    ensures |ChainSlots(v, ch)| * SLOT == Times(|ch|, v.csize)
    ensures forall k :: 0 <= k < |ChainSlots(v, ch)| ==>
              ChainSlots(v, ch)[k] == ChainBytes(v, ch)[k * SLOT..k * SLOT + SLOT]
  {
    hide ChainBytes, Times;
    TimesSlotted(|ch|, v.csize);
  }

  lemma PositionFacts(v: Vol, ch: seq<nat>, q: nat, coff: nat, k: nat)
    requires Slotted(v) && DirPosition(v, ch, q, coff, k)
    ensures VolOk(v) && q < |ch| && coff + SLOT <= v.csize && (coff + SLOT) % SLOT == 0
    ensures k * SLOT == Times(q, v.csize) + coff
  {
  }

  /** The slot at a position lies in the cluster's bytes at the offset. */
  lemma SlotAtPosition(v: Vol, ch: seq<nat>, q: nat, coff: nat, k: nat)
    requires Slotted(v) && IsChain(v.fat, ch) && DirPosition(v, ch, q, coff, k)
    ensures coff + SLOT <= v.csize && k < |ChainSlots(v, ch)|
    ensures ChainSlots(v, ch)[k] == v.data[ch[q]][coff..coff + SLOT]
  {
    hide ChainBytes, Times, ChainSlots, Slotted, DirPosition;
    PositionFacts(v, ch, q, coff, k);
    ClusterIsBlock(v, ch, q);
    ChainSlotsCover(v, ch);
    SliceSlice(ChainBytes(v, ch), Times(q, v.csize), v.csize, coff, SLOT);
  }

  lemma NextPosition(v: Vol, ch: seq<nat>, q: nat, coff: nat, k: nat)
    requires Slotted(v) && IsChain(v.fat, ch) && DirPosition(v, ch, q, coff, k)
    ensures if coff + SLOT < v.csize then DirPosition(v, ch, q, coff + SLOT, k + 1) && k + 1 < |ChainSlots(v, ch)|
            else if q + 1 < |ch| then DirPosition(v, ch, q + 1, 0, k + 1) && k + 1 < |ChainSlots(v, ch)|
            else k + 1 == |ChainSlots(v, ch)|
    ensures q + 1 < |ch| ==> Next(v.fat, ch[q]) == ch[q + 1] && InRange(v.fat, ch[q + 1])
    ensures q + 1 == |ch| ==> Next(v.fat, ch[q]) == 0
  {
    PositionFacts(v, ch, q, coff, k);
    NextInChain(v.fat, ch, q);
    hide ChainBytes, ChainSlots, Slotted, IsChain, Next;
    ChainSlotsCover(v, ch);
    TimesMono(q + 1, |ch|, v.csize);
    if q + 1 < |ch| {
      TimesMono(q + 2, |ch|, v.csize);
    }
  }

  lemma NextInChain(fat: Fat, ch: seq<nat>, q: nat)
    requires IsChain(fat, ch) && q < |ch| && FatOk(fat)
    ensures q + 1 < |ch| ==> Next(fat, ch[q]) == ch[q + 1] && InRange(fat, ch[q + 1])
    ensures q + 1 == |ch| ==> Next(fat, ch[q]) == 0
  {
  }

  class FatFileSystem {
    const vol: MountedVolume
    ghost var chains: ChainMap
    ghost var dirs: set<nat>

    ghost function Fs(): Directory.Fs
      requires vol.Valid()
      reads this, vol
    {
      Directory.Fs(vol.Abs(), chains, dirs, vol.g.rootCluster)
    }

    ghost predicate Valid()
      reads this, vol
    {
      vol.Valid() && FsOk(Fs())
    }

    constructor (vol: MountedVolume, ghost chains: ChainMap, ghost dirs: set<nat>)
      requires vol.Valid() && FsOk(Directory.Fs(vol.Abs(), chains, dirs, vol.g.rootCluster))
      ensures Valid() && this.vol == vol && Fs() == Directory.Fs(vol.Abs(), chains, dirs, vol.g.rootCluster)
    {
      hide MountedVolume.Valid, MountedVolume.Abs, FsOk;
      this.vol := vol;
      this.chains, this.dirs := chains, dirs;
    }

    /**
     fat32_read_dir: the next entry from cluster cur, offset coff. The position moves past every slot looked
     at; when stepping past a slot ends the chain, that slot is not reported.
     */
    method ReadDir(cur: nat, coff: nat, ghost ch: seq<nat>, ghost q: nat, ghost k: nat)
      returns (entry: Option<Slot>, cur': nat, coff': nat, ghost q': nat, ghost k': nat)
      requires vol.Valid() && Slotted(vol.Abs()) && IsChain(vol.Abs().fat, ch)
      requires DirPosition(vol.Abs(), ch, q, coff, k) && cur == ch[q]
      ensures k < |ChainSlots(vol.Abs(), ch)|
      ensures entry == match NextEntry(ChainSlots(vol.Abs(), ch), k) case None => None case Some((s, _)) => Some(s)
      ensures k' == match NextEntry(ChainSlots(vol.Abs(), ch), k)
                    case None => ScanEnd(ChainSlots(vol.Abs(), ch), k)
                    case Some((_, next)) => next
      ensures if k' < |ChainSlots(vol.Abs(), ch)| then DirPosition(vol.Abs(), ch, q', coff', k') && cur' == ch[q']
              else cur' == 0 && coff' == vol.Abs().csize
    {
      hide MountedVolume.Valid, MountedVolume.Abs, ChainSlots, Times;
      ghost var v, slots := vol.Abs(), ChainSlots(vol.Abs(), ch);
      cur', coff', q', k' := cur, coff, q, k;
      var clusterSize := SECTOR * vol.g.sectorsPerCluster;
      ClusterSizeIs(vol);
      SlotAtPosition(v, ch, q, coff, k);
      while true
        invariant DirPosition(v, ch, q', coff', k') && cur' == ch[q'] && k' < |slots|
        invariant NextEntry(slots, k') == NextEntry(slots, k) && ScanEnd(slots, k') == ScanEnd(slots, k)
        decreases |slots| - k'
      {
        SlotAtPosition(v, ch, q', coff', k');
        NextPosition(v, ch, q', coff', k');
        var cluster := vol.ReadCluster(cur');
        var slot: Slot := cluster[coff'..coff' + SLOT];
        if slot[0] == 0 {
          return None, cur', coff', q', k';
        }
        coff' := coff' + SLOT;
        if coff' >= clusterSize {
          cur' := vol.NextCluster(cur');
          if cur' == 0 {
            return None, cur', coff', q', k' + 1;
          }
          coff', q' := 0, q' + 1;
        }
        k' := k' + 1;
        if slot[0] == DELETED || Attributes(slot) == ATTR_LONG_NAME {
          continue;
        }
        return Some(slot), cur', coff', q', k';
      }
    }

    /** fat32_find_file. */
    method FindFile(start: nat, name: CString, ghost ch: seq<nat>) returns (entry: Option<Slot>)
      requires vol.Valid() && Slotted(vol.Abs()) && IsChain(vol.Abs().fat, ch) && start == ch[0]
      ensures entry == Find(ChainSlots(vol.Abs(), ch), 0, name)
    {
      hide MountedVolume.Valid, MountedVolume.Abs, ChainSlots, NextEntry, Find, DirPosition, Decode, CaseCompare;
      ghost var slots := ChainSlots(vol.Abs(), ch);
      var cur: nat, coff: nat := start, 0;
      ghost var q: nat, k: nat := 0, 0;
      DirStart(vol.Abs(), ch);
      while true
        invariant DirPosition(vol.Abs(), ch, q, coff, k) && q < |ch| && cur == ch[q] && k < |slots|
        invariant Find(slots, k, name) == Find(slots, 0, name)
        decreases |slots| - k
      {
        FindByNextEntry(slots, k, name);
        var de;
        ghost var before := k;
        de, cur, coff, q, k := ReadDir(cur, coff, ch, q, k);
        NextEntryMoves(slots, before);
        if de == None {
          return None;
        }
        PositionInChain(vol.Abs(), ch, q, coff, k);
        var s := de.value;
        if s[0] == DELETED || Attributes(s) == ATTR_VOLUME_ID || Attributes(s) == ATTR_LONG_NAME {
          continue;
        }
        var entryName := DecodeName(s[..11]);
        var order := StrCaseCmp(entryName, name);
        if order == 0 {
          return Some(s);
        }
      }
    }

    /** The component walk of fat32_open_file. */
    method WalkPath(path: CString) returns (target: Option<Target>)
      requires Valid()
      ensures target == Resolve(Fs(), vol.g.rootCluster, path)
    {
      hide MountedVolume.Valid, MountedVolume.Abs, DirOk, Covers, Disjoint, ChainSlots, Find, SkipSlashes, ComponentLength;
      var p := path;
      var current: nat := vol.g.rootCluster;
      ghost var fs := Fs();
      while p != []
        invariant vol.Valid() && Fs() == fs && current in dirs
        invariant Resolve(fs, current, p) == Resolve(fs, vol.g.rootCluster, path)
        decreases |p|
      {
        ResolveUnfolds(fs, current, p);
        var q := DropSlashes(p);
        if q == [] {
          break;
        }
        var component, rest := TakeComponent(q);
        FindInSlots(SlotsAt(fs, current), 0, component, dirs);
        var entry := FindFile(current, component, chains[current]);
        if entry == None {
          return None;
        }
        if IsDirSlot(entry.value) {
          if FirstCluster(entry.value) == 0 {
            return Some(Astray);
          }
          current, p := FirstCluster(entry.value), rest;
        } else {
          return Some(Target.File(FirstCluster(entry.value), FileSize(entry.value)));
        }
      }
      ResolveUnfolds(fs, current, []);
      target := Some(Dir(current));
    }

    /** fat32_open_file, as far as finding the entry goes; the caller's string becomes upper-case. */
    method OpenPath(path: array<byte>) returns (target: Option<Target>)
      requires Valid() && Terminated(path[..], 0)
      modifies path
      ensures Valid() && path[..] == UpperCased(old(path[..]))
      ensures target == Open(Fs(), StrAt(old(path[..]), 0))
    {
      hide MountedVolume.Valid, MountedVolume.Abs, FsOk, Resolve, StrAt, Terminated, UpperCased;
      var n := StrToUpper(path);
      target := WalkPath(path[..n]);
    }

    /** create_direntry: scan the first cluster for a free slot, compose the entry there, and write the cluster back. */
    method CreateDirEntry(d: nat, name: CString, attributes: byte, cluster: nat, size: nat, stamp: Stamp) returns (ok: bool)
      requires vol.Valid() && Slotted(vol.Abs()) && InRange(vol.Abs().fat, d)
      modifies vol
      ensures vol.Valid()
      ensures match CreateEntry(old(vol.Abs()), d, MakeSlot(Encode(name), attributes, cluster, size, stamp.time, stamp.date))
              case None => !ok && vol.Abs() == old(vol.Abs())
              case Some(w) => ok && vol.Abs() == w
    {
      hide MountedVolume.Valid, MountedVolume.Abs, MakeSlot, Encode;
      var clusterSize := SECTOR * vol.g.sectorsPerCluster;
      ClusterSizeIs(vol);
      var bytes := vol.ReadCluster(d);
      ghost var slots := ClusterSlots(vol.Abs(), d);
      var i: nat := 0;
      while i < clusterSize
        invariant i % SLOT == 0 && i <= clusterSize && vol.Valid() && vol.Abs() == old(vol.Abs())
        invariant FirstFreeSlot(slots, i / SLOT) == FirstFreeSlot(slots, 0)
      {
        assert bytes[i..i + SLOT] == slots[i / SLOT];
        if bytes[i] == 0 || bytes[i] == DELETED {
          var field := EncodeName(name);
          var slot := MakeSlot(field, attributes, cluster, size, stamp.time, stamp.date);
          vol.WriteCluster(d, bytes[..i] + slot + bytes[i + SLOT..]);
          return true;
        }
        i := i + SLOT;
      }
      ok := false;
    }

    /** Cut the path and open its directory part; the callers' buffers hold 255 and 12 characters. */
    method OpenParent(path: array<byte>) returns (parent: Option<nat>, name: CString)
      requires Valid() && Terminated(path[..], 0) && PathFits(StrAt(path[..], 0))
      modifies path
      ensures Valid() && path[..] == UpperCased(old(path[..]))
      ensures parent == ParentOf(Fs(), StrAt(old(path[..]), 0)) && name == NameOf(StrAt(old(path[..]), 0))
      ensures parent.Some? ==> parent.value in dirs && InRange(vol.Abs().fat, parent.value)
    {
      hide MountedVolume.Valid, MountedVolume.Abs, DirOk, Covers, Disjoint, ChainSlots, Resolve, StrAt, Terminated, UpperCased;
      ghost var s := StrAt(path[..], 0);
      var n := StrToUpper(path);
      var upper: CString := path[..n];
      var i := FindLastSlash(upper);
      var front: CString;
      if i < 0 {
        front, name := [], upper;
      } else if i == 0 {
        front, name := [SLASH], upper[1..];
      } else {
        front, name := upper[..i], upper[i + 1..];
      }
      ParentInDirs(Fs(), s);
      var target := WalkPath(front);
      parent := match target case Some(Dir(d)) => Some(d) case _ => None;
    }

    /** fat32_create. */
    method Create(path: array<byte>, stamp: Stamp) returns (ok: bool)
      requires Valid() && Terminated(path[..], 0) && PathFits(StrAt(path[..], 0)) && OnCourse(Fs(), StrAt(path[..], 0))
      modifies vol, path
      ensures Valid() && path[..] == UpperCased(old(path[..]))
      ensures (ok, Fs()) == CreateRun(old(Fs()), StrAt(old(path[..]), 0), stamp)
    {
      hide MountedVolume.Valid, MountedVolume.Abs, FsOk, NameOf, ParentOf, CreateEntry, MakeSlot, OnCourse,
           StrAt, Terminated, UpperCased, PathFits;
      ghost var fs := Fs();
      assert FsOk(fs);
      CreateKeepsFsOk(fs, StrAt(path[..], 0), stamp);
      FsParts(fs);
      var parent, name := OpenParent(path);
      if parent == None {
        return false;
      }
      ok := CreateDirEntry(parent.value, name, ATTR_ARCHIVE, 0, 0, stamp);
    }

    /** fat32_mkdir. */
    method Mkdir(path: array<byte>, stamp: Stamp) returns (ok: bool)
      requires Valid() && Terminated(path[..], 0) && PathFits(StrAt(path[..], 0)) && OnCourse(Fs(), StrAt(path[..], 0))
      modifies vol, `chains, `dirs, path
      ensures Valid() && path[..] == UpperCased(old(path[..]))
      ensures (ok, Fs()) == MkdirRun(old(Fs()), StrAt(old(path[..]), 0), stamp)
    {
      hide MountedVolume.Valid, MountedVolume.Abs, FsOk, NameOf, ParentOf, CreateEntry, MakeSlot, DirBytes, OnCourse,
           StrAt, Terminated, UpperCased, PathFits, FirstFree;
      ghost var fs := Fs();
      assert FsOk(fs);
      MkdirKeepsFsOk(fs, StrAt(path[..], 0), stamp);
      FsParts(fs);
      var parent, name := OpenParent(path);
      if parent == None {
        return false;
      }
      var n := vol.FindFreeCluster();
      if n == 0 {
        return false;
      }
      NewDirKeepsFsOk(fs, NewDir(fs, parent.value), parent.value);
      FirstFreeIsLeast(vol.Abs().fat);
      vol.SetFatEntry(n, EOC);
      var clusterSize := SECTOR * vol.g.sectorsPerCluster;
      ClusterSizeIs(vol);
      var bytes := DirBytes(clusterSize, n, parent.value);
      vol.WriteCluster(n, bytes);
      chains := Rechain(chains, 0, [n]);
      assert Fs() == NewDir(fs, parent.value);
      FsParts(Fs());
      ok := CreateDirEntry(parent.value, name, ATTR_DIRECTORY, n, 0, stamp);
      if ok {
        dirs := dirs + {n};
      }
    }

    /** fat32_update_file_entry: scan the first cluster of the parent for the name and rewrite that entry. */
    method UpdateFileEntry(path: array<byte>, start: nat, size: nat, stamp: Stamp) returns (ok: bool)
      requires Valid() && Terminated(path[..], 0) && PathFits(StrAt(path[..], 0)) && OnCourse(Fs(), StrAt(path[..], 0))
      modifies vol, path
      ensures vol.Valid() && path[..] == UpperCased(old(path[..]))
      ensures (ok, Fs()) == UpdateRun(old(Fs()), StrAt(old(path[..]), 0), start, size, stamp)
    {
      hide MountedVolume.Valid, MountedVolume.Abs, FsOk, NameOf, ParentOf, UpdatedSlot, OnCourse;
      ghost var fs := Fs();
      assert FsOk(fs);
      FsParts(fs);
      var parent, name := OpenParent(path);
      if parent == None {
        return false;
      }
      ok := RewriteDirEntry(parent.value, name, start, size, stamp);
    }

    method RewriteDirEntry(d: nat, name: CString, start: nat, size: nat, stamp: Stamp) returns (ok: bool)
      requires vol.Valid() && Slotted(vol.Abs()) && InRange(vol.Abs().fat, d)
      modifies vol
      ensures vol.Valid()
      ensures match UpdateEntry(old(vol.Abs()), d, name, start, size, stamp.time, stamp.date)
              case None => !ok && vol.Abs() == old(vol.Abs())
              case Some(w) => ok && vol.Abs() == w
    {
      hide MountedVolume.Valid, MountedVolume.Abs, UpdatedSlot, Decode, CaseCompare;
      ghost var slots := ClusterSlots(vol.Abs(), d);
      var bytes := vol.ReadCluster(d);
      var count := vol.g.sectorsPerCluster * (SECTOR / SLOT);
      ClusterSizeIs(vol);
      for i := 0 to count
        invariant vol.Valid() && vol.Abs() == old(vol.Abs()) && i <= |slots| == count
        invariant UpdateIndex(slots, i, name) == UpdateIndex(slots, 0, name)
      {
        var slot: Slot := bytes[i * SLOT..i * SLOT + SLOT];
        assert slot == slots[i];
        if slot[0] == 0 || slot[0] == DELETED {
          continue;
        }
        var entryName := DecodeName(slot[..11]);
        var order := StrCaseCmp(entryName, name);
        if order == 0 {
          var updated := UpdatedSlot(slot, start, size, stamp.time, stamp.date);
          vol.WriteCluster(d, bytes[..i * SLOT] + updated + bytes[i * SLOT + SLOT..]);
          return true;
        }
      }
      ok := false;
    }
  }

  lemma FsParts(fs: Directory.Fs)
    requires FsOk(fs)
    ensures Slotted(fs.vol) && EachIsChain(fs.vol.fat, fs.chains)
  {
  }

  // ---------- pieces of a path ----------

  method DropSlashes(p: CString) returns (q: CString)
    ensures q == SkipSlashes(p)
  {
    q := p;
    while q != [] && q[0] == SLASH
      invariant SkipSlashes(q) == SkipSlashes(p)
      decreases |q|
    {
      q := q[1..];
    }
  }

  method TakeComponent(p: CString) returns (component: CString, rest: CString)
    ensures component == p[..ComponentLength(p, COMPONENT_MAX)] && rest == p[ComponentLength(p, COMPONENT_MAX)..]
  {
    var i := 0;
    while i < |p| && p[i] != SLASH && i < COMPONENT_MAX
      invariant i <= |p| && i <= COMPONENT_MAX
      invariant ComponentLength(p, COMPONENT_MAX) == i + ComponentLength(p[i..], COMPONENT_MAX - i)
    {
      i := i + 1;
    }
    component, rest := p[..i], p[i..];
  }

  lemma ResolveUnfolds(fs: Directory.Fs, c: nat, p: CString)
    requires Slotted(fs.vol) && EachIsChain(fs.vol.fat, fs.chains) && c in fs.chains
    ensures var q := SkipSlashes(p);
            if q == [] then Resolve(fs, c, p) == Some(Dir(c))
            else
              var k := ComponentLength(q, COMPONENT_MAX);
              var r := Find(SlotsAt(fs, c), 0, q[..k]);
              && |q[k..]| < |p|
              && Resolve(fs, c, p) ==
                 match r
                 case None => None
                 case Some(s) =>
                   if LeadsOn(s) then Resolve(fs, FirstCluster(s), q[k..]) else Some(TargetOf(s))
    ensures p == [] ==> SkipSlashes(p) == []
  {
  }

  lemma DirStart(v: Vol, ch: seq<nat>)
    requires Slotted(v) && IsChain(v.fat, ch)
    ensures DirPosition(v, ch, 0, 0, 0) && 0 < |ChainSlots(v, ch)|
  {
  }

  lemma PositionInChain(v: Vol, ch: seq<nat>, q: nat, coff: nat, k: nat)
    requires Slotted(v) && DirPosition(v, ch, q, coff, k)
    ensures q < |ch|
  {
  }

  lemma NextEntryMoves(slots: seq<Slot>, k: nat)
    ensures NextEntry(slots, k).Some? ==> k < NextEntry(slots, k).value.1 < |slots|
  {
  }

  lemma ClusterSizeIs(vol: MountedVolume)
    requires vol.Valid()
    ensures SECTOR * vol.g.sectorsPerCluster == vol.Abs().csize
  {
    TimesIsProduct(vol.g.sectorsPerCluster, SECTOR);
  }
}
