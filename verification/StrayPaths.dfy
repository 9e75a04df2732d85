/**
 Paths that go through an entry with cluster 0. The format writes 0 for the root into the entry ".." of the root's
 subdirectories; the source takes it for a cluster number and reads and writes sectors of the table.
 */
module StrayPaths {
  import opened Arith
  import opened Bytes
  import opened Volume
  import opened Chains
  import opened Names
  import opened Options
  import opened DirSlots
  import opened Directory
  import opened FsOps

  // ---------- when a path is resolved rightly ----------

  /** The directory that an entry means: cluster 0 is the root. */
  function MeantCluster(fs: Fs, s: Slot): nat {
    if FirstCluster(s) == 0 then fs.root else FirstCluster(s)
  }

  /** What a path means. */
  function Meant(fs: Fs, c: nat, p: CString): (r: Option<Target>)
    requires Slotted(fs.vol) && EachIsChain(fs.vol.fat, fs.chains)
    ensures r != Some(Astray)
    decreases |p|
  {
    var q := SkipSlashes(p);
    if q == [] then Some(Dir(c))
    else if c !in fs.chains then None
    else
      var k := ComponentLength(q, COMPONENT_MAX);
      match Find(SlotsAt(fs, c), 0, q[..k])
      case None => None
      case Some(s) =>
        if IsDirSlot(s) then Meant(fs, MeantCluster(fs, s), q[k..]) else Some(File(FirstCluster(s), FileSize(s)))
  }

  /** The walk takes a directory's entry with cluster 0. */
  predicate Strays(fs: Fs, c: nat, p: CString)
    requires Slotted(fs.vol) && EachIsChain(fs.vol.fat, fs.chains)
    decreases |p|
  {
    var q := SkipSlashes(p);
    q != [] && c in fs.chains
    && var k := ComponentLength(q, COMPONENT_MAX);
       match Find(SlotsAt(fs, c), 0, q[..k])
       case None => false
       case Some(s) => IsDirSlot(s) && (FirstCluster(s) == 0 || Strays(fs, FirstCluster(s), q[k..]))
  }

  /** fat32_open_file resolves a path rightly iff its walk takes no directory's entry with cluster 0. */
  lemma {:induction false} ResolvesRightlyIff(fs: Fs, c: nat, p: CString)
    requires Slotted(fs.vol) && EachIsChain(fs.vol.fat, fs.chains)
    ensures Resolve(fs, c, p) == Meant(fs, c, p) <==> !Strays(fs, c, p)
    ensures Strays(fs, c, p) <==> Resolve(fs, c, p) == Some(Astray)
    decreases |p|
  {
    hide Find, EachIsChain, SlotsAt, IsDirSlot, FirstCluster, FileSize;
    var q := SkipSlashes(p);
    if q != [] && c in fs.chains {
      var k := ComponentLength(q, COMPONENT_MAX);
      var r := Find(SlotsAt(fs, c), 0, q[..k]);
      if r.Some? && LeadsOn(r.value) {
        ResolvesRightlyIff(fs, FirstCluster(r.value), q[k..]);
      }
    }
  }

  /** No directory's entry holds cluster 0. */
  ghost predicate AllLeadOn(fs: Fs)
    requires Slotted(fs.vol) && EachIsChain(fs.vol.fat, fs.chains)
  {
    forall d, k :: d in fs.chains && 0 <= k < |SlotsAt(fs, d)| && !IsFreeSlot(SlotsAt(fs, d)[k]) && IsDirSlot(SlotsAt(fs, d)[k]) ==>
      FirstCluster(SlotsAt(fs, d)[k]) != 0
  }

  /** On such a volume every path is resolved rightly. */
  lemma {:induction false} NothingStrays(fs: Fs, c: nat, p: CString)
    requires Slotted(fs.vol) && EachIsChain(fs.vol.fat, fs.chains) && AllLeadOn(fs)
    ensures !Strays(fs, c, p)
    decreases |p|
  {
    hide Find, EachIsChain, SlotsAt, IsDirSlot, FirstCluster, IsFreeSlot;
    var q := SkipSlashes(p);
    if q != [] && c in fs.chains {
      var k := ComponentLength(q, COMPONENT_MAX);
      var r := Find(SlotsAt(fs, c), 0, q[..k]);
      if r.Some? {
        FoundIsLive(SlotsAt(fs, c), q[..k]);
        NothingStrays(fs, FirstCluster(r.value), q[k..]);
      }
    }
  }

  lemma FoundIsLive(slots: seq<Slot>, name: CString)
    ensures Find(slots, 0, name).Some? ==>
              exists k :: 0 <= k < |slots| && slots[k] == Find(slots, 0, name).value && !IsFreeSlot(slots[k])
  {
    FindIsFirstHit(slots, 0, name);
  }

  /** A path whose first component is followed by nothing or a slash. */
  lemma FirstStep(fs: Fs, c: nat, name: CString, rest: CString)
    requires Slotted(fs.vol) && EachIsChain(fs.vol.fat, fs.chains) && c in fs.chains && IsComponent(name)
    requires rest == [] || rest[0] == SLASH
    ensures var (p, r) := ([SLASH] + name + rest, Find(SlotsAt(fs, c), 0, name));
            && Resolve(fs, c, p) == (match r case None => None case Some(s) =>
                                       if LeadsOn(s) then Resolve(fs, FirstCluster(s), rest) else Some(TargetOf(s)))
            && Meant(fs, c, p) == (match r case None => None case Some(s) =>
                                     if IsDirSlot(s) then Meant(fs, MeantCluster(fs, s), rest)
                                     else Some(File(FirstCluster(s), FileSize(s))))
  {
    hide Find, SlotsAt, EachIsChain, IsDirSlot, FirstCluster, FileSize;
    var p := [SLASH] + name + rest;
    assert name[0] in name;
    assert p[1..] == name + rest;
    assert SkipSlashes(p) == name + rest;
    WholeComponent(name, COMPONENT_MAX);
    if rest == [] {
      assert name + rest == name;
    } else {
      ComponentLengthAppend(name, rest, COMPONENT_MAX);
    }
    assert (name + rest)[..|name|] == name && (name + rest)[|name|..] == rest;
  }

  /**
   So on every volume where SUB is a subdirectory of the root and its ".." holds 0, as the format has it, the path
   /SUB/../rest is astray, while it means what /rest means.
   */
  lemma DotDotOfRootStrays(fs: Fs, sub: CString, rest: CString)
    requires Slotted(fs.vol) && EachIsChain(fs.vol.fat, fs.chains) && fs.root in fs.chains && IsComponent(sub)
    requires rest == [] || rest[0] == SLASH
    requires var s := Find(SlotsAt(fs, fs.root), 0, sub); s.Some? && LeadsOn(s.value) && FirstCluster(s.value) in fs.chains
    requires var c := FirstCluster(Find(SlotsAt(fs, fs.root), 0, sub).value);
             var s := Find(SlotsAt(fs, c), 0, DOT_DOT_NAME); s.Some? && IsDirSlot(s.value) && FirstCluster(s.value) == 0
    ensures var p := [SLASH] + sub + ([SLASH] + DOT_DOT_NAME + rest);
            Resolve(fs, fs.root, p) == Some(Astray) && Meant(fs, fs.root, p) == Meant(fs, fs.root, rest)
  {
    hide Find, SlotsAt, EachIsChain, IsDirSlot, FirstCluster, Resolve, Meant;
    var c := FirstCluster(Find(SlotsAt(fs, fs.root), 0, sub).value);
    FirstStep(fs, fs.root, sub, [SLASH] + DOT_DOT_NAME + rest);
    FirstStep(fs, c, DOT_DOT_NAME, rest);
  }

  // ---------- what lies at cluster 0 ----------

  /** cluster_to_lba on 32 bits. */
  function SourceLba(g: Geometry, c: nat): nat {
    (g.dataStart + (c + 0x1_0000_0000 - 2) % 0x1_0000_0000 * g.sectorsPerCluster) % 0x1_0000_0000
  }

  lemma WrappedProduct(a: nat, k: nat)
    requires 2 * k <= a < 0x1_0000_0000
    ensures (a + (0x1_0000_0000 - 2) * k) % 0x1_0000_0000 == a - 2 * k
  {
    assert a + (0x1_0000_0000 - 2) * k == (a - 2 * k) + 0x1_0000_0000 * k;
  }

  /** The sectors of cluster 0 are sectors of the last copy of the table. */
  lemma ClusterZeroIsTable(g: Geometry, j: nat)
    requires g.Ok() && 2 * g.sectorsPerCluster <= g.fatSize && j < g.sectorsPerCluster && g.dataStart < 0x1_0000_0000
    ensures SourceLba(g, 0) + j == g.TableSector(g.fatCount - 1, g.fatSize - 2 * g.sectorsPerCluster + j) < g.dataStart
  {
    WrappedProduct(g.dataStart, g.sectorsPerCluster);
  }

  lemma SpansDiffer(a: seq<Sector>, b: seq<Sector>, lba: nat, n: nat)
    requires lba + n <= |a| && lba + n <= |b| && Span(a, lba, n) != Span(b, lba, n)
    ensures exists j :: lba <= j < lba + n && a[j] != b[j]
  {
    if forall p :: lba <= p < lba + n ==> a[p] == b[p] {
      SpanFramed(a, b, lba, n);
      assert false;
    }
  }

  /**
   Where a parent is astray, fat32_create and fat32_mkdir write a changed cluster 0 back: after that the copies of the
   table differ.
   */
  lemma WritingClusterZeroBreaksCopies(g: Geometry, disk: seq<Sector>, buf: seq<byte>)
    requires g.Fits(disk) && CopiesEqual(g, disk) && g.fatCount >= 2 && 2 * g.sectorsPerCluster <= g.fatSize
    requires |buf| == Times(g.sectorsPerCluster, SECTOR) && g.dataStart < 0x1_0000_0000
    ensures SourceLba(g, 0) + g.sectorsPerCluster <= |disk|
    ensures buf != Span(disk, SourceLba(g, 0), g.sectorsPerCluster) ==>
              !CopiesEqual(g, WriteSpan(disk, SourceLba(g, 0), g.sectorsPerCluster, buf))
  {
    hide SourceLba, WriteSpan, Span, Times, CopiesEqual;
    var lba, n := SourceLba(g, 0), g.sectorsPerCluster;
    ClusterZeroIsTable(g, n - 1);
    ClusterZeroIsTable(g, 0);
    if buf != Span(disk, lba, n) {
      var d := WriteSpan(disk, lba, n, buf);
      WriteSpanReadsBack(disk, lba, n, buf);
      SpansDiffer(d, disk, lba, n);
      var p :| lba <= p < lba + n && d[p] != disk[p];
      var k := g.fatSize - 2 * n + (p - lba);
      ClusterZeroIsTable(g, p - lba);
      g.TableSectorInTable(0, k);
      g.TableSectorsDisjoint(0, k, g.fatCount - 1, g.fatSize - 2 * n);
      WriteSpanOutside(disk, lba, n, buf, g.TableSector(0, k));
      SameInCopies(g, disk, k);
      CopiesApart(g, d, k);
    }
  }

  lemma SameInCopies(g: Geometry, disk: seq<Sector>, k: nat)
    requires g.Fits(disk) && CopiesEqual(g, disk) && k < g.fatSize
    ensures CopySector(g, disk, g.fatCount - 1, k) == CopySector(g, disk, 0, k)
  {
  }

  lemma CopiesApart(g: Geometry, disk: seq<Sector>, k: nat)
    requires g.Fits(disk) && k < g.fatSize && CopySector(g, disk, g.fatCount - 1, k) != CopySector(g, disk, 0, k)
    ensures !CopiesEqual(g, disk)
  {
  }
}
