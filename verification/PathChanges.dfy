/**
 What a new entry does to the paths that there are. The source never looks whether the name exists: the entry goes
 to the first free slot, and hides an older one of that name exactly when the slot lies before it.
 */
module PathChanges {
  import opened FatTable
  import opened Chains
  import opened Names
  import opened Options
  import opened DirSlots
  import opened Directory
  import opened FsOps
  import opened PathOps

  // ---------- one directory ----------

  /** Where the search of fat32_find_file finds the name; the number of slots when it does not. */
  function FindIndex(slots: seq<Slot>, k: nat, name: CString): (i: nat)
    ensures i < |slots| ==> k <= i < |slots| - 1
    decreases |slots| - k
  {
    if k + 1 >= |slots| || slots[k][0] == 0 then |slots|
    else if Hit(slots[k], name) then k
    else FindIndex(slots, k + 1, name)
  }

  lemma {:induction false} FindIsAtIndex(slots: seq<Slot>, k: nat, name: CString)
    ensures var i := FindIndex(slots, k, name);
            Find(slots, k, name) == if i < |slots| then Some(slots[i]) else None
    decreases |slots| - k
  {
    if k + 1 < |slots| {
      FindIsAtIndex(slots, k + 1, name);
    }
  }

  lemma {:induction false} FindBehind(slots: seq<Slot>, i: nat, e: Slot, k: nat, name: CString)
    requires i < k && i < |slots|
    ensures Find(slots[i := e], k, name) == Find(slots, k, name)
    decreases |slots| - k
  {
    if k + 1 < |slots| {
      FindBehind(slots, i, e, k + 1, name);
    }
  }

  /** The new entry is in front of whatever the search for the name found. */
  predicate Hides(slots: seq<Slot>, i: nat, e: Slot, name: CString) {
    Hit(e, name) && i < FindIndex(slots, 0, name) && i + 1 < |slots|
  }

  /** A search after the first free slot was filled finds the new entry iff that hides what it found before. */
  lemma {:induction false} FindAfterEntry(slots: seq<Slot>, i: nat, e: Slot, k: nat, name: CString)
    requires TailUnused(slots) && k <= i < |slots| && e[0] != 0
    requires IsFreeSlot(slots[i]) && (forall j :: 0 <= j < i ==> !IsFreeSlot(slots[j]))
    ensures Find(slots[i := e], k, name) ==
            if Hit(e, name) && i < FindIndex(slots, k, name) && i + 1 < |slots| then Some(e) else Find(slots, k, name)
    decreases i - k
  {
    hide Hit;
    if k < i {
      FindAfterEntry(slots, i, e, k + 1, name);
    } else if i + 1 < |slots| {
      FreeIsNoHit(slots[i], name);
      FindBehind(slots, i, e, i + 1, name);
    }
  }

  lemma FreeIsNoHit(s: Slot, name: CString)
    requires IsFreeSlot(s)
    ensures !Hit(s, name)
  {
  }

  // ---------- paths ----------

  /** The walk of the path searches directory d for a name that the entry in slot i hides. */
  predicate Meets(fs: Fs, d: nat, i: nat, e: Slot, c: nat, p: CString)
    requires Slotted(fs.vol) && EachIsChain(fs.vol.fat, fs.chains)
    decreases |p|
  {
    var q := SkipSlashes(p);
    q != [] && c in fs.chains
    && var k := ComponentLength(q, COMPONENT_MAX);
       var r := Find(SlotsAt(fs, c), 0, q[..k]);
       || (c == d && Hides(SlotsAt(fs, d), i, e, q[..k]))
       || (r.Some? && LeadsOn(r.value) && Meets(fs, d, i, e, FirstCluster(r.value), q[k..]))
  }

  /** Directories with the same slots resolve alike. */
  lemma {:induction false} ResolveSame(fs: Fs, fs': Fs, c: nat, p: CString)
    requires FsOk(fs) && Slotted(fs'.vol) && EachIsChain(fs'.vol.fat, fs'.chains) && c in fs.dirs
    requires forall d :: d in fs.dirs ==> d in fs'.chains && SlotsAt(fs', d) == SlotsAt(fs, d)
    ensures Resolve(fs', c, p) == Resolve(fs, c, p)
    decreases |p|
  {
    hide Find, DirOk, EachIsChain, Disjoint, Covers, FirstCluster, LeadsOn, TargetOf, ChainSlots;
    var q := SkipSlashes(p);
    if q != [] {
      var k := ComponentLength(q, COMPONENT_MAX);
      var r := Find(SlotsAt(fs, c), 0, q[..k]);
      FindInSlots(SlotsAt(fs, c), 0, q[..k], fs.dirs);
      if r.Some? && LeadsOn(r.value) {
        ResolveSame(fs, fs', FirstCluster(r.value), q[k..]);
      }
    }
  }

  /** fs' is fs with the entry in the first free slot of directory d. */
  ghost predicate Entered(fs: Fs, d: nat, i: nat, e: Slot, fs': Fs)
    requires Slotted(fs.vol) && EachIsChain(fs.vol.fat, fs.chains)
    requires Slotted(fs'.vol) && EachIsChain(fs'.vol.fat, fs'.chains)
  {
    && d in fs.dirs && fs.dirs <= fs.chains.Keys && fs.dirs <= fs'.chains.Keys && i < |SlotsAt(fs, d)|
    && e[0] != 0 && IsFreeSlot(SlotsAt(fs, d)[i]) && (forall j :: 0 <= j < i ==> !IsFreeSlot(SlotsAt(fs, d)[j]))
    && SlotsAt(fs', d) == SlotsAt(fs, d)[i := e]
    && forall c :: c in fs.dirs && c != d ==> SlotsAt(fs', c) == SlotsAt(fs, c)
  }

  lemma EnteredFind(fs: Fs, d: nat, i: nat, e: Slot, fs': Fs, c: nat, name: CString)
    requires FsOk(fs) && Slotted(fs'.vol) && EachIsChain(fs'.vol.fat, fs'.chains) && Entered(fs, d, i, e, fs') && c in fs.dirs
    ensures Find(SlotsAt(fs', c), 0, name) ==
            if c == d && Hides(SlotsAt(fs, d), i, e, name) then Some(e) else Find(SlotsAt(fs, c), 0, name)
  {
    hide Find, EachIsChain, Disjoint, Covers, ChainSlots, FindIndex, Hit;
    if c == d {
      assert DirOk(SlotsAt(fs, d), fs.dirs);
      FindAfterEntry(SlotsAt(fs, d), i, e, 0, name);
    }
  }

  /** After a new entry every path resolves as before, or, where its walk meets the entry, as a file's entry says. */
  lemma {:induction false} ResolveAfterEntry(fs: Fs, d: nat, i: nat, e: Slot, fs': Fs, c: nat, p: CString)
    requires FsOk(fs) && Slotted(fs'.vol) && EachIsChain(fs'.vol.fat, fs'.chains) && Entered(fs, d, i, e, fs') && c in fs.dirs
    ensures !Meets(fs, d, i, e, c, p) ==> Resolve(fs', c, p) == Resolve(fs, c, p)
    ensures Meets(fs, d, i, e, c, p) && !LeadsOn(e) ==> Resolve(fs', c, p) == Some(TargetOf(e))
    decreases |p|
  {
    hide Find, DirOk, EachIsChain, Disjoint, Covers, FirstCluster, LeadsOn, TargetOf, ChainSlots, Entered, Hides;
    var q := SkipSlashes(p);
    if q != [] {
      var k := ComponentLength(q, COMPONENT_MAX);
      var r := Find(SlotsAt(fs, c), 0, q[..k]);
      EnteredFind(fs, d, i, e, fs', c, q[..k]);
      EnteredDirs(fs, d, i, e, fs');
      FindInSlots(SlotsAt(fs, c), 0, q[..k], fs.dirs);
      if r.Some? && LeadsOn(r.value) {
        ResolveAfterEntry(fs, d, i, e, fs', FirstCluster(r.value), q[k..]);
      }
    }
  }

  lemma EnteredDirs(fs: Fs, d: nat, i: nat, e: Slot, fs': Fs)
    requires Slotted(fs.vol) && EachIsChain(fs.vol.fat, fs.chains)
    requires Slotted(fs'.vol) && EachIsChain(fs'.vol.fat, fs'.chains) && Entered(fs, d, i, e, fs')
    ensures fs.dirs <= fs.chains.Keys && fs.dirs <= fs'.chains.Keys
  {
  }

  // ---------- creating over names ----------

  /** The entry that fat32_create makes is a file's. */
  lemma FileSlotIsFile(name: CString, stamp: Stamp)
    ensures var e := FileSlot(name, stamp); e[0] != 0 && !LeadsOn(e) && TargetOf(e) == File(0, 0)
  {
    var e := FileSlot(name, stamp);
    EncodedNameNotZero(name);
    assert e[0] == e[..11][0];
    MakeSlotFields(Encode(name), ATTR_ARCHIVE, 0, 0, stamp.time, stamp.date);
  }

  lemma CreateEnters(fs: Fs, path: CString, stamp: Stamp)
    requires FsOk(fs) && OnCourse(fs, path) && CreateRun(fs, path, stamp).0
    ensures var fs' := CreateRun(fs, path, stamp).1;
            && ParentOf(fs, path).Some? && InRange(fs.vol.fat, ParentOf(fs, path).value)
            && Slotted(fs'.vol) && EachIsChain(fs'.vol.fat, fs'.chains) && fs'.root == fs.root
            && Entered(fs, ParentOf(fs, path).value, EntryIndex(fs, ParentOf(fs, path).value), FileSlot(NameOf(path), stamp), fs')
  {
    hide DirOk, Covers, Disjoint, EachIsChain, FatOk, ChainSlots, Resolve, NameOf, FirstFreeSlot, FileSlot, IsFreeSlot;
    ParentInDirs(fs, path);
    var d := ParentOf(fs, path).value;
    FileSlotIsFile(NameOf(path), stamp);
    EntryIndexIsFirstFree(fs, d);
    PutSlotAt(fs, d, EntryIndex(fs, d), FileSlot(NameOf(path), stamp));
  }

  /**
   What every path opens as after fat32_create, whatever the new name: as before, or as the new empty file exactly
   when its walk meets the new entry.
   */
  lemma OpensAfterCreate(fs: Fs, path: CString, stamp: Stamp, q: CString)
    requires FsOk(fs) && OnCourse(fs, path) && CreateRun(fs, path, stamp).0
    ensures var fs' := CreateRun(fs, path, stamp).1;
            && ParentOf(fs, path).Some? && InRange(fs.vol.fat, ParentOf(fs, path).value)
            && Slotted(fs'.vol) && EachIsChain(fs'.vol.fat, fs'.chains)
            && var d := ParentOf(fs, path).value;
               Open(fs', q) == if Meets(fs, d, EntryIndex(fs, d), FileSlot(NameOf(path), stamp), fs.root, Upper(q)) then Some(File(0, 0))
                               else Open(fs, q)
  {
    hide DirOk, Covers, Disjoint, EachIsChain, FatOk, ChainSlots, Resolve, NameOf, EntryIndex, FileSlot, CreateRun, Meets, Entered,
         OnCourse, ParentOf;
    CreateEnters(fs, path, stamp);
    FileSlotIsFile(NameOf(path), stamp);
    var d := ParentOf(fs, path).value;
    ResolveAfterEntry(fs, d, EntryIndex(fs, d), FileSlot(NameOf(path), stamp), CreateRun(fs, path, stamp).1, fs.root, Upper(q));
  }

  lemma MeetsAtName(fs: Fs, d: nat, i: nat, e: Slot, name: CString)
    requires Slotted(fs.vol) && EachIsChain(fs.vol.fat, fs.chains) && d in fs.chains && IsComponent(name)
    ensures Meets(fs, d, i, e, d, [SLASH] + name) <==> Hides(SlotsAt(fs, d), i, e, name)
  {
    hide Find, SlotsAt, LeadsOn, FirstCluster, EachIsChain, Hides;
    var tail := [SLASH] + name;
    assert name[0] in name && tail[1..] == name && SkipSlashes(tail) == name;
    WholeComponent(name, COMPONENT_MAX);
    assert name[..|name|] == name && name[|name|..] == [];
    assert forall x :: !Meets(fs, d, i, e, x, []);
  }

  lemma MeetsSkips(fs: Fs, d: nat, i: nat, e: Slot, c: nat, p: CString, q: CString)
    requires Slotted(fs.vol) && EachIsChain(fs.vol.fat, fs.chains) && SkipSlashes(p) == SkipSlashes(q)
    ensures Meets(fs, d, i, e, c, p) == Meets(fs, d, i, e, c, q)
  {
    hide Find, SlotsAt, LeadsOn, FirstCluster, EachIsChain, Hides;
  }

  /** The first component of a path that leads to a directory. */
  lemma ResolveOneStep(fs: Fs, c: nat, p: CString, d: nat)
    requires Slotted(fs.vol) && EachIsChain(fs.vol.fat, fs.chains) && Resolve(fs, c, p) == Some(Dir(d))
    ensures var q := SkipSlashes(p);
            if q == [] then c == d
            else
              var k := ComponentLength(q, COMPONENT_MAX);
              && c in fs.chains
              && var r := Find(SlotsAt(fs, c), 0, q[..k]);
                 r.Some? && LeadsOn(r.value) && |q[k..]| < |p| && Resolve(fs, FirstCluster(r.value), q[k..]) == Some(Dir(d))
  {
    hide Find, SlotsAt, FirstCluster, EachIsChain;
  }

  lemma MeetsOneStep(fs: Fs, d: nat, i: nat, e: Slot, c: nat, p: CString)
    requires Slotted(fs.vol) && EachIsChain(fs.vol.fat, fs.chains) && c in fs.chains && SkipSlashes(p) != []
    ensures var q := SkipSlashes(p);
            var k := ComponentLength(q, COMPONENT_MAX);
            var r := Find(SlotsAt(fs, c), 0, q[..k]);
            && (r.Some? && LeadsOn(r.value) ==>
                  (Meets(fs, d, i, e, c, p) <==>
                     (c == d && Hides(SlotsAt(fs, d), i, e, q[..k])) || Meets(fs, d, i, e, FirstCluster(r.value), q[k..])))
  {
    hide Find, SlotsAt, LeadsOn, FirstCluster, EachIsChain, Hides;
  }

  lemma HidesOwnName(slots: seq<Slot>, i: nat, e: Slot, n: CString, name: CString)
    requires IsUpper(n) && (forall n: CString :: IsUpper(n) && Hit(e, n) ==> n == name) && Hides(slots, i, e, n)
    ensures n == name
  {
    hide Hit, FindIndex;
  }

  /** A walk to d and then for a name that alone hits the entry meets it exactly when it hides that name. */
  lemma {:induction false} MeetsAtEnd(fs: Fs, d: nat, i: nat, e: Slot, c: nat, p: CString, name: CString)
    requires Slotted(fs.vol) && EachIsChain(fs.vol.fat, fs.chains) && d in fs.chains && IsComponent(name) && IsUpper(p)
    requires Resolve(fs, c, p) == Some(Dir(d)) && forall n: CString :: IsUpper(n) && Hit(e, n) ==> n == name
    ensures Meets(fs, d, i, e, c, p + ([SLASH] + name)) <==> Hides(SlotsAt(fs, d), i, e, name)
    decreases |p|
  {
    hide Find, SlotsAt, LeadsOn, FirstCluster, EachIsChain, Hides, Hit, IsComponent, Resolve, Meets, ComponentLength, SkipSlashes;
    var tail, q := [SLASH] + name, SkipSlashes(p);
    SkipSlashesAppend(p, tail);
    SkipKeepsUpper(p);
    ResolveOneStep(fs, c, p, d);
    if q == [] {
      MeetsSkips(fs, d, i, e, d, p + tail, tail);
      MeetsAtName(fs, d, i, e, name);
    } else {
      ComponentLengthAppend(q, tail, COMPONENT_MAX);
      var k := ComponentLength(q, COMPONENT_MAX);
      assert (q + tail)[..k] == q[..k] && (q + tail)[k..] == q[k..] + tail;
      assert IsUpper(q[..k]) && IsUpper(q[k..]);
      MeetsOneStep(fs, d, i, e, c, p + tail);
      if c == d && Hides(SlotsAt(fs, d), i, e, q[..k]) {
        HidesOwnName(SlotsAt(fs, d), i, e, q[..k], name);
      } else {
        MeetsAtEnd(fs, d, i, e, FirstCluster(Find(SlotsAt(fs, c), 0, q[..k]).value), q[k..], name);
      }
    }
  }

  lemma MeetsOwnName(fs: Fs, path: CString, d: nat, i: nat, e: Slot)
    requires Slotted(fs.vol) && EachIsChain(fs.vol.fat, fs.chains) && d in fs.chains
    requires ParentOf(fs, path) == Some(d) && IsComponent(NameOf(path))
    requires forall n: CString :: IsUpper(n) && Hit(e, n) ==> n == NameOf(path)
    ensures Meets(fs, d, i, e, fs.root, Upper(path)) <==> Hides(SlotsAt(fs, d), i, e, NameOf(path))
  {
    hide Find, SlotsAt, EachIsChain, Hides, Hit, Resolve, Meets, IsComponent, Slotted, SkipSlashes;
    var (front, name) := SplitPath(Upper(path));
    var slash := LastSlash(Upper(path), |Upper(path)|);
    NameIsUpper(path);
    if slash < 0 {
      assert Upper(path) == name;
      BareName(name);
      MeetsSkips(fs, d, i, e, fs.root, name, [] + ([SLASH] + name));
      MeetsAtEnd(fs, d, i, e, fs.root, [], name);
    } else if slash == 0 {
      assert Upper(path) == [] + ([SLASH] + name);
      SlashIsRoot(fs, fs.root);
      MeetsAtEnd(fs, d, i, e, fs.root, [], name);
    } else {
      assert Upper(path) == front + ([SLASH] + name);
      MeetsAtEnd(fs, d, i, e, fs.root, front, name);
    }
  }

  lemma BareName(name: CString)
    requires IsComponent(name)
    ensures SkipSlashes(name) == SkipSlashes([] + ([SLASH] + name))
  {
    assert name[0] in name;
    assert ([] + ([SLASH] + name))[1..] == name;
  }

  lemma SlashIsRoot(fs: Fs, c: nat)
    requires Slotted(fs.vol) && EachIsChain(fs.vol.fat, fs.chains)
    ensures Resolve(fs, c, [SLASH]) == Resolve(fs, c, [])
  {
    assert [SLASH][1..] == [];
  }

  /**
   fat32_create of a name that is there already succeeds as for a new one. The path then opens as the new empty file
   exactly when the free slot lies before the old entry; otherwise as before.
   */
  lemma CreateOverExisting(fs: Fs, path: CString, stamp: Stamp, d: nat)
    requires FsOk(fs) && ParentOf(fs, path) == Some(d) && d in fs.chains && CreateRun(fs, path, stamp).0
    requires IsComponent(NameOf(path)) && Fits83(NameOf(path)) && NameOf(path)[0] != DELETED
    requires Find(SlotsAt(fs, d), 0, NameOf(path)).Some?
    ensures InRange(fs.vol.fat, d)
    ensures var (fs', m) := (CreateRun(fs, path, stamp).1, FindIndex(SlotsAt(fs, d), 0, NameOf(path)));
            && Slotted(fs'.vol) && EachIsChain(fs'.vol.fat, fs'.chains) && m < |SlotsAt(fs, d)|
            && Open(fs, path) == Some(TargetOf(SlotsAt(fs, d)[m]))
            && Open(fs', path) == if EntryIndex(fs, d) < m then Some(File(0, 0)) else Open(fs, path)
  {
    ParentIsOnCourse(fs, path);
    hide FsOk, Slotted, EachIsChain, SlotsAt, Resolve, Open, NameOf, EntryIndex, FileSlot, CreateRun, Meets, Fits83,
         OnCourse, ParentOf, Find, FindIndex, IsComponent, Hit;
    var e := FileSlot(NameOf(path), stamp);
    OpensAfterCreate(fs, path, stamp, path);
    OldEntry(fs, path, d);
    FindIsAtIndex(SlotsAt(fs, d), 0, NameOf(path));
    NewSlotHit(path, e, 0);
    MeetsOwnName(fs, path, d, EntryIndex(fs, d), e);
  }

  lemma ParentIsOnCourse(fs: Fs, path: CString)
    requires Slotted(fs.vol) && EachIsChain(fs.vol.fat, fs.chains) && ParentOf(fs, path).Some?
    ensures OnCourse(fs, path)
  {
    hide Resolve, Slotted, EachIsChain;
  }

  lemma OldEntry(fs: Fs, path: CString, d: nat)
    requires Slotted(fs.vol) && EachIsChain(fs.vol.fat, fs.chains) && ParentOf(fs, path) == Some(d) && IsComponent(NameOf(path))
    ensures Open(fs, path) == ResolveName(fs, d, NameOf(path))
  {
    hide ResolveName, EachIsChain, Slotted;
    ResolveSplit(fs, Upper(path), d);
  }

  // ---------- what a new directory does to paths ----------

  lemma {:induction false} MeetsSame(fs: Fs, fs': Fs, d: nat, i: nat, e: Slot, c: nat, p: CString)
    requires FsOk(fs) && Slotted(fs'.vol) && EachIsChain(fs'.vol.fat, fs'.chains) && c in fs.dirs && d in fs.dirs
    requires forall x :: x in fs.dirs ==> x in fs'.chains && SlotsAt(fs', x) == SlotsAt(fs, x)
    ensures Meets(fs', d, i, e, c, p) == Meets(fs, d, i, e, c, p)
    decreases |p|
  {
    hide Find, DirOk, EachIsChain, Disjoint, Covers, FirstCluster, LeadsOn, ChainSlots, Hides;
    var q := SkipSlashes(p);
    if q != [] {
      var k := ComponentLength(q, COMPONENT_MAX);
      var r := Find(SlotsAt(fs, c), 0, q[..k]);
      FindInSlots(SlotsAt(fs, c), 0, q[..k], fs.dirs);
      if r.Some? && LeadsOn(r.value) {
        MeetsSame(fs, fs', d, i, e, FirstCluster(r.value), q[k..]);
      }
    }
  }

  /** The volume with the new cluster, before its entry, has the directories of before. */
  lemma NewDirSame(fs: Fs, d: nat)
    requires FsOk(fs) && d in fs.dirs && FirstFree(fs.vol.fat) != 0
    ensures var made := NewDir(fs, d);
            && FsOk(made) && Slotted(made.vol) && EachIsChain(made.vol.fat, made.chains) && made.dirs == fs.dirs && made.root == fs.root
            && InRange(fs.vol.fat, d) && InRange(made.vol.fat, d) && EntryIndex(made, d) == EntryIndex(fs, d)
            && forall x :: x in fs.dirs ==> x in fs.chains && x in made.chains && SlotsAt(made, x) == SlotsAt(fs, x)
  {
    hide Find, DirOk, EachIsChain, Disjoint, Covers, ChainSlots, NewDir, FatOk, FirstFree, EntryIndex;
    NewDirVol(fs, d);
    NewDirKeepsFsOk(fs, NewDir(fs, d), d);
    NewDirKeepsEntryIndex(fs, d);
    forall x | x in fs.dirs ensures SlotsAt(NewDir(fs, d), x) == SlotsAt(fs, x) {
      NewDirKeepsBytes(fs, NewDir(fs, d), d, x);
    }
  }

  /** fat32_mkdir gives the path its directory part and an entry; a path whose walk does not meet the entry opens as before. */
  lemma OpensAfterMkdir(fs: Fs, path: CString, stamp: Stamp, q: CString)
    requires FsOk(fs) && OnCourse(fs, path)
    ensures var (ok, fs') := MkdirRun(fs, path, stamp);
            && Slotted(fs'.vol) && EachIsChain(fs'.vol.fat, fs'.chains)
            && (!ok ==> Open(fs', q) == Open(fs, q))
            && (ok ==>
                  && ParentOf(fs, path).Some? && InRange(fs.vol.fat, ParentOf(fs, path).value)
                  && var d := ParentOf(fs, path).value;
                     !Meets(fs, d, EntryIndex(fs, d), DirSlot(NameOf(path), FirstFree(fs.vol.fat), stamp), fs.root, Upper(q)) ==>
                       Open(fs', q) == Open(fs, q))
  {
    hide DirOk, Covers, Disjoint, EachIsChain, FatOk, ChainSlots, Resolve, NameOf, FirstFreeSlot, DirSlot, Meets, NewDir, FirstFree, OnCourse,
         IsFreeSlot;
    ParentInDirs(fs, path);
    SlottedOf(fs);
    if ParentOf(fs, path).Some? && FirstFree(fs.vol.fat) != 0 {
      var d, n := ParentOf(fs, path).value, FirstFree(fs.vol.fat);
      var made := NewDir(fs, d);
      NewDirSame(fs, d);
      ResolveSame(fs, made, fs.root, Upper(q));
      var e, i := DirSlot(NameOf(path), n, stamp), EntryIndex(made, d);
      if i < made.vol.csize / SLOT {
        EntryIndexIsFirstFree(made, d);
        PutSlotAt(made, d, i, e);
        NewDirVol(fs, d);
        DirSlotFields(NameOf(path), n, stamp);
        EntryMeets(fs, made, d, i, e, q);
        var linked := made.(vol := PutSlot(made.vol, d, i, e));
        ResolveIgnoresDirs(linked, fs.dirs + {n}, fs.root, Upper(q));
      }
    }
  }

  lemma EntryMeets(fs: Fs, made: Fs, d: nat, i: nat, e: Slot, q: CString)
    requires FsOk(fs) && FsOk(made) && d in fs.dirs && made.dirs == fs.dirs && made.root == fs.root && InRange(made.vol.fat, d)
    requires Slotted(made.vol) && EachIsChain(made.vol.fat, made.chains) && Slotted(fs.vol) && EachIsChain(fs.vol.fat, fs.chains)
    requires forall x :: x in fs.dirs ==> x in fs.chains && x in made.chains && SlotsAt(made, x) == SlotsAt(fs, x)
    requires i < made.vol.csize / SLOT && i < |SlotsAt(made, d)| && e[0] != 0
    requires IsFreeSlot(SlotsAt(made, d)[i]) && (forall j :: 0 <= j < i ==> !IsFreeSlot(SlotsAt(made, d)[j]))
    ensures var linked := made.(vol := PutSlot(made.vol, d, i, e));
            && Slotted(linked.vol) && EachIsChain(linked.vol.fat, linked.chains)
            && (!Meets(fs, d, i, e, fs.root, Upper(q)) ==> Open(linked, q) == Open(made, q))
  {
    hide DirOk, Covers, Disjoint, EachIsChain, FatOk, ChainSlots, Resolve, Meets, IsFreeSlot, PutSlot;
    PutSlotAt(made, d, i, e);
    MeetsSame(fs, made, d, i, e, fs.root, Upper(q));
    ResolveAfterEntry(made, d, i, e, made.(vol := PutSlot(made.vol, d, i, e)), made.root, Upper(q));
  }
}
