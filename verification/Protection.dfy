/**
 Who may reach what: the protection bits of directories and tables, which the processor combines, over every run from
 boot. User mode reaches nothing under a process's directory, and writing is open in low memory only.
 */
module Protection {
  import opened Bytes
  import opened Options
  import opened Paging
  import opened Frames
  import opened Boot
  import opened Process
  import opened MemoryRuns

  // ---------- both levels ----------

  /** User mode reaches page q under directory d: both entries on the way are present and open to it. */
  predicate UserPage(m: Mem, d: nat, q: nat)
    requires Shaped(m) && d < LOW_FRAMES
  {
    var e := EntryOf(m, d, q);
    m.tables[d][Pdx(q)].present && m.tables[d][Pdx(q)].user && e.Some? && e.value.present && e.value.user
  }

  /** Page q is mapped under directory d, and both entries on the way allow writing. */
  predicate WritablePage(m: Mem, d: nat, q: nat)
    requires Shaped(m) && d < LOW_FRAMES
  {
    var e := EntryOf(m, d, q);
    m.tables[d][Pdx(q)].present && m.tables[d][Pdx(q)].writable && e.Some? && e.value.present && e.value.writable
  }

  // ---------- what is kept ----------

  /** Every directory entry allows writing, and those of the kernel's directory, no other's, are open to user mode. */
  ghost predicate DirBits(m: Mem, dirs: set<nat>)
    requires Shaped(m)
  {
    forall d, i :: d in dirs && d < LOW_FRAMES && 0 <= i < ENTRIES ==>
      m.tables[d][i].writable && (m.tables[d][i].user <==> d == m.kdir)
  }

  /** The table entry of a page: open below 8 MiB; above, closed to user mode, and writable in the kernel's map only. */
  predicate PageBits(m: Mem, d: nat, q: nat)
    requires Shaped(m) && d < LOW_FRAMES
  {
    var e := EntryOf(m, d, q);
    if q < LOW_FRAMES then e.Some? && e.value.present && e.value.writable && e.value.user
    else e.Some? && e.value.present ==> !e.value.user && (e.value.writable <==> d == m.kdir)
  }

  ghost predicate Guarded(m: Mem, dirs: set<nat>) {
    Shaped(m) && DirBits(m, dirs) && forall d, q :: d in dirs && d < LOW_FRAMES && 0 <= q < PAGES ==> PageBits(m, d, q)
  }

  lemma GuardedPage(m: Mem, dirs: set<nat>, d: nat, q: nat)
    requires Guarded(m, dirs) && d in dirs && d < LOW_FRAMES && q < PAGES
    ensures Shaped(m) && PageBits(m, d, q)
    ensures forall i :: 0 <= i < ENTRIES ==> m.tables[d][i].writable && (m.tables[d][i].user <==> d == m.kdir)
  {
  }

  /**
   Then user mode reaches low memory under the kernel's directory, and nothing under any other. Of what is mapped,
   the kernel's directory allows all to be written, any other only low memory.
   */
  lemma GuardMeans(m: Mem, dirs: set<nat>, d: nat, q: nat)
    requires Guarded(m, dirs) && Owned(m, dirs) && d in dirs && q < PAGES
    ensures d < LOW_FRAMES
    ensures UserPage(m, d, q) <==> d == m.kdir && q < LOW_FRAMES
    ensures WritablePage(m, d, q) <==> q < LOW_FRAMES || (d == m.kdir && Translate(m, d, q).Some?)
  {
    hide Owned, Guarded;
    DirIsLow(m, dirs, d);
    GuardedPage(m, dirs, d, q);
  }

  // ---------- the operations keep it ----------

  lemma KeptBits(m: Mem, m': Mem, d: nat, q: nat)
    requires Shaped(m) && Shaped(m') && m'.kdir == m.kdir && d < LOW_FRAMES && PageBits(m, d, q)
    requires KeptEntry(EntryOf(m, d, q), EntryOf(m', d, q))
    ensures PageBits(m', d, q)
  {
  }

  /** A walk changes neither protection bit of any directory entry. */
  lemma WalkKeepsDirBits(m: Mem, dirs: set<nat>, d: nat, p: nat)
    requires Owned(m, dirs) && d in dirs && d < LOW_FRAMES && p < PAGES && DirBits(m, dirs)
    ensures Shaped(Walk(m, d, p).0) && Walk(m, d, p).0.kdir == m.kdir && DirBits(Walk(m, d, p).0, dirs)
  {
  }

  lemma SetEntryKeepsDirBits(m: Mem, dirs: set<nat>, d: nat, p: nat, ent: Entry)
    requires Owned(m, dirs) && d in dirs && d < LOW_FRAMES && p < PAGES && m.tables[d][Pdx(p)].present && DirBits(m, dirs)
    ensures m.tables[d][Pdx(p)].frame < LOW_FRAMES
    ensures DirBits(SetEntry(m, m.tables[d][Pdx(p)].frame, Ptx(p), ent), dirs)
  {
    TableFrame(m, dirs, d, Pdx(p));
  }

  lemma WalkKeepsGuard(m: Mem, dirs: set<nat>, d: nat, p: nat)
    requires Owned(m, dirs) && d in dirs && d < LOW_FRAMES && p < PAGES && Guarded(m, dirs)
    ensures Guarded(Walk(m, d, p).0, dirs)
  {
    hide Owned, Walk, EntryOf, PageBits, DirBits;
    var m1 := Walk(m, d, p).0;
    WalkKeepsDirBits(m, dirs, d, p);
    forall e, q | e in dirs && e < LOW_FRAMES && 0 <= q < PAGES ensures PageBits(m1, e, q) {
      WalkKeepsEntry(m, dirs, d, p, e, q);
      KeptBits(m, m1, e, q);
    }
  }

  /** The bits that keep the guard at a page above 8 MiB of directory d. */
  predicate Fits(m: Mem, d: nat, ent: Entry) {
    ent.present ==> !ent.user && (ent.writable <==> d == m.kdir)
  }

  lemma SetEntryKeepsGuard(m: Mem, dirs: set<nat>, d: nat, p: nat, ent: Entry)
    requires Owned(m, dirs) && d in dirs && d < LOW_FRAMES && LOW_FRAMES <= p < PAGES && Guarded(m, dirs)
    requires m.tables[d][Pdx(p)].present && Fits(m, d, ent)
    ensures m.tables[d][Pdx(p)].frame < LOW_FRAMES
    ensures Guarded(SetEntry(m, m.tables[d][Pdx(p)].frame, Ptx(p), ent), dirs)
  {
    hide Owned, EntryOf, DirBits;
    SetEntryKeepsDirBits(m, dirs, d, p, ent);
    var m' := SetEntry(m, m.tables[d][Pdx(p)].frame, Ptx(p), ent);
    forall e, q | e in dirs && e < LOW_FRAMES && 0 <= q < PAGES ensures PageBits(m', e, q) {
      SetEntryEntry(m, dirs, d, p, ent, e, q);
      assert PageBits(m, e, q);
    }
  }

  lemma MapTurnKeepsGuard(m: Mem, dirs: set<nat>, d: nat, vp: nat, p: nat, pa: nat, flags: Flags)
    requires Owned(m, dirs) && d in dirs && d < LOW_FRAMES && LOW_FRAMES <= p < PAGES && Guarded(m, dirs)
    requires Fits(m, d, Entry(flags.present, flags.writable, flags.user, 0))
    ensures Guarded(MapTurn(m, d, vp, p, pa, flags).0, dirs)
  {
    hide Owned, FrameFor, Walk, SetEntry, EntryOf, Guarded;
    ShapedOf(m, dirs);
    var (m1, t) := Walk(m, d, p);
    WalkKeepsOwned(m, dirs, d, p);
    WalkKeepsGuard(m, dirs, d, p);
    if t.Some? {
      SetEntryKeepsGuard(m1, dirs, d, p, Entry(flags.present, flags.writable, flags.user, FrameFor(pa, vp, p)));
    }
  }

  /** Mapping pages above 8 MiB keeps the guard when the bits asked for fit, whether it succeeds or not. */
  lemma {:induction false} MapKeepsGuard(m: Mem, dirs: set<nat>, d: nat, vp: nat, p: nat, last: int, pa: nat, flags: Flags)
    requires Owned(m, dirs) && d in dirs && d < LOW_FRAMES && LOW_FRAMES <= p && last < PAGES && Guarded(m, dirs)
    requires Fits(m, d, Entry(flags.present, flags.writable, flags.user, 0))
    ensures Shaped(m) && Guarded(MapRun(m, d, vp, p, last, pa, flags).0, dirs)
    decreases last + 1 - p
  {
    hide Owned, Guarded, MapTurn;
    ShapedOf(m, dirs);
    if p <= last {
      MapTurnKeepsOwned(m, dirs, d, vp, p, pa, flags);
      MapTurnKeepsGuard(m, dirs, d, vp, p, pa, flags);
      var (m1, ok) := MapTurn(m, d, vp, p, pa, flags);
      if ok {
        MapKeepsGuard(m1, dirs, d, vp, p + 1, last, pa, flags);
      }
    }
  }

  /** The page bitmap has no part in it. */
  lemma PagesDoNotGuard(m: Mem, pages: seq<bool>, dirs: set<nat>)
    requires Guarded(m, dirs) && |pages| == PMM_PAGES
    ensures Guarded(m.(pages := pages), dirs)
  {
    var m' := m.(pages := pages);
    forall d, q | d in dirs && d < LOW_FRAMES && 0 <= q < PAGES ensures PageBits(m', d, q) {
      assert PageBits(m, d, q) && EntryOf(m', d, q) == EntryOf(m, d, q);
    }
  }

  /** An allocated page is entered into the kernel's map as writable and closed to user mode. */
  lemma AllocKeepsGuard(m: Mem, dirs: set<nat>, top: nat)
    requires KernelMap(m, dirs, top) && Guarded(m, dirs) && AllocPage(m).1.Page?
    ensures Guarded(AllocPage(m).0, dirs)
    ensures m.kdir < LOW_FRAMES && Shaped(m)
    ensures EntryOf(AllocPage(m).0, m.kdir, AllocPage(m).1.frame) == Some(Entry(true, true, false, AllocPage(m).1.frame))
    ensures forall e, q :: e in dirs && e < LOW_FRAMES && 0 <= q < PAGES && !(e == m.kdir && q == AllocPage(m).1.frame) ==>
              KeptEntry(EntryOf(m, e, q), EntryOf(AllocPage(m).0, e, q))
  {
    hide KernelMap, Owned, Walk, Guarded, AllocPage, SetEntry, EntryOf;
    KernelMapOwned(m, dirs, top);
    AllocPageSpec(m, dirs, top);
    AllocIsWalkAndFill(m, top);
    AllocWalkSpec(m, dirs, top, top);
    MissingTableMeansFirstPage(m, dirs, top, top);
    PageOfIndex(top);
    var frame, m0 := PMM_START + top, m.(pages := m.pages[top := true]);
    PagesDoNotGuard(m, m0.pages, dirs);
    PagesDoNotTranslate(m, m0.pages, dirs);
    WalkKeepsGuard(m0, dirs, m.kdir, frame);
    var m1 := AllocWalk(m, top).0;
    SetEntryKeepsGuard(m1, dirs, m.kdir, frame, Entry(true, true, false, frame));
    forall e, q | e in dirs && e < LOW_FRAMES && 0 <= q < PAGES
      ensures if e == m.kdir && q == frame then EntryOf(AllocPage(m).0, e, q) == Some(Entry(true, true, false, frame))
              else KeptEntry(EntryOf(m, e, q), EntryOf(AllocPage(m).0, e, q)) {
      SetEntryEntry(m1, dirs, m.kdir, frame, Entry(true, true, false, frame), e, q);
      WalkKeepsEntry(m0, dirs, m.kdir, frame, e, q);
      SamePageEntry(m, m0.pages, e, q);
    }
  }

  lemma SamePageEntry(m: Mem, pages: seq<bool>, d: nat, q: nat)
    requires Shaped(m) && |pages| == PMM_PAGES && d < LOW_FRAMES
    ensures EntryOf(m.(pages := pages), d, q) == EntryOf(m, d, q)
  {
  }

  /** A new directory is closed to user mode in all its 1024 entries, those of the shared tables included. */
  lemma CreateDirKeepsGuard(m: Mem, dirs: set<nat>)
    requires Owned(m, dirs) && Guarded(m, dirs) && CreateDir(m).1.Some?
    ensures Guarded(CreateDir(m).0, dirs + {CreateDir(m).1.value})
  {
    var (m', d) := (CreateDir(m).0, CreateDir(m).1.value);
    CreateDirEntries(m, dirs);
    assert DirBits(m', dirs + {d});
    hide DirBits, CreateDir, UserDirectory;
    forall e, q | e in dirs + {d} && e < LOW_FRAMES && 0 <= q < PAGES ensures PageBits(m', e, q) {
      NewDirEntry(m, dirs, e, q);
      hide Owned;
      assert PageBits(m, m.kdir, q);
      assert e in dirs ==> PageBits(m, e, q);
    }
  }

  /** In the new directory low pages have the kernel's entries and others none; in the others nothing changes. */
  lemma NewDirEntry(m: Mem, dirs: set<nat>, e: nat, q: nat)
    requires Owned(m, dirs) && CreateDir(m).1.Some? && e in dirs + {CreateDir(m).1.value} && e < LOW_FRAMES && q < PAGES
    ensures m.kdir in dirs && CreateDir(m).1.value !in dirs
    ensures EntryOf(CreateDir(m).0, e, q) ==
            if e in dirs then EntryOf(m, e, q) else if q < LOW_FRAMES then EntryOf(m, m.kdir, q) else None
  {
    CreateDirEntries(m, dirs);
  }

  // ---------- process creation ----------

  /** Under d the kernel stack lies at page 0x10000 and the program at page 0x80000, both read-only and closed to user mode. */
  predicate ProcessPages(m: Mem, d: nat, stack: Option<nat>, code: Option<nat>)
    requires Shaped(m) && d < LOW_FRAMES
  {
    && (stack.Some? ==> EntryOf(m, d, 0x1_0000) == Some(Entry(true, false, false, stack.value)))
    && (code.Some? ==> EntryOf(m, d, 0x8_0000) == Some(Entry(true, false, false, code.value)))
  }

  lemma StageMapKeepsGuard(s: Sys, m: Mem, d: nat, mine: map<nat, nat>, top: nat, va: nat, frame: nat)
    requires KernelMap(s.mem, s.dirs, s.top) && Stage(s, m, d, mine, top) && Guarded(m, s.dirs + {d})
    requires va % PAGE_SIZE == 0 && LOW_FRAMES <= va / PAGE_SIZE < PAGES - 1 && frame < PAGES
    ensures LastPage(va, KERNEL_STACK_SIZE) < PAGES - 1 && Shaped(m) && d < LOW_FRAMES
    ensures var (m', ok) := MapOne(m, d, va, frame);
            && Guarded(m', s.dirs + {d})
            && (ok ==> EntryOf(m', d, va / PAGE_SIZE) == Some(Entry(true, false, false, frame)))
            && (forall q :: 0 <= q < PAGES && q != va / PAGE_SIZE ==> KeptEntry(EntryOf(m, d, q), EntryOf(m', d, q)))
  {
    hide KernelMap, Translate, MapRun, Guarded, EntryOf;
    StageKeepsKdir(s, m, d, mine, top);
    KernelMapOwned(m, s.dirs + {d}, top);
    var p, pa := va / PAGE_SIZE, frame * PAGE_SIZE;
    assert LastPage(va, KERNEL_STACK_SIZE) == p;
    MapKeepsGuard(m, s.dirs + {d}, d, p, p, p, pa, PROCESS_FLAGS);
    assert FrameFor(pa, p, p) == frame;
    MapSetsEntries(m, s.dirs + {d}, d, p, p, p, pa, PROCESS_FLAGS, d, p);
    forall q | 0 <= q < PAGES && q != p ensures KeptEntry(EntryOf(m, d, q), EntryOf(MapOne(m, d, va, frame).0, d, q)) {
      MapSetsEntries(m, s.dirs + {d}, d, p, p, p, pa, PROCESS_FLAGS, d, q);
    }
  }

  lemma StageAllocKeepsGuard(s: Sys, m: Mem, d: nat, mine: map<nat, nat>, top: nat, stack: Option<nat>)
    requires KernelMap(s.mem, s.dirs, s.top) && Stage(s, m, d, mine, top) && Guarded(m, s.dirs + {d})
    requires Shaped(m) && AllocPage(m).1.Page? && ProcessPages(m, d, stack, None)
    ensures Guarded(AllocPage(m).0, s.dirs + {d}) && ProcessPages(AllocPage(m).0, d, stack, None)
  {
    hide KernelMap, Guarded, EntryOf, AllocPage;
    StageKeepsKdir(s, m, d, mine, top);
    AllocKeepsGuard(m, s.dirs + {d}, top);
    assert KeptEntry(EntryOf(m, d, 0x1_0000), EntryOf(AllocPage(m).0, d, 0x1_0000));
  }

  /** The outcome keeps the guard, and a new process has its two pages. */
  ghost predicate GuardedOutcome(r: Outcome) {
    match r
    case Panicked(_) => true
    case Failed(s') => Guarded(s'.mem, s'.dirs)
    case Created(s', slot) =>
      && Guarded(s'.mem, s'.dirs) && slot < |s'.procs| && s'.procs[slot].dir < LOW_FRAMES
      && exists code :: ProcessPages(s'.mem, s'.procs[slot].dir, Some(s'.procs[slot].kernelStack), Some(code))
  }

  lemma CreateCodeKeepsGuard(s: Sys, m4: Mem, d: nat, stack: nat, code: nat, program: seq<byte>)
    requires SysOk(s) && FirstUnused(s.procs, 0) < MAX_PROCESSES
    requires PMM_START <= stack < PMM_START + PMM_PAGES && PMM_START <= code < PMM_START + PMM_PAGES
    requires Stage(s, m4, d, map[STACK_PAGE := stack], s.top + 2)
    requires Guarded(m4, s.dirs + {d}) && ProcessPages(m4, d, Some(stack), None)
    ensures Shaped(m4) && GuardedOutcome(CreateCode(s, FirstUnused(s.procs, 0), m4, d, stack, code, program))
  {
    hide KernelMap, Translate, MapOne, Stage, Guarded, EntryOf, DestroyDir, CopyFrom;
    StageMapKeepsGuard(s, m4, d, map[STACK_PAGE := stack], s.top + 2, USER_PROGRAM_BASE, code);
    var (m5, mapped) := MapOne(m4, d, USER_PROGRAM_BASE, code);
    if !mapped {
      var m6 := FreePage(m5, stack);
      PagesDoNotGuard(m5, FreePage(DestroyDir(m6, d), code).pages, s.dirs + {d});
    } else {
      assert ProcessPages(m5, d, Some(stack), Some(code)) by {
        assert KeptEntry(EntryOf(m4, d, 0x1_0000), EntryOf(m5, d, 0x1_0000));
      }
    }
  }

  lemma CreateStackKeepsGuard(s: Sys, m2: Mem, d: nat, stack: nat, program: seq<byte>)
    requires SysOk(s) && FirstUnused(s.procs, 0) < MAX_PROCESSES && stack == PMM_START + s.top && s.top < PMM_PAGES
    requires Stage(s, m2, d, map[], s.top + 1) && Guarded(m2, s.dirs + {d})
    ensures Shaped(m2) && GuardedOutcome(CreateStack(s, FirstUnused(s.procs, 0), m2, d, stack, program))
  {
    hide KernelMap, Translate, MapOne, Stage, CreateCode, AllocPage, Guarded, EntryOf, DestroyDir, GuardedOutcome;
    StageMap(s, m2, d, map[], s.top + 1, KERNEL_STACK_BASE, stack);
    StageMapKeepsGuard(s, m2, d, map[], s.top + 1, KERNEL_STACK_BASE, stack);
    var (m3, mapped) := MapOne(m2, d, KERNEL_STACK_BASE, stack);
    var mine := if mapped then map[STACK_PAGE := stack] else map[];
    assert mine == if mapped then map[][STACK_PAGE := stack] else map[];
    StageAlloc(s, m3, d, mine, s.top + 1);
    var (m4, r) := AllocPage(m3);
    if mapped && r.Page? {
      StageAllocKeepsGuard(s, m3, d, mine, s.top + 1, Some(stack));
      CreateCodeKeepsGuard(s, m4, d, stack, r.frame, program);
    } else {
      PagesDoNotGuard(m3, DestroyDir(FreePage(m3, stack), d).pages, s.dirs + {d});
      GaveUpGuarded(CreateStack(s, FirstUnused(s.procs, 0), m2, d, stack, program), s.dirs + {d});
    }
  }

  lemma GaveUpGuarded(r: Outcome, dirs: set<nat>)
    requires !r.Created? && (r.Failed? ==> Guarded(r.sys.mem, dirs) && r.sys.dirs == dirs)
    ensures GuardedOutcome(r)
  {
  }

  /** process_create keeps the guard, whether it fails or succeeds. */
  lemma CreateKeepsGuard(s: Sys, program: seq<byte>)
    requires SysOk(s) && Guarded(s.mem, s.dirs)
    ensures GuardedOutcome(Create(s, program))
  {
    hide KernelMap, Translate, Stage, CreateStack, AllocPage, CreateDir, Guarded, GuardedOutcome, DestroyDir, EntryOf;
    var slot := FirstUnused(s.procs, 0);
    if slot == MAX_PROCESSES || CreateDir(s.mem).1 == None {
      GaveUpGuarded(Create(s, program), s.dirs);
    } else {
      var (m1, d) := (CreateDir(s.mem).0, CreateDir(s.mem).1.value);
      StageDir(s);
      KernelMapOwned(s.mem, s.dirs, s.top);
      CreateDirKeepsGuard(s.mem, s.dirs);
      StageAlloc(s, m1, d, map[], s.top);
      var (m2, r) := AllocPage(m1);
      if r.Page? {
        StageAllocKeepsGuard(s, m1, d, map[], s.top, None);
        CreateStackKeepsGuard(s, m2, d, r.frame, program);
      } else {
        PagesDoNotGuard(m1, DestroyDir(m1, d).pages, s.dirs + {d});
        GaveUpGuarded(Create(s, program), s.dirs + {d});
      }
    }
  }

  // ---------- whole runs ----------

  lemma FreeKeepsGuard(m: Mem, dirs: set<nat>, frame: nat)
    requires Guarded(m, dirs) && frame < PMM_START + PMM_PAGES
    ensures Guarded(FreePage(m, frame), dirs)
  {
    PagesDoNotGuard(m, FreePage(m, frame).pages, dirs);
    assert frame < PMM_START ==> FreePage(m, frame) == m;
  }

  lemma TerminateKeepsGuard(s: Sys, pid: nat)
    requires SysShaped(s) && Guarded(s.mem, s.dirs)
    ensures Guarded(Terminate(s, pid).mem, Terminate(s, pid).dirs)
  {
    hide Guarded, FindPid;
    var i := FindPid(s.procs, pid, 0);
    if i < |s.procs| && s.procs[i].dir < LOW_FRAMES {
      PagesDoNotGuard(s.mem, DestroyDir(s.mem, s.procs[i].dir).pages, s.dirs);
    }
  }

  lemma StepKeepsGuard(s: Sys, op: Op)
    requires Good(s) && Legal(s, op) && Guarded(s.mem, s.dirs)
    ensures Step(s, op).Some? ==> Guarded(Step(s, op).value.mem, Step(s, op).value.dirs)
  {
    hide Guarded, KernelMap, AllocPage, Create, Terminate, Unmapped, FreePage, TableOk, MapsUsedPages, Isolated;
    match op
    case Alloc =>
      if AllocPage(s.mem).1.Page? {
        AllocKeepsGuard(s.mem, s.dirs, s.top);
      }
    case Free(frame) => FreeKeepsGuard(s.mem, s.dirs, frame);
    case CreateProcess(program) => CreateKeepsGuard(s, program);
    case TerminateProcess(slot) => TerminateKeepsGuard(s, s.procs[slot].pid);
  }

  /** Over every run without a panic, while pids are left. */
  lemma {:induction false} RunKeepsGuard(s: Sys, ops: seq<Op>)
    requires Good(s) && Guarded(s.mem, s.dirs) && LegalRun(s, ops) && s.nextPid + Creations(ops) <= 0xFFFF_FFFF
    ensures Run(s, ops).Some? ==> Guarded(Run(s, ops).value.mem, Run(s, ops).value.dirs)
    decreases ops
  {
    hide Guarded, SysOk, PidsOk, Step, Legal;
    if ops != [] {
      StepKeeps(s, ops[0]);
      StepKeepsGuard(s, ops[0]);
      if Step(s, ops[0]).Some? {
        RunKeepsGuard(Step(s, ops[0]).value, ops[1..]);
      }
    }
  }

  /** The kernel's directory and its two tables are open to writing and to user mode after vmm_init. */
  lemma BootIsGuarded(m: Mem)
    requires Shaped(m)
    ensures Guarded(BootSys(m).mem, BootSys(m).dirs)
  {
    var b := VmmInit(PmmInit(m));
    assert b.tables[m.kdir] == KernelDirectory(m.kt1, m.kt2);
    assert b.tables[m.kt1] == IdentityTable(0) && b.tables[m.kt2] == IdentityTable(ENTRIES);
    forall q | 0 <= q < PAGES ensures PageBits(b, m.kdir, q) {
      assert q < LOW_FRAMES <==> Pdx(q) < 2;
    }
  }

  /**
   On every run from boot that does not panic, under every directory but the kernel's user mode reaches no page, and
   what may be written is the low 8 MiB. The kernel's directory opens the low 8 MiB to user mode and all that it
   maps to writing. So no live process reaches a page of its own in user mode.
   */
  lemma UserModeReachesNothing(m: Mem, ops: seq<Op>, d: nat, q: nat)
    requires Shaped(m) && LegalRun(BootSys(m), ops) && Creations(ops) < 0xFFFF_FFFF && Run(BootSys(m), ops).Some?
    requires d in Run(BootSys(m), ops).value.dirs && q < 0x10_0000
    ensures var s := Run(BootSys(m), ops).value;
            && SysShaped(s) && d < LOW_FRAMES && s.mem.kdir in s.dirs
            && (UserPage(s.mem, d, q) <==> d == s.mem.kdir && q < 2048)
            && (WritablePage(s.mem, d, q) <==> q < 2048 || (d == s.mem.kdir && Translate(s.mem, d, q).Some?))
            && forall i :: 0 <= i < |s.procs| && Live(s, i) ==> s.procs[i].dir in s.dirs && s.procs[i].dir != s.mem.kdir
  {
    hide Guarded, KernelMap, Step, Legal, Run, LegalRun, UserPage, WritablePage, Translate, MapsUsedPages, Isolated, BootSys;
    BootOk(m);
    BootIsGuarded(m);
    BootCounter(m);
    RunKeepsGood(BootSys(m), ops);
    RunKeepsGuard(BootSys(m), ops);
    var s := Run(BootSys(m), ops).value;
    KernelMapOwned(s.mem, s.dirs, s.top);
    GuardMeans(s.mem, s.dirs, d, q);
  }

  lemma BootCounter(m: Mem)
    requires Shaped(m)
    ensures BootSys(m).nextPid == 1
  {
  }
}
