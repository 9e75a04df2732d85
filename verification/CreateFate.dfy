/**
 How a process creation ends, from what can be counted before it: the slots, the free internal frames, the
 pages ever handed out and those free again. Every table and directory that it takes is kept, also when it fails.
 */
module CreateFate {
  import opened Options
  import opened Bytes
  import opened Bitmap
  import opened Paging
  import opened Frames
  import opened Process

  // ---------- counting free frames ----------

  function ClearBits(bits: seq<bool>): nat {
    if bits == [] then 0 else ClearBits(bits[..|bits| - 1]) + if bits[|bits| - 1] then 0 else 1
  }

  lemma {:induction false} ClearBitsSet(bits: seq<bool>, i: nat)
    requires i < |bits| && !bits[i]
    ensures ClearBits(bits[i := true]) == ClearBits(bits) - 1
  {
    var n := |bits| - 1;
    if i == n {
      assert bits[i := true][..n] == bits[..n];
    } else {
      assert bits[i := true][..n] == bits[..n][i := true];
      ClearBitsSet(bits[..n], i);
    }
  }

  lemma {:induction false} NoClearBits(bits: seq<bool>)
    ensures ClearBits(bits) == 0 <==> forall k :: 0 <= k < |bits| ==> bits[k]
  {
    if bits != [] {
      var n := |bits| - 1;
      NoClearBits(bits[..n]);
      assert forall k :: 0 <= k < n ==> bits[..n][k] == bits[k];
    }
  }

  /** The internal frames that are left. */
  function FramesLeft(m: Mem): nat {
    ClearBits(m.intr)
  }

  lemma IntrAllocCosts(m: Mem)
    requires Shaped(m)
    ensures IntrAlloc(m).1 == None <==> FramesLeft(m) == 0
    ensures IntrAlloc(m).1.Some? ==> FramesLeft(IntrAlloc(m).0) == FramesLeft(m) - 1
  {
    NoClearBits(m.intr);
    if IntrAlloc(m).1.Some? {
      ClearBitsSet(m.intr, IntrAlloc(m).1.value - INTR_START);
    }
  }

  lemma CreateDirCosts(m: Mem)
    requires Shaped(m)
    ensures CreateDir(m).1 == None <==> FramesLeft(m) == 0
    ensures CreateDir(m).1.Some? ==> FramesLeft(CreateDir(m).0) == FramesLeft(m) - 1
  {
    IntrAllocCosts(m);
  }

  /** A walk costs a frame iff the region has no table yet. */
  lemma WalkCosts(m: Mem, d: nat, p: nat)
    requires Shaped(m) && d < LOW_FRAMES
    ensures var (m1, t) := Walk(m, d, p);
            if m.tables[d][Pdx(p)].present then FramesLeft(m1) == FramesLeft(m) && t.Some?
            else if FramesLeft(m) == 0 then t == None && m1 == m
            else t.Some? && FramesLeft(m1) == FramesLeft(m) - 1
  {
    IntrAllocCosts(m);
  }

  /** The frames that handing out page `top` takes: one for the table of a new region. */
  function NewTable(top: nat): nat {
    if top % ENTRIES == 0 then 1 else 0
  }

  /** No entry of directory d changes. */
  predicate SameRow(m: Mem, m': Mem, d: nat)
    requires Shaped(m) && Shaped(m') && d < LOW_FRAMES
  {
    m'.tables[d] == m.tables[d]
  }

  /** Handing out the next page takes the frame of its region's table, if that is missing, and panics iff there is none. */
  lemma AllocTakes(m: Mem, dirs: set<nat>, top: nat)
    requires KernelMap(m, dirs, top) && FirstClear(m.pages, 0) == top < PMM_PAGES
    ensures Shaped(m)
    ensures var (m', r) := AllocPage(m);
            if FramesLeft(m) < NewTable(top) then r == Panic(FailedPageTable)
            else r == Page(PMM_START + top) && FramesLeft(m') == FramesLeft(m) - NewTable(top)
  {
    hide KernelMap, Owned, Walk, Translate, SetEntry;
    KernelMapOwned(m, dirs, top);
    AllocPageSpec(m, dirs, top);
    NoClearBits(m.intr);
    MissingTableMeansFirstPage(m, dirs, top, top);
    AllocIsWalkAndFill(m, top);
    AllocWalkSpec(m, dirs, top, top);
    WalkCosts(m.(pages := m.pages[top := true]), m.kdir, PMM_START + top);
    PageOfIndex(top);
  }

  lemma AllocCosts(m: Mem, dirs: set<nat>, top: nat, d: nat)
    requires KernelMap(m, dirs, top) && FirstClear(m.pages, 0) == top < PMM_PAGES
    requires d in dirs && d < LOW_FRAMES && d != m.kdir
    ensures Shaped(m)
    ensures var (m', r) := AllocPage(m);
            if FramesLeft(m) < NewTable(top) then r == Panic(FailedPageTable)
            else r == Page(PMM_START + top) && FramesLeft(m') == FramesLeft(m) - NewTable(top) && SameRow(m, m', d)
  {
    hide KernelMap, Owned, Walk, Translate, SetEntry, NewTable, FramesLeft;
    KernelMapOwned(m, dirs, top);
    AllocTakes(m, dirs, top);
    AllocIsWalkAndFill(m, top);
    AllocWalkSpec(m, dirs, top, top);
    MissingTableMeansFirstPage(m, dirs, top, top);
    PageOfIndex(top);
    hide AllocPage;
    if AllocWalk(m, top).1.Some? {
      AllocKeepsRow(m, dirs, top, d);
    }
  }

  lemma AllocKeepsRow(m: Mem, dirs: set<nat>, top: nat, d: nat)
    requires KernelMap(m, dirs, top) && FirstClear(m.pages, 0) == top < PMM_PAGES && AllocWalk(m, top).1.Some?
    requires d in dirs && d < LOW_FRAMES && d != m.kdir
    ensures var (m1, t) := AllocWalk(m, top);
            && t.value < LOW_FRAMES && Shaped(m1) && m1.tables[d] == m.tables[d]
            && SetEntry(m1, t.value, Ptx(PMM_START + top), Entry(true, true, false, PMM_START + top)).tables[d] == m.tables[d]
  {
    KernelMapOwned(m, dirs, top);
    AllocWalkSpec(m, dirs, top, top);
    PageOfIndex(top);
    hide KernelMap, Translate;
    var (m1, t) := AllocWalk(m, top);
    TableFrame(m1, dirs, m.kdir, Pdx(PMM_START + top));
    hide Owned;
    NotFreshFrame(m.(pages := m.pages[top := true]), m.kdir, PMM_START + top, d);
    DirInUseFrame(m, dirs, d);
  }

  lemma DirInUseFrame(m: Mem, dirs: set<nat>, d: nat)
    requires Owned(m, dirs) && d in dirs && d < LOW_FRAMES
    ensures Shaped(m) && (IsIntrFrame(d) ==> m.intr[d - INTR_START])
  {
  }

  /** A walk in another directory changes no entry of a directory in use. */
  lemma NotFreshFrame(m: Mem, e: nat, p: nat, d: nat)
    requires Shaped(m) && e < LOW_FRAMES && d < LOW_FRAMES && d != e && (IsIntrFrame(d) ==> m.intr[d - INTR_START])
    ensures Walk(m, e, p).0.tables[d] == m.tables[d]
  {
  }

  lemma RunOfOneTurn(m: Mem, d: nat, p: nat, pa: nat, flags: Flags)
    requires Shaped(m) && d < LOW_FRAMES
    ensures MapRun(m, d, p, p, p, pa, flags) == MapTurn(m, d, p, p, pa, flags)
  {
    hide MapTurn;
    var (m1, ok) := MapTurn(m, d, p, p, pa, flags);
    assert MapRun(m1, d, p, p + 1, p, pa, flags) == (m1, true);
  }

  /** Mapping a page of a region without a table takes one frame, and fails iff there is none. */
  lemma MapOneCosts(m: Mem, dirs: set<nat>, d: nat, va: nat, frame: nat)
    requires Owned(m, dirs) && d in dirs && d < LOW_FRAMES
    requires va % PAGE_SIZE == 0 && LOW_FRAMES <= va / PAGE_SIZE < PAGES - 1 && Shaped(m) && !m.tables[d][Pdx(va / PAGE_SIZE)].present
    ensures LastPage(va, KERNEL_STACK_SIZE) < PAGES - 1
    ensures var (m', ok) := MapOne(m, d, va, frame);
            && (ok <==> FramesLeft(m) > 0) && FramesLeft(m') == (if ok then FramesLeft(m) - 1 else FramesLeft(m))
            && (forall i :: 0 <= i < ENTRIES && i != Pdx(va / PAGE_SIZE) ==> m'.tables[d][i] == m.tables[d][i])
  {
    hide Owned, Walk, FrameFor, MapRun;
    var p := va / PAGE_SIZE;
    assert LastPage(va, KERNEL_STACK_SIZE) == p;
    RunOfOneTurn(m, d, p, frame * PAGE_SIZE, PROCESS_FLAGS);
    WalkCosts(m, d, p);
    WalkKeepsOwned(m, dirs, d, p);
    WalkOutcome(m, d, p);
    var (m1, t) := Walk(m, d, p);
    if t.Some? {
      TableFrame(m1, dirs, d, Pdx(p));
    }
  }

  // ---------- the fate ----------

  /** How a creation ends, with the internal frames that a failure keeps for ever. */
  datatype Fate = Fails(lost: nat) | Panics(why: PanicMessage) | Succeeds

  /**
   From whether a slot is unused, the number of free internal frames, the first free page, the number of pages
   ever handed out, and whether the program is longer than a page, in which case copying it faults. The frames go,
   in this order, to the directory, a table for the kernel stack's page in the kernel's map, one for its mapping, one
   for the program's page in the kernel's map, one for its mapping.
   */
  function FateOf(slot: bool, free: nat, firstClear: int, top: nat, long: bool): Fate {
    if !slot || free == 0 then Fails(0)
    else if firstClear == -1 then Fails(1)
    else if firstClear < top then Panics(AlreadyAllocated)
    else CodeFate(free - 1, top, long)
  }

  /** The same once the directory exists, while no page is free again and page top is the next. */
  function CodeFate(free: nat, top: nat, long: bool): Fate {
    if free < NewTable(top) then Panics(FailedPageTable)
    else if free == NewTable(top) then Fails(1 + NewTable(top))
    else
      match MappedFate(free - NewTable(top) - 1, top + 1, long)
      case Fails(lost) => Fails(2 + NewTable(top) + lost)
      case other => other
  }

  /** The same once the kernel stack is mapped, next being the next page. */
  function MappedFate(free: nat, next: nat, long: bool): Fate {
    if next >= PMM_PAGES then Fails(0)
    else if free < NewTable(next) then Panics(FailedPageTable)
    else if free == NewTable(next) then Fails(NewTable(next))
    else if long then Panics(PageFault)
    else Succeeds
  }

  /** An outcome of creation is the one foretold; free are the internal frames before it. */
  ghost predicate Meets(r: Outcome, fate: Fate, free: nat, frames: nat) {
    match fate
    case Fails(lost) => r.Failed? && FramesLeft(r.sys.mem) + lost == free
    case Panics(why) => r == Panicked(why)
    case Succeeds => r.Created? && FramesLeft(r.sys.mem) + frames == free
  }

  lemma FreeingKeepsFrames(m: Mem, d: nat, frame: nat)
    requires Shaped(m) && d < LOW_FRAMES && frame < PMM_START + PMM_PAGES
    ensures FreePage(m, frame).intr == m.intr && DestroyDir(m, d).intr == m.intr
  {
  }

  predicate Long(program: seq<byte>) {
    |program| > PAGE_SIZE
  }

  lemma CreateCodeMeets(s: Sys, m4: Mem, d: nat, stack: nat, code: nat, program: seq<byte>)
    requires SysOk(s) && FirstUnused(s.procs, 0) < MAX_PROCESSES
    requires PMM_START <= stack < PMM_START + PMM_PAGES && PMM_START <= code < PMM_START + PMM_PAGES && code == PMM_START + s.top + 1
    requires Stage(s, m4, d, map[STACK_PAGE := stack], s.top + 2)
    ensures Shaped(m4) && d < LOW_FRAMES
    ensures var r := CreateCode(s, FirstUnused(s.procs, 0), m4, d, stack, code, program);
            !m4.tables[d][Pdx(CODE_PAGE)].present ==>
              if FramesLeft(m4) == 0 then r.Failed? && FramesLeft(r.sys.mem) == 0
              else if Long(program) then r == Panicked(PageFault)
              else r.Created? && FramesLeft(r.sys.mem) == FramesLeft(m4) - 1
  {
    hide KernelMap, Translate, MapOne, DestroyDir, FreePage, Stage, SysOk, CopyFrom;
    var mine := map[STACK_PAGE := stack];
    StageOwned(s, m4, d, mine, s.top + 2);
    if !m4.tables[d][Pdx(CODE_PAGE)].present {
      assert USER_PROGRAM_BASE / PAGE_SIZE == CODE_PAGE;
      MapOneCosts(m4, s.dirs + {d}, d, USER_PROGRAM_BASE, code);
      SysParts(s);
      StageMap(s, m4, d, mine, s.top + 2, USER_PROGRAM_BASE, code);
      var (m5, mapped) := MapOne(m4, d, USER_PROGRAM_BASE, code);
      if mapped {
        StageCopies(s, m5, d, mine[CODE_PAGE := code], s.data[stack := Zeros(PAGE_SIZE)][code := Zeros(PAGE_SIZE)], code, program);
      }
      FreeingKeepsFrames(m5, d, stack);
      FreeingKeepsFrames(FreePage(m5, stack), d, stack);
      FreeingKeepsFrames(DestroyDir(FreePage(m5, stack), d), d, code);
    }
  }

  lemma StageOwned(s: Sys, m: Mem, d: nat, mine: map<nat, nat>, top: nat)
    requires SysOk(s) && Stage(s, m, d, mine, top)
    ensures SysShaped(s) && Shaped(m) && d < LOW_FRAMES && d != m.kdir && Owned(m, s.dirs + {d}) && KernelMap(m, s.dirs + {d}, top)
  {
    StageKeepsKdir(s, m, d, mine, top);
  }

  /** Every page below `next` is in use. */
  predicate UsedBelow(m: Mem, next: nat)
    requires Shaped(m) && next <= PMM_PAGES
  {
    forall k :: 0 <= k < next ==> m.pages[k]
  }

  lemma NextFree(m: Mem, dirs: set<nat>, next: nat)
    requires KernelMap(m, dirs, next) && next <= PMM_PAGES && Shaped(m) && UsedBelow(m, next)
    ensures FirstClear(m.pages, 0) == if next < PMM_PAGES then next else -1
  {
    if next < PMM_PAGES {
      assert !m.pages[next];
    }
  }

  lemma CreateMappedMeets(s: Sys, m3: Mem, d: nat, stack: nat, program: seq<byte>)
    requires SysOk(s) && FirstUnused(s.procs, 0) < MAX_PROCESSES
    requires stack == PMM_START + s.top && s.top < PMM_PAGES && Stage(s, m3, d, map[STACK_PAGE := stack], s.top + 1)
    requires Shaped(m3) && d < LOW_FRAMES && UsedBelow(m3, s.top + 1) && !m3.tables[d][Pdx(CODE_PAGE)].present
    ensures Meets(CreateMapped(s, FirstUnused(s.procs, 0), m3, d, stack, program), MappedFate(FramesLeft(m3), s.top + 1, Long(program)),
                  FramesLeft(m3), NewTable(s.top + 1) + 1)
  {
    hide KernelMap, Translate, CreateCode, DestroyDir, AllocPage, NewTable;
    var mine := map[STACK_PAGE := stack];
    StageOwned(s, m3, d, mine, s.top + 1);
    NextFree(m3, s.dirs + {d}, s.top + 1);
    AllocPageSpec(m3, s.dirs + {d}, s.top + 1);
    FreeingKeepsFrames(m3, d, stack);
    FreeingKeepsFrames(FreePage(m3, stack), d, stack);
    if s.top + 1 < PMM_PAGES {
      AllocCosts(m3, s.dirs + {d}, s.top + 1, d);
      var (m4, r) := AllocPage(m3);
      if r.Page? {
        StageAlloc(s, m3, d, mine, s.top + 1);
        CreateCodeMeets(s, m4, d, stack, r.frame, program);
      }
    }
  }

  lemma CreateStackMeets(s: Sys, m2: Mem, d: nat, stack: nat, program: seq<byte>)
    requires SysOk(s) && FirstUnused(s.procs, 0) < MAX_PROCESSES
    requires stack == PMM_START + s.top && s.top < PMM_PAGES && Stage(s, m2, d, map[], s.top + 1)
    requires Shaped(m2) && d < LOW_FRAMES && UsedBelow(m2, s.top + 1)
    requires !m2.tables[d][Pdx(STACK_PAGE)].present && !m2.tables[d][Pdx(CODE_PAGE)].present
    ensures var r := CreateStack(s, FirstUnused(s.procs, 0), m2, d, stack, program);
            if FramesLeft(m2) == 0 then r.Failed? && FramesLeft(r.sys.mem) == 0
            else Meets(r, MappedFate(FramesLeft(m2) - 1, s.top + 1, Long(program)), FramesLeft(m2) - 1, NewTable(s.top + 1) + 1)
  {
    hide KernelMap, Translate, CreateMapped, DestroyDir, MapOne, NewTable, MappedFate, Meets;
    StageOwned(s, m2, d, map[], s.top + 1);
    assert KERNEL_STACK_BASE / PAGE_SIZE == STACK_PAGE;
    MapOneCosts(m2, s.dirs + {d}, d, KERNEL_STACK_BASE, stack);
    StageMap(s, m2, d, map[], s.top + 1, KERNEL_STACK_BASE, stack);
    var (m3, ok) := MapOne(m2, d, KERNEL_STACK_BASE, stack);
    FreeingKeepsFrames(m3, d, stack);
    FreeingKeepsFrames(FreePage(m3, stack), d, stack);
    if ok {
      assert map[][STACK_PAGE := stack] == map[STACK_PAGE := stack];
      CreateMappedMeets(s, m3, d, stack, program);
    }
  }

  lemma CreateInDirMeets(s: Sys, m1: Mem, d: nat, program: seq<byte>)
    requires SysOk(s) && FirstUnused(s.procs, 0) < MAX_PROCESSES
    requires Stage(s, m1, d, map[], s.top) && m1.pages == s.mem.pages
    requires Shaped(m1) && d < LOW_FRAMES
    requires !m1.tables[d][Pdx(STACK_PAGE)].present && !m1.tables[d][Pdx(CODE_PAGE)].present
    requires FirstClear(m1.pages, 0) == s.top < PMM_PAGES
    ensures var r := CreateInDir(s, FirstUnused(s.procs, 0), m1, d, program);
            if FramesLeft(m1) < NewTable(s.top) then r == Panicked(FailedPageTable)
            else if FramesLeft(m1) == NewTable(s.top) then r.Failed? && FramesLeft(r.sys.mem) == 0
            else Meets(r, MappedFate(FramesLeft(m1) - NewTable(s.top) - 1, s.top + 1, Long(program)),
                       FramesLeft(m1) - NewTable(s.top) - 1, NewTable(s.top + 1) + 1)
  {
    hide KernelMap, Translate, CreateStack, DestroyDir, AllocPage, NewTable, MappedFate, Meets;
    StageOwned(s, m1, d, map[], s.top);
    AllocCosts(m1, s.dirs + {d}, s.top, d);
    StageAlloc(s, m1, d, map[], s.top);
    var (m2, r) := AllocPage(m1);
    if r.Page? {
      CreateStackMeets(s, m2, d, r.frame, program);
    }
  }

  /** A creation ends as foretold, and takes as many internal frames as foretold, in failure and in success. */
  lemma CreateMeetsFate(s: Sys, program: seq<byte>)
    requires SysOk(s)
    ensures Meets(Create(s, program),
                  FateOf(FirstUnused(s.procs, 0) < MAX_PROCESSES, FramesLeft(s.mem), FirstClear(s.mem.pages, 0), s.top, Long(program)),
                  FramesLeft(s.mem), 3 + NewTable(s.top) + NewTable(s.top + 1))
  {
    hide KernelMap, Translate, CreateInDir, NewTable, CreateDir;
    CreateDirCosts(s.mem);
    if FirstUnused(s.procs, 0) < MAX_PROCESSES && FramesLeft(s.mem) > 0 {
      var (m1, d) := (CreateDir(s.mem).0, CreateDir(s.mem).1.value);
      StageDir(s);
      StageOwned(s, m1, d, map[], s.top);
      NewRow(s.mem);
      AllocPageSpec(m1, s.dirs + {d}, s.top);
      if FirstClear(m1.pages, 0) == s.top < PMM_PAGES {
        CreateInDirMeets(s, m1, d, program);
      } else {
        hide AllocPage;
        NotNext(s, m1, d, program);
      }
    }
  }

  /**
   All-or-nothing does not hold of internal frames: a failure keeps some exactly when there was a slot and a
   frame for a directory.
   */
  lemma FailedCreationKeepsFrames(s: Sys, program: seq<byte>)
    requires SysOk(s) && Create(s, program).Failed?
    ensures Create(s, program).sys.mem.intr != s.mem.intr <==> FirstUnused(s.procs, 0) < MAX_PROCESSES && CreateDir(s.mem).1.Some?
  {
    hide SysOk, Create, CreateDir, FateOf;
    SysParts(s);
    CreateMeetsFate(s, program);
    CreateDirCosts(s.mem);
    LostIff(FirstUnused(s.procs, 0) < MAX_PROCESSES, FramesLeft(s.mem), FirstClear(s.mem.pages, 0), s.top, Long(program));
    if FirstUnused(s.procs, 0) == MAX_PROCESSES || CreateDir(s.mem).1 == None {
      NothingTaken(s, program);
    }
  }

  lemma LostIff(slot: bool, free: nat, firstClear: int, top: nat, long: bool)
    ensures var f := FateOf(slot, free, firstClear, top, long); f.Fails? ==> (f.lost > 0 <==> slot && free > 0)
  {
  }

  lemma NothingTaken(s: Sys, program: seq<byte>)
    requires SysShaped(s) && (FirstUnused(s.procs, 0) == MAX_PROCESSES || CreateDir(s.mem).1 == None)
    ensures Create(s, program).Failed? && Create(s, program).sys.mem == s.mem
  {
    hide CreateDir, CreateInDir;
  }

  lemma SysParts(s: Sys)
    requires SysOk(s)
    ensures SysShaped(s) && KernelMap(s.mem, s.dirs, s.top)
  {
  }

  lemma NewRow(m: Mem)
    requires Shaped(m) && CreateDir(m).1.Some?
    ensures var (m1, d) := (CreateDir(m).0, CreateDir(m).1.value);
            d < LOW_FRAMES && !m1.tables[d][Pdx(STACK_PAGE)].present && !m1.tables[d][Pdx(CODE_PAGE)].present
  {
  }

  /** With every page in use, or one free again, creation does not get past its first page. */
  lemma NotNext(s: Sys, m1: Mem, d: nat, program: seq<byte>)
    requires SysOk(s) && FirstUnused(s.procs, 0) < MAX_PROCESSES
    requires Stage(s, m1, d, map[], s.top) && Shaped(m1) && d < LOW_FRAMES && FirstClear(m1.pages, 0) != s.top
    ensures var r := CreateInDir(s, FirstUnused(s.procs, 0), m1, d, program);
            if FirstClear(m1.pages, 0) == -1 then r.Failed? && FramesLeft(r.sys.mem) == FramesLeft(m1)
            else FirstClear(m1.pages, 0) < s.top && r == Panicked(AlreadyAllocated)
  {
    hide KernelMap, Translate, CreateStack, DestroyDir, AllocPage;
    StageOwned(s, m1, d, map[], s.top);
    AllocPageSpec(m1, s.dirs + {d}, s.top);
    FreeingKeepsFrames(m1, d, 0);
  }
}
