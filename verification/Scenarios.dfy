/** Runs from boot that show each outcome of a creation to occur. */
module Scenarios {
  import opened Options
  import opened Bytes
  import opened Bitmap
  import opened Paging
  import opened Frames
  import opened Boot
  import opened Process
  import opened CreateFate
  import opened MapLoop
  import opened MemoryRuns

  lemma {:induction false} AllClear(bits: seq<bool>)
    requires forall i :: 0 <= i < |bits| ==> !bits[i]
    ensures ClearBits(bits) == |bits|
  {
    if bits != [] {
      AllClear(bits[..|bits| - 1]);
    }
  }

  lemma BootCounts(m: Mem)
    requires Shaped(m)
    ensures var s := BootSys(m);
            && Good(s) && FramesLeft(s.mem) == INTR_PAGES && FirstClear(s.mem.pages, 0) == 0 && s.top == 0
            && FirstUnused(s.procs, 0) == 0
  {
    BootOk(m);
    AllClear(NoneInUse(INTR_PAGES));
  }

  /** What there is to hand out after boot: 992 internal frames from 4 MiB on, and 1046496 pages from 8 MiB on. */
  lemma BootHandsOut(m: Mem)
    requires Shaped(m)
    ensures var b := BootSys(m).mem;
            && |b.intr| == 992 && IntrAlloc(b).1 == Some(0x40_0000 / 4096)
            && |b.pages| == 1046496 && AllocPage(b).1 == Page(0x80_0000 / 4096)
  {
    hide AllocPage, KernelMap, VmmInit, PmmInit, IntrAlloc;
    BootKernelMap(m);
    BootBits(m);
    AllocPageSpec(VmmInit(PmmInit(m)), {m.kdir}, 0);
  }

  lemma BootBits(m: Mem)
    requires Shaped(m)
    ensures var b := VmmInit(PmmInit(m));
            && |b.intr| == INTR_PAGES && |b.pages| == PMM_PAGES && !b.intr[0] && FirstClear(b.pages, 0) == 0
  {
    FirstOfNone(PMM_PAGES);
  }

  lemma FirstOfNone(n: nat)
    requires n > 0
    ensures FirstClear(NoneInUse(n), 0) == 0 && !NoneInUse(n)[0]
  {
  }

  lemma CreatedIsGood(s: Sys, program: seq<byte>)
    requires Good(s) && |program| <= PAGE_SIZE && s.nextPid < ADDRESSES - 1 && Create(s, program).Created?
    ensures var r := Create(s, program); Good(r.sys) && NewProcess(s, r.sys, r.slot, program)
  {
    CreateIsAllOrNothing(s, program);
    CreateKeeps(s, program);
    hide SysOk, PidsOk, Create, NewProcess;
  }

  lemma BootFate()
    ensures FateOf(true, INTR_PAGES, 0, 0, false) == Succeeds && FateOf(true, INTR_PAGES, 0, 0, true) == Panics(PageFault)
  {
  }

  lemma FirstIsCreated(s: Sys, program: seq<byte>)
    requires SysOk(s) && |program| <= PAGE_SIZE
    requires FramesLeft(s.mem) == INTR_PAGES && FirstClear(s.mem.pages, 0) == 0 && s.top == 0 && FirstUnused(s.procs, 0) == 0
    ensures SysShaped(s)
    ensures var r := Create(s, program); r.Created? && FramesLeft(r.sys.mem) == INTR_PAGES - 4
  {
    hide SysOk, Create, FateOf, NewProcess, FramesLeft, FirstClear, FirstUnused;
    SysParts(s);
    CreateMeetsFate(s, program);
    BootFate();
  }

  lemma FirstFaults(s: Sys, program: seq<byte>)
    requires SysOk(s) && |program| > PAGE_SIZE
    requires FramesLeft(s.mem) == INTR_PAGES && FirstClear(s.mem.pages, 0) == 0 && s.top == 0 && FirstUnused(s.procs, 0) == 0
    ensures SysShaped(s) && Create(s, program) == Panicked(PageFault)
  {
    hide SysOk, Create, FateOf, NewProcess, FramesLeft, FirstClear, FirstUnused;
    SysParts(s);
    CreateMeetsFate(s, program);
    BootFate();
  }

  /** With a program of more than a page the kernel faults when it copies past the page, and panics. */
  lemma LongProgramFaults(m: Mem, program: seq<byte>)
    requires Shaped(m) && |program| > PAGE_SIZE
    ensures SysShaped(BootSys(m)) && Create(BootSys(m), program) == Panicked(PageFault)
  {
    BootCounts(m);
    hide *;
    FirstFaults(BootSys(m), program);
  }

  lemma FirstCreation(s: Sys, program: seq<byte>)
    requires Good(s) && s.nextPid < ADDRESSES - 1 && |program| <= PAGE_SIZE
    requires FramesLeft(s.mem) == INTR_PAGES && FirstClear(s.mem.pages, 0) == 0 && s.top == 0 && FirstUnused(s.procs, 0) == 0
    ensures SysShaped(s)
    ensures var r := Create(s, program);
            r.Created? && r.slot == 0 && Good(r.sys) && FramesLeft(r.sys.mem) == INTR_PAGES - 4 && NewProcess(s, r.sys, 0, program)
  {
    hide SysOk, PidsOk, Create, NewProcess, FramesLeft, FirstClear;
    FirstIsCreated(s, program);
    CreatedIsGood(s, program);
    SlotIsFirst(s, program);
  }

  /** The first creation after boot succeeds, whatever the program and whatever memory held. */
  lemma FirstCreationSucceeds(m: Mem, program: seq<byte>)
    requires Shaped(m) && |program| <= PAGE_SIZE
    ensures SysShaped(BootSys(m))
    ensures var r := Create(BootSys(m), program);
            r.Created? && r.slot == 0 && Good(r.sys) && FramesLeft(r.sys.mem) == INTR_PAGES - 4
            && NewProcess(BootSys(m), r.sys, 0, program)
  {
    BootCounts(m);
    assert BootSys(m).nextPid == 1;
    hide *;
    FirstCreation(BootSys(m), program);
  }

  lemma SlotIsFirst(s: Sys, program: seq<byte>)
    requires SysOk(s) && |program| <= PAGE_SIZE && Create(s, program).Created?
    ensures Create(s, program).slot == FirstUnused(s.procs, 0)
  {
    CreateIsAllOrNothing(s, program);
    hide SysOk, Create;
  }

  /** Boot, create, terminate, create: the second creation finds its frames and panics. */
  lemma SecondCreationPanics(m: Mem, program: seq<byte>, second: seq<byte>)
    requires Shaped(m) && |program| <= PAGE_SIZE
    ensures SysShaped(BootSys(m))
    ensures var r := Create(BootSys(m), program);
            && r.Created? && r.slot == 0 && SysShaped(r.sys)
            && var s := Terminate(r.sys, r.sys.procs[0].pid);
               SysShaped(s) && Create(s, second) == Panicked(AlreadyAllocated)
  {
    FirstCreationSucceeds(m, program);
    hide SysOk, PidsOk, BootSys, Create, NewProcess, Terminate, CreateDir;
    var s := Create(BootSys(m), program).sys;
    SysParts(s);
    NewProcessMaps(BootSys(m), s, 0, program);
    CreateAfterTerminatePanics(s, 0, s.procs[0].kernelStack, second);
    TerminateKeepsFree(s, s.procs[0].pid);
    CreateDirCosts(Terminate(s, s.procs[0].pid).mem);
  }

  lemma NewProcessMaps(s: Sys, s': Sys, slot: nat, program: seq<byte>)
    requires NewProcess(s, s', slot, program)
    ensures SysShaped(s') && Live(s', slot)
    ensures var frame := s'.procs[slot].kernelStack;
            PMM_START <= frame < PMM_START + PMM_PAGES && MappedBy(s', slot, frame)
  {
    hide Translate, SysOk, Undisturbed, HoldsProgram;
    SysParts(s');
    assert UserFrame(s', slot, STACK_PAGE) == Some(s'.procs[slot].kernelStack);
  }

  lemma TerminateKeepsFree(s: Sys, pid: nat)
    requires SysShaped(s)
    ensures SysShaped(Terminate(s, pid)) && FramesLeft(Terminate(s, pid).mem) == FramesLeft(s.mem)
  {
  }

  // ---------- a failure that keeps a frame ----------

  function Allocs(n: nat): (ops: seq<Op>)
    ensures |ops| == n && forall i :: 0 <= i < n ==> ops[i] == Alloc
  {
    seq(n, i => Alloc)
  }

  /** No page below top is free again, and every frame taken is a table of the kernel's map. */
  ghost predicate NoneFreed(m: Mem, top: nat)
    requires Shaped(m) && top <= PMM_PAGES
  {
    UsedBelow(m, top) && FramesLeft(m) + (top + ENTRIES - 1) / ENTRIES == INTR_PAGES
  }

  /** Only allocations have happened since boot. */
  ghost predicate OnlyAllocs(s: Sys) {
    Good(s) && NoneFreed(s.mem, s.top) && FirstUnused(s.procs, 0) == 0
  }

  lemma TablesGrow(top: nat)
    requires top < INTR_PAGES * ENTRIES
    ensures (top + 1 + ENTRIES - 1) / ENTRIES == (top + ENTRIES - 1) / ENTRIES + NewTable(top) <= INTR_PAGES
  {
  }

  lemma AllocInOrder(m: Mem, dirs: set<nat>, top: nat)
    requires KernelMap(m, dirs, top) && Shaped(m) && top < INTR_PAGES * ENTRIES && NoneFreed(m, top)
    ensures AllocPage(m).1 == Page(PMM_START + top) && NoneFreed(AllocPage(m).0, top + 1)
  {
    hide KernelMap, AllocPage, FramesLeft, Translate, UsedBelow, NewTable;
    TablesGrow(top);
    NextFree(m, dirs, top);
    AllocTakes(m, dirs, top);
    AllocPageSpec(m, dirs, top);
    UsedGrows(m, AllocPage(m).0, top);
  }

  lemma AllocOnce(s: Sys)
    requires OnlyAllocs(s) && s.top < INTR_PAGES * ENTRIES
    ensures SysShaped(s) && Step(s, Alloc).Some?
    ensures var s' := Step(s, Alloc).value; OnlyAllocs(s') && s'.top == s.top + 1
  {
    hide SysOk, PidsOk, KernelMap, AllocPage, FirstUnused, NoneFreed;
    SysParts(s);
    AllocInOrder(s.mem, s.dirs, s.top);
    AllocKeeps(s);
  }

  lemma UsedGrows(m: Mem, m': Mem, next: nat)
    requires Shaped(m) && Shaped(m') && next < PMM_PAGES && UsedBelow(m, next) && m'.pages == m.pages[next := true]
    ensures UsedBelow(m', next + 1)
  {
  }

  lemma {:induction false} AllocRun(s: Sys, n: nat)
    requires OnlyAllocs(s) && s.top + n <= INTR_PAGES * ENTRIES
    ensures LegalRun(s, Allocs(n)) && Run(s, Allocs(n)).Some?
    ensures var s' := Run(s, Allocs(n)).value; OnlyAllocs(s') && s'.top == s.top + n
    decreases n
  {
    hide OnlyAllocs, Step;
    OnlyAllocsShaped(s);
    if n > 0 {
      AllocOnce(s);
      AllocRun(Step(s, Alloc).value, n - 1);
      assert Allocs(n)[1..] == Allocs(n - 1);
    }
  }

  lemma OnlyAllocsShaped(s: Sys)
    requires OnlyAllocs(s)
    ensures SysShaped(s)
  {
  }

  // So many that one internal frame is left.
  const MANY: nat := 990 * 1024 + 1

  lemma OneFrameFate()
    ensures forall long :: FateOf(true, 1, MANY, MANY, long) == Fails(1)
  {
  }

  /** After that many allocations a creation fails for want of frames and keeps the last one. */
  lemma FailureKeepsLastFrame(m: Mem, program: seq<byte>)
    requires Shaped(m)
    ensures LegalRun(BootSys(m), Allocs(MANY)) && Run(BootSys(m), Allocs(MANY)).Some?
    ensures var s := Run(BootSys(m), Allocs(MANY)).value;
            && SysShaped(s) && FramesLeft(s.mem) == 1
            && Create(s, program).Failed? && FramesLeft(Create(s, program).sys.mem) == 0
  {
    BootCounts(m);
    assert OnlyAllocs(BootSys(m));
    AllocRun(BootSys(m), MANY);
    var s := Run(BootSys(m), Allocs(MANY)).value;
    hide Run, LegalRun, BootSys, SysOk, PidsOk, KernelMap, Create, FateOf, FramesLeft, FirstUnused, FirstClear;
    SysParts(s);
    NextFree(s.mem, s.dirs, s.top);
    OneFrameFate();
    CreateMeetsFate(s, program);
  }

  // ---------- mapping the last page ----------

  /** A turn succeeds where a table is present or a frame is left. */
  lemma TurnSucceeds(m: Mem, dirs: set<nat>, d: nat, vp: nat, p: nat, pa: nat, flags: Flags)
    requires Owned(m, dirs) && d in dirs && d < LOW_FRAMES && p < PAGES && Shaped(m)
    requires m.tables[d][Pdx(p)].present || !m.intr[0]
    ensures MapTurn(m, d, vp, p, pa, flags).1
  {
    hide Owned, FrameFor;
    WalkOutcome(m, d, p);
    MapTurnKeepsOwned(m, dirs, d, vp, p, pa, flags);
  }

  /** Two turns from the last page on, while an internal frame is left. */
  lemma TwoTurnsFromLastPage(b: Mem, dirs: set<nat>, pa: nat, flags: Flags)
    requires Owned(b, dirs) && Shaped(b) && b.kdir < LOW_FRAMES && !b.intr[0] && flags.present
    ensures Turns(b, b.kdir, PAGES - 1, 2, pa, flags).1
    ensures Translate(Turns(b, b.kdir, PAGES - 1, 2, pa, flags).0, b.kdir, 0) == Some(FrameFor(pa, PAGES - 1, 0))
  {
    hide Owned, Turns, MapTurn, Translate, FrameFor;
    var vp := PAGES - 1;
    KernelRowPresent(b, dirs);
    TurnSucceeds(b, dirs, b.kdir, vp, vp, pa, flags);
    MapTurnKeepsOwned(b, dirs, b.kdir, vp, vp, pa, flags);
    MapTurnPresents(b, dirs, b.kdir, vp, vp, pa, flags);
    NoTurns(b, b.kdir, vp, pa, flags);
    NextTurn(b, b.kdir, vp, 0, pa, flags);
    var m1 := MapTurn(b, b.kdir, vp, vp, pa, flags).0;
    TurnSucceeds(m1, dirs, b.kdir, vp, 0, pa, flags);
    NextTurn(b, b.kdir, vp, 1, pa, flags);
    WrapOverwritesKernel(b, dirs, b.kdir, vp, pa, flags, b.kdir);
  }

  /**
   After boot, mapping the last page of the address space under the kernel's directory goes on behind it and takes
   page 0 of the kernel's own identity map.
   */
  lemma MappingLastPageOverwritesKernel(m: Mem, pa: nat, flags: Flags)
    requires Shaped(m) && flags.present
    ensures var b := BootSys(m).mem;
            && Shaped(b) && b.kdir < LOW_FRAMES && LastPage((PAGES - 1) * PAGE_SIZE, PAGE_SIZE) == PAGES - 1
            && Turns(b, b.kdir, PAGES - 1, 2, pa, flags).1
            && Translate(b, b.kdir, 0) == Some(0)
            && Translate(Turns(b, b.kdir, PAGES - 1, 2, pa, flags).0, b.kdir, 0) == Some(FrameFor(pa, PAGES - 1, 0))
  {
    hide KernelMap, VmmInit, PmmInit, Turns, Translate, FrameFor;
    BootKernelMap(m);
    BootBits(m);
    var b := VmmInit(PmmInit(m));
    KernelMapOwned(b, {m.kdir}, 0);
    SharedLow(b, {m.kdir}, 0, b.kdir, 0);
    TwoTurnsFromLastPage(b, {m.kdir}, pa, flags);
  }

  lemma KernelRowPresent(m: Mem, dirs: set<nat>)
    requires Owned(m, dirs) && m.kdir < LOW_FRAMES
    ensures Shaped(m) && m.kdir in dirs && m.tables[m.kdir][0].present
  {
  }
}
