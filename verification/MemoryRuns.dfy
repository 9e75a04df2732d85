/** Whole runs of page allocation, release, process creation and termination, from boot to a panic or the end. */
module MemoryRuns {
  import opened Options
  import opened Bytes
  import opened Paging
  import opened Frames
  import opened Boot
  import opened Process
  import opened CreateFate

  // ---------- boot ----------

  function BootSys(m: Mem): Sys
    requires Shaped(m)
  {
    Sys(VmmInit(PmmInit(m)), map[], EmptyTable(), 1, {m.kdir}, 0)
  }

  lemma BootOk(m: Mem)
    requires Shaped(m)
    ensures SysOk(BootSys(m)) && PidsOk(BootSys(m))
    ensures |BootSys(m).procs| == 10 && forall i :: 0 <= i < 10 ==> BootSys(m).procs[i] == Proc(0, Unused, 0, 0, 0, 0)
  {
    BootKernelMap(m);
    hide KernelMap, UserFrame, VmmInit, PmmInit;
  }

  // ---------- steps and runs ----------

  datatype Op =
    | Alloc
    | Free(frame: nat)
    | CreateProcess(program: seq<byte>)
    | TerminateProcess(slot: nat)

  /** No live process maps the frame above 8 MiB. */
  ghost predicate Unmapped(s: Sys, frame: nat)
    requires Shaped(s.mem)
  {
    forall i, q :: 0 <= i < |s.procs| && Live(s, i) && LOW_FRAMES <= q < PAGES ==> UserFrame(s, i, q) != Some(frame)
  }

  /** Pages are freed by others only while no process maps them, and what is terminated is live. */
  ghost predicate Legal(s: Sys, op: Op)
    requires SysShaped(s)
  {
    match op
    case Alloc => true
    case Free(frame) => frame < PMM_START + PMM_PAGES && Unmapped(s, frame)
    case CreateProcess(_) => true
    case TerminateProcess(slot) => Live(s, slot)
  }

  /** One operation; None is a kernel panic. */
  ghost function Step(s: Sys, op: Op): Option<Sys>
    requires SysShaped(s) && Legal(s, op)
  {
    match op
    case Alloc => (
      match AllocPage(s.mem)
      case (_, Panic(_)) => None
      case (_, Exhausted) => Some(s)
      case (m, Page(frame)) => Some(s.(mem := m, data := s.data[frame := Zeros(PAGE_SIZE)], top := s.top + 1)))
    case Free(frame) => Some(s.(mem := FreePage(s.mem, frame)))
    case CreateProcess(program) => (
      match Create(s, program)
      case Panicked(_) => None
      case Failed(s') => Some(s')
      case Created(s', _) => Some(s'))
    case TerminateProcess(slot) => Some(Terminate(s, s.procs[slot].pid))
  }

  ghost predicate Good(s: Sys) {
    SysOk(s) && PidsOk(s)
  }

  /** An operation that changes the bitmap and no live process's map, and keeps in use what they map. */
  lemma MemoryOnly(s: Sys, s': Sys)
    requires SysOk(s) && s' == s.(mem := s'.mem, data := s'.data, top := s'.top)
    requires KernelMap(s'.mem, s.dirs, s'.top) && SameLayout(s.mem, s'.mem)
    requires forall e, q :: e in s.dirs && e < LOW_FRAMES && e != s.mem.kdir && 0 <= q < PAGES ==>
               Translate(s'.mem, e, q) == Translate(s.mem, e, q)
    requires forall k :: 0 <= k < PMM_PAGES && s.mem.pages[k] && !s'.mem.pages[k] ==> Unmapped(s, PMM_START + k)
    ensures SysOk(s')
  {
    hide KernelMap, Translate;
    KernelMapOwned(s'.mem, s.dirs, s'.top);
    forall i, q | 0 <= i < MAX_PROCESSES && Live(s', i) && LOW_FRAMES <= q < PAGES
      ensures UserFrame(s', i, q) == UserFrame(s, i, q)
    {
      assert Live(s, i);
    }
    hide UserFrame;
  }

  ghost predicate GoodNext(s: Sys, r: Option<Sys>) {
    r.Some? ==> Good(r.value) && s.nextPid <= r.value.nextPid <= s.nextPid + 1 && s.top <= r.value.top && s.dirs <= r.value.dirs
  }

  lemma AllocKeeps(s: Sys)
    requires Good(s)
    ensures GoodNext(s, Step(s, Alloc))
  {
    hide KernelMap, Translate, AllocPage, SysOk;
    SysParts(s);
    KernelMapOwned(s.mem, s.dirs, s.top);
    AllocPageSpec(s.mem, s.dirs, s.top);
    var (m, r) := AllocPage(s.mem);
    if r.Page? {
      MemoryOnly(s, s.(mem := m, data := s.data[r.frame := Zeros(PAGE_SIZE)], top := s.top + 1));
    }
  }

  lemma FreeKeeps(s: Sys, frame: nat)
    requires Good(s) && frame < PMM_START + PMM_PAGES && Unmapped(s, frame)
    ensures GoodNext(s, Step(s, Free(frame)))
  {
    hide KernelMap, Translate, SysOk, Unmapped;
    SysParts(s);
    FreeKeepsKernelMap(s.mem, s.dirs, s.top, frame);
    MemoryOnly(s, s.(mem := FreePage(s.mem, frame)));
  }

  lemma CreateKeeps(s: Sys, program: seq<byte>)
    requires Good(s) && s.nextPid < ADDRESSES - 1
    ensures GoodNext(s, Step(s, CreateProcess(program)))
  {
    CreateIsAllOrNothing(s, program);
    CreateKeepsPids(s, program);
    CreateGrows(s, program);
    hide SysOk, PidsOk, Create, Undisturbed, HoldsContext;
  }

  lemma CreateGrows(s: Sys, program: seq<byte>)
    requires SysShaped(s) && s.nextPid < ADDRESSES - 1
    ensures match Create(s, program)
            case Panicked(_) => true
            case Failed(s') => s.nextPid <= s'.nextPid && s.top <= s'.top && s.dirs <= s'.dirs
            case Created(s', _) => s.nextPid <= s'.nextPid && s.top <= s'.top && s.dirs <= s'.dirs
  {
    hide AllocPage, CreateDir, MapOne, DestroyDir, FreePage, FirstUnused;
  }

  lemma StepKeeps(s: Sys, op: Op)
    requires Good(s) && Legal(s, op) && (op.CreateProcess? ==> s.nextPid < ADDRESSES - 1)
    ensures GoodNext(s, Step(s, op))
    ensures Step(s, op).Some? && !op.CreateProcess? ==> Step(s, op).value.nextPid == s.nextPid
  {
    hide SysOk, PidsOk, AllocPage, Create, Terminate, Unmapped, FreePage;
    SysParts(s);
    match op
    case Alloc => AllocKeeps(s);
    case Free(frame) => FreeKeeps(s, frame);
    case CreateProcess(program) => CreateKeeps(s, program);
    case TerminateProcess(slot) =>
      TerminateFreesOwnPages(s, slot);
      TerminateGrows(s, s.procs[slot].pid);
  }

  lemma TerminateGrows(s: Sys, pid: nat)
    requires SysShaped(s)
    ensures Terminate(s, pid).top == s.top && Terminate(s, pid).dirs == s.dirs && Terminate(s, pid).nextPid == s.nextPid
  {
  }

  /** The state after a run, None from the first panic on. */
  ghost function Run(s: Sys, ops: seq<Op>): Option<Sys>
    requires SysShaped(s) && LegalRun(s, ops)
    decreases ops
  {
    if ops == [] then Some(s)
    else
      match Step(s, ops[0])
      case None => None
      case Some(s1) => Run(s1, ops[1..])
  }

  /** Every operation reached is legal where it is reached. */
  ghost predicate LegalRun(s: Sys, ops: seq<Op>)
    decreases ops
  {
    SysShaped(s) && (ops == [] || (Legal(s, ops[0]) && (Step(s, ops[0]).Some? ==> LegalRun(Step(s, ops[0]).value, ops[1..]))))
  }

  /** How many of the operations spend a pid. */
  function Creations(ops: seq<Op>): nat {
    if ops == [] then 0 else (if ops[0].CreateProcess? then 1 else 0) + Creations(ops[1..])
  }

  /**
   Over every run from a good state that does not panic and does not use up the 32-bit pids: the kernel's map
   holds of the pages ever allocated, live processes have their own pids and directories, map only pages in use,
   and no two map the same page.
   */
  lemma {:induction false} RunKeepsGood(s: Sys, ops: seq<Op>)
    requires Good(s) && LegalRun(s, ops) && s.nextPid + Creations(ops) <= ADDRESSES - 1
    ensures Run(s, ops).Some? ==> Good(Run(s, ops).value) && s.top <= Run(s, ops).value.top
    decreases ops
  {
    hide SysOk, PidsOk, Step, Legal;
    if ops != [] {
      StepKeeps(s, ops[0]);
      if Step(s, ops[0]).Some? {
        RunKeepsGood(Step(s, ops[0]).value, ops[1..]);
      }
    }
  }

  /** So from boot on, whatever memory held before. */
  lemma BootedRunsAreGood(m: Mem, ops: seq<Op>)
    requires Shaped(m) && LegalRun(BootSys(m), ops) && Creations(ops) < ADDRESSES - 1
    ensures Run(BootSys(m), ops).Some? ==> Good(Run(BootSys(m), ops).value)
  {
    hide SysOk, PidsOk, Step, Legal, Run, LegalRun;
    BootOk(m);
    RunKeepsGood(BootSys(m), ops);
  }

  // ---------- freed pages and panics ----------

  /** A page that was handed out once and is free again. */
  predicate Freed(s: Sys, k: nat)
    requires SysShaped(s)
  {
    k < s.top && k < PMM_PAGES && !s.mem.pages[k]
  }

  /** While some page is free again, allocation panics, and so does any creation that gets as far as a page. */
  lemma FreedPagePanics(s: Sys, k: nat, program: seq<byte>)
    requires SysOk(s) && Freed(s, k)
    ensures AllocPage(s.mem).1 == Panic(AlreadyAllocated)
    ensures FirstUnused(s.procs, 0) < MAX_PROCESSES && CreateDir(s.mem).1.Some? ==> Create(s, program) == Panicked(AlreadyAllocated)
  {
    hide KernelMap, AllocPage, CreateStack, Translate;
    AllocPageSpec(s.mem, s.dirs, s.top);
    if CreateDir(s.mem).1.Some? {
      var (m1, d) := (CreateDir(s.mem).0, CreateDir(s.mem).1.value);
      CreateDirSpec(s.mem, s.dirs, s.top);
      AllocPageSpec(m1, s.dirs + {d}, s.top);
    }
  }

  /** So after a process that had a page is terminated, no further process can be created: the kernel panics or has no frame. */
  lemma CreateAfterTerminatePanics(s: Sys, i: nat, frame: nat, program: seq<byte>)
    requires Good(s) && Live(s, i) && PMM_START <= frame < PMM_START + PMM_PAGES && MappedBy(s, i, frame)
    ensures var s' := Terminate(s, s.procs[i].pid);
            CreateDir(s'.mem).1.Some? ==> Create(s', program) == Panicked(AlreadyAllocated)
  {
    hide Create, AllocPage, Terminate, CreateDir;
    var s' := Terminate(s, s.procs[i].pid);
    TerminateFreesOwnPages(s, i);
    TerminateGrows(s, s.procs[i].pid);
    MappedPageIsOld(s, i, frame);
    FreedPagePanics(s', frame - PMM_START, program);
  }

  lemma MappedPageIsOld(s: Sys, i: nat, frame: nat)
    requires SysOk(s) && Live(s, i) && PMM_START <= frame < PMM_START + PMM_PAGES && MappedBy(s, i, frame)
    ensures frame - PMM_START < s.top
  {
  }
}
