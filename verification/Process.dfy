/** The process table: creation with its rollbacks, termination, and isolation over whole runs. */
module Process {
  import opened Options
  import opened Bytes
  import opened Paging
  import opened Frames

  const MAX_PROCESSES: nat := 10
  const KERNEL_STACK_BASE: nat := 0x1000_0000
  const KERNEL_STACK_SIZE: nat := 4096
  const USER_PROGRAM_BASE: nat := 0x8000_0000
  const CONTEXT_SIZE: nat := 20
  const STACK_PAGE: nat := 0x1_0000   // KERNEL_STACK_BASE / PAGE_SIZE
  const CODE_PAGE: nat := 0x8_0000    // USER_PROGRAM_BASE / PAGE_SIZE

  datatype State = Unused | Embryo | Runnable | Running

  /** The fields of process_t that creation sets; context is a physical address, stackPointer a virtual one. */
  datatype Proc = Proc(pid: nat, state: State, dir: nat, kernelStack: nat, stackPointer: nat, context: nat)

  /**
   Memory, the contents of the pages handed out, the process table and the next pid. dirs and top record
   which directories exist and how many pages were ever allocated; the program stores neither.
   */
  datatype Sys = Sys(mem: Mem, data: map<nat, seq<byte>>, procs: seq<Proc>, nextPid: nat, dirs: set<nat>, top: nat)

  datatype Outcome = Panicked(why: PanicMessage) | Failed(sys: Sys) | Created(sys: Sys, slot: nat)

  function FirstUnused(procs: seq<Proc>, k: nat): (i: nat)
    requires k <= |procs|
    ensures k <= i <= |procs| && (i < |procs| ==> procs[i].state == Unused)
    ensures forall j :: k <= j < i ==> procs[j].state != Unused
    decreases |procs| - k
  {
    if k == |procs| || procs[k].state == Unused then k else FirstUnused(procs, k + 1)
  }

  // The protection bits of both mappings: present, read-only, supervisor.
  const PROCESS_FLAGS: Flags := Flags(true, false, false)

  /** A zeroed context whose last word, eip, is the program's base. */
  const INITIAL_CONTEXT: seq<byte> := Zeros(16) + ToLe32(USER_PROGRAM_BASE)

  function CodeContents(program: seq<byte>): seq<byte>
    requires |program| <= PAGE_SIZE
  {
    program + Zeros(PAGE_SIZE - |program|)
  }

  /** The bytes of a page; what was never written counts as zero. */
  function PageOf(data: map<nat, seq<byte>>, frame: nat): (b: seq<byte>)
    ensures |b| == PAGE_SIZE
  {
    if frame in data && |data[frame]| == PAGE_SIZE then data[frame] else Zeros(PAGE_SIZE)
  }

  /** memcpy of the kernel to page p and the pages behind it, each through the kernel's map; None is a page fault. */
  function CopyFrom(m: Mem, data: map<nat, seq<byte>>, p: nat, bytes: seq<byte>): Option<map<nat, seq<byte>>>
    requires Shaped(m)
    decreases |bytes|
  {
    if bytes == [] then Some(data)
    else
      match Translate(m, m.kdir, p)
      case None => None
      case Some(frame) =>
        var n := if |bytes| < PAGE_SIZE then |bytes| else PAGE_SIZE;
        CopyFrom(m, data[frame := bytes[..n] + PageOf(data, frame)[n..]], p + 1, bytes[n..])
  }

  ghost function MapOne(m: Mem, d: nat, va: nat, frame: nat): (r: (Mem, bool))
    requires Shaped(m) && d < LOW_FRAMES && va < ADDRESSES && LastPage(va, KERNEL_STACK_SIZE) < PAGES - 1
    ensures Shaped(r.0)
  {
    MapPages(m, d, va, frame * PAGE_SIZE, KERNEL_STACK_SIZE, PROCESS_FLAGS)
  }

  predicate SysShaped(s: Sys) {
    Shaped(s.mem) && |s.procs| == MAX_PROCESSES
  }

  /** next_pid++ on 32 bits. */
  function NextPid(pid: nat): nat {
    (pid + 1) % ADDRESSES
  }

  /** What is left when creation gives up: the pid is spent, the slot unused again. */
  function GaveUp(s: Sys, slot: nat, p: Proc, mem: Mem, data: map<nat, seq<byte>>, dirs: set<nat>, top: nat): Sys
    requires slot < |s.procs|
  {
    Sys(mem, data, s.procs[slot := p.(pid := s.nextPid, state := Unused)], NextPid(s.nextPid), dirs, top)
  }

  const NO_PROC: Proc := Proc(0, Unused, 0, 0, 0, 0)

  /** The process table as it is before the first creation. */
  function EmptyTable(): (procs: seq<Proc>)
    ensures |procs| == MAX_PROCESSES && forall i :: 0 <= i < MAX_PROCESSES ==> procs[i] == NO_PROC
  {
    seq(MAX_PROCESSES, i => NO_PROC)
  }

  /** process_create. */
  ghost function Create(s: Sys, program: seq<byte>): Outcome
    requires SysShaped(s)
  {
    var slot := FirstUnused(s.procs, 0);
    if slot == MAX_PROCESSES then Failed(s)
    else
      match CreateDir(s.mem)
      case (m1, None) => Failed(GaveUp(s, slot, NO_PROC, m1, s.data, s.dirs, s.top))
      case (m1, Some(d)) => CreateInDir(s, slot, m1, d, program)
  }

  /** process_create from the point where the directory exists. */
  ghost function CreateInDir(s: Sys, slot: nat, m1: Mem, d: nat, program: seq<byte>): Outcome
    requires SysShaped(s) && Shaped(m1) && slot < MAX_PROCESSES && d < LOW_FRAMES
  {
    match AllocPage(m1)
    case (_, Panic(why)) => Panicked(why)
    case (_, Exhausted) =>
      Failed(GaveUp(s, slot, NO_PROC.(dir := d), DestroyDir(m1, d), s.data, s.dirs + {d}, s.top))
    case (m2, Page(stack)) => CreateStack(s, slot, m2, d, stack, program)
  }

  /** process_create from the point where directory and kernel stack exist. */
  ghost function CreateStack(s: Sys, slot: nat, m2: Mem, d: nat, stack: nat, program: seq<byte>): Outcome
    requires SysShaped(s) && Shaped(m2) && slot < MAX_PROCESSES && d < LOW_FRAMES
    requires PMM_START <= stack < PMM_START + PMM_PAGES
  {
    var p := NO_PROC.(dir := d, kernelStack := stack);
    var data := s.data[stack := Zeros(PAGE_SIZE)];
    var (m3, mapped) := MapOne(m2, d, KERNEL_STACK_BASE, stack);
    if !mapped then Failed(GaveUp(s, slot, p, DestroyDir(FreePage(m3, stack), d), data, s.dirs + {d}, s.top + 1))
    else CreateMapped(s, slot, m3, d, stack, program)
  }

  /** process_create from the point where the kernel stack is mapped. */
  ghost function CreateMapped(s: Sys, slot: nat, m3: Mem, d: nat, stack: nat, program: seq<byte>): Outcome
    requires SysShaped(s) && Shaped(m3) && slot < MAX_PROCESSES && d < LOW_FRAMES
    requires PMM_START <= stack < PMM_START + PMM_PAGES
  {
    match AllocPage(m3)
    case (_, Panic(why)) => Panicked(why)
    case (_, Exhausted) =>
      Failed(GaveUp(s, slot, NO_PROC.(dir := d, kernelStack := stack), DestroyDir(FreePage(m3, stack), d),
                    s.data[stack := Zeros(PAGE_SIZE)], s.dirs + {d}, s.top + 1))
    case (m4, Page(code)) => CreateCode(s, slot, m4, d, stack, code, program)
  }

  /** The system once the program is copied, which leaves data, and the context written. */
  function CreatedSys(s: Sys, slot: nat, m: Mem, d: nat, stack: nat, data: map<nat, seq<byte>>): Sys
    requires slot < |s.procs|
  {
    var q := Proc(s.nextPid, Runnable, d, stack, KERNEL_STACK_BASE + KERNEL_STACK_SIZE - CONTEXT_SIZE,
                  stack * PAGE_SIZE + KERNEL_STACK_SIZE - CONTEXT_SIZE);
    Sys(m, data[stack := PageOf(data, stack)[..PAGE_SIZE - CONTEXT_SIZE] + INITIAL_CONTEXT],
        s.procs[slot := q], NextPid(s.nextPid), s.dirs + {d}, s.top + 2)
  }

  /** process_create from the point where the program's page exists as well. */
  ghost function CreateCode(s: Sys, slot: nat, m4: Mem, d: nat, stack: nat, code: nat, program: seq<byte>): Outcome
    requires SysShaped(s) && Shaped(m4) && slot < MAX_PROCESSES && d < LOW_FRAMES
    requires PMM_START <= stack < PMM_START + PMM_PAGES && PMM_START <= code < PMM_START + PMM_PAGES
  {
    var p := NO_PROC.(dir := d, kernelStack := stack);
    var (m5, mapped) := MapOne(m4, d, USER_PROGRAM_BASE, code);
    if !mapped then
      Failed(GaveUp(s, slot, p, FreePage(DestroyDir(FreePage(m5, stack), d), code),
                    s.data[stack := Zeros(PAGE_SIZE)][code := Zeros(PAGE_SIZE)], s.dirs + {d}, s.top + 2))
    else
      match CopyFrom(m5, s.data[stack := Zeros(PAGE_SIZE)][code := Zeros(PAGE_SIZE)], code, program)
      case None => Panicked(PageFault)
      case Some(data) => Created(CreatedSys(s, slot, m5, d, stack, data), slot)
  }

  // ---------- what holds of the system ----------

  predicate Live(s: Sys, i: nat) {
    i < |s.procs| && s.procs[i].state != Unused
  }

  /** The frame that process i maps user page q to. */
  function UserFrame(s: Sys, i: nat, q: nat): Option<nat>
    requires Shaped(s.mem) && i < |s.procs|
  {
    if s.procs[i].dir < LOW_FRAMES then Translate(s.mem, s.procs[i].dir, q) else None
  }

  /** Live processes have directories of their own. */
  ghost predicate TableOk(s: Sys) {
    && (forall i :: 0 <= i < |s.procs| && Live(s, i) ==> s.procs[i].dir in s.dirs && s.procs[i].dir != s.mem.kdir)
    && (forall i, j :: 0 <= i < j < |s.procs| && Live(s, i) && Live(s, j) ==> s.procs[i].dir != s.procs[j].dir)
  }

  /** Above 8 MiB a live process maps only pages that are in use. */
  ghost predicate MapsUsedPages(s: Sys)
    requires Shaped(s.mem)
  {
    forall i, q :: 0 <= i < |s.procs| && Live(s, i) && LOW_FRAMES <= q < PAGES && UserFrame(s, i, q).Some? ==>
      InUse(s.mem, UserFrame(s, i, q).value)
  }

  predicate InUse(m: Mem, frame: nat)
    requires Shaped(m)
  {
    PMM_START <= frame < PMM_START + PMM_PAGES && m.pages[frame - PMM_START]
  }

  /** And no two live processes map the same page. */
  ghost predicate Isolated(s: Sys)
    requires Shaped(s.mem)
  {
    forall i, q, j, r ::
      (0 <= i < |s.procs| && 0 <= j < |s.procs| && Live(s, i) && Live(s, j) && i != j
       && LOW_FRAMES <= q < PAGES && LOW_FRAMES <= r < PAGES && UserFrame(s, i, q).Some?) ==>
        UserFrame(s, i, q) != UserFrame(s, j, r)
  }

  ghost predicate SysOk(s: Sys) {
    SysShaped(s) && KernelMap(s.mem, s.dirs, s.top) && TableOk(s) && MapsUsedPages(s) && Isolated(s)
  }

  // ---------- the stages of creation ----------

  /**
   A stage of creating a process of s: memory m has the new directory d, which maps exactly `mine` above
   8 MiB; tops pages were ever allocated; every older user directory translates as in s.
   */
  ghost predicate Stage(s: Sys, m: Mem, d: nat, mine: map<nat, nat>, top: nat) {
    && Shaped(s.mem) && KernelMap(m, s.dirs + {d}, top) && d !in s.dirs && d < LOW_FRAMES && SameLayout(s.mem, m)
    && (forall q :: LOW_FRAMES <= q < PAGES ==> Translate(m, d, q) == if q in mine then Some(mine[q]) else None)
    && (forall e, q :: e in s.dirs && e < LOW_FRAMES && e != m.kdir && 0 <= q < PAGES ==>
          Translate(m, e, q) == Translate(s.mem, e, q))
  }

  lemma StageKeepsKdir(s: Sys, m: Mem, d: nat, mine: map<nat, nat>, top: nat)
    requires KernelMap(s.mem, s.dirs, s.top) && Stage(s, m, d, mine, top)
    ensures Shaped(m) && m.kdir == s.mem.kdir && d != m.kdir && m.kdir in s.dirs && top <= PMM_PAGES
  {
  }

  lemma StageDir(s: Sys)
    requires SysShaped(s) && KernelMap(s.mem, s.dirs, s.top) && CreateDir(s.mem).1.Some?
    ensures Stage(s, CreateDir(s.mem).0, CreateDir(s.mem).1.value, map[], s.top)
    ensures CreateDir(s.mem).0.pages == s.mem.pages
  {
    hide KernelMap, Translate;
    CreateDirSpec(s.mem, s.dirs, s.top);
  }

  lemma StageAlloc(s: Sys, m: Mem, d: nat, mine: map<nat, nat>, top: nat)
    requires KernelMap(s.mem, s.dirs, s.top) && Stage(s, m, d, mine, top)
    ensures Shaped(m)
    ensures var (m', r) := AllocPage(m);
            && (r.Exhausted? ==> m' == m)
            && (r.Page? ==>
                  && r.frame == PMM_START + top && top < PMM_PAGES && !m.pages[top]
                  && m'.pages == m.pages[top := true] && Stage(s, m', d, mine, top + 1))
  {
    hide KernelMap, Translate, AllocPage;
    StageKeepsKdir(s, m, d, mine, top);
    AllocPageSpec(m, s.dirs + {d}, top);
  }

  lemma StageMap(s: Sys, m: Mem, d: nat, mine: map<nat, nat>, top: nat, va: nat, frame: nat)
    requires KernelMap(s.mem, s.dirs, s.top) && Stage(s, m, d, mine, top)
    requires va % PAGE_SIZE == 0 && LOW_FRAMES <= va / PAGE_SIZE < PAGES - 1 && frame < PAGES
    ensures LastPage(va, KERNEL_STACK_SIZE) < PAGES - 1 && Shaped(m) && d < LOW_FRAMES
    ensures var (m', ok) := MapOne(m, d, va, frame);
            && m'.pages == m.pages
            && Stage(s, m', d, if ok then mine[va / PAGE_SIZE := frame] else mine, top)
  {
    hide KernelMap, Translate, MapRun;
    StageKeepsKdir(s, m, d, mine, top);
    var p, pa := va / PAGE_SIZE, frame * PAGE_SIZE;
    assert LastPage(va, KERNEL_STACK_SIZE) == p;
    KernelMapOwned(m, s.dirs + {d}, top);
    MapKeepsKernelMap(m, s.dirs + {d}, top, d, p, pa, PROCESS_FLAGS);
    var (m', ok) := MapOne(m, d, va, frame);
    if !ok {
      MapOneFails(m, s.dirs + {d}, d, p, pa, PROCESS_FLAGS);
    }
    assert FrameFor(pa, p, p) == frame;
    forall e, q | e in s.dirs + {d} && e < LOW_FRAMES && 0 <= q < PAGES
      ensures e != d || q != p ==> Translate(m', e, q) == Translate(m, e, q)
      ensures ok && e == d && q == p ==> Translate(m', e, q) == Some(frame)
    {
      MapTranslates(m, s.dirs + {d}, d, p, p, p, pa, PROCESS_FLAGS, e, q);
    }
  }

  lemma MapOneFails(m: Mem, dirs: set<nat>, d: nat, p: nat, pa: nat, flags: Flags)
    requires Owned(m, dirs) && d in dirs && d < LOW_FRAMES && p < PAGES
    ensures Shaped(m)
    ensures !MapRun(m, d, p, p, p, pa, flags).1 ==> MapRun(m, d, p, p, p, pa, flags).0 == m
  {
  }

  lemma StageMaps(s: Sys, m: Mem, d: nat, mine: map<nat, nat>, top: nat, k: nat)
    requires KernelMap(s.mem, s.dirs, s.top) && Stage(s, m, d, mine, top) && k < PMM_PAGES
    requires forall q :: q in mine ==> LOW_FRAMES <= q < PAGES
    ensures Shaped(m)
    ensures Maps(m, d, PMM_START + k) <==> PMM_START + k in mine.Values
  {
    hide KernelMap, Translate;
    StageKeepsKdir(s, m, d, mine, top);
    if p :| 0 <= p < PAGES && Translate(m, d, p) == Some(PMM_START + k) {
      if p < LOW_FRAMES {
        SharedLow(m, s.dirs + {d}, top, d, p);
      }
      assert p in mine && mine[p] == PMM_START + k;
    }
    if PMM_START + k in mine.Values {
      var q :| q in mine && mine[q] == PMM_START + k;
      assert Translate(m, d, q) == Some(PMM_START + k);
    }
  }

  /** Destroying the new directory frees exactly what it maps. */
  lemma StageDestroy(s: Sys, m: Mem, d: nat, mine: map<nat, nat>, top: nat)
    requires KernelMap(s.mem, s.dirs, s.top) && Stage(s, m, d, mine, top)
    requires forall q :: q in mine ==> LOW_FRAMES <= q < PAGES
    ensures Shaped(m) && d < LOW_FRAMES
    ensures forall k :: 0 <= k < PMM_PAGES ==>
              (DestroyDir(m, d).pages[k] <==> m.pages[k] && PMM_START + k !in mine.Values)
    ensures Stage(s, DestroyDir(m, d), d, mine, top)
  {
    hide KernelMap, Translate, Maps;
    StageKeepsKdir(s, m, d, mine, top);
    DestroyKeepsKernelMap(m, s.dirs + {d}, top, d);
    var m' := DestroyDir(m, d);
    forall k | 0 <= k < PMM_PAGES ensures m'.pages[k] <==> m.pages[k] && PMM_START + k !in mine.Values {
      StageMaps(s, m, d, mine, top, k);
    }
  }

  lemma StageFree(s: Sys, m: Mem, d: nat, mine: map<nat, nat>, top: nat, frame: nat)
    requires KernelMap(s.mem, s.dirs, s.top) && Stage(s, m, d, mine, top) && PMM_START <= frame < PMM_START + PMM_PAGES
    ensures Shaped(m) && FreePage(m, frame).pages == m.pages[frame - PMM_START := false]
    ensures Stage(s, FreePage(m, frame), d, mine, top)
  {
    hide KernelMap, Translate;
    StageKeepsKdir(s, m, d, mine, top);
    FreeKeepsKernelMap(m, s.dirs + {d}, top, frame);
  }

  // ---------- the outcome of creation ----------

  /** On the live processes of s, a stage translates as s does. */
  lemma StageUserFrame(s: Sys, s': Sys, d: nat, mine: map<nat, nat>, top: nat, i: nat, q: nat)
    requires SysOk(s) && Stage(s, s'.mem, d, mine, top) && Live(s, i) && i < |s'.procs| && s'.procs[i] == s.procs[i]
    requires LOW_FRAMES <= q < PAGES
    ensures Shaped(s'.mem) && UserFrame(s', i, q) == UserFrame(s, i, q)
  {
  }

  /** A stage whose pages are those of s, with the slot unused, is a system in order. */
  lemma GaveUpOk(s: Sys, m: Mem, d: nat, mine: map<nat, nat>, top: nat, slot: nat, p: Proc, data: map<nat, seq<byte>>)
    requires SysOk(s) && Stage(s, m, d, mine, top) && slot < MAX_PROCESSES && s.procs[slot].state == Unused
    requires m.pages == s.mem.pages
    ensures SysOk(GaveUp(s, slot, p, m, data, s.dirs + {d}, top))
  {
    var s' := GaveUp(s, slot, p, m, data, s.dirs + {d}, top);
    StageKeepsKdir(s, m, d, mine, top);
    forall i, q | 0 <= i < MAX_PROCESSES && Live(s', i) && LOW_FRAMES <= q < PAGES
      ensures Live(s, i) && UserFrame(s', i, q) == UserFrame(s, i, q)
    {
      StageUserFrame(s, s', d, mine, top, i, q);
    }
    hide KernelMap, Translate, UserFrame;
  }

  /** The pages of the new process: the kernel stack and the program. */
  function Mine(stack: nat, code: nat): map<nat, nat> {
    map[STACK_PAGE := stack, CODE_PAGE := code]
  }

  /** Two different pages, free before, are now in use, and no page else changed. */
  ghost predicate TookPages(m: Mem, m': Mem, a: nat, b: nat)
    requires Shaped(m) && Shaped(m')
  {
    && a != b && !InUse(m, a) && !InUse(m, b) && InUse(m', a) && InUse(m', b)
    && m'.pages == m.pages[a - PMM_START := true][b - PMM_START := true]
  }

  /** The situation in which creation succeeds: a stage that maps two pages that were free in s. */
  ghost predicate Done(s: Sys, s': Sys, slot: nat, stack: nat, code: nat) {
    && SysOk(s) && SysShaped(s') && slot < MAX_PROCESSES && s.procs[slot].state == Unused
    && s' == Sys(s'.mem, s'.data, s.procs[slot := s'.procs[slot]], s'.nextPid, s.dirs + {s'.procs[slot].dir}, s'.top)
    && s'.procs[slot].state != Unused
    && Stage(s, s'.mem, s'.procs[slot].dir, Mine(stack, code), s'.top) && TookPages(s.mem, s'.mem, stack, code)
  }

  /** The frames above 8 MiB that live processes map in s': those of s, and for the new slot the two pages. */
  ghost predicate DoneFrames(s: Sys, s': Sys, slot: nat, stack: nat, code: nat)
    requires Shaped(s.mem) && Shaped(s'.mem)
  {
    && |s.procs| == |s'.procs| && (forall i :: 0 <= i < |s'.procs| && i != slot ==> (Live(s', i) <==> Live(s, i)))
    && forall i, p :: 0 <= i < |s'.procs| && Live(s', i) && LOW_FRAMES <= p < PAGES ==>
         if i == slot then UserFrame(s', i, p) == None || UserFrame(s', i, p) == Some(stack) || UserFrame(s', i, p) == Some(code)
         else UserFrame(s', i, p) == UserFrame(s, i, p)
  }

  lemma DoneHasFrames(s: Sys, s': Sys, slot: nat, stack: nat, code: nat)
    requires Done(s, s', slot, stack, code)
    ensures DoneFrames(s, s', slot, stack, code)
  {
    hide KernelMap, Translate, Isolated, MapsUsedPages;
    forall i, p | 0 <= i < MAX_PROCESSES && Live(s', i) && LOW_FRAMES <= p < PAGES
      ensures i != slot ==> UserFrame(s', i, p) == UserFrame(s, i, p)
    {
      if i != slot {
        StageUserFrame(s, s', s'.procs[slot].dir, Mine(stack, code), s'.top, i, p);
      }
    }
  }

  lemma DoneOk(s: Sys, s': Sys, slot: nat, stack: nat, code: nat)
    requires Done(s, s', slot, stack, code)
    ensures SysOk(s')
  {
    hide Translate, UserFrame, Live, Isolated, MapsUsedPages, Owned, DirsPlaced;
    StageKeepsKdir(s, s'.mem, s'.procs[slot].dir, Mine(stack, code), s'.top);
    DoneTable(s, s', slot, stack, code);
    DoneHasFrames(s, s', slot, stack, code);
    DoneUsesPages(s, s', slot, stack, code);
    DoneIsolated(s, s', slot, stack, code);
  }

  lemma DoneTable(s: Sys, s': Sys, slot: nat, stack: nat, code: nat)
    requires Done(s, s', slot, stack, code)
    ensures TableOk(s')
  {
    StageKeepsKdir(s, s'.mem, s'.procs[slot].dir, Mine(stack, code), s'.top);
    hide KernelMap, Translate, Isolated, MapsUsedPages;
  }

  lemma DoneUsesPages(s: Sys, s': Sys, slot: nat, stack: nat, code: nat)
    requires SysOk(s) && SysShaped(s') && TookPages(s.mem, s'.mem, stack, code) && DoneFrames(s, s', slot, stack, code)
    ensures MapsUsedPages(s')
  {
    hide KernelMap, UserFrame, TableOk, Isolated, Live;
  }

  lemma DoneIsolated(s: Sys, s': Sys, slot: nat, stack: nat, code: nat)
    requires SysOk(s) && SysShaped(s') && TookPages(s.mem, s'.mem, stack, code) && DoneFrames(s, s', slot, stack, code)
    ensures Isolated(s')
  {
    hide SysOk, UserFrame, Live, DoneFrames;
    forall i, q, j, r | 0 <= i < |s'.procs| && 0 <= j < |s'.procs| && Live(s', i) && Live(s', j) && i != j
      && LOW_FRAMES <= q < PAGES && LOW_FRAMES <= r < PAGES && UserFrame(s', i, q).Some?
      ensures UserFrame(s', i, q) != UserFrame(s', j, r)
    {
      FramesApart(s, s', slot, stack, code, i, q, j, r);
    }
  }

  lemma FramesApart(s: Sys, s': Sys, slot: nat, stack: nat, code: nat, i: nat, q: nat, j: nat, r: nat)
    requires SysOk(s) && SysShaped(s') && !InUse(s.mem, stack) && !InUse(s.mem, code)
    requires DoneFrames(s, s', slot, stack, code)
    requires i < |s'.procs| && j < |s'.procs| && Live(s', i) && Live(s', j) && i != j
    requires LOW_FRAMES <= q < PAGES && LOW_FRAMES <= r < PAGES && UserFrame(s', i, q).Some?
    ensures UserFrame(s', i, q) != UserFrame(s', j, r)
  {
  }

  /** What every attempt to create a process leaves alone. */
  ghost predicate Undisturbed(s: Sys, s': Sys, slot: nat)
    requires SysShaped(s) && SysShaped(s')
  {
    && slot < MAX_PROCESSES && s.procs[slot := s'.procs[slot]] == s'.procs
    && (forall i, q :: 0 <= i < MAX_PROCESSES && Live(s, i) && 0 <= q < PAGES ==> UserFrame(s', i, q) == UserFrame(s, i, q))
    && (forall f :: InUse(s.mem, f) && f in s.data ==> f in s'.data && s'.data[f] == s.data[f])
  }

  /** All or nothing: the pages in use are those of before, and so is the slot's being unused. */
  ghost predicate NothingHappened(s: Sys, s': Sys) {
    && SysOk(s) && SysOk(s') && s'.mem.pages == s.mem.pages
    && var slot := FirstUnused(s.procs, 0);
    if slot == MAX_PROCESSES then s' == s else Undisturbed(s, s', slot) && s'.procs[slot].state == Unused
  }

  /** The process finds the program at its base, in a page of its own that is `code`; the rest of the page is zero. */
  ghost predicate HoldsProgram(s: Sys, p: Proc, program: seq<byte>, code: nat)
    requires Shaped(s.mem) && p.dir < LOW_FRAMES
  {
    && VaToPa(s.mem, p.dir, 0x8000_0000) == Some(4096 * code)
    && code in s.data && |s.data[code]| == 4096 && program <= s.data[code]
    && forall i :: |program| <= i < 4096 ==> s.data[code][i] == 0
  }

  /**
   The stack pointer leads to exactly where the context was written, at the top of the kernel stack's page: 20 bytes,
   of which the last four are the program's base. The rest of that page is zero.
   */
  ghost predicate HoldsContext(s: Sys, p: Proc)
    requires Shaped(s.mem) && p.dir < LOW_FRAMES
  {
    && VaToPa(s.mem, p.dir, p.stackPointer) == Some(p.context)
    && VaToPa(s.mem, p.dir, 0x1000_0000) == Some(4096 * p.kernelStack)
    && p.stackPointer == 0x1000_0FEC && p.context == 4096 * p.kernelStack + 4076
    && p.kernelStack in s.data && |s.data[p.kernelStack]| == 4096
    && (forall i :: 0 <= i < 4092 ==> s.data[p.kernelStack][i] == 0)
    && s.data[p.kernelStack][4092..] == [0, 0, 0, 0x80]
  }

  /** The new process has a fresh directory and pid, and runs the program on pages of its own. */
  ghost predicate NewProcess(s: Sys, s': Sys, slot: nat, program: seq<byte>) {
    && SysOk(s) && SysOk(s') && slot < MAX_PROCESSES && slot == FirstUnused(s.procs, 0) && Undisturbed(s, s', slot)
    && var p := s'.procs[slot];
    && p.pid == s.nextPid && p.state == Runnable && p.dir < LOW_FRAMES && p.dir !in s.dirs
    && HoldsContext(s', p)
    && exists code :: HoldsProgram(s', p, program, code) && TookPages(s.mem, s'.mem, p.kernelStack, code)
  }

  ghost predicate CreateSpec(s: Sys, program: seq<byte>, r: Outcome) {
    match r
    case Panicked(_) => true
    case Failed(s') => NothingHappened(s, s')
    case Created(s', slot) => NewProcess(s, s', slot, program)
  }

  lemma GaveUpNothing(s: Sys, m: Mem, d: nat, mine: map<nat, nat>, top: nat, p: Proc, data: map<nat, seq<byte>>)
    requires SysOk(s) && Stage(s, m, d, mine, top) && FirstUnused(s.procs, 0) < MAX_PROCESSES
    requires m.pages == s.mem.pages && SameData(s, data)
    ensures NothingHappened(s, GaveUp(s, FirstUnused(s.procs, 0), p, m, data, s.dirs + {d}, top))
  {
    var slot := FirstUnused(s.procs, 0);
    var s' := GaveUp(s, slot, p, m, data, s.dirs + {d}, top);
    GaveUpOk(s, m, d, mine, top, slot, p, data);
    StageUndisturbed(s, s', d, mine, top, slot);
  }

  ghost predicate SameData(s: Sys, data: map<nat, seq<byte>>)
    requires Shaped(s.mem)
  {
    forall f :: InUse(s.mem, f) && f in s.data ==> f in data && data[f] == s.data[f]
  }

  lemma StageUndisturbed(s: Sys, s': Sys, d: nat, mine: map<nat, nat>, top: nat, slot: nat)
    requires SysOk(s) && SysShaped(s') && Stage(s, s'.mem, d, mine, top) && SameData(s, s'.data)
    requires slot < MAX_PROCESSES && s.procs[slot].state == Unused && s.procs[slot := s'.procs[slot]] == s'.procs
    ensures Undisturbed(s, s', slot)
  {
  }

  lemma CreateCodeSpec(s: Sys, m4: Mem, d: nat, stack: nat, code: nat, program: seq<byte>)
    requires SysOk(s) && FirstUnused(s.procs, 0) < MAX_PROCESSES
    requires stack == PMM_START + s.top && code == PMM_START + s.top + 1 && s.top + 1 < PMM_PAGES
    requires Stage(s, m4, d, map[STACK_PAGE := stack], s.top + 2)
    requires m4.pages == s.mem.pages[s.top := true][s.top + 1 := true] && !InUse(s.mem, stack) && !InUse(s.mem, code)
    ensures Shaped(m4) && CreateSpec(s, program, CreateCode(s, FirstUnused(s.procs, 0), m4, d, stack, code, program))
  {
    hide KernelMap, Translate, MapOne, Stage;
    var slot := FirstUnused(s.procs, 0);
    var mine := map[STACK_PAGE := stack];
    StageMap(s, m4, d, mine, s.top + 2, USER_PROGRAM_BASE, code);
    var (m5, mapped) := MapOne(m4, d, USER_PROGRAM_BASE, code);
    if !mapped {
      StageFree(s, m5, d, mine, s.top + 2, stack);
      var m6 := FreePage(m5, stack);
      StageDestroy(s, m6, d, mine, s.top + 2);
      var m7 := DestroyDir(m6, d);
      StageFree(s, m7, d, mine, s.top + 2, code);
      var m8 := FreePage(m7, code);
      assert m8.pages == s.mem.pages;
      GaveUpNothing(s, m8, d, mine, s.top + 2, NO_PROC.(dir := d, kernelStack := stack),
                    s.data[stack := Zeros(PAGE_SIZE)][code := Zeros(PAGE_SIZE)]);
    } else {
      assert mine[CODE_PAGE := code] == Mine(stack, code);
      StageCopies(s, m5, d, Mine(stack, code), s.data[stack := Zeros(PAGE_SIZE)][code := Zeros(PAGE_SIZE)], code, program);
      if |program| <= PAGE_SIZE {
        StageCreated(s, m5, d, stack, code, program);
      }
    }
  }

  lemma CopyPage(data: map<nat, seq<byte>>, code: nat, program: seq<byte>)
    requires |program| <= PAGE_SIZE && code in data && data[code] == Zeros(PAGE_SIZE)
    ensures program + PageOf(data, code)[|program|..] == CodeContents(program)
    ensures program[..|program|] == program && program[|program|..] == []
    ensures program == [] ==> data[code := CodeContents(program)] == data
  {
    assert Zeros(PAGE_SIZE)[|program|..] == Zeros(PAGE_SIZE - |program|);
    assert program == [] ==> CodeContents(program) == Zeros(PAGE_SIZE);
  }

  lemma LastPageMapped(m: Mem, dirs: set<nat>, top: nat)
    requires KernelMap(m, dirs, top) && top > 0
    ensures Shaped(m) && Translate(m, m.kdir, PMM_START + top - 1) == Some(PMM_START + top - 1)
    ensures Translate(m, m.kdir, PMM_START + top) == None
  {
    hide Owned, Translate;
    KernelMapOwned(m, dirs, top);
    assert KernelFrame(m, top - 1) == Some(PMM_START + top - 1) && KernelFrame(m, top) == None;
  }

  /**
   Copying the program to the page allocated last: a program of at most a page fills it, and a longer one faults,
   because the page behind it was never allocated.
   */
  lemma CopySpec(m: Mem, dirs: set<nat>, top: nat, data: map<nat, seq<byte>>, code: nat, program: seq<byte>)
    requires KernelMap(m, dirs, top) && code == PMM_START + top - 1 && top > 0 && code in data && data[code] == Zeros(PAGE_SIZE)
    ensures Shaped(m)
    ensures CopyFrom(m, data, code, program) == if |program| <= PAGE_SIZE then Some(data[code := CodeContents(program)]) else None
  {
    hide KernelMap, Translate, CodeContents, PageOf;
    LastPageMapped(m, dirs, top);
    if |program| <= PAGE_SIZE {
      CopyPage(data, code, program);
    }
  }

  lemma StageCopies(s: Sys, m: Mem, d: nat, mine: map<nat, nat>, data: map<nat, seq<byte>>, code: nat, program: seq<byte>)
    requires Stage(s, m, d, mine, s.top + 2) && code == PMM_START + s.top + 1 && code in data && data[code] == Zeros(PAGE_SIZE)
    ensures Shaped(m)
    ensures CopyFrom(m, data, code, program) == if |program| <= PAGE_SIZE then Some(data[code := CodeContents(program)]) else None
  {
    hide KernelMap, Translate, CopyFrom;
    CopySpec(m, s.dirs + {d}, s.top + 2, data, code, program);
  }

  /** What the two new pages hold in the end. */
  function NewData(s: Sys, stack: nat, code: nat, program: seq<byte>): map<nat, seq<byte>>
    requires |program| <= PAGE_SIZE
  {
    s.data[stack := Zeros(PAGE_SIZE)][code := Zeros(PAGE_SIZE)][code := CodeContents(program)]
  }

  lemma StageCreated(s: Sys, m: Mem, d: nat, stack: nat, code: nat, program: seq<byte>)
    requires SysOk(s) && FirstUnused(s.procs, 0) < MAX_PROCESSES && |program| <= PAGE_SIZE
    requires stack == PMM_START + s.top && code == PMM_START + s.top + 1 && s.top + 1 < PMM_PAGES
    requires Stage(s, m, d, Mine(stack, code), s.top + 2)
    requires m.pages == s.mem.pages[s.top := true][s.top + 1 := true] && !InUse(s.mem, stack) && !InUse(s.mem, code)
    ensures var slot := FirstUnused(s.procs, 0);
            NewProcess(s, CreatedSys(s, slot, m, d, stack, NewData(s, stack, code, program)), slot, program)
  {
    hide KernelMap, Translate, TableOk, MapsUsedPages, Isolated;
    var slot := FirstUnused(s.procs, 0);
    var s' := CreatedSys(s, slot, m, d, stack, NewData(s, stack, code, program));
    StageKeepsKdir(s, m, d, Mine(stack, code), s.top + 2);
    hide Stage;
    assert Done(s, s', slot, stack, code);
    DoneOk(s, s', slot, stack, code);
    StageUndisturbed(s, s', d, Mine(stack, code), s.top + 2, slot);
    StageTranslates(s, m, d, stack, code);
    hide Undisturbed, SysOk;
    HoldsBoth(s, slot, m, d, stack, code, program);
  }

  lemma HoldsBoth(s: Sys, slot: nat, m: Mem, d: nat, stack: nat, code: nat, program: seq<byte>)
    requires Shaped(m) && d < LOW_FRAMES && slot < |s.procs| && stack != code && |program| <= PAGE_SIZE
    requires Translate(m, d, STACK_PAGE) == Some(stack) && Translate(m, d, CODE_PAGE) == Some(code)
    ensures var s' := CreatedSys(s, slot, m, d, stack, NewData(s, stack, code, program));
            HoldsContext(s', s'.procs[slot]) && HoldsProgram(s', s'.procs[slot], program, code)
  {
    hide HoldsContext, HoldsProgram, Translate;
    HoldsStack(s, slot, m, d, stack, NewData(s, stack, code, program));
    HoldsCode(CreatedSys(s, slot, m, d, stack, NewData(s, stack, code, program)), slot, d, code, program);
  }

  lemma HoldsStack(s: Sys, slot: nat, m: Mem, d: nat, stack: nat, data: map<nat, seq<byte>>)
    requires Shaped(m) && d < LOW_FRAMES && slot < |s.procs| && Translate(m, d, STACK_PAGE) == Some(stack)
    requires PageOf(data, stack) == Zeros(PAGE_SIZE)
    ensures var s' := CreatedSys(s, slot, m, d, stack, data); HoldsContext(s', s'.procs[slot])
  {
    hide Translate;
    assert INITIAL_CONTEXT[16..] == [0, 0, 0, 0x80];
    var page := Zeros(PAGE_SIZE)[..PAGE_SIZE - CONTEXT_SIZE] + INITIAL_CONTEXT;
    assert page[4092..] == INITIAL_CONTEXT[16..];
  }

  lemma HoldsCode(s: Sys, slot: nat, d: nat, code: nat, program: seq<byte>)
    requires Shaped(s.mem) && d < LOW_FRAMES && slot < |s.procs| && s.procs[slot].dir == d
    requires Translate(s.mem, d, CODE_PAGE) == Some(code) && |program| <= PAGE_SIZE
    requires code in s.data && s.data[code] == CodeContents(program)
    ensures HoldsProgram(s, s.procs[slot], program, code)
  {
    hide Translate;
  }

  lemma StageTranslates(s: Sys, m: Mem, d: nat, stack: nat, code: nat)
    requires Stage(s, m, d, Mine(stack, code), s.top + 2)
    ensures Shaped(m) && d < LOW_FRAMES && d !in s.dirs
    ensures Translate(m, d, STACK_PAGE) == Some(stack) && Translate(m, d, CODE_PAGE) == Some(code)
  {
  }

  lemma CreateStackSpec(s: Sys, m2: Mem, d: nat, stack: nat, program: seq<byte>)
    requires SysOk(s) && FirstUnused(s.procs, 0) < MAX_PROCESSES
    requires stack == PMM_START + s.top && s.top < PMM_PAGES && !InUse(s.mem, stack)
    requires Stage(s, m2, d, map[], s.top + 1) && m2.pages == s.mem.pages[s.top := true]
    ensures Shaped(m2) && CreateSpec(s, program, CreateStack(s, FirstUnused(s.procs, 0), m2, d, stack, program))
  {
    hide KernelMap, Translate, MapOne, Stage, CreateCode, AllocPage;
    var slot := FirstUnused(s.procs, 0);
    StageMap(s, m2, d, map[], s.top + 1, KERNEL_STACK_BASE, stack);
    var (m3, mapped) := MapOne(m2, d, KERNEL_STACK_BASE, stack);
    var mine := if mapped then map[STACK_PAGE := stack] else map[];
    assert mine == if mapped then map[][STACK_PAGE := stack] else map[];
    StageAlloc(s, m3, d, mine, s.top + 1);
    var (m4, r) := AllocPage(m3);
    if mapped && r.Page? {
      CreateCodeSpec(s, m4, d, stack, r.frame, program);
    } else if !mapped || r.Exhausted? {
      StageFree(s, m3, d, mine, s.top + 1, stack);
      StageDestroy(s, FreePage(m3, stack), d, mine, s.top + 1);
      var m5 := DestroyDir(FreePage(m3, stack), d);
      assert m5.pages == s.mem.pages;
      GaveUpNothing(s, m5, d, mine, s.top + 1, NO_PROC.(dir := d, kernelStack := stack), s.data[stack := Zeros(PAGE_SIZE)]);
    }
  }

  /**
   process_create, whatever the program: a failure that is no panic leaves the pages in use as they were
   and the slot unused; a success gives the first unused slot a fresh pid and pages of its own.
   */
  lemma CreateIsAllOrNothing(s: Sys, program: seq<byte>)
    requires SysOk(s)
    ensures CreateSpec(s, program, Create(s, program))
  {
    hide KernelMap, Translate, Stage, CreateStack, AllocPage, CreateDir;
    var slot := FirstUnused(s.procs, 0);
    if slot < MAX_PROCESSES {
      if CreateDir(s.mem).1 == None {
        NoDirNothing(s);
      } else {
        var (m1, d) := (CreateDir(s.mem).0, CreateDir(s.mem).1.value);
        StageDir(s);
        StageAlloc(s, m1, d, map[], s.top);
        var (m2, r) := AllocPage(m1);
        if r.Page? {
          CreateStackSpec(s, m2, d, r.frame, program);
        } else if r.Exhausted? {
          StageDestroy(s, m1, d, map[], s.top);
          assert DestroyDir(m1, d).pages == s.mem.pages;
          GaveUpNothing(s, DestroyDir(m1, d), d, map[], s.top, NO_PROC.(dir := d), s.data);
        }
      }
    }
  }

  lemma NoDirNothing(s: Sys)
    requires SysOk(s) && FirstUnused(s.procs, 0) < MAX_PROCESSES
    ensures NothingHappened(s, GaveUp(s, FirstUnused(s.procs, 0), NO_PROC, s.mem, s.data, s.dirs, s.top))
  {
    var slot := FirstUnused(s.procs, 0);
    var s' := GaveUp(s, slot, NO_PROC, s.mem, s.data, s.dirs, s.top);
    forall i, q | 0 <= i < MAX_PROCESSES && Live(s', i) && LOW_FRAMES <= q < PAGES
      ensures Live(s, i) && UserFrame(s', i, q) == UserFrame(s, i, q)
    {
    }
    hide KernelMap, Translate, UserFrame;
    assert SysOk(s');
  }

  // ---------- termination ----------

  function FindPid(procs: seq<Proc>, pid: nat, k: nat): (i: nat)
    requires k <= |procs|
    ensures k <= i <= |procs| && (i < |procs| ==> procs[i].pid == pid)
    ensures forall j :: k <= j < i ==> procs[j].pid != pid
    decreases |procs| - k
  {
    if k == |procs| || procs[k].pid == pid then k else FindPid(procs, pid, k + 1)
  }

  /** process_terminate, comparing the pid of the slot that is being scanned. */
  ghost function Terminate(s: Sys, pid: nat): Sys
    requires SysShaped(s)
  {
    var i := FindPid(s.procs, pid, 0);
    if i == |s.procs| || s.procs[i].dir >= LOW_FRAMES then s
    else s.(procs := s.procs[i := s.procs[i].(state := Unused)], mem := DestroyDir(s.mem, s.procs[i].dir))
  }

  /** No two slots have the same pid, apart from slots never used, which have 0. */
  ghost predicate PidsOk(s: Sys) {
    && 0 < s.nextPid < ADDRESSES
    && (forall i :: 0 <= i < |s.procs| ==> s.procs[i].pid < s.nextPid && (s.procs[i].state != Unused ==> s.procs[i].pid != 0))
    && (forall i, j :: 0 <= i < j < |s.procs| && s.procs[i].pid == s.procs[j].pid ==> s.procs[i].pid == 0)
  }

  lemma PidFindsSlot(s: Sys, i: nat)
    requires PidsOk(s) && Live(s, i)
    ensures FindPid(s.procs, s.procs[i].pid, 0) == i
  {
  }

  /** The attempt spent the next pid on the first unused slot. */
  ghost predicate SpentPid(s: Sys, s': Sys) {
    var slot := FirstUnused(s.procs, 0);
    && slot < |s.procs| && |s'.procs| == |s.procs| && s'.procs == s.procs[slot := s'.procs[slot]]
    && s'.procs[slot].pid == s.nextPid && s'.nextPid == NextPid(s.nextPid)
  }

  ghost predicate OutcomeSpentPid(s: Sys, r: Outcome) {
    match r
    case Panicked(_) => true
    case Failed(s') => SpentPid(s, s')
    case Created(s', _) => SpentPid(s, s')
  }

  lemma CreateSpendsPid(s: Sys, program: seq<byte>)
    requires SysShaped(s) && FirstUnused(s.procs, 0) < MAX_PROCESSES
    ensures OutcomeSpentPid(s, Create(s, program))
  {
    hide AllocPage, CreateDir, MapOne, DestroyDir, FreePage, FirstUnused;
  }

  lemma SpentKeepsPids(s: Sys, s': Sys)
    requires PidsOk(s) && SpentPid(s, s') && s.nextPid < ADDRESSES - 1
    ensures PidsOk(s') && s'.nextPid == s.nextPid + 1
  {
  }

  /** Creation keeps pids apart until the 32-bit counter wraps. */
  lemma CreateKeepsPids(s: Sys, program: seq<byte>)
    requires SysShaped(s) && PidsOk(s) && s.nextPid < ADDRESSES - 1
    ensures match Create(s, program)
            case Panicked(_) => true
            case Failed(s') => PidsOk(s') && s'.nextPid <= s.nextPid + 1
            case Created(s', _) => PidsOk(s') && s'.nextPid <= s.nextPid + 1
  {
    hide SpentPid, PidsOk, AllocPage, CreateDir, CreateStack;
    if FirstUnused(s.procs, 0) < MAX_PROCESSES {
      CreateSpendsPid(s, program);
      match Create(s, program)
      case Panicked(_) =>
      case Failed(s') => SpentKeepsPids(s, s');
      case Created(s', _) => SpentKeepsPids(s, s');
    }
  }

  lemma TerminateFrees(s: Sys, i: nat, k: nat)
    requires SysOk(s) && Live(s, i) && k < PMM_PAGES
    ensures s.procs[i].dir < LOW_FRAMES
    ensures Maps(s.mem, s.procs[i].dir, PMM_START + k) <==> MappedBy(s, i, PMM_START + k)
  {
    hide KernelMap, Translate;
    var d := s.procs[i].dir;
    KernelMapOwned(s.mem, s.dirs, s.top);
    DirIsLow(s.mem, s.dirs, d);
    forall q | 0 <= q < LOW_FRAMES ensures Translate(s.mem, d, q) != Some(PMM_START + k) {
      SharedLow(s.mem, s.dirs, s.top, d, q);
    }
    if q :| 0 <= q < PAGES && Translate(s.mem, d, q) == Some(PMM_START + k) {
      assert UserFrame(s, i, q) == Some(PMM_START + k);
    }
    if q :| LOW_FRAMES <= q < PAGES && UserFrame(s, i, q) == Some(PMM_START + k) {
      assert Translate(s.mem, d, q) == Some(PMM_START + k);
    }
  }

  /**
   Terminating a live process frees exactly the pages that it maps above 8 MiB, never one that another
   process maps, and changes neither another slot nor any translation.
   */
  lemma TerminateFreesOwnPages(s: Sys, i: nat)
    requires SysOk(s) && PidsOk(s) && Live(s, i)
    ensures var s' := Terminate(s, s.procs[i].pid);
            && SysOk(s') && PidsOk(s') && s'.nextPid == s.nextPid
            && s'.procs == s.procs[i := s.procs[i].(state := Unused)] && s'.data == s.data
            && (forall k :: 0 <= k < PMM_PAGES ==>
                  (s'.mem.pages[k] <==> s.mem.pages[k] && !MappedBy(s, i, PMM_START + k)))
            && (forall j, q :: 0 <= j < MAX_PROCESSES && Live(s', j) && 0 <= q < PAGES ==>
                  UserFrame(s', j, q) == UserFrame(s, j, q))
  {
    hide KernelMap, Translate, UserFrame, Maps, MappedBy;
    PidFindsSlot(s, i);
    var d := s.procs[i].dir;
    var s' := Terminate(s, s.procs[i].pid);
    TerminateFrees(s, i, 0);
    DestroyKeepsKernelMap(s.mem, s.dirs, s.top, d);
    forall k | 0 <= k < PMM_PAGES ensures s'.mem.pages[k] <==> s.mem.pages[k] && !MappedBy(s, i, PMM_START + k) {
      TerminateFrees(s, i, k);
    }
    TerminateKeepsFrames(s, i);
    TerminateKeepsUse(s, i);
  }

  lemma TerminateKeepsFrames(s: Sys, i: nat)
    requires SysOk(s) && Live(s, i) && s.procs[i].dir < LOW_FRAMES
    ensures var s' := s.(procs := s.procs[i := s.procs[i].(state := Unused)], mem := DestroyDir(s.mem, s.procs[i].dir));
            && (forall j :: 0 <= j < MAX_PROCESSES ==> (Live(s', j) <==> j != i && Live(s, j)))
            && (forall j, q :: 0 <= j < MAX_PROCESSES && Live(s', j) && 0 <= q < PAGES ==>
                  UserFrame(s', j, q) == UserFrame(s, j, q))
  {
  }

  /** What the others map stays in use. */
  lemma TerminateKeepsUse(s: Sys, i: nat)
    requires SysOk(s) && Live(s, i) && s.procs[i].dir < LOW_FRAMES
    ensures var s' := s.(procs := s.procs[i := s.procs[i].(state := Unused)], mem := DestroyDir(s.mem, s.procs[i].dir));
            MapsUsedPages(s') && Isolated(s')
  {
    TerminateKeepsFrames(s, i);
    var s' := s.(procs := s.procs[i := s.procs[i].(state := Unused)], mem := DestroyDir(s.mem, s.procs[i].dir));
    forall j, q | 0 <= j < MAX_PROCESSES && Live(s', j) && LOW_FRAMES <= q < PAGES && UserFrame(s', j, q).Some?
      ensures InUse(s'.mem, UserFrame(s', j, q).value)
    {
      var f := UserFrame(s, j, q).value;
      assert InUse(s.mem, f);
      TerminateFrees(s, i, f - PMM_START);
      hide KernelMap, Translate, Maps;
    }
    hide KernelMap, Translate, UserFrame, Maps;
  }

  /** Process i maps the frame, which lies above 8 MiB, at some page above 8 MiB. */
  ghost predicate MappedBy(s: Sys, i: nat, frame: nat)
    requires Shaped(s.mem) && i < |s.procs|
  {
    exists q :: LOW_FRAMES <= q < PAGES && UserFrame(s, i, q) == Some(frame)
  }
}
