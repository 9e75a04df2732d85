/** The process table as it runs: creation with every rollback, and termination, proved against the value level. */
module ProcessTable {
  import opened Options
  import opened Bytes
  import opened Bitmap
  import opened Paging
  import opened Frames
  import opened Machine
  import MemoryRuns
  import P = Process

  datatype Created = Panicked(why: PanicMessage) | NoProcess | Slot(index: nat)

  class Processes {
    const memory: Memory
    const procs: array<P.Proc>
    var nextPid: nat
    ghost var dirs: set<nat>
    ghost var top: nat

    ghost predicate Valid()
      reads this, memory
    {
      memory.Valid() && procs.Length == P.MAX_PROCESSES
    }

    ghost function State(): (s: P.Sys)
      requires Valid()
      reads this, memory, memory.intrBitmap, memory.bitmap, memory.frames, procs
      ensures P.SysShaped(s)
    {
      P.Sys(memory.State(), memory.data, procs[..], nextPid, dirs, top)
    }

    /** The table after boot, over a machine that is initialised. */
    constructor (m: Memory)
      requires m.Valid()
      ensures Valid() && memory == m && fresh(procs)
      ensures State() == P.Sys(m.State(), m.data, P.EmptyTable(), 1, {m.kdir}, 0)
    {
      memory := m;
      procs := new P.Proc[P.MAX_PROCESSES](i => P.NO_PROC);
      nextPid, dirs, top := 1, {m.kdir}, 0;
      new;
      assert procs[..] == P.EmptyTable();
    }

    /** The first slot that is unused. */
    method FindUnused() returns (i: nat)
      requires Valid()
      ensures i == P.FirstUnused(procs[..], 0)
    {
      i := 0;
      while i < P.MAX_PROCESSES && procs[i].state != P.Unused
        invariant i <= P.MAX_PROCESSES
        invariant P.FirstUnused(procs[..], 0) == P.FirstUnused(procs[..], i)
      {
        i := i + 1;
      }
    }

    /** Creation is under way in the slot: the pid is spent and the fields of p are set. */
    ghost predicate Midway(s: P.Sys, slot: nat, p: P.Proc)
      requires Valid()
      reads this, memory, procs
    {
      && slot < P.MAX_PROCESSES && |s.procs| == P.MAX_PROCESSES
      && procs[..] == s.procs[slot := p.(pid := s.nextPid, state := P.Embryo)]
      && nextPid == P.NextPid(s.nextPid)
    }

    /** The slot is unused again. */
    method GiveUp(slot: nat, ghost s: P.Sys, ghost p: P.Proc, ghost newDirs: set<nat>, ghost newTop: nat)
      requires Valid() && Midway(s, slot, p)
      modifies this`dirs, this`top, procs
      ensures Valid() && State() == P.GaveUp(s, slot, p, memory.State(), memory.data, newDirs, newTop)
    {
      procs[slot] := procs[slot].(state := P.Unused);
      dirs, top := newDirs, newTop;
    }

    ghost predicate Outcome(o: P.Outcome, r: Created)
      requires Valid()
      reads this, memory, memory.intrBitmap, memory.bitmap, memory.frames, procs
    {
      match o
      case Panicked(why) => r == Panicked(why)
      case Failed(s') => r == NoProcess && State() == s'
      case Created(s', slot) => r == Slot(slot) && State() == s'
    }

    /** process_create. */
    method Create(program: seq<byte>) returns (r: Created)
      requires Valid() && P.SysOk(State())
      modifies this, procs, memory`data, memory.intrBitmap, memory.bitmap, memory.frames
      ensures Valid() && Outcome(P.Create(old(State()), program), r)
    {
      hide P.SysOk, P.CreateInDir, CreateDir, KernelMap, P.Stage, P.GaveUp, Bits;
      ghost var s := State();
      SysOwned(s);
      var slot := FindUnused();
      if slot == P.MAX_PROCESSES {
        return NoProcess;
      }
      procs[slot] := P.NO_PROC.(pid := nextPid, state := P.Embryo);
      nextPid := P.NextPid(nextPid);
      var pgdir := memory.CreateUserPageDirectory();
      if pgdir == None {
        GiveUp(slot, s, P.NO_PROC, s.dirs, s.top);
        return NoProcess;
      }
      procs[slot] := procs[slot].(dir := pgdir.value);
      P.StageDir(s);
      r := CreateInDir(slot, pgdir.value, program, s);
    }

    /** process_create from the point where the directory exists. */
    method CreateInDir(slot: nat, d: nat, program: seq<byte>, ghost s: P.Sys) returns (r: Created)
      requires Valid() && P.SysOk(s) && Midway(s, slot, P.NO_PROC.(dir := d)) && memory.data == s.data
      requires P.Stage(s, memory.State(), d, map[], s.top) && memory.State().pages == s.mem.pages
      modifies this, procs, memory`data, memory.intrBitmap, memory.bitmap, memory.frames
      ensures d < LOW_FRAMES && Valid() && Outcome(P.CreateInDir(s, slot, old(memory.State()), d, program), r)
    {
      hide P.SysOk, P.CreateStack, AllocPage, DestroyDir, KernelMap, P.Stage, P.GaveUp, Bits;
      SysOwned(s);
      ghost var m1 := memory.State();
      StageUsable(s, m1, d, map[], s.top);
      P.StageAlloc(s, m1, d, map[], s.top);
      var stack := memory.AllocPage();
      if stack.Panic? {
        return Panicked(stack.why);
      }
      if stack == Exhausted {
        memory.DestroyUserPageDirectory(d);
        GiveUp(slot, s, P.NO_PROC.(dir := d), s.dirs + {d}, s.top);
        return NoProcess;
      }
      procs[slot] := procs[slot].(kernelStack := stack.frame);
      r := CreateStack(slot, d, stack.frame, program, s);
    }

    /** Map one page for the new process. */
    method MapFrame(d: nat, va: nat, frame: nat, ghost dirs: set<nat>) returns (mapped: bool)
      requires Valid() && Owned(memory.State(), dirs) && d in dirs && d < LOW_FRAMES
      requires va < ADDRESSES && LastPage(va, P.KERNEL_STACK_SIZE) < PAGES - 1
      modifies memory.intrBitmap, memory.frames
      ensures Valid() && (memory.State(), mapped) == P.MapOne(old(memory.State()), d, va, frame)
    {
      hide Owned, MapPages, Bits, LastPage;
      ghost var turns;
      mapped, turns := memory.MapPage(d, va, frame * PAGE_SIZE, P.KERNEL_STACK_SIZE, P.PROCESS_FLAGS, dirs);
    }

    /** process_create from the point where directory and kernel stack exist. */
    method CreateStack(slot: nat, d: nat, stack: nat, program: seq<byte>, ghost s: P.Sys) returns (r: Created)
      requires Valid() && P.SysOk(s) && slot < P.MAX_PROCESSES
      requires Midway(s, slot, P.NO_PROC.(dir := d, kernelStack := stack)) && memory.data == s.data[stack := Zeros(PAGE_SIZE)]
      requires P.Stage(s, memory.State(), d, map[], s.top + 1) && d < LOW_FRAMES && stack == PMM_START + s.top < PMM_START + PMM_PAGES
      modifies this, procs, memory`data, memory.intrBitmap, memory.bitmap, memory.frames
      ensures Valid() && Outcome(P.CreateStack(s, slot, old(memory.State()), d, stack, program), r)
    {
      hide P.SysOk, P.CreateMapped, DestroyDir, KernelMap, P.Stage, P.GaveUp, Bits, P.MapOne;
      SysOwned(s);
      StageUsable(s, memory.State(), d, map[], s.top + 1);
      P.StageMap(s, memory.State(), d, map[], s.top + 1, P.KERNEL_STACK_BASE, stack);
      var mapped := MapFrame(d, P.KERNEL_STACK_BASE, stack, s.dirs + {d});
      if !mapped {
        UndoAndGiveUp(slot, d, stack, s, map[], s.top + 1);
        return NoProcess;
      }
      assert map[][P.STACK_PAGE := stack] == map[P.STACK_PAGE := stack];
      r := CreateMapped(slot, d, stack, program, s);
    }

    /** process_create from the point where the kernel stack is mapped. */
    method CreateMapped(slot: nat, d: nat, stack: nat, program: seq<byte>, ghost s: P.Sys) returns (r: Created)
      requires Valid() && P.SysOk(s) && slot < P.MAX_PROCESSES
      requires Midway(s, slot, P.NO_PROC.(dir := d, kernelStack := stack)) && memory.data == s.data[stack := Zeros(PAGE_SIZE)]
      requires P.Stage(s, memory.State(), d, map[P.STACK_PAGE := stack], s.top + 1) && d < LOW_FRAMES
      requires stack == PMM_START + s.top < PMM_START + PMM_PAGES
      modifies this, procs, memory`data, memory.intrBitmap, memory.bitmap, memory.frames
      ensures Valid() && Outcome(P.CreateMapped(s, slot, old(memory.State()), d, stack, program), r)
    {
      hide P.SysOk, P.CreateCode, AllocPage, DestroyDir, KernelMap, P.Stage, P.GaveUp, Bits, FreePage;
      SysOwned(s);
      ghost var mine := map[P.STACK_PAGE := stack];
      StageUsable(s, memory.State(), d, mine, s.top + 1);
      P.StageAlloc(s, memory.State(), d, mine, s.top + 1);
      var code := memory.AllocPage();
      if code.Panic? {
        return Panicked(code.why);
      }
      if code == Exhausted {
        UndoAndGiveUp(slot, d, stack, s, mine, s.top + 1);
        return NoProcess;
      }
      r := CreateCode(slot, d, stack, code.frame, program, s);
    }

    /** The rollback: free the kernel stack, then whatever the directory maps. */
    method Undo(d: nat, stack: nat, ghost s: P.Sys, ghost mine: map<nat, nat>, ghost newTop: nat)
      requires Valid() && P.SysOk(s) && P.Stage(s, memory.State(), d, mine, newTop)
      requires d < LOW_FRAMES && PMM_START <= stack < PMM_START + PMM_PAGES
      requires forall q :: q in mine ==> mine[q] < PMM_START + PMM_PAGES
      modifies memory.bitmap
      ensures Valid() && memory.State() == DestroyDir(FreePage(old(memory.State()), stack), d)
    {
      hide P.SysOk, DestroyDir, KernelMap, P.Stage, Bits, FreePage;
      SysOwned(s);
      P.StageFree(s, memory.State(), d, mine, newTop, stack);
      memory.FreePage(stack);
      StageUsable(s, memory.State(), d, mine, newTop);
      memory.DestroyUserPageDirectory(d);
    }

    method UndoAndGiveUp(slot: nat, d: nat, stack: nat, ghost s: P.Sys, ghost mine: map<nat, nat>, ghost newTop: nat)
      requires Valid() && P.SysOk(s) && P.Stage(s, memory.State(), d, mine, newTop)
      requires Midway(s, slot, P.NO_PROC.(dir := d, kernelStack := stack))
      requires d < LOW_FRAMES && PMM_START <= stack < PMM_START + PMM_PAGES
      requires forall q :: q in mine ==> mine[q] < PMM_START + PMM_PAGES
      modifies this`dirs, this`top, procs, memory.bitmap
      ensures Valid() && State() == P.GaveUp(s, slot, P.NO_PROC.(dir := d, kernelStack := stack),
                                             DestroyDir(FreePage(old(memory.State()), stack), d), memory.data, s.dirs + {d}, newTop)
    {
      hide P.SysOk, DestroyDir, KernelMap, P.Stage, Bits, FreePage, P.GaveUp;
      Undo(d, stack, s, mine, newTop);
      GiveUp(slot, s, P.NO_PROC.(dir := d, kernelStack := stack), s.dirs + {d}, newTop);
    }

    /** process_create from the point where the program's page exists as well. */
    method CreateCode(slot: nat, d: nat, stack: nat, code: nat, program: seq<byte>, ghost s: P.Sys) returns (r: Created)
      requires Valid() && P.SysOk(s) && slot < P.MAX_PROCESSES && stack != code
      requires Midway(s, slot, P.NO_PROC.(dir := d, kernelStack := stack))
      requires memory.data == s.data[stack := Zeros(PAGE_SIZE)][code := Zeros(PAGE_SIZE)]
      requires P.Stage(s, memory.State(), d, map[P.STACK_PAGE := stack], s.top + 2) && d < LOW_FRAMES
      requires PMM_START <= stack < PMM_START + PMM_PAGES && PMM_START <= code < PMM_START + PMM_PAGES
      modifies this, procs, memory`data, memory.intrBitmap, memory.bitmap, memory.frames
      ensures Valid() && Outcome(P.CreateCode(s, slot, old(memory.State()), d, stack, code, program), r)
    {
      hide P.SysOk, AllocPage, DestroyDir, KernelMap, P.Stage, Bits, P.MapOne, FreePage;
      SysOwned(s);
      ghost var mine := map[P.STACK_PAGE := stack];
      StageUsable(s, memory.State(), d, mine, s.top + 2);
      P.StageMap(s, memory.State(), d, mine, s.top + 2, P.USER_PROGRAM_BASE, code);
      var mapped := MapFrame(d, P.USER_PROGRAM_BASE, code, s.dirs + {d});
      if !mapped {
        Undo(d, stack, s, mine, s.top + 2);
        memory.FreePage(code);
        GiveUp(slot, s, P.NO_PROC.(dir := d, kernelStack := stack), s.dirs + {d}, s.top + 2);
        return NoProcess;
      }
      StageUsable(s, memory.State(), d, mine[P.CODE_PAGE := code], s.top + 2);
      ghost var data := memory.data;
      var copied := CopyProgram(code, program);
      if !copied {
        return Panicked(PageFault);
      }
      Start(slot, d, stack, s);
      r := Slot(slot);
    }

    /** memcpy of the program to the page, page by page as the kernel's map translates them; false is a page fault. */
    method CopyProgram(code: nat, program: seq<byte>) returns (ok: bool)
      requires Valid() && TablesLow(memory.State(), memory.kdir)
      modifies memory`data
      ensures Valid() && memory.State() == old(memory.State())
      ensures match P.CopyFrom(memory.State(), old(memory.data), code, program)
              case None => !ok
              case Some(data) => ok && memory.data == data
    {
      hide Bits;
      var p: nat, rest := code, program;
      while rest != []
        invariant Valid() && memory.State() == old(memory.State())
        invariant P.CopyFrom(memory.State(), memory.data, p, rest) == P.CopyFrom(memory.State(), old(memory.data), code, program)
        decreases |rest|
      {
        PageBase(p);
        var pa := memory.TranslateAddress(memory.kdir, p * PAGE_SIZE);
        if pa == None {
          return false;
        }
        var n: nat := if |rest| < PAGE_SIZE then |rest| else PAGE_SIZE;
        var frame: nat := pa.value / PAGE_SIZE;
        memory.data := memory.data[frame := rest[..n] + P.PageOf(memory.data, frame)[n..]];
        p, rest := p + 1, rest[n..];
      }
      ok := true;
    }

    /** Write the context and make the process runnable. */
    method Start(slot: nat, d: nat, stack: nat, ghost s: P.Sys)
      requires Valid() && slot < P.MAX_PROCESSES && Midway(s, slot, P.NO_PROC.(dir := d, kernelStack := stack))
      modifies this, procs, memory`data
      ensures Valid() && State() == P.CreatedSys(s, slot, memory.State(), d, stack, old(memory.data))
    {
      hide Zeros, ToLe32;
      var page := P.PageOf(memory.data, stack);
      var context := stack * PAGE_SIZE + P.KERNEL_STACK_SIZE - P.CONTEXT_SIZE;
      ContextWritten(page);
      page := page[..PAGE_SIZE - P.CONTEXT_SIZE] + Zeros(P.CONTEXT_SIZE);
      memory.data := memory.data[stack := page[..PAGE_SIZE - 4] + ToLe32(P.USER_PROGRAM_BASE)];
      procs[slot] := procs[slot].(context := context, stackPointer := P.KERNEL_STACK_BASE + P.KERNEL_STACK_SIZE - P.CONTEXT_SIZE);
      procs[slot] := procs[slot].(state := P.Runnable);
      dirs, top := s.dirs + {d}, s.top + 2;
    }

    /** process_terminate, comparing the pid of the slot that is being scanned. */
    method Terminate(pid: nat)
      requires Valid() && P.SysOk(State()) && P.PidsOk(State())
      requires forall i :: 0 <= i < P.MAX_PROCESSES && procs[i].pid == pid ==> P.Live(State(), i)
      modifies procs, memory.bitmap
      ensures Valid() && State() == P.Terminate(old(State()), pid)
    {
      hide Bits, KernelMap, P.TableOk, P.MapsUsedPages, P.Isolated;
      ghost var s := State();
      var i := 0;
      while i < P.MAX_PROCESSES && procs[i].pid != pid
        invariant i <= P.MAX_PROCESSES
        invariant P.FindPid(procs[..], pid, 0) == P.FindPid(procs[..], pid, i)
      {
        i := i + 1;
      }
      if i < P.MAX_PROCESSES {
        LiveUsable(s, i);
        var d := procs[i].dir;
        procs[i] := procs[i].(state := P.Unused);
        memory.DestroyUserPageDirectory(d);
      }
    }
  }

  lemma LiveUsable(s: P.Sys, i: nat)
    requires P.SysOk(s) && P.Live(s, i)
    ensures var d := s.procs[i].dir; d < LOW_FRAMES && TablesLow(s.mem, d) && MapsPages(s.mem, d)
  {
    var d := s.procs[i].dir;
    KernelMapOwned(s.mem, s.dirs, s.top);
    DirIsLow(s.mem, s.dirs, d);
    forall j | 0 <= j < ENTRIES ensures s.mem.tables[d][j].present ==> s.mem.tables[d][j].frame < LOW_FRAMES {
      if s.mem.tables[d][j].present { TableFrame(s.mem, s.dirs, d, j); }
    }
    hide Translate, Owned, KernelMap;
    forall p | 0 <= p < PAGES && Translate(s.mem, d, p).Some? ensures Translate(s.mem, d, p).value < PMM_START + PMM_PAGES {
      if p < LOW_FRAMES {
        SharedLow(s.mem, s.dirs, s.top, d, p);
      } else {
        assert P.UserFrame(s, i, p) == Translate(s.mem, d, p);
      }
    }
  }

  /** Zeroing the context and then setting its last word leaves the stack page as creation promises. */
  lemma ContextWritten(page: seq<byte>)
    requires |page| == PAGE_SIZE
    ensures var zeroed := page[..PAGE_SIZE - P.CONTEXT_SIZE] + Zeros(P.CONTEXT_SIZE);
            zeroed[..PAGE_SIZE - 4] + ToLe32(P.USER_PROGRAM_BASE) == page[..PAGE_SIZE - P.CONTEXT_SIZE] + P.INITIAL_CONTEXT
  {
  }

  lemma PageBase(p: nat)
    ensures p * PAGE_SIZE / PAGE_SIZE == p && p * PAGE_SIZE % PAGE_SIZE == 0
  {
  }

  /** A booted system is in order and is the one that runs start from, whatever memory held before. */
  method Boot(directory: nat, table1: nat, table2: nat) returns (p: Processes, ghost before: Mem)
    requires directory < INTR_START && table1 < INTR_START && table2 < INTR_START
    requires directory != table1 && directory != table2 && table1 != table2
    ensures p.Valid() && Shaped(before) && p.State() == MemoryRuns.BootSys(before) && MemoryRuns.Good(p.State())
  {
    var memory := new Memory(directory, table1, table2);
    before := memory.State();
    memory.InitPmm();
    memory.InitVmm();
    p := new Processes(memory);
    MemoryRuns.BootOk(before);
  }

  lemma SysOwned(s: P.Sys)
    requires P.SysOk(s)
    ensures P.SysShaped(s) && KernelMap(s.mem, s.dirs, s.top) && Owned(s.mem, s.dirs)
  {
  }

  /** At every stage of creation the directories and what they map are such as the memory managers need. */
  lemma StageUsable(s: P.Sys, m: Mem, d: nat, mine: map<nat, nat>, top: nat)
    requires KernelMap(s.mem, s.dirs, s.top) && P.Stage(s, m, d, mine, top)
    requires forall q :: q in mine ==> mine[q] < PMM_START + PMM_PAGES
    ensures Shaped(m) && d < LOW_FRAMES && m.kdir < LOW_FRAMES && Owned(m, s.dirs + {d})
    ensures TablesLow(m, m.kdir) && TablesLow(m, d) && MapsPages(m, d)
  {
    P.StageKeepsKdir(s, m, d, mine, top);
    KernelMapOwned(m, s.dirs + {d}, top);
    forall i | 0 <= i < ENTRIES ensures m.tables[d][i].present ==> m.tables[d][i].frame < LOW_FRAMES {
      if m.tables[d][i].present { TableFrame(m, s.dirs + {d}, d, i); }
    }
    forall i | 0 <= i < ENTRIES ensures m.tables[m.kdir][i].present ==> m.tables[m.kdir][i].frame < LOW_FRAMES {
      if m.tables[m.kdir][i].present { TableFrame(m, s.dirs + {d}, m.kdir, i); }
    }
    hide Translate, Owned;
    forall p | 0 <= p < PAGES && Translate(m, d, p).Some? ensures Translate(m, d, p).value < PMM_START + PMM_PAGES {
      if p < LOW_FRAMES {
        SharedLow(m, s.dirs + {d}, top, d, p);
      }
    }
  }
}
