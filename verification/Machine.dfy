/** The memory managers as they run: bitmaps of words and tables updated in place, proved against the value level. */
module Machine {
  import opened Options
  import opened Bytes
  import opened Bitmap
  import opened Paging
  import opened Frames
  import opened Boot
  import opened MapLoop

  const INTR_WORDS: nat := 31      // PMM_INTR_PAGES_COUNT / 32
  const PMM_WORDS: nat := 32703    // PAGES_COUNT / 32

  /** Directory d maps one of the pages below n to the frame. */
  ghost predicate MapsBelow(m: Mem, d: nat, frame: nat, n: nat)
    requires Shaped(m) && d < LOW_FRAMES
  {
    exists p :: 0 <= p < n && Translate(m, d, p) == Some(frame)
  }

  class Memory {
    const intrBitmap: array<bv32>
    const bitmap: array<bv32>
    const frames: array<Table>   // physical memory below 8 MiB, read as tables
    const kdir: nat
    const kt1: nat
    const kt2: nat
    var data: map<nat, seq<byte>>   // what the pages handed out hold

    ghost predicate Valid()
      reads this
    {
      && intrBitmap != bitmap && intrBitmap.Length == INTR_WORDS && bitmap.Length == PMM_WORDS && frames.Length == LOW_FRAMES
      && kdir < INTR_START && kt1 < INTR_START && kt2 < INTR_START && kdir != kt1 && kdir != kt2 && kt1 != kt2
    }

    ghost function State(): (m: Mem)
      requires Valid()
      reads this, intrBitmap, bitmap, frames
      ensures Shaped(m)
    {
      Mem(Bits(intrBitmap[..]), Bits(bitmap[..]), frames[..], kdir, kt1, kt2)
    }

    /** The machine before initialisation; memory holds whatever it holds. */
    constructor (directory: nat, table1: nat, table2: nat)
      requires directory < INTR_START && table1 < INTR_START && table2 < INTR_START
      requires directory != table1 && directory != table2 && table1 != table2
      ensures Valid() && kdir == directory && kt1 == table1 && kt2 == table2 && data == map[]
      ensures fresh(intrBitmap) && fresh(bitmap) && fresh(frames)
    {
      intrBitmap := new bv32[INTR_WORDS];
      bitmap := new bv32[PMM_WORDS];
      frames := new Table[LOW_FRAMES](i => BlankEntries());
      kdir, kt1, kt2, data := directory, table1, table2, map[];
    }

    static method ClearWords(words: array<bv32>)
      modifies words
      ensures Bits(words[..]) == NoneInUse(32 * words.Length)
    {
      for i := 0 to words.Length
        invariant forall k :: 0 <= k < i ==> words[k] == 0
      {
        words[i] := 0;
      }
      forall i | 0 <= i < 32 * words.Length ensures !Bits(words[..])[i] {
        assert words[i / 32] == 0;
        ZeroWord(Index(i % 32));
      }
    }

    /** pmm_init. */
    method InitPmm()
      requires Valid()
      modifies intrBitmap, bitmap
      ensures Valid() && State() == PmmInit(old(State()))
    {
      ClearWords(bitmap);
      ClearWords(intrBitmap);
    }

    /** Fill one of the kernel's two tables with the identity map of the pages from `first` on. */
    method FillIdentity(t: nat, first: nat)
      requires Valid() && t < LOW_FRAMES
      modifies frames
      ensures frames[..] == old(frames[..])[t := IdentityTable(first)]
    {
      for i := 0 to ENTRIES
        invariant frames[..] == old(frames[..])[t := frames[t]]
        invariant forall k :: 0 <= k < i ==> frames[t][k] == Entry(true, true, true, first + k)
      {
        frames[t] := frames[t][i := Entry(true, true, true, first + i)];
      }
      assert frames[t] == IdentityTable(first);
    }

    /** vmm_init. */
    method InitVmm()
      requires Valid()
      modifies frames
      ensures Valid() && State() == VmmInit(old(State()))
    {
      frames[kdir] := BlankEntries();
      for i := 0 to ENTRIES
        invariant frames[..] == old(frames[..])[kdir := frames[kdir]]
        invariant forall k :: 0 <= k < i ==> frames[kdir][k] == Entry(false, true, true, 0)
        invariant forall k :: i <= k < ENTRIES ==> frames[kdir][k] == BLANK
      {
        frames[kdir] := frames[kdir][i := Entry(false, true, true, frames[kdir][i].frame)];
      }
      frames[kdir] := frames[kdir][0 := frames[kdir][0].(present := true, frame := kt1)];
      frames[kdir] := frames[kdir][1 := frames[kdir][1].(present := true, frame := kt2)];
      assert frames[kdir] == KernelDirectory(kt1, kt2);
      FillIdentity(kt1, 0);
      FillIdentity(kt2, ENTRIES);
    }

    /** pmm_intr_alloc_page. */
    method IntrAllocPage() returns (f: Option<nat>)
      requires Valid()
      modifies intrBitmap, frames
      ensures Valid() && State() == IntrAlloc(old(State())).0 && f == IntrAlloc(old(State())).1
    {
      var index := FindFirstPage(intrBitmap);
      if index == -1 {
        return None;
      }
      BitmapSet(intrBitmap, index);
      frames[INTR_START + index] := BlankEntries();
      f := Some(INTR_START + index);
    }

    /** vmm_va2pa. */
    method TranslateAddress(d: nat, va: nat) returns (pa: Option<nat>)
      requires Valid() && d < LOW_FRAMES
      requires frames[d][Pdx(va / PAGE_SIZE)].present ==> frames[d][Pdx(va / PAGE_SIZE)].frame < LOW_FRAMES
      ensures pa == VaToPa(State(), d, va)
    {
      var pd, pt := Pdx(va / PAGE_SIZE), Ptx(va / PAGE_SIZE);
      if !frames[d][pd].present {
        return None;
      }
      var ptable := frames[d][pd].frame;
      if !frames[ptable][pt].present {
        return None;
      }
      pa := Some(frames[ptable][pt].frame * PAGE_SIZE + va % PAGE_SIZE);
    }

    /** vmm_walk_pgdir: the frame of the table in which va's entry lies. */
    method WalkPgdir(d: nat, va: nat) returns (t: Option<nat>)
      requires Valid() && d < LOW_FRAMES
      requires !IsIntrFrame(d) || State().intr[d - INTR_START]
      modifies intrBitmap, frames
      ensures Valid() && State() == Walk(old(State()), d, va / PAGE_SIZE).0 && t == Walk(old(State()), d, va / PAGE_SIZE).1
    {
      var pd := Pdx(va / PAGE_SIZE);
      if frames[d][pd].present {
        return Some(frames[d][pd].frame);
      }
      t := IntrAllocPage();
      if t.Some? {
        frames[d] := frames[d][pd := frames[d][pd].(present := true, frame := t.value)];
      }
    }

    /** pmm_free_page. */
    method FreePage(frame: nat)
      requires Valid() && frame < PMM_START + PMM_PAGES
      modifies bitmap
      ensures Valid() && State() == Frames.FreePage(old(State()), frame)
    {
      if frame < PMM_START {
        return;
      }
      BitmapClear(bitmap, frame - PMM_START);
    }

    /** pmm_alloc_page: the page handed out is zeroed; a kernel panic is an outcome. */
    method AllocPage() returns (r: AllocResult)
      requires Valid() && TablesLow(State(), kdir)
      modifies `data, intrBitmap, bitmap, frames
      ensures Valid() && State() == Frames.AllocPage(old(State())).0 && r == Frames.AllocPage(old(State())).1
      ensures data == if r.Page? then old(data)[r.frame := Zeros(PAGE_SIZE)] else old(data)
    {
      hide Bits, Frames.AllocPage;
      r := TakePage();
      if r.Page? {
        data := data[r.frame := Zeros(PAGE_SIZE)];
      }
    }

    /** The first free page of the bitmap, entered into the kernel's tables. */
    method TakePage() returns (r: AllocResult)
      requires Valid() && TablesLow(State(), kdir)
      modifies intrBitmap, bitmap, frames
      ensures Valid() && State() == Frames.AllocPage(old(State())).0 && r == Frames.AllocPage(old(State())).1
    {
      hide Bits, Walk, Fill;
      var index := FindFirstPage(bitmap);
      if index == -1 {
        return Exhausted;
      }
      BitmapSet(bitmap, index);
      var frame := PMM_START + index;
      var ptable, entry := KernelTable(frame);
      if ptable == None {
        return Panic(FailedPageTable);
      }
      r := EnterPage(ptable.value, entry, frame);
    }

    /** The kernel's table for a fresh page and the entry to fill: the first one if the table had to be allocated. */
    method KernelTable(frame: nat) returns (ptable: Option<nat>, entry: nat)
      requires Valid() && TablesLow(State(), kdir)
      modifies intrBitmap, frames
      ensures Valid() && State() == Walk(old(State()), kdir, frame).0 && ptable == Walk(old(State()), kdir, frame).1
      ensures entry == (if old(frames[kdir][Pdx(frame)].present) then Ptx(frame) else 0) && entry < ENTRIES
      ensures ptable.Some? ==> ptable.value < LOW_FRAMES
    {
      hide Bits, BlankEntries;
      var pd := Pdx(frame);
      if frames[kdir][pd].present {
        return Some(frames[kdir][pd].frame), Ptx(frame);
      }
      entry := 0;
      ptable := IntrAllocPage();
      if ptable.Some? {
        frames[kdir] := frames[kdir][pd := frames[kdir][pd].(present := true, frame := ptable.value)];
      }
    }

    /** Fill the entry of a fresh page, which must not be present yet. */
    method EnterPage(ptable: nat, entry: nat, frame: nat) returns (r: AllocResult)
      requires Valid() && ptable < LOW_FRAMES && entry < ENTRIES
      modifies frames
      ensures Valid() && State() == Fill(old(State()), ptable, entry, frame).0 && r == Fill(old(State()), ptable, entry, frame).1
    {
      hide Bits;
      if frames[ptable][entry].present {
        return Panic(AlreadyAllocated);
      }
      frames[ptable] := frames[ptable][entry := Entry(true, true, false, frame)];
      r := Page(frame);
    }

    /** Fill a zeroed frame as a user directory. */
    method FillUserDirectory(pgdir: nat)
      requires Valid() && pgdir < LOW_FRAMES && frames[pgdir] == BlankEntries()
      modifies frames
      ensures frames[..] == old(frames[..])[pgdir := UserDirectory(kt1, kt2)]
    {
      for i := 0 to ENTRIES
        invariant frames[..] == old(frames[..])[pgdir := frames[pgdir]]
        invariant forall k :: 0 <= k < i ==> frames[pgdir][k] == Entry(false, true, false, 0)
        invariant forall k :: i <= k < ENTRIES ==> frames[pgdir][k] == BLANK
      {
        frames[pgdir] := frames[pgdir][i := Entry(false, true, false, frames[pgdir][i].frame)];
      }
      frames[pgdir] := frames[pgdir][0 := frames[pgdir][0].(present := true, frame := kt1)];
      frames[pgdir] := frames[pgdir][1 := frames[pgdir][1].(present := true, frame := kt2)];
      assert frames[pgdir] == UserDirectory(kt1, kt2);
    }

    /** vmm_create_user_page_directory. */
    method CreateUserPageDirectory() returns (d: Option<nat>)
      requires Valid()
      modifies intrBitmap, frames
      ensures Valid() && State() == CreateDir(old(State())).0 && d == CreateDir(old(State())).1
      ensures d.Some? ==> d.value < frames.Length && forall i :: 0 <= i < 1024 ==>
                var e := frames[d.value][i]; (e.present <==> i < 2) && e.writable && !e.user
    {
      hide Bits, UserDirectory, FirstClear;
      d := IntrAllocPage();
      if d.Some? {
        FillUserDirectory(d.value);
        UserDirectoryBits(kt1, kt2);
      }
    }

    /** One turn of vmm_mappage: walk to the entry of address a and fill it. */
    method MapOnePage(d: nat, a: nat, paPage: nat, flags: Flags, ghost dirs: set<nat>, ghost vp: nat, ghost pa: nat) returns (ok: bool)
      requires Valid() && Owned(State(), dirs) && d in dirs && d < LOW_FRAMES && a / PAGE_SIZE < PAGES
      requires paPage / PAGE_SIZE == FrameFor(pa, vp, a / PAGE_SIZE)
      modifies intrBitmap, frames
      ensures Valid() && Owned(State(), dirs)
      ensures State() == MapTurn(old(State()), d, vp, a / PAGE_SIZE, pa, flags).0
      ensures ok == MapTurn(old(State()), d, vp, a / PAGE_SIZE, pa, flags).1
    {
      hide Owned, Walk, Bits, FrameFor;
      ghost var before := State();
      DirInUse(before, dirs, d);
      MapTurnKeepsOwned(before, dirs, d, vp, a / PAGE_SIZE, pa, flags);
      WalkKeepsOwned(before, dirs, d, a / PAGE_SIZE);
      var t := WalkPgdir(d, a);
      if t == None {
        return false;
      }
      frames[t.value] := frames[t.value][Ptx(a / PAGE_SIZE) := Entry(flags.present, flags.writable, flags.user, paPage / PAGE_SIZE)];
      assert State() == MapTurn(before, d, vp, a / PAGE_SIZE, pa, flags).0;
      ok := true;
    }

    /** vmm_mappage, with addresses that wrap at 32 bits. */
    method MapPage(d: nat, va: nat, pa: nat, size: nat, flags: Flags, ghost dirs: set<nat>) returns (ok: bool, ghost turns: nat)
      requires Valid() && Owned(State(), dirs) && d in dirs && d < LOW_FRAMES && va < ADDRESSES
      modifies intrBitmap, frames
      ensures Valid() && Leaves(old(State()), d, va, pa, size, flags, turns, State(), ok)
      ensures LastPage(va, size) < PAGES - 1 ==> (State(), ok) == MapPages(old(State()), d, va, pa, size, flags)
      ensures LastPage(va, size) == PAGES - 1 ==> !ok
      ensures 0 < size && va + size <= 0xFFFF_F000 ==>
                LastPage(va, size) < PAGES - 1 && (State(), ok) == MapPages(old(State()), d, va, pa, size, flags)
      ensures 0 < size && 0xFFFF_F000 < va + size <= 0x1_0000_0000 ==> !ok
    {
      hide Owned, MapTurn, Bits, LastPage, Turns;
      var a, last := va / PAGE_SIZE * PAGE_SIZE, LastPage(va, size) * PAGE_SIZE;
      ghost var m, vp := State(), va / PAGE_SIZE;
      turns := 0;
      NoTurns(m, d, vp, pa, flags);
      while a <= last
        invariant Valid() && Owned(State(), dirs) && turns <= PAGES
        invariant a == Counted(vp, turns) * PAGE_SIZE && (State(), true) == Turns(m, d, vp, turns, pa, flags)
        invariant forall k :: 0 <= k < turns ==> Counted(vp, k) <= LastPage(va, size) && Turns(m, d, vp, k, pa, flags).1
        decreases PAGES - turns
      {
        NeverRound(m, dirs, d, vp, pa, flags);
        NextTurn(m, d, vp, turns, pa, flags);
        CountedNext(vp, turns);
        var paPage := (pa + (a - va / PAGE_SIZE * PAGE_SIZE)) % ADDRESSES;
        assert a - vp * PAGE_SIZE == (a / PAGE_SIZE - vp) * PAGE_SIZE;
        ok := MapOnePage(d, a, paPage, flags, dirs, vp, pa);
        turns := turns + 1;
        if !ok {
          LoopReturns(m, dirs, d, va, pa, size, flags, turns, State(), false);
          return;
        }
        a := (a + PAGE_SIZE) % ADDRESSES;
      }
      ok := true;
      LoopReturns(m, dirs, d, va, pa, size, flags, turns, State(), true);
    }

    /** vmm_destroy_user_page_directory. */
    method DestroyUserPageDirectory(d: nat)
      requires Valid() && d < LOW_FRAMES && TablesLow(State(), d) && MapsPages(State(), d)
      modifies bitmap
      ensures Valid() && State() == DestroyDir(old(State()), d)
    {
      ghost var m := State();
      for i := 0 to ENTRIES
        invariant Destroyed(m, State(), d, i * ENTRIES)
      {
        if frames[d][i].present {
          var ptable := frames[d][i].frame;
          for j := 0 to ENTRIES
            invariant Destroyed(m, State(), d, i * ENTRIES + j)
          {
            ghost var p, before := i * ENTRIES + j, State();
            assert Pdx(p) == i && Ptx(p) == j;
            if frames[ptable][j].present {
              var frame := frames[ptable][j].frame;
              assert Translate(m, d, p) == Some(frame);
              FreePage(frame);
            }
            DestroyedNext(m, before, State(), d, p);
          }
        } else {
          DestroyedRegion(m, State(), d, i);
        }
      }
      FreePage(d);
      DestroyedAll(m, State(), d);
    }
  }

  /** What directory d leads to are tables of low memory. */
  ghost predicate TablesLow(m: Mem, d: nat)
    requires Shaped(m) && d < LOW_FRAMES
  {
    forall i :: 0 <= i < ENTRIES && m.tables[d][i].present ==> m.tables[d][i].frame < LOW_FRAMES
  }

  /** Directory d maps no frame behind those that the page bitmap has a bit for. */
  ghost predicate MapsPages(m: Mem, d: nat)
    requires Shaped(m) && d < LOW_FRAMES
  {
    forall p :: 0 <= p < PAGES && Translate(m, d, p).Some? ==> Translate(m, d, p).value < PMM_START + PMM_PAGES
  }

  lemma DirInUse(m: Mem, dirs: set<nat>, d: nat)
    requires Owned(m, dirs) && d in dirs
    ensures Shaped(m) && (!IsIntrFrame(d) || m.intr[d - INTR_START])
  {
  }

  // ---------- destruction page by page ----------

  /** From m, the pages that directory d maps below page n have been freed. */
  ghost predicate Destroyed(m: Mem, m': Mem, d: nat, n: nat)
    requires Shaped(m) && Shaped(m') && d < LOW_FRAMES
  {
    m' == m.(pages := m'.pages)
    && forall k :: 0 <= k < PMM_PAGES ==> (m'.pages[k] <==> m.pages[k] && !MapsBelow(m, d, PMM_START + k, n))
  }

  lemma DestroyedNext(m: Mem, m1: Mem, m2: Mem, d: nat, p: nat)
    requires Shaped(m) && Shaped(m1) && d < LOW_FRAMES && Destroyed(m, m1, d, p)
    requires Translate(m, d, p).Some? ==> Translate(m, d, p).value < PMM_START + PMM_PAGES
    requires m2 == if Translate(m, d, p).Some? then Frames.FreePage(m1, Translate(m, d, p).value) else m1
    ensures Destroyed(m, m2, d, p + 1)
  {
  }

  lemma DestroyedRegion(m: Mem, m': Mem, d: nat, i: nat)
    requires Shaped(m) && Shaped(m') && d < LOW_FRAMES && i < ENTRIES && !m.tables[d][i].present
    requires Destroyed(m, m', d, i * ENTRIES)
    ensures Destroyed(m, m', d, (i + 1) * ENTRIES)
  {
  }

  lemma DestroyedAll(m: Mem, m': Mem, d: nat)
    requires Shaped(m) && Shaped(m') && d < LOW_FRAMES && Destroyed(m, m', d, PAGES)
    ensures m' == DestroyDir(m, d)
  {
  }

  lemma ZeroWord(j: bv6)
    requires j < 32
    ensures !BitOf(0, j)
  {
  }
}
