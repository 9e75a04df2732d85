/**
 Allocation and release of pages above 8 MiB, with the kernel's identity map of every page that was ever
 handed out, and the creation and destruction of user directories.
 */
module Frames {
  import opened Options
  import opened Bitmap
  import opened Paging

  /**
   The two kernel panics of allocation, no frame for a page table and an entry that is present already, and the one
   that a page fault of the kernel itself ends in.
   */
  datatype PanicMessage = FailedPageTable | AlreadyAllocated | PageFault

  datatype AllocResult = Panic(why: PanicMessage) | Exhausted | Page(frame: nat)

  /** Fill an entry for a fresh page; an entry that is already present is a kernel panic. */
  function Fill(m: Mem, t: nat, i: nat, frame: nat): (Mem, AllocResult)
    requires Shaped(m) && t < LOW_FRAMES && i < ENTRIES
  {
    if m.tables[t][i].present then (m, Panic(AlreadyAllocated))
    else (SetEntry(m, t, i, Entry(true, true, false, frame)), Page(frame))
  }

  /**
   pmm_alloc_page: take the first free page and enter it into the kernel's tables. When the table is
   missing it is allocated, and the entry filled is the table's first, whatever the page.
   */
  function AllocPage(m: Mem): (r: (Mem, AllocResult))
    requires Shaped(m)
    ensures Shaped(r.0) && (r.1.Page? ==> PMM_START <= r.1.frame < PMM_START + PMM_PAGES)
  {
    var index := FirstClear(m.pages, 0);
    if index == -1 then (m, Exhausted)
    else
      var frame := PMM_START + index;
      var m0 := m.(pages := m.pages[index := true]);
      var absent := !m0.tables[m0.kdir][Pdx(frame)].present;
      match Walk(m0, m0.kdir, frame)
      case (m1, None) => (m1, Panic(FailedPageTable))
      case (m1, Some(t)) =>
        if t >= LOW_FRAMES then (m1, Panic(FailedPageTable)) else Fill(m1, t, if absent then 0 else Ptx(frame), frame)
  }

  /** pmm_free_page; addresses below 8 MiB are ignored. */
  function FreePage(m: Mem, frame: nat): (m': Mem)
    requires Shaped(m) && frame < PMM_START + PMM_PAGES
    ensures Shaped(m')
  {
    if frame < PMM_START then m else m.(pages := m.pages[frame - PMM_START := false])
  }

  /** The pages above 8 MiB; PMM hands out all but the last few. */
  const KERNEL_PAGES: nat := PAGES - PMM_START

  /** The frame that the kernel's directory maps page i above 8 MiB to. */
  function KernelFrame(m: Mem, i: nat): Option<nat>
    requires Shaped(m)
  {
    Translate(m, m.kdir, PMM_START + i)
  }

  /** The frame that the kernel's first two tables map low page q to. */
  function LowFrame(m: Mem, q: nat): Option<nat>
    requires Shaped(m)
  {
    Translate(m, m.kdir, q)
  }

  /**
   The kernel's map when exactly the pages below top were ever allocated: low memory goes to itself; a directory
   entry is present iff the first page of its region was, a page is mapped iff it was, and then to itself; pages in
   use are among them.
   */
  ghost predicate KernelMap(m: Mem, dirs: set<nat>, top: nat) {
    && Owned(m, dirs) && top <= PMM_PAGES
    && (forall i :: 0 <= i < PMM_PAGES && m.pages[i] ==> i < top)
    && (forall r :: 2 <= r < ENTRIES ==> (m.tables[m.kdir][r].present <==> (r - 2) * ENTRIES < top))
    && (forall i :: 0 <= i < KERNEL_PAGES ==> KernelFrame(m, i) == if i < top then Some(PMM_START + i) else None)
    && (forall q :: 0 <= q < LOW_FRAMES ==> LowFrame(m, q) == Some(q))
  }

  lemma PageOfIndex(i: nat)
    requires i < KERNEL_PAGES
    ensures PMM_START + i < PAGES && 2 <= Pdx(PMM_START + i) < ENTRIES
    ensures Pdx(PMM_START + i) - 2 == i / ENTRIES && Ptx(PMM_START + i) == i % ENTRIES
  {
  }

  /** In the branch that allocates a table the page is the first of its region, so filling entry 0 is right. */
  lemma MissingTableMeansFirstPage(m: Mem, dirs: set<nat>, top: nat, i: nat)
    requires KernelMap(m, dirs, top) && i == top < PMM_PAGES
    ensures !m.tables[m.kdir][Pdx(PMM_START + i)].present <==> i % ENTRIES == 0
  {
  }

  /** Marking a page as used is no change to any table. */
  lemma PagesDoNotTranslate(m: Mem, pages: seq<bool>, dirs: set<nat>)
    requires Owned(m, dirs) && |pages| == PMM_PAGES
    ensures Owned(m.(pages := pages), dirs)
    ensures forall d, p :: d in dirs && d < LOW_FRAMES ==> Translate(m.(pages := pages), d, p) == Translate(m, d, p)
  {
  }

  lemma WalkOutcome(m: Mem, d: nat, p: nat)
    requires Shaped(m) && d < LOW_FRAMES
    ensures Walk(m, d, p).1 == None <==> !m.tables[d][Pdx(p)].present && forall k :: 0 <= k < INTR_PAGES ==> m.intr[k]
    ensures m.tables[d][Pdx(p)].present ==> Walk(m, d, p) == (m, Some(m.tables[d][Pdx(p)].frame))
    ensures var (m1, t) := Walk(m, d, p);
            forall i :: 0 <= i < ENTRIES && i != Pdx(p) && (t == None || d != t.value) ==> m1.tables[d][i] == m.tables[d][i]
  {
  }

  /** The state that pmm_alloc_page has reached when it looks at the page's entry. */
  function AllocWalk(m: Mem, index: nat): (r: (Mem, Option<nat>))
    requires Shaped(m) && index < PMM_PAGES
    ensures Shaped(r.0)
  {
    Walk(m.(pages := m.pages[index := true]), m.kdir, PMM_START + index)
  }

  lemma AllocWalkSpec(m: Mem, dirs: set<nat>, top: nat, index: nat)
    requires KernelMap(m, dirs, top) && index < PMM_PAGES && index <= top
    ensures var (m1, t) := AllocWalk(m, index);
            && Owned(m1, dirs) && m1.pages == m.pages[index := true] && SameLayout(m, m1)
            && (index < top ==> m.tables[m.kdir][Pdx(PMM_START + index)].present)
            && (t == None <==> index == top && top % ENTRIES == 0 && forall k :: 0 <= k < INTR_PAGES ==> m.intr[k])
            && (t.Some? ==>
                  && t.value < LOW_FRAMES
                  && m1.tables[m.kdir][Pdx(PMM_START + index)].present
                  && m1.tables[m.kdir][Pdx(PMM_START + index)].frame == t.value
                  && (m1.tables[t.value][Ptx(PMM_START + index)].present <==> index < top))
            && (forall e, q :: e in dirs && e < LOW_FRAMES && 0 <= q < PAGES ==> Translate(m1, e, q) == Translate(m, e, q))
  {
    hide Owned, Walk;
    KernelMapOwned(m, dirs, top);
    var frame, m0 := PMM_START + index, m.(pages := m.pages[index := true]);
    PageOfIndex(index);
    PagesDoNotTranslate(m, m0.pages, dirs);
    WalkKeepsOwned(m0, dirs, m.kdir, frame);
    WalkOutcome(m0, m.kdir, frame);
    var r := Pdx(frame);
    assert m.tables[m.kdir][r].present <==> (r - 2) * ENTRIES < top;
    forall e, q | e in dirs && e < LOW_FRAMES && 0 <= q < PAGES
      ensures Translate(AllocWalk(m, index).0, e, q) == Translate(m, e, q)
    {
      WalkKeepsTranslation(m0, dirs, m.kdir, frame, e, q);
    }
    assert KernelFrame(m, index) == Translate(m, m.kdir, frame);
  }

  lemma FirstFreeAtMostTop(m: Mem, dirs: set<nat>, top: nat)
    requires KernelMap(m, dirs, top)
    ensures FirstClear(m.pages, 0) <= top
  {
    if top < PMM_PAGES {
      assert !m.pages[top];
    }
  }

  lemma AllocIsWalkAndFill(m: Mem, index: nat)
    requires Shaped(m) && index < PMM_PAGES && index == FirstClear(m.pages, 0)
    ensures var absent := !m.tables[m.kdir][Pdx(PMM_START + index)].present;
            AllocPage(m) ==
            match AllocWalk(m, index)
            case (m1, None) => (m1, Panic(FailedPageTable))
            case (m1, Some(t)) =>
              if t >= LOW_FRAMES then (m1, Panic(FailedPageTable))
              else Fill(m1, t, if absent then 0 else Ptx(PMM_START + index), PMM_START + index)
  {
  }

  lemma KernelMapOwned(m: Mem, dirs: set<nat>, top: nat)
    requires KernelMap(m, dirs, top)
    ensures Owned(m, dirs) && Shaped(m) && m.kdir in dirs && m.kdir < LOW_FRAMES
  {
  }

  /**
   Allocation under the kernel's map: with a page freed earlier still free, or no internal frame left for
   a region's first page, it panics; otherwise it hands out page top, maps it to itself, and changes no
   other translation of any directory.
   */
  lemma AllocPageSpec(m: Mem, dirs: set<nat>, top: nat)
    requires KernelMap(m, dirs, top)
    ensures var (m', r) := AllocPage(m);
            var index := FirstClear(m.pages, 0);
            if index == -1 then r == Exhausted && m' == m
            else if index < top then r == Panic(AlreadyAllocated)
            else
              && index == top
              && (r == Panic(FailedPageTable) <==> top % ENTRIES == 0 && forall k :: 0 <= k < INTR_PAGES ==> m.intr[k])
              && (r != Panic(FailedPageTable) ==>
                    && r == Page(PMM_START + top) && !m.pages[top]
                    && KernelMap(m', dirs, top + 1) && m'.pages == m.pages[top := true] && SameLayout(m, m')
                    && (forall e, q :: e in dirs && e < LOW_FRAMES && 0 <= q < PAGES && !(e == m.kdir && q == PMM_START + top) ==>
                          Translate(m', e, q) == Translate(m, e, q)))
  {
    hide Owned, Walk, Translate, KernelMap, AllocWalk, SetEntry;
    KernelMapOwned(m, dirs, top);
    var index := FirstClear(m.pages, 0);
    if index != -1 {
      hide AllocPage;
      FirstFreeAtMostTop(m, dirs, top);
      AllocIsWalkAndFill(m, index);
      AllocWalkSpec(m, dirs, top, index);
      if index == top {
        MissingTableMeansFirstPage(m, dirs, top, index);
        PageOfIndex(index);
        if AllocWalk(m, index).1.Some? {
          FreshPageMapped(m, dirs, top);
        }
      }
    }
  }

  /** Filling the entry of page top makes it the only new page of the kernel's map. */
  lemma FreshPageMapped(m: Mem, dirs: set<nat>, top: nat)
    requires KernelMap(m, dirs, top) && top < PMM_PAGES && AllocWalk(m, top).1.Some?
    ensures Shaped(AllocWalk(m, top).0) && AllocWalk(m, top).1.value < LOW_FRAMES
    ensures var (m1, t) := AllocWalk(m, top);
            var m' := SetEntry(m1, t.value, Ptx(PMM_START + top), Entry(true, true, false, PMM_START + top));
            && KernelMap(m', dirs, top + 1) && m'.pages == m.pages[top := true] && SameLayout(m, m')
            && (forall e, q :: e in dirs && e < LOW_FRAMES && 0 <= q < PAGES && !(e == m.kdir && q == PMM_START + top) ==>
                  Translate(m', e, q) == Translate(m, e, q))
  {
    hide Owned, Walk, Translate;
    KernelMapOwned(m, dirs, top);
    AllocWalkSpec(m, dirs, top, top);
    PageOfIndex(top);
    var (m1, t) := AllocWalk(m, top);
    var frame, ent := PMM_START + top, Entry(true, true, false, PMM_START + top);
    SetEntryKeepsOwned(m1, dirs, m.kdir, frame, ent);
    var m' := SetEntry(m1, t.value, Ptx(frame), ent);
    forall e, q | e in dirs && e < LOW_FRAMES && 0 <= q < PAGES
      ensures Translate(m', e, q) == if e == m.kdir && q == frame then Some(frame) else Translate(m, e, q)
    {
      SetEntryTranslates(m1, dirs, m.kdir, frame, ent, e, q);
    }
    forall i | 0 <= i < KERNEL_PAGES ensures KernelFrame(m', i) == if i < top + 1 then Some(PMM_START + i) else None {
      PageOfIndex(i);
      assert KernelFrame(m, i) == if i < top then Some(PMM_START + i) else None;
    }
    forall q | 0 <= q < LOW_FRAMES ensures LowFrame(m', q) == Some(q) {
      assert LowFrame(m, q) == Some(q);
    }
    RegionsAfter(m, dirs, top);
  }

  lemma RegionsAfter(m: Mem, dirs: set<nat>, top: nat)
    requires KernelMap(m, dirs, top) && top < PMM_PAGES && AllocWalk(m, top).1.Some?
    ensures Shaped(AllocWalk(m, top).0) && AllocWalk(m, top).1.value < LOW_FRAMES
    ensures var (m1, t) := AllocWalk(m, top);
            var m' := SetEntry(m1, t.value, Ptx(PMM_START + top), Entry(true, true, false, PMM_START + top));
            forall r :: 2 <= r < ENTRIES ==> (m'.tables[m.kdir][r].present <==> (r - 2) * ENTRIES < top + 1)
  {
    hide Owned, Walk, Translate;
    KernelMapOwned(m, dirs, top);
    AllocWalkSpec(m, dirs, top, top);
    PageOfIndex(top);
    var (m1, t) := AllocWalk(m, top);
    TableFrame(m1, dirs, m.kdir, Pdx(PMM_START + top));
    WalkOutcome(m.(pages := m.pages[top := true]), m.kdir, PMM_START + top);
    forall r | 2 <= r < ENTRIES ensures m1.tables[m.kdir][r].present <==> (r - 2) * ENTRIES < top + 1 {
      assert m.tables[m.kdir][r].present <==> (r - 2) * ENTRIES < top;
    }
  }

  /** Freeing a page changes no table, and the kernel's map with it stays. */
  lemma FreeKeepsKernelMap(m: Mem, dirs: set<nat>, top: nat, frame: nat)
    requires KernelMap(m, dirs, top) && frame < PMM_START + PMM_PAGES
    ensures KernelMap(FreePage(m, frame), dirs, top)
    ensures forall d, p :: d in dirs && d < LOW_FRAMES ==> Translate(FreePage(m, frame), d, p) == Translate(m, d, p)
  {
    ClearingKeepsKernelMap(m, dirs, top, FreePage(m, frame).pages);
    if frame < PMM_START {
      assert FreePage(m, frame) == m;
    } else {
      PagesDoNotTranslate(m, FreePage(m, frame).pages, dirs);
    }
  }

  /** So does freeing any set of pages. */
  lemma ClearingKeepsKernelMap(m: Mem, dirs: set<nat>, top: nat, pages: seq<bool>)
    requires KernelMap(m, dirs, top) && |pages| == PMM_PAGES
    requires forall i :: 0 <= i < PMM_PAGES && pages[i] ==> m.pages[i]
    ensures KernelMap(m.(pages := pages), dirs, top)
  {
    hide Owned, Translate;
    KernelMapOwned(m, dirs, top);
    PagesDoNotTranslate(m, pages, dirs);
    forall i | 0 <= i < KERNEL_PAGES ensures KernelFrame(m.(pages := pages), i) == KernelFrame(m, i) {
    }
    forall q | 0 <= q < LOW_FRAMES ensures LowFrame(m.(pages := pages), q) == LowFrame(m, q) {
    }
  }

  // ---------- user directories ----------

  /** A user directory shares the kernel's first two tables and has no other. */
  function UserDirectory(kt1: nat, kt2: nat): (t: seq<Entry>)
    ensures |t| == ENTRIES
  {
    seq(ENTRIES, i => if i == 0 then Entry(true, true, false, kt1)
                      else if i == 1 then Entry(true, true, false, kt2)
                      else Entry(false, true, false, 0))
  }

  lemma UserDirectoryBits(kt1: nat, kt2: nat)
    ensures forall i :: 0 <= i < 1024 ==>
              var e := UserDirectory(kt1, kt2)[i]; (e.present <==> i < 2) && e.writable && !e.user
  {
  }

  /** vmm_create_user_page_directory. */
  function CreateDir(m: Mem): (r: (Mem, Option<nat>))
    requires Shaped(m)
    ensures Shaped(r.0) && r.0.pages == m.pages && SameLayout(m, r.0)
    ensures r.1.Some? ==> IsIntrFrame(r.1.value) && !m.intr[r.1.value - INTR_START]
    ensures r.1 == None ==> r.0 == m
  {
    match IntrAlloc(m)
    case (m1, None) => (m1, None)
    case (m1, Some(d)) => (m1.(tables := m1.tables[d := UserDirectory(m.kt1, m.kt2)]), Some(d))
  }

  /** The new directory is no directory and no table yet, maps nothing above 8 MiB, and disturbs no translation. */
  lemma CreateDirSpec(m: Mem, dirs: set<nat>, top: nat)
    requires KernelMap(m, dirs, top) && CreateDir(m).1.Some?
    ensures var (m', d) := (CreateDir(m).0, CreateDir(m).1.value);
            && d !in dirs && d < LOW_FRAMES && KernelMap(m', dirs + {d}, top)
            && (forall p :: LOW_FRAMES <= p < PAGES ==> Translate(m', d, p) == None)
            && (forall e, p :: e in dirs && e < LOW_FRAMES && 0 <= p < PAGES ==> Translate(m', e, p) == Translate(m, e, p))
  {
    hide Owned, Translate, CreateDir;
    KernelMapOwned(m, dirs, top);
    var (m', d) := (CreateDir(m).0, CreateDir(m).1.value);
    CreateDirOwned(m, dirs);
    CreateDirEntries(m, dirs);
    forall p | LOW_FRAMES <= p < PAGES ensures Translate(m', d, p) == None {
      NewDirectoryMapsNothing(m, p);
    }
    forall e, p | e in dirs && e < LOW_FRAMES && 0 <= p < PAGES ensures Translate(m', e, p) == Translate(m, e, p) {
      CreateDirTranslates(m, dirs, e, p);
    }
    forall i | 0 <= i < KERNEL_PAGES ensures KernelFrame(m', i) == KernelFrame(m, i) {
      PageOfIndex(i);
    }
    forall q | 0 <= q < LOW_FRAMES ensures LowFrame(m', q) == LowFrame(m, q) {
    }
  }

  lemma NewDirectoryMapsNothing(m: Mem, p: nat)
    requires Shaped(m) && CreateDir(m).1.Some? && LOW_FRAMES <= p < PAGES
    ensures Translate(CreateDir(m).0, CreateDir(m).1.value, p) == None
  {
  }

  lemma CreateDirEntries(m: Mem, dirs: set<nat>)
    requires Owned(m, dirs) && CreateDir(m).1.Some?
    ensures var (m', d) := (CreateDir(m).0, CreateDir(m).1.value);
            && d !in dirs
            && (forall e, i :: e in dirs && e < LOW_FRAMES && 0 <= i < ENTRIES ==> m'.tables[e][i] == m.tables[e][i])
            && (forall e, i :: e in dirs && e < LOW_FRAMES && 2 <= i < ENTRIES && m.tables[e][i].present ==>
                  m.tables[e][i].frame != d)
            && m'.tables[d] == UserDirectory(m.kt1, m.kt2)
  {
  }

  lemma CreateDirOwned(m: Mem, dirs: set<nat>)
    requires Owned(m, dirs) && CreateDir(m).1.Some?
    ensures CreateDir(m).1.value !in dirs && Owned(CreateDir(m).0, dirs + {CreateDir(m).1.value})
  {
    CreateDirEntries(m, dirs);
    CreateDirApart(m, dirs);
    hide TablesApart;
  }

  lemma CreateDirApart(m: Mem, dirs: set<nat>)
    requires Owned(m, dirs) && CreateDir(m).1.Some?
    ensures TablesApart(CreateDir(m).0, dirs + {CreateDir(m).1.value})
  {
    var (m', d) := (CreateDir(m).0, CreateDir(m).1.value);
    CreateDirEntries(m, dirs);
    hide DirsPlaced, KernelShared, TablesPlaced, CreateDir;
    forall a, i | a in dirs + {d} && a < LOW_FRAMES && 2 <= i < ENTRIES && m'.tables[a][i].present
      ensures a in dirs && m'.tables[a][i] == m.tables[a][i] {
    }
  }

  lemma CreateDirTranslates(m: Mem, dirs: set<nat>, e: nat, p: nat)
    requires Owned(m, dirs) && CreateDir(m).1.Some? && e in dirs && e < LOW_FRAMES
    ensures Translate(CreateDir(m).0, e, p) == Translate(m, e, p)
  {
  }

  /** Directory d maps some page to the frame. */
  ghost predicate Maps(m: Mem, d: nat, frame: nat)
    requires Shaped(m) && d < LOW_FRAMES
  {
    exists p :: 0 <= p < PAGES && Translate(m, d, p) == Some(frame)
  }

  /** vmm_destroy_user_page_directory: free every page that the directory maps. The tables themselves stay allocated. */
  ghost function DestroyDir(m: Mem, d: nat): (m': Mem)
    requires Shaped(m) && d < LOW_FRAMES
    ensures Shaped(m') && m' == m.(pages := m'.pages)
    ensures forall k :: 0 <= k < PMM_PAGES ==> (m'.pages[k] <==> m.pages[k] && !Maps(m, d, PMM_START + k))
  {
    m.(pages := seq(PMM_PAGES, k requires 0 <= k < PMM_PAGES => m.pages[k] && !Maps(m, d, PMM_START + k)))
  }

  lemma DestroyKeepsKernelMap(m: Mem, dirs: set<nat>, top: nat, d: nat)
    requires KernelMap(m, dirs, top) && d < LOW_FRAMES
    ensures KernelMap(DestroyDir(m, d), dirs, top)
    ensures forall e, p :: e in dirs && e < LOW_FRAMES ==> Translate(DestroyDir(m, d), e, p) == Translate(m, e, p)
  {
    ClearingKeepsKernelMap(m, dirs, top, DestroyDir(m, d).pages);
    PagesDoNotTranslate(m, DestroyDir(m, d).pages, dirs);
  }

  // ---------- mapping into a user directory ----------

  /** vmm_mappage of one page above 8 MiB into a user directory leaves the kernel's map alone. */
  lemma MapKeepsKernelMap(m: Mem, dirs: set<nat>, top: nat, d: nat, p: nat, pa: nat, flags: Flags)
    requires KernelMap(m, dirs, top) && d in dirs && d < LOW_FRAMES && d != m.kdir && LOW_FRAMES <= p < PAGES
    ensures var m' := MapRun(m, d, p, p, p, pa, flags).0;
            KernelMap(m', dirs, top) && m'.pages == m.pages && SameLayout(m, m')
  {
    hide Owned, Translate, MapRun;
    KernelMapOwned(m, dirs, top);
    MapKeepsOwned(m, dirs, d, p, p, p, pa, flags);
    var m' := MapRun(m, d, p, p, p, pa, flags).0;
    forall i | 0 <= i < KERNEL_PAGES ensures KernelFrame(m', i) == KernelFrame(m, i) {
      PageOfIndex(i);
      MapTranslates(m, dirs, d, p, p, p, pa, flags, m.kdir, PMM_START + i);
    }
    forall q | 0 <= q < LOW_FRAMES ensures LowFrame(m', q) == LowFrame(m, q) {
      MapTranslates(m, dirs, d, p, p, p, pa, flags, m.kdir, q);
    }
    MapKeepsOtherDirectory(m, dirs, d, p, pa, flags);
  }

  lemma MapKeepsOtherDirectory(m: Mem, dirs: set<nat>, d: nat, p: nat, pa: nat, flags: Flags)
    requires Owned(m, dirs) && d in dirs && d < LOW_FRAMES && d != m.kdir && LOW_FRAMES <= p < PAGES
    ensures forall r :: 0 <= r < ENTRIES ==> MapRun(m, d, p, p, p, pa, flags).0.tables[m.kdir][r] == m.tables[m.kdir][r]
  {
    var (m1, t) := Walk(m, d, p);
    WalkKeepsOwned(m, dirs, d, p);
    if t.Some? {
      TableFrame(m1, dirs, d, Pdx(p));
    }
  }

  /** In the shared region every directory translates as the kernel's. */
  lemma SharedLow(m: Mem, dirs: set<nat>, top: nat, d: nat, q: nat)
    requires KernelMap(m, dirs, top) && d in dirs && d < LOW_FRAMES && q < LOW_FRAMES
    ensures Translate(m, d, q) == Some(q)
  {
    hide Translate, Owned;
    SharedTables(m, dirs, d, q);
    ShapedOf(m, dirs);
    assert LowFrame(m, q) == Some(q);
  }

  lemma SharedTables(m: Mem, dirs: set<nat>, d: nat, q: nat)
    requires Owned(m, dirs) && d in dirs && d < LOW_FRAMES && q < LOW_FRAMES
    ensures m.kdir < LOW_FRAMES && Translate(m, d, q) == Translate(m, m.kdir, q)
  {
    hide TablesPlaced, TablesApart;
    assert Pdx(q) < 2;
  }
}
