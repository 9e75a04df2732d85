/**
 Physical pages and two-level page tables as values. Directories and tables live in 4 KiB frames of low
 memory; frame numbers are physical addresses divided by 4096. Entry i of a directory covers the 1024
 pages i * 1024 .. i * 1024 + 1023.
 */
module Paging {
  import opened Options
  import opened Bitmap

  const PAGE_SIZE: nat := 4096
  const ENTRIES: nat := 1024
  const ADDRESSES: nat := 0x1_0000_0000
  const PAGES: nat := 0x10_0000                // ADDRESSES / PAGE_SIZE
  const LOW_FRAMES: nat := 2048                // frames below 8 MiB
  const INTR_START: nat := 1024                // PMM_INTR_START_ADDR / PAGE_SIZE
  const INTR_PAGES: nat := 992                 // whole words of PMM_INTR_PAGES_COUNT / 32
  const PMM_START: nat := 2048                 // PMM_START_ADDR / PAGE_SIZE
  const PMM_PAGES: nat := 1046496              // whole words of PAGES_COUNT / 32

  /** The fields of an entry that translation depends on, directory and table entries alike. */
  datatype Entry = Entry(present: bool, writable: bool, user: bool, frame: nat)

  const BLANK: Entry := Entry(false, false, false, 0)

  function BlankEntries(): (t: seq<Entry>)
    ensures |t| == 1024 && forall i :: 0 <= i < 1024 ==> t[i] == BLANK == Entry(false, false, false, 0)
  {
    seq(ENTRIES, i => BLANK)
  }

  type Table = t: seq<Entry> | |t| == ENTRIES witness BlankEntries()

  /**
   The two allocation bitmaps, the frames of low memory read as tables, and where the kernel's directory
   and its first two tables lie.
   */
  datatype Mem = Mem(intr: seq<bool>, pages: seq<bool>, tables: seq<Table>, kdir: nat, kt1: nat, kt2: nat)

  predicate Shaped(m: Mem) {
    && |m.intr| == INTR_PAGES && |m.pages| == PMM_PAGES && |m.tables| == LOW_FRAMES
    && m.kdir < INTR_START && m.kt1 < INTR_START && m.kt2 < INTR_START
    && m.kdir != m.kt1 && m.kdir != m.kt2 && m.kt1 != m.kt2
  }

  predicate IsIntrFrame(f: nat) {
    INTR_START <= f < INTR_START + INTR_PAGES
  }

  /** The directory index and the table index of a page number. */
  function Pdx(p: nat): nat { p / ENTRIES % ENTRIES }
  function Ptx(p: nat): nat { p % ENTRIES }

  function SetEntry(m: Mem, t: nat, i: nat, e: Entry): (m': Mem)
    requires Shaped(m) && t < LOW_FRAMES && i < ENTRIES
    ensures Shaped(m') && m'.intr == m.intr && m'.pages == m.pages
    ensures m'.kdir == m.kdir && m'.kt1 == m.kt1 && m'.kt2 == m.kt2
    ensures forall u, j :: 0 <= u < LOW_FRAMES && 0 <= j < ENTRIES ==>
              m'.tables[u][j] == if u == t && j == i then e else m.tables[u][j]
  {
    m.(tables := m.tables[t := m.tables[t][i := e]])
  }

  // ---------- allocation of internal frames ----------

  /** pmm_intr_alloc_page: the first free internal frame, zeroed. */
  function IntrAlloc(m: Mem): (r: (Mem, Option<nat>))
    requires Shaped(m)
    ensures Shaped(r.0) && r.0.pages == m.pages
    ensures r.0.kdir == m.kdir && r.0.kt1 == m.kt1 && r.0.kt2 == m.kt2
    ensures r.1 == None ==> r.0 == m && forall k :: 0 <= k < INTR_PAGES ==> m.intr[k]
    ensures r.1.Some? ==>
              var f := r.1.value;
              && IsIntrFrame(f) && !m.intr[f - INTR_START]
              && (forall k :: 0 <= k < f - INTR_START ==> m.intr[k])
              && r.0.intr == m.intr[f - INTR_START := true]
              && r.0.tables == m.tables[f := BlankEntries()]
  {
    var index := FirstClear(m.intr, 0);
    if index == -1 then (m, None)
    else (m.(intr := m.intr[index := true], tables := m.tables[INTR_START + index := BlankEntries()]), Some(INTR_START + index))
  }

  // ---------- translation ----------

  /** vmm_va2pa on page numbers: the frame that page p maps to under directory d. */
  function Translate(m: Mem, d: nat, p: nat): Option<nat>
    requires Shaped(m) && d < LOW_FRAMES
  {
    var e := m.tables[d][Pdx(p)];
    if !e.present || e.frame >= LOW_FRAMES then None
    else
      var t := m.tables[e.frame][Ptx(p)];
      if t.present then Some(t.frame) else None
  }

  // ---------- who owns which table ----------

  /** Directories lie in internal frames in use, except the kernel's own. */
  ghost predicate DirsPlaced(m: Mem, dirs: set<nat>)
    requires Shaped(m)
  {
    m.kdir in dirs
    && forall d :: d in dirs ==> d == m.kdir || (IsIntrFrame(d) && m.intr[d - INTR_START])
  }

  /** Entries 0 and 1 of every directory lead to the kernel's two tables. */
  ghost predicate KernelShared(m: Mem, dirs: set<nat>)
    requires Shaped(m)
  {
    forall d :: d in dirs && d < LOW_FRAMES ==>
      && m.tables[d][0].present && m.tables[d][0].frame == m.kt1
      && m.tables[d][1].present && m.tables[d][1].frame == m.kt2
  }

  /** Every further table lies in an internal frame in use that is no directory. */
  ghost predicate TablesPlaced(m: Mem, dirs: set<nat>)
    requires Shaped(m)
  {
    forall d, i :: d in dirs && d < LOW_FRAMES && 2 <= i < ENTRIES && m.tables[d][i].present ==>
      IsIntrFrame(m.tables[d][i].frame) && m.intr[m.tables[d][i].frame - INTR_START] && m.tables[d][i].frame !in dirs
  }

  /** And it belongs to one entry of one directory. */
  ghost predicate TablesApart(m: Mem, dirs: set<nat>)
    requires Shaped(m)
  {
    forall d, i, e, j ::
      d in dirs && d < LOW_FRAMES && e in dirs && e < LOW_FRAMES && 2 <= i < ENTRIES && 2 <= j < ENTRIES
      && m.tables[d][i].present && m.tables[e][j].present && m.tables[d][i].frame == m.tables[e][j].frame
      ==> d == e && i == j
  }

  ghost predicate Owned(m: Mem, dirs: set<nat>) {
    Shaped(m) && DirsPlaced(m, dirs) && KernelShared(m, dirs) && TablesPlaced(m, dirs) && TablesApart(m, dirs)
  }

  lemma DirIsLow(m: Mem, dirs: set<nat>, d: nat)
    requires Owned(m, dirs) && d in dirs
    ensures d < LOW_FRAMES && d != m.kt1 && d != m.kt2
  {
  }

  // ---------- walking ----------

  /** vmm_walk_pgdir: the table and index of page p's entry, with the table allocated if it is missing. */
  function Walk(m: Mem, d: nat, p: nat): (r: (Mem, Option<nat>))
    requires Shaped(m) && d < LOW_FRAMES
    ensures Shaped(r.0)
  {
    var e := m.tables[d][Pdx(p)];
    if e.present then (m, Some(e.frame))
    else
      match IntrAlloc(m)
      case (m1, None) => (m1, None)
      case (m1, Some(t)) =>
        (SetEntry(m1, d, Pdx(p), m1.tables[d][Pdx(p)].(present := true, frame := t)), Some(t))
  }

  predicate SameLayout(m: Mem, m': Mem) {
    m'.kdir == m.kdir && m'.kt1 == m.kt1 && m'.kt2 == m.kt2
  }

  /** The table that entry (d, i) leads to: never a directory, so walking elsewhere cannot change it. */
  lemma TableFrame(m: Mem, dirs: set<nat>, d: nat, i: nat)
    requires Owned(m, dirs) && d in dirs && d < LOW_FRAMES && i < ENTRIES && m.tables[d][i].present
    ensures var t := m.tables[d][i].frame;
            && t < LOW_FRAMES && t !in dirs
            && (i >= 2 ==> IsIntrFrame(t) && m.intr[t - INTR_START])
            && (i == 0 ==> t == m.kt1) && (i == 1 ==> t == m.kt2)
  {
  }

  /** The walk gives directory d a table of its own for that region. */
  lemma WalkKeepsOwned(m: Mem, dirs: set<nat>, d: nat, p: nat)
    requires Owned(m, dirs) && d in dirs && d < LOW_FRAMES && p < PAGES
    ensures var (m1, t) := Walk(m, d, p);
            && Owned(m1, dirs) && m1.pages == m.pages && SameLayout(m, m1)
            && (t == None ==> m1 == m)
            && (t.Some? ==> t.value < LOW_FRAMES && m1.tables[d][Pdx(p)].present && m1.tables[d][Pdx(p)].frame == t.value)
            && (forall k :: 0 <= k < INTR_PAGES && m.intr[k] ==> m1.intr[k])
  {
    var e := m.tables[d][Pdx(p)];
    if e.present {
      TableFrame(m, dirs, d, Pdx(p));
    } else {
      var (m1, t) := Walk(m, d, p);
      if t.Some? {
        WalkKeepsPlaced(m, dirs, d, p);
        WalkKeepsApart(m, dirs, d, p);
        hide TablesPlaced, TablesApart;
      }
    }
  }

  lemma WalkKeepsPlaced(m: Mem, dirs: set<nat>, d: nat, p: nat)
    requires Owned(m, dirs) && d in dirs && d < LOW_FRAMES && p < PAGES
    requires !m.tables[d][Pdx(p)].present && Walk(m, d, p).1.Some?
    ensures Shaped(Walk(m, d, p).0) && TablesPlaced(Walk(m, d, p).0, dirs)
  {
    hide TablesApart, KernelShared;
    var (m1, t) := Walk(m, d, p);
    assert t.value !in dirs;
  }

  lemma WalkKeepsApart(m: Mem, dirs: set<nat>, d: nat, p: nat)
    requires Owned(m, dirs) && d in dirs && d < LOW_FRAMES && p < PAGES
    requires !m.tables[d][Pdx(p)].present && Walk(m, d, p).1.Some?
    ensures Shaped(Walk(m, d, p).0) && TablesApart(Walk(m, d, p).0, dirs)
  {
    var (m1, t) := Walk(m, d, p);
    forall a, i | a in dirs && a < LOW_FRAMES && 2 <= i < ENTRIES && m1.tables[a][i].present && !(a == d && i == Pdx(p))
      ensures m1.tables[a][i] == m.tables[a][i] && m1.tables[a][i].frame != t.value
    {
    }
  }

  /** The walk changes no translation of any directory. */
  lemma WalkKeepsTranslation(m: Mem, dirs: set<nat>, d: nat, p: nat, e: nat, q: nat)
    requires Owned(m, dirs) && d in dirs && d < LOW_FRAMES && p < PAGES && e in dirs && e < LOW_FRAMES
    ensures Shaped(Walk(m, d, p).0) && Translate(Walk(m, d, p).0, e, q) == Translate(m, e, q)
  {
    var (m1, t) := Walk(m, d, p);
    if !m.tables[d][Pdx(p)].present && t.Some? {
      if m.tables[e][Pdx(q)].present {
        TableFrame(m, dirs, e, Pdx(q));
      }
    }
  }

  // ---------- mapping ----------

  /** Mapping page p under directory d concerns page q of directory e: the tables of the first 8 MiB are shared. */
  predicate Concerns(d: nat, p: nat, e: nat, q: nat) {
    q == p && (e == d || p < LOW_FRAMES)
  }

  /** Setting page p's entry under directory d changes the translation of that page only, below 8 MiB in every directory. */
  lemma SetEntryTranslates(m: Mem, dirs: set<nat>, d: nat, p: nat, ent: Entry, e: nat, q: nat)
    requires Owned(m, dirs) && d in dirs && d < LOW_FRAMES && e in dirs && e < LOW_FRAMES
    requires p < PAGES && q < PAGES && m.tables[d][Pdx(p)].present
    ensures m.tables[d][Pdx(p)].frame < LOW_FRAMES
    ensures Translate(SetEntry(m, m.tables[d][Pdx(p)].frame, Ptx(p), ent), e, q) ==
            if Concerns(d, p, e, q) then (if ent.present then Some(ent.frame) else None) else Translate(m, e, q)
  {
    hide DirsPlaced, TablesPlaced;
    DirIsLow(m, dirs, e);
    TableFrame(m, dirs, d, Pdx(p));
    if m.tables[e][Pdx(q)].present {
      TableFrame(m, dirs, e, Pdx(q));
    }
    assert p == Pdx(p) * ENTRIES + Ptx(p) && q == Pdx(q) * ENTRIES + Ptx(q);
  }

  lemma SetEntryKeepsOwned(m: Mem, dirs: set<nat>, d: nat, p: nat, ent: Entry)
    requires Owned(m, dirs) && d in dirs && d < LOW_FRAMES && p < PAGES && m.tables[d][Pdx(p)].present
    ensures m.tables[d][Pdx(p)].frame < LOW_FRAMES
    ensures Owned(SetEntry(m, m.tables[d][Pdx(p)].frame, Ptx(p), ent), dirs)
  {
    TableFrame(m, dirs, d, Pdx(p));
    var m' := SetEntry(m, m.tables[d][Pdx(p)].frame, Ptx(p), ent);
    assert forall a, i :: a in dirs && a < LOW_FRAMES && 0 <= i < ENTRIES ==> m'.tables[a][i] == m.tables[a][i];
  }

  /** The protection bits that vmm_mappage is called with. */
  datatype Flags = Flags(present: bool, writable: bool, user: bool)

  /** The frame that vmm_mappage gives page p when page vp goes to physical address pa; addresses wrap at 32 bits. */
  function FrameFor(pa: nat, vp: nat, p: nat): nat {
    (pa + (p - vp) * PAGE_SIZE) % ADDRESSES / PAGE_SIZE
  }

  /** One turn of vmm_mappage: walk to page p's entry and fill it. */
  function MapTurn(m: Mem, d: nat, vp: nat, p: nat, pa: nat, flags: Flags): (r: (Mem, bool))
    requires Shaped(m) && d < LOW_FRAMES
    ensures Shaped(r.0)
  {
    match Walk(m, d, p)
    case (m1, None) => (m1, false)
    case (m1, Some(t)) =>
      if t >= LOW_FRAMES then (m1, false)
      else (SetEntry(m1, t, Ptx(p), Entry(flags.present, flags.writable, flags.user, FrameFor(pa, vp, p))), true)
  }

  /** The loop of vmm_mappage from page p up to page last. */
  function MapRun(m: Mem, d: nat, vp: nat, p: nat, last: int, pa: nat, flags: Flags): (r: (Mem, bool))
    requires Shaped(m) && d < LOW_FRAMES
    ensures Shaped(r.0)
    decreases last + 1 - p
  {
    if p > last then (m, true)
    else
      var (m1, ok) := MapTurn(m, d, vp, p, pa, flags);
      if ok then MapRun(m1, d, vp, p + 1, last, pa, flags) else (m1, false)
  }

  lemma MapTurnKeepsOwned(m: Mem, dirs: set<nat>, d: nat, vp: nat, p: nat, pa: nat, flags: Flags)
    requires Owned(m, dirs) && d in dirs && d < LOW_FRAMES && p < PAGES
    ensures var (m', ok) := MapTurn(m, d, vp, p, pa, flags);
            && Owned(m', dirs) && m'.pages == m.pages && SameLayout(m, m')
            && (forall k :: 0 <= k < INTR_PAGES && m.intr[k] ==> m'.intr[k])
            && (ok <==> Walk(m, d, p).1.Some?)
  {
    hide Owned, FrameFor, Walk;
    ShapedOf(m, dirs);
    var (m1, t) := Walk(m, d, p);
    WalkKeepsOwned(m, dirs, d, p);
    if t.Some? {
      SetEntryKeepsOwned(m1, dirs, d, p, Entry(flags.present, flags.writable, flags.user, FrameFor(pa, vp, p)));
    }
  }

  lemma MapTurnTranslates(m: Mem, dirs: set<nat>, d: nat, vp: nat, p: nat, pa: nat, flags: Flags, e: nat, q: nat)
    requires Owned(m, dirs) && d in dirs && d < LOW_FRAMES && e in dirs && e < LOW_FRAMES
    requires p < PAGES && q < PAGES
    ensures var (m', ok) := MapTurn(m, d, vp, p, pa, flags);
            Translate(m', e, q) ==
            if ok && Concerns(d, p, e, q) then (if flags.present then Some(FrameFor(pa, vp, p)) else None)
            else Translate(m, e, q)
  {
    hide Owned, Translate, FrameFor, Walk, SetEntry;
    ShapedOf(m, dirs);
    var (m1, t) := Walk(m, d, p);
    WalkKeepsOwned(m, dirs, d, p);
    WalkKeepsTranslation(m, dirs, d, p, e, q);
    if t.Some? {
      SetEntryTranslates(m1, dirs, d, p, Entry(flags.present, flags.writable, flags.user, FrameFor(pa, vp, p)), e, q);
    }
  }

  /** Mapping keeps every table with its owner, the page bitmap as it was, and internal frames in use in use. */
  lemma {:induction false} MapKeepsOwned(m: Mem, dirs: set<nat>, d: nat, vp: nat, p: nat, last: int, pa: nat, flags: Flags)
    requires Owned(m, dirs) && d in dirs && d < LOW_FRAMES && last < PAGES
    ensures var m' := MapRun(m, d, vp, p, last, pa, flags).0;
            && Owned(m', dirs) && m'.pages == m.pages && SameLayout(m, m')
            && (forall k :: 0 <= k < INTR_PAGES && m.intr[k] ==> m'.intr[k])
    decreases last + 1 - p
  {
    hide Owned, MapTurn;
    ShapedOf(m, dirs);
    if p <= last {
      MapTurnKeepsOwned(m, dirs, d, vp, p, pa, flags);
      var (m1, ok) := MapTurn(m, d, vp, p, pa, flags);
      if ok {
        MapKeepsOwned(m1, dirs, d, vp, p + 1, last, pa, flags);
      }
    }
  }

  /**
   Outside the mapped range, and above 8 MiB in every other directory, no translation changes, whether mapping
   succeeds or not; when it succeeds every page of the range goes to its frame, below 8 MiB in every directory.
   */
  lemma {:induction false} MapTranslates(m: Mem, dirs: set<nat>, d: nat, vp: nat, p: nat, last: int, pa: nat, flags: Flags,
                                         e: nat, q: nat)
    requires Owned(m, dirs) && d in dirs && d < LOW_FRAMES && e in dirs && e < LOW_FRAMES
    requires last < PAGES && q < PAGES
    ensures Shaped(m)
    ensures var (m', ok) := MapRun(m, d, vp, p, last, pa, flags);
            && ((e != d && LOW_FRAMES <= q) || q < p || last < q ==> Translate(m', e, q) == Translate(m, e, q))
            && (ok && p <= q <= last && (e == d || q < LOW_FRAMES) ==>
                  Translate(m', e, q) == if flags.present then Some(FrameFor(pa, vp, q)) else None)
    decreases last + 1 - p
  {
    hide Owned, Translate, FrameFor, MapTurn;
    ShapedOf(m, dirs);
    if p <= last {
      MapTurnKeepsOwned(m, dirs, d, vp, p, pa, flags);
      MapTurnTranslates(m, dirs, d, vp, p, pa, flags, e, q);
      var (m1, ok) := MapTurn(m, d, vp, p, pa, flags);
      if ok {
        MapTranslates(m1, dirs, d, vp, p + 1, last, pa, flags, e, q);
      }
    }
  }

  /** So a mapping above 8 MiB leaves every other directory alone. */
  lemma MapIsolates(m: Mem, dirs: set<nat>, d: nat, vp: nat, p: nat, last: int, pa: nat, flags: Flags, e: nat, q: nat)
    requires Owned(m, dirs) && d in dirs && d < LOW_FRAMES && e in dirs && e < LOW_FRAMES
    requires LOW_FRAMES <= p && last < PAGES && q < PAGES && e != d
    ensures Shaped(m) && Translate(MapRun(m, d, vp, p, last, pa, flags).0, e, q) == Translate(m, e, q)
  {
    hide Owned, Translate, MapRun;
    MapTranslates(m, dirs, d, vp, p, last, pa, flags, e, q);
  }

  lemma ShapedOf(m: Mem, dirs: set<nat>)
    requires Owned(m, dirs)
    ensures Shaped(m)
  {
  }

  // ---------- protection ----------

  /** The table entry of page p under directory d, if it has a table. */
  function EntryOf(m: Mem, d: nat, p: nat): Option<Entry>
    requires Shaped(m) && d < LOW_FRAMES
  {
    var e := m.tables[d][Pdx(p)];
    if !e.present || e.frame >= LOW_FRAMES then None else Some(m.tables[e.frame][Ptx(p)])
  }

  lemma SetEntryEntry(m: Mem, dirs: set<nat>, d: nat, p: nat, ent: Entry, e: nat, q: nat)
    requires Owned(m, dirs) && d in dirs && d < LOW_FRAMES && e in dirs && e < LOW_FRAMES
    requires p < PAGES && q < PAGES && m.tables[d][Pdx(p)].present
    ensures m.tables[d][Pdx(p)].frame < LOW_FRAMES
    ensures EntryOf(SetEntry(m, m.tables[d][Pdx(p)].frame, Ptx(p), ent), e, q) ==
            if Concerns(d, p, e, q) then Some(ent) else EntryOf(m, e, q)
  {
    hide DirsPlaced, TablesPlaced;
    DirIsLow(m, dirs, e);
    TableFrame(m, dirs, d, Pdx(p));
    if m.tables[e][Pdx(q)].present {
      TableFrame(m, dirs, e, Pdx(q));
    }
    assert p == Pdx(p) * ENTRIES + Ptx(p) && q == Pdx(q) * ENTRIES + Ptx(q);
  }

  /** An entry that is as it was, or that lies in a table which is new and blank. */
  predicate KeptEntry(was: Option<Entry>, now: Option<Entry>) {
    now == was || (was == None && now == Some(BLANK))
  }

  lemma WalkKeepsEntry(m: Mem, dirs: set<nat>, d: nat, p: nat, e: nat, q: nat)
    requires Owned(m, dirs) && d in dirs && d < LOW_FRAMES && p < PAGES && e in dirs && e < LOW_FRAMES
    ensures Shaped(Walk(m, d, p).0) && KeptEntry(EntryOf(m, e, q), EntryOf(Walk(m, d, p).0, e, q))
  {
    if m.tables[e][Pdx(q)].present {
      TableFrame(m, dirs, e, Pdx(q));
    }
  }

  /** One turn fills its own entry with frame and protection bits, and no other entry of any directory changes. */
  lemma MapTurnEntry(m: Mem, dirs: set<nat>, d: nat, vp: nat, p: nat, pa: nat, flags: Flags, e: nat, q: nat)
    requires Owned(m, dirs) && d in dirs && d < LOW_FRAMES && e in dirs && e < LOW_FRAMES && p < PAGES && q < PAGES
    ensures var (m', ok) := MapTurn(m, d, vp, p, pa, flags);
            if ok && Concerns(d, p, e, q)
            then EntryOf(m', e, q) == Some(Entry(flags.present, flags.writable, flags.user, FrameFor(pa, vp, p)))
            else KeptEntry(EntryOf(m, e, q), EntryOf(m', e, q))
  {
    hide Owned, FrameFor, Walk, SetEntry, EntryOf;
    ShapedOf(m, dirs);
    var (m1, t) := Walk(m, d, p);
    WalkKeepsOwned(m, dirs, d, p);
    WalkKeepsEntry(m, dirs, d, p, e, q);
    if t.Some? {
      SetEntryEntry(m1, dirs, d, p, Entry(flags.present, flags.writable, flags.user, FrameFor(pa, vp, p)), e, q);
    }
  }

  /**
   On success every entry of the range holds its frame and exactly the protection bits that were asked for; other
   entries, and those of other directories above 8 MiB, stay.
   */
  lemma {:induction false} MapSetsEntries(m: Mem, dirs: set<nat>, d: nat, vp: nat, p: nat, last: int, pa: nat, flags: Flags,
                                          e: nat, q: nat)
    requires Owned(m, dirs) && d in dirs && d < LOW_FRAMES && e in dirs && e < LOW_FRAMES && last < PAGES && q < PAGES
    ensures Shaped(m)
    ensures var (m', ok) := MapRun(m, d, vp, p, last, pa, flags);
            && (ok && p <= q <= last && (e == d || q < LOW_FRAMES) ==>
                  EntryOf(m', e, q) == Some(Entry(flags.present, flags.writable, flags.user, FrameFor(pa, vp, q))))
            && ((e != d && LOW_FRAMES <= q) || q < p || last < q ==> KeptEntry(EntryOf(m, e, q), EntryOf(m', e, q)))
    decreases last + 1 - p
  {
    hide Owned, EntryOf, FrameFor, MapTurn;
    ShapedOf(m, dirs);
    if p <= last {
      MapTurnKeepsOwned(m, dirs, d, vp, p, pa, flags);
      MapTurnEntry(m, dirs, d, vp, p, pa, flags, e, q);
      var (m1, ok) := MapTurn(m, d, vp, p, pa, flags);
      if ok {
        MapSetsEntries(m1, dirs, d, vp, p + 1, last, pa, flags, e, q);
      }
    }
  }

  // ---------- addresses ----------

  /** vmm_va2pa. */
  function VaToPa(m: Mem, d: nat, va: nat): Option<nat>
    requires Shaped(m) && d < LOW_FRAMES
  {
    match Translate(m, d, va / PAGE_SIZE)
    case None => None
    case Some(frame) => Some(frame * PAGE_SIZE + va % PAGE_SIZE)
  }

  /** The page where vmm_mappage stops; the end of the range is computed on 32 bits. */
  function LastPage(va: nat, size: nat): (last: nat)
    ensures last < PAGES
  {
    (va + size - 1) % ADDRESSES / PAGE_SIZE
  }

  /** vmm_mappage, for the ranges on which its loop ends. */
  function MapPages(m: Mem, d: nat, va: nat, pa: nat, size: nat, flags: Flags): (r: (Mem, bool))
    requires Shaped(m) && d < LOW_FRAMES && va < ADDRESSES && LastPage(va, size) < PAGES - 1
    ensures Shaped(r.0)
  {
    MapRun(m, d, va / PAGE_SIZE, va / PAGE_SIZE, LastPage(va, size), pa, flags)
  }

  /** The last byte of a range of addresses, computed on 32 bits. */
  predicate EndsAt(va: nat, size: nat, b: nat) {
    && b < 0x1_0000_0000
    && (b + 1 == va + size || b + 1 + 0x1_0000_0000 == va + size || (b == 0xFFFF_FFFF && va == 0 && size == 0))
  }

  lemma LastPageIs(va: nat, size: nat, b: nat)
    requires EndsAt(va, size, b)
    ensures LastPage(va, size) == b / PAGE_SIZE
    ensures b < 0xFFFF_F000 <==> LastPage(va, size) < PAGES - 1
  {
    assert (va + size - 1) % ADDRESSES == b;
  }

  /**
   vmm_mappage on addresses, for a range whose last byte b lies before the last page: on success every address of it
   translates to its offset behind pa, below 8 MiB in every directory; every page without an address of the range, and
   every page above 8 MiB of another directory, translates as before, also when it fails half way.
   */
  lemma MapPagesTranslates(m: Mem, dirs: set<nat>, d: nat, va: nat, pa: nat, size: nat, b: nat, flags: Flags, e: nat, x: nat)
    requires Owned(m, dirs) && d in dirs && d < LOW_FRAMES && e in dirs && e < LOW_FRAMES
    requires va < 0x1_0000_0000 && EndsAt(va, size, b) && b < 0xFFFF_F000 && x < 0x1_0000_0000
    requires pa % 4096 == va % 4096 && pa + size <= 0x1_0000_0000 && flags.present
    ensures LastPage(va, size) < PAGES - 1
    ensures var (m', ok) := MapPages(m, d, va, pa, size, flags);
            && Owned(m', dirs) && m'.pages == m.pages && SameLayout(m, m')
            && (ok && va <= x <= b && (e == d || x < 0x80_0000) ==> VaToPa(m', e, x) == Some(pa + (x - va)))
            && ((e != d && 0x80_0000 <= x) || x / 4096 < va / 4096 || b / 4096 < x / 4096 ==>
                  VaToPa(m', e, x) == VaToPa(m, e, x))
            && (0 < size && va + size <= 0xFFFF_F000 && (forall y :: va <= y < va + size ==> y / 4096 != x / 4096) ==>
                  VaToPa(m', e, x) == VaToPa(m, e, x))
  {
    hide Owned, Translate, MapRun, LastPage;
    LastPageIs(va, size, b);
    var vp, last := va / PAGE_SIZE, LastPage(va, size);
    MapKeepsOwned(m, dirs, d, vp, vp, last, pa, flags);
    MapTranslates(m, dirs, d, vp, vp, last, pa, flags, e, x / PAGE_SIZE);
    if va <= x <= b {
      assert vp <= x / PAGE_SIZE <= last;
      FrameForAddress(va, pa, b + 1 - va, x);
    }
    if 0 < size && va + size <= 0xFFFF_F000 && vp <= x / PAGE_SIZE <= last {
      MeetsRange(va, b, x);
    }
  }

  /** A page from that of va to that of b holds an address from va to b. */
  lemma MeetsRange(va: nat, b: nat, x: nat)
    requires va <= b && va / PAGE_SIZE <= x / PAGE_SIZE <= b / PAGE_SIZE
    ensures exists y :: va <= y <= b && y / 4096 == x / 4096
  {
    var y := if x < va then va else if b < x then b else x;
    assert va <= y <= b && y / 4096 == x / 4096;
  }

  /** A range of no bytes, or one past the end of the address space, may map nothing and be reported as mapped. */
  lemma NothingMapped(m: Mem, d: nat, va: nat, pa: nat, size: nat, b: nat, flags: Flags)
    requires Shaped(m) && d < LOW_FRAMES && va < 0x1_0000_0000 && EndsAt(va, size, b) && b / 4096 < va / 4096
    ensures LastPage(va, size) < PAGES - 1
    ensures MapPages(m, d, va, pa, size, flags) == (m, true)
  {
    LastPageIs(va, size, b);
  }

  lemma FrameForAddress(va: nat, pa: nat, size: nat, x: nat)
    requires va <= x < va + size && pa % PAGE_SIZE == va % PAGE_SIZE && pa + size <= ADDRESSES
    ensures FrameFor(pa, va / PAGE_SIZE, x / PAGE_SIZE) * PAGE_SIZE + x % PAGE_SIZE == pa + (x - va)
  {
  }
}
