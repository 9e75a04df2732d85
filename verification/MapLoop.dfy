/**
 The loop of vmm_mappage turn by turn. The address that it counts up wraps at 32 bits, so a range that ends
 with the last page of the address space is left only when a walk finds no frame for a table.
 */
module MapLoop {
  import opened Arith
  import opened Options
  import opened Paging

  /** The page that the loop has reached after n turns. */
  function Counted(vp: nat, n: nat): (p: nat)
    ensures p < PAGES
  {
    (vp + n) % PAGES
  }

  /** Memory after n turns from page vp on, and whether every walk so far gave a table. */
  function Turns(m: Mem, d: nat, vp: nat, n: nat, pa: nat, flags: Flags): (r: (Mem, bool))
    requires Shaped(m) && d < LOW_FRAMES
    ensures Shaped(r.0)
    decreases n
  {
    if n == 0 then (m, true)
    else
      var (m1, ok) := Turns(m, d, vp, n - 1, pa, flags);
      if ok then MapTurn(m1, d, vp, Counted(vp, n - 1), pa, flags) else (m1, false)
  }

  /** The loop leaves after n turns: with 0 when the address has passed the last page, with -1 when a walk has failed. */
  ghost predicate Leaves(m: Mem, d: nat, va: nat, pa: nat, size: nat, flags: Flags, n: nat, m': Mem, ok: bool)
    requires Shaped(m) && d < LOW_FRAMES
  {
    var (vp, last) := (va / PAGE_SIZE, LastPage(va, size));
    && (forall k :: 0 <= k < n ==> Counted(vp, k) <= last && Turns(m, d, vp, k, pa, flags).1)
    && (m', ok) == Turns(m, d, vp, n, pa, flags)
    && (if ok then Counted(vp, n) > last else n > 0)
  }

  lemma NoTurns(m: Mem, d: nat, vp: nat, pa: nat, flags: Flags)
    requires Shaped(m) && d < LOW_FRAMES
    ensures Turns(m, d, vp, 0, pa, flags) == (m, true) && (vp < PAGES ==> Counted(vp, 0) == vp)
  {
  }

  lemma NextTurn(m: Mem, d: nat, vp: nat, n: nat, pa: nat, flags: Flags)
    requires Shaped(m) && d < LOW_FRAMES && Turns(m, d, vp, n, pa, flags).1
    ensures Turns(m, d, vp, n + 1, pa, flags) == MapTurn(Turns(m, d, vp, n, pa, flags).0, d, vp, Counted(vp, n), pa, flags)
  {
    hide MapTurn, Counted;
  }

  /** Adding 4096 to a 32-bit address counts the pages, round the end. */
  lemma CountedNext(vp: nat, n: nat)
    ensures Counted(vp, n + 1) * PAGE_SIZE == (Counted(vp, n) * PAGE_SIZE + PAGE_SIZE) % ADDRESSES
  {
    var p := Counted(vp, n);
    assert Counted(vp, n + 1) == if p + 1 == PAGES then 0 else p + 1;
  }

  // ---------- ranges that end before the last page ----------

  lemma {:induction false} NoWrap(vp: nat, last: nat, n: nat)
    requires vp < PAGES && last < PAGES - 1 && forall k :: 0 <= k < n ==> Counted(vp, k) <= last
    ensures n > 0 ==> vp + n - 1 <= last
  {
    if n > 0 {
      NoWrap(vp, last, n - 1);
      assert Counted(vp, n - 1) <= last;
    }
  }

  /** As long as no page has wrapped, the turns done and the run still to do are the whole run. */
  lemma {:induction false} TurnsThenRun(m: Mem, d: nat, vp: nat, n: nat, last: nat, pa: nat, flags: Flags)
    requires Shaped(m) && d < LOW_FRAMES && last < PAGES && (n > 0 ==> vp + n - 1 <= last) && vp < PAGES
    requires forall k :: 0 <= k < n ==> Turns(m, d, vp, k, pa, flags).1
    ensures var (m1, ok) := Turns(m, d, vp, n, pa, flags);
            MapRun(m, d, vp, vp, last, pa, flags) == if ok then MapRun(m1, d, vp, vp + n, last, pa, flags) else (m1, false)
    decreases n
  {
    hide MapTurn;
    if n > 0 {
      TurnsThenRun(m, d, vp, n - 1, last, pa, flags);
      assert Counted(vp, n - 1) == vp + n - 1;
    }
  }

  // ---------- going round ----------

  lemma {:induction false} TurnsKeepOwned(m: Mem, dirs: set<nat>, d: nat, vp: nat, n: nat, pa: nat, flags: Flags)
    requires Owned(m, dirs) && d in dirs && d < LOW_FRAMES
    ensures Shaped(m)
    ensures var (m', ok) := Turns(m, d, vp, n, pa, flags);
            && Owned(m', dirs) && m'.pages == m.pages && SameLayout(m, m')
            && (ok ==> forall k :: 0 <= k < n ==> m'.tables[d][Pdx(Counted(vp, k))].present)
    decreases n
  {
    hide Owned, MapTurn;
    ShapedOf(m, dirs);
    if n > 0 {
      TurnsKeepOwned(m, dirs, d, vp, n - 1, pa, flags);
      var (m1, ok) := Turns(m, d, vp, n - 1, pa, flags);
      MapTurnKeepsOwned(m1, dirs, d, vp, Counted(vp, n - 1), pa, flags);
      MapTurnPresents(m1, dirs, d, vp, Counted(vp, n - 1), pa, flags);
    }
  }

  /** A turn gives the page's region a table and takes none away. */
  lemma MapTurnPresents(m: Mem, dirs: set<nat>, d: nat, vp: nat, p: nat, pa: nat, flags: Flags)
    requires Owned(m, dirs) && d in dirs && d < LOW_FRAMES && p < PAGES
    ensures Shaped(m)
    ensures var (m', ok) := MapTurn(m, d, vp, p, pa, flags);
            && (ok ==> m'.tables[d][Pdx(p)].present)
            && (forall i :: 0 <= i < ENTRIES && m.tables[d][i].present ==> m'.tables[d][i].present)
  {
    hide FrameFor, TablesApart;
    var (m1, t) := Walk(m, d, p);
    WalkKeepsOwned(m, dirs, d, p);
    if t.Some? {
      TableFrame(m1, dirs, d, Pdx(p));
    }
  }

  /** The frames of the tables that entries 2 to below k of a directory lead to. */
  function TableFrames(m: Mem, d: nat, k: nat): set<nat>
    requires Shaped(m) && d < LOW_FRAMES && 2 <= k <= ENTRIES
    decreases k
  {
    if k == 2 then {} else TableFrames(m, d, k - 1) + {m.tables[d][k - 1].frame}
  }

  lemma {:induction false} TableFramesCount(m: Mem, dirs: set<nat>, d: nat, k: nat)
    requires Owned(m, dirs) && d in dirs && d < LOW_FRAMES && 2 <= k <= ENTRIES
    requires forall i :: 2 <= i < k ==> m.tables[d][i].present
    ensures Shaped(m) && |TableFrames(m, d, k)| == k - 2
    ensures forall f :: f in TableFrames(m, d, k) ==>
              INTR_START <= f < INTR_START + INTR_PAGES && exists i :: 2 <= i < k && m.tables[d][i].frame == f
    decreases k
  {
    hide DirsPlaced, KernelShared;
    if k > 2 {
      TableFramesCount(m, dirs, d, k - 1);
    }
  }

  /** There are fewer internal frames than tables that a directory would need for its whole address space. */
  lemma SomeRegionHasNoTable(m: Mem, dirs: set<nat>, d: nat)
    requires Owned(m, dirs) && d in dirs && d < LOW_FRAMES
    ensures exists i :: 2 <= i < ENTRIES && !m.tables[d][i].present
  {
    if forall i :: 2 <= i < ENTRIES ==> m.tables[d][i].present {
      TableFramesCount(m, dirs, d, ENTRIES);
      var frames, all := TableFrames(m, d, ENTRIES), Interval(INTR_START, INTR_START + INTR_PAGES);
      SubsetSize(frames, all);
      assert false;
    }
  }

  lemma {:induction false} SubsetSize(a: set<nat>, b: set<nat>)
    requires a <= b
    ensures |a| <= |b|
    decreases |a|
  {
    if x :| x in a {
      SubsetSize(a - {x}, b - {x});
    }
  }

  /** So the loop never goes all the way round. */
  lemma NeverRound(m: Mem, dirs: set<nat>, d: nat, vp: nat, pa: nat, flags: Flags)
    requires Owned(m, dirs) && d in dirs && d < LOW_FRAMES && vp < PAGES
    ensures Shaped(m) && !Turns(m, d, vp, PAGES, pa, flags).1
  {
    hide Owned, Turns;
    ShapedOf(m, dirs);
    TurnsKeepOwned(m, dirs, d, vp, PAGES, pa, flags);
    var (m', ok) := Turns(m, d, vp, PAGES, pa, flags);
    SomeRegionHasNoTable(m', dirs, d);
    var i :| 2 <= i < ENTRIES && !m'.tables[d][i].present;
    var k := (i * ENTRIES - vp) % PAGES;
    assert Counted(vp, k) == i * ENTRIES && Pdx(i * ENTRIES) == i;
  }

  // ---------- how the loop ends ----------

  /** It ends, for every range. */
  lemma {:induction false} LoopLeaves(m: Mem, dirs: set<nat>, d: nat, va: nat, pa: nat, size: nat, flags: Flags, n: nat)
    requires Owned(m, dirs) && d in dirs && d < LOW_FRAMES && va < ADDRESSES && n <= PAGES
    requires Shaped(m) && Turns(m, d, va / PAGE_SIZE, n, pa, flags).1
    requires forall k :: 0 <= k < n ==>
               Counted(va / PAGE_SIZE, k) <= LastPage(va, size) && Turns(m, d, va / PAGE_SIZE, k, pa, flags).1
    ensures exists n', m', ok :: Leaves(m, d, va, pa, size, flags, n', m', ok)
    decreases PAGES - n
  {
    hide Owned, Turns, MapTurn, LastPage, Counted;
    var vp := va / PAGE_SIZE;
    NeverRound(m, dirs, d, vp, pa, flags);
    var (m1, ok) := Turns(m, d, vp, n, pa, flags);
    if Counted(vp, n) > LastPage(va, size) {
      assert Leaves(m, d, va, pa, size, flags, n, m1, true);
    } else {
      var (m2, ok2) := Turns(m, d, vp, n + 1, pa, flags);
      if ok2 {
        LoopLeaves(m, dirs, d, va, pa, size, flags, n + 1);
      } else {
        assert Leaves(m, d, va, pa, size, flags, n + 1, m2, false);
      }
    }
  }

  /**
   What vmm_mappage returns: for a range that ends before the last page of the address space, what MapPages
   says; for one that ends with it, never 0, and -1 when a walk has found no frame.
   */
  lemma LoopReturns(m: Mem, dirs: set<nat>, d: nat, va: nat, pa: nat, size: nat, flags: Flags, n: nat, m': Mem, ok: bool)
    requires Owned(m, dirs) && d in dirs && d < LOW_FRAMES && va < ADDRESSES
    requires Shaped(m) && Leaves(m, d, va, pa, size, flags, n, m', ok)
    ensures LastPage(va, size) < PAGES - 1 ==> (m', ok) == MapPages(m, d, va, pa, size, flags)
    ensures LastPage(va, size) == PAGES - 1 ==> !ok
    ensures 0 < size && va + size <= 0xFFFF_F000 ==>
              LastPage(va, size) < PAGES - 1 && (m', ok) == MapPages(m, d, va, pa, size, flags)
    ensures 0 < size && 0xFFFF_F000 < va + size <= 0x1_0000_0000 ==> !ok
    ensures forall b :: EndsAt(va, size, b) ==>
              if b < 0xFFFF_F000 then LastPage(va, size) < PAGES - 1 && (m', ok) == MapPages(m, d, va, pa, size, flags)
              else !ok
    ensures !ok ==> n > 0 && Shaped(Turns(m, d, va / PAGE_SIZE, n - 1, pa, flags).0)
                    && Walk(Turns(m, d, va / PAGE_SIZE, n - 1, pa, flags).0, d, Counted(va / PAGE_SIZE, n - 1)).1 == None
  {
    hide Owned, MapTurn, MapRun, Walk;
    var vp, last := va / PAGE_SIZE, LastPage(va, size);
    if 0 < size && va + size <= 0x1_0000_0000 {
      LastPageIs(va, size, va + size - 1);
    }
    forall b | EndsAt(va, size, b) ensures b < 0xFFFF_F000 <==> last < PAGES - 1 {
      LastPageIs(va, size, b);
    }
    if last < PAGES - 1 {
      NoWrap(vp, last, n);
      TurnsThenRun(m, d, vp, n, last, pa, flags);
      if ok {
        RunEnds(m', d, vp, n, last, pa, flags);
      }
    }
    if !ok {
      TurnsKeepOwned(m, dirs, d, vp, n - 1, pa, flags);
      MapTurnKeepsOwned(Turns(m, d, vp, n - 1, pa, flags).0, dirs, d, vp, Counted(vp, n - 1), pa, flags);
    }
  }

  lemma RunEnds(m: Mem, d: nat, vp: nat, n: nat, last: nat, pa: nat, flags: Flags)
    requires Shaped(m) && d < LOW_FRAMES && vp < PAGES && last < PAGES - 1
    requires Counted(vp, n) > last && (n > 0 ==> vp + n - 1 <= last)
    ensures MapRun(m, d, vp, vp + n, last, pa, flags) == (m, true)
  {
  }

  /** On its way a loop that wraps rewrites the shared tables: behind the last page comes the kernel's page 0. */
  lemma WrapOverwritesKernel(m: Mem, dirs: set<nat>, d: nat, vp: nat, pa: nat, flags: Flags, e: nat)
    requires Owned(m, dirs) && d in dirs && d < LOW_FRAMES && e in dirs && e < LOW_FRAMES && 0 < vp < PAGES && flags.present
    requires Shaped(m) && Turns(m, d, vp, PAGES - vp + 1, pa, flags).1
    ensures Translate(Turns(m, d, vp, PAGES - vp + 1, pa, flags).0, e, 0) == Some(FrameFor(pa, vp, 0))
  {
    hide FrameFor, Owned, Translate, MapTurn;
    var n := PAGES - vp;
    TurnsKeepOwned(m, dirs, d, vp, n, pa, flags);
    var m1 := Turns(m, d, vp, n, pa, flags).0;
    assert Counted(vp, n) == 0;
    MapTurnTranslates(m1, dirs, d, vp, 0, pa, flags, e, 0);
  }
}
