/** What pmm_init and vmm_init leave behind: empty bitmaps and the identity map of low memory. */
module Boot {
  import opened Options
  import opened Paging
  import opened Frames

  /** The kernel's directory after vmm_init: its first two tables and nothing else. */
  function KernelDirectory(kt1: nat, kt2: nat): (t: Table) {
    seq(ENTRIES, i => if i == 0 then Entry(true, true, true, kt1)
                      else if i == 1 then Entry(true, true, true, kt2)
                      else Entry(false, true, true, 0))
  }

  /** A table that maps 1024 pages from `first` on to themselves. */
  function IdentityTable(first: nat): (t: Table) {
    seq(ENTRIES, i requires 0 <= i < ENTRIES => Entry(true, true, true, first + i))
  }

  function NoneInUse(n: nat): (bits: seq<bool>)
    ensures |bits| == n && forall i :: 0 <= i < n ==> !bits[i]
  {
    seq(n, i => false)
  }

  /** pmm_init. */
  function PmmInit(m: Mem): (m': Mem)
    requires Shaped(m)
    ensures Shaped(m')
  {
    m.(intr := NoneInUse(INTR_PAGES), pages := NoneInUse(PMM_PAGES))
  }

  /** vmm_init. */
  function VmmInit(m: Mem): (m': Mem)
    requires Shaped(m)
    ensures Shaped(m')
  {
    m.(tables := m.tables[m.kdir := KernelDirectory(m.kt1, m.kt2)][m.kt1 := IdentityTable(0)][m.kt2 := IdentityTable(ENTRIES)])
  }

  /** After initialisation, whatever memory held before, only low memory is mapped, to itself, and no page is in use. */
  lemma BootKernelMap(m: Mem)
    requires Shaped(m)
    ensures KernelMap(VmmInit(PmmInit(m)), {m.kdir}, 0)
  {
    var b := VmmInit(PmmInit(m));
    assert b.tables[m.kdir] == KernelDirectory(m.kt1, m.kt2);
    forall q | 0 <= q < LOW_FRAMES ensures LowFrame(b, q) == Some(q) {
      assert Pdx(q) == q / ENTRIES && q == ENTRIES * Pdx(q) + Ptx(q);
      if Pdx(q) == 0 {
        assert b.tables[m.kt1][Ptx(q)].frame == q;
      } else {
        assert Pdx(q) == 1 && b.tables[m.kt2][Ptx(q)].frame == q;
      }
    }
    forall i | 0 <= i < KERNEL_PAGES ensures KernelFrame(b, i) == None {
      PageOfIndex(i);
    }
  }
}
