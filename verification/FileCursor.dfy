/** The cursor of an open file: fat32_read and fat32_seek over the chain of the file. */
module FileCursor {
  import opened Arith
  import opened Bytes
  import opened FatTable
  import opened FileSpec

  // ---------- reading ----------

  /** The handle after one chunk of k bytes that stays inside the file. */
  function Advance(v: Vol, h: Handle, k: nat): Handle
    requires VolOk(v) && InRange(v.fat, h.cur)
  {
    var h1 := h.(off := h.off + k, coff := h.coff + k);
    if h1.coff < v.csize then h1
    else
      var next := Next(v.fat, h.cur);
      if next == 0 then h1.(cur := 0) else h1.(cur := next, coff := 0)
  }

  /** How much one turn of the read loop takes: no more than asked, than the cluster holds, than the file has. */
  function ChunkSize(v: Vol, h: Handle, n: nat): (k: nat)
    requires VolOk(v) && h.off <= h.size
    ensures k <= n && h.off + k <= h.size && Rem(h.off, v.csize) + k <= v.csize
    ensures h.off < h.size && n > 0 ==> k > 0
  {
    Min(Min(n, v.csize - Rem(h.off, v.csize)), h.size - h.off)
  }

  /** The bytes that turn takes, out of the current cluster. */
  function ChunkAt(v: Vol, h: Handle, n: nat): seq<byte>
    requires VolOk(v) && InRange(v.fat, h.cur) && h.off <= h.size
  {
    v.data[h.cur][Rem(h.off, v.csize)..Rem(h.off, v.csize) + ChunkSize(v, h, n)]
  }

  /** The loop of fat32_read. */
  function ReadRun(v: Vol, h: Handle, n: nat): (Handle, seq<byte>)
    requires VolOk(v) && (h.off < h.size ==> InRange(v.fat, h.cur))
    decreases n
  {
    if n == 0 || h.off >= h.size then (h, [])
    else
      var h1 := Advance(v, h, ChunkSize(v, h, n));
      if h1.cur == 0 then (h1, ChunkAt(v, h, n))
      else
        var (h2, s) := ReadRun(v, h1, n - ChunkSize(v, h, n));
        (h2, ChunkAt(v, h, n) + s)
  }

  /** The cursor of h stands at byte h.off of the file whose chain is ch. */
  predicate CursorOk(v: Vol, h: Handle, ch: seq<nat>) {
    && VolOk(v)
    && Chained(v.fat, h.start, ch)
    && h.off <= h.size <= Times(|ch|, v.csize)
    && (h.off < Times(|ch|, v.csize) ==>
          Quot(h.off, v.csize) < |ch| && h.cur == ch[Quot(h.off, v.csize)])
    && (h.off < h.size ==> h.coff == Rem(h.off, v.csize))
  }

  /** One chunk of a read is the file's next bytes. */
  lemma ChunkIsContent(v: Vol, h: Handle, ch: seq<nat>, k: nat)
    requires CursorOk(v, h, ch) && h.off + k <= h.size
    requires h.off < h.size && Rem(h.off, v.csize) + k <= v.csize
    ensures v.data[h.cur][Rem(h.off, v.csize)..Rem(h.off, v.csize) + k] == Content(v, ch, h.size)[h.off..h.off + k]
  {
    var q, co := Quot(h.off, v.csize), Rem(h.off, v.csize);
    QuotRem(h.off, v.csize);
    ClusterIsBlock(v, ch, q);
    SliceSlice(ChainBytes(v, ch), Times(q, v.csize), v.csize, co, k);
    SliceSlice(ChainBytes(v, ch), 0, h.size, h.off, k);
  }

  lemma AdvanceKeepsCursor(v: Vol, h: Handle, ch: seq<nat>, k: nat)
    requires CursorOk(v, h, ch) && 0 < k && h.off + k <= h.size
    requires Rem(h.off, v.csize) + k <= v.csize && InRange(v.fat, h.cur)
    ensures CursorOk(v, Advance(v, h, k), ch)
    ensures Advance(v, h, k).off == Times(|ch|, v.csize) ==> Advance(v, h, k).cur == 0
    ensures Advance(v, h, k).cur == 0 ==> Advance(v, h, k).off == Times(|ch|, v.csize)
  {
    hide Quot, Rem;
    QuotRem(h.off, v.csize);
    var q := Quot(h.off, v.csize);
    TimesMono(q + 1, |ch|, v.csize);
    if h.coff + k < v.csize {
      QuotIs(h.off + k, q, v.csize);
    } else {
      QuotIs(h.off + k, q + 1, v.csize);
      if q + 1 < |ch| {
        TimesMono(q + 2, |ch|, v.csize);
        assert v.fat[ch[q]] == ch[q + 1] && InRange(v.fat, ch[q + 1]);
      }
    }
  }

  lemma ReadRunUnfolds(v: Vol, h: Handle, n: nat)
    requires VolOk(v) && (h.off < h.size ==> InRange(v.fat, h.cur))
    ensures if n == 0 || h.off >= h.size then ReadRun(v, h, n) == (h, [])
            else
              var h1 := Advance(v, h, ChunkSize(v, h, n));
              && ReadRun(v, h, n).0 == (if h1.cur == 0 then h1 else ReadRun(v, h1, n - ChunkSize(v, h, n)).0)
              && ReadRun(v, h, n).1 == ChunkAt(v, h, n)
                 + (if h1.cur == 0 then [] else ReadRun(v, h1, n - ChunkSize(v, h, n)).1)
  {
  }

  /** A read loop that started at h0 has m bytes to go at h and has collected got. */
  predicate Pending(v: Vol, h0: Handle, n: nat, h: Handle, m: nat, got: seq<byte>)
    requires VolOk(v) && (h0.off < h0.size ==> InRange(v.fat, h0.cur)) && (h.off < h.size ==> InRange(v.fat, h.cur))
  {
    ReadRun(v, h0, n) == (ReadRun(v, h, m).0, got + ReadRun(v, h, m).1)
  }

  lemma PendingStart(v: Vol, h: Handle, n: nat)
    requires VolOk(v) && (h.off < h.size ==> InRange(v.fat, h.cur))
    ensures Pending(v, h, n, h, n, [])
  {
    assert [] + ReadRun(v, h, n).1 == ReadRun(v, h, n).1;
  }

  lemma PendingStep(v: Vol, h0: Handle, n: nat, h: Handle, m: nat, got: seq<byte>)
    requires VolOk(v) && (h0.off < h0.size ==> InRange(v.fat, h0.cur))
    requires h.off < h.size && InRange(v.fat, h.cur) && m > 0 && Pending(v, h0, n, h, m, got)
    ensures |ChunkAt(v, h, m)| == ChunkSize(v, h, m)
    ensures var h1 := Advance(v, h, ChunkSize(v, h, m));
            var s := got + ChunkAt(v, h, m);
            if h1.cur == 0 then ReadRun(v, h0, n) == (h1, s)
            else InRange(v.fat, h1.cur) && Pending(v, h0, n, h1, m - ChunkSize(v, h, m), s)
  {
    hide ReadRun;
    ReadRunUnfolds(v, h, m);
    var h1 := Advance(v, h, ChunkSize(v, h, m));
    var tail := if h1.cur == 0 then [] else ReadRun(v, h1, m - ChunkSize(v, h, m)).1;
    assert ReadRun(v, h, m).1 == ChunkAt(v, h, m) + tail;
    assert ChunkAt(v, h, m) + [] == ChunkAt(v, h, m);
    assert got + (ChunkAt(v, h, m) + tail) == (got + ChunkAt(v, h, m)) + tail;
  }

  lemma PendingDone(v: Vol, h0: Handle, n: nat, h: Handle, m: nat, got: seq<byte>)
    requires VolOk(v) && (h0.off < h0.size ==> InRange(v.fat, h0.cur)) && (h.off < h.size ==> InRange(v.fat, h.cur))
    requires (m == 0 || h.off >= h.size) && Pending(v, h0, n, h, m, got)
    ensures ReadRun(v, h0, n) == (h, got)
  {
    assert got + [] == got;
  }

  /** A read moves the cursor as far as there is file to read, and to 0 at the exact end of the chain. */
  lemma {:induction false} ReadMovesCursor(v: Vol, h: Handle, ch: seq<nat>, n: nat)
    requires CursorOk(v, h, ch)
    ensures var (h', s) := ReadRun(v, h, n);
            && |s| == Min(n, h.size - h.off)
            && h' == h.(off := h.off + |s|, cur := h'.cur, coff := h'.coff)
            && CursorOk(v, h', ch)
            && (s != [] && h'.off == Times(|ch|, v.csize) ==> h'.cur == 0)
    decreases n
  {
    hide ReadRun, Quot, Rem;
    ReadRunUnfolds(v, h, n);
    if n > 0 && h.off < h.size {
      var k := ChunkSize(v, h, n);
      AdvanceKeepsCursor(v, h, ch, k);
      var h1 := Advance(v, h, k);
      if h1.cur != 0 {
        ReadMovesCursor(v, h1, ch, n - k);
      }
    }
  }

  /** fat32_read returns the next bytes of the file, over any number of clusters. */
  lemma {:induction false} ReadReturnsContent(v: Vol, h: Handle, ch: seq<nat>, n: nat)
    requires CursorOk(v, h, ch)
    ensures ReadRun(v, h, n).1 == Content(v, ch, h.size)[h.off..Min(h.off + n, h.size)]
    decreases n
  {
    hide ReadRun, Content, Quot, Rem, Times, FatOk;
    ReadRunUnfolds(v, h, n);
    if n > 0 && h.off < h.size {
      var k := ChunkSize(v, h, n);
      ChunkIsContent(v, h, ch, k);
      AdvanceKeepsCursor(v, h, ch, k);
      var h1 := Advance(v, h, k);
      if h1.cur != 0 {
        ReadReturnsContent(v, h1, ch, n - k);
        SliceJoin(Content(v, ch, h.size), h.off, h1.off, Min(h.off + n, h.size));
      }
    }
  }

  // ---------- seeking ----------

  const UINT32: nat := 0x1_0000_0000

  /** Where the walk ends: at a cluster, at the chain's end, or on a chain on which its 32-bit position starts again. */
  datatype SeekResult = Stuck | Arrived(cluster: nat, pos: nat) | Wrapped

  /**
   The cluster walk of fat32_seek; it is stuck where the chain ends before the target. When the next position
   does not fit 32 bits, the walk goes on wherever the target is.
   */
  function SeekWalk(v: Vol, c: nat, pos: nat, offset: nat): (r: SeekResult)
    requires VolOk(v) && (c == 0 || InRange(v.fat, c)) && pos <= offset
    requires c == 0 ==> offset < pos + v.csize < UINT32
    ensures r.Arrived? ==> r.pos <= offset
    decreases offset - pos
  {
    if pos + v.csize >= UINT32 then (if Next(v.fat, c) == 0 then Stuck else Wrapped)
    else if pos + v.csize <= offset then
      var next := Next(v.fat, c);
      if next == 0 then Stuck else SeekWalk(v, next, pos + v.csize, offset)
    else Arrived(c, pos)
  }

  /** One step of the walk. */
  lemma SeekWalkUnfolds(v: Vol, c: nat, pos: nat, offset: nat)
    requires VolOk(v) && (c == 0 || InRange(v.fat, c)) && pos <= offset < UINT32 && v.csize < UINT32
    requires c == 0 ==> offset < pos + v.csize < UINT32
    ensures (pos + v.csize) % UINT32 > offset ==> SeekWalk(v, c, pos, offset) == Arrived(c, pos)
    ensures (pos + v.csize) % UINT32 <= offset ==>
              c != 0 && SeekWalk(v, c, pos, offset) ==
                        if Next(v.fat, c) == 0 then Stuck
                        else if pos + v.csize >= UINT32 then Wrapped else SeekWalk(v, Next(v.fat, c), pos + v.csize, offset)
    ensures (pos + v.csize) % UINT32 <= offset ==> Next(v.fat, c) == 0 || InRange(v.fat, Next(v.fat, c))
  {
  }

  /** fat32_seek on chains on which the walk does not wrap. */
  function SeekRun(v: Vol, h: Handle, offset: nat): (bool, Handle)
    requires VolOk(v) && (h.start == 0 || InRange(v.fat, h.start))
    requires h.start == 0 ==> h.size < v.csize < UINT32
  {
    if offset > h.size then (false, h)
    else
      match SeekWalk(v, h.start, 0, offset)
      case Arrived(c, pos) => (true, h.(off := offset, cur := c, coff := offset - pos))
      case _ => (false, h.(off := offset))
  }

  /** The end of the cluster that holds the offset is below 4 GiB, so the walk can compute it. */
  predicate Reachable(v: Vol, offset: nat)
    requires VolOk(v)
  {
    Times(Quot(offset, v.csize) + 1, v.csize) < 0x1_0000_0000
  }

  /** The chain's last cluster starts below 4 GiB, as it does for every file whose size fits 32 bits. */
  predicate Below4G(v: Vol, ch: seq<nat>) {
    ch != [] ==> Times(|ch| - 1, v.csize) < 0x1_0000_0000
  }

  lemma {:induction false} SeekWalkFollowsChain(v: Vol, ch: seq<nat>, k: nat, offset: nat)
    requires VolOk(v) && IsChain(v.fat, ch) && (Below4G(v, ch) || Reachable(v, offset))
    requires k < |ch| && Times(k, v.csize) <= offset
    ensures SeekWalk(v, ch[k], Times(k, v.csize), offset) ==
            if Quot(offset, v.csize) < |ch| && Reachable(v, offset)
            then Arrived(ch[Quot(offset, v.csize)], offset - Rem(offset, v.csize)) else Stuck
    decreases |ch| - k
  {
    QuotRem(offset, v.csize);
    LastNext(v.fat, ch);
    if Times(k, v.csize) + v.csize >= UINT32 {
      if k + 1 < |ch| {
        TimesMono(k + 1, |ch| - 1, v.csize);
      }
      if Quot(offset, v.csize) >= k {
        TimesMono(k + 1, Quot(offset, v.csize) + 1, v.csize);
      } else {
        TimesMono(Quot(offset, v.csize) + 1, k, v.csize);
      }
    } else if Times(k, v.csize) + v.csize <= offset {
      if Quot(offset, v.csize) <= k {
        TimesMono(Quot(offset, v.csize), k, v.csize);
      }
      if k + 1 < |ch| {
        assert v.fat[ch[k]] == ch[k + 1] && InRange(v.fat, ch[k + 1]);
        SeekWalkFollowsChain(v, ch, k + 1, offset);
      }
    } else {
      QuotIs(offset, k, v.csize);
    }
  }

  lemma LastNext(fat: Fat, ch: seq<nat>)
    requires IsChain(fat, ch)
    ensures Next(fat, ch[|ch| - 1]) == 0
  {
  }

  /**
   fat32_seek succeeds exactly on the offsets that the chain reaches in a cluster that ends below 4 GiB. On
   success the cursor stands there. On an offset past the size nothing changes; on a size that fills the chain
   exactly, and in a cluster that ends at 4 GiB, it fails after file_offset has moved.
   */
  lemma SeekMovesCursor(v: Vol, h: Handle, ch: seq<nat>, offset: nat)
    requires VolOk(v) && Chained(v.fat, h.start, ch) && h.size <= Times(|ch|, v.csize)
    requires v.csize < UINT32 && (Below4G(v, ch) || Reachable(v, offset))
    ensures offset <= h.size ==> SeekWalk(v, h.start, 0, offset) != Wrapped
    ensures var (ok, h') := SeekRun(v, h, offset);
            && (ok <==> offset <= h.size && (offset < v.csize || Quot(offset, v.csize) < |ch|) && Reachable(v, offset))
            && (ok ==> CursorOk(v, h', ch) && h'.off == offset && h'.size == h.size)
            && (!ok && offset <= h.size ==>
                  h' == h.(off := offset) && (offset == h.size == Times(|ch|, v.csize) || !Reachable(v, offset)))
            && (offset > h.size ==> h' == h)
  {
    QuotRem(offset, v.csize);
    if ch != [] && offset <= h.size {
      SeekWalkFollowsChain(v, ch, 0, offset);
      if offset < Times(|ch|, v.csize) {
        QuotLess(offset, |ch|, v.csize);
      } else {
        QuotIs(offset, |ch|, v.csize);
      }
    }
  }

  lemma NearIsReachable(v: Vol, offset: nat)
    requires VolOk(v) && offset + v.csize < UINT32
    ensures Reachable(v, offset)
  {
    QuotRem(offset, v.csize);
  }
}
