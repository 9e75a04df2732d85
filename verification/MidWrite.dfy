/**
 When a write is right, wherever the cursor stands. fat32_write never advances along an existing chain: behind the
 first cluster it writes that cluster again, and when it comes to the file's end it links a new cluster behind it,
 cutting off the rest of the chain.
 */
module MidWrite {
  import opened Arith
  import opened Bytes
  import opened FatTable
  import opened FileCursor
  import opened FileSpec
  import opened FileWrite

  /** A turn keeps the start cluster once there is a current one, and no used entry but the current one changes. */
  lemma TurnKeepsUsed(v: Vol, h: Handle, buf: seq<byte>, c: nat)
    requires Writable(v, h) && !Stopped(v, h, buf) && InRange(v.fat, c) && v.fat[c] != 0 && c != h.cur
    ensures var (w, h1) := Turn(v, h, buf);
            && InRange(w.fat, c) && w.fat[c] == v.fat[c] && w.data[c] == v.data[c] && c != h1.cur && h1.cur != 0
            && h1.start == if h.cur != 0 then h.start else FirstFree(v.fat)
  {
  }

  lemma {:induction false} WriteKeepsUsed(v: Vol, h: Handle, buf: seq<byte>, c: nat)
    requires Writable(v, h) && InRange(v.fat, c) && v.fat[c] != 0 && c != h.cur && h.cur != 0
    ensures var r := WriteRun(v, h, buf);
            && |r.vol.fat| == |v.fat| == |r.vol.data| && r.vol.csize == v.csize
            && r.vol.fat[c] == v.fat[c] && r.vol.data[c] == v.data[c] && r.handle.start == h.start
    decreases |buf|
  {
    hide Turn, TurnSize, Stopped;
    if !Stopped(v, h, buf) {
      TurnShrinks(v, h, buf);
      TurnKeepsUsed(v, h, buf, c);
      var (w, h1) := Turn(v, h, buf);
      WriteKeepsUsed(w, h1, buf[TurnSize(v, h, buf)..], c);
    }
  }

  lemma TurnShrinks(v: Vol, h: Handle, buf: seq<byte>)
    requires Writable(v, h) && !Stopped(v, h, buf)
    ensures 0 < TurnSize(v, h, buf) <= |buf|
    ensures |Turn(v, h, buf).0.fat| == |v.fat| && Turn(v, h, buf).0.csize == v.csize
  {
  }

  // ---------- what is right ----------

  /** The write is reported complete, and a chain from the start cluster holds the old bytes with buf over them. */
  ghost predicate WriteRight(v: Vol, h: Handle, ch: seq<nat>, buf: seq<byte>)
    requires CursorOk(v, h, ch) && Writable(v, h)
  {
    var r := WriteRun(v, h, buf);
    && r.count == |buf|
    && exists ch' :: HoldsOver(v, h, ch, buf, r, ch')
  }

  predicate HoldsOver(v: Vol, h: Handle, ch: seq<nat>, buf: seq<byte>, r: Written, ch': seq<nat>)
    requires CursorOk(v, h, ch)
  {
    && VolOk(r.vol) && Chained(r.vol.fat, r.handle.start, ch') && r.handle.size <= Times(|ch'|, r.vol.csize)
    && Content(r.vol, ch', r.handle.size) == WriteAt(Content(v, ch, h.size), h.off, buf)
  }

  // ---------- inside the first cluster ----------

  lemma OneTurnIsPut(v: Vol, h: Handle, buf: seq<byte>)
    requires VolOk(v) && InRange(v.fat, h.cur) && h.off < h.size && buf != []
    requires Rem(h.off, v.csize) + |buf| <= v.csize
    ensures WriteRun(v, h, buf) == Written(Put(v, h, buf).0, Put(v, h, buf).1, |buf|)
  {
    assert buf[..|buf|] == buf;
    assert buf[|buf|..] == [];
  }

  lemma PutInsideCluster(v: Vol, h: Handle, ch: seq<nat>, buf: seq<byte>)
    requires CursorOk(v, h, ch) && h.off + |buf| <= h.size && h.off < h.size
    requires InRange(v.fat, h.cur) && Rem(h.off, v.csize) + |buf| <= v.csize
    ensures var w := Put(v, h, buf).0;
            VolOk(w) && w.fat == v.fat && w.csize == v.csize
            && Content(w, ch, h.size) == WriteAt(Content(v, ch, h.size), h.off, buf)
  {
    hide WriteAt, Quot, Rem, Times;
    var q := Quot(h.off, v.csize);
    QuotRem(h.off, v.csize);
    var w := Put(v, h, buf).0;
    forall i, j | 0 <= i < j < |ch| ensures ch[i] != ch[j] {
      ChainIsAcyclic(v.fat, ch, i, j);
    }
    BlockUpdate(v, w, ch, q, Rem(h.off, v.csize), buf);
    WriteAtPrefix(ChainBytes(v, ch), h.size, h.off, buf);
  }

  lemma WriteInsideIsRight(v: Vol, h: Handle, ch: seq<nat>, buf: seq<byte>)
    requires CursorOk(v, h, ch) && Writable(v, h)
    requires h.off + |buf| <= h.size && Rem(h.off, v.csize) + |buf| <= v.csize
    ensures var r := WriteRun(v, h, buf);
            && VolOk(r.vol) && r.vol.fat == v.fat && r.vol.csize == v.csize
            && r.count == |buf| && r.handle.start == h.start && r.handle.size == h.size
            && Content(r.vol, ch, h.size) == WriteAt(Content(v, ch, h.size), h.off, buf)
  {
    if buf == [] {
      WriteAtNothing(Content(v, ch, h.size), h.off);
    } else {
      hide WriteRun, WriteAt, Content;
      OneTurnIsPut(v, h, buf);
      PutInsideCluster(v, h, ch, buf);
    }
  }

  /** The cursor stands in a cluster before the last of a chain that is as long as the size needs. */
  predicate BeforeLast(v: Vol, h: Handle, ch: seq<nat>) {
    CursorOk(v, h, ch) && Quot(h.off, v.csize) + 1 < |ch| && Times(|ch| - 1, v.csize) < h.size
  }

  /** Writing n bytes from there ends before the end of the cluster, so that the cursor is right afterwards. */
  predicate StaysInside(v: Vol, h: Handle, ch: seq<nat>, n: nat) {
    BeforeLast(v, h, ch) && Rem(h.off, v.csize) + n < v.csize
  }

  lemma InsideBounds(v: Vol, h: Handle, ch: seq<nat>, n: nat)
    requires StaysInside(v, h, ch, n)
    ensures Writable(v, h) && h.off + n < h.size && ch != [] && h.cur in ch && !NeedsCluster(v, h)
    ensures Quot(h.off + n, v.csize) == Quot(h.off, v.csize) && Rem(h.off + n, v.csize) == Rem(h.off, v.csize) + n
  {
    var q := Quot(h.off, v.csize);
    TimesMono(q + 1, |ch| - 1, v.csize);
    QuotRem(h.off, v.csize);
    QuotIs(h.off + n, q, v.csize);
  }

  lemma InsideChain(v: Vol, h: Handle, ch: seq<nat>, buf: seq<byte>)
    requires Writable(v, h) && !NeedsCluster(v, h) && h.off < h.size && Rem(h.off, v.csize) + |buf| <= v.csize
    ensures WriteChain(v, h, ch, buf) == ch
  {
    if buf != [] {
      assert buf[TurnSize(v, h, buf)..] == [];
    }
  }

  lemma InsidePut(v: Vol, h: Handle, ch: seq<nat>, buf: seq<byte>)
    requires StaysInside(v, h, ch, |buf|) && InRange(v.fat, h.cur)
    ensures var (w, h1) := Put(v, h, buf);
            && VolOk(w) && w.fat == v.fat && w.csize == v.csize && CursorOk(w, h1, ch)
            && h1.start == h.start && h1.size == h.size && h1.off == h.off + |buf|
            && forall c :: 0 <= c < |v.fat| && c !in ch ==> w.data[c] == v.data[c]
  {
    InsideBounds(v, h, ch, |buf|);
    hide Quot, Rem, Times, IsChain;
  }

  /** Such a write changes the bytes it was given and nothing else, and leaves the cursor behind them. */
  lemma InsideWrite(v: Vol, h: Handle, ch: seq<nat>, buf: seq<byte>)
    requires StaysInside(v, h, ch, |buf|) && Writable(v, h)
    ensures var r := WriteRun(v, h, buf);
            && VolOk(r.vol) && r.vol.fat == v.fat && r.vol.csize == v.csize && WriteChain(v, h, ch, buf) == ch
            && r.count == |buf| && r.handle.start == h.start && r.handle.size == h.size && r.handle.off == h.off + |buf|
            && CursorOk(r.vol, r.handle, ch)
            && Content(r.vol, ch, h.size) == WriteAt(Content(v, ch, h.size), h.off, buf)
            && forall c :: 0 <= c < |v.fat| && c !in ch ==> r.vol.data[c] == v.data[c]
  {
    InsideBounds(v, h, ch, |buf|);
    WriteInsideIsRight(v, h, ch, buf);
    InsideChain(v, h, ch, buf);
    if buf == [] {
      hide Content, WriteAt, WriteChain;
    } else {
      OneTurnIsPut(v, h, buf);
      InsidePut(v, h, ch, buf);
      hide Content, WriteAt, Quot, Rem, Times, WriteChain, IsChain, WriteRun, Put, CursorOk;
    }
  }

  // ---------- past the first cluster ----------

  /** The cursor stands on cluster q of the chain, which is not the last, wherever in the file the offset is. */
  predicate Stuck(v: Vol, h: Handle, ch: seq<nat>, q: nat) {
    && VolOk(v) && IsChain(v.fat, ch) && q + 1 < |ch| && h.start == ch[0] && h.cur == ch[q]
    && Times(|ch| - 1, v.csize) < h.size <= Times(|ch|, v.csize) && h.off <= h.size
  }

  /** The cursor stands on the last cluster of a chain that is `gap` clusters shorter than the size needs. */
  predicate Lagging(v: Vol, h: Handle, c: seq<nat>, gap: nat) {
    && VolOk(v) && IsChain(v.fat, c) && h.start == c[0] && h.cur == c[|c| - 1] && h.size == h.off && gap > 0
    && Times(|c| + gap - 1, v.csize) < h.off <= Times(|c| + gap, v.csize)
  }

  ghost predicate Lags(v: Vol, h: Handle, gap: nat) {
    exists c :: Lagging(v, h, c, gap)
  }

  lemma LaggingPut(v: Vol, h: Handle, c: seq<nat>, blocks: nat, chunk: seq<byte>)
    requires VolOk(v) && IsChain(v.fat, c) && h.start == c[0] && h.cur == c[|c| - 1] && h.size == h.off
    requires blocks > |c| && Times(blocks - 1, v.csize) <= h.off < Times(blocks, v.csize)
    requires chunk != [] && Rem(h.off, v.csize) + |chunk| <= v.csize
    ensures var (w, h1) := Put(v, h, chunk); Lagging(w, h1, c, blocks - |c|)
  {
    QuotIs(h.off, blocks - 1, v.csize);
  }

  lemma LaggingTurn(v: Vol, h: Handle, c: seq<nat>, gap: nat, buf: seq<byte>)
    requires Lagging(v, h, c, gap) && Writable(v, h) && !Stopped(v, h, buf)
    ensures var (w, h1) := Turn(v, h, buf);
            Lags(w, h1, gap)
  {
    hide Put, Rem, Quot, Times;
    var k := TurnSize(v, h, buf);
    if NeedsCluster(v, h) {
      AtBlockEnd(h.off, |c| + gap, v.csize);
      ExtendLinks(v, h, c);
      TimesStep(|c| + gap, v.csize);
      var (v1, h1) := Extend(v, h);
      LaggingPut(v1, h1, c + [FirstFree(v.fat)], |c| + gap + 1, buf[..k]);
      var (w, h2) := Turn(v, h, buf);
      assert Lagging(w, h2, c + [FirstFree(v.fat)], gap);
    } else {
      NotAtBlockEnd(h.off, |c| + gap, v.csize);
      LaggingPut(v, h, c, |c| + gap, buf[..k]);
      var (w, h2) := Turn(v, h, buf);
      assert Lagging(w, h2, c, gap);
    }
  }

  lemma TimesStep(k: nat, d: nat)
    ensures Times(k + 1, d) == Times(k, d) + d
  {
  }

  lemma AtBlockEnd(p: nat, k: nat, d: nat)
    requires d > 0 && k > 0 && Times(k - 1, d) < p <= Times(k, d) && Rem(p, d) == 0
    ensures p == Times(k, d)
  {
    if p < Times(k, d) {
      QuotIs(p, k - 1, d);
    }
  }

  lemma NotAtBlockEnd(p: nat, k: nat, d: nat)
    requires d > 0 && k > 0 && Times(k - 1, d) < p <= Times(k, d) && Rem(p, d) != 0
    ensures p < Times(k, d)
  {
    QuotIs(Times(k, d), k, d);
  }

  /** Once the chain lags behind the size, it does so for ever. */
  lemma {:induction false} LaggingWrite(v: Vol, h: Handle, c: seq<nat>, gap: nat, buf: seq<byte>)
    requires Lagging(v, h, c, gap) && Writable(v, h)
    ensures var r := WriteRun(v, h, buf); Lags(r.vol, r.handle, gap)
    decreases |buf|
  {
    hide Turn, TurnSize, Stopped, Lagging;
    if !Stopped(v, h, buf) {
      LaggingTurn(v, h, c, gap, buf);
      TurnShrinks(v, h, buf);
      var (w, h1) := Turn(v, h, buf);
      var c' :| Lagging(w, h1, c', gap);
      LaggingWrite(w, h1, c', gap, buf[TurnSize(v, h, buf)..]);
    } else {
      assert WriteRun(v, h, buf) == Written(v, h, 0);
    }
  }

  /** The cluster is linked behind cluster q, and what followed there is cut off. */
  lemma Relink(v: Vol, h: Handle, ch: seq<nat>, q: nat)
    requires Stuck(v, h, ch, q) && FirstFree(v.fat) != 0
    ensures var (n, c) := (FirstFree(v.fat), ch[..q + 1] + [FirstFree(v.fat)]);
            var (w, h1) := Extend(v, h);
            && VolOk(w) && IsChain(w.fat, c) && h1.start == c[0] && h1.cur == n
            && w.csize == v.csize && h1.off == h.off && h1.size == h.size
  {
    var n, c, w := FirstFree(v.fat), ch[..q + 1] + [FirstFree(v.fat)], Extend(v, h).0;
    FirstFreeIsLeast(v.fat);
    ExtendKeepsVolOk(v, h);
    ChainIsUsed(v.fat, ch);
    forall i | 0 <= i < q ensures ch[i] != ch[q] && w.fat[ch[i]] == ch[i + 1] {
      ChainIsAcyclic(v.fat, ch, i, q);
    }
  }

  /** A turn on cluster q either keeps the table or leaves a chain that lags. */
  lemma StuckTurn(v: Vol, h: Handle, ch: seq<nat>, q: nat, buf: seq<byte>)
    requires Stuck(v, h, ch, q) && Writable(v, h) && !Stopped(v, h, buf)
    ensures var (w, h1) := Turn(v, h, buf);
            || (w.fat == v.fat && w.csize == v.csize && Stuck(w, h1, ch, q))
            || Lags(w, h1, |ch| - q - 1)
  {
    hide Rem, Quot, Times, IsChain;
    var k := TurnSize(v, h, buf);
    TimesStep(|ch|, v.csize);
    if NeedsCluster(v, h) {
      AtBlockEnd(h.off, |ch|, v.csize);
      Relink(v, h, ch, q);
      var (v1, h1) := Extend(v, h);
      hide Put, Extend;
      var c := ch[..q + 1] + [FirstFree(v.fat)];
      LaggingPut(v1, h1, c, |ch| + 1, buf[..k]);
      var (w, h2) := Turn(v, h, buf);
      assert Lagging(w, h2, c, |ch| - q - 1);
    } else {
      StuckPut(v, h, ch, q, buf[..k]);
    }
  }

  lemma StuckPut(v: Vol, h: Handle, ch: seq<nat>, q: nat, chunk: seq<byte>)
    requires Stuck(v, h, ch, q) && !NeedsCluster(v, h) && InRange(v.fat, h.cur)
    requires Rem(h.off, v.csize) + |chunk| <= v.csize
    ensures var (w, h1) := Put(v, h, chunk); w.fat == v.fat && w.csize == v.csize && Stuck(w, h1, ch, q)
  {
    hide Rem, Quot, Times, IsChain;
    BlockRoom(h.off, |ch|, v.csize);
  }

  /** The rest of a block that starts below k blocks stays below them. */
  lemma BlockRoom(p: nat, k: nat, d: nat)
    requires d > 0 && p <= Times(k, d)
    ensures p < Times(k, d) || Rem(p, d) == 0
    ensures p < Times(k, d) ==> p - Rem(p, d) + d <= Times(k, d)
  {
    if p < Times(k, d) {
      QuotLess(p, k, d);
      QuotRem(p, d);
    } else {
      QuotIs(p, k, d);
    }
  }

  lemma {:induction false} StuckWrite(v: Vol, h: Handle, ch: seq<nat>, q: nat, buf: seq<byte>)
    requires Stuck(v, h, ch, q) && Writable(v, h)
    ensures var r := WriteRun(v, h, buf);
            || (r.vol.fat == v.fat && r.vol.csize == v.csize && Stuck(r.vol, r.handle, ch, q))
            || Lags(r.vol, r.handle, |ch| - q - 1)
    decreases |buf|
  {
    hide Turn, TurnSize, Stopped, Lagging, Stuck;
    if !Stopped(v, h, buf) {
      StuckTurn(v, h, ch, q, buf);
      TurnShrinks(v, h, buf);
      var (w, h1) := Turn(v, h, buf);
      var rest := buf[TurnSize(v, h, buf)..];
      if Stuck(w, h1, ch, q) && w.fat == v.fat && w.csize == v.csize {
        StuckWrite(w, h1, ch, q, rest);
      } else {
        GapPositive(v, h, ch, q);
        var c' :| Lagging(w, h1, c', |ch| - q - 1);
        LaggingWrite(w, h1, c', |ch| - q - 1, rest);
      }
    }
  }

  lemma GapPositive(v: Vol, h: Handle, ch: seq<nat>, q: nat)
    requires Stuck(v, h, ch, q)
    ensures q + 1 < |ch|
  {
  }

  /** A chain that lags holds no file of that size. */
  lemma LaggingIsWrong(v: Vol, h: Handle, c: seq<nat>, gap: nat, ch': seq<nat>)
    requires Lagging(v, h, c, gap) && Chained(v.fat, h.start, ch')
    ensures Times(|ch'|, v.csize) < h.size
  {
    ChainIsUnique(v.fat, c, ch');
    TimesMono(|c|, |c| + gap - 1, v.csize);
  }

  /** While the table is as it was, the cluster behind q still holds its old bytes. */
  lemma NextBlockKept(v: Vol, h: Handle, ch: seq<nat>, q: nat, buf: seq<byte>)
    requires Stuck(v, h, ch, q) && Writable(v, h)
    ensures var w := WriteRun(v, h, buf).vol;
            |w.data| == |v.data| && w.csize == v.csize && w.data[ch[q + 1]] == v.data[ch[q + 1]]
  {
    hide WriteRun, Writable;
    ChainIsUsed(v.fat, ch);
    ChainIsAcyclic(v.fat, ch, q, q + 1);
    WriteKeepsUsed(v, h, buf, ch[q + 1]);
  }

  /** The first byte behind the first cluster is where the write goes wrong. */
  lemma WriteAcrossIsWrong(v: Vol, h: Handle, ch: seq<nat>, q: nat, buf: seq<byte>, ch': seq<nat>)
    requires CursorOk(v, h, ch) && Writable(v, h) && Stuck(v, h, ch, q) && q == Quot(h.off, v.csize)
    requires v.csize - Rem(h.off, v.csize) < |buf|
    requires Times(q + 1, v.csize) < h.size && buf[v.csize - Rem(h.off, v.csize)] != Content(v, ch, h.size)[Times(q + 1, v.csize)]
    ensures !HoldsOver(v, h, ch, buf, WriteRun(v, h, buf), ch')
  {
    hide WriteRun, Rem, Quot, WriteAt;
    var r, p, k := WriteRun(v, h, buf), Times(q + 1, v.csize), v.csize - Rem(h.off, v.csize);
    StuckWrite(v, h, ch, q, buf);
    if HoldsOver(v, h, ch, buf, r, ch') {
      if r.vol.fat == v.fat && Stuck(r.vol, r.handle, ch, q) {
        ChainIsUnique(v.fat, ch, ch');
        SameByte(v, h, ch, q, buf);
        QuotRem(h.off, v.csize);
        WriteAtByte(Content(v, ch, h.size), h.off, buf, k);
        assert false;
      } else {
        var c' :| Lagging(r.vol, r.handle, c', |ch| - q - 1);
        LaggingIsWrong(r.vol, r.handle, c', |ch| - q - 1, ch');
        assert false;
      }
    }
  }

  lemma SameByte(v: Vol, h: Handle, ch: seq<nat>, q: nat, buf: seq<byte>)
    requires Stuck(v, h, ch, q) && Writable(v, h) && Times(q + 1, v.csize) < h.size
    requires var r := WriteRun(v, h, buf); r.vol.fat == v.fat && Stuck(r.vol, r.handle, ch, q)
    ensures var (r, p) := (WriteRun(v, h, buf), Times(q + 1, v.csize));
            p < r.handle.size && Content(r.vol, ch, r.handle.size)[p] == Content(v, ch, h.size)[p]
  {
    hide WriteRun;
    var r := WriteRun(v, h, buf);
    NextBlockKept(v, h, ch, q, buf);
    TimesMono(q + 1, |ch| - 1, v.csize);
    ClusterIsBlock(v, ch, q + 1);
    ClusterIsBlock(r.vol, ch, q + 1);
    assert r.vol.data[ch[q + 1]][0] == v.data[ch[q + 1]][0];
  }

  lemma BeforeLastIsStuck(v: Vol, h: Handle, ch: seq<nat>)
    requires BeforeLast(v, h, ch)
    ensures CursorOk(v, h, ch) && Stuck(v, h, ch, Quot(h.off, v.csize))
    ensures h.off + v.csize - Rem(h.off, v.csize) == Times(Quot(h.off, v.csize) + 1, v.csize) < h.size
  {
    TimesMono(Quot(h.off, v.csize) + 1, |ch| - 1, v.csize);
    QuotRem(h.off, v.csize);
  }

  /**
   Writing n bytes from before the last cluster of a file whose chain is as long as its size needs is right for
   all bytes exactly when it stays inside the cluster it starts in. The bytes for which it goes wrong are those of
   AcrossIsWrong and WritePastEndIsWrong.
   */
  lemma WriteBeforeLastIsRightIffInside(v: Vol, h: Handle, ch: seq<nat>, n: nat)
    requires BeforeLast(v, h, ch) && Writable(v, h)
    ensures (forall buf: seq<byte> :: |buf| == n ==> WriteRight(v, h, ch, buf)) <==> Rem(h.off, v.csize) + n <= v.csize
  {
    hide WriteRun, Content, Rem, WriteAt, HoldsOver, Quot, Stuck;
    BeforeLastIsStuck(v, h, ch);
    if Rem(h.off, v.csize) + n <= v.csize {
      forall buf: seq<byte> | |buf| == n ensures WriteRight(v, h, ch, buf) {
        InsideIsRight(v, h, ch, buf);
      }
    } else {
      var next := Content(v, ch, h.size)[Times(Quot(h.off, v.csize) + 1, v.csize)];
      var buf: seq<byte> := seq(n, i => if next == 0 then 1 else 0);
      AcrossIsWrong(v, h, ch, buf);
      assert !WriteRight(v, h, ch, buf);
    }
  }

  lemma InsideIsRight(v: Vol, h: Handle, ch: seq<nat>, buf: seq<byte>)
    requires BeforeLast(v, h, ch) && Writable(v, h) && Rem(h.off, v.csize) + |buf| <= v.csize
    ensures WriteRight(v, h, ch, buf)
  {
    hide WriteRun, Content, Rem, WriteAt;
    BeforeLastIsStuck(v, h, ch);
    WriteInsideIsRight(v, h, ch, buf);
    assert HoldsOver(v, h, ch, buf, WriteRun(v, h, buf), ch);
  }

  /** A write that leaves its cluster and changes the byte behind it is wrong. */
  lemma AcrossIsWrong(v: Vol, h: Handle, ch: seq<nat>, buf: seq<byte>)
    requires BeforeLast(v, h, ch) && Writable(v, h) && v.csize < Rem(h.off, v.csize) + |buf|
    requires var p := Times(Quot(h.off, v.csize) + 1, v.csize);
             p < h.size && buf[v.csize - Rem(h.off, v.csize)] != Content(v, ch, h.size)[p]
    ensures forall ch' :: !HoldsOver(v, h, ch, buf, WriteRun(v, h, buf), ch')
  {
    hide WriteRun, Content, Rem, WriteAt, HoldsOver, Quot, Stuck;
    BeforeLastIsStuck(v, h, ch);
    forall ch' ensures !HoldsOver(v, h, ch, buf, WriteRun(v, h, buf), ch') {
      WriteAcrossIsWrong(v, h, ch, Quot(h.off, v.csize), buf, ch');
    }
  }

  lemma {:induction false} WriteMovesOffset(v: Vol, h: Handle, buf: seq<byte>)
    requires Writable(v, h) && h.off <= h.size
    ensures var r := WriteRun(v, h, buf); r.handle.off == h.off + r.count <= r.handle.size
    decreases |buf|
  {
    hide Stopped, Rem;
    if !Stopped(v, h, buf) {
      TurnShrinks(v, h, buf);
      var (w, h1) := Turn(v, h, buf);
      WriteMovesOffset(w, h1, buf[TurnSize(v, h, buf)..]);
    }
  }

  lemma LagsIsWrong(v: Vol, h: Handle, ch: seq<nat>, buf: seq<byte>, gap: nat)
    requires CursorOk(v, h, ch) && Writable(v, h) && Lags(WriteRun(v, h, buf).vol, WriteRun(v, h, buf).handle, gap)
    ensures forall ch' :: !HoldsOver(v, h, ch, buf, WriteRun(v, h, buf), ch')
  {
    hide WriteRun, Content, WriteAt;
    var r := WriteRun(v, h, buf);
    var c :| Lagging(r.vol, r.handle, c, gap);
    forall ch' ensures !HoldsOver(v, h, ch, buf, r, ch') {
      if HoldsOver(v, h, ch, buf, r, ch') {
        LaggingIsWrong(r.vol, r.handle, c, gap, ch');
        assert false;
      }
    }
  }

  lemma StuckBounds(v: Vol, h: Handle, ch: seq<nat>, q: nat)
    requires Stuck(v, h, ch, q)
    ensures h.off <= h.size <= Times(|ch|, v.csize) && q + 1 < |ch|
  {
  }

  /** From a cluster before the last to behind the chain's end: reported complete, it leaves a chain that lags. */
  lemma StuckPastEnd(v: Vol, h: Handle, ch: seq<nat>, q: nat, buf: seq<byte>)
    requires CursorOk(v, h, ch) && Writable(v, h) && Stuck(v, h, ch, q) && h.off + |buf| > Times(|ch|, v.csize)
    requires WriteRun(v, h, buf).count == |buf|
    ensures forall ch' :: !HoldsOver(v, h, ch, buf, WriteRun(v, h, buf), ch')
  {
    hide WriteRun, HoldsOver, Lags, Stuck, Writable, CursorOk, Times;
    StuckBounds(v, h, ch, q);
    StuckWrite(v, h, ch, q, buf);
    WriteMovesOffset(v, h, buf);
    var r := WriteRun(v, h, buf);
    if Stuck(r.vol, r.handle, ch, q) && r.vol.csize == v.csize {
      StuckBounds(r.vol, r.handle, ch, q);
      assert false;
    } else {
      LagsIsWrong(v, h, ch, buf, |ch| - q - 1);
    }
  }

  /**
   Past the end of the chain a write that is reported complete is wrong whatever the bytes are: the chain is left
   shorter than the size needs. When it is reported complete is WriteReports.
   */
  lemma WritePastEndIsWrong(v: Vol, h: Handle, ch: seq<nat>, buf: seq<byte>)
    requires BeforeLast(v, h, ch) && Writable(v, h) && h.off + |buf| > Times(|ch|, v.csize)
    ensures WriteRun(v, h, buf).count == |buf| ==> forall ch' :: !HoldsOver(v, h, ch, buf, WriteRun(v, h, buf), ch')
  {
    hide WriteRun, HoldsOver, Rem, Stuck, Quot, Writable;
    BeforeLastIsStuck(v, h, ch);
    if WriteRun(v, h, buf).count == |buf| {
      StuckPastEnd(v, h, ch, Quot(h.off, v.csize), buf);
    }
  }

  // ---------- what is reported ----------

  lemma ExtendTakesOne(v: Vol, h: Handle)
    requires VolOk(v) && FirstFree(v.fat) != 0 && (h.cur == 0 || (InRange(v.fat, h.cur) && v.fat[h.cur] != 0))
    ensures var (w, h1) := Extend(v, h);
            |FreeSet(w.fat)| == |FreeSet(v.fat)| - 1 && InRange(w.fat, h1.cur) && w.fat[h1.cur] != 0
  {
    FirstFreeIsLeast(v.fat);
    assert FreeSet(Extend(v, h).0.fat) == FreeSet(v.fat) - {FirstFree(v.fat)};
  }

  /** After one turn the size needs k blocks, or one more where the turn took a cluster. */
  lemma TurnBlocks(v: Vol, h: Handle, buf: seq<byte>, k: nat)
    requires Writable(v, h) && !Stopped(v, h, buf) && h.off <= h.size && (h.cur == 0 || v.fat[h.cur] != 0)
    requires h.size <= Times(k, v.csize) && (k > 0 ==> Times(k - 1, v.csize) < h.size)
    ensures var (w, h1) := Turn(v, h, buf);
            var k' := if NeedsCluster(v, h) then k + 1 else k;
            && h1.off == h.off + TurnSize(v, h, buf) <= h1.size <= Times(k', v.csize) && (k' > 0 ==> Times(k' - 1, v.csize) < h1.size)
            && (h1.cur == 0 || w.fat[h1.cur] != 0) && k' + |FreeSet(w.fat)| == k + |FreeSet(v.fat)|
  {
    hide Rem, Quot, Times, FreeSet, FirstFree;
    TimesStep(k, v.csize);
    if NeedsCluster(v, h) {
      ExtendTakesOne(v, h);
      SizeAtBlocks(h.size, k, v.csize);
    } else {
      BlockRoom(h.off, k, v.csize);
    }
  }

  lemma SizeAtBlocks(p: nat, k: nat, d: nat)
    requires d > 0 && p <= Times(k, d) && (k > 0 ==> Times(k - 1, d) < p) && Rem(p, d) == 0
    ensures p == Times(k, d)
  {
    if k > 0 {
      AtBlockEnd(p, k, d);
    }
  }

  /**
   A write is reported complete exactly when the file's blocks and the free clusters hold it, whether or not the
   clusters it writes are the file's.
   */
  lemma {:induction false} WriteReports(v: Vol, h: Handle, buf: seq<byte>, k: nat)
    requires Writable(v, h) && h.off <= h.size && (h.cur == 0 || v.fat[h.cur] != 0)
    requires h.size <= Times(k, v.csize) && (k > 0 ==> Times(k - 1, v.csize) < h.size)
    ensures WriteRun(v, h, buf).count == |buf| <==> h.off + |buf| <= Times(k + |FreeSet(v.fat)|, v.csize)
    decreases |buf|
  {
    hide Turn, TurnSize, FreeSet, Rem, Times;
    TimesMono(k, k + |FreeSet(v.fat)|, v.csize);
    if !Stopped(v, h, buf) {
      TurnShrinks(v, h, buf);
      TurnBlocks(v, h, buf, k);
      var (w, h1) := Turn(v, h, buf);
      WriteReports(w, h1, buf[TurnSize(v, h, buf)..], if NeedsCluster(v, h) then k + 1 else k);
    } else if buf != [] {
      FirstFreeIsLeast(v.fat);
      SizeAtBlocks(h.size, k, v.csize);
      assert |FreeSet(v.fat)| == 0;
    }
  }

  // ---------- from the last cluster ----------

  lemma WriteFromLastIsRightIff(v: Vol, h: Handle, ch: seq<nat>, buf: seq<byte>)
    requires CursorOk(v, h, ch) && WriteReady(v, h, ch) && Writable(v, h)
    ensures WriteRight(v, h, ch, buf) <==> Ceil(Max(h.size, h.off + |buf|), v.csize) <= |ch| + |FreeSet(v.fat)|
  {
    hide WriteRun, WriteChain, Content, WriteAt, Ceil, Times, FreeSet, Quot, Rem;
    WriteSucceedsIffFits(v, h, ch, buf);
    var r := WriteRun(v, h, buf);
    if r.count == |buf| {
      WriteKeepsReady(v, h, ch, buf);
      WriteReplacesBytes(v, h, ch, buf);
      assert buf[..|buf|] == buf;
      assert HoldsOver(v, h, ch, buf, r, WriteChain(v, h, ch, buf));
    }
  }

  // ---------- at the end of a file that fills its chain ----------

  /**
   A read up to the end of a file that fills its chain leaves no current cluster. An append from there does
   not extend the file: the handle now starts at a fresh cluster, and the old chain is left as it was,
   which no entry will name once the handle's start cluster is recorded.
   */
  lemma AppendFromEndedCursorLosesChain(v: Vol, h: Handle, ch: seq<nat>, buf: seq<byte>, c: nat)
    requires VolOk(v) && IsChain(v.fat, ch) && h.start == ch[0] && h.cur == 0
    requires h.off == h.size == Times(|ch|, v.csize) && buf != [] && FirstFree(v.fat) != 0 && c in ch
    ensures Writable(v, h)
    ensures var r := WriteRun(v, h, buf);
            && r.handle.start == FirstFree(v.fat) && r.handle.start !in ch
            && |r.vol.fat| == |v.fat| == |r.vol.data| && r.vol.fat[c] == v.fat[c] && r.vol.data[c] == v.data[c]
  {
    hide Turn, TurnSize, IsChain;
    QuotIs(h.off, |ch|, v.csize);
    FirstFreeIsLeast(v.fat);
    ChainIsUsed(v.fat, ch);
    UsedInRange(v.fat, ch, c);
    TurnKeepsUsed(v, h, buf, c);
    TurnShrinks(v, h, buf);
    var (w, h1) := Turn(v, h, buf);
    WriteKeepsUsed(w, h1, buf[TurnSize(v, h, buf)..], c);
  }

  lemma UsedInRange(fat: Fat, ch: seq<nat>, c: nat)
    requires IsChain(fat, ch) && c in ch
    ensures InRange(fat, c)
  {
  }

  /** From no current cluster the first turn starts a chain of its own, which lags by the whole old one. */
  lemma EndedTurnLags(v: Vol, h: Handle, blocks: nat, buf: seq<byte>)
    requires h.cur == 0 && VolOk(v) && h.off == h.size == Times(blocks, v.csize) && blocks > 0
    requires Writable(v, h) && !Stopped(v, h, buf)
    ensures var (w, h1) := Turn(v, h, buf); Lags(w, h1, blocks)
  {
    hide Times, Rem, Quot, Put, Lagging, FirstFree;
    var n := FirstFree(v.fat);
    FirstFreeIsLeast(v.fat);
    QuotIs(h.off, blocks, v.csize);
    TimesStep(blocks, v.csize);
    ExtendKeepsVolOk(v, h);
    var (v1, h1) := Extend(v, h);
    assert IsChain(v1.fat, [n]);
    LaggingPut(v1, h1, [n], blocks + 1, buf[..TurnSize(v, h, buf)]);
    var (w, h2) := Turn(v, h, buf);
    assert Lagging(w, h2, [n], blocks);
  }

  lemma EndedAppendLags(v: Vol, h: Handle, blocks: nat, buf: seq<byte>)
    requires h.cur == 0 && VolOk(v) && h.off == h.size == Times(blocks, v.csize) && blocks > 0
    requires Writable(v, h) && buf != [] && WriteRun(v, h, buf).count == |buf|
    ensures Lags(WriteRun(v, h, buf).vol, WriteRun(v, h, buf).handle, blocks)
  {
    hide Times, Turn, TurnSize, Lagging, Stopped;
    if Stopped(v, h, buf) {
      assert false;
    } else {
      EndedTurnLags(v, h, blocks, buf);
      var (w, h1) := Turn(v, h, buf);
      var c :| Lagging(w, h1, c, blocks);
      LaggingWrite(w, h1, c, blocks, buf[TurnSize(v, h, buf)..]);
    }
  }

  /**
   Appending at the end of a file that fills its chain is right exactly when the cursor still stands on the last
   cluster and there are clusters for the new size. From anywhere else on the chain, and from no current cluster,
   it is wrong for all bytes.
   */
  lemma AppendAtEndIsRightIff(v: Vol, h: Handle, ch: seq<nat>, buf: seq<byte>)
    requires CursorOk(v, h, ch) && Writable(v, h) && ch != [] && (h.cur == 0 || h.cur in ch)
    requires h.off == h.size == Times(|ch|, v.csize) && buf != []
    ensures WriteRight(v, h, ch, buf) <==>
            h.cur == ch[|ch| - 1] && Ceil(h.size + |buf|, v.csize) <= |ch| + |FreeSet(v.fat)|
    ensures h.cur != ch[|ch| - 1] && WriteRun(v, h, buf).count == |buf| ==>
              forall ch' :: !HoldsOver(v, h, ch, buf, WriteRun(v, h, buf), ch')
  {
    hide WriteRun, HoldsOver, Ceil, Rem, Quot, Lags;
    TimesStep(|ch| - 1, v.csize);
    if h.cur == ch[|ch| - 1] {
      WriteFromLastIsRightIff(v, h, ch, buf);
    } else if WriteRun(v, h, buf).count == |buf| {
      if h.cur == 0 {
        EndedAppendLags(v, h, |ch|, buf);
        LagsIsWrong(v, h, ch, buf, |ch|);
      } else {
        var q :| 0 <= q < |ch| && h.cur == ch[q];
        StuckPastEnd(v, h, ch, q, buf);
      }
    }
  }

  // ---------- wherever the cursor stands ----------

  /** The exact condition, in terms of the cursor, the length and the free clusters. */
  predicate Placed(v: Vol, h: Handle, ch: seq<nat>, n: nat)
    requires VolOk(v)
  {
    n == 0 ||
    if Quot(h.off, v.csize) + 1 < |ch| then Rem(h.off, v.csize) + n <= v.csize
    else (ch == [] || h.cur == ch[|ch| - 1]) && Ceil(Max(h.size, h.off + n), v.csize) <= |ch| + |FreeSet(v.fat)|
  }

  /**
   On a file whose chain is as long as its size needs, with the cursor on the chain or off it, writing n bytes is
   right for all bytes exactly when, before the last cluster, it stays inside the cluster, and else the cursor
   stands on the last cluster and there are clusters for the new size.
   */
  lemma WriteIsRightIff(v: Vol, h: Handle, ch: seq<nat>, n: nat)
    requires CursorOk(v, h, ch) && Writable(v, h) && (h.cur == 0 || h.cur in ch)
    requires ch != [] ==> Times(|ch| - 1, v.csize) < h.size
    ensures (forall buf: seq<byte> :: |buf| == n ==> WriteRight(v, h, ch, buf)) <==> Placed(v, h, ch, n)
  {
    hide WriteRun, HoldsOver, WriteRight, Ceil, Rem, Quot;
    if n == 0 {
      EmptyWriteIsRight(v, h, ch);
    } else if Quot(h.off, v.csize) + 1 < |ch| {
      WriteBeforeLastIsRightIffInside(v, h, ch, n);
    } else {
      forall buf: seq<byte> | |buf| == n ensures WriteRight(v, h, ch, buf) <==> Placed(v, h, ch, n) {
        WriteAtEndIsRightIff(v, h, ch, buf);
      }
      assert |seq(n, i => 0 as byte)| == n;
    }
  }

  lemma EmptyWriteIsRight(v: Vol, h: Handle, ch: seq<nat>)
    requires CursorOk(v, h, ch) && Writable(v, h)
    ensures forall buf: seq<byte> :: |buf| == 0 ==> WriteRight(v, h, ch, buf)
  {
    hide Content, WriteAt;
    WriteAtNothing(Content(v, ch, h.size), h.off);
    forall buf: seq<byte> | |buf| == 0 ensures WriteRight(v, h, ch, buf) {
      assert buf == [];
      assert HoldsOver(v, h, ch, buf, WriteRun(v, h, buf), ch);
    }
  }

  lemma WriteAtEndIsRightIff(v: Vol, h: Handle, ch: seq<nat>, buf: seq<byte>)
    requires CursorOk(v, h, ch) && Writable(v, h) && (h.cur == 0 || h.cur in ch) && buf != []
    requires ch != [] ==> Times(|ch| - 1, v.csize) < h.size
    requires |ch| <= Quot(h.off, v.csize) + 1
    ensures WriteRight(v, h, ch, buf) <==> Placed(v, h, ch, |buf|)
  {
    hide WriteRun, WriteRight, Ceil, Rem;
    QuotRem(h.off, v.csize);
    TimesMono(if ch == [] then 0 else |ch| - 1, Quot(h.off, v.csize), v.csize);
    if ch != [] && h.off == Times(|ch|, v.csize) {
      QuotIs(h.off, |ch|, v.csize);
      AppendAtEndIsRightIff(v, h, ch, buf);
    } else {
      WriteFromLastIsRightIff(v, h, ch, buf);
    }
  }

  // ---------- the writes that keep the cursor right ----------

  /** The cursor stands where it should on a chain that is as long as the size needs. */
  predicate Settled(v: Vol, h: Handle, ch: seq<nat>) {
    CursorOk(v, h, ch) && (ch != [] ==> Times(|ch| - 1, v.csize) < h.size)
  }

  /** The cursor stands on the last cluster, at the end of the file or before it; without a cluster on none. */
  predicate AtTail(v: Vol, h: Handle, ch: seq<nat>) {
    if ch == [] then h.cur == 0 else h.cur == ch[|ch| - 1] && Times(|ch| - 1, v.csize) <= h.off
  }

  predicate MayWrite(v: Vol, h: Handle, ch: seq<nat>, n: nat) {
    AtTail(v, h, ch) || StaysInside(v, h, ch, n)
  }

  lemma TailIsReady(v: Vol, h: Handle, ch: seq<nat>)
    requires Settled(v, h, ch)
    ensures AtTail(v, h, ch) <==> WriteReady(v, h, ch)
  {
  }

  lemma ReadyIsSettled(v: Vol, h: Handle, ch: seq<nat>)
    requires WriteReady(v, h, ch)
    ensures Settled(v, h, ch) && (ch != [] ==> InRange(v.fat, ch[0]))
  {
    if h.off < Times(|ch|, v.csize) {
      QuotIs(h.off, |ch| - 1, v.csize);
    }
  }

  lemma MayWriteIsWritable(v: Vol, h: Handle, ch: seq<nat>, n: nat)
    requires Settled(v, h, ch) && MayWrite(v, h, ch, n)
    ensures Writable(v, h)
  {
    TailIsReady(v, h, ch);
    if AtTail(v, h, ch) {
      ReadyIsWritable(v, h, ch);
    } else {
      InsideBounds(v, h, ch, n);
    }
  }

  /** The clusters that a write of the file may touch: its own and free ones. */
  predicate Grown(v: Vol, ch: seq<nat>, w: Vol, ch': seq<nat>) {
    && VolOk(w) && |w.fat| == |v.fat| == |v.data| && w.csize == v.csize && ch <= ch'
    && (forall c :: 0 <= c < |v.fat| && c !in ch' ==> w.fat[c] == v.fat[c] && w.data[c] == v.data[c])
    && (forall c :: c in ch' ==> c in ch || c in FreeSet(v.fat))
    && |FreeSet(v.fat)| == |FreeSet(w.fat)| + |ch'| - |ch|
  }

  /** What a write has done when r is its result and ch' the file's chain. */
  ghost predicate Wrote(v: Vol, h: Handle, ch: seq<nat>, buf: seq<byte>, r: Written, ch': seq<nat>)
    requires CursorOk(v, h, ch) && r.count <= |buf|
  {
    && Settled(r.vol, r.handle, ch') && Grown(v, ch, r.vol, ch')
    && r.handle.off == h.off + r.count && r.handle.size == Max(h.size, h.off + r.count)
    && Content(r.vol, ch', r.handle.size) == WriteAt(Content(v, ch, h.size), h.off, buf[..r.count])
    && (r.count < |buf| ==> |FreeSet(r.vol.fat)| == 0 && r.handle.off == r.handle.size == Times(|ch'|, v.csize))
  }

  lemma TailWrite(v: Vol, h: Handle, ch: seq<nat>, buf: seq<byte>)
    requires CursorOk(v, h, ch) && WriteReady(v, h, ch) && Writable(v, h)
    ensures Wrote(v, h, ch, buf, WriteRun(v, h, buf), WriteChain(v, h, ch, buf))
  {
    hide WriteRun, WriteChain, Content, WriteAt, Times, FreeSet, Writable, CursorOk, Settled;
    WriteKeepsReady(v, h, ch, buf);
    WriteReplacesBytes(v, h, ch, buf);
    WriteFrame(v, h, ch, buf);
    WriteCounts(v, h, ch, buf);
    ReadyIsSettled(WriteRun(v, h, buf).vol, WriteRun(v, h, buf).handle, WriteChain(v, h, ch, buf));
  }

  lemma InsideWrote(v: Vol, h: Handle, ch: seq<nat>, buf: seq<byte>)
    requires StaysInside(v, h, ch, |buf|) && Writable(v, h)
    ensures CursorOk(v, h, ch) && Wrote(v, h, ch, buf, WriteRun(v, h, buf), WriteChain(v, h, ch, buf))
  {
    hide WriteRun, WriteChain, Content, WriteAt, Times, FreeSet, Writable, IsChain, Quot, Rem;
    InsideBounds(v, h, ch, |buf|);
    InsideWrite(v, h, ch, buf);
    assert buf[..|buf|] == buf;
  }

  /**
   A write from the last cluster, or from a cluster before it that ends inside, puts what it has written over the
   file's bytes, grows the chain out of free clusters, falls short only on a full volume, and leaves the cursor right.
   */
  lemma PlacedWrite(v: Vol, h: Handle, ch: seq<nat>, buf: seq<byte>)
    requires Settled(v, h, ch) && MayWrite(v, h, ch, |buf|) && Writable(v, h)
    ensures Wrote(v, h, ch, buf, WriteRun(v, h, buf), WriteChain(v, h, ch, buf))
  {
    hide WriteRun, WriteChain, Wrote, Writable, CursorOk, WriteReady, StaysInside;
    TailIsReady(v, h, ch);
    if AtTail(v, h, ch) {
      TailWrite(v, h, ch, buf);
    } else {
      InsideWrote(v, h, ch, buf);
    }
  }

  /**
   A right write from before the last cluster leaves the cursor right unless it ends exactly at its cluster's end:
   then the offset is the next cluster's and the current cluster is not.
   */
  lemma CursorRightIff(v: Vol, h: Handle, ch: seq<nat>, buf: seq<byte>)
    requires BeforeLast(v, h, ch) && Writable(v, h) && buf != [] && Rem(h.off, v.csize) + |buf| <= v.csize
    ensures var r := WriteRun(v, h, buf);
            && (CursorOk(r.vol, r.handle, ch) <==> Rem(h.off, v.csize) + |buf| < v.csize)
            && (Rem(h.off, v.csize) + |buf| == v.csize ==>
                  r.handle.off == Times(Quot(h.off, v.csize) + 1, v.csize) && r.handle.cur == ch[Quot(h.off, v.csize)])
  {
    if Rem(h.off, v.csize) + |buf| < v.csize {
      hide WriteRun, CursorOk, WriteAt, Content, WriteChain;
      InsideWrite(v, h, ch, buf);
    } else {
      var q := Quot(h.off, v.csize);
      BeforeLastIsStuck(v, h, ch);
      OneTurnIsPut(v, h, buf);
      hide WriteRun, Rem;
      QuotIs(Times(q + 1, v.csize), q + 1, v.csize);
      TimesMono(q + 2, |ch|, v.csize);
      ChainIsAcyclic(v.fat, ch, q, q + 1);
    }
  }

  // ---------- four inputs ----------

  /** Two clusters of one byte each and one free. */
  const TWO_BYTES: Vol := Vol(1, [0, 0, 3, EOC, 0], [[], [], [1], [2], [9]])

  const OPENED_FILE: Handle := Handle(2, 2, 0, 0, 2)

  lemma TwoBytes()
    ensures CursorOk(TWO_BYTES, OPENED_FILE, [2, 3]) && Writable(TWO_BYTES, OPENED_FILE) && BeforeLast(TWO_BYTES, OPENED_FILE, [2, 3])
    ensures Times(1, 1) == 1 && Times(2, 1) == 2 && Times(3, 1) == 3
    ensures FreeSet(TWO_BYTES.fat) == {4} && |FreeSet(TWO_BYTES.fat)| == 1
  {
    assert Times(1, 1) == 1 && Times(2, 1) == 2;
    QuotIs(0, 0, 1);
    assert FreeSet(TWO_BYTES.fat) == {4};
  }

  /** Three bytes written from the start are reported written, and lost. */
  lemma WriteFromStartFails()
    ensures var (v, h) := (TWO_BYTES, OPENED_FILE);
            && CursorOk(v, h, [2, 3]) && Writable(v, h)
            && WriteRun(v, h, [5, 6, 7]).count == 3
            && forall ch' :: !HoldsOver(v, h, [2, 3], [5, 6, 7], WriteRun(v, h, [5, 6, 7]), ch')
  {
    hide WriteRun, HoldsOver, BeforeLast;
    TwoBytes();
    WriteReports(TWO_BYTES, OPENED_FILE, [5, 6, 7], 2);
    WritePastEndIsWrong(TWO_BYTES, OPENED_FILE, [2, 3], [5, 6, 7]);
  }

  /** A seek to the end fails, and an append from there is reported written, and lost. */
  lemma SeekToEndThenAppendFails()
    ensures var v := TWO_BYTES;
            var (ok, h) := SeekRun(v, OPENED_FILE, 2);
            && !ok && h == Handle(2, 2, 0, 2, 2)
            && CursorOk(v, h, [2, 3]) && Writable(v, h)
            && WriteRun(v, h, [7]).count == 1
            && forall ch' :: !HoldsOver(v, h, [2, 3], [7], WriteRun(v, h, [7]), ch')
  {
    TwoBytes();
    SeekMovesCursor(TWO_BYTES, OPENED_FILE, [2, 3], 2);
    QuotIs(2, 2, 1);
    hide WriteRun, HoldsOver, SeekRun, BeforeLast;
    var h := SeekRun(TWO_BYTES, OPENED_FILE, 2).1;
    WriteReports(TWO_BYTES, h, [7], 2);
    AppendAtEndIsRightIff(TWO_BYTES, h, [2, 3], [7]);
  }

  /** So is one behind a read up to the end. */
  lemma ReadToEndThenAppendFails()
    ensures var v := TWO_BYTES;
            var (h, bytes) := ReadRun(v, OPENED_FILE, 2);
            && bytes == [1, 2] && h.cur == 0 && h.off == 2
            && CursorOk(v, h, [2, 3]) && Writable(v, h)
            && WriteRun(v, h, [7]).count == 1
            && forall ch' :: !HoldsOver(v, h, [2, 3], [7], WriteRun(v, h, [7]), ch')
  {
    TwoBytes();
    ReadMovesCursor(TWO_BYTES, OPENED_FILE, [2, 3], 2);
    ReadReturnsContent(TWO_BYTES, OPENED_FILE, [2, 3], 2);
    QuotIs(2, 2, 1);
    hide WriteRun, HoldsOver, ReadRun, BeforeLast;
    var h := ReadRun(TWO_BYTES, OPENED_FILE, 2).0;
    WriteReports(TWO_BYTES, h, [7], 2);
    AppendAtEndIsRightIff(TWO_BYTES, h, [2, 3], [7]);
  }

  /** A byte written over the first cluster is right, and the read behind it gives that byte again, not the next one. */
  lemma WriteThenReadRepeats()
    ensures var (v, h) := (TWO_BYTES, OPENED_FILE);
            && CursorOk(v, h, [2, 3]) && Writable(v, h) && WriteRight(v, h, [2, 3], [5])
            && var r := WriteRun(v, h, [5]);
               && VolOk(r.vol) && InRange(r.vol.fat, r.handle.cur) && r.handle.off == 1
               && ReadRun(r.vol, r.handle, 1).1 == [5] && r.vol.data[3] == [2]
  {
    TwoBytes();
    QuotIs(1, 1, 1);
    InsideIsRight(TWO_BYTES, OPENED_FILE, [2, 3], [5]);
    OneTurnIsPut(TWO_BYTES, OPENED_FILE, [5]);
    hide WriteRun, WriteRight;
    var r := WriteRun(TWO_BYTES, OPENED_FILE, [5]);
    assert r.vol.data[2] == [5];
    ReadRunUnfolds(r.vol, r.handle, 1);
  }
}
