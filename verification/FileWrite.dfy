/** fat32_write and fat32_rewrite: what they do to table, clusters and handle, and to the bytes of the file. */
module FileWrite {
  import opened Arith
  import opened Bytes
  import opened FatTable
  import opened FileCursor
  import opened FileSpec

  // ---------- writing ----------

  /** Take the first free cluster and link it behind the current one, or make it the file's first. */
  function Extend(v: Vol, h: Handle): (Vol, Handle)
    requires VolOk(v) && FirstFree(v.fat) != 0 && (h.cur == 0 || InRange(v.fat, h.cur))
  {
    var n := FirstFree(v.fat);
    var linked: Fat := if h.cur != 0 then v.fat[h.cur := n] else v.fat;
    (v.(fat := linked[n := EOC]), h.(start := if h.cur != 0 then h.start else n, cur := n))
  }

  /** The new cluster is the end of the chain, and the current cluster, if there is one, leads to it. */
  lemma ExtendMarksEnd(v: Vol, h: Handle)
    requires VolOk(v) && FirstFree(v.fat) != 0 && (h.cur == 0 || (InRange(v.fat, h.cur) && v.fat[h.cur] != 0))
    ensures var (w, k), n := Extend(v, h), FirstFree(v.fat);
            && k.cur == n && w.fat[n] == 0x0FFF_FFF8
            && (h.cur != 0 ==> w.fat[h.cur] == n)
            && forall c :: 2 <= c < |v.fat| && c != n && c != h.cur ==> w.fat[c] == v.fat[c]
  {
    FirstFreeIsLeast(v.fat);
  }

  /** Overwrite part of the current cluster and move the cursor behind it. */
  function Put(v: Vol, h: Handle, chunk: seq<byte>): (Vol, Handle)
    requires VolOk(v) && InRange(v.fat, h.cur) && Rem(h.off, v.csize) + |chunk| <= v.csize
  {
    var co := Rem(h.off, v.csize);
    var was := v.data[h.cur];
    (v.(data := v.data[h.cur := was[..co] + chunk + was[co + |chunk|..]]),
     h.(off := h.off + |chunk|, coff := h.coff + |chunk|, size := Max(h.size, h.off + |chunk|)))
  }

  predicate NeedsCluster(v: Vol, h: Handle)
    requires VolOk(v)
  {
    Rem(h.off, v.csize) == 0 && h.off >= h.size
  }

  /** What the code demands of a handle before writing: a cluster to write to, unless a new one is due. */
  predicate Writable(v: Vol, h: Handle) {
    && VolOk(v)
    && (InRange(v.fat, h.cur) || (h.cur == 0 && NeedsCluster(v, h)))
  }

  lemma ExtendKeepsVolOk(v: Vol, h: Handle)
    requires VolOk(v) && FirstFree(v.fat) != 0 && (h.cur == 0 || InRange(v.fat, h.cur))
    ensures VolOk(Extend(v, h).0) && InRange(Extend(v, h).0.fat, Extend(v, h).1.cur)
    ensures Extend(v, h).0.csize == v.csize && Extend(v, h).1.off == h.off && Extend(v, h).1.size == h.size
  {
  }

  /** The loop of fat32_write gives up when a cluster is due and none is free. */
  predicate Stopped(v: Vol, h: Handle, buf: seq<byte>)
    requires VolOk(v)
  {
    buf == [] || (NeedsCluster(v, h) && FirstFree(v.fat) == 0)
  }

  /** How many bytes one turn of the write loop takes. */
  function TurnSize(v: Vol, h: Handle, buf: seq<byte>): (k: nat)
    requires VolOk(v)
    ensures k <= |buf| && Rem(h.off, v.csize) + k <= v.csize && (buf != [] ==> k > 0)
  {
    Min(|buf|, v.csize - Rem(h.off, v.csize))
  }

  /** One turn: a new cluster if one is due, then as much of buf as the cluster takes. */
  function Turn(v: Vol, h: Handle, buf: seq<byte>): (r: (Vol, Handle))
    requires Writable(v, h) && !Stopped(v, h, buf)
    ensures Writable(r.0, r.1)
  {
    var (v1, h1) := if NeedsCluster(v, h) then Extend(v, h) else (v, h);
    assert VolOk(v1) && InRange(v1.fat, h1.cur) by { if NeedsCluster(v, h) { ExtendKeepsVolOk(v, h); } }
    Put(v1, h1, buf[..TurnSize(v, h, buf)])
  }

  datatype Written = Written(vol: Vol, handle: Handle, count: nat)

  /** The loop of fat32_write. */
  function WriteRun(v: Vol, h: Handle, buf: seq<byte>): (r: Written)
    requires Writable(v, h)
    ensures r.count <= |buf| && Writable(r.vol, r.handle)
    decreases |buf|
  {
    if Stopped(v, h, buf) then Written(v, h, 0)
    else
      var (w, h1) := Turn(v, h, buf);
      var k := TurnSize(v, h, buf);
      var r := WriteRun(w, h1, buf[k..]);
      r.(count := r.count + k)
  }

  /** A write loop that started at h0 on v0 has reached h on v with the first `written` bytes of buf done. */
  predicate Writing(v0: Vol, h0: Handle, buf: seq<byte>, v: Vol, h: Handle, written: nat)
    requires Writable(v0, h0) && Writable(v, h) && written <= |buf|
  {
    var r := WriteRun(v, h, buf[written..]);
    WriteRun(v0, h0, buf) == r.(count := written + r.count)
  }

  lemma WritingStart(v: Vol, h: Handle, buf: seq<byte>)
    requires Writable(v, h)
    ensures Writing(v, h, buf, v, h, 0)
  {
  }

  lemma WritingStep(v0: Vol, h0: Handle, buf: seq<byte>, v: Vol, h: Handle, written: nat)
    requires Writable(v0, h0) && Writable(v, h) && written < |buf| && Writing(v0, h0, buf, v, h, written)
    ensures NeedsCluster(v, h) && FirstFree(v.fat) == 0 ==> WriteRun(v0, h0, buf) == Written(v, h, written)
    ensures !(NeedsCluster(v, h) && FirstFree(v.fat) == 0) ==>
              var rest := buf[written..];
              var (w, h1) := Turn(v, h, rest);
              && Writing(v0, h0, buf, w, h1, written + TurnSize(v, h, rest))
              && w.csize == v.csize
              && (w, h1) == (var (v1, h0) := if NeedsCluster(v, h) then Extend(v, h) else (v, h);
                             assert InRange(v1.fat, h0.cur) && VolOk(v1) by { if NeedsCluster(v, h) { ExtendKeepsVolOk(v, h); } }
                             Put(v1, h0, rest[..TurnSize(v, h, rest)]))
  {
  }

  lemma WritingDone(v0: Vol, h0: Handle, buf: seq<byte>, v: Vol, h: Handle)
    requires Writable(v0, h0) && Writable(v, h) && Writing(v0, h0, buf, v, h, |buf|)
    ensures WriteRun(v0, h0, buf) == Written(v, h, |buf|)
  {
  }

  // ---------- writing at the last cluster ----------

  /** c with the bytes x put over it from position p on, growing it if x reaches further. */
  function WriteAt(c: seq<byte>, p: nat, x: seq<byte>): (r: seq<byte>)
    requires p <= |c|
    ensures |r| == Max(|c|, p + |x|)
  {
    c[..p] + x + (if p + |x| < |c| then c[p + |x|..] else [])
  }

  lemma WriteAtByte(c: seq<byte>, p: nat, x: seq<byte>, k: nat)
    requires p <= |c| && k < |x|
    ensures p + k < |WriteAt(c, p, x)| && WriteAt(c, p, x)[p + k] == x[k]
  {
  }

  lemma WriteAtNothing(c: seq<byte>, p: nat)
    requires p <= |c|
    ensures WriteAt(c, p, []) == c
  {
  }

  lemma WriteAtFresh(x: seq<byte>)
    ensures WriteAt([], 0, x) == x
  {
  }

  lemma WriteAtTwice(c: seq<byte>, p: nat, x: seq<byte>, y: seq<byte>)
    requires p <= |c|
    ensures WriteAt(WriteAt(c, p, x), p + |x|, y) == WriteAt(c, p, x + y)
  {
  }

  lemma WriteAtHead(a: seq<byte>, b: seq<byte>, p: nat, x: seq<byte>)
    requires p + |x| <= |a|
    ensures WriteAt(a + b, p, x) == a[..p] + x + a[p + |x|..] + b
  {
  }

  lemma WriteAtTail(a: seq<byte>, b: seq<byte>, p: nat, x: seq<byte>)
    requires p <= |b|
    ensures WriteAt(a + b, |a| + p, x) == a + WriteAt(b, p, x)
  {
  }

  lemma WriteAtPrefix(c: seq<byte>, size: nat, p: nat, x: seq<byte>)
    requires p <= size <= |c| && p + |x| <= |c|
    ensures WriteAt(c, p, x)[..Max(size, p + |x|)] == WriteAt(c[..size], p, x)
  {
  }

  lemma {:induction false} ChainBytesFramed(v: Vol, w: Vol, ch: seq<nat>)
    requires VolOk(v) && VolOk(w) && v.csize == w.csize
    requires AllInRange(v.fat, ch) && AllInRange(w.fat, ch)
    requires forall i :: 0 <= i < |ch| ==> v.data[ch[i]] == w.data[ch[i]]
    ensures ChainBytes(v, ch) == ChainBytes(w, ch)
  {
    if ch != [] {
      assert forall i :: 0 <= i < |ch[1..]| ==> ch[1..][i] == ch[i + 1];
      ChainBytesFramed(v, w, ch[1..]);
    }
  }

  lemma {:induction false} ChainBytesAppend(v: Vol, ch: seq<nat>, n: nat)
    requires VolOk(v) && AllInRange(v.fat, ch) && InRange(v.fat, n)
    ensures ChainBytes(v, ch + [n]) == ChainBytes(v, ch) + v.data[n]
  {
    if ch == [] {
      assert ch + [n] == [n];
      assert ChainBytes(v, [n][1..]) == [];
    } else {
      ChainBytesAppend(v, ch[1..], n);
      assert (ch + [n])[1..] == ch[1..] + [n];
    }
  }

  /** Overwriting part of block q of a repetition-free chain overwrites that part of the chain's bytes. */
  lemma {:induction false} BlockUpdate(v: Vol, w: Vol, ch: seq<nat>, q: nat, co: nat, chunk: seq<byte>)
    requires VolOk(v) && AllInRange(v.fat, ch) && q < |ch| && co + |chunk| <= v.csize
    requires forall i, j :: 0 <= i < j < |ch| ==> ch[i] != ch[j]
    requires VolOk(w) && w.fat == v.fat && w.csize == v.csize
    requires w.data == v.data[ch[q] := v.data[ch[q]][..co] + chunk + v.data[ch[q]][co + |chunk|..]]
    ensures Times(q, v.csize) + v.csize <= Times(|ch|, v.csize)
    ensures ChainBytes(w, ch) == WriteAt(ChainBytes(v, ch), Times(q, v.csize) + co, chunk)
  {
    hide WriteAt, FatOk;
    TimesMono(q + 1, |ch|, v.csize);
    var rest := ch[1..];
    assert forall i :: 0 <= i < |rest| ==> rest[i] == ch[i + 1];
    if q == 0 {
      ChainBytesFramed(v, w, rest);
      WriteAtHead(v.data[ch[0]], ChainBytes(v, rest), co, chunk);
    } else {
      BlockUpdate(v, w, rest, q - 1, co, chunk);
      WriteAtTail(v.data[ch[0]], ChainBytes(v, rest), Times(q - 1, v.csize) + co, chunk);
    }
  }

  /** Where fat32_write is right: at the end of the file, or inside its last cluster. */
  predicate WriteReady(v: Vol, h: Handle, ch: seq<nat>) {
    && VolOk(v)
    && Chained(v.fat, h.start, ch)
    && h.off <= h.size <= Times(|ch|, v.csize)
    && (h.off < h.size ==> h.coff == Rem(h.off, v.csize))
    && if ch == [] then h.cur == 0
       else && h.cur == ch[|ch| - 1]
            && Times(|ch| - 1, v.csize) < h.size
            && Times(|ch| - 1, v.csize) <= h.off
  }

  /** The same with room left in the last cluster, which may be a fresh one behind the file's end. */
  predicate PutReady(v: Vol, h: Handle, ch: seq<nat>) {
    && VolOk(v)
    && IsChain(v.fat, ch)
    && h.start == ch[0] && h.cur == ch[|ch| - 1]
    && h.off <= h.size
    && Times(|ch| - 1, v.csize) <= h.off < Times(|ch|, v.csize)
    && h.size <= Times(|ch|, v.csize)
    && (h.off < h.size ==> h.coff == Rem(h.off, v.csize))
  }

  lemma ReadyIsWritable(v: Vol, h: Handle, ch: seq<nat>)
    requires WriteReady(v, h, ch)
    ensures Writable(v, h)
    ensures !NeedsCluster(v, h) ==> PutReady(v, h, ch)
    ensures NeedsCluster(v, h) ==> h.off == h.size == Times(|ch|, v.csize)
  {
    if ch != [] {
      if h.off < Times(|ch|, v.csize) {
        QuotIs(h.off, |ch| - 1, v.csize);
      } else {
        QuotIs(h.off, |ch|, v.csize);
      }
    }
  }

  /** Linking the first free cluster behind a chain gives the longer chain and touches no other entry. */
  lemma ExtendLinks(v: Vol, h: Handle, ch: seq<nat>)
    requires VolOk(v) && FirstFree(v.fat) != 0
    requires Chained(v.fat, h.start, ch) && h.cur == if ch == [] then 0 else ch[|ch| - 1]
    ensures var n := FirstFree(v.fat);
            var (w, h1) := Extend(v, h);
            && n in FreeSet(v.fat) && n !in ch
            && VolOk(w) && w == v.(fat := w.fat)
            && IsChain(w.fat, ch + [n])
            && h1 == h.(start := (ch + [n])[0], cur := n)
            && (forall c :: 0 <= c < |v.fat| && c !in ch + [n] ==> w.fat[c] == v.fat[c])
            && FreeSet(w.fat) == FreeSet(v.fat) - {n}
  {
    FirstFreeIsLeast(v.fat);
    ChainIsUsed(v.fat, ch);
    ExtendKeepsVolOk(v, h);
    forall i | 0 <= i < |ch| - 1 ensures ch[i] != ch[|ch| - 1] {
      ChainIsAcyclic(v.fat, ch, i, |ch| - 1);
    }
  }

  lemma ExtendStep(v: Vol, h: Handle, ch: seq<nat>)
    requires WriteReady(v, h, ch) && NeedsCluster(v, h) && FirstFree(v.fat) != 0
    ensures var (w, h1) := Extend(v, h);
            && PutReady(w, h1, ch + [FirstFree(v.fat)])
            && Content(w, ch + [FirstFree(v.fat)], h.size) == Content(v, ch, h.size)
  {
    ReadyIsWritable(v, h, ch);
    ExtendLinks(v, h, ch);
    var w := Extend(v, h).0;
    ChainBytesFramed(v, w, ch);
    ChainBytesAppend(w, ch, FirstFree(v.fat));
  }

  lemma PutStep(v: Vol, h: Handle, ch: seq<nat>, chunk: seq<byte>)
    requires PutReady(v, h, ch) && 0 < |chunk| && Rem(h.off, v.csize) + |chunk| <= v.csize
    ensures var (w, h1) := Put(v, h, chunk);
            && WriteReady(w, h1, ch)
            && w == v.(data := w.data)
            && (forall c :: 0 <= c < |v.fat| && c !in ch ==> w.data[c] == v.data[c])
            && Content(w, ch, h1.size) == WriteAt(Content(v, ch, h.size), h.off, chunk)
  {
    var q, co := |ch| - 1, Rem(h.off, v.csize);
    QuotIs(h.off, q, v.csize);
    var (w, h1) := Put(v, h, chunk);
    forall i, j | 0 <= i < j < |ch| ensures ch[i] != ch[j] {
      ChainIsAcyclic(v.fat, ch, i, j);
    }
    BlockUpdate(v, w, ch, q, co, chunk);
    WriteAtPrefix(ChainBytes(v, ch), h.size, h.off, chunk);
    if h1.off < Times(|ch|, v.csize) {
      QuotIs(h1.off, q, v.csize);
    }
  }

  /** The chain after one turn. */
  function TurnChain(v: Vol, h: Handle, ch: seq<nat>): seq<nat>
    requires VolOk(v)
  {
    if NeedsCluster(v, h) then ch + [FirstFree(v.fat)] else ch
  }

  /** The chain of the file once the write loop has ended. */
  function WriteChain(v: Vol, h: Handle, ch: seq<nat>, buf: seq<byte>): seq<nat>
    requires Writable(v, h)
    decreases |buf|
  {
    if Stopped(v, h, buf) then ch
    else
      var (w, h1) := Turn(v, h, buf);
      WriteChain(w, h1, TurnChain(v, h, ch), buf[TurnSize(v, h, buf)..])
  }

  /** One turn keeps the handle ready and writes its chunk into the content. */
  lemma TurnWrites(v: Vol, h: Handle, ch: seq<nat>, buf: seq<byte>)
    requires WriteReady(v, h, ch) && Writable(v, h) && !Stopped(v, h, buf)
    ensures var (w, h1) := Turn(v, h, buf);
            var (k, ch1) := (TurnSize(v, h, buf), TurnChain(v, h, ch));
            && WriteReady(w, h1, ch1)
            && w.csize == v.csize && |w.fat| == |v.fat|
            && h1.off == h.off + k && h1.size == Max(h.size, h.off + k)
            && Content(w, ch1, h1.size) == WriteAt(Content(v, ch, h.size), h.off, buf[..k])
  {
    hide Content, ChainBytes, WriteAt, Times, Quot, Rem;
    ReadyIsWritable(v, h, ch);
    var chunk := buf[..TurnSize(v, h, buf)];
    if NeedsCluster(v, h) {
      ExtendLinks(v, h, ch);
      ExtendStep(v, h, ch);
      var (v1, h1) := Extend(v, h);
      PutStep(v1, h1, ch + [FirstFree(v.fat)], chunk);
    } else {
      PutStep(v, h, ch, chunk);
    }
  }

  /** One turn takes at most the first free cluster and leaves everything off the chain alone. */
  lemma TurnFrame(v: Vol, h: Handle, ch: seq<nat>, buf: seq<byte>)
    requires WriteReady(v, h, ch) && Writable(v, h) && !Stopped(v, h, buf)
    ensures var w := Turn(v, h, buf).0;
            var ch1 := TurnChain(v, h, ch);
            && |w.fat| == |v.fat| == |w.data|
            && (forall c :: 0 <= c < |v.fat| && c !in ch1 ==> w.fat[c] == v.fat[c] && w.data[c] == v.data[c])
            && (forall c :: c in ch1 ==> c in ch || c in FreeSet(v.fat))
            && FreeSet(w.fat) <= FreeSet(v.fat)
            && |FreeSet(v.fat)| == |FreeSet(w.fat)| + |ch1| - |ch|
  {
    hide Content, ChainBytes, WriteAt, Times, Quot, Rem;
    ReadyIsWritable(v, h, ch);
    var chunk := buf[..TurnSize(v, h, buf)];
    if NeedsCluster(v, h) {
      ExtendLinks(v, h, ch);
      ExtendStep(v, h, ch);
      var (v1, h1) := Extend(v, h);
      PutStep(v1, h1, ch + [FirstFree(v.fat)], chunk);
    } else {
      PutStep(v, h, ch, chunk);
    }
  }

  /**
   fat32_write at the last cluster or the end of a file leaves a handle from which the next write is
   right again: the chain has only grown, and it is exactly as long as the new size needs.
   */
  lemma {:induction false} WriteKeepsReady(v: Vol, h: Handle, ch: seq<nat>, buf: seq<byte>)
    requires WriteReady(v, h, ch) && Writable(v, h)
    ensures var (r, ch') := (WriteRun(v, h, buf), WriteChain(v, h, ch, buf));
            && WriteReady(r.vol, r.handle, ch')
            && ch <= ch'
            && r.vol.csize == v.csize && |r.vol.fat| == |v.fat|
            && r.handle.off == h.off + r.count && r.handle.size == Max(h.size, h.off + r.count)
    decreases |buf|
  {
    hide Turn, Content, WriteAt, Times, Quot, Rem;
    if !Stopped(v, h, buf) {
      TurnWrites(v, h, ch, buf);
      var (w, h1) := Turn(v, h, buf);
      WriteKeepsReady(w, h1, TurnChain(v, h, ch), buf[TurnSize(v, h, buf)..]);
    }
  }

  /** The bytes it reports as written are the file's bytes from the old cursor on; all others stay. */
  lemma {:induction false} WriteReplacesBytes(v: Vol, h: Handle, ch: seq<nat>, buf: seq<byte>)
    requires WriteReady(v, h, ch) && Writable(v, h)
    requires WriteReady(WriteRun(v, h, buf).vol, WriteRun(v, h, buf).handle, WriteChain(v, h, ch, buf))
    ensures var r := WriteRun(v, h, buf);
            Content(r.vol, WriteChain(v, h, ch, buf), r.handle.size)
              == WriteAt(Content(v, ch, h.size), h.off, buf[..r.count])
    decreases |buf|
  {
    hide Turn, TurnChain, Content, WriteAt, Times, Quot, Rem;
    var c := Content(v, ch, h.size);
    if Stopped(v, h, buf) {
      WriteAtNothing(c, h.off);
    } else {
      TurnWrites(v, h, ch, buf);
      var (w, h1) := Turn(v, h, buf);
      var k := TurnSize(v, h, buf);
      var rest := buf[k..];
      WriteReplacesBytes(w, h1, TurnChain(v, h, ch), rest);
      var n := WriteRun(w, h1, rest).count;
      WriteAtTwice(c, h.off, buf[..k], rest[..n]);
      assert buf[..k] + rest[..n] == buf[..k + n];
    }
  }

  /** It changes no entry and no cluster outside the file's chain, and new clusters come from the free ones. */
  lemma {:induction false} WriteFrame(v: Vol, h: Handle, ch: seq<nat>, buf: seq<byte>)
    requires WriteReady(v, h, ch) && Writable(v, h)
    ensures var (w, ch') := (WriteRun(v, h, buf).vol, WriteChain(v, h, ch, buf));
            && |w.fat| == |v.fat| == |w.data|
            && (forall c :: 0 <= c < |v.fat| && c !in ch' ==> w.fat[c] == v.fat[c] && w.data[c] == v.data[c])
            && (forall c :: c in ch' ==> c in ch || c in FreeSet(v.fat))
            && FreeSet(w.fat) <= FreeSet(v.fat)
            && |FreeSet(v.fat)| == |FreeSet(w.fat)| + |ch'| - |ch|
    decreases |buf|
  {
    hide Turn, Content, WriteAt, Times, Quot, Rem;
    if !Stopped(v, h, buf) {
      TurnWrites(v, h, ch, buf);
      TurnFrame(v, h, ch, buf);
      var (w, h1) := Turn(v, h, buf);
      WriteFrame(w, h1, TurnChain(v, h, ch), buf[TurnSize(v, h, buf)..]);
      WriteKeepsReady(w, h1, TurnChain(v, h, ch), buf[TurnSize(v, h, buf)..]);
    }
  }

  /** It only falls short when every cluster is taken and the last one is full. */
  lemma {:induction false} WriteStopsFull(v: Vol, h: Handle, ch: seq<nat>, buf: seq<byte>)
    requires WriteReady(v, h, ch) && Writable(v, h) && WriteRun(v, h, buf).count < |buf|
    ensures var (r, ch') := (WriteRun(v, h, buf), WriteChain(v, h, ch, buf));
            && FreeSet(r.vol.fat) == {} && |ch'| == |ch| + |FreeSet(v.fat)|
            && r.handle.off == r.handle.size == Times(|ch'|, v.csize)
    decreases |buf|
  {
    if Stopped(v, h, buf) {
      FirstFreeIsLeast(v.fat);
      ReadyIsWritable(v, h, ch);
    } else {
      hide Turn, Content, WriteAt;
      TurnWrites(v, h, ch, buf);
      TurnFrame(v, h, ch, buf);
      var (w, h1) := Turn(v, h, buf);
      WriteStopsFull(w, h1, TurnChain(v, h, ch), buf[TurnSize(v, h, buf)..]);
    }
  }

  /** The chain is as long as the size needs. */
  lemma ReadyHasCeil(v: Vol, h: Handle, ch: seq<nat>)
    requires WriteReady(v, h, ch)
    ensures |ch| == Ceil(h.size, v.csize)
  {
    CeilIs(h.size, |ch|, v.csize);
  }

  /** The counts that decide success: sizes, chain lengths and free clusters before and after. */
  lemma WriteCounts(v: Vol, h: Handle, ch: seq<nat>, buf: seq<byte>)
    requires WriteReady(v, h, ch) && Writable(v, h)
    ensures var (r, ch') := (WriteRun(v, h, buf), WriteChain(v, h, ch, buf));
            && VolOk(v) && h.off <= h.size
            && r.handle.off == h.off + r.count && r.handle.size == Max(h.size, h.off + r.count)
            && |ch'| == Ceil(r.handle.size, v.csize)
            && |FreeSet(v.fat)| == |FreeSet(r.vol.fat)| + |ch'| - |ch|
            && (r.count < |buf| ==>
                  |FreeSet(r.vol.fat)| == 0 && r.handle.off == r.handle.size == Times(|ch'|, v.csize))
  {
    WriteKeepsReady(v, h, ch, buf);
    ReadyHasCeil(WriteRun(v, h, buf).vol, WriteRun(v, h, buf).handle, WriteChain(v, h, ch, buf));
    hide WriteRun, WriteChain, Ceil, Times, WriteReady, Writable;
    WriteFrame(v, h, ch, buf);
    if WriteRun(v, h, buf).count < |buf| {
      WriteStopsFull(v, h, ch, buf);
    }
  }

  /** fat32_write returns true exactly when the volume has a cluster for every block that is missing. */
  lemma WriteSucceedsIffFits(v: Vol, h: Handle, ch: seq<nat>, buf: seq<byte>)
    requires WriteReady(v, h, ch) && Writable(v, h)
    ensures WriteRun(v, h, buf).count == |buf| <==>
            Ceil(Max(h.size, h.off + |buf|), v.csize) <= |ch| + |FreeSet(v.fat)|
  {
    hide WriteReady, Writable, WriteRun, WriteChain, FreeSet, Ceil, Times;
    WriteCounts(v, h, ch, buf);
    var r, ch' := WriteRun(v, h, buf), WriteChain(v, h, ch, buf);
    CountsDecide(h.size, h.off, |buf|, r.count, |ch|, |ch'|, |FreeSet(v.fat)|, |FreeSet(r.vol.fat)|, v.csize);
  }

  /** From n to n' blocks out of f free ones: all of len bytes went in iff the blocks of the new size were there. */
  lemma CountsDecide(size: nat, off: nat, len: nat, count: nat, n: nat, n': nat, f: nat, f': nat, d: nat)
    requires d > 0 && off <= size && count <= len && f == f' + n' - n && n' == Ceil(Max(size, off + count), d)
    requires count < len ==> f' == 0 && off + count == Max(size, off + count) == Times(n', d)
    ensures count == len <==> Ceil(Max(size, off + len), d) <= n + f
  {
    hide Ceil, Times;
    CeilFits(Max(size, off + len), n + f, d);
  }

  // ---------- two writes as one ----------

  lemma PutTwice(v: Vol, h: Handle, x: seq<byte>, y: seq<byte>)
    requires VolOk(v) && InRange(v.fat, h.cur) && x != [] && y != []
    requires Rem(h.off, v.csize) + |x| + |y| <= v.csize
    ensures var (w, h1) := Put(v, h, x);
            && Rem(h1.off, v.csize) == Rem(h.off, v.csize) + |x|
            && Put(w, h1, y) == Put(v, h, x + y)
  {
    var (w, h1) := Put(v, h, x);
    var co := Rem(h.off, v.csize);
    QuotRem(h.off, v.csize);
    QuotIs(h1.off, Quot(h.off, v.csize), v.csize);
    var once, twice := Put(v, h, x + y).0.data[h.cur], Put(w, h1, y).0.data[h.cur];
    forall i | 0 <= i < v.csize ensures once[i] == twice[i] {
    }
    assert once == twice;
    assert w.data[h.cur := twice] == v.data[h.cur := once];
  }

  /** A write that ends inside a cluster and the first turn of the next one are one turn together. */
  lemma TurnsJoin(v: Vol, h: Handle, a: seq<byte>, b: seq<byte>)
    requires Writable(v, h) && !Stopped(v, h, a) && b != []
    requires Rem(h.off, v.csize) + |a| < v.csize
    ensures Writable(v, h) && !Stopped(v, h, a + b)
    ensures var (w, h1) := Turn(v, h, a);
            && TurnSize(v, h, a) == |a|
            && !NeedsCluster(w, h1)
            && TurnSize(v, h, a + b) == |a| + TurnSize(w, h1, b)
            && Turn(w, h1, b) == Turn(v, h, a + b)
  {
    var (v1, h0) := if NeedsCluster(v, h) then Extend(v, h) else (v, h);
    if NeedsCluster(v, h) {
      ExtendKeepsVolOk(v, h);
    }
    var k := Min(|b|, v.csize - Rem(h.off, v.csize) - |a|);
    PutTwice(v1, h0, a, b[..k]);
    assert a[..|a|] == a;
    assert (a + b)[..|a| + k] == a + b[..k];
  }

  /**
   Two successive writes leave exactly the state of one write of the concatenation; if the first one
   runs out of clusters, the second part would not have been written either.
   */
  lemma {:induction false} WriteConcat(v: Vol, h: Handle, a: seq<byte>, b: seq<byte>)
    requires Writable(v, h)
    ensures var r := WriteRun(v, h, a);
            WriteRun(v, h, a + b) ==
            if r.count < |a| then r
            else var r2 := WriteRun(r.vol, r.handle, b); r2.(count := |a| + r2.count)
    decreases |a|
  {
    hide Put, Extend, Rem, NeedsCluster;
    if a == [] {
      assert a + b == b;
    } else if b == [] {
      assert a + b == a;
      WriteNothingLeft(v, h, a);
    } else if !Stopped(v, h, a) {
      var k := TurnSize(v, h, a);
      var (w, h1) := Turn(v, h, a);
      if Rem(h.off, v.csize) + |a| < v.csize {
        TurnsJoin(v, h, a, b);
        assert a[k..] == [];
        assert (a + b)[TurnSize(v, h, a + b)..] == b[TurnSize(w, h1, b)..];
      } else {
        assert (a + b)[..k] == a[..k];
        assert (a + b)[k..] == a[k..] + b;
        WriteConcat(w, h1, a[k..], b);
      }
    }
  }

  lemma WriteNothingLeft(v: Vol, h: Handle, a: seq<byte>)
    requires Writable(v, h)
    ensures var r := WriteRun(v, h, a); WriteRun(r.vol, r.handle, []) == r.(count := 0)
  {
  }

  // ---------- replacing a whole file ----------

  const RESET: Handle := Handle(0, 0, 0, 0, 0)

  /** The volume once fat32_rewrite has freed the old chain. */
  function Freed(v: Vol, start: nat): (w: Vol)
    requires VolOk(v) && (start == 0 || InRange(v.fat, start))
    ensures VolOk(w) && w.csize == v.csize && |w.fat| == |v.fat| && w.data == v.data
  {
    v.(fat := FreeChain(v.fat, start))
  }

  lemma ResetIsReady(v: Vol)
    requires VolOk(v)
    ensures WriteReady(v, RESET, []) && Writable(v, RESET) && Content(v, [], 0) == []
  {
  }

  function RewriteRun(v: Vol, start: nat, buf: seq<byte>): (r: Written)
    requires VolOk(v) && (start == 0 || InRange(v.fat, start))
    ensures VolOk(r.vol) && r.count <= |buf|
  {
    ResetIsReady(Freed(v, start));
    WriteRun(Freed(v, start), RESET, buf)
  }

  /** The chain of a file after fat32_rewrite. */
  function RewriteChain(v: Vol, start: nat, buf: seq<byte>): seq<nat>
    requires VolOk(v) && (start == 0 || InRange(v.fat, start))
  {
    ResetIsReady(Freed(v, start));
    WriteChain(Freed(v, start), RESET, [], buf)
  }

  /** Writing a file from nothing. */
  lemma WriteFromReset(w: Vol, buf: seq<byte>)
    requires VolOk(w) && WriteReady(w, RESET, []) && Writable(w, RESET)
    ensures var (r, ch') := (WriteRun(w, RESET, buf), WriteChain(w, RESET, [], buf));
            && (r.count == |buf| <==> Ceil(|buf|, w.csize) <= |FreeSet(w.fat)|)
            && (r.count < |buf| ==> r.count == Times(|FreeSet(w.fat)|, w.csize))
            && r.handle.size == r.handle.off == r.count
            && WriteReady(r.vol, r.handle, ch')
            && |ch'| == Ceil(r.count, w.csize)
            && Content(r.vol, ch', r.count) == buf[..r.count]
            && |FreeSet(r.vol.fat)| + |ch'| == |FreeSet(w.fat)|
  {
    hide WriteRun, WriteChain, Writable, WriteReady, WriteAt, Ceil, Times, FreeSet, Content;
    var r, ch' := WriteRun(w, RESET, buf), WriteChain(w, RESET, [], buf);
    WriteKeepsReady(w, RESET, [], buf);
    WriteReplacesBytes(w, RESET, [], buf);
    WriteFrame(w, RESET, [], buf);
    WriteSucceedsIffFits(w, RESET, [], buf);
    WriteAtFresh(buf[..r.count]);
    ReadyHasCeil(r.vol, r.handle, ch');
    if r.count < |buf| {
      WriteStopsFull(w, RESET, [], buf);
    }
  }

  lemma FreedCounts(v: Vol, start: nat, ch: seq<nat>)
    requires VolOk(v) && Chained(v.fat, start, ch)
    ensures |FreeSet(Freed(v, start).fat)| == |FreeSet(v.fat)| + |ch|
    ensures forall c :: 0 <= c < |v.fat| ==> Freed(v, start).fat[c] == if c in ch then 0 else v.fat[c]
  {
    if ch != [] {
      FreeChainFreesChain(v.fat, ch);
      FreeChainReturns(v.fat, ch);
    }
  }

  /**
   fat32_rewrite replaces the whole file. It succeeds exactly when the blocks of buf fit into the free
   clusters and the file's old ones; otherwise the file holds the longest prefix of whole clusters that
   fits. Either way the chain is as long as the size needs and no cluster is lost or gained.
   */
  lemma RewriteReplacesFile(v: Vol, start: nat, ch: seq<nat>, buf: seq<byte>)
    requires VolOk(v) && Chained(v.fat, start, ch)
    ensures var (r, ch') := (RewriteRun(v, start, buf), RewriteChain(v, start, buf));
            && (r.count == |buf| <==> Ceil(|buf|, v.csize) <= |FreeSet(v.fat)| + |ch|)
            && (r.count < |buf| ==> r.count == Times(|FreeSet(v.fat)| + |ch|, v.csize))
            && r.handle.size == r.handle.off == r.count
            && WriteReady(r.vol, r.handle, ch')
            && |ch'| == Ceil(r.count, v.csize)
            && Content(r.vol, ch', r.count) == buf[..r.count]
            && |FreeSet(r.vol.fat)| + |ch'| == |FreeSet(v.fat)| + |ch|
  {
    hide WriteRun, WriteChain, WriteReady, Writable, Freed, Content, Ceil, Times;
    ResetIsReady(Freed(v, start));
    FreedCounts(v, start, ch);
    WriteFromReset(Freed(v, start), buf);
  }

  /** It touches no cluster of the volume that was neither free nor its own. */
  lemma RewriteFrame(v: Vol, start: nat, ch: seq<nat>, buf: seq<byte>)
    requires VolOk(v) && Chained(v.fat, start, ch)
    ensures var (w, ch') := (RewriteRun(v, start, buf).vol, RewriteChain(v, start, buf));
            && w.csize == v.csize && |w.fat| == |v.fat| == |w.data|
            && (forall c :: c in ch' ==> c in ch || c in FreeSet(v.fat))
            && (forall c :: 0 <= c < |v.fat| && c !in ch && c !in ch' ==>
                  w.fat[c] == v.fat[c] && w.data[c] == v.data[c])
            && (forall c :: c in ch && c !in ch' ==> w.fat[c] == 0)
  {
    hide WriteRun, WriteChain, Freed, Times;
    var w := Freed(v, start);
    ResetIsReady(w);
    FreedCounts(v, start, ch);
    WriteKeepsReady(w, RESET, [], buf);
    WriteFrame(w, RESET, [], buf);
  }
}
