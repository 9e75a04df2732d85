/** An open file: the methods of fat32_file_t, each leaving volume and handle as its value-level specification says. */
module OpenFile {
  import opened Arith
  import opened Bytes
  import opened FatTable
  import opened FileSpec
  import opened FileCursor
  import opened FileWrite
  import opened Volume

  /** memcpy into a buffer at a position. */
  method CopyInto(buffer: array<byte>, at: nat, chunk: seq<byte>)
    requires at + |chunk| <= buffer.Length
    modifies buffer
    ensures buffer[..] == old(buffer[..at]) + chunk + old(buffer[at + |chunk|..])
  {
    for i := 0 to |chunk|
      invariant buffer[..] == old(buffer[..at]) + chunk[..i] + old(buffer[at + i..])
    {
      buffer[at + i] := chunk[i];
    }
  }

  class File {
    const vol: MountedVolume
    var startCluster: nat
    var currentCluster: nat
    var clusterOffset: nat
    var fileOffset: nat
    var size: nat
    var isDir: bool

    constructor (vol: MountedVolume, start: nat, size: nat, isDir: bool)
      ensures this.vol == vol && this.isDir == isDir && H() == Handle(start, start, 0, 0, size)
    {
      this.vol := vol;
      startCluster, currentCluster, clusterOffset, fileOffset := start, start, 0, 0;
      this.size, this.isDir := size, isDir;
    }

    ghost function H(): Handle
      reads this
    {
      Handle(startCluster, currentCluster, clusterOffset, fileOffset, size)
    }

    method ClusterSize() returns (c: nat)
      requires vol.Valid()
      ensures c == vol.Abs().csize > 0
    {
      TimesIsProduct(vol.g.sectorsPerCluster, SECTOR);
      c := SECTOR * vol.g.sectorsPerCluster;
    }

    /** One turn of the read loop: take a chunk of at most n bytes, hop at a cluster's end. */
    method ReadTurn(n: nat) returns (chunk: seq<byte>)
      requires vol.Valid() && n > 0 && fileOffset < size && InRange(vol.Abs().fat, currentCluster)
      modifies `fileOffset, `clusterOffset, `currentCluster
      ensures H() == Advance(vol.Abs(), old(H()), |chunk|)
      ensures chunk == ChunkAt(vol.Abs(), old(H()), n) && |chunk| == ChunkSize(vol.Abs(), old(H()), n)
    {
      hide MountedVolume.Valid, MountedVolume.Abs, Times, Quot, Rem;
      var clusterSize := ClusterSize();
      QuotIsDivision(fileOffset, clusterSize);
      var offset := fileOffset % clusterSize;
      var k := Min(n, clusterSize - offset);
      if k > size - fileOffset {
        k := size - fileOffset;
      }
      var cluster := vol.ReadCluster(currentCluster);
      chunk := cluster[offset..offset + k];
      MoveBy(k);
    }

    /** Move the cursor by k bytes inside its cluster, and to the next cluster at its end. */
    method MoveBy(k: nat)
      requires vol.Valid() && InRange(vol.Abs().fat, currentCluster)
      modifies `fileOffset, `clusterOffset, `currentCluster
      ensures H() == Advance(vol.Abs(), old(H()), k)
    {
      hide MountedVolume.Valid, MountedVolume.Abs, Times, Quot, Rem;
      var clusterSize := ClusterSize();
      fileOffset := fileOffset + k;
      clusterOffset := clusterOffset + k;
      if clusterOffset >= clusterSize {
        currentCluster := vol.NextCluster(currentCluster);
        if currentCluster != 0 {
          clusterOffset := 0;
        }
      }
    }

    /** fat32_read into the front of a buffer; the rest of the buffer stays. */
    method Read(buffer: array<byte>, n: nat) returns (count: nat)
      requires vol.Valid() && n <= buffer.Length
      requires fileOffset < size ==> InRange(vol.Abs().fat, currentCluster)
      modifies this, buffer
      ensures isDir == old(isDir)
      ensures isDir ==> count == 0 && H() == old(H()) && buffer[..] == old(buffer[..])
      ensures !isDir ==>
                var (h, s) := ReadRun(vol.Abs(), old(H()), n);
                H() == h && count == |s| <= n && buffer[..] == s + old(buffer[..])[|s|..]
    {
      hide MountedVolume.Valid, MountedVolume.Abs, ReadRun, Pending, ChunkAt, Advance, ChunkSize;
      count := 0;
      if isDir {
        return;
      }
      ghost var v, h0, was, got := vol.Abs(), H(), buffer[..], [];
      PendingStart(v, h0, n);
      while count < n && fileOffset < size
        invariant vol.Valid() && vol.Abs() == v && !isDir
        invariant count == |got| <= n && buffer[..] == got + was[count..]
        invariant fileOffset < size ==> InRange(v.fat, currentCluster)
        invariant Pending(v, h0, n, H(), n - count, got)
      {
        PendingStep(v, h0, n, H(), n - count, got);
        var chunk := ReadTurn(n - count);
        CopyInto(buffer, count, chunk);
        count, got := count + |chunk|, got + chunk;
        assert buffer[..] == got + was[count..];
        if currentCluster == 0 {
          return;
        }
      }
      PendingDone(v, h0, n, H(), n - count, got);
    }

    /** The walk of fat32_seek from the start cluster, with a position of 32 bits. */
    method WalkTo(offset: nat) returns (found: bool, target: nat, position: nat)
      requires vol.Valid() && (startCluster == 0 || InRange(vol.Abs().fat, startCluster)) && offset < UINT32
      requires startCluster == 0 ==> offset < vol.Abs().csize
      requires SeekWalk(vol.Abs(), startCluster, 0, offset) != Wrapped
      ensures SeekWalk(vol.Abs(), startCluster, 0, offset) == if found then Arrived(target, position) else Stuck
      ensures found ==> position <= offset
    {
      hide MountedVolume.Valid, MountedVolume.Abs, Times, Quot, Rem, SeekWalk, Next;
      var clusterSize := ClusterSize();
      ghost var v := vol.Abs();
      target, position := startCluster, 0;
      while (position + clusterSize) % UINT32 <= offset
        invariant position <= offset && (target == 0 || InRange(v.fat, target))
        invariant target == 0 ==> offset < position + clusterSize < UINT32
        invariant SeekWalk(v, target, position, offset) == SeekWalk(v, startCluster, 0, offset)
        decreases offset - position
      {
        SeekWalkUnfolds(v, target, position, offset);
        target := vol.NextCluster(target);
        if target == 0 {
          return false, 0, 0;
        }
        position := (position + clusterSize) % UINT32;
      }
      SeekWalkUnfolds(v, target, position, offset);
      found := true;
    }

    /** fat32_seek. */
    method Seek(offset: nat) returns (ok: bool)
      requires vol.Valid() && (startCluster == 0 || InRange(vol.Abs().fat, startCluster)) && offset < UINT32
      requires startCluster == 0 ==> size < vol.Abs().csize
      requires offset <= size ==> SeekWalk(vol.Abs(), startCluster, 0, offset) != Wrapped
      modifies this
      ensures (ok, H()) == SeekRun(vol.Abs(), old(H()), offset) && isDir == old(isDir)
    {
      hide MountedVolume.Valid, MountedVolume.Abs, SeekWalk;
      if offset > size {
        return false;
      }
      fileOffset := offset;
      var target, position;
      ok, target, position := WalkTo(offset);
      if ok {
        currentCluster := target;
        clusterOffset := offset - position;
      }
    }

    /** fat32_close: clear the handle. */
    method Close()
      modifies this
      ensures H() == Handle(0, 0, 0, 0, 0) && !isDir
    {
      startCluster, currentCluster, clusterOffset, fileOffset, size := 0, 0, 0, 0, 0;
      isDir := false;
    }

    /** Link the free cluster behind the current one and mark it as the chain's end. */
    method Link(taken: nat)
      requires vol.Valid() && taken == FirstFree(vol.Abs().fat) != 0
      requires currentCluster == 0 || InRange(vol.Abs().fat, currentCluster)
      modifies vol, `startCluster, `currentCluster
      ensures vol.Valid() && (vol.Abs(), H()) == Extend(old(vol.Abs()), old(H()))
    {
      hide MountedVolume.Valid, MountedVolume.Abs;
      ExtendKeepsVolOk(vol.Abs(), H());
      if currentCluster != 0 {
        vol.SetFatEntry(currentCluster, taken);
      } else {
        startCluster := taken;
      }
      vol.SetFatEntry(taken, EOC);
      currentCluster := taken;
    }

    /** Read the current cluster, overwrite a part of it, write it back, and move the cursor. */
    method Overwrite(offset: nat, chunk: seq<byte>)
      requires vol.Valid() && InRange(vol.Abs().fat, currentCluster)
      requires offset == Rem(fileOffset, vol.Abs().csize) && offset + |chunk| <= vol.Abs().csize
      modifies vol, `fileOffset, `clusterOffset, `size
      ensures vol.Valid() && (vol.Abs(), H()) == Put(old(vol.Abs()), old(H()), chunk)
    {
      hide MountedVolume.Valid, MountedVolume.Abs, Rem;
      var cluster := vol.ReadCluster(currentCluster);
      cluster := cluster[..offset] + chunk + cluster[offset + |chunk|..];
      vol.WriteCluster(currentCluster, cluster);
      fileOffset := fileOffset + |chunk|;
      clusterOffset := clusterOffset + |chunk|;
      if fileOffset > size {
        size := fileOffset;
      }
    }

    /** fat32_write, with memory for the cluster buffer always available. */
    method Write(buf: seq<byte>) returns (ok: bool)
      requires vol.Valid() && (isDir || Writable(vol.Abs(), H()))
      requires fileOffset + |buf| < UINT32
      modifies this, vol
      ensures vol.Valid() && isDir == old(isDir)
      ensures isDir ==> !ok && H() == old(H()) && vol.Abs() == old(vol.Abs())
      ensures !isDir ==>
                var r := WriteRun(old(vol.Abs()), old(H()), buf);
                vol.Abs() == r.vol && H() == r.handle && (ok <==> r.count == |buf|)
    {
      hide MountedVolume.Valid, MountedVolume.Abs, WriteRun, Writing, Put, Extend, Rem;
      if isDir {
        return false;
      }
      var clusterSize := ClusterSize();
      ghost var v0, h0 := vol.Abs(), H();
      var written: nat := 0;
      WritingStart(v0, h0, buf);
      while written < |buf|
        invariant vol.Valid() && Writable(vol.Abs(), H()) && written <= |buf| && !isDir
        invariant vol.Abs().csize == clusterSize
        invariant Writing(v0, h0, buf, vol.Abs(), H(), written)
      {
        ghost var v, h := vol.Abs(), H();
        WritingStep(v0, h0, buf, v, h, written);
        QuotIsDivision(fileOffset, clusterSize);
        var offset := fileOffset % clusterSize;
        if offset == 0 && fileOffset >= size {
          var taken := vol.FindFreeCluster();
          if taken == 0 {
            return false;
          }
          Link(taken);
          ExtendKeepsVolOk(v, h);
        }
        var toWrite := Min(|buf| - written, clusterSize - offset);
        assert buf[written..][..toWrite] == buf[written..written + toWrite];
        Overwrite(offset, buf[written..written + toWrite]);
        written := written + toWrite;
      }
      WritingDone(v0, h0, buf, vol.Abs(), H());
      ok := true;
    }

    /** Free a chain entry by entry. */
    method FreeClusters(start: nat)
      requires vol.Valid() && (start == 0 || InRange(vol.Abs().fat, start))
      modifies vol
      ensures vol.Valid() && vol.Abs() == Freed(old(vol.Abs()), start)
    {
      hide MountedVolume.Valid, MountedVolume.Abs, FreeChain;
      ghost var v0 := vol.Abs();
      var cluster: nat := start;
      while cluster != 0 && cluster < EOC
        invariant vol.Valid() && vol.Abs() == v0.(fat := vol.Abs().fat)
        invariant cluster == 0 || InRange(vol.Abs().fat, cluster)
        invariant FreeChain(vol.Abs().fat, cluster) == FreeChain(v0.fat, start)
        decreases UsedSet(vol.Abs().fat), cluster != 0
      {
        FreeChainStep(vol.Abs().fat, cluster);
        var next := vol.NextCluster(cluster);
        vol.SetFatEntry(cluster, 0);
        cluster := next;
      }
      FreeChainStep(vol.Abs().fat, 0);
    }

    /** fat32_rewrite: free the chain, reset the cursor, and write. */
    method Rewrite(buf: seq<byte>) returns (ok: bool)
      requires vol.Valid() && (startCluster == 0 || InRange(vol.Abs().fat, startCluster))
      requires |buf| < UINT32
      modifies this, vol
      ensures vol.Valid() && isDir == old(isDir)
      ensures isDir ==> !ok && H() == old(H()) && vol.Abs() == old(vol.Abs())
      ensures !isDir ==>
                var r := RewriteRun(old(vol.Abs()), old(startCluster), buf);
                vol.Abs() == r.vol && H() == r.handle && (ok <==> r.count == |buf|)
    {
      if isDir {
        return false;
      }
      hide MountedVolume.Valid, MountedVolume.Abs, WriteRun, Freed;
      FreeClusters(startCluster);
      startCluster, currentCluster, size, fileOffset, clusterOffset := 0, 0, 0, 0, 0;
      ResetIsReady(vol.Abs());
      ok := Write(buf);
    }
  }
}
