/** What open files are for their users: a map from handles to byte sequences with an offset, and a count of free clusters. */
module PlainFiles {
  import opened Arith
  import opened Bytes
  import opened FileWrite
  import R = Runs

  datatype PlainFile = PlainFile(bytes: seq<byte>, off: nat)

  datatype Plain = Plain(files: map<nat, PlainFile>, free: nat)

  /** A call as a plain file system sees it: an open brings the file's bytes, a change of the tree takes clusters. */
  datatype Deed =
    | Opens(fd: nat, bytes: seq<byte>)
    | Reads(fd: nat, n: nat)
    | Seeks(fd: nat, offset: nat)
    | Writes(fd: nat, buf: seq<byte>)
    | Rewrites(fd: nat, buf: seq<byte>)
    | Closes(fd: nat)
    | Changes(taken: nat, ok: bool)

  /** How many of n bytes from offset off on lie below the end of so many clusters. */
  function Fitting(clusters: nat, csize: nat, off: nat, n: nat): (k: nat)
    ensures k <= n
  {
    if off + n <= Times(clusters, csize) then n else Max(0, Times(clusters, csize) - off)
  }

  /** What is free when a file that had size bytes has size' bytes. */
  function Left(free: nat, size: nat, size': nat, csize: nat): nat
    requires csize > 0
  {
    Max(0, free + Ceil(size, csize) - Ceil(size', csize))
  }

  function Write(p: Plain, csize: nat, f: nat, buf: seq<byte>): (Plain, R.Reply)
    requires csize > 0 && f in p.files && p.files[f].off <= |p.files[f].bytes|
  {
    var PlainFile(bytes, off) := p.files[f];
    var k := Fitting(p.free + Ceil(|bytes|, csize), csize, off, |buf|);
    var bytes' := WriteAt(bytes, off, buf[..k]);
    (Plain(p.files[f := PlainFile(bytes', off + k)], Left(p.free, |bytes|, |bytes'|, csize)), R.Done(k == |buf|))
  }

  function Rewrite(p: Plain, csize: nat, f: nat, buf: seq<byte>): (Plain, R.Reply)
    requires csize > 0 && f in p.files
  {
    var size := |p.files[f].bytes|;
    var k := Fitting(p.free + Ceil(size, csize), csize, 0, |buf|);
    (Plain(p.files[f := PlainFile(buf[..k], k)], Left(p.free, size, k, csize)), R.Done(k == |buf|))
  }

  function Read(p: Plain, f: nat, n: nat): (Plain, R.Reply)
    requires f in p.files && p.files[f].off <= |p.files[f].bytes|
  {
    var PlainFile(bytes, off) := p.files[f];
    var end := Min(off + n, |bytes|);
    (p.(files := p.files[f := PlainFile(bytes, end)]), R.Bytes(bytes[off..end]))
  }

  /** A seek to the end of a file that fills its clusters moves the offset and reports failure. */
  function Seek(p: Plain, csize: nat, f: nat, offset: nat): (Plain, R.Reply)
    requires csize > 0 && f in p.files
  {
    var bytes := p.files[f].bytes;
    if offset > |bytes| then (p, R.Done(false))
    else
      (p.(files := p.files[f := PlainFile(bytes, offset)]), R.Done(offset < csize || Quot(offset, csize) < Ceil(|bytes|, csize)))
  }

  predicate Doable(p: Plain, deed: Deed) {
    match deed
    case Opens(f, _) => f !in p.files
    case Reads(f, _) => f in p.files && p.files[f].off <= |p.files[f].bytes|
    case Seeks(f, _) => f in p.files
    case Writes(f, _) => f in p.files && p.files[f].off <= |p.files[f].bytes|
    case Rewrites(f, _) => f in p.files
    case Closes(f) => f in p.files
    case Changes(taken, _) => taken <= p.free
  }

  /** What a call does to the plain files, and what it returns. */
  function Do(p: Plain, csize: nat, deed: Deed): (Plain, R.Reply)
    requires csize > 0 && Doable(p, deed)
  {
    match deed
    case Opens(f, bytes) => (p.(files := p.files[f := PlainFile(bytes, 0)]), R.Done(true))
    case Reads(f, n) => Read(p, f, n)
    case Seeks(f, offset) => Seek(p, csize, f, offset)
    case Writes(f, buf) => Write(p, csize, f, buf)
    case Rewrites(f, buf) => Rewrite(p, csize, f, buf)
    case Closes(f) => (p.(files := p.files - {f}), R.Done(true))
    case Changes(taken, ok) => (p.(free := p.free - taken), R.Done(ok))
  }

  /** All of them one after the other. */
  predicate DoableAll(p: Plain, csize: nat, deeds: seq<Deed>)
    requires csize > 0
    decreases |deeds|
  {
    deeds == [] || (Doable(p, deeds[0]) && DoableAll(Do(p, csize, deeds[0]).0, csize, deeds[1..]))
  }

  function DoAll(p: Plain, csize: nat, deeds: seq<Deed>): (Plain, seq<R.Reply>)
    requires csize > 0 && DoableAll(p, csize, deeds)
    decreases |deeds|
  {
    if deeds == [] then (p, [])
    else
      var (p1, r) := Do(p, csize, deeds[0]);
      var (p2, rs) := DoAll(p1, csize, deeds[1..]);
      (p2, [r] + rs)
  }
}
