/**
 Open files over a volume: what each operation of the file layer does to the table, the clusters
 and the handle, and the byte sequence that this amounts to.
 */
module FileSpec {
  import opened Arith
  import opened Bytes
  import opened FatTable

  /** A mounted volume above the sector level: cluster size, table, and cluster contents. */
  datatype Vol = Vol(csize: nat, fat: Fat, data: seq<seq<byte>>)

  /** The cursor fields of fat32_file_t. */
  datatype Handle = Handle(start: nat, cur: nat, coff: nat, off: nat, size: nat)

  predicate VolOk(v: Vol) {
    && v.csize > 0
    && FatOk(v.fat)
    && |v.data| == |v.fat|
    && forall c :: 2 <= c < |v.fat| ==> |v.data[c]| == v.csize
  }

  /** The chain of a file: empty exactly when the start cluster is 0. */
  predicate Chained(fat: Fat, start: nat, ch: seq<nat>) {
    if ch == [] then start == 0 else IsChain(fat, ch) && start == ch[0]
  }

  /** The clusters of a chain one behind the other. */
  function ChainBytes(v: Vol, ch: seq<nat>): (s: seq<byte>)
    requires VolOk(v) && AllInRange(v.fat, ch)
    ensures |s| == Times(|ch|, v.csize)
  {
    if ch == [] then [] else v.data[ch[0]] + ChainBytes(v, ch[1..])
  }

  /** The bytes of a file: its clusters in chain order, cut at its size. */
  function Content(v: Vol, ch: seq<nat>, size: nat): (s: seq<byte>)
    requires VolOk(v) && AllInRange(v.fat, ch) && size <= Times(|ch|, v.csize)
    ensures |s| == size
  {
    ChainBytes(v, ch)[..size]
  }

  /** The file that starts at start has the chain ch and holds exactly the bytes buf. */
  predicate FileHolds(v: Vol, start: nat, ch: seq<nat>, buf: seq<byte>) {
    && VolOk(v) && Chained(v.fat, start, ch)
    && |buf| <= Times(|ch|, v.csize) && Content(v, ch, |buf|) == buf
  }

  lemma FileHoldsFramed(v: Vol, w: Vol, start: nat, ch: seq<nat>, buf: seq<byte>)
    requires FileHolds(v, start, ch, buf) && VolOk(w) && w.fat == v.fat && w.csize == v.csize
    requires ChainBytes(w, ch) == ChainBytes(v, ch)
    ensures FileHolds(w, start, ch, buf)
  {
  }

  lemma SliceJoin<T>(s: seq<T>, a: nat, b: nat, c: nat)
    requires a <= b <= c <= |s|
    ensures s[a..b] + s[b..c] == s[a..c]
  {
  }

  lemma SliceSlice<T>(s: seq<T>, a: nat, n: nat, b: nat, k: nat)
    requires a + n <= |s| && b + k <= n
    ensures s[a..a + n][b..b + k] == s[a + b..a + b + k]
  {
    var l, r := s[a..a + n][b..b + k], s[a + b..a + b + k];
    forall i | 0 <= i < k ensures l[i] == r[i] {
      assert l[i] == s[a..a + n][b + i];
    }
  }

  /** Cluster q of a chain is block q of its bytes. */
  lemma {:induction false} ClusterIsBlock(v: Vol, ch: seq<nat>, q: nat)
    requires VolOk(v) && AllInRange(v.fat, ch) && q < |ch|
    ensures Times(q, v.csize) + v.csize <= |ChainBytes(v, ch)|
    ensures v.data[ch[q]] == ChainBytes(v, ch)[Times(q, v.csize)..Times(q, v.csize) + v.csize]
  {
    TimesMono(q + 1, |ch|, v.csize);
    if q > 0 {
      ClusterIsBlock(v, ch[1..], q - 1);
      assert ch[1..][q - 1] == ch[q];
    }
  }
}
