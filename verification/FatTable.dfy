/**
 The file allocation table as a sequence: fat[c] is the masked 28-bit entry of cluster c, and
 |fat| is total_clusters + 2. Entries 0 and 1 are reserved and never followed.
 */
module FatTable {

  const EOC: nat := 0x0FFF_FFF8

  type Fat = f: seq<nat> | 2 <= |f| <= EOC witness [0, 0]

  predicate InRange(fat: Fat, c: nat) {
    2 <= c < |fat|
  }

  /** Every entry is free, a cluster of the volume, or an end-of-chain mark. */
  predicate FatOk(fat: Fat) {
    forall c :: 2 <= c < |fat| ==> fat[c] == 0 || InRange(fat, fat[c]) || EOC <= fat[c]
  }

  /** What fat32_next_cluster reads: the successor, or 0 at an end-of-chain mark. */
  function Next(fat: Fat, c: nat): nat
    requires InRange(fat, c)
  {
    if fat[c] >= EOC then 0 else fat[c]
  }

  function FreeSet(fat: Fat): set<nat> {
    set c: nat | 2 <= c < |fat| && fat[c] == 0
  }

  function UsedSet(fat: Fat): set<nat> {
    set c: nat | 2 <= c < |fat| && fat[c] != 0
  }

  /** The scan of find_free_cluster, from cluster c on. */
  function FirstFreeFrom(fat: Fat, c: nat): (r: nat)
    requires 2 <= c
    ensures r == 0 <==> forall x :: c <= x < |fat| ==> fat[x] != 0
    ensures r != 0 ==> c <= r < |fat| && fat[r] == 0
    ensures r != 0 ==> forall x :: c <= x < r ==> fat[x] != 0
    decreases |fat| - c
  {
    if c >= |fat| then 0 else if fat[c] == 0 then c else FirstFreeFrom(fat, c + 1)
  }

  function FirstFree(fat: Fat): nat {
    FirstFreeFrom(fat, 2)
  }

  lemma FirstFreeIs(fat: Fat, c: nat)
    requires InRange(fat, c) && fat[c] == 0 && forall x :: 2 <= x < c ==> fat[x] != 0
    ensures FirstFree(fat) == c
  {
  }

  lemma FirstFreeIsLeast(fat: Fat)
    ensures FirstFree(fat) == 0 <==> FreeSet(fat) == {}
    ensures FirstFree(fat) != 0 ==> FirstFree(fat) in FreeSet(fat)
    ensures forall c :: c in FreeSet(fat) ==> 2 <= FirstFree(fat) <= c
  {
  }

  // ---------- chains ----------

  predicate AllInRange(fat: Fat, ch: seq<nat>) {
    forall i :: 0 <= i < |ch| ==> 2 <= ch[i] < |fat|
  }

  /** ch is a complete chain: linked, inside the volume, and closed by an end-of-chain mark. */
  predicate IsChain(fat: Fat, ch: seq<nat>) {
    && ch != []
    && AllInRange(fat, ch)
    && (forall i :: 0 <= i < |ch| - 1 ==> fat[ch[i]] == ch[i + 1])
    && EOC <= fat[ch[|ch| - 1]]
  }

  /** A chain cannot revisit a cluster: it would never reach its end mark. */
  lemma {:induction false} ChainIsAcyclic(fat: Fat, ch: seq<nat>, i: nat, j: nat)
    requires IsChain(fat, ch) && i < j < |ch|
    ensures ch[i] != ch[j]
    decreases |ch| - j
  {
    assert fat[ch[i]] == ch[i + 1] && InRange(fat, ch[i + 1]);
    if ch[i] == ch[j] && j + 1 < |ch| {
      ChainIsAcyclic(fat, ch, i + 1, j + 1);
    }
  }

  lemma ChainIsUsed(fat: Fat, ch: seq<nat>)
    requires ch != [] ==> IsChain(fat, ch)
    ensures forall i :: 0 <= i < |ch| ==> fat[ch[i]] != 0
  {
    forall i | 0 <= i < |ch| ensures fat[ch[i]] != 0 {
      if i < |ch| - 1 {
        assert fat[ch[i]] == ch[i + 1];
      }
    }
  }

  /** The table determines the chain that starts at a cluster. */
  lemma {:induction false} ChainIsUnique(fat: Fat, a: seq<nat>, b: seq<nat>)
    requires IsChain(fat, a) && IsChain(fat, b) && a[0] == b[0]
    ensures a == b
    decreases |a|
  {
    assert |a| > 1 ==> fat[a[0]] == a[1] && InRange(fat, a[1]);
    assert |b| > 1 ==> fat[b[0]] == b[1] && InRange(fat, b[1]);
    if |a| > 1 {
      ChainTail(fat, a);
      ChainTail(fat, b);
      ChainIsUnique(fat, a[1..], b[1..]);
      assert a == [a[0]] + a[1..] && b == [b[0]] + b[1..];
    }
  }

  lemma ChainTail(fat: Fat, ch: seq<nat>)
    requires IsChain(fat, ch) && |ch| > 1
    ensures IsChain(fat, ch[1..])
  {
  }

  /** A chain only depends on the entries of its own clusters. */
  lemma ChainFramed(fat: Fat, fat': Fat, ch: seq<nat>)
    requires IsChain(fat, ch) && |fat'| == |fat|
    requires forall i :: 0 <= i < |ch| ==> fat'[ch[i]] == fat[ch[i]]
    ensures IsChain(fat', ch)
  {
  }

  // ---------- freeing ----------

  /** The freeing loop of fat32_rewrite, on any table whose entries are in range or end marks. */
  function FreeChain(fat: Fat, c: nat): (r: Fat)
    requires FatOk(fat) && (c == 0 || InRange(fat, c))
    ensures |r| == |fat| && FatOk(r)
    decreases UsedSet(fat), c != 0
  {
    if c == 0 then fat else
    assert fat[c] != 0 ==> c in UsedSet(fat) && c !in UsedSet(fat[c := 0]);
    assert fat[c] == 0 ==> fat[c := 0] == fat;
    FreeChain(fat[c := 0], Next(fat, c))
  }

  lemma FreeChainStep(fat: Fat, c: nat)
    requires FatOk(fat) && (c == 0 || InRange(fat, c))
    ensures c == 0 ==> FreeChain(fat, c) == fat
    ensures c != 0 ==> FatOk(fat[c := 0]) && FreeChain(fat, c) == FreeChain(fat[c := 0], Next(fat, c))
    ensures c != 0 ==> if fat[c] == 0 then fat[c := 0] == fat && Next(fat, c) == 0 else UsedSet(fat[c := 0]) < UsedSet(fat)
  {
    if c != 0 {
      assert fat[c] != 0 ==> c in UsedSet(fat) && c !in UsedSet(fat[c := 0]);
      assert fat[c] == 0 ==> fat[c := 0] == fat;
    }
  }

  /** The cluster reached after k successor steps, 0 once the walk has ended. */
  function Walk(fat: Fat, c: nat, k: nat): (r: nat)
    requires FatOk(fat) && (c == 0 || InRange(fat, c))
    ensures r == 0 || InRange(fat, r)
    decreases k
  {
    if k == 0 || c == 0 then c else Walk(fat, Next(fat, c), k - 1)
  }

  ghost predicate Reaches(fat: Fat, c: nat, x: nat)
    requires FatOk(fat) && (c == 0 || InRange(fat, c))
  {
    exists k: nat :: Walk(fat, c, k) == x
  }

  lemma {:induction false} WalkLast(fat: Fat, c: nat, k: nat)
    requires FatOk(fat) && InRange(fat, c)
    ensures Walk(fat, c, k + 1) == (var y := Walk(fat, c, k); if y == 0 then 0 else Next(fat, y))
    decreases k
  {
    if k > 0 {
      var n := Next(fat, c);
      if n != 0 {
        WalkLast(fat, n, k - 1);
      }
    }
  }

  /** Cutting the link out of c loses no cluster but c from what its successor reaches. */
  lemma {:induction false} CutReach(fat: Fat, c: nat, n: nat, k: nat)
    requires FatOk(fat) && InRange(fat, c) && n == Next(fat, c) && n != 0
    ensures FatOk(fat[c := 0])
    ensures var y := Walk(fat, n, k); y == 0 || y == c || Reaches(fat[c := 0], n, y)
    decreases k
  {
    var cut := fat[c := 0];
    if k == 0 {
      assert Walk(cut, n, 0) == n;
    } else {
      CutReach(fat, c, n, k - 1);
      WalkLast(fat, n, k - 1);
      var y := Walk(fat, n, k - 1);
      if y == c {
        assert Walk(cut, n, 0) == n;
      } else if y != 0 {
        var j: nat :| Walk(cut, n, j) == y;
        WalkLast(cut, n, j);
        assert Walk(cut, n, j + 1) == Next(fat, y);
      }
    }
  }

  /** Conversely, the cut table only reaches what the whole table reaches. */
  lemma {:induction false} CutReachOnly(fat: Fat, c: nat, n: nat, k: nat)
    requires FatOk(fat) && InRange(fat, c) && InRange(fat, n)
    ensures FatOk(fat[c := 0])
    ensures var y := Walk(fat[c := 0], n, k); y == 0 || Reaches(fat, n, y)
    decreases k
  {
    var cut := fat[c := 0];
    if k == 0 {
      assert Walk(fat, n, 0) == n;
    } else {
      CutReachOnly(fat, c, n, k - 1);
      WalkLast(cut, n, k - 1);
      var y := Walk(cut, n, k - 1);
      if y != 0 && y != c {
        var j: nat :| Walk(fat, n, j) == y;
        WalkLast(fat, n, j);
        assert Walk(fat, n, j + 1) == Next(fat, y);
      }
    }
  }

  /** Freeing zeroes exactly the clusters reachable from the start, cycles and cross links included. */
  lemma {:induction false} FreeChainZeroesReachable(fat: Fat, c: nat, x: nat)
    requires FatOk(fat) && (c == 0 || InRange(fat, c)) && x < |fat|
    ensures FreeChain(fat, c)[x] == if x != 0 && Reaches(fat, c, x) then 0 else fat[x]
    decreases UsedSet(fat), c != 0
  {
    if c == 0 {
      assert forall k: nat :: Walk(fat, 0, k) == 0;
    } else {
      var n, cut := Next(fat, c), fat[c := 0];
      assert fat[c] != 0 ==> c in UsedSet(fat) && c !in UsedSet(cut);
      assert fat[c] == 0 ==> cut == fat;
      FreeChainZeroesReachable(cut, n, x);
      assert Walk(fat, c, 0) == c;
      if n == 0 {
        assert forall k: nat :: Walk(cut, 0, k) == 0;
        assert forall k: nat :: k > 0 ==> Walk(fat, c, k) == 0;
      } else if x != 0 {
        if Reaches(fat, c, x) && x != c {
          var k: nat :| Walk(fat, c, k) == x;
          CutReach(fat, c, n, k - 1);
        }
        if Reaches(cut, n, x) {
          var k: nat :| Walk(cut, n, k) == x;
          CutReachOnly(fat, c, n, k);
          var j: nat :| Walk(fat, n, j) == x;
          assert Walk(fat, c, j + 1) == x;
        }
      }
    }
  }

  /** On a proper chain, freeing zeroes the chain's clusters and nothing else. */
  lemma {:induction false} FreeChainFreesChain(fat: Fat, ch: seq<nat>)
    requires FatOk(fat) && IsChain(fat, ch)
    ensures forall x :: 0 <= x < |fat| ==> FreeChain(fat, ch[0])[x] == if x in ch then 0 else fat[x]
    decreases |ch|
  {
    var cut := fat[ch[0] := 0];
    if |ch| > 1 {
      var rest := ch[1..];
      ChainTail(fat, ch);
      CutKeepsTail(fat, ch);
      FreeChainFreesChain(cut, rest);
      assert Next(fat, ch[0]) == rest[0];
      assert ch == [ch[0]] + rest;
      hide IsChain;
    }
  }

  lemma CutKeepsTail(fat: Fat, ch: seq<nat>)
    requires FatOk(fat) && IsChain(fat, ch) && |ch| > 1
    ensures FatOk(fat[ch[0] := 0]) && IsChain(fat[ch[0] := 0], ch[1..]) && Next(fat, ch[0]) == ch[1]
  {
    var cut, rest := fat[ch[0] := 0], ch[1..];
    assert fat[ch[0]] == ch[1];
    ChainTail(fat, ch);
    forall i | 0 <= i < |rest| ensures cut[rest[i]] == fat[rest[i]] {
      ChainIsAcyclic(fat, ch, 0, i + 1);
    }
    ChainFramed(fat, cut, rest);
  }

  function Elements(ch: seq<nat>): set<nat> {
    set c | c in ch
  }

  lemma {:induction false} DistinctCount(ch: seq<nat>)
    requires forall i, j :: 0 <= i < j < |ch| ==> ch[i] != ch[j]
    ensures |Elements(ch)| == |ch|
  {
    if ch != [] {
      var rest := ch[1..];
      assert forall i :: 0 <= i < |rest| ==> rest[i] == ch[i + 1];
      DistinctCount(rest);
      assert ch[0] !in Elements(rest);
      assert Elements(ch) == Elements(rest) + {ch[0]};
    }
  }

  /** Freeing a chain returns exactly its clusters to the free ones. */
  lemma FreeChainReturns(fat: Fat, ch: seq<nat>)
    requires FatOk(fat) && IsChain(fat, ch)
    ensures FreeSet(FreeChain(fat, ch[0])) == FreeSet(fat) + Elements(ch)
    ensures |FreeSet(FreeChain(fat, ch[0]))| == |FreeSet(fat)| + |ch|
  {
    FreeChainFreesChain(fat, ch);
    ChainIsUsed(fat, ch);
    forall i, j | 0 <= i < j < |ch| ensures ch[i] != ch[j] {
      ChainIsAcyclic(fat, ch, i, j);
    }
    DistinctCount(ch);
    var s := Elements(ch);
    assert FreeSet(fat) * s == {};
    assert FreeSet(FreeChain(fat, ch[0])) == FreeSet(fat) + s;
  }
}
