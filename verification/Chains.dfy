/**
 All chains of a volume at once: a map from start cluster to chain. Sound says that the chains are
 complete, pairwise disjoint, and cover exactly the clusters that are not free.
 */
module Chains {
  import opened FatTable

  type ChainMap = map<nat, seq<nat>>

  predicate EachIsChain(fat: Fat, chains: ChainMap) {
    forall s :: s in chains ==> IsChain(fat, chains[s]) && chains[s][0] == s
  }

  ghost predicate Disjoint(chains: ChainMap) {
    forall s, t, c :: s in chains && t in chains && c in chains[s] && c in chains[t] ==> s == t
  }

  ghost predicate Covers(fat: Fat, chains: ChainMap) {
    forall c :: 2 <= c < |fat| && fat[c] != 0 ==> exists s :: s in chains && c in chains[s]
  }

  ghost predicate Sound(fat: Fat, chains: ChainMap) {
    FatOk(fat) && EachIsChain(fat, chains) && Disjoint(chains) && Covers(fat, chains)
  }

  /** The chain of a file with this start cluster; start 0 means no cluster. */
  function ChainOf(chains: ChainMap, start: nat): seq<nat>
    requires start == 0 || start in chains
  {
    if start == 0 then [] else chains[start]
  }

  /** The chains after a file's chain has become ch. */
  function Rechain(chains: ChainMap, start: nat, ch: seq<nat>): ChainMap {
    (chains - {start}) + if ch == [] then map[] else map[ch[0] := ch]
  }

  /** The clusters in no chain are exactly the free ones. */
  lemma FreeIffUnchained(fat: Fat, chains: ChainMap, c: nat)
    requires Sound(fat, chains) && InRange(fat, c)
    ensures fat[c] == 0 <==> forall s :: s in chains ==> c !in chains[s]
  {
    forall s | s in chains && c in chains[s] ensures fat[c] != 0 {
      ChainIsUsed(fat, chains[s]);
      var i :| 0 <= i < |chains[s]| && chains[s][i] == c;
    }
  }

  lemma ZeroIsNoStart(fat: Fat, chains: ChainMap)
    requires EachIsChain(fat, chains)
    ensures 0 !in chains && 1 !in chains
    ensures forall s :: s in chains ==> InRange(fat, s)
  {
  }

  /** fat' gives the file that starts at start the chain ch, out of its old clusters and free ones. */
  ghost predicate Regrown(fat: Fat, fat': Fat, chains: ChainMap, start: nat, ch: seq<nat>) {
    && (start == 0 || start in chains)
    && |fat'| == |fat| && FatOk(fat') && (ch == [] || IsChain(fat', ch))
    && (forall c :: c in ch ==> c in ChainOf(chains, start) || c in FreeSet(fat))
    && (forall c :: 0 <= c < |fat| && c !in ChainOf(chains, start) && c !in ch ==> fat'[c] == fat[c])
    && (forall c :: c in ChainOf(chains, start) && c !in ch ==> 0 <= c < |fat| && fat'[c] == 0)
  }

  /** A chain of another file shares no cluster with the old chain nor with the new one. */
  lemma OtherChainApart(fat: Fat, fat': Fat, chains: ChainMap, start: nat, ch: seq<nat>, s: nat)
    requires Sound(fat, chains) && Regrown(fat, fat', chains, start, ch)
    requires s in chains && s != start
    ensures forall c :: c in chains[s] ==> c !in ch && c !in ChainOf(chains, start)
    ensures IsChain(fat', chains[s]) && chains[s][0] == s
    ensures ch != [] ==> ch[0] != s
  {
    hide Covers;
    ZeroIsNoStart(fat, chains);
    assert s in chains[s] by { assert chains[s][0] == s; }
    ChainIsUsed(fat, chains[s]);
    forall c | c in chains[s] ensures c !in ch && c !in ChainOf(chains, start) {
      var i :| 0 <= i < |chains[s]| && chains[s][i] == c;
      assert c !in FreeSet(fat);
    }
    hide Disjoint, EachIsChain, Regrown;
    assert forall i :: 0 <= i < |chains[s]| ==> chains[s][i] in chains[s];
    ChainFramed(fat, fat', chains[s]);
  }

  lemma RechainEntries(chains: ChainMap, start: nat, ch: seq<nat>)
    ensures var now := Rechain(chains, start, ch);
            && (forall s :: s in now <==> (s in chains && s != start) || (ch != [] && s == ch[0]))
            && (ch != [] ==> now[ch[0]] == ch)
            && (forall s :: s in now && !(ch != [] && s == ch[0]) ==> now[s] == chains[s])
  {
  }

  lemma RechainEach(fat: Fat, fat': Fat, chains: ChainMap, start: nat, ch: seq<nat>)
    requires Sound(fat, chains) && Regrown(fat, fat', chains, start, ch)
    ensures EachIsChain(fat', Rechain(chains, start, ch))
    ensures ch != [] ==> ch[0] == start || ch[0] !in chains
    ensures ch != [] ==> ch[0] in Rechain(chains, start, ch) && Rechain(chains, start, ch)[ch[0]] == ch
    ensures forall s :: s in chains && s != start ==>
              s in Rechain(chains, start, ch) && Rechain(chains, start, ch)[s] == chains[s]
  {
    hide Sound, Rechain;
    RechainEntries(chains, start, ch);
    forall s | s in chains && s != start
      ensures IsChain(fat', chains[s]) && chains[s][0] == s && (ch != [] ==> ch[0] != s)
    {
      OtherChainApart(fat, fat', chains, start, ch, s);
    }
  }

  lemma RechainDisjoint(fat: Fat, fat': Fat, chains: ChainMap, start: nat, ch: seq<nat>)
    requires Sound(fat, chains) && Regrown(fat, fat', chains, start, ch)
    ensures Disjoint(Rechain(chains, start, ch))
  {
    hide Rechain, Regrown, Covers, EachIsChain;
    RechainEntries(chains, start, ch);
    var now := Rechain(chains, start, ch);
    forall s, t, c | s in now && t in now && c in now[s] && c in now[t] ensures s == t {
      if s in chains && s != start {
        OtherChainApart(fat, fat', chains, start, ch, s);
      }
      if t in chains && t != start {
        OtherChainApart(fat, fat', chains, start, ch, t);
      }
    }
  }

  lemma RechainCovers(fat: Fat, fat': Fat, chains: ChainMap, start: nat, ch: seq<nat>)
    requires Sound(fat, chains) && Regrown(fat, fat', chains, start, ch)
    ensures Covers(fat', Rechain(chains, start, ch))
  {
    RechainEach(fat, fat', chains, start, ch);
    var now := Rechain(chains, start, ch);
    forall c | 2 <= c < |fat'| && fat'[c] != 0 ensures exists s :: s in now && c in now[s] {
      hide EachIsChain, Disjoint, FatOk;
      if c in ch {
        assert ch[0] in now && c in now[ch[0]];
      } else {
        assert fat[c] != 0;
        var s :| s in chains && c in chains[s];
        assert s in now && c in now[s];
      }
    }
  }

  /**
   Whatever gives one file a new chain out of its old clusters and free ones, releases the clusters it
   drops, and leaves all other entries alone, keeps every chain of the volume sound.
   */
  lemma RechainSound(fat: Fat, fat': Fat, chains: ChainMap, start: nat, ch: seq<nat>)
    requires Sound(fat, chains) && Regrown(fat, fat', chains, start, ch)
    ensures Sound(fat', Rechain(chains, start, ch))
  {
    RechainEach(fat, fat', chains, start, ch);
    RechainDisjoint(fat, fat', chains, start, ch);
    RechainCovers(fat, fat', chains, start, ch);
    hide Covers, Disjoint, EachIsChain;
  }
}
