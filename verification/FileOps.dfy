/** Writing and rewriting one file of a file system: its chain is regrown, everything else stays. */
module FileOps {
  import opened Arith
  import opened Bytes
  import opened FatTable
  import opened FileSpec
  import opened FileWrite
  import opened MidWrite
  import opened Chains
  import opened Directory

  /** A start cluster that belongs to a file, or 0 for an empty file. */
  ghost predicate IsFileStart(fs: Fs, start: nat) {
    start == 0 || (start in fs.chains && start !in fs.dirs)
  }

  lemma FileStartInRange(fs: Fs, start: nat)
    requires FsOk(fs) && IsFileStart(fs, start)
    ensures start == 0 || InRange(fs.vol.fat, start)
    ensures Chained(fs.vol.fat, start, ChainOf(fs.chains, start))
  {
    hide DirOk, Covers, Disjoint;
    ZeroIsNoStart(fs.vol.fat, fs.chains);
  }

  /** w is the volume of fs with the file that starts at start on the chain ch instead of its own. */
  ghost predicate RegrownVol(fs: Fs, start: nat, w: Vol, ch: seq<nat>) {
    && VolOk(fs.vol) && VolOk(w) && w.csize == fs.vol.csize
    && Regrown(fs.vol.fat, w.fat, fs.chains, start, ch)
    && forall c :: 0 <= c < |w.fat| && c !in ChainOf(fs.chains, start) && c !in ch ==> w.data[c] == fs.vol.data[c]
  }

  function RegrowFs(fs: Fs, start: nat, w: Vol, ch: seq<nat>): Fs {
    fs.(vol := w, chains := Rechain(fs.chains, start, ch))
  }

  lemma BytesFramed(v: Vol, w: Vol, ch: seq<nat>)
    requires VolOk(v) && VolOk(w) && v.csize == w.csize && IsChain(v.fat, ch) && IsChain(w.fat, ch)
    requires forall c :: c in ch && c < |v.fat| && c < |w.fat| ==> v.data[c] == w.data[c]
    ensures ChainBytes(v, ch) == ChainBytes(w, ch)
  {
  }

  /** Regrowing a file keeps the chain and the bytes of everything else, directories included. */
  lemma RegrowKeepsOthers(fs: Fs, start: nat, w: Vol, ch: seq<nat>, s: nat)
    requires FsOk(fs) && IsFileStart(fs, start) && RegrownVol(fs, start, w, ch) && s in fs.chains && s != start
    ensures var fs' := RegrowFs(fs, start, w, ch);
            && s in fs'.chains && fs'.chains[s] == fs.chains[s]
            && IsChain(w.fat, fs.chains[s]) && fs.chains[s][0] == s && (ch != [] ==> ch[0] != s)
            && ChainBytes(w, fs.chains[s]) == ChainBytes(fs.vol, fs.chains[s])
  {
    hide DirOk, Covers, Disjoint, Regrown, Rechain, ChainOf, FatOk;
    RechainEach(fs.vol.fat, w.fat, fs.chains, start, ch);
    OtherChainApart(fs.vol.fat, w.fat, fs.chains, start, ch, s);
    BytesFramed(fs.vol, w, fs.chains[s]);
  }

  lemma RegrowKeepsFsOk(fs: Fs, start: nat, w: Vol, ch: seq<nat>)
    requires FsOk(fs) && IsFileStart(fs, start) && RegrownVol(fs, start, w, ch)
    ensures var fs' := RegrowFs(fs, start, w, ch);
            && FsOk(fs') && fs'.root == fs.root && fs'.dirs == fs.dirs && fs'.vol.csize == fs.vol.csize
            && (forall d :: d in fs.dirs ==> SlotsAt(fs', d) == SlotsAt(fs, d))
            && (ch != [] ==> ch[0] !in fs.dirs && ch[0] in fs'.chains && fs'.chains[ch[0]] == ch)
  {
    hide DirOk, Covers, Disjoint, Regrown, Rechain, SlotsOf, IsChain, FatOk;
    ZeroIsNoStart(fs.vol.fat, fs.chains);
    RechainSound(fs.vol.fat, w.fat, fs.chains, start, ch);
    RechainEach(fs.vol.fat, w.fat, fs.chains, start, ch);
    var fs' := RegrowFs(fs, start, w, ch);
    forall d | d in fs.dirs ensures d in fs'.chains && SlotsAt(fs', d) == SlotsAt(fs, d) {
      RegrowKeepsOthers(fs, start, w, ch, d);
    }
  }

  lemma ChainInRange(fat: Fat, start: nat, ch: seq<nat>)
    requires Chained(fat, start, ch)
    ensures forall c :: c in ch ==> 2 <= c < |fat|
  {
  }

  /** fat32_rewrite regrows the file. */
  lemma RewriteRegrows(fs: Fs, start: nat, buf: seq<byte>)
    requires FsOk(fs) && IsFileStart(fs, start)
    ensures start == 0 || InRange(fs.vol.fat, start)
    ensures RegrownVol(fs, start, RewriteRun(fs.vol, start, buf).vol, RewriteChain(fs.vol, start, buf))
  {
    hide DirOk, EachIsChain, Covers, Disjoint, RewriteRun, RewriteChain, Content, Ceil;
    FileStartInRange(fs, start);
    RewriteFrame(fs.vol, start, ChainOf(fs.chains, start), buf);
    RewriteReplacesFile(fs.vol, start, ChainOf(fs.chains, start), buf);
    ChainInRange(fs.vol.fat, start, ChainOf(fs.chains, start));
  }

  lemma PrefixRegrows(fat: Fat, fat': Fat, chains: ChainMap, start: nat, ch: seq<nat>)
    requires (start == 0 || start in chains) && ChainOf(chains, start) <= ch
    requires |fat'| == |fat| && FatOk(fat') && (ch == [] || IsChain(fat', ch))
    requires forall c :: c in ch ==> c in ChainOf(chains, start) || c in FreeSet(fat)
    requires forall c :: 0 <= c < |fat| && c !in ch ==> fat'[c] == fat[c]
    ensures Regrown(fat, fat', chains, start, ch)
  {
  }

  /** So does fat32_write where it keeps the cursor right. */
  lemma WriteRegrows(fs: Fs, h: Handle, buf: seq<byte>)
    requires FsOk(fs) && IsFileStart(fs, h.start) && Settled(fs.vol, h, ChainOf(fs.chains, h.start)) && Writable(fs.vol, h)
    requires Wrote(fs.vol, h, ChainOf(fs.chains, h.start), buf,
                   WriteRun(fs.vol, h, buf), WriteChain(fs.vol, h, ChainOf(fs.chains, h.start), buf))
    ensures RegrownVol(fs, h.start, WriteRun(fs.vol, h, buf).vol, WriteChain(fs.vol, h, ChainOf(fs.chains, h.start), buf))
  {
    hide DirOk, EachIsChain, Covers, Disjoint, WriteRun, WriteChain, Times, Regrown, ChainOf, Content, WriteAt;
    PrefixRegrows(fs.vol.fat, WriteRun(fs.vol, h, buf).vol.fat, fs.chains, h.start,
                  WriteChain(fs.vol, h, ChainOf(fs.chains, h.start), buf));
  }
}
