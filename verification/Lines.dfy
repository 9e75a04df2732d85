/** Lines of a byte sequence, and fat32_read_line as the reader that cuts a file into them. */
module Lines {
  import opened Arith
  import opened Bytes
  import opened FatTable
  import opened FileSpec
  import opened FileCursor
  import opened OpenFile
  import opened Volume

  const CHUNK: nat := 512

  /** The length of the first line, its newline included. */
  function LineLength(s: seq<byte>): (n: nat)
    ensures n <= |s| && (s != [] ==> n > 0)
  {
    if s == [] then 0 else if s[0] == NEWLINE then 1 else 1 + LineLength(s[1..])
  }

  lemma {:induction false} LineLengthIs(s: seq<byte>, n: nat)
    requires n <= |s| && (forall i :: 0 <= i < n - 1 ==> s[i] != NEWLINE)
    requires if n == |s| then true else n > 0 && s[n - 1] == NEWLINE
    ensures n == LineLength(s)
  {
    if s != [] && s[0] != NEWLINE {
      LineLengthIs(s[1..], n - 1);
    }
  }

  /** A line has no newline before its last byte, and only the last line may lack one. */
  lemma {:induction false} LineShape(s: seq<byte>)
    ensures forall i :: 0 <= i < LineLength(s) - 1 ==> s[i] != NEWLINE
    ensures LineLength(s) < |s| ==> s[LineLength(s) - 1] == NEWLINE
  {
    if s != [] && s[0] != NEWLINE {
      LineShape(s[1..]);
    }
  }

  lemma LineAtLeast(s: seq<byte>, n: nat)
    requires n < |s| && forall i :: 0 <= i < n ==> s[i] != NEWLINE
    ensures LineLength(s) > n
  {
    LineShape(s);
  }

  function Split(s: seq<byte>): seq<seq<byte>>
    decreases |s|
  {
    if s == [] then [] else [s[..LineLength(s)]] + Split(s[LineLength(s)..])
  }

  function Concat(lines: seq<seq<byte>>): seq<byte> {
    if lines == [] then [] else lines[0] + Concat(lines[1..])
  }

  lemma SplitUnfolds(s: seq<byte>)
    requires s != []
    ensures 0 < LineLength(s) <= |s| && Split(s) == [s[..LineLength(s)]] + Split(s[LineLength(s)..])
    ensures LineLength(s) == |s| ==> Split(s[LineLength(s)..]) == []
    ensures Concat(Split(s)) == s[..LineLength(s)] + Concat(Split(s[LineLength(s)..]))
  {
    hide LineLength;
    var rest := Split(s[LineLength(s)..]);
    assert Split(s) == [s[..LineLength(s)]] + rest;
    hide Split;
    assert Split(s)[0] == s[..LineLength(s)] && Split(s)[1..] == rest;
  }

  /** Each ends at its first newline, and only the last may have none. */
  predicate AreLines(lines: seq<seq<byte>>) {
    && (forall k, i :: 0 <= k < |lines| && 0 <= i < |lines[k]| - 1 ==> lines[k][i] != NEWLINE)
    && (forall k :: 0 <= k < |lines| - 1 ==> lines[k] != [] && lines[k][|lines[k]| - 1] == NEWLINE)
  }

  /** A first line and lines behind it. */
  lemma FirstIsLine(s: seq<byte>, n: nat, rest: seq<seq<byte>>)
    requires 0 < n <= |s| && (forall i :: 0 <= i < n - 1 ==> s[i] != NEWLINE) && (n < |s| ==> s[n - 1] == NEWLINE)
    requires (n == |s| ==> rest == []) && AreLines(rest)
    ensures AreLines([s[..n]] + rest)
  {
    var all := [s[..n]] + rest;
    forall k | 0 <= k < |all| - 1 ensures all[k] != [] && all[k][|all[k]| - 1] == NEWLINE {
      assert k > 0 ==> all[k] == rest[k - 1];
      assert s[..n][n - 1] == s[n - 1];
    }
  }

  lemma {:induction false} SplitGivesLines(s: seq<byte>)
    ensures Concat(Split(s)) == s && AreLines(Split(s))
    decreases |s|
  {
    if s != [] {
      hide LineLength, Split, Concat, AreLines;
      var n := LineLength(s);
      SplitUnfolds(s);
      LineShape(s);
      SplitGivesLines(s[n..]);
      assert s[..n] + s[n..] == s;
      FirstIsLine(s, n, Split(s[n..]));
    }
  }

  /** The lines put together are the file, each ends at its first newline, and only the last may have none. */
  lemma SplitIsFaithful(s: seq<byte>)
    ensures Concat(Split(s)) == s
    ensures forall k, i :: 0 <= k < |Split(s)| && 0 <= i < |Split(s)[k]| - 1 ==> Split(s)[k][i] != NEWLINE
    ensures forall k :: 0 <= k < |Split(s)| - 1 ==> Split(s)[k] != [] && Split(s)[k][|Split(s)[k]| - 1] == NEWLINE
  {
    hide LineLength, Split, Concat;
    SplitGivesLines(s);
  }

  // ---------- reading a line ----------

  /** How far a read of n bytes in chunks of 512 gets in a sequence of length len. */
  function Consumed(len: nat, n: nat): (r: nat)
    ensures r <= len
    decreases n
  {
    if n == 0 || len == 0 then 0
    else if len <= CHUNK then len
    else if n <= CHUNK then CHUNK
    else CHUNK + Consumed(len - CHUNK, n - CHUNK)
  }

  /** Chunks are read whole, so it gets to the end of the last one, or of the sequence. */
  lemma {:induction false} ConsumedIs(len: nat, n: nat)
    ensures Consumed(len, n) == Min(len, (n + 511) / 512 * 512)
    decreases n
  {
    if len > CHUNK && n > CHUNK {
      ConsumedIs(len - CHUNK, n - CHUNK);
    }
  }

  lemma ConsumedSome(len: nat, n: nat)
    ensures len > 0 && n > 0 ==> Consumed(len, n) > 0
  {
  }

  /** How far one fat32_read_line with a buffer of size bytes moves the cursor in s. */
  function Step(s: seq<byte>, size: nat): (n: nat)
    requires 1 <= size
    ensures n <= |s| && (s != [] && size > 1 ==> n > 0)
  {
    if LineLength(s) <= size - 1 then LineLength(s)
    else
      ConsumedSome(|s|, size - 1);
      Consumed(|s|, size - 1)
  }

  lemma StepIs(s: seq<byte>, size: nat)
    requires 1 <= size
    ensures Step(s, size) == if LineLength(s) <= size - 1 then LineLength(s) else Consumed(|s|, size - 1)
    ensures Step(s, size) == if LineLength(s) < size then LineLength(s) else Min(|s|, (size + 510) / 512 * 512)
  {
    ConsumedIs(|s|, size - 1);
  }

  /** What repeated fat32_read_line returns until it returns nothing: each line cut to size - 1 bytes. */
  function Pieces(s: seq<byte>, size: nat): seq<seq<byte>>
    requires 1 <= size
    decreases |s|
  {
    if s == [] || size == 1 then []
    else [s[..Min(LineLength(s), size - 1)]] + Pieces(s[Step(s, size)..], size)
  }

  lemma PiecesUnfold(s: seq<byte>, size: nat, piece: seq<byte>)
    requires 1 < size && s != [] && piece == s[..Min(LineLength(s), size - 1)]
    ensures Pieces(s, size) == [piece] + Pieces(s[Step(s, size)..], size)
    ensures Pieces(s, size)[0] == piece && Pieces(s, size)[1..] == Pieces(s[Step(s, size)..], size)
  {
    hide LineLength, Step;
  }

  predicate LinesFit(s: seq<byte>, size: nat)
    decreases |s|
  {
    s == [] || (LineLength(s) < size && LinesFit(s[LineLength(s)..], size))
  }

  lemma {:induction false} LinesFitIff(s: seq<byte>, size: nat)
    ensures LinesFit(s, size) <==> forall k :: 0 <= k < |Split(s)| ==> |Split(s)[k]| < size
    decreases |s|
  {
    if s != [] {
      var n := LineLength(s);
      LinesFitIff(s[n..], size);
      assert Split(s) == [s[..n]] + Split(s[n..]);
      assert Split(s)[0] == s[..n] && forall k :: 0 <= k < |Split(s[n..])| ==> Split(s)[k + 1] == Split(s[n..])[k];
      hide LineLength, Split;
      forall k | 1 <= k < |Split(s)| ensures Split(s)[k] == Split(s[n..])[k - 1] {
      }
    }
  }

  /** They are the file's lines exactly when every line is shorter than the buffer. */
  lemma {:induction false} PiecesAreLines(s: seq<byte>, size: nat)
    requires 1 <= size
    ensures Pieces(s, size) == Split(s) <==> LinesFit(s, size)
    ensures Pieces(s, size) == Split(s) <==> forall k :: 0 <= k < |Split(s)| ==> |Split(s)[k]| < size
    decreases |s|
  {
    LinesFitIff(s, size);
    if s != [] {
      hide LineLength;
      LineShape(s);
      var n := LineLength(s);
      if n < size {
        PiecesAreLines(s[n..], size);
        assert Split(s)[1..] == Split(s[n..]) && Pieces(s, size)[1..] == Pieces(s[n..], size);
      } else if size > 1 {
        assert Pieces(s, size)[0] == s[..size - 1] && Split(s)[0] == s[..n];
      }
    }
  }

  /** An input: of a line that is too long its front is returned, and all that the chunk held behind it is lost. */
  lemma LongLineLosesNext()
    ensures var s := [0x41, 0x42, 0x43, 0x44, NEWLINE, 0x45, NEWLINE];
            Split(s) == [[0x41, 0x42, 0x43, 0x44, NEWLINE], [0x45, NEWLINE]] && Pieces(s, 4) == [[0x41, 0x42, 0x43]]
  {
    var s: seq<byte> := [0x41, 0x42, 0x43, 0x44, NEWLINE, 0x45, NEWLINE];
    LineLengthIs(s, 5);
    LineLengthIs(s[5..], 2);
    hide LineLength;
    assert s[5..][2..] == [] && s[..5] == [0x41, 0x42, 0x43, 0x44, NEWLINE] && s[5..][..2] == [0x45, NEWLINE];
    assert Split([]) == [];
    assert Split(s[5..]) == [s[5..][..2]] + Split(s[5..][2..]);
    assert Split(s) == [s[..5]] + Split(s[5..]);
    assert Step(s, 4) == 7 && s[7..] == [] && s[..3] == [0x41, 0x42, 0x43];
  }

  /** The bytes from the cursor on. */
  ghost function Ahead(v: Vol, h: Handle, ch: seq<nat>): seq<byte>
    requires CursorOk(v, h, ch)
  {
    Content(v, ch, h.size)[h.off..]
  }

  lemma AheadFacts(v: Vol, h: Handle, ch: seq<nat>)
    requires CursorOk(v, h, ch)
    ensures VolOk(v) && h.off <= h.size && |Ahead(v, h, ch)| == h.size - h.off
    ensures h.off < h.size ==> InRange(v.fat, h.cur)
    ensures (h.start == 0 || InRange(v.fat, h.start)) && (h.start == 0 ==> h.size < v.csize)
  {
  }

  lemma AheadMoves(v: Vol, h: Handle, h': Handle, ch: seq<nat>, n: nat)
    requires CursorOk(v, h, ch) && CursorOk(v, h', ch) && h'.size == h.size && h'.off == h.off + n
    ensures n <= |Ahead(v, h, ch)| && Ahead(v, h', ch) == Ahead(v, h, ch)[n..]
  {
  }

  lemma ReadIsAhead(v: Vol, h: Handle, ch: seq<nat>, n: nat)
    requires CursorOk(v, h, ch) && (h.off < h.size ==> InRange(v.fat, h.cur))
    ensures var ((h', s), ahead) := (ReadRun(v, h, n), Ahead(v, h, ch));
            && |s| == Min(n, |ahead|) && s == ahead[..|s|]
            && CursorOk(v, h', ch) && h'.start == h.start && h'.size == h.size && h'.off == h.off + |s|
            && Ahead(v, h', ch) == ahead[|s|..]
  {
    hide ReadRun, Quot, Rem, Times;
    ReadMovesCursor(v, h, ch, n);
    ReadReturnsContent(v, h, ch, n);
    var c := Content(v, ch, h.size);
    var k := Min(n, h.size - h.off);
    assert c[h.off..][..k] == c[h.off..h.off + k];
    assert c[h.off..][k..] == c[h.off + k..];
  }

  lemma SeekIsCursor(v: Vol, h: Handle, ch: seq<nat>, offset: nat)
    requires CursorOk(v, h, ch) && offset <= h.size
    requires (h.start == 0 || InRange(v.fat, h.start)) && (h.start == 0 ==> h.size < v.csize) && offset + v.csize < UINT32
    ensures SeekWalk(v, h.start, 0, offset) != Wrapped
    ensures var h' := SeekRun(v, h, offset).1;
            CursorOk(v, h', ch) && h'.off == offset && h'.start == h.start && h'.size == h.size
  {
    hide SeekWalk, Quot, Rem;
    NearIsReachable(v, offset);
    SeekMovesCursor(v, h, ch, offset);
  }

  lemma {:induction false} ConsumedAll(len: nat, n: nat)
    requires len <= n
    ensures Consumed(len, n) == len
    decreases n
  {
    if len > CHUNK {
      ConsumedAll(len - CHUNK, n - CHUNK);
    }
  }

  /** Copy up to a newline, up to the end of the chunk, or until size - 1 bytes are in the buffer. */
  method CopyLine(chunk: seq<byte>, out: array<byte>, pos: nat, size: nat) returns (m: nat, found: bool)
    requires pos < size - 1 && size <= out.Length
    modifies out
    ensures m == Min(LineLength(chunk), size - 1 - pos)
    ensures out[..pos + m] == old(out[..pos]) + chunk[..m]
    ensures found <==> m > 0 && chunk[m - 1] == NEWLINE
  {
    m, found := 0, false;
    while m < |chunk| && pos + m < size - 1
      invariant m <= |chunk| && pos + m <= size - 1
      invariant out[..pos + m] == old(out[..pos]) + chunk[..m]
      invariant forall i :: 0 <= i < m ==> chunk[i] != NEWLINE
    {
      out[pos + m] := chunk[m];
      m := m + 1;
      if chunk[m - 1] == NEWLINE {
        LineLengthIs(chunk, m);
        found := true;
        return;
      }
    }
    if m == |chunk| {
      LineLengthIs(chunk, m);
    } else {
      LineAtLeast(chunk, m);
    }
  }

  lemma ChunkPart(s: seq<byte>, p: nat, c: seq<byte>, m: nat)
    requires p + |c| <= |s| && c == s[p..p + |c|] && m <= |c|
    ensures s[..p] + c[..m] == s[..p + m]
    ensures forall i :: p <= i < p + m ==> s[i] == c[i - p]
  {
  }

  /** With no newline in the first p bytes and none in c before its last byte, there is none before that byte of s. */
  lemma NoneBefore(s: seq<byte>, p: nat, c: seq<byte>, m: nat)
    requires p + |c| <= |s| && c == s[p..p + |c|] && 0 < m <= |c|
    requires (forall i :: 0 <= i < p ==> s[i] != NEWLINE) && (forall i :: 0 <= i < m - 1 ==> c[i] != NEWLINE)
    ensures s[p + m - 1] == c[m - 1] && forall i :: 0 <= i < p + m - 1 ==> s[i] != NEWLINE
  {
    ChunkPart(s, p, c, m);
  }

  lemma TakenLength(c: seq<byte>, limit: nat)
    requires c != [] && limit > 0
    ensures var m := Min(LineLength(c), limit);
            && 0 < m <= |c| && (forall i :: 0 <= i < m - 1 ==> c[i] != NEWLINE)
            && (c[m - 1] == NEWLINE || m == Min(|c|, limit))
  {
    LineShape(c);
    hide LineLength;
  }

  /**
   Taking at most limit bytes, but no more than a line, from a chunk c that continues s behind its newline-free first
   p bytes.
   */
  lemma ChunkLine(s: seq<byte>, p: nat, c: seq<byte>, limit: nat)
    requires p + |c| <= |s| && c == s[p..p + |c|] && c != [] && limit > 0
    requires forall i :: 0 <= i < p ==> s[i] != NEWLINE
    ensures var m := Min(LineLength(c), limit);
            && 0 < m <= |c| && s[..p] + c[..m] == s[..p + m]
            && (if c[m - 1] == NEWLINE then LineLength(s) == p + m
                else m == Min(|c|, limit) && forall i :: 0 <= i < p + m ==> s[i] != NEWLINE)
  {
    hide LineLength, Min;
    var m := Min(LineLength(c), limit);
    TakenLength(c, limit);
    ChunkPart(s, p, c, m);
    NoneBefore(s, p, c, m);
    if c[m - 1] == NEWLINE {
      LineLengthIs(s, p + m);
    }
  }

  /** Between two chunks: pos bytes of the line are in the buffer, none of them a newline. */
  ghost predicate Reading(v: Vol, h: Handle, ch: seq<nat>, ahead: seq<byte>, before: nat, pos: nat, size: nat) {
    && CursorOk(v, h, ch) && 1 <= size && pos <= size - 1 && pos <= |ahead|
    && (forall i :: 0 <= i < pos ==> ahead[i] != NEWLINE)
    && (if pos < size - 1
        then h.off == before + pos && Ahead(v, h, ch) == ahead[pos..]
             && Consumed(|ahead|, size - 1) == pos + Consumed(|ahead| - pos, size - 1 - pos)
        else h.off == before + Consumed(|ahead|, size - 1))
  }

  /** The chunk is the next part of what lies ahead. */
  lemma ReadingChunk(v: Vol, h: Handle, ch: seq<nat>, ahead: seq<byte>, before: nat, pos: nat, size: nat)
    requires Reading(v, h, ch, ahead, before, pos, size) && pos < size - 1 && pos < |ahead|
    requires h.off < h.size ==> InRange(v.fat, h.cur)
    ensures var (h', chunk) := ReadRun(v, h, CHUNK);
            && chunk != [] && |chunk| == Min(CHUNK, |ahead| - pos) && pos + |chunk| <= |ahead| && chunk == ahead[pos..pos + |chunk|]
            && CursorOk(v, h', ch) && h'.start == h.start && h'.size == h.size && h'.off == h.off + |chunk|
            && Ahead(v, h', ch) == ahead[pos + |chunk|..]
  {
    hide ReadRun, CursorOk, Ahead, Consumed;
    AheadFacts(v, h, ch);
    ReadIsAhead(v, h, ch, CHUNK);
    var chunk := ReadRun(v, h, CHUNK).1;
    assert ahead[pos..][..|chunk|] == ahead[pos..pos + |chunk|];
    assert ahead[pos..][|chunk|..] == ahead[pos + |chunk|..];
  }

  lemma ReadingTurn(v: Vol, h: Handle, ch: seq<nat>, ahead: seq<byte>, before: nat, pos: nat, size: nat)
    requires Reading(v, h, ch, ahead, before, pos, size) && pos < size - 1 && pos < |ahead|
    requires h.off < h.size ==> InRange(v.fat, h.cur)
    ensures var (h', chunk) := ReadRun(v, h, CHUNK);
            var m := Min(LineLength(chunk), size - 1 - pos);
            && |chunk| == Min(CHUNK, |ahead| - pos) && pos + m <= |ahead| && m > 0
            && CursorOk(v, h', ch) && h'.start == h.start && h'.size == h.size
            && ahead[..pos] + chunk[..m] == ahead[..pos + m]
            && (if chunk[m - 1] == NEWLINE then LineLength(ahead) == pos + m
                else Reading(v, h', ch, ahead, before, pos + m, size))
  {
    hide ReadRun, CursorOk, Ahead, LineLength, Consumed, Reading, Min;
    NothingBefore(v, h, ch, ahead, before, pos, size);
    AheadFacts(v, h, ch);
    ReadingChunk(v, h, ch, ahead, before, pos, size);
    var chunk := ReadRun(v, h, CHUNK).1;
    var m := Min(LineLength(chunk), size - 1 - pos);
    ChunkLine(ahead, pos, chunk, size - 1 - pos);
    if chunk[m - 1] != NEWLINE {
      ReadingNext(v, h, ReadRun(v, h, CHUNK).0, ch, ahead, before, pos, size, |chunk|, m);
    }
  }

  lemma NothingBefore(v: Vol, h: Handle, ch: seq<nat>, ahead: seq<byte>, before: nat, pos: nat, size: nat)
    requires Reading(v, h, ch, ahead, before, pos, size)
    ensures CursorOk(v, h, ch) && pos <= |ahead| && forall i :: 0 <= i < pos ==> ahead[i] != NEWLINE
  {
  }

  lemma ReadingNext(v: Vol, h: Handle, h': Handle, ch: seq<nat>, ahead: seq<byte>, before: nat, pos: nat, size: nat, got: nat, m: nat)
    requires Reading(v, h, ch, ahead, before, pos, size) && pos < size - 1 && pos < |ahead|
    requires got == Min(CHUNK, |ahead| - pos) && m <= got && m == Min(got, size - 1 - pos)
    requires CursorOk(v, h', ch) && h'.off == h.off + got && Ahead(v, h', ch) == ahead[pos + got..]
    requires forall i :: pos <= i < pos + m ==> ahead[i] != NEWLINE
    ensures Reading(v, h', ch, ahead, before, pos + m, size)
  {
    hide CursorOk, Ahead, Consumed;
    ConsumedStep(|ahead| - pos, size - 1 - pos);
  }

  lemma ReadingDone(v: Vol, h: Handle, ch: seq<nat>, ahead: seq<byte>, before: nat, pos: nat, size: nat)
    requires Reading(v, h, ch, ahead, before, pos, size) && (pos == size - 1 || pos == |ahead|)
    ensures CursorOk(v, h, ch) && pos == Min(LineLength(ahead), size - 1)
    ensures h.off == before + if LineLength(ahead) <= size - 1 then LineLength(ahead) else Consumed(|ahead|, size - 1)
  {
    hide CursorOk, Ahead, LineLength;
    if pos == |ahead| {
      LineLengthIs(ahead, pos);
      ConsumedAll(|ahead|, size - 1);
    } else {
      LineAtLeast(ahead, pos);
    }
  }

  /**
   fat32_read_line with a buffer of size bytes. A line that fits is returned whole and the cursor moves
   just behind it. A longer one is cut to size - 1 bytes, and the cursor moves to the end of the last
   chunk that was read, so the bytes in between are skipped.
   */
  method ReadLine(file: File, out: array<byte>, size: nat, ghost ch: seq<nat>) returns (pos: nat)
    requires file.vol.Valid() && !file.isDir && CursorOk(file.vol.Abs(), file.H(), ch)
    requires file.size + file.vol.Abs().csize < UINT32
    requires 1 <= size <= out.Length
    modifies file, out
    ensures file.vol.Valid() && CursorOk(file.vol.Abs(), file.H(), ch)
    ensures !file.isDir && file.startCluster == old(file.startCluster) && file.size == old(file.size)
    ensures var ahead := old(Ahead(file.vol.Abs(), file.H(), ch));
            var n := LineLength(ahead);
            && pos == Min(n, size - 1)
            && out[..pos] == ahead[..pos]
            && (pos > 0 ==> out[pos] == 0)
            && file.fileOffset == old(file.fileOffset) + Step(ahead, size)
            && Step(ahead, size) == if n < size then n else Min(|ahead|, (size + 510) / 512 * 512)
  {
    hide MountedVolume.Valid, MountedVolume.Abs, Content, CursorOk, LineLength, ReadRun, SeekRun, Ahead, Reading, Consumed, Step;
    ghost var v, ahead := file.vol.Abs(), Ahead(file.vol.Abs(), file.H(), ch);
    StepIs(ahead, size);
    var buf := new byte[CHUNK];
    var before := file.fileOffset;
    pos := 0;
    ReadingStart(v, file.H(), ch, size);
    while pos < size - 1
      invariant pos <= size - 1 && pos <= |ahead| && file.vol.Abs() == v && file.vol.Valid() && !file.isDir
      invariant file.startCluster == old(file.startCluster) && file.size == old(file.size)
      invariant Reading(v, file.H(), ch, ahead, before, pos, size) && out[..pos] == ahead[..pos]
      decreases size - pos
    {
      ReadingFacts(v, file.H(), ch, ahead, before, pos, size);
      if pos < |ahead| {
        ReadingTurn(v, file.H(), ch, ahead, before, pos, size);
      }
      var got := file.Read(buf, CHUNK);
      if got == 0 {
        break;
      }
      var m, found := CopyLine(buf[..got], out, pos, size);
      pos := pos + m;
      if found {
        EndLine(file, out, pos, before + pos, ch);
        return;
      }
    }
    ReadingDone(v, file.H(), ch, ahead, before, pos, size);
    if pos == 0 {
      return;
    }
    out[pos] := 0;
  }

  /** The line has ended inside the chunk: terminate it and seek back behind it. */
  method EndLine(file: File, out: array<byte>, pos: nat, target: nat, ghost ch: seq<nat>)
    requires file.vol.Valid() && CursorOk(file.vol.Abs(), file.H(), ch) && target <= file.size
    requires (file.startCluster == 0 || InRange(file.vol.Abs().fat, file.startCluster))
    requires file.startCluster == 0 ==> file.size < file.vol.Abs().csize
    requires target + file.vol.Abs().csize < UINT32 && pos < out.Length
    modifies file, out
    ensures file.vol.Valid() && CursorOk(file.vol.Abs(), file.H(), ch) && file.fileOffset == target
    ensures file.isDir == old(file.isDir) && file.startCluster == old(file.startCluster) && file.size == old(file.size)
    ensures out[..pos] == old(out[..pos]) && out[pos] == 0
  {
    hide MountedVolume.Valid, MountedVolume.Abs, CursorOk, SeekRun, SeekWalk;
    out[pos] := 0;
    SeekIsCursor(file.vol.Abs(), file.H(), ch, target);
    var _ := file.Seek(target);
  }

  lemma ReadingStart(v: Vol, h: Handle, ch: seq<nat>, size: nat)
    requires CursorOk(v, h, ch) && 1 <= size
    ensures Reading(v, h, ch, Ahead(v, h, ch), h.off, 0, size)
  {
  }

  /** What the loop needs to read on, and what that read will have given. */
  lemma ReadingFacts(v: Vol, h: Handle, ch: seq<nat>, ahead: seq<byte>, before: nat, pos: nat, size: nat)
    requires Reading(v, h, ch, ahead, before, pos, size) && pos < size - 1
    ensures VolOk(v) && CursorOk(v, h, ch) && (h.off < h.size ==> InRange(v.fat, h.cur))
    ensures (h.start == 0 || InRange(v.fat, h.start)) && (h.start == 0 ==> h.size < v.csize)
    ensures h.off <= h.size == before + |ahead|
    ensures pos == |ahead| ==> ReadRun(v, h, CHUNK) == (h, [])
  {
  }

  lemma ConsumedStep(len: nat, n: nat)
    requires n > 0 && len > 0
    ensures var got := Min(CHUNK, len);
            Consumed(len, n) == if n <= got then got else got + Consumed(len - got, n - got)
  {
  }

  /**
   Reading lines until there is none: with every line shorter than the buffer the results are the file's lines
   from the cursor on, and the cursor ends at the end of the file.
   */
  method ReadLines(file: File, size: nat, ghost ch: seq<nat>) returns (lines: seq<seq<byte>>)
    requires file.vol.Valid() && !file.isDir && CursorOk(file.vol.Abs(), file.H(), ch)
    requires file.size + file.vol.Abs().csize < UINT32 && 1 <= size
    modifies file
    ensures file.vol.Valid() && CursorOk(file.vol.Abs(), file.H(), ch) && file.size == old(file.size)
    ensures lines == Pieces(old(Ahead(file.vol.Abs(), file.H(), ch)), size)
    ensures size > 1 ==> file.fileOffset == file.size
    ensures var split := Split(old(Ahead(file.vol.Abs(), file.H(), ch)));
            (forall k :: 0 <= k < |split| ==> |split[k]| < size) <==> lines == split
  {
    hide MountedVolume.Valid, MountedVolume.Abs, CursorOk, Ahead, Pieces;
    PiecesAreLines(Ahead(file.vol.Abs(), file.H(), ch), size);
    hide Split;
    lines := ReadPieces(file, size, ch);
  }

  method ReadPieces(file: File, size: nat, ghost ch: seq<nat>) returns (lines: seq<seq<byte>>)
    requires file.vol.Valid() && !file.isDir && CursorOk(file.vol.Abs(), file.H(), ch)
    requires file.size + file.vol.Abs().csize < UINT32 && 1 <= size
    modifies file
    ensures file.vol.Valid() && CursorOk(file.vol.Abs(), file.H(), ch) && file.size == old(file.size)
    ensures lines == Pieces(old(Ahead(file.vol.Abs(), file.H(), ch)), size)
    ensures size > 1 ==> file.fileOffset == file.size
  {
    hide MountedVolume.Valid, MountedVolume.Abs, CursorOk, LineLength, Ahead, Step;
    ghost var v, ahead := file.vol.Abs(), Ahead(file.vol.Abs(), file.H(), ch);
    ghost var rest := ahead;
    var buffer := new byte[size];
    lines := [];
    assert lines + Pieces(rest, size) == Pieces(ahead, size);
    while true
      invariant file.vol.Valid() && file.vol.Abs() == v && !file.isDir && CursorOk(v, file.H(), ch)
      invariant file.size == old(file.size) && rest == Ahead(v, file.H(), ch)
      invariant lines + Pieces(rest, size) == Pieces(ahead, size)
      decreases |rest|
    {
      ghost var h := file.H();
      var n := ReadLine(file, buffer, size, ch);
      AheadMoves(v, h, file.H(), ch, Step(rest, size));
      if n == 0 {
        AheadFacts(v, file.H(), ch);
        return;
      }
      PiecesUnfold(rest, size, buffer[..n]);
      assert lines + ([buffer[..n]] + Pieces(rest[Step(rest, size)..], size)) ==
             lines + [buffer[..n]] + Pieces(rest[Step(rest, size)..], size);
      lines := lines + [buffer[..n]];
      rest := rest[Step(rest, size)..];
    }
  }
}
