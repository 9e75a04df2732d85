/** config_get_str: the value of the first line whose key matches. */
module Config {
  import opened Arith
  import opened Bytes
  import opened Names
  import opened Options
  import opened FileCursor
  import opened OpenFile
  import opened Volume
  import opened CStrings
  import opened Lines

  const EQUALS: byte := 0x3D
  const LINE_BUFFER: nat := 512

  const DELIMS: CString := [EQUALS]

  datatype Assignment = Assignment(key: CString, value: CString)

  /** Key and value of a line: its first two tokens between equals signs. A newline at the end stays in the value. */
  function KeyValue(line: seq<byte>): Option<Assignment> {
    var r := Skip(UpTo(line, 0), DELIMS);
    var v := Skip(AfterToken(r, DELIMS), DELIMS);
    if r == [] || v == [] then None
    else Some(Assignment(r[..TokenLength(r, DELIMS)], v[..TokenLength(v, DELIMS)]))
  }

  /** The value of the first of the lines with that key. */
  function Lookup(lines: seq<seq<byte>>, key: CString): Option<CString> {
    if lines == [] then None
    else
      match KeyValue(lines[0])
      case Some(Assignment(k, v)) => if k == key then Some(v) else Lookup(lines[1..], key)
      case None => Lookup(lines[1..], key)
  }

  predicate Matches(line: seq<byte>, key: CString) {
    KeyValue(line).Some? && KeyValue(line).value.key == key
  }

  /** Line i is the first with the key. */
  predicate FirstMatch(lines: seq<seq<byte>>, key: CString, i: nat) {
    i < |lines| && Matches(lines[i], key) && forall j :: 0 <= j < i ==> !Matches(lines[j], key)
  }

  predicate NoMatch(lines: seq<seq<byte>>, key: CString) {
    forall i :: 0 <= i < |lines| ==> !Matches(lines[i], key)
  }

  lemma MatchInRest(lines: seq<seq<byte>>, key: CString, i: nat)
    requires lines != [] && !Matches(lines[0], key)
    ensures NoMatch(lines, key) == NoMatch(lines[1..], key)
    ensures FirstMatch(lines, key, i) ==> i > 0 && FirstMatch(lines[1..], key, i - 1)
  {
    hide Matches;
    forall k | 1 <= k < |lines| ensures lines[k] == lines[1..][k - 1] {
    }
  }

  lemma MatchAtOnce(lines: seq<seq<byte>>, key: CString, i: nat)
    requires lines == [] || Matches(lines[0], key)
    ensures NoMatch(lines, key) <==> lines == []
    ensures FirstMatch(lines, key, i) ==> lines != [] && i == 0
  {
    hide Matches;
  }

  lemma LookupUnfolds(lines: seq<seq<byte>>, key: CString)
    ensures lines == [] ==> Lookup(lines, key) == None
    ensures lines != [] && Matches(lines[0], key) ==> Lookup(lines, key) == Some(KeyValue(lines[0]).value.value)
    ensures lines != [] && !Matches(lines[0], key) ==> Lookup(lines, key) == Lookup(lines[1..], key)
  {
    hide KeyValue;
  }

  /** The first line that matches decides. */
  lemma {:induction false} LookupIsFirstMatch(lines: seq<seq<byte>>, key: CString, i: nat)
    ensures Lookup(lines, key) == None <==> NoMatch(lines, key)
    ensures FirstMatch(lines, key, i) ==>
              i < |lines| && KeyValue(lines[i]).Some? && Lookup(lines, key) == Some(KeyValue(lines[i]).value.value)
  {
    assert FirstMatch(lines, key, i) ==> i < |lines| && KeyValue(lines[i]).Some?;
    hide KeyValue, FirstMatch, NoMatch, Lookup, Matches;
    LookupUnfolds(lines, key);
    if lines == [] || Matches(lines[0], key) {
      MatchAtOnce(lines, key, i);
    } else {
      LookupIsFirstMatch(lines[1..], key, if i > 0 then i - 1 else 0);
      MatchInRest(lines, key, i);
    }
  }

  lemma FirstTokenOfAssignment(line: CString, key: CString, v: CString)
    requires key != [] && EQUALS !in key && line == key + [EQUALS] + v
    ensures Skip(line, DELIMS) == line && TokenLength(line, DELIMS) == |key| && AfterToken(line, DELIMS) == v
  {
    hide Skip, TokenLength;
    SkipIs(line, DELIMS, 0);
    TokenLengthIs(line, DELIMS, |key|);
    assert line[|key| + 1..] == v;
  }

  lemma LastToken(v: CString)
    requires EQUALS !in v
    ensures Skip(v, DELIMS) == v && TokenLength(v, DELIMS) == |v|
  {
  }

  /** A line of the form key=value gives key and value, and the value keeps the line's newline. */
  lemma KeyValueOfAssignment(key: CString, value: CString)
    requires key != [] && 0x3D !in key && 0x3D !in value
    ensures KeyValue(key + [0x3D] + value + [0x0A]) == Some(Assignment(key, value + [0x0A]))
  {
    hide Skip, TokenLength, UpTo, AfterToken;
    var line: CString := key + [EQUALS] + value + [NEWLINE];
    var v: CString := value + [NEWLINE];
    assert line == key + [EQUALS] + v;
    UpToNothing(line, 0);
    FirstTokenOfAssignment(line, key, v);
    LastToken(v);
    assert line[..|key|] == key && v[..|v|] == v;
  }

  lemma LineString(mem: seq<byte>, n: nat)
    requires n < |mem| && mem[n] == 0
    ensures Terminated(mem, 0) && StrAt(mem, 0) == UpTo(mem[..n], 0)
  {
  }

  /** A string that ends before everything that changed is still there. */
  lemma EarlierString(was: seq<byte>, now: seq<byte>, k: nat, next: nat)
    requires Terminated(was, k) && |now| == |was| && k + |StrAt(was, k)| < next <= |was|
    requires forall i :: 0 <= i < next ==> now[i] == was[i]
    ensures Terminated(now, k) && StrAt(now, k) == StrAt(was, k)
  {
  }

  /** Two strtok calls on a line give its key and value, and cutting the second leaves the first in place. */
  lemma TwoTokens(mem: seq<byte>, n: nat, mem1: seq<byte>, next1: nat, key: Option<nat>,
                  mem2: seq<byte>, next2: nat, value: Option<nat>)
    requires n < |mem| && mem[n] == 0 && Terminated(mem, 0) && Terminated(mem1, next1) && Terminated(mem2, next2)
    requires TokenCut(mem, 0, DELIMS, mem1, next1, key) && TokenCut(mem1, next1, DELIMS, mem2, next2, value)
    ensures KeyValue(mem[..n]) == None <==> key == None || value == None
    ensures key.Some? && value.Some? ==>
              && Terminated(mem2, key.value) && Terminated(mem2, value.value)
              && KeyValue(mem[..n]) == Some(Assignment(StrAt(mem2, key.value), StrAt(mem2, value.value)))
  {
    hide Skip, TokenLength, StrAt, UpTo, Terminated, TokenCut, AfterToken;
    LineString(mem, n);
    CutMeans(mem, 0, mem1, next1, key);
    CutMeans(mem1, next1, mem2, next2, value);
    if key.Some? && value.Some? {
      CutStaysBehind(mem, 0, mem1, next1, key);
      CutKeepsFront(mem1, next1, mem2, next2, value);
      EarlierString(mem1, mem2, key.value, next1);
    }
  }

  lemma CutMeans(mem: seq<byte>, next: nat, mem': seq<byte>, next': nat, tok: Option<nat>)
    requires Terminated(mem, next) && Terminated(mem', next') && TokenCut(mem, next, DELIMS, mem', next', tok)
    ensures var r := Skip(StrAt(mem, next), DELIMS);
            && (tok == None <==> r == [])
            && (tok.Some? ==> Terminated(mem', tok.value) && StrAt(mem', tok.value) == r[..TokenLength(r, DELIMS)]
                              && StrAt(mem', next') == AfterToken(r, DELIMS))
  {
    hide Skip, TokenLength, StrAt, Terminated, AfterToken;
  }

  /** The token that was cut, and its terminator, lie before the next position. */
  lemma CutStaysBehind(mem: seq<byte>, next: nat, mem': seq<byte>, next': nat, tok: Option<nat>)
    requires Terminated(mem, next) && Terminated(mem', next') && TokenCut(mem, next, DELIMS, mem', next', tok)
    requires tok.Some? && |AfterToken(Skip(StrAt(mem, next), DELIMS), DELIMS)| > 0
    ensures Terminated(mem', tok.value) && tok.value + |StrAt(mem', tok.value)| < next' <= |mem'|
  {
    hide Skip, TokenLength, StrAt, Terminated;
  }

  lemma CutKeepsFront(mem: seq<byte>, next: nat, mem': seq<byte>, next': nat, tok: Option<nat>)
    requires Terminated(mem, next) && Terminated(mem', next') && TokenCut(mem, next, DELIMS, mem', next', tok)
    ensures |mem'| == |mem| && forall i :: 0 <= i < next && i < |mem| ==> mem'[i] == mem[i]
  {
  }

  /** The two strtok calls on a line in the buffer. */
  method SplitLine(buffer: array<byte>, n: nat) returns (kv: Option<(nat, nat)>)
    requires n < buffer.Length && buffer[n] == 0
    modifies buffer
    ensures match kv
            case None => KeyValue(old(buffer[..n])) == None
            case Some((k, v)) =>
              && Terminated(buffer[..], k) && Terminated(buffer[..], v)
              && KeyValue(old(buffer[..n])) == Some(Assignment(StrAt(buffer[..], k), StrAt(buffer[..], v)))
  {
    hide KeyValue, StrAt, TokenCut, Terminated;
    ghost var mem := buffer[..];
    assert mem[..n] == buffer[..n];
    LineString(mem, n);
    var strtok := new StrTok(buffer);
    assert buffer[..] == mem;
    var key := strtok.Token(DELIMS);
    ghost var mem1, next1 := buffer[..], strtok.next;
    var value := strtok.Token(DELIMS);
    TwoTokens(mem, n, mem1, next1, key, buffer[..], strtok.next, value);
    kv := if key.Some? && value.Some? then Some((key.value, value.value)) else None;
  }

  /**
   config_get_str: it succeeds exactly when one of the pieces that repeated fat32_read_line returns has the key,
   and leaves that piece's value, cut to size - 1 characters, as a C string in out. When every line is shorter
   than the line buffer, the pieces are the file's lines.
   */
  method GetStr(file: File, key: CString, out: array<byte>, size: nat, ghost ch: seq<nat>) returns (ok: bool)
    requires file.vol.Valid() && !file.isDir && CursorOk(file.vol.Abs(), file.H(), ch)
    requires file.size + file.vol.Abs().csize < UINT32
    requires 1 <= size <= out.Length
    modifies file, out
    ensures var ahead := old(Ahead(file.vol.Abs(), file.H(), ch));
            var found := Lookup(Pieces(ahead, 512), key);
            && (ok <==> found.Some?)
            && (ok ==> StrAt(out[..], 0) == found.value[..Min(|found.value|, size - 1)])
            && (!ok ==> out[..] == old(out[..]))
            && ((forall k :: 0 <= k < |Split(ahead)| ==> |Split(ahead)[k]| <= 511) ==> found == Lookup(Split(ahead), key))
  {
    hide MountedVolume.Valid, MountedVolume.Abs, CursorOk, LineLength, KeyValue, StrAt, Terminated, Ahead, Step;
    ghost var v, ahead := file.vol.Abs(), Ahead(file.vol.Abs(), file.H(), ch);
    ghost var rest := ahead;
    var buffer := new byte[LINE_BUFFER];
    PiecesAreLines(ahead, LINE_BUFFER);
    hide LinesFit, Split;
    while true
      invariant file.vol.Valid() && file.vol.Abs() == v && !file.isDir && CursorOk(v, file.H(), ch)
      invariant file.size == old(file.size) && out[..] == old(out[..])
      invariant rest == Ahead(v, file.H(), ch) && Lookup(Pieces(rest, LINE_BUFFER), key) == Lookup(Pieces(ahead, LINE_BUFFER), key)
      decreases |rest|
    {
      ghost var h := file.H();
      var n := ReadLine(file, buffer, LINE_BUFFER, ch);
      AheadMoves(v, h, file.H(), ch, Step(rest, LINE_BUFFER));
      if n == 0 {
        return false;
      }
      PiecesUnfold(rest, LINE_BUFFER, buffer[..n]);
      rest := rest[Step(rest, LINE_BUFFER)..];
      var kv := SplitLine(buffer, n);
      if kv.Some? {
        var order := StrCmp(buffer, kv.value.0, key);
        if order == 0 {
          StrNCpy(out, buffer, kv.value.1, size - 1);
          out[size - 1] := 0;
          PaddedString(out[..], size, StrAt(buffer[..], kv.value.1));
          return true;
        }
      }
    }
  }

  lemma PaddedString(mem: seq<byte>, size: nat, s: CString)
    requires 1 <= size <= |mem| && mem[size - 1] == 0
    requires mem[..Min(|s|, size - 1)] == s[..Min(|s|, size - 1)]
    requires forall i :: |s| <= i < size - 1 ==> mem[i] == 0
    ensures StrAt(mem, 0) == s[..Min(|s|, size - 1)]
  {
    var n := Min(|s|, size - 1);
    assert mem[0..n] == mem[..n];
    StrAtIs(mem, 0, n);
  }
}
