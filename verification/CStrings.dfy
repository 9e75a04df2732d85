/** Zero-terminated strings in byte buffers: strcmp, strncpy, and strtok with its remembered position. */
module CStrings {
  import opened Arith
  import opened Bytes
  import opened Names
  import opened Options

  /** The C string that starts at position p of a buffer. */
  function StrAt(mem: seq<byte>, p: nat): (s: CString)
    requires p <= |mem|
    ensures p + |s| <= |mem|
  {
    UpTo(mem[p..], 0)
  }

  predicate Terminated(mem: seq<byte>, p: nat) {
    p < |mem| && 0 in mem[p..]
  }

  lemma StrAtIs(mem: seq<byte>, p: nat, n: nat)
    requires p + n <= |mem| && 0 !in mem[p..p + n] && (p + n < |mem| ==> mem[p + n] == 0)
    ensures StrAt(mem, p) == mem[p..p + n]
  {
  }

  lemma StrAtEnds(mem: seq<byte>, p: nat)
    requires Terminated(mem, p)
    ensures var s := StrAt(mem, p);
            p + |s| < |mem| && mem[p + |s|] == 0 && mem[p..p + |s|] == s
  {
  }

  // ---------- strtok ----------

  /** s without its leading delimiters. */
  function Skip(s: CString, delims: CString): (r: CString)
    ensures |r| <= |s| && r == s[|s| - |r|..] && (r != [] ==> r[0] !in delims)
    ensures forall i :: 0 <= i < |s| - |r| ==> s[i] in delims
  {
    if s != [] && s[0] in delims then Skip(s[1..], delims) else s
  }

  /** How far s goes before its first delimiter. */
  function TokenLength(s: CString, delims: CString): (t: nat)
    ensures t <= |s| && (t < |s| ==> s[t] in delims)
    ensures forall i :: 0 <= i < t ==> s[i] !in delims
  {
    if s == [] || s[0] in delims then 0 else 1 + TokenLength(s[1..], delims)
  }

  lemma {:induction false} SkipIs(s: CString, delims: CString, k: nat)
    requires k <= |s| && (forall i :: 0 <= i < k ==> s[i] in delims) && (k < |s| ==> s[k] !in delims)
    ensures Skip(s, delims) == s[k..]
  {
  }

  lemma {:induction false} TokenLengthIs(s: CString, delims: CString, t: nat)
    requires t <= |s| && (forall i :: 0 <= i < t ==> s[i] !in delims) && (t < |s| ==> s[t] in delims)
    ensures TokenLength(s, delims) == t
  {
  }

  /** What is left for the next call once the first token of r has been cut off. */
  function AfterToken(r: CString, delims: CString): CString {
    var t := TokenLength(r, delims);
    if t < |r| then r[t + 1..] else []
  }

  /** What one strtok call does to the buffer mem and the position next. */
  ghost predicate TokenCut(mem: seq<byte>, next: nat, delims: CString, mem': seq<byte>, next': nat, tok: Option<nat>)
    requires Terminated(mem, next) && Terminated(mem', next')
  {
    var s := StrAt(mem, next);
    var r := Skip(s, delims);
    var start := next + |s| - |r|;
    if r == [] then tok == None && mem' == mem && next' == start && StrAt(mem, next') == []
    else
      var t := TokenLength(r, delims);
      && tok == Some(start) && Terminated(mem', start)
      && mem' == (if t < |r| then mem[start + t := 0] else mem)
      && next' == start + t + (if t < |r| then 1 else 0)
      && StrAt(mem', start) == r[..t]
      && StrAt(mem', next') == AfterToken(r, delims)
  }

  /** The tokenizer's static pointer: a buffer and a position in it. */
  class StrTok {
    var buffer: array<byte>
    var next: nat

    constructor (buffer: array<byte>)
      ensures this.buffer == buffer && next == 0
    {
      this.buffer, next := buffer, 0;
    }

    /** Step over leading delimiters. */
    method SkipDelims(delims: CString)
      requires Terminated(buffer[..], next)
      modifies `next
      ensures Terminated(buffer[..], next)
      ensures next <= buffer.Length
      ensures var s := StrAt(buffer[..], old(next));
              var r := Skip(s, delims);
              next == old(next) + |s| - |r| && StrAt(buffer[..], next) == r
    {
      hide StrAt, Skip, Terminated;
      StrAtEnds(buffer[..], next);
      ghost var mem, from, s := buffer[..], next, StrAt(buffer[..], next);
      while buffer[next] != 0 && buffer[next] in delims
        invariant from <= next <= from + |s|
        invariant forall i :: 0 <= i < next - from ==> s[i] in delims
        decreases from + |s| - next
      {
        assert buffer[next] == s[next - from];
        next := next + 1;
      }
      SkippedTo(mem, from, next - from, delims);
    }

    /** Step to the token's end and put a terminator there. */
    method CutToken(delims: CString)
      requires Terminated(buffer[..], next) && StrAt(buffer[..], next) != [] && StrAt(buffer[..], next)[0] !in delims
      modifies `next, buffer
      ensures Terminated(buffer[..], next)
      ensures var (mem, start) := (old(buffer[..]), old(next));
              var r := StrAt(mem, start);
              var t := TokenLength(r, delims);
              && t > 0 && Terminated(buffer[..], start)
              && buffer[..] == (if t < |r| then mem[start + t := 0] else mem)
              && next == start + t + (if t < |r| then 1 else 0)
              && StrAt(buffer[..], start) == r[..t] && StrAt(buffer[..], next) == AfterToken(r, delims)
    {
      hide StrAt, TokenLength, Terminated;
      ghost var mem, start, r := buffer[..], next, StrAt(buffer[..], next);
      StrAtEnds(mem, next);
      while buffer[next] != 0 && buffer[next] !in delims
        invariant start <= next <= start + |r| && buffer[..] == mem
        invariant forall i :: 0 <= i < next - start ==> r[i] !in delims
        decreases start + |r| - next
      {
        assert buffer[next] == mem[next] == r[next - start];
        next := next + 1;
      }
      ghost var t := next - start;
      assert t < |r| ==> buffer[next] == r[t] && r[t] in r;
      TokenLengthIs(r, delims, t);
      SuffixString(mem, start, t);
      if buffer[next] != 0 {
        buffer[next] := 0;
        next := next + 1;
        CutString(mem, start, t);
        assert buffer[..] == mem[start + t := 0];
      }
    }

    /** strtok(NULL, delims): cut the next token in place and return where it starts. */
    method Token(delims: CString) returns (tok: Option<nat>)
      requires Terminated(buffer[..], next)
      modifies `next, buffer
      ensures Terminated(buffer[..], next)
      ensures TokenCut(old(buffer[..]), old(next), delims, buffer[..], next, tok)
    {
      hide StrAt, Skip, TokenLength, Terminated, AfterToken;
      SkipDelims(delims);
      StrAtEnds(buffer[..], next);
      if buffer[next] == 0 {
        EmptyAtZero(buffer[..], next);
        return None;
      }
      EmptyAtZero(buffer[..], next);
      tok := Some(next);
      CutToken(delims);
    }
  }

  lemma EmptyAtZero(mem: seq<byte>, p: nat)
    requires p < |mem|
    ensures StrAt(mem, p) == [] <==> mem[p] == 0
  {
  }

  lemma SuffixString(mem: seq<byte>, p: nat, k: nat)
    requires Terminated(mem, p) && k <= |StrAt(mem, p)|
    ensures Terminated(mem, p + k) && StrAt(mem, p + k) == StrAt(mem, p)[k..]
  {
  }

  /** Leading delimiters have been stepped over up to the end of the string or a byte that is none. */
  lemma SkippedTo(mem: seq<byte>, p: nat, k: nat, delims: CString)
    requires Terminated(mem, p) && k <= |StrAt(mem, p)| && p + k < |mem|
    requires (forall i :: 0 <= i < k ==> StrAt(mem, p)[i] in delims) && (mem[p + k] == 0 || mem[p + k] !in delims)
    ensures Terminated(mem, p + k)
    ensures var s := StrAt(mem, p); |Skip(s, delims)| == |s| - k && StrAt(mem, p + k) == Skip(s, delims)
  {
    hide StrAt, Skip, Terminated;
    var s := StrAt(mem, p);
    StrAtEnds(mem, p);
    SuffixString(mem, p, k);
    assert k < |s| ==> s[k] == mem[p..p + |s|][k] && s[k] in s;
    SkipIs(s, delims, k);
  }

  lemma TerminatedAt(mem: seq<byte>, p: nat, k: nat)
    requires p <= k < |mem| && mem[k] == 0
    ensures Terminated(mem, p)
  {
  }

  lemma CutString(mem: seq<byte>, p: nat, t: nat)
    requires Terminated(mem, p) && t < |StrAt(mem, p)|
    ensures p + t + 1 < |mem|
    ensures var cut := mem[p + t := 0];
            && Terminated(cut, p) && StrAt(cut, p) == StrAt(mem, p)[..t]
            && Terminated(cut, p + t + 1) && StrAt(cut, p + t + 1) == StrAt(mem, p)[t + 1..]
  {
    hide StrAt, Terminated;
    StrAtEnds(mem, p);
    CutFront(mem, p, t);
    CutBack(mem, p, t);
  }

  lemma CutFront(mem: seq<byte>, p: nat, t: nat)
    requires Terminated(mem, p) && t < |StrAt(mem, p)|
    ensures p + t < |mem| && Terminated(mem[p + t := 0], p)
    ensures StrAt(mem[p + t := 0], p) == StrAt(mem, p)[..t]
  {
    hide StrAt, Terminated;
    var s := StrAt(mem, p);
    StrAtEnds(mem, p);
    var cut := mem[p + t := 0];
    TerminatedAt(cut, p, p + t);
    assert cut[p..p + t] == s[..t];
    StrAtIs(cut, p, t);
  }

  lemma CutBack(mem: seq<byte>, p: nat, t: nat)
    requires Terminated(mem, p) && t < |StrAt(mem, p)|
    ensures p + t + 1 < |mem| && Terminated(mem[p + t := 0], p + t + 1)
    ensures StrAt(mem[p + t := 0], p + t + 1) == StrAt(mem, p)[t + 1..]
  {
  }

  // ---------- comparing and copying ----------

  /** The difference of the first characters in which two strings differ, the terminator being 0. */
  function StrOrder(a: CString, b: CString): int {
    if a == [] then (if b == [] then 0 else -(b[0] as int))
    else if b == [] then a[0]
    else if a[0] != b[0] then a[0] as int - b[0] as int
    else StrOrder(a[1..], b[1..])
  }

  lemma {:induction false} StrOrderZero(a: CString, b: CString)
    ensures StrOrder(a, b) == 0 <==> a == b
  {
    if a != [] && b != [] {
      StrOrderZero(a[1..], b[1..]);
      assert a[0] in a && b[0] in b;
      assert a == [a[0]] + a[1..] && b == [b[0]] + b[1..];
    } else if a != [] {
      assert a[0] in a;
    } else if b != [] {
      assert b[0] in b;
    }
  }

  /** strcmp of a string in a buffer with another. */
  method StrCmp(mem: array<byte>, p: nat, b: CString) returns (r: int)
    requires Terminated(mem[..], p)
    ensures r == StrOrder(StrAt(mem[..], p), b)
    ensures r == 0 <==> StrAt(mem[..], p) == b
  {
    hide Terminated, StrAt;
    StrAtEnds(mem[..], p);
    ghost var a := StrAt(mem[..], p);
    StrOrderZero(a, b);
    var i := 0;
    while i < |b| && mem[p + i] != 0 && mem[p + i] == b[i]
      invariant i <= |a| && i <= |b| && StrOrder(a, b) == StrOrder(a[i..], b[i..])
    {
      assert mem[p + i] == a[i] || i == |a|;
      i := i + 1;
    }
    var cb: int := if i < |b| then b[i] else 0;
    r := mem[p + i] as int - cb;
    assert i < |a| ==> mem[p + i] == a[i] && a[i] in a;
  }

  /** strncpy: n bytes of out are the string, cut or padded with zeros. */
  method StrNCpy(out: array<byte>, mem: array<byte>, p: nat, n: nat)
    requires Terminated(mem[..], p) && n <= out.Length && out != mem
    modifies out
    ensures var s := StrAt(mem[..], p);
            && out[..Min(|s|, n)] == s[..Min(|s|, n)]
            && (forall i :: |s| <= i < n ==> out[i] == 0)
            && out[n..] == old(out[n..])
  {
    ghost var s := StrAt(mem[..], p);
    StrAtEnds(mem[..], p);
    var i := 0;
    while i < n && mem[p + i] != 0
      invariant i <= n && i <= |s| && out[..i] == s[..i] && out[n..] == old(out[n..])
    {
      assert i < |s| && mem[p + i] == s[i];
      out[i] := mem[p + i];
      i := i + 1;
    }
    assert i < |s| ==> mem[p + i] == s[i] && s[i] in s;
    while i < n
      invariant Min(|s|, n) <= i <= n && out[..Min(|s|, n)] == s[..Min(|s|, n)] && out[n..] == old(out[n..])
      invariant forall j :: |s| <= j < i ==> out[j] == 0
    {
      out[i] := 0;
      i := i + 1;
    }
  }
}
