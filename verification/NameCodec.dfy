/** The loops over names: comparison, the last slash of a path, and the two directions of the 8.3 field. */
module NameCodec {
  import opened Bytes
  import opened Names
  import opened CStrings
  import opened Directory

  method StrCaseCmp(a: CString, b: CString) returns (r: int)
    ensures r == CaseCompare(a, b)
  {
    var i := 0;
    while i < |a| && i < |b|
      invariant i <= |a| && i <= |b| && CaseCompare(a, b) == CaseCompare(a[i..], b[i..])
    {
      if ToLower(a[i]) != ToLower(b[i]) {
        return (a[i] as int) - (b[i] as int);
      }
      i := i + 1;
    }
    var ca: int := if i < |a| then a[i] else 0;
    var cb: int := if i < |b| then b[i] else 0;
    r := ca - cb;
  }

  /** strrchr for a slash. */
  method FindLastSlash(path: CString) returns (last: int)
    ensures last == LastSlash(path, |path|)
  {
    last := -1;
    for i := 0 to |path|
      invariant last == LastSlash(path, i)
    {
      if path[i] == SLASH {
        last := i;
      }
    }
  }

  /** A buffer after str_to_upper: the string at its front in upper case, the rest as it was. */
  function UpperCased(mem: seq<byte>): (r: seq<byte>)
    ensures |r| == |mem|
  {
    Upper(StrAt(mem, 0)) + mem[|StrAt(mem, 0)|..]
  }

  lemma NoZeroInside(mem: seq<byte>)
    requires Terminated(mem, 0)
    ensures |StrAt(mem, 0)| < |mem| && forall i :: 0 <= i < |StrAt(mem, 0)| ==> mem[i] == StrAt(mem, 0)[i] && mem[i] != 0
  {
    hide Terminated, StrAt;
    StrAtEnds(mem, 0);
    var s := StrAt(mem, 0);
    forall i | 0 <= i < |s| ensures mem[i] == s[i] && mem[i] != 0 {
      assert s[i] in s;
      assert mem[0..|s|][i] == s[i];
    }
  }

  /** str_to_upper, in the caller's buffer; returns the length of the string. */
  method StrToUpper(str: array<byte>) returns (n: nat)
    requires Terminated(str[..], 0)
    modifies str
    ensures str[..] == UpperCased(old(str[..]))
    ensures n < str.Length && str[..n] == Upper(StrAt(old(str[..]), 0))
    ensures str[n] == 0 && forall i :: 0 <= i < str.Length ==>
              if i < n then old(str[i]) != 0 && IsCapitalOf(str[i], old(str[i])) else str[i] == old(str[i])
  {
    hide Terminated, StrAt;
    StrAtEnds(str[..], 0);
    NoZeroInside(str[..]);
    ghost var was, s := str[..], StrAt(str[..], 0);
    n := 0;
    while str[n] != 0
      invariant n <= |s| < str.Length && str[..n] == Upper(s)[..n] && str[n..] == was[n..]
      decreases |s| - n
    {
      assert str[n] == str[n..][0] == was[n];
      assert n < |s| ==> was[n] == s[n];
      str[n] := ToUpper(str[n]);
      n := n + 1;
    }
    assert str[n] == str[n..][0] == was[n];
    assert str[..] == str[..n] + str[n..];
    UpperForgetsCase(s, s);
    forall i | 0 <= i < str.Length ensures if i < n then was[i] != 0 && IsCapitalOf(str[i], was[i]) else str[i] == was[i] {
      assert if i < n then str[i] == str[..n][i] else str[i] == str[n..][i - n];
    }
  }

  /** The padding loops of create_direntry. */
  method EncodeName(name: CString) returns (raw: seq<byte>)
    ensures raw == Encode(name)
  {
    var dot := 0;
    while dot < |name| && name[dot] != DOT
      invariant dot <= |name| && DOT !in name[..dot]
    {
      dot := dot + 1;
    }
    IndexOfIs(name, DOT, dot);
    var base := PadField(name[..dot], 8);
    var ext := PadField(if dot < |name| then name[dot + 1..] else [], 3);
    assert dot < |name| <==> DOT in name;
    raw := base + ext;
  }

  method PadField(s: CString, n: nat) returns (f: seq<byte>)
    ensures f == Field(s, n)
  {
    f := [];
    var length := if |s| > n then n else |s|;
    for j := 0 to length
      invariant |f| == j && forall i :: 0 <= i < j ==> f[i] == ToUpper(s[i])
    {
      f := f + [ToUpper(s[j])];
    }
    for j := length to n
      invariant |f| == j && forall i :: 0 <= i < j ==> f[i] == if i < |s| then ToUpper(s[i]) else SPACE
    {
      f := f + [SPACE];
    }
  }

  /** The rebuilding loops of fat32_find_file; the result is read as a C string. */
  method DecodeName(raw: seq<byte>) returns (name: CString)
    requires |raw| == 11
    ensures name == Decode(raw)
  {
    var buffer: seq<byte> := CopyUpToSpace(raw[..8]);
    if raw[8] != SPACE {
      var ext := CopyUpToSpace(raw[8..]);
      buffer := buffer + ([DOT] + ext);
    } else {
      assert buffer + [] == buffer;
    }
    var end := 0;
    while end < |buffer| && buffer[end] != 0
      invariant end <= |buffer| && 0 !in buffer[..end]
    {
      end := end + 1;
    }
    IndexOfIs(buffer, 0, end);
    name := buffer[..end];
  }

  method CopyUpToSpace(raw: seq<byte>) returns (s: seq<byte>)
    ensures s == UpTo(raw, SPACE)
  {
    var j := 0;
    s := [];
    while j < |raw| && raw[j] != SPACE
      invariant j <= |raw| && s == raw[..j] && SPACE !in raw[..j]
    {
      s := s + [raw[j]];
      j := j + 1;
    }
    IndexOfIs(raw, SPACE, j);
  }
}
