/** Character case, case-insensitive comparison, and the 11-byte on-disk form of 8.3 names. */
module Names {
  import opened Bytes

  const DOT: byte := 0x2E
  const SLASH: byte := 0x2F

  /** A C string: bytes without a terminator inside. */
  type CString = s: seq<byte> | 0 !in s

  /** toupper of libc/src/ctype.c. */
  function ToUpper(c: byte): byte {
    if 97 <= c <= 122 then c - 32 else c
  }

  /** tolower of libc/src/ctype.c, which moves lower-case letters up by 32 and leaves upper-case ones alone. */
  function ToLower(c: byte): int {
    if 97 <= c <= 122 then c + 32 else c
  }

  function Upper(s: CString): (r: CString)
    ensures |r| == |s| && IsUpper(r)
    ensures forall i :: 0 <= i < |s| ==> r[i] == ToUpper(s[i])
  {
    seq(|s|, i requires 0 <= i < |s| => assert s[i] in s; ToUpper(s[i]))
  }

  predicate IsUpper(s: seq<byte>) {
    forall i :: 0 <= i < |s| ==> !(97 <= s[i] <= 122)
  }

  lemma UpperOfUpper(s: CString)
    requires IsUpper(s)
    ensures Upper(s) == s
  {
  }

  /** Equal, or the same letter in the two cases: the ASCII letters are 32 apart. */
  predicate SameButCase(p: seq<byte>, q: seq<byte>) {
    |p| == |q| && forall i :: 0 <= i < |p| ==> SameLetter(p[i], q[i])
  }

  predicate SameLetter(a: byte, b: byte) {
    a == b || (65 <= a <= 90 && b == a + 32) || (65 <= b <= 90 && a == b + 32)
  }

  /** The capital of a lower-case letter; any other byte itself. */
  predicate IsCapitalOf(capital: byte, c: byte) {
    SameLetter(capital, c) && !(97 <= capital <= 122)
  }

  /** Upper-casing makes equal exactly the strings that agree up to the case of letters. */
  lemma UpperForgetsCase(p: CString, q: CString)
    ensures Upper(p) == Upper(q) <==> SameButCase(p, q)
    ensures forall i :: 0 <= i < |p| ==> IsCapitalOf(Upper(p)[i], p[i])
  {
    if Upper(p) == Upper(q) {
      forall i | 0 <= i < |p| ensures SameLetter(p[i], q[i]) {
        assert Upper(p)[i] == Upper(q)[i];
      }
    }
  }

  /** strcasecmp. */
  function CaseCompare(a: CString, b: CString): int {
    if a == [] && b == [] then 0
    else if a == [] then -b[0]
    else if b == [] then a[0]
    else if ToLower(a[0]) != ToLower(b[0]) then a[0] - b[0]
    else CaseCompare(a[1..], b[1..])
  }

  /** It reports equality exactly on strings that agree under tolower. */
  lemma {:induction false} CaseCompareZero(a: CString, b: CString)
    ensures CaseCompare(a, b) == 0 <==> |a| == |b| && forall i :: 0 <= i < |a| ==> ToLower(a[i]) == ToLower(b[i])
  {
    if a != [] && b != [] {
      CaseCompareZero(a[1..], b[1..]);
      if ToLower(a[0]) == ToLower(b[0]) && |a| == |b| {
        assert forall i :: 1 <= i < |a| ==> a[i] == a[1..][i - 1] && b[i] == b[1..][i - 1];
        assert forall i :: 0 <= i < |a[1..]| ==> a[1..][i] == a[i + 1] && b[1..][i] == b[i + 1];
      }
    }
  }

  /**
   tolower adds 32 to lower-case letters and to nothing else, so the strings that it makes equal are those that agree
   but for letters against the bytes 32 above them.
   */
  predicate TakenAsSame(a: byte, b: byte) {
    a == b || (97 <= a <= 122 && b == a + 32) || (97 <= b <= 122 && a == b + 32)
  }

  lemma CaseCompareEqual(a: CString, b: CString)
    ensures CaseCompare(a, b) == 0 <==> |a| == |b| && forall i :: 0 <= i < |a| ==> TakenAsSame(a[i], b[i])
  {
    CaseCompareZero(a, b);
    if CaseCompare(a, b) == 0 {
      forall i | 0 <= i < |a| ensures TakenAsSame(a[i], b[i]) {
        assert ToLower(a[i]) == ToLower(b[i]);
      }
    }
  }

  /** Otherwise the result is the difference of the first bytes that it does not take as the same, the end counting as 0. */
  lemma {:induction false} CaseCompareValue(a: CString, b: CString, i: nat)
    requires i <= |a| && i <= |b| && i < |a| + |b| - i && forall j :: 0 <= j < i ==> TakenAsSame(a[j], b[j])
    requires i < |a| && i < |b| ==> !TakenAsSame(a[i], b[i])
    ensures CaseCompare(a, b) == (if i < |a| then a[i] as int else 0) - (if i < |b| then b[i] as int else 0)
  {
    if i > 0 {
      assert TakenAsSame(a[0], b[0]);
      forall j | 0 <= j < i - 1 ensures TakenAsSame(a[1..][j], b[1..][j]) {
        assert a[1..][j] == a[j + 1] && b[1..][j] == b[j + 1];
        assert TakenAsSame(a[j + 1], b[j + 1]);
      }
      CaseCompareValue(a[1..], b[1..], i - 1);
    }
  }

  /** Although tolower is wrong, on names without lower-case letters the comparison is plain equality. */
  lemma CaseCompareUpper(a: CString, b: CString)
    requires IsUpper(a) && IsUpper(b)
    ensures CaseCompare(a, b) == 0 <==> a == b
  {
  }

  // ---------- 8.3 names ----------

  function IndexOf(s: seq<byte>, c: byte): (i: nat)
    ensures i <= |s| && (i < |s| ==> s[i] == c) && c !in s[..i]
  {
    if s == [] || s[0] == c then 0 else 1 + IndexOf(s[1..], c)
  }

  /** Uppercase, cut to n characters, padded with blanks to n. */
  function Field(s: CString, n: nat): (f: seq<byte>)
    ensures |f| == n
    ensures forall i :: 0 <= i < n ==> f[i] == if i < |s| then ToUpper(s[i]) else SPACE
  {
    seq(n, i requires 0 <= i < n => if i < |s| then ToUpper(s[i]) else SPACE)
  }

  function Base(name: CString): CString {
    name[..IndexOf(name, DOT)]
  }

  function Ext(name: CString): CString {
    if DOT in name then name[IndexOf(name, DOT) + 1..] else []
  }

  /** The name field that create_direntry fills in. */
  function Encode(name: CString): (raw: seq<byte>)
    ensures |raw| == 11
  {
    Field(Base(name), 8) + Field(Ext(name), 3)
  }

  /** The bytes before the first c. */
  function UpTo(s: seq<byte>, c: byte): seq<byte> {
    s[..IndexOf(s, c)]
  }

  /** The string that fat32_find_file rebuilds from a name field; a C string ends at its first zero byte. */
  function Decode(raw: seq<byte>): CString
    requires |raw| == 11
  {
    UpTo(UpTo(raw[..8], SPACE) + if raw[8] != SPACE then [DOT] + UpTo(raw[8..], SPACE) else [], 0)
  }

  /**
   Any name field: what stands before the first blank of the first eight bytes, and, unless the ninth is blank, a dot and
   what stands before the first blank of the last three. It ends at a zero byte.
   */
  lemma DecodedParts(raw: seq<byte>, b: CString, e: CString)
    requires |raw| == 11 && 0x20 !in b && 0x20 !in e && b <= raw[..8] && e <= raw[8..]
    requires (|b| < 8 ==> raw[|b|] == 0x20 || raw[|b|] == 0) && (|e| < 3 ==> raw[8 + |e|] == 0x20 || raw[8 + |e|] == 0)
    ensures Decode(raw) == if (|b| < 8 && raw[|b|] == 0) || raw[8] == 0x20 then b else b + [0x2E] + e
  {
    PartUpTo(raw[..8], b);
    PartUpTo(raw[8..], e);
    hide UpTo;
    var db, de := UpTo(raw[..8], SPACE), UpTo(raw[8..], SPACE);
    var all := db + if raw[8] != SPACE then [DOT] + de else [];
    var n := if (|b| < 8 && raw[|b|] == 0) || raw[8] == 0x20 then |b| else |b| + 1 + |e|;
    if n == |b| {
      assert all[..n] == db[..n] == b;
    } else {
      assert db == b && all == b + [DOT] + de;
      assert all[..n] == b + [DOT] + e;
    }
    assert 0 !in all[..n] && (n < |all| ==> all[n] == 0);
    ZeroEnds(all, n);
  }

  lemma ZeroEnds(s: seq<byte>, n: nat)
    requires n <= |s| && 0 !in s[..n] && (n < |s| ==> s[n] == 0)
    ensures UpTo(s, 0) == s[..n]
  {
    IndexOfIs(s, 0, n);
  }

  /** A part up to its first blank: it is b, or goes on behind it with a zero byte. */
  lemma PartUpTo(s: seq<byte>, b: CString)
    requires b <= s && 0x20 !in b && (|b| < |s| ==> s[|b|] == 0x20 || s[|b|] == 0)
    ensures var u := UpTo(s, SPACE);
            b <= u && |u| <= |s| && (|b| < |u| ==> u[|b|] == 0) && (|b| < |s| ==> (|b| < |u| <==> s[|b|] == 0))
  {
    if |b| == |s| || s[|b|] == 0x20 {
      IndexOfIs(s, SPACE, |b|);
    } else {
      assert forall j :: 0 <= j < |b| ==> s[j] == b[j] && b[j] in b;
    }
  }

  /** Names that fit the field: at most eight characters, then nothing or a dot and one to three more; no blanks. */
  predicate Fits83(name: CString) {
    && SPACE !in name
    && |Base(name)| <= 8
    && (DOT in name ==> 1 <= |Ext(name)| <= 3)
  }

  lemma {:induction false} IndexOfIs(s: seq<byte>, c: byte, k: nat)
    requires k <= |s| && c !in s[..k] && (k < |s| ==> s[k] == c)
    ensures IndexOf(s, c) == k
  {
  }

  lemma IndexOfBefore(s: seq<byte>, c: byte)
    ensures forall j :: 0 <= j < IndexOf(s, c) ==> s[j] != c
  {
  }

  /** Reading a field up to its first blank gives the string back exactly if it had no blank and was not cut. */
  lemma FieldUpTo(s: CString, n: nat)
    ensures UpTo(Field(s, n), SPACE) == Upper(s) <==> SPACE !in s && |s| <= n
    ensures |UpTo(Field(s, n), SPACE)| <= |s|
  {
    var f := Field(s, n);
    IndexOfBefore(f, SPACE);
    if SPACE !in s && |s| <= n {
      assert forall i :: 0 <= i < |s| ==> f[..|s|][i] == ToUpper(s[i]) && s[i] in s;
      IndexOfIs(f, SPACE, |s|);
      assert f[..|s|] == Upper(s);
    } else if SPACE in s && |s| <= n {
      var i :| 0 <= i < |s| && s[i] == SPACE;
      assert f[i] == SPACE;
    }
    assert |s| < n ==> f[|s|] == SPACE;
  }

  lemma UpToNothing(s: seq<byte>, c: byte)
    requires c !in s
    ensures UpTo(s, c) == s
  {
  }

  lemma UpperJoin(b: CString, e: CString)
    ensures Upper(b + [DOT] + e) == Upper(b) + [DOT] + Upper(e)
  {
  }

  lemma NameParts(name: CString)
    ensures DOT !in Base(name)
    ensures DOT in name ==> name == Base(name) + [DOT] + Ext(name)
    ensures DOT !in name ==> Base(name) == name && Ext(name) == []
    ensures SPACE in name <==> SPACE in Base(name) || SPACE in Ext(name)
  {
  }

  /** Two strings glued with a dot are equal when the parts are, and only then if no part grew. */
  lemma JoinEqual(a: seq<byte>, b: seq<byte>, x: seq<byte>, y: seq<byte>)
    requires |a| <= |x| && |b| <= |y|
    ensures a + [DOT] + b == x + [DOT] + y <==> a == x && b == y
  {
    if a + [DOT] + b == x + [DOT] + y {
      assert |a + [DOT] + b| == |a| + 1 + |b| && |x + [DOT] + y| == |x| + 1 + |y|;
      assert a == (a + [DOT] + b)[..|a|] && x == (x + [DOT] + y)[..|x|];
      assert b == (a + [DOT] + b)[|a| + 1..] && y == (x + [DOT] + y)[|x| + 1..];
    }
  }

  function Joined(b: CString, e: CString): CString {
    var (db, de) := (UpTo(Field(b, 8), SPACE), UpTo(Field(e, 3), SPACE));
    if Field(e, 3)[0] != SPACE then db + [DOT] + de else db
  }

  lemma DecodeIsJoined(name: CString)
    ensures Decode(Encode(name)) == Joined(Base(name), Ext(name))
  {
  }

  /** The decoder undoes the encoder exactly on the names that fit. */
  lemma DecodeEncode(name: CString)
    ensures Decode(Encode(name)) == Upper(name) <==> Fits83(name)
  {
    hide Decode, Encode, UpTo, Base, Ext, Upper;
    var b, e := Base(name), Ext(name);
    DecodeIsJoined(name);
    NameParts(name);
    FieldUpTo(b, 8);
    FieldUpTo(e, 3);
    if DOT in name {
      UpperJoin(b, e);
      JoinEqual(UpTo(Field(b, 8), SPACE), UpTo(Field(e, 3), SPACE), Upper(b), Upper(e));
    }
  }

  /** So distinct upper-case names that fit have distinct fields. */
  lemma EncodeInjective(a: CString, b: CString)
    requires Fits83(a) && Fits83(b) && IsUpper(a) && IsUpper(b) && Encode(a) == Encode(b)
    ensures a == b
  {
    DecodeEncode(a);
    DecodeEncode(b);
    UpperOfUpper(a);
    UpperOfUpper(b);
  }
}
