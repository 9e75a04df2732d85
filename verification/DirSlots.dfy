/**
 Directory contents: 32-byte slots, the lookup of fat32_find_file over them, and what taking the first
 free slot does to every lookup.
 */
module DirSlots {
  import opened Bytes
  import opened Names
  import opened Options

  const SLOT: nat := 32
  const ATTR_VOLUME_ID: byte := 0x08
  const ATTR_LONG_NAME: byte := 0x0F
  const ATTR_DIRECTORY: byte := 0x10
  const ATTR_ARCHIVE: byte := 0x20
  const DELETED: byte := 0xE5

  /** A fat32_dir_entry_t as it lies on disk. */
  type Slot = s: seq<byte> | |s| == SLOT witness Zeros(SLOT)

  function NameField(s: Slot): seq<byte> { s[..11] }
  function Attributes(s: Slot): byte { s[11] }
  function FirstCluster(s: Slot): nat { Le16(s[20..22]) * 0x1_0000 + Le16(s[26..28]) }
  function FileSize(s: Slot): nat { Le32(s[28..32]) }

  predicate IsDirSlot(s: Slot) {
    Attributes(s) / ATTR_DIRECTORY % 2 == 1
  }

  /** Never used, or used once and deleted since. */
  predicate IsFreeSlot(s: Slot) {
    s[0] == 0 || s[0] == DELETED
  }

  /** A slot that create_direntry, fat32_mkdir and fat32_update_file_entry compose. */
  function MakeSlot(field: seq<byte>, attributes: byte, cluster: nat, size: nat, time: nat, date: nat): (s: Slot)
    requires |field| == 11
    ensures s[..11] == field && Attributes(s) == attributes
  {
    field + [attributes, 0, 0] + ToLe16(time) + ToLe16(date) + ToLe16(date)
    + ToLe16(cluster / 0x1_0000) + ToLe16(time) + ToLe16(date) + ToLe16(cluster) + ToLe32(size)
  }

  lemma Le16Low(n: nat)
    ensures Le16(ToLe16(n)) == n % 0x1_0000
  {
    var q := n / 256;
    assert n == 0x1_0000 * (q / 256) + 256 * (q % 256) + n % 256;
  }

  lemma MakeSlotFields(field: seq<byte>, attributes: byte, cluster: nat, size: nat, time: nat, date: nat)
    requires |field| == 11 && cluster < 0x1_0000_0000 && size < 0x1_0000_0000
    ensures var s := MakeSlot(field, attributes, cluster, size, time, date);
            FirstCluster(s) == cluster && FileSize(s) == size
  {
    var s := MakeSlot(field, attributes, cluster, size, time, date);
    assert s[20..22] == ToLe16(cluster / 0x1_0000);
    assert s[26..28] == ToLe16(cluster);
    assert s[28..32] == ToLe32(size);
    Le16Low(cluster / 0x1_0000);
    Le16Low(cluster);
    Le32RoundTrip(size);
  }

  // ---------- lookup ----------

  /** A live entry, neither a volume label nor part of a long name, whose name compares equal. */
  predicate Hit(s: Slot, name: CString) {
    && !IsFreeSlot(s)
    && Attributes(s) != ATTR_LONG_NAME && Attributes(s) != ATTR_VOLUME_ID
    && CaseCompare(Decode(NameField(s)), name) == 0
  }

  /**
   The search of fat32_find_file from slot k on. It ends at a never-used slot, and the very last slot of
   the chain is never returned: fat32_read_dir fails when stepping past it ends the chain.
   */
  function Find(slots: seq<Slot>, k: nat, name: CString): Option<Slot>
    decreases |slots| - k
  {
    if k + 1 >= |slots| || slots[k][0] == 0 then None
    else if Hit(slots[k], name) then Some(slots[k])
    else Find(slots, k + 1, name)
  }

  /** The slot that Find returns is the first hit among the used slots, and None means there is no hit. */
  lemma {:induction false} FindIsFirstHit(slots: seq<Slot>, k: nat, name: CString)
    ensures Find(slots, k, name) == None <==>
            forall i :: k <= i < |slots| - 1 && (forall j :: k <= j <= i ==> slots[j][0] != 0) ==> !Hit(slots[i], name)
    ensures Find(slots, k, name).Some? ==>
            exists i :: k <= i < |slots| - 1 && slots[i] == Find(slots, k, name).value && Hit(slots[i], name)
                        && forall j :: k <= j < i ==> slots[j][0] != 0 && !Hit(slots[j], name)
    decreases |slots| - k
  {
    hide Hit;
    if k + 1 < |slots| && slots[k][0] != 0 && !Hit(slots[k], name) {
      FindIsFirstHit(slots, k + 1, name);
    }
  }

  /** The next entry that fat32_read_dir reports from slot k on, with the position behind it. */
  function NextEntry(slots: seq<Slot>, k: nat): (r: Option<(Slot, nat)>)
    ensures r.Some? ==> k < r.value.1 < |slots| && r.value.0 == slots[r.value.1 - 1]
    ensures r.Some? ==> r.value.0[0] != 0 && r.value.0[0] != DELETED && Attributes(r.value.0) != ATTR_LONG_NAME
    decreases |slots| - k
  {
    if k + 1 >= |slots| || slots[k][0] == 0 then None
    else if slots[k][0] == DELETED || Attributes(slots[k]) == ATTR_LONG_NAME then NextEntry(slots, k + 1)
    else Some((slots[k], k + 1))
  }

  /** It is the first used slot that is neither deleted nor part of a long name, before any unused one and the last. */
  predicate Reported(s: Slot) {
    s[0] != 0 && s[0] != 0xE5 && s[11] != 0x0F
  }

  lemma {:induction false} NextEntryIsFirst(slots: seq<Slot>, k: nat)
    ensures match NextEntry(slots, k)
            case None => forall i :: k <= i < |slots| - 1 && Reported(slots[i]) ==> exists j :: k <= j < i && slots[j][0] == 0
            case Some((s, next)) =>
              && k < next < |slots| && s == slots[next - 1] && Reported(s)
              && forall i :: k <= i < next - 1 ==> slots[i][0] != 0 && !Reported(slots[i])
    decreases |slots| - k
  {
    if k + 1 < |slots| && slots[k][0] != 0 && !Reported(slots[k]) {
      NextEntryIsFirst(slots, k + 1);
    }
  }

  /** Where a scan from slot k that reports no entry stops: at a never-used slot, or behind the last slot. */
  function ScanEnd(slots: seq<Slot>, k: nat): (e: nat)
    requires k < |slots|
    ensures k <= e <= |slots| && (e < |slots| && NextEntry(slots, k) == None ==> slots[e][0] == 0)
    decreases |slots| - k
  {
    if slots[k][0] == 0 then k
    else if k + 1 == |slots| then k + 1
    else if slots[k][0] == DELETED || Attributes(slots[k]) == ATTR_LONG_NAME then ScanEnd(slots, k + 1)
    else k
  }

  lemma {:induction false} FindByNextEntry(slots: seq<Slot>, k: nat, name: CString)
    ensures Find(slots, k, name) ==
            match NextEntry(slots, k)
            case None => None
            case Some((s, next)) => if Hit(s, name) then Some(s) else Find(slots, next, name)
    decreases |slots| - k
  {
    if k + 1 < |slots| && slots[k][0] != 0 && (slots[k][0] == DELETED || Attributes(slots[k]) == ATTR_LONG_NAME) {
      FindByNextEntry(slots, k + 1, name);
    }
  }

  // ---------- insertion ----------

  /** The slot that create_direntry takes: the first free one of the n it looks at, n if there is none. */
  function FirstFreeSlot(slots: seq<Slot>, k: nat): (i: nat)
    requires k <= |slots|
    ensures k <= i <= |slots| && (i < |slots| ==> IsFreeSlot(slots[i]))
    ensures forall j :: k <= j < i ==> !IsFreeSlot(slots[j])
    decreases |slots| - k
  {
    if k == |slots| || IsFreeSlot(slots[k]) then k else FirstFreeSlot(slots, k + 1)
  }

  /** Behind the first never-used slot every slot is never used. */
  predicate TailUnused(slots: seq<Slot>) {
    forall i, j :: 0 <= i < j < |slots| && slots[i][0] == 0 ==> slots[j][0] == 0
  }

  /** Filling the first free slot with an entry that does not match a name leaves the lookup of that name alone. */
  lemma {:induction false} FindOtherAfterInsert(slots: seq<Slot>, i: nat, e: Slot, k: nat, name: CString)
    requires TailUnused(slots) && i < |slots| && k <= |slots|
    requires IsFreeSlot(slots[i]) && (forall j :: 0 <= j < i ==> !IsFreeSlot(slots[j]))
    requires e[0] != 0 && !Hit(e, name)
    ensures Find(slots[i := e], k, name) == Find(slots, k, name)
    decreases |slots| - k
  {
    if k + 1 < |slots| {
      FindOtherAfterInsert(slots, i, e, k + 1, name);
      if k == i && slots[i][0] == 0 {
        assert slots[k + 1][0] == 0;
      }
    }
  }

  /** Filling it with an entry of a name that was not found makes that entry the result, unless the slot is the chain's last. */
  lemma {:induction false} FindAfterInsert(slots: seq<Slot>, i: nat, e: Slot, k: nat, name: CString)
    requires k <= i < |slots|
    requires IsFreeSlot(slots[i]) && (forall j :: 0 <= j < i ==> !IsFreeSlot(slots[j]))
    requires Hit(e, name) && Find(slots, k, name) == None
    ensures Find(slots[i := e], k, name) == if i + 1 < |slots| then Some(e) else None
    decreases i - k
  {
    if k < i {
      FindAfterInsert(slots, i, e, k + 1, name);
    }
  }

  /** An entry made for an upper-case 8.3 name is hit by exactly that name. */
  lemma MadeSlotHit(name: CString, attributes: byte, cluster: nat, size: nat, time: nat, date: nat, other: CString)
    requires Fits83(name) && IsUpper(name) && IsUpper(other) && name != [] && name[0] != DELETED
    requires attributes != ATTR_LONG_NAME && attributes != ATTR_VOLUME_ID
    ensures var s := MakeSlot(Encode(name), attributes, cluster, size, time, date);
            !IsFreeSlot(s) && (Hit(s, other) <==> other == name)
  {
    var s := MakeSlot(Encode(name), attributes, cluster, size, time, date);
    assert NameField(s) == Encode(name);
    DecodeEncode(name);
    UpperOfUpper(name);
    CaseCompareUpper(name, other);
    assert s[0] == Encode(name)[0];
    assert name[0] in name;
  }

  // ---------- update in place ----------

  /** The slot that fat32_update_file_entry rewrites: the first live one whose name compares equal, whatever its kind. */
  function UpdateIndex(slots: seq<Slot>, k: nat, name: CString): (i: nat)
    requires k <= |slots|
    ensures k <= i <= |slots|
    ensures i < |slots| ==> !IsFreeSlot(slots[i]) && CaseCompare(Decode(NameField(slots[i])), name) == 0
    ensures forall j :: k <= j < i ==> IsFreeSlot(slots[j]) || CaseCompare(Decode(NameField(slots[j])), name) != 0
    decreases |slots| - k
  {
    if k == |slots| then k
    else if !IsFreeSlot(slots[k]) && CaseCompare(Decode(NameField(slots[k])), name) == 0 then k
    else UpdateIndex(slots, k + 1, name)
  }

  /** s with another start cluster, size and write time. */
  function UpdatedSlot(s: Slot, cluster: nat, size: nat, time: nat, date: nat): (r: Slot)
    ensures r[..12] == s[..12]
  {
    s[..20] + ToLe16(cluster / 0x1_0000) + ToLe16(time) + ToLe16(date) + ToLe16(cluster) + ToLe32(size)
  }

  lemma UpdatedSlotFields(s: Slot, cluster: nat, size: nat, time: nat, date: nat)
    requires cluster < 0x1_0000_0000 && size < 0x1_0000_0000
    ensures var r := UpdatedSlot(s, cluster, size, time, date);
            FirstCluster(r) == cluster && FileSize(r) == size
  {
    var r := UpdatedSlot(s, cluster, size, time, date);
    assert r[20..22] == ToLe16(cluster / 0x1_0000);
    assert r[26..28] == ToLe16(cluster);
    assert r[28..32] == ToLe32(size);
    Le16Low(cluster / 0x1_0000);
    Le16Low(cluster);
    Le32RoundTrip(size);
  }

  lemma SameNameSameHit(a: Slot, b: Slot, name: CString)
    requires a[..12] == b[..12]
    ensures Hit(a, name) == Hit(b, name) && IsFreeSlot(a) == IsFreeSlot(b) && a[0] == b[0]
    ensures Attributes(a) == Attributes(b)
  {
    assert a[0] == a[..12][0] && a[11] == a[..12][11] && b[0] == b[..12][0] && b[11] == b[..12][11];
    assert a[..11] == a[..12][..11] && b[..11] == b[..12][..11];
  }

  /**
   After an entry's cluster and size are rewritten in place, a lookup gives what it gave before, or the rewritten
   entry for the old one.
   */
  lemma {:induction false} FindAfterRewrite(slots: seq<Slot>, i: nat, e: Slot, k: nat, name: CString)
    requires i < |slots| && e[..12] == slots[i][..12]
    ensures var (was, now) := (Find(slots, k, name), Find(slots[i := e], k, name));
            now == was || (was == Some(slots[i]) && now == Some(e))
    ensures !Hit(slots[i], name) ==> Find(slots[i := e], k, name) == Find(slots, k, name)
    decreases |slots| - k
  {
    SameNameSameHit(slots[i], e, name);
    if k + 1 < |slots| {
      FindAfterRewrite(slots, i, e, k + 1, name);
    }
  }

  /** The lookup that used to return the entry returns the rewritten one. */
  lemma {:induction false} FindAfterUpdate(slots: seq<Slot>, i: nat, e: Slot, k: nat, name: CString)
    requires k <= i && i + 1 < |slots| && e[..12] == slots[i][..12] && Hit(slots[i], name)
    requires forall j :: k <= j < i ==> slots[j][0] != 0 && !Hit(slots[j], name)
    ensures Find(slots, k, name) == Some(slots[i]) && Find(slots[i := e], k, name) == Some(e)
    decreases i - k
  {
    SameNameSameHit(slots[i], e, name);
    if k < i {
      FindAfterUpdate(slots, i, e, k + 1, name);
    }
  }
}
