/** The field notebook kept under one storage key: a newest-first list of at
    most twenty records, with update and delete by id, and the 32-bit string
    hash the service offers for image data. */
module Storage {
  import opened Numeric
  import opened Outcomes
  import opened Records

  /** The storage slot: never written, or holding a serialised list. The JSON
      round trip is the identity on records. */
  datatype Cache = Unwritten | Stored(records: seq<FieldRecord>)

  const Capacity: nat := 20

  /** `getRecords`: the stored list, or the empty list when nothing is stored. */
  function GetRecords(c: Cache): (rs: seq<FieldRecord>)
    ensures c.Unwritten? ==> rs == []
    ensures c.Stored? ==> rs == c.records
  {
    match c
    case Unwritten => []
    case Stored(records) => records
  }

  function Min(a: nat, b: nat): (m: nat)
    ensures m <= a && m <= b && (m == a || m == b)
  {
    if a <= b then a else b
  }

  /** `saveRecord`: put the record first and keep the first twenty. */
  function Save(c: Cache, r: FieldRecord): (c': Cache)
    ensures c'.Stored?
    ensures 0 < |GetRecords(c')| <= Capacity && GetRecords(c')[0] == r
  {
    var records := [r] + GetRecords(c);
    Stored(records[..Min(|records|, Capacity)])
  }

  /** The saved record leads, the older ones follow in their order, and only
      the oldest beyond the twentieth are dropped. */
  lemma SaveOrder(c: Cache, r: FieldRecord)
    ensures var before := GetRecords(c); var after := GetRecords(Save(c, r));
      && |after| == Min(|before| + 1, Capacity)
      && after[0] == r
      && (forall i :: 1 <= i < |after| ==> after[i] == before[i - 1])
      && (|before| < Capacity ==> after == [r] + before)
  {
  }

  /** How many records carry the id. */
  function CountId(rs: seq<FieldRecord>, id: string): (n: nat)
    ensures n <= |rs|
    ensures n == 0 <==> forall k :: 0 <= k < |rs| ==> rs[k].id != id
  {
    if |rs| == 0 then 0
    else CountId(rs[..|rs| - 1], id) + (if rs[|rs| - 1].id == id then 1 else 0)
  }

  lemma {:induction false} CountIdConcat(a: seq<FieldRecord>, b: seq<FieldRecord>, id: string)
    ensures CountId(a + b, id) == CountId(a, id) + CountId(b, id)
    decreases |b|
  {
    if |b| == 0 {
      assert a + b == a;
    } else {
      assert (a + b)[..|a + b| - 1] == a + b[..|b| - 1];
      CountIdConcat(a, b[..|b| - 1], id);
    }
  }

  /** Saving does not look for an existing record with the same id: below
      capacity the saved id is held once more often than before, even when it
      was already there. */
  lemma SaveKeepsDuplicates(c: Cache, r: FieldRecord)
    requires |GetRecords(c)| < Capacity
    ensures CountId(GetRecords(Save(c, r)), r.id) == CountId(GetRecords(c), r.id) + 1
  {
    assert GetRecords(Save(c, r)) == [r] + GetRecords(c);
    assert [r][..0] == [];
    assert CountId([r], r.id) == 1;
    CountIdConcat([r], GetRecords(c), r.id);
  }

  /** `findIndex`: the first record with the id. */
  function FindIndex(rs: seq<FieldRecord>, id: string): (r: Option<nat>)
    ensures r.Some? ==> r.value < |rs| && rs[r.value].id == id
    ensures r.Some? ==> forall j :: 0 <= j < r.value ==> rs[j].id != id
    ensures r.None? ==> forall j :: 0 <= j < |rs| ==> rs[j].id != id
  {
    if |rs| == 0 then None
    else if rs[0].id == id then Some(0)
    else match FindIndex(rs[1..], id)
      case None => None
      case Some(k) => Some(k + 1)
  }

  /** The record after a successful sync: the cloud text set and the queued
      flag cleared. */
  function Synced(r: FieldRecord, cloudResult: string): (s: FieldRecord)
    ensures s.cloudResult == Some(cloudResult) && !s.isQueued
    ensures s.(cloudResult := r.cloudResult, isQueued := r.isQueued) == r
  {
    r.(cloudResult := Some(cloudResult), isQueued := false)
  }

  /** `updateRecord`: change the first record with the id; write nothing when
      there is none. */
  function Update(c: Cache, id: string, cloudResult: string): (c': Cache)
    ensures FindIndex(GetRecords(c), id).None? ==> c' == c
    ensures |GetRecords(c')| == |GetRecords(c)|
    ensures forall j :: 0 <= j < |GetRecords(c')| ==> GetRecords(c')[j].id == GetRecords(c)[j].id
  {
    var records := GetRecords(c);
    match FindIndex(records, id)
    case None => c
    case Some(k) => Stored(records[k := Synced(records[k], cloudResult)])
  }

  /** With a record of that id present, exactly the first one is synced and
      every other record stays as it was. */
  lemma UpdatePresent(c: Cache, id: string, cloudResult: string, k: nat)
    requires k < |GetRecords(c)| && GetRecords(c)[k].id == id
    requires forall j :: 0 <= j < k ==> GetRecords(c)[j].id != id
    ensures var after := GetRecords(Update(c, id, cloudResult));
      && |after| == |GetRecords(c)|
      && after[k] == Synced(GetRecords(c)[k], cloudResult)
      && (forall j :: 0 <= j < |after| && j != k ==> after[j] == GetRecords(c)[j])
  {
    FindIndexIs(GetRecords(c), id, k);
  }

  /** The first record with the id is the one `FindIndex` finds. */
  lemma {:induction false} FindIndexIs(rs: seq<FieldRecord>, id: string, k: nat)
    requires k < |rs| && rs[k].id == id
    requires forall j :: 0 <= j < k ==> rs[j].id != id
    ensures FindIndex(rs, id) == Some(k)
    decreases k
  {
    if k != 0 {
      FindIndexIs(rs[1..], id, k - 1);
    }
  }

  /** Without a record of that id the store is left untouched. */
  lemma UpdateAbsent(c: Cache, id: string, cloudResult: string)
    requires CountId(GetRecords(c), id) == 0
    ensures Update(c, id, cloudResult) == c
  {
  }

  /** The records without the id, in their order. */
  function WithoutId(rs: seq<FieldRecord>, id: string): (kept: seq<FieldRecord>)
    ensures |kept| == |rs| - CountId(rs, id)
    ensures CountId(kept, id) == 0
  {
    if |rs| == 0 then []
    else WithoutId(rs[..|rs| - 1], id) + (if rs[|rs| - 1].id == id then [] else [rs[|rs| - 1]])
  }

  /** Filtering distributes over concatenation: the kept records keep their
      relative order. */
  lemma {:induction false} WithoutIdConcat(a: seq<FieldRecord>, b: seq<FieldRecord>, id: string)
    ensures WithoutId(a + b, id) == WithoutId(a, id) + WithoutId(b, id)
    decreases |b|
  {
    if |b| == 0 {
      assert a + b == a;
    } else {
      assert (a + b)[..|a + b| - 1] == a + b[..|b| - 1];
      WithoutIdConcat(a, b[..|b| - 1], id);
    }
  }

  /** Records with other ids are all kept. */
  lemma {:induction false} WithoutIdKeepsOthers(rs: seq<FieldRecord>, id: string, other: string)
    requires other != id
    ensures CountId(WithoutId(rs, id), other) == CountId(rs, other)
    decreases |rs|
  {
    if |rs| != 0 {
      var init := rs[..|rs| - 1];
      var last := if rs[|rs| - 1].id == id then [] else [rs[|rs| - 1]];
      WithoutIdKeepsOthers(init, id, other);
      CountIdConcat(WithoutId(init, id), last, other);
    }
  }

  /** A list without the id is its own filter. */
  lemma {:induction false} WithoutIdNone(rs: seq<FieldRecord>, id: string)
    requires CountId(rs, id) == 0
    ensures WithoutId(rs, id) == rs
    decreases |rs|
  {
    if |rs| != 0 {
      WithoutIdNone(rs[..|rs| - 1], id);
    }
  }

  /** `deleteRecord`: keep every record whose id differs. */
  function Delete(c: Cache, id: string): (c': Cache)
    ensures c'.Stored?
    ensures CountId(GetRecords(c'), id) == 0
    ensures |GetRecords(c')| == |GetRecords(c)| - CountId(GetRecords(c), id)
  {
    Stored(WithoutId(GetRecords(c), id))
  }

  /** Deleting removes every record with the id, keeps every other record, and
      a second delete changes nothing. */
  lemma DeleteProperties(c: Cache, id: string, other: string)
    requires other != id
    ensures CountId(GetRecords(Delete(c, id)), other) == CountId(GetRecords(c), other)
    ensures Delete(Delete(c, id), id) == Delete(c, id)
  {
    WithoutIdKeepsOthers(GetRecords(c), id, other);
    WithoutIdNone(WithoutId(GetRecords(c), id), id);
  }

  /** The hash step as written: `((hash << 5) - hash) + code`, then `hash & hash`,
      each bitwise operator reading its operands as 32-bit signed integers. */
  function HashStep(h: int, code: int): (h': int)
    ensures IsInt32(h')
  {
    var shifted := ToInt32(ToInt32(h) * 32);
    ToInt32(shifted - h + code)
  }

  /** The step is the familiar `31 * h + code` reduced to 32 bits. */
  lemma HashStepIsTimes31(h: int, code: int)
    requires IsInt32(h)
    ensures HashStep(h, code) == ToInt32(31 * h + code)
  {
    ToInt32Identity(h);
    var shifted := ToInt32(h * 32);
    var k := (shifted - h * 32) / TwoTo32;
    assert shifted - h + code == 31 * h + code + k * TwoTo32;
    ToInt32Congruent(shifted - h + code, 31 * h + code);
  }

  /** The hash of a string over its UTF-16 code units, left to right. */
  function Hash(units: seq<int>): (h: int)
    ensures IsInt32(h)
  {
    if |units| == 0 then 0 else HashStep(Hash(units[..|units| - 1]), units[|units| - 1])
  }

  /** `generateHash` before the base-36 rendering. */
  method GenerateHash(units: seq<int>) returns (h: int)
    ensures h == Hash(units)
    ensures IsInt32(h)
    ensures |units| == 0 ==> h == 0
  {
    h := 0;
    var i := 0;
    while i < |units|
      invariant 0 <= i <= |units|
      invariant h == Hash(units[..i])
    {
      assert units[..i + 1][..i] == units[..i];
      h := HashStep(h, units[i]);
      i := i + 1;
    }
    assert units[..i] == units;
  }

  /** A base-36 digit as `toString(36)` writes it: 0-9, then a-z. */
  function Digit36(d: nat): (c: char)
    requires d < 36
  {
    if d < 10 then ('0' as int + d) as char else ('a' as int + d - 10) as char
  }

  predicate IsDigit36(c: char)
  {
    '0' <= c <= '9' || 'a' <= c <= 'z'
  }

  function Value36(c: char): (d: nat)
    requires IsDigit36(c)
    ensures d < 36 && Digit36(d) == c
  {
    if c <= '9' then c as int - '0' as int else c as int - 'a' as int + 10
  }

  function Digits36Value(s: string): nat
    requires forall i :: 0 <= i < |s| ==> IsDigit36(s[i])
  {
    if |s| == 0 then 0 else 36 * Digits36Value(s[..|s| - 1]) + Value36(s[|s| - 1])
  }

  /** `n.toString(36)` for a non-negative integer: its shortest base-36 numeral. */
  function Radix36(n: nat): (s: string)
    ensures 0 < |s| && forall i :: 0 <= i < |s| ==> IsDigit36(s[i])
    ensures Digits36Value(s) == n
    ensures s[0] != '-'
  {
    if n < 36 then
      assert Value36(Digit36(n)) == n;
      [Digit36(n)]
    else
      var prefix := Radix36(n / 36);
      var s := prefix + [Digit36(n % 36)];
      assert s[..|s| - 1] == prefix;
      assert Value36(Digit36(n % 36)) == n % 36;
      s
  }

  /** `hash.toString(36)`: a minus sign before the magnitude when negative. */
  function HashText(h: int): (t: string)
    ensures 0 < |t|
    ensures t[0] == '-' <==> h < 0
  {
    if h < 0 then "-" + Radix36(-h) else Radix36(h)
  }

  /** The text determines the hash: distinct hashes never print alike. */
  lemma HashTextInjective(a: int, b: int)
    requires HashText(a) == HashText(b)
    ensures a == b
  {
    if a < 0 {
      assert HashText(a)[1..] == Radix36(-a);
      assert HashText(b)[1..] == Radix36(-b);
    }
  }

  /** `generateHash`: the empty string hashes to "0". */
  function GenerateHashText(units: seq<int>): (t: string)
    ensures |units| == 0 ==> t == "0"
  {
    HashText(Hash(units))
  }
}
