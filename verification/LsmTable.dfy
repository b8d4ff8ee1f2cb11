/** SSTables: the bytes a flush writes, and what the two readers make of them. */
module LsmTable {
  import opened Options
  import opened Bytes

  datatype Entry = Entry(key: Str, value: Str)

  // "\x00tombstone"
  const TOMBSTONE: Str := [0, 116, 111, 109, 98, 115, 116, 111, 110, 101]

  // ---- entry lists as maps ----

  // Reading a list in order, later entries overriding earlier ones.
  function AsMap(es: seq<Entry>): map<Str, Str>
  {
    if es == [] then map[]
    else
      var last := es[|es| - 1];
      AsMap(es[..|es| - 1])[last.key := last.value]
  }

  ghost predicate Sorted(es: seq<Entry>)
  {
    forall i, j | 0 <= i < j < |es| :: Less(es[i].key, es[j].key)
  }

  ghost predicate ShortEntry(e: Entry)
  {
    |e.key| < TWO_32 && |e.value| < TWO_32
  }

  ghost predicate Short(es: seq<Entry>)
  {
    forall e | e in es :: ShortEntry(e)
  }

  lemma {:induction false} AsMapKey(es: seq<Entry>, k: Str)
    ensures k in AsMap(es) <==> exists i :: 0 <= i < |es| && es[i].key == k
  {
    if es != [] {
      var n := |es| - 1;
      var init := es[..n];
      AsMapKey(init, k);
      if k in AsMap(es) {
        if k == es[n].key {
          assert es[n].key == k;
        } else {
          var i :| 0 <= i < |init| && init[i].key == k;
          assert es[i].key == k;
        }
      }
      if i :| 0 <= i < |es| && es[i].key == k {
        if i < n { assert init[i].key == k; }
      }
    }
  }

  lemma {:induction false} AsMapAt(es: seq<Entry>, i: nat)
    requires Sorted(es) && i < |es|
    ensures es[i].key in AsMap(es) && AsMap(es)[es[i].key] == es[i].value
  {
    var n := |es| - 1;
    if i < n {
      AsMapAt(es[..n], i);
      LessTotal(es[i].key, es[n].key);
    }
  }

  lemma AsMapSorted(es: seq<Entry>)
    requires Sorted(es)
    ensures forall k :: k in AsMap(es) <==> exists i :: 0 <= i < |es| && es[i].key == k
    ensures forall i | 0 <= i < |es| :: es[i].key in AsMap(es) && AsMap(es)[es[i].key] == es[i].value
  {
    hide AsMap, Sorted;
    forall k ensures k in AsMap(es) <==> exists i :: 0 <= i < |es| && es[i].key == k {
      AsMapKey(es, k);
    }
    forall i | 0 <= i < |es| ensures es[i].key in AsMap(es) && AsMap(es)[es[i].key] == es[i].value {
      AsMapAt(es, i);
    }
  }

  // ---- the file format ----

  function EncodeEntry(e: Entry): seq<byte>
  {
    LE32(|e.key|) + LE32(|e.value|) + e.key + e.value
  }

  function EncodeAll(es: seq<Entry>): seq<byte>
  {
    if es == [] then [] else EncodeEntry(es[0]) + EncodeAll(es[1..])
  }

  method WriteAll(es: seq<Entry>) returns (file: seq<byte>)
    ensures file == EncodeAll(es)
  {
    file := [];
    for i := 0 to |es|
      invariant file + EncodeAll(es[i..]) == EncodeAll(es)
    {
      assert es[i..][0] == es[i] && es[i..][1..] == es[i + 1..];
      assert file + (EncodeEntry(es[i]) + EncodeAll(es[i + 1..])) == file + EncodeEntry(es[i]) + EncodeAll(es[i + 1..]);
      file := file + EncodeEntry(es[i]);
    }
    assert file + [] == file;
  }

  // io.ReadFull into n zeroed bytes, ignoring a short read.
  function Filled(s: seq<byte>, n: nat): seq<byte>
  {
    if n <= |s| then s[..n] else s + seq(n - |s|, _ => 0)
  }

  function Left(s: seq<byte>, n: nat): seq<byte>
  {
    if n <= |s| then s[n..] else []
  }

  function KeyLen(s: seq<byte>): nat
    requires |s| >= 8
  {
    FromLE32(s[0..4])
  }

  function ValLen(s: seq<byte>): nat
    requires |s| >= 8
  {
    FromLE32(s[4..8])
  }

  // readAll: None is a torn header.
  function ParseAll(s: seq<byte>): Option<seq<Entry>>
    decreases |s|
  {
    if s == [] then Some([])
    else if |s| < 8 then None
    else
      var afterKey := Left(s[8..], KeyLen(s));
      match ParseAll(Left(afterKey, ValLen(s)))
      case None => None
      case Some(rest) => Some([Entry(Filled(s[8..], KeyLen(s)), Filled(afterKey, ValLen(s)))] + rest)
  }

  method ReadAll(file: seq<byte>) returns (r: Option<seq<Entry>>)
    ensures r == ParseAll(file)
  {
    hide ParseAll, FromLE32, Filled;
    var s: seq<byte>, es: seq<Entry> := file, [];
    BehindNothing(ParseAll(file));
    while s != []
      invariant ParseAll(file) == Behind(es, ParseAll(s))
      decreases |s|
    {
      ParseStep(es, s);
      if |s| < 8 {
        return None;
      }
      var k, afterKey := Filled(s[8..], KeyLen(s)), Left(s[8..], KeyLen(s));
      var v := Filled(afterKey, ValLen(s));
      s := Left(afterKey, ValLen(s));
      es := es + [Entry(k, v)];
    }
    ParseStep(es, s);
    return Some(es);
  }

  // Entries already read, and what the rest of the file gives.
  function Behind(es: seq<Entry>, rest: Option<seq<Entry>>): Option<seq<Entry>>
  {
    if rest.None? then None else Some(es + rest.value)
  }

  lemma BehindNothing(rest: Option<seq<Entry>>)
    ensures Behind([], rest) == rest
  {
    assert rest.Some? ==> [] + rest.value == rest.value;
  }

  lemma {:induction false} ParseStep(es: seq<Entry>, s: seq<byte>)
    ensures s == [] ==> Behind(es, ParseAll(s)) == Some(es)
    ensures 0 < |s| < 8 ==> ParseAll(s) == None
    ensures |s| >= 8 ==>
              var afterKey := Left(s[8..], KeyLen(s));
              var e := Entry(Filled(s[8..], KeyLen(s)), Filled(afterKey, ValLen(s)));
              Behind(es, ParseAll(s)) == Behind(es + [e], ParseAll(Left(afterKey, ValLen(s))))
  {
    hide FromLE32, Filled;
    if s == [] {
      assert es + [] == es;
    } else if |s| >= 8 {
      var afterKey := Left(s[8..], KeyLen(s));
      var e := Entry(Filled(s[8..], KeyLen(s)), Filled(afterKey, ValLen(s)));
      var rest := ParseAll(Left(afterKey, ValLen(s)));
      assert rest.Some? ==> es + ([e] + rest.value) == es + [e] + rest.value;
    }
  }

  lemma EntryHeader(e: Entry, rest: seq<byte>)
    requires ShortEntry(e)
    ensures var s := EncodeEntry(e) + rest;
            && |s| >= 8 && KeyLen(s) == |e.key| && ValLen(s) == |e.value|
            && s[8..] == e.key + (e.value + rest)
  {
    hide LE32, FromLE32;
    var s := EncodeEntry(e) + rest;
    LE32RoundTrip(|e.key|);
    LE32RoundTrip(|e.value|);
    assert s[0..4] == LE32(|e.key|) && s[4..8] == LE32(|e.value|);
  }

  // The file reads back as the entries that were written.
  lemma {:induction false} ParseEncoded(es: seq<Entry>)
    requires Short(es)
    ensures ParseAll(EncodeAll(es)) == Some(es)
    decreases |es|
  {
    if es != [] {
      var e, rest := es[0], EncodeAll(es[1..]);
      ParseEncoded(es[1..]);
      EntryHeader(e, rest);
      assert (e.key + (e.value + rest))[..|e.key|] == e.key;
      assert (e.key + (e.value + rest))[|e.key|..] == e.value + rest;
      assert (e.value + rest)[..|e.value|] == e.value;
      assert (e.value + rest)[|e.value|..] == rest;
      assert es == [e] + es[1..];
    }
  }

  // ---- lookup ----

  // get: the first entry with this key; a torn entry is an error.
  datatype Scan = Miss | Hit(value: Str) | Torn

  function ScanFor(s: seq<byte>, key: Str): Scan
    decreases |s|
  {
    if s == [] then Miss
    else if |s| < 8 || |s[8..]| < KeyLen(s) + ValLen(s) then Torn
    else if s[8..][..KeyLen(s)] == key then Hit(s[8 + KeyLen(s)..][..ValLen(s)])
    else ScanFor(s[8 + KeyLen(s) + ValLen(s)..], key)
  }

  lemma {:induction false} ScanEncoded(es: seq<Entry>, key: Str)
    requires Short(es)
    ensures match ScanFor(EncodeAll(es), key)
            case Miss => forall i | 0 <= i < |es| :: es[i].key != key
            case Hit(v) => exists i | 0 <= i < |es| :: es[i] == Entry(key, v)
            case Torn => false
    decreases |es|
  {
    if es != [] {
      var e, rest := es[0], EncodeAll(es[1..]);
      var s := EncodeAll(es);
      ScanEncoded(es[1..], key);
      EntryHeader(e, rest);
      assert s[8..][..|e.key|] == e.key;
      assert s[8 + |e.key|..] == s[8..][|e.key|..] == e.value + rest;
      assert s[8 + |e.key|..][..|e.value|] == e.value;
      assert s[8 + |e.key| + |e.value|..] == s[8 + |e.key|..][|e.value|..] == rest;
      if e.key == key {
        assert es[0] == Entry(key, e.value);
      } else if ScanFor(rest, key).Hit? {
        var i :| 0 <= i < |es[1..]| && es[1..][i] == Entry(key, ScanFor(rest, key).value);
        assert es[i + 1] == Entry(key, ScanFor(rest, key).value);
      }
    }
  }

  // ---- files that were cut ----

  // The first k bytes of x, the rest zeros.
  function Padded(x: Str, k: nat): Str
  {
    if k >= |x| then x else x[..k] + seq(|x| - k, _ => 0)
  }

  lemma ParseEntry(e: Entry, rest: seq<byte>)
    requires ShortEntry(e)
    ensures ParseAll(EncodeEntry(e) + rest) == Behind([e], ParseAll(rest))
  {
    hide LE32, FromLE32, EncodeEntry, KeyLen, ValLen;
    EntryHeader(e, rest);
    assert (e.key + (e.value + rest))[..|e.key|] == e.key;
    assert (e.key + (e.value + rest))[|e.key|..] == e.value + rest;
    assert (e.value + rest)[..|e.value|] == e.value;
    assert (e.value + rest)[|e.value|..] == rest;
  }

  lemma CutHeader(e: Entry, n: nat)
    requires ShortEntry(e) && 8 <= n <= |EncodeEntry(e)|
    ensures var s := EncodeEntry(e)[..n];
            && KeyLen(s) == |e.key| && ValLen(s) == |e.value| && |EncodeEntry(e)| == 8 + |e.key| + |e.value|
            && s[8..] == (e.key + e.value)[..n - 8]
  {
    hide LE32, FromLE32;
    EntryHeader(e, []);
    assert EncodeEntry(e) + [] == EncodeEntry(e);
    assert EncodeEntry(e)[..n][0..4] == EncodeEntry(e)[0..4] && EncodeEntry(e)[..n][4..8] == EncodeEntry(e)[4..8];
    assert EncodeEntry(e)[..n][8..] == EncodeEntry(e)[8..][..n - 8];
    assert e.value + [] == e.value;
  }

  lemma ParseTornEntry(e: Entry, n: nat)
    requires ShortEntry(e) && 8 <= n < |EncodeEntry(e)|
    ensures ParseAll(EncodeEntry(e)[..n])
            == Some([Entry(Padded(e.key, n - 8), Padded(e.value, if n - 8 < |e.key| then 0 else n - 8 - |e.key|))])
  {
    hide LE32, FromLE32, EncodeEntry, KeyLen, ValLen;
    var s, m := EncodeEntry(e)[..n], n - 8;
    CutHeader(e, n);
    var body := s[8..];
    if m <= |e.key| {
      assert body == e.key[..m];
    } else {
      assert body[..|e.key|] == e.key && body[|e.key|..] == e.value[..m - |e.key|];
    }
    assert Filled(body, |e.key|) == Padded(e.key, m);
    assert Filled(Left(body, |e.key|), |e.value|) == Padded(e.value, if m < |e.key| then 0 else m - |e.key|);
    assert Left(Left(body, |e.key|), |e.value|) == [];
    ParseStep([], s);
    BehindNothing(ParseAll(s));
    var last := Entry(Padded(e.key, m), Padded(e.value, if m < |e.key| then 0 else m - |e.key|));
    ParseStep([last], []);
    assert [] + [last] == [last];
  }

  // A file cut inside an entry: readAll fails if the header is incomplete, and
  // otherwise takes the entry with zeros for what is missing.
  lemma {:induction false} ParseCut(es: seq<Entry>, e: Entry, n: nat)
    requires Short(es) && ShortEntry(e) && n < |EncodeEntry(e)|
    ensures ParseAll(EncodeAll(es) + EncodeEntry(e)[..n])
            == if n == 0 then Some(es)
               else if n < 8 then None
               else Some(es + [Entry(Padded(e.key, n - 8), Padded(e.value, if n - 8 < |e.key| then 0 else n - 8 - |e.key|))])
    decreases |es|
  {
    hide EncodeEntry, Padded, ParseAll;
    var cut := EncodeEntry(e)[..n];
    if es == [] {
      assert EncodeAll(es) + cut == cut;
      if n >= 8 {
        ParseTornEntry(e, n);
        var last := Entry(Padded(e.key, n - 8), Padded(e.value, if n - 8 < |e.key| then 0 else n - 8 - |e.key|));
        assert es + [last] == [last];
      } else {
        ParseStep([], cut);
        BehindNothing(ParseAll(cut));
        assert cut == [] <==> n == 0;
      }
    } else {
      ParseCut(es[1..], e, n);
      assert EncodeAll(es) + cut == EncodeEntry(es[0]) + (EncodeAll(es[1..]) + cut);
      ParseEntry(es[0], EncodeAll(es[1..]) + cut);
      assert [es[0]] + es[1..] == es;
      if n >= 8 {
        var last := Entry(Padded(e.key, n - 8), Padded(e.value, if n - 8 < |e.key| then 0 else n - 8 - |e.key|));
        assert [es[0]] + (es[1..] + [last]) == es + [last];
      }
    }
  }

  lemma ScanEntry(e: Entry, rest: seq<byte>, key: Str)
    requires ShortEntry(e)
    ensures ScanFor(EncodeEntry(e) + rest, key) == if e.key == key then Hit(e.value) else ScanFor(rest, key)
  {
    hide LE32, FromLE32, EncodeEntry, KeyLen, ValLen;
    var s := EncodeEntry(e) + rest;
    EntryHeader(e, rest);
    assert s[8..][..|e.key|] == e.key;
    assert s[8 + |e.key|..] == s[8..][|e.key|..] == e.value + rest;
    assert s[8 + |e.key|..][..|e.value|] == e.value;
    assert s[8 + |e.key| + |e.value|..] == s[8 + |e.key|..][|e.value|..] == rest;
  }

  // A lookup finds what lies before the cut and reports an error for the rest.
  lemma {:induction false} ScanCut(es: seq<Entry>, e: Entry, n: nat, key: Str)
    requires Short(es) && ShortEntry(e) && 0 < n < |EncodeEntry(e)|
    ensures var r := ScanFor(EncodeAll(es) + EncodeEntry(e)[..n], key);
            && ((forall i | 0 <= i < |es| :: es[i].key != key) ==> r == Torn)
            && (forall i | 0 <= i < |es| && es[i].key == key && (forall j | 0 <= j < i :: es[j].key != key) :: r == Hit(es[i].value))
    decreases |es|
  {
    hide EncodeEntry, ScanFor;
    var cut := EncodeEntry(e)[..n];
    if es == [] {
      assert EncodeAll(es) + cut == cut;
      ScanTorn(e, n, key);
    } else {
      ScanCut(es[1..], e, n, key);
      assert EncodeAll(es) + cut == EncodeEntry(es[0]) + (EncodeAll(es[1..]) + cut);
      ScanEntry(es[0], EncodeAll(es[1..]) + cut, key);
      forall i | 0 <= i < |es| && es[i].key == key && (forall j | 0 <= j < i :: es[j].key != key)
        ensures ScanFor(EncodeAll(es) + cut, key) == Hit(es[i].value)
      {
        if i > 0 {
          assert es[0].key != key && es[1..][i - 1] == es[i];
          assert forall j | 0 <= j < i - 1 :: es[1..][j].key != key by {
            forall j | 0 <= j < i - 1 ensures es[1..][j].key != key { assert es[j + 1].key != key; }
          }
        }
      }
    }
  }

  lemma ScanTorn(e: Entry, n: nat, key: Str)
    requires ShortEntry(e) && 0 < n < |EncodeEntry(e)|
    ensures ScanFor(EncodeEntry(e)[..n], key) == Torn
  {
    hide LE32, FromLE32, EncodeEntry, KeyLen, ValLen;
    if n >= 8 { CutHeader(e, n); }
  }

  // ---- tables ----

  datatype Path = Path(level: nat, id: nat)

  datatype SSTable = SSTable(path: Path, minKey: Str, maxKey: Str)

  predicate OutOfRange(t: SSTable, key: Str)
  {
    t.minKey != [] && (Less(key, t.minKey) || Less(t.maxKey, key))
  }

  function TableFor(path: Path, es: seq<Entry>): SSTable
  {
    if es == [] then SSTable(path, [], []) else SSTable(path, es[0].key, es[|es| - 1].key)
  }

  // The file of the table holds these entries.
  ghost predicate Holds(file: seq<byte>, t: SSTable, es: seq<Entry>)
  {
    file == EncodeAll(es) && Sorted(es) && Short(es) && t == TableFor(t.path, es)
  }

  // The range check never hides a key of the table.
  lemma RangeIsSafe(t: SSTable, es: seq<Entry>, i: nat)
    requires Sorted(es) && t == TableFor(t.path, es) && i < |es|
    ensures !OutOfRange(t, es[i].key)
  {
    LessTotal(es[0].key, es[i].key);
    LessTotal(es[i].key, es[|es| - 1].key);
  }

  // It passes over the file, unread, for exactly the keys before the first and
  // behind the last, and for none if the first key is empty.
  lemma RangeIff(path: Path, es: seq<Entry>, key: Str)
    requires Sorted(es)
    ensures var t := TableFor(path, es);
            OutOfRange(t, key) <==>
              es != [] && es[0].key != [] && (Precedes(key, es[0].key) || Precedes(es[|es| - 1].key, key))
  {
    hide Less;
    if es != [] {
      LessIff(key, es[0].key);
      LessIff(es[|es| - 1].key, key);
    }
  }

  // SSTable.get: (value, found, failed).
  method TableGet(t: SSTable, file: seq<byte>, key: Str) returns (v: Str, ok: bool, failed: bool)
    ensures !OutOfRange(t, key) ==> failed == ScanFor(file, key).Torn?
    ensures ok <==> !OutOfRange(t, key) && ScanFor(file, key).Hit? && ScanFor(file, key).value != TOMBSTONE
    ensures ok ==> v == ScanFor(file, key).value && !failed
    ensures OutOfRange(t, key) ==> !failed
  {
    if OutOfRange(t, key) {
      return [], false, false;
    }
    var s := file;
    while s != []
      invariant ScanFor(s, key) == ScanFor(file, key)
      decreases |s|
    {
      if |s| < 8 || |s[8..]| < KeyLen(s) + ValLen(s) {
        return [], false, true;
      }
      var k := s[8..][..KeyLen(s)];
      if k == key {
        v := s[8 + KeyLen(s)..][..ValLen(s)];
        if v == TOMBSTONE {
          return [], false, false;
        }
        return v, true, false;
      }
      s := s[8 + KeyLen(s) + ValLen(s)..];
    }
    return [], false, false;
  }

  // On a table's own file, get answers from the table's map: the scan and the
  // range check together lose nothing, and a tombstone looks like absence.
  lemma ScanIsLookup(t: SSTable, file: seq<byte>, es: seq<Entry>, key: Str)
    requires Holds(file, t, es)
    ensures !ScanFor(file, key).Torn?
    ensures key in AsMap(es) <==> !OutOfRange(t, key) && ScanFor(file, key).Hit?
    ensures key in AsMap(es) ==> AsMap(es)[key] == ScanFor(file, key).value
  {
    ScanEncoded(es, key);
    AsMapSorted(es);
    if key in AsMap(es) {
      var i :| 0 <= i < |es| && es[i].key == key;
      RangeIsSafe(t, es, i);
    }
  }
}
