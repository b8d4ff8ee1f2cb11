/** The engine object: memtable, table lists and files, updated in place. */
module LsmEngine {
  import opened Options
  import opened Bytes
  import opened LsmTable
  import opened LsmLayers
  import R = LsmRuns

  type Disk = map<Path, seq<byte>>

  ghost function EntriesOf(disk: Disk, t: SSTable): seq<Entry>
  {
    if t.path in disk && ParseAll(disk[t.path]).Some? then ParseAll(disk[t.path]).value else []
  }

  ghost predicate GoodTable(disk: Disk, t: SSTable)
  {
    t.path in disk && Holds(disk[t.path], t, EntriesOf(disk, t))
  }

  ghost function MapsOf(disk: Disk, ts: seq<SSTable>): (r: seq<Table>)
    ensures |r| == |ts| && forall i | 0 <= i < |ts| :: r[i] == AsMap(EntriesOf(disk, ts[i]))
  {
    seq(|ts|, i requires 0 <= i < |ts| => AsMap(EntriesOf(disk, ts[i])))
  }

  // Every listed table has its own intact file, with an id already handed out.
  ghost predicate GoodTables(disk: Disk, ts: seq<SSTable>, level: nat, nextID: nat)
  {
    && (forall i | 0 <= i < |ts| :: GoodTable(disk, ts[i]) && ts[i].path.level == level && ts[i].path.id <= nextID)
    && (forall i, j | 0 <= i < j < |ts| :: ts[i].path != ts[j].path)
  }

  ghost predicate ShortTable(t: Table)
  {
    forall k | k in t :: |k| < TWO_32 && |t[k]| < TWO_32
  }

  // ---- sorting a memtable ----

  predicate IsLeast(k: Str, keys: set<Str>)
  {
    k in keys && forall x | x in keys :: x == k || Less(k, x)
  }

  lemma {:induction false} LeastExists(keys: set<Str>) returns (k: Str)
    requires keys != {}
    ensures IsLeast(k, keys)
    decreases |keys|
  {
    var x :| x in keys;
    if keys == {x} {
      k := x;
    } else {
      var rest := keys - {x};
      k := LeastExists(rest);
      LessTotal(k, x);
      if Less(x, k) {
        forall y | y in rest && y != k ensures Less(x, y) {
          LessTransitive(x, k, y);
        }
        k := x;
      }
    }
  }

  method LeastKey(keys: set<Str>) returns (k: Str)
    requires keys != {}
    ensures IsLeast(k, keys)
  {
    hide Less;
    ghost var least := LeastExists(keys);
    k :| k in keys && forall x | x in keys :: x == k || Less(k, x);
  }

  // All of es comes before all of the keys.
  ghost predicate Before(es: seq<Entry>, keys: set<Str>)
  {
    forall i, k | 0 <= i < |es| && k in keys :: Less(es[i].key, k)
  }

  lemma SortedSnoc(es: seq<Entry>, keys: set<Str>, e: Entry)
    requires Sorted(es) && Before(es, keys) && IsLeast(e.key, keys)
    ensures Sorted(es + [e]) && Before(es + [e], keys - {e.key})
    ensures AsMap(es + [e]) == AsMap(es)[e.key := e.value]
  {
    hide Less;
    assert (es + [e])[..|es|] == es;
  }

  // MemTable.sorted, and the sort before a merged table is written.
  method SortedEntries(m: Table) returns (es: seq<Entry>)
    ensures Sorted(es) && AsMap(es) == m
    ensures ShortTable(m) ==> Short(es)
  {
    hide Less, Sorted, Before, AsMap;
    es := [];
    EmptyEntries(m.Keys);
    var keys := m.Keys;
    while keys != {}
      invariant Sorted(es) && Before(es, keys) && keys <= m.Keys
      invariant AsMap(es) == map k | k in m && k !in keys :: m[k]
      invariant forall i | 0 <= i < |es| :: es[i].key in m && m[es[i].key] == es[i].value
      decreases keys
    {
      var k := LeastKey(keys);
      SortedSnoc(es, keys, Entry(k, m[k]));
      es := es + [Entry(k, m[k])];
      keys := keys - {k};
    }
  }

  lemma EmptyEntries(keys: set<Str>)
    ensures Sorted([]) && Before([], keys) && AsMap([]) == map[]
  {
  }

  // ---- files ----

  // A file under a path no table has leaves every table as it was.
  lemma NewFile(disk: Disk, path: Path, file: seq<byte>, ts: seq<SSTable>, level: nat, nextID: nat)
    requires GoodTables(disk, ts, level, nextID) && path.id > nextID
    ensures GoodTables(disk[path := file], ts, level, path.id) && GoodTables(disk[path := file], ts, level, nextID)
    ensures MapsOf(disk[path := file], ts) == MapsOf(disk, ts)
  {
    hide Holds, ParseAll, AsMap;
    forall i | 0 <= i < |ts| ensures GoodTable(disk[path := file], ts[i]) && ts[i].path.id <= path.id {
      assert GoodTable(disk, ts[i]);
    }
  }

  lemma OldFilesGone(disk: Disk, gone: set<Path>, ts: seq<SSTable>, level: nat, nextID: nat)
    requires GoodTables(disk, ts, level, nextID) && forall i | 0 <= i < |ts| :: ts[i].path !in gone
    ensures GoodTables(disk - gone, ts, level, nextID) && MapsOf(disk - gone, ts) == MapsOf(disk, ts)
  {
    hide Holds, ParseAll, AsMap;
    forall i | 0 <= i < |ts| ensures GoodTable(disk - gone, ts[i]) {
      assert GoodTable(disk, ts[i]);
    }
  }

  lemma FreshTable(disk: Disk, path: Path, es: seq<Entry>)
    requires Sorted(es) && Short(es)
    ensures var d := disk[path := EncodeAll(es)];
            GoodTable(d, TableFor(path, es)) && MapsOf(d, [TableFor(path, es)]) == [AsMap(es)]
  {
    hide ParseAll, EncodeAll, AsMap, Sorted, Short;
    ParseEncoded(es);
  }

  lemma GoodFile(disk: Disk, t: SSTable)
    requires GoodTable(disk, t)
    ensures ParseAll(disk[t.path]) == Some(EntriesOf(disk, t))
  {
    hide ParseAll, EncodeAll, Sorted;
    ParseEncoded(EntriesOf(disk, t));
  }

  lemma {:induction false} MergedEntries(base: Table, es: seq<Entry>)
    requires es != []
    ensures base + AsMap(es) == (base + AsMap(es[..|es| - 1]))[es[|es| - 1].key := es[|es| - 1].value]
  {
  }

  lemma MapsSnoc(disk: Disk, ts: seq<SSTable>, t: SSTable)
    ensures MapsOf(disk, ts + [t]) == MapsOf(disk, ts) + MapsOf(disk, [t])
  {
  }

  lemma NewestTable(disk: Disk, ts: seq<SSTable>, t: SSTable, level: nat, used: nat)
    requires GoodTables(disk, ts, level, used) && GoodTable(disk, t) && t.path.level == level && t.path.id > used
    ensures GoodTables(disk, ts + [t], level, t.path.id)
    ensures MapsOf(disk, ts + [t]) == MapsOf(disk, ts) + MapsOf(disk, [t])
  {
    hide GoodTable, AsMap;
    MapsSnoc(disk, ts, t);
  }

  // ---- the engine ----

  class Engine {
    var mem: Table
    var size: nat
    var l0: seq<SSTable>
    var l1: seq<SSTable>
    var nextID: nat
    var disk: Disk

    ghost function View(): R.Eng
      reads this
    {
      R.Eng(Layers(mem, MapsOf(disk, l0), MapsOf(disk, l1)), size)
    }

    ghost predicate Valid()
      reads this
    {
      && ShortTable(mem)
      && GoodTables(disk, l0, 0, nextID) && GoodTables(disk, l1, 1, nextID)
      && CleanL1(View().layers)
    }

    constructor ()
      ensures Valid() && View() == R.Run([])
    {
      mem, size, l0, l1, nextID, disk := map[], 0, [], [], 0, map[];
    }

    // flushToSSTable under the next id; a failed write leaves junk behind.
    method WriteTable(level: nat, es: seq<Entry>, ok: bool, junk: seq<byte>) returns (t: SSTable)
      modifies this`nextID, this`disk
      ensures nextID == old(nextID) + 1 && t == TableFor(Path(level, nextID), es)
      ensures disk == old(disk)[Path(level, nextID) := if ok then EncodeAll(es) else junk]
    {
      nextID := nextID + 1;
      if ok {
        var file := WriteAll(es);
        disk := disk[Path(level, nextID) := file];
      } else {
        disk := disk[Path(level, nextID) := junk];
      }
      t := TableFor(Path(level, nextID), es);
    }

    // The memtable becomes the newest table of level 0.
    method FlushMem(ok: bool, junk: seq<byte>)
      requires Valid()
      modifies this
      ensures Valid()
      ensures View() == if ok then R.Eng(Flushed(old(View()).layers), 0) else old(View())
    {
      hide GoodTable, GoodTables, MapsOf, AsMap, Sorted, Short, EncodeAll, ShortTable, Live;
      var es := SortedEntries(mem);
      var t := WriteTable(0, es, ok, junk);
      ghost var file := if ok then EncodeAll(es) else junk;
      NewFile(old(disk), t.path, file, l0, 0, old(nextID));
      NewFile(old(disk), t.path, file, l1, 1, old(nextID));
      if ok {
        FreshTable(old(disk), t.path, es);
        NewestTable(disk, l0, t, 0, old(nextID));
        l0 := l0 + [t];
        mem := map[];
        size := 0;
        EmptyShort();
      }
    }

    // Merges the given tables, oldest first, over base.
    method MergeTables(ts: seq<SSTable>, level: nat, base: Table) returns (m: Table)
      requires GoodTables(disk, ts, level, nextID)
      ensures m == base + Stack(MapsOf(disk, ts))
      ensures ShortTable(base) ==> ShortTable(m)
    {
      hide Holds, ParseAll, Sorted, Short, EncodeAll, Stack, MapsOf, AsMap, ShortTable, EntriesOf;
      m := base;
      NoTables(disk, base);
      for i := 0 to |ts|
        invariant m == base + Stack(MapsOf(disk, ts[..i]))
        invariant ShortTable(base) ==> ShortTable(m)
      {
        assert GoodTable(disk, ts[i]);
        GoodFile(disk, ts[i]);
        var es := ReadAll(disk[ts[i].path]);
        m := MergeInto(m, es.value);
        OneMoreTable(disk, ts, i, base);
        if ShortTable(base) { TableIsShort(disk, ts[i], base + Stack(MapsOf(disk, ts[..i]))); }
      }
      assert ts[..|ts|] == ts;
    }

    method MergeInto(base: Table, es: seq<Entry>) returns (m: Table)
      ensures m == base + AsMap(es)
    {
      m := base;
      for i := 0 to |es|
        invariant m == base + AsMap(es[..i])
      {
        assert es[..i + 1][..i] == es[..i];
        MergedEntries(base, es[..i + 1]);
        m := m[es[i].key := es[i].value];
      }
      assert es[..|es|] == es;
    }

    method DropTombstones(m: Table) returns (r: Table)
      ensures r == Live(m)
      ensures ShortTable(m) ==> ShortTable(r)
    {
      r := map k | k in m && m[k] != TOMBSTONE :: m[k];
    }

    method RemoveFiles(ts: seq<SSTable>)
      modifies this`disk
      ensures disk == old(disk) - PathsOf(ts)
    {
      for i := 0 to |ts|
        invariant disk == old(disk) - PathsOf(ts[..i])
      {
        assert ts[..i + 1] == ts[..i] + [ts[i]];
        disk := disk - {ts[i].path};
      }
      assert ts[..|ts|] == ts;
    }

    // Replaces both levels by the tables of level 1, which have fresh files.
    method Install(newL1: seq<SSTable>)
      requires GoodTables(disk, newL1, 1, nextID)
      requires forall t | t in newL1 :: t.path !in PathsOf(l0) && t.path !in PathsOf(l1)
      modifies this`disk, this`l0, this`l1
      ensures l0 == [] && l1 == newL1
      ensures GoodTables(disk, l1, 1, nextID) && MapsOf(disk, l1) == MapsOf(old(disk), newL1)
    {
      hide GoodTables, MapsOf;
      OldFilesGone(disk, PathsOf(l0), newL1, 1, nextID);
      OldFilesGone(disk - PathsOf(l0), PathsOf(l1), newL1, 1, nextID);
      RemoveFiles(l0);
      RemoveFiles(l1);
      l0 := [];
      l1 := newL1;
    }

    // Every table, oldest first, without the deleted keys.
    method MergeAll() returns (live: Table)
      requires Valid()
      ensures live == Live(Below(View().layers)) && ShortTable(live)
    {
      hide GoodTables, Live, MapsOf, Stack, ShortTable, CleanL1;
      EmptyShort();
      var merged := MergeTables(l1, 1, map[]);
      assert merged == Stack(MapsOf(disk, l1));
      merged := MergeTables(l0, 0, merged);
      live := DropTombstones(merged);
    }

    method WriteMerged(live: Table, ok: bool, junk: seq<byte>) returns (t: SSTable)
      requires Valid() && ShortTable(live)
      modifies this`nextID, this`disk
      ensures Valid() && View() == old(View())
      ensures ok ==> GoodTables(disk, [t], 1, nextID) && MapsOf(disk, [t]) == [live]
      ensures t.path !in PathsOf(l0) && t.path !in PathsOf(l1)
    {
      hide Holds, ParseAll, AsMap, Sorted, Short, Live, EncodeAll, ShortTable, Stack, GoodTable;
      var es := SortedEntries(live);
      t := WriteTable(1, es, ok, junk);
      ghost var file := if ok then EncodeAll(es) else junk;
      NewFile(old(disk), t.path, file, l0, 0, old(nextID));
      NewFile(old(disk), t.path, file, l1, 1, old(nextID));
      FreshTable(old(disk), t.path, es);
    }

    method Compact(io: R.Io, junk: seq<byte>) returns (failed: bool)
      requires Valid()
      modifies this
      ensures Valid() && failed == !R.CompactionSucceeds(old(View()).layers, io)
      ensures View() == if failed then old(View()) else old(View()).(layers := Compacted(old(View()).layers))
    {
      hide GoodTable, Live, Stack, ShortTable, AsMap, EntriesOf;
      if !io.readBack {
        return true;
      }
      var live := MergeAll();
      CompactKeepsModel(View().layers);
      var newL1 := [];
      if live != map[] {
        var t := WriteMerged(live, io.compact, junk);
        if !io.compact {
          return true;
        }
        newL1 := [t];
      }
      Install(newL1);
      return false;
    }

    method MaybeFlush(io: R.Io, junk: seq<byte>) returns (failed: bool)
      requires Valid()
      modifies this
      ensures Valid() && (View(), failed) == R.MaybeFlush(old(View()), io)
    {
      hide Holds, GoodTable, AsMap, Live, Stack, CleanL1, ShortTable;
      if size < R.MEMTABLE_LIMIT {
        return false;
      }
      FlushMem(io.flush, junk);
      if !io.flush {
        return true;
      }
      if |l0| >= R.MAX_L0 {
        failed := Compact(io, junk);
        return;
      }
      return false;
    }

    method Put(key: Str, value: Str, io: R.Io, junk: seq<byte>) returns (failed: bool)
      requires Valid() && |key| < TWO_32 && |value| < TWO_32
      modifies this
      ensures Valid() && (View(), failed) == R.Put(old(View()), key, value, io)
    {
      hide GoodTables, Live, MapsOf, R.MaybeFlush;
      size := size + |key| + |value|;
      mem := mem[key := value];
      failed := MaybeFlush(io, junk);
    }

    method Delete(key: Str, io: R.Io, junk: seq<byte>) returns (failed: bool)
      requires Valid() && |key| < TWO_32
      modifies this
      ensures Valid() && (View(), failed) == R.Delete(old(View()), key, io)
    {
      hide GoodTables, Live, MapsOf, R.MaybeFlush;
      size := size + |key| + |TOMBSTONE|;
      mem := mem[key := TOMBSTONE];
      failed := MaybeFlush(io, junk);
    }

    method Flush(io: R.Io, junk: seq<byte>) returns (failed: bool)
      requires Valid()
      modifies this
      ensures Valid() && (View(), failed) == R.Flush(old(View()), io)
    {
      hide GoodTables, Live, MapsOf, ShortTable, CleanL1;
      if size == 0 {
        return false;
      }
      FlushMem(io.flush, junk);
      return !io.flush;
    }

    // Reading a file in `bad` fails before the key is found; Get passes over its table.
    method Get(key: Str, bad: set<Path>) returns (r: Option<Str>)
      requires Valid()
      ensures r == LsmLayers.Get(Layers(mem, Seen(disk, l0, bad), Seen(disk, l1, bad)), key)
      ensures bad == {} ==> r == LsmLayers.Get(View().layers, key)
    {
      hide GoodTables, AsMap, Live, ShortTable, CleanL1, Seen, MapsOf, NewestLive, FirstLive;
      if bad == {} {
        SeenAll(disk, l0);
        SeenAll(disk, l1);
      }
      if key in mem {
        return Unless(mem[key]);
      }
      r := NewestFirst(key, bad);
      if r.None? {
        r := OldestFirst(key, bad);
      }
    }

    // The loop over level 0.
    method NewestFirst(key: Str, bad: set<Path>) returns (r: Option<Str>)
      requires GoodTables(disk, l0, 0, nextID)
      ensures r == NewestLive(Seen(disk, l0, bad), key)
    {
      hide GoodTable, AsMap;
      var i := |l0|;
      ghost var maps := Seen(disk, l0, bad);
      assert maps[..|l0|] == maps;
      while i > 0
        invariant 0 <= i <= |l0|
        invariant NewestLive(maps[..i], key) == NewestLive(maps, key)
      {
        i := i - 1;
        r := Probe(l0[i], key, bad);
        assert maps[..i + 1][..i] == maps[..i];
        if r.Some? {
          return;
        }
      }
      return None;
    }

    // The loop over level 1.
    method OldestFirst(key: Str, bad: set<Path>) returns (r: Option<Str>)
      requires GoodTables(disk, l1, 1, nextID)
      ensures r == FirstLive(Seen(disk, l1, bad), key)
    {
      hide GoodTable, AsMap;
      ghost var maps := Seen(disk, l1, bad);
      assert maps[0..] == maps;
      for j := 0 to |l1|
        invariant FirstLive(maps[j..], key) == FirstLive(maps, key)
      {
        r := Probe(l1[j], key, bad);
        assert maps[j..][1..] == maps[j + 1..];
        if r.Some? {
          return;
        }
      }
      return None;
    }

    // One table, with errors and tombstones both read as "not here".
    method Probe(t: SSTable, key: Str, bad: set<Path>) returns (r: Option<Str>)
      requires GoodTable(disk, t)
      ensures var m := if t.path in bad then map[] else AsMap(EntriesOf(disk, t));
              r == if HoldsLive(m, key) then Some(m[key]) else None
    {
      hide EncodeAll, ParseAll, AsMap, Sorted, Short;
      if t.path in bad {
        return None;
      }
      ScanIsLookup(t, disk[t.path], EntriesOf(disk, t), key);
      var v, ok, failed := TableGet(t, disk[t.path], key);
      if !failed && ok {
        return Some(v);
      }
      return None;
    }
  }

  // The tables as a reader meets them that cannot read the files in `bad`.
  ghost function Seen(disk: Disk, ts: seq<SSTable>, bad: set<Path>): (r: seq<Table>)
    ensures |r| == |ts| && forall i | 0 <= i < |ts| :: r[i] == if ts[i].path in bad then map[] else AsMap(EntriesOf(disk, ts[i]))
  {
    seq(|ts|, i requires 0 <= i < |ts| => if ts[i].path in bad then map[] else AsMap(EntriesOf(disk, ts[i])))
  }

  lemma SeenAll(disk: Disk, ts: seq<SSTable>)
    ensures Seen(disk, ts, {}) == MapsOf(disk, ts)
  {
    hide AsMap;
  }

  ghost function PathsOf(ts: seq<SSTable>): set<Path>
  {
    set t | t in ts :: t.path
  }

  lemma NoTables(disk: Disk, base: Table)
    ensures base + Stack(MapsOf(disk, [])) == base
  {
  }

  lemma OneMoreTable(disk: Disk, ts: seq<SSTable>, i: nat, base: Table)
    requires i < |ts|
    ensures base + Stack(MapsOf(disk, ts[..i + 1]))
            == base + Stack(MapsOf(disk, ts[..i])) + AsMap(EntriesOf(disk, ts[i]))
  {
    hide Stack, AsMap, EntriesOf;
    assert ts[..i + 1] == ts[..i] + [ts[i]];
    MapsSnoc(disk, ts[..i], ts[i]);
    StackSnoc(MapsOf(disk, ts[..i]), AsMap(EntriesOf(disk, ts[i])));
    assert MapsOf(disk, [ts[i]]) == [AsMap(EntriesOf(disk, ts[i]))];
  }

  lemma TableIsShort(disk: Disk, t: SSTable, base: Table)
    requires GoodTable(disk, t) && ShortTable(base)
    ensures ShortTable(base + AsMap(EntriesOf(disk, t)))
  {
    hide AsMap, EncodeAll, ParseAll;
    var es := EntriesOf(disk, t);
    AsMapSorted(es);
    forall k | k in AsMap(es) ensures |k| < TWO_32 && |AsMap(es)[k]| < TWO_32 {
      var i :| 0 <= i < |es| && es[i].key == k;
      assert ShortEntry(es[i]);
    }
  }

  lemma EmptyShort()
    ensures ShortTable(map[])
  {
  }
}
