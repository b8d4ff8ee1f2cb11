/** The engine as layers of maps: what it represents, what Get answers, and
    exactly when the two differ. */
module LsmLayers {
  import opened Options
  import opened Bytes
  import opened LsmTable

  type Table = map<Str, Str>

  // l0 and l1 oldest first; a value may be the tombstone.
  datatype Layers = Layers(mem: Table, l0: seq<Table>, l1: seq<Table>)

  function Stack(ts: seq<Table>): Table
  {
    if ts == [] then map[] else Stack(ts[..|ts| - 1]) + ts[|ts| - 1]
  }

  function Live(t: Table): Table
  {
    map k | k in t && t[k] != TOMBSTONE :: t[k]
  }

  function Below(l: Layers): Table
  {
    Stack(l.l1) + Stack(l.l0)
  }

  // The plain map the engine stands for.
  function Model(l: Layers): Table
  {
    Live(Below(l) + l.mem)
  }

  function Lookup(t: Table, k: Str): Option<Str>
  {
    if k in t then Some(t[k]) else None
  }

  function Unless(v: Str): Option<Str>
  {
    if v == TOMBSTONE then None else Some(v)
  }

  // ---- Get with a lookup that tells a tombstone from absence ----

  function Newest(ts: seq<Table>, k: Str): Option<Str>
  {
    if ts == [] then None
    else if k in ts[|ts| - 1] then Some(ts[|ts| - 1][k])
    else Newest(ts[..|ts| - 1], k)
  }

  function DocumentedGet(l: Layers, k: Str): Option<Str>
  {
    if k in l.mem then Unless(l.mem[k])
    else match Newest(l.l0, k)
         case Some(v) => Unless(v)
         case None => match Newest(l.l1, k) case Some(v) => Unless(v) case None => None
  }

  lemma {:induction false} NewestIsStack(ts: seq<Table>, k: Str)
    ensures Newest(ts, k) == Lookup(Stack(ts), k)
  {
    if ts != [] {
      NewestIsStack(ts[..|ts| - 1], k);
    }
  }

  // The documented lookup answers from the plain map.
  lemma DocumentedGetIsModel(l: Layers, k: Str)
    ensures DocumentedGet(l, k) == Lookup(Model(l), k)
  {
    NewestIsStack(l.l0, k);
    NewestIsStack(l.l1, k);
  }

  // ---- Get as written: a tombstone in a table reads as absence ----

  predicate HoldsLive(t: Table, k: Str)
  {
    k in t && t[k] != TOMBSTONE
  }

  function NewestLive(ts: seq<Table>, k: Str): Option<Str>
  {
    if ts == [] then None
    else if HoldsLive(ts[|ts| - 1], k) then Some(ts[|ts| - 1][k])
    else NewestLive(ts[..|ts| - 1], k)
  }

  function FirstLive(ts: seq<Table>, k: Str): Option<Str>
  {
    if ts == [] then None
    else if HoldsLive(ts[0], k) then Some(ts[0][k])
    else FirstLive(ts[1..], k)
  }

  function Get(l: Layers, k: Str): Option<Str>
  {
    if k in l.mem then Unless(l.mem[k])
    else match NewestLive(l.l0, k)
         case Some(v) => Some(v)
         case None => FirstLive(l.l1, k)
  }

  // Level 1 is at most one table, and compaction left no tombstone in it.
  ghost predicate CleanL1(l: Layers)
  {
    |l.l1| <= 1 && forall t | t in l.l1 :: Live(t) == t
  }

  ghost predicate NewestHolder(ts: seq<Table>, k: Str, i: nat)
  {
    i < |ts| && k in ts[i] && forall j | i < j < |ts| :: k !in ts[j]
  }

  // The newest table of level 0 that has the key deletes it, and an older
  // table, of either level, still has a value.
  ghost predicate Resurfaces(l: Layers, k: Str)
  {
    && k !in l.mem
    && exists i: nat :: NewestHolder(l.l0, k, i) && l.l0[i][k] == TOMBSTONE && OlderValue(l, k, i)
  }

  ghost predicate OlderValue(l: Layers, k: Str, i: nat)
    requires i <= |l.l0|
  {
    (exists j | 0 <= j < i :: HoldsLive(l.l0[j], k)) || (exists j | 0 <= j < |l.l1| :: HoldsLive(l.l1[j], k))
  }

  lemma {:induction false} NewestLiveShape(ts: seq<Table>, k: Str)
    ensures NewestLive(ts, k) == None <==> forall j | 0 <= j < |ts| :: !HoldsLive(ts[j], k)
    ensures NewestLive(ts, k).Some? ==> NewestLive(ts, k).value != TOMBSTONE
  {
    if ts != [] {
      NewestLiveShape(ts[..|ts| - 1], k);
    }
  }

  // Above the newest holder nothing matters.
  lemma {:induction false} SkipAbove(ts: seq<Table>, k: Str, i: nat)
    requires NewestHolder(ts, k, i)
    ensures Newest(ts, k) == Some(ts[i][k])
    ensures NewestLive(ts, k) == if ts[i][k] != TOMBSTONE then Some(ts[i][k]) else NewestLive(ts[..i], k)
    decreases |ts|
  {
    if i < |ts| - 1 {
      var init := ts[..|ts| - 1];
      assert NewestHolder(init, k, i);
      SkipAbove(init, k, i);
      assert init[..i] == ts[..i];
    }
  }

  lemma {:induction false} FindHolder(ts: seq<Table>, k: Str) returns (i: nat)
    requires exists j :: 0 <= j < |ts| && k in ts[j]
    ensures NewestHolder(ts, k, i)
  {
    if k in ts[|ts| - 1] {
      i := |ts| - 1;
    } else {
      var init := ts[..|ts| - 1];
      var j :| 0 <= j < |ts| && k in ts[j];
      assert k in init[j];
      i := FindHolder(init, k);
    }
  }

  lemma {:induction false} NoHolder(ts: seq<Table>, k: Str)
    requires forall j | 0 <= j < |ts| :: k !in ts[j]
    ensures Newest(ts, k) == None && NewestLive(ts, k) == None
  {
    if ts != [] {
      NoHolder(ts[..|ts| - 1], k);
    }
  }

  lemma L1Answers(l: Layers, k: Str)
    requires CleanL1(l)
    ensures FirstLive(l.l1, k) == match Newest(l.l1, k) case Some(v) => Unless(v) case None => None
    ensures FirstLive(l.l1, k).Some? <==> exists j | 0 <= j < |l.l1| :: HoldsLive(l.l1[j], k)
  {
    if l.l1 != [] {
      var t := l.l1[0];
      assert l.l1 == [t] && Live(t) == t;
      assert FirstLive([t], k) == if HoldsLive(t, k) then Some(t[k]) else FirstLive([], k);
      assert k in t ==> k in Live(t);
    }
  }

  // Get as written agrees with the plain map exactly when no deleted key resurfaces.
  lemma GetIff(l: Layers, k: Str)
    requires CleanL1(l)
    ensures Get(l, k) == Lookup(Model(l), k) <==> !Resurfaces(l, k)
  {
    hide Model;
    DocumentedGetIsModel(l, k);
    if k !in l.mem {
      L1Answers(l, k);
      if exists j :: 0 <= j < |l.l0| && k in l.l0[j] {
        var i := FindHolder(l.l0, k);
        SkipAbove(l.l0, k, i);
        NewestLiveShape(l.l0[..i], k);
        forall m: nat | NewestHolder(l.l0, k, m) ensures m == i {}
        assert (exists j | 0 <= j < i :: HoldsLive(l.l0[j], k)) <==> (exists j | 0 <= j < i :: HoldsLive(l.l0[..i][j], k)) by {
          if j :| 0 <= j < i && HoldsLive(l.l0[j], k) { assert HoldsLive(l.l0[..i][j], k); }
        }
        assert Resurfaces(l, k) <==> l.l0[i][k] == TOMBSTONE && OlderValue(l, k, i);
      } else {
        NoHolder(l.l0, k);
      }
    }
  }

  // ---- the transitions ----

  function Flushed(l: Layers): Layers
  {
    l.(mem := map[], l0 := l.l0 + [l.mem])
  }

  function Compacted(l: Layers): Layers
  {
    var merged := Live(Below(l));
    l.(l0 := [], l1 := if merged == map[] then [] else [merged])
  }

  // The same when the tables read back as `read`, whatever the files hold.
  function CompactedFrom(l: Layers, read: Table): Layers
  {
    var merged := Live(read);
    l.(l0 := [], l1 := if merged == map[] then [] else [merged])
  }

  lemma StackSnoc(ts: seq<Table>, t: Table)
    ensures Stack(ts + [t]) == Stack(ts) + t
  {
    assert (ts + [t])[..|ts|] == ts;
  }

  lemma FlushKeepsModel(l: Layers)
    ensures Model(Flushed(l)) == Model(l)
  {
    StackSnoc(l.l0, l.mem);
    assert Below(Flushed(l)) + map[] == Below(l) + l.mem;
  }

  lemma StackOne(t: Table)
    ensures Stack([t]) == t
  {
    var ts := [t];
    assert ts[..0] == [];
    assert Stack(ts) == Stack(ts[..0]) + t;
  }

  lemma LiveTwice(below: Table, mem: Table)
    ensures Live(Live(below) + mem) == Live(below + mem) && Live(Live(below)) == Live(below)
  {
  }

  // Dropping tombstones is safe because every older table goes with them.
  lemma CompactKeepsModel(l: Layers)
    ensures Model(Compacted(l)) == Model(l) && CleanL1(Compacted(l))
  {
    hide Stack, Live;
    var merged := Live(Below(l));
    StackNone();
    StackOne(merged);
    LiveTwice(Below(l), l.mem);
    assert Below(Compacted(l)) == merged;
  }

  // readAll ignores an error inside a key or a value and goes on with zeros. Then
  // the compaction keeps the plain map if and only if what it read has, for
  // every key outside the memtable, the live value of the files.
  lemma SilentReadIff(l: Layers, read: Table)
    ensures Model(CompactedFrom(l, read)) == Model(l)
            <==> forall k | k !in l.mem :: Lookup(Live(read), k) == Lookup(Live(Below(l)), k)
    ensures CompactedFrom(l, Below(l)) == Compacted(l)
  {
    hide Stack, Live;
    var merged := Live(read);
    StackNone();
    StackOne(merged);
    LiveTwice(read, l.mem);
    assert Below(CompactedFrom(l, read)) == merged;
    LiveOverlayIff(read, Below(l), l.mem);
  }

  lemma LiveOverlayIff(a: Table, b: Table, mem: Table)
    ensures Live(a + mem) == Live(b + mem) <==> forall k | k !in mem :: Lookup(Live(a), k) == Lookup(Live(b), k)
  {
    var la, lb := Live(a + mem), Live(b + mem);
    forall k ensures Lookup(la, k) == Lookup(lb, k) <==> (k in mem || Lookup(Live(a), k) == Lookup(Live(b), k)) {}
    if la != lb {
      if forall k :: Lookup(la, k) == Lookup(lb, k) {
        SameLookups(la, lb);
      }
    }
  }

  lemma SameLookups(a: Table, b: Table)
    requires forall k :: Lookup(a, k) == Lookup(b, k)
    ensures a == b
  {
    forall k ensures k in a <==> k in b { assert Lookup(a, k) == Lookup(b, k); }
    forall k | k in a ensures a[k] == b[k] { assert Lookup(a, k) == Lookup(b, k); }
  }

  // A value read back as zeros replaces the stored one for good.
  lemma SilentReadLoses(k: Str, v: Str, zeros: Str)
    requires v != TOMBSTONE && zeros != v
    ensures var l := Layers(map[], [map[k := v]], []);
            Lookup(Model(l), k) == Some(v) && Lookup(Model(CompactedFrom(l, map[k := zeros])), k) != Some(v)
  {
    var l := Layers(map[], [map[k := v]], []);
    StackOne(map[k := v]);
    StackOne(Live(map[k := zeros]));
    StackNone();
  }

  lemma StackNone()
    ensures Stack([]) == map[]
  {
  }

  // With level 0 empty, as after a compaction, Get as written is right.
  lemma GetAfterCompaction(l: Layers, k: Str)
    ensures Get(Compacted(l), k) == Lookup(Model(l), k)
  {
    CompactKeepsModel(l);
    GetIff(Compacted(l), k);
  }
}
