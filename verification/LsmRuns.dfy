/** Whole runs of the engine against a plain map, with writes that may fail. */
module LsmRuns {
  import opened Options
  import opened Bytes
  import opened LsmTable
  import opened LsmLayers

  const MEMTABLE_LIMIT: nat := 4 * 1024 * 1024
  const MAX_L0: nat := 4

  // How the file system answers: whether a flush is written, whether the
  // tables read back for a compaction, whether the merged table is written.
  datatype Io = Io(flush: bool, readBack: bool, compact: bool)

  datatype Eng = Eng(layers: Layers, size: nat)

  predicate CompactionSucceeds(l: Layers, io: Io)
  {
    io.readBack && (Live(Below(l)) == map[] || io.compact)
  }

  // maybeFlush: the new state and whether an error is reported.
  function MaybeFlush(e: Eng, io: Io): (Eng, bool)
  {
    if e.size < MEMTABLE_LIMIT then (e, false)
    else if !io.flush then (e, true)
    else
      var l := Flushed(e.layers);
      if |l.l0| < MAX_L0 then (Eng(l, 0), false)
      else if CompactionSucceeds(l, io) then (Eng(Compacted(l), 0), false)
      else (Eng(l, 0), true)
  }

  function Written(e: Eng, k: Str, v: Str): Eng
  {
    Eng(e.layers.(mem := e.layers.mem[k := v]), e.size + |k| + |v|)
  }

  function Put(e: Eng, k: Str, v: Str, io: Io): (Eng, bool)
  {
    MaybeFlush(Written(e, k, v), io)
  }

  function Delete(e: Eng, k: Str, io: Io): (Eng, bool)
  {
    MaybeFlush(Written(e, k, TOMBSTONE), io)
  }

  function Flush(e: Eng, io: Io): (Eng, bool)
  {
    if e.size == 0 then (e, false)
    else if !io.flush then (e, true)
    else (Eng(Flushed(e.layers), 0), false)
  }

  // ---- runs ----

  datatype Cmd = PutCmd(k: Str, v: Str, io: Io) | DeleteCmd(k: Str, io: Io) | FlushCmd(io: Io)

  function Exec(e: Eng, c: Cmd): Eng
  {
    match c
    case PutCmd(k, v, io) => Put(e, k, v, io).0
    case DeleteCmd(k, io) => Delete(e, k, io).0
    case FlushCmd(io) => Flush(e, io).0
  }

  function Run(cs: seq<Cmd>): Eng
  {
    if cs == [] then Eng(Layers(map[], [], []), 0) else Exec(Run(cs[..|cs| - 1]), cs[|cs| - 1])
  }

  // The plain map; a Put of the sentinel value is a deletion.
  function Plain(m: Table, c: Cmd): Table
  {
    match c
    case PutCmd(k, v, _) => if v == TOMBSTONE then m - {k} else m[k := v]
    case DeleteCmd(k, _) => m - {k}
    case FlushCmd(_) => m
  }

  function PlainRun(cs: seq<Cmd>): Table
  {
    if cs == [] then map[] else Plain(PlainRun(cs[..|cs| - 1]), cs[|cs| - 1])
  }

  lemma WriteModel(l: Layers, k: Str, v: Str)
    ensures Model(l.(mem := l.mem[k := v])) == if v == TOMBSTONE then Model(l) - {k} else Model(l)[k := v]
  {
    hide Stack, Live;
    assert Below(l.(mem := l.mem[k := v])) == Below(l);
    LiveWrite(Below(l), l.mem, k, v);
  }

  lemma LiveWrite(below: Table, mem: Table, k: Str, v: Str)
    ensures Live(below + mem[k := v])
            == if v == TOMBSTONE then Live(below + mem) - {k} else Live(below + mem)[k := v]
  {
  }

  lemma MaybeFlushKeeps(e: Eng, io: Io)
    requires CleanL1(e.layers)
    ensures Model(MaybeFlush(e, io).0.layers) == Model(e.layers) && CleanL1(MaybeFlush(e, io).0.layers)
  {
    hide Model, Live, Below;
    FlushKeepsModel(e.layers);
    CompactKeepsModel(Flushed(e.layers));
  }

  lemma ExecRefines(e: Eng, c: Cmd)
    requires CleanL1(e.layers)
    ensures Model(Exec(e, c).layers) == Plain(Model(e.layers), c) && CleanL1(Exec(e, c).layers)
  {
    hide Model, Live, MaybeFlush;
    match c
    case PutCmd(k, v, io) =>
      WriteModel(e.layers, k, v);
      MaybeFlushKeeps(Written(e, k, v), io);
    case DeleteCmd(k, io) =>
      WriteModel(e.layers, k, TOMBSTONE);
      MaybeFlushKeeps(Written(e, k, TOMBSTONE), io);
    case FlushCmd(io) => FlushKeepsModel(e.layers);
  }

  // After every run, whatever failed on the way, the engine stands for the
  // plain map, a tombstone-aware Get answers from it, and Get as written does
  // so for exactly the keys that do not resurface.
  lemma {:induction false} RunRefines(cs: seq<Cmd>, k: Str)
    ensures var l := Run(cs).layers;
            && CleanL1(l)
            && Model(l) == PlainRun(cs)
            && DocumentedGet(l, k) == Lookup(PlainRun(cs), k)
            && (Get(l, k) == Lookup(PlainRun(cs), k) <==> !Resurfaces(l, k))
    decreases |cs|
  {
    hide Resurfaces, DocumentedGet, Get, Exec, Plain;
    if cs == [] {
      EmptyModel();
    } else {
      RunRefines(cs[..|cs| - 1], k);
      ExecRefines(Run(cs[..|cs| - 1]), cs[|cs| - 1]);
    }
    DocumentedGetIsModel(Run(cs).layers, k);
    GetIff(Run(cs).layers, k);
  }

  lemma EmptyModel()
    ensures Model(Layers(map[], [], [])) == map[] && CleanL1(Layers(map[], [], []))
  {
  }

  // A deleted key that comes back: put, flush, delete, flush, and the lookup as
  // written returns the value.
  lemma DeletedKeyResurfaces(k: Str, v: Str)
    requires v != TOMBSTONE && 0 < |k| + |v| < MEMTABLE_LIMIT && |k| + |TOMBSTONE| < MEMTABLE_LIMIT
    ensures var io := Io(true, true, true);
            var cs := [PutCmd(k, v, io), FlushCmd(io), DeleteCmd(k, io), FlushCmd(io)];
            && Get(Run(cs).layers, k) == Some(v) && Lookup(PlainRun(cs), k) == None
            && DocumentedGet(Run(cs).layers, k) == None
  {
    hide Model, Live, Get, PlainRun, DocumentedGet;
    var io := Io(true, true, true);
    var cs := [PutCmd(k, v, io), FlushCmd(io), DeleteCmd(k, io), FlushCmd(io)];
    assert cs[..3] == [PutCmd(k, v, io), FlushCmd(io), DeleteCmd(k, io)];
    assert cs[..3][..2] == [PutCmd(k, v, io), FlushCmd(io)];
    assert cs[..3][..2][..1] == [PutCmd(k, v, io)];
    assert cs[..3][..2][..1][..0] == [];
    assert Run(cs[..3][..2][..1]) == Eng(Layers(map[k := v], [], []), |k| + |v|);
    assert Run(cs[..3][..2]) == Eng(Layers(map[], [map[k := v]], []), 0);
    assert Run(cs[..3]) == Eng(Layers(map[k := TOMBSTONE], [map[k := v]], []), |k| + |TOMBSTONE|);
    assert Run(cs).layers == Layers(map[], [map[k := v], map[k := TOMBSTONE]], []);
    TombstoneSkipped(k, v);
    RunRefines(cs, k);
    PlainDeleted(cs, k);
  }

  lemma TombstoneSkipped(k: Str, v: Str)
    requires v != TOMBSTONE
    ensures Get(Layers(map[], [map[k := v], map[k := TOMBSTONE]], []), k) == Some(v)
  {
    var l0 := [map[k := v], map[k := TOMBSTONE]];
    assert l0[..1] == [map[k := v]];
    assert NewestLive([map[k := v]], k) == Some(v);
  }

  lemma PlainDeleted(cs: seq<Cmd>, k: Str)
    requires |cs| >= 2 && cs[|cs| - 1].FlushCmd? && cs[|cs| - 2].DeleteCmd? && cs[|cs| - 2].k == k
    ensures Lookup(PlainRun(cs), k) == None
  {
    var init := cs[..|cs| - 1];
    assert init[|init| - 1] == cs[|cs| - 2];
  }

  // ---- when memory goes to disk ----

  // Whether the command reports an error.
  predicate Fails(e: Eng, c: Cmd)
  {
    match c
    case PutCmd(k, v, io) => Put(e, k, v, io).1
    case DeleteCmd(k, io) => Delete(e, k, io).1
    case FlushCmd(io) => Flush(e, io).1
  }

  // What a write of v under k leads to. The memtable goes to disk exactly when
  // its writes have reached 4 MiB; if that makes four tables at level 0, all
  // tables are merged. An error is reported exactly when one of the two was due
  // and failed; a failed flush leaves memtable and tables, a failed compaction
  // leaves the tables.
  lemma WriteOutcome(e: Eng, k: Str, v: Str, io: Io)
    ensures var (e', err) := Put(e, k, v, io);
            var mem, total := e.layers.mem[k := v], e.size + |k| + |v|;
            var full, crowded := total >= 4194304, |e.layers.l0| + 1 >= 4;
            var merges := io.readBack && (io.compact || Live(Below(e.layers) + mem) == map[]);
            && (err <==> full && (!io.flush || (crowded && !merges)))
            && (!full || !io.flush ==> e' == Eng(e.layers.(mem := mem), total))
            && (full && io.flush ==> e'.layers.mem == map[] && e'.size == 0)
            && (full && io.flush && (!crowded || !merges) ==>
                  e'.layers.l0 == e.layers.l0 + [mem] && e'.layers.l1 == e.layers.l1)
            && (full && io.flush && crowded && merges ==> e'.layers.l0 == [] && |e'.layers.l1| <= 1)
    ensures Delete(e, k, io) == Put(e, k, TOMBSTONE, io)
  {
    hide Live, Stack, Model;
    var l := e.layers.(mem := e.layers.mem[k := v]);
    StackSnoc(l.l0, l.mem);
    assert Below(Flushed(l)) == Below(e.layers) + l.mem;
  }

  // A Flush writes whatever was written, and fails exactly if that fails.
  lemma FlushOutcome(e: Eng, io: Io)
    ensures var (e', err) := Flush(e, io);
            && (err <==> e.size > 0 && !io.flush)
            && (e.size == 0 || err ==> e' == e)
            && (e.size > 0 && !err ==> e' == Eng(Layers(map[], e.layers.l0 + [e.layers.mem], e.layers.l1), 0))
  {
  }

  // The writes since the memtable was last emptied, oldest first.
  function Since(cs: seq<Cmd>): seq<(Str, Str)>
  {
    if cs == [] || Run(cs).layers.mem == map[] then []
    else
      var before := Since(cs[..|cs| - 1]);
      match cs[|cs| - 1]
      case PutCmd(k, v, _) => before + [(k, v)]
      case DeleteCmd(k, _) => before + [(k, TOMBSTONE)]
      case FlushCmd(_) => before
  }

  function TotalBytes(ws: seq<(Str, Str)>): nat
  {
    if ws == [] then 0 else TotalBytes(ws[..|ws| - 1]) + |ws[|ws| - 1].0| + |ws[|ws| - 1].1|
  }

  function Held(ws: seq<(Str, Str)>): Table
  {
    if ws == [] then map[] else Held(ws[..|ws| - 1])[ws[|ws| - 1].0 := ws[|ws| - 1].1]
  }

  lemma OneMoreWrite(ws: seq<(Str, Str)>, k: Str, v: Str)
    ensures TotalBytes(ws + [(k, v)]) == TotalBytes(ws) + |k| + |v| && Held(ws + [(k, v)]) == Held(ws)[k := v]
  {
    assert (ws + [(k, v)])[..|ws|] == ws;
  }

  // The memtable is what was written since it was last emptied, and its size
  // is the bytes of all those writes, overwritten ones included.
  lemma {:induction false} Accounting(cs: seq<Cmd>)
    ensures Run(cs).layers.mem == Held(Since(cs)) && Run(cs).size == TotalBytes(Since(cs))
    decreases |cs|
  {
    hide Put, Delete, Flush, Held, TotalBytes;
    NothingHeld();
    if cs != [] {
      var init, c := cs[..|cs| - 1], cs[|cs| - 1];
      Accounting(init);
      var e := Run(init);
      match c {
        case PutCmd(k, v, io) =>
          WriteOutcome(e, k, v, io);
          OneMoreWrite(Since(init), k, v);
          assert k in e.layers.mem[k := v];
        case DeleteCmd(k, io) =>
          WriteOutcome(e, k, TOMBSTONE, io);
          OneMoreWrite(Since(init), k, TOMBSTONE);
          assert k in e.layers.mem[k := TOMBSTONE];
        case FlushCmd(io) =>
          FlushOutcome(e, io);
          if e.layers.mem == map[] && Run(cs) == e { EmptyIsNew(init); }
      }
    }
  }

  lemma NothingHeld()
    ensures TotalBytes([]) == 0 && Held([]) == map[]
  {
  }

  lemma EmptyIsNew(cs: seq<Cmd>)
    requires Run(cs).layers.mem == map[]
    ensures Since(cs) == []
  {
  }

  // After a write that reports no error fewer than 4 MiB of writes are held in
  // memory.
  lemma MemoryBounded(cs: seq<Cmd>)
    requires cs != [] && !cs[|cs| - 1].FlushCmd? && !Fails(Run(cs[..|cs| - 1]), cs[|cs| - 1])
    ensures TotalBytes(Since(cs)) < 4194304
  {
    hide Put, Delete, Since, TotalBytes;
    Accounting(cs);
    var e, c := Run(cs[..|cs| - 1]), cs[|cs| - 1];
    match c
    case PutCmd(k, v, io) => WriteOutcome(e, k, v, io);
    case DeleteCmd(k, io) => WriteOutcome(e, k, TOMBSTONE, io);
    case FlushCmd(_) =>
  }

  // Only writes, and none reports an error.
  ghost predicate Smooth(cs: seq<Cmd>)
  {
    forall i | 0 <= i < |cs| :: !cs[i].FlushCmd? && !Fails(Run(cs[..i]), cs[i])
  }

  // Then level 0 never reaches four tables.
  lemma {:induction false} LevelZeroBounded(cs: seq<Cmd>)
    requires Smooth(cs)
    ensures |Run(cs).layers.l0| < 4
    decreases |cs|
  {
    hide Put, Delete;
    if cs != [] {
      var init, c := cs[..|cs| - 1], cs[|cs| - 1];
      forall i | 0 <= i < |init| ensures !init[i].FlushCmd? && !Fails(Run(init[..i]), init[i]) {
        assert init[..i] == cs[..i];
      }
      LevelZeroBounded(init);
      var e := Run(init);
      match c
      case PutCmd(k, v, io) => WriteOutcome(e, k, v, io);
      case DeleteCmd(k, io) => WriteOutcome(e, k, TOMBSTONE, io);
      case FlushCmd(_) =>
    }
  }
}
