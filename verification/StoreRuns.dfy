/** Concurrent writers: append under the log lock, sync under the log lock, map
    update under the map lock, in any interleaving, with crashes between. */
module StoreRuns {
  import opened Options
  import opened Bytes
  import opened Wal
  import opened Store

  // A Put or Delete between its append and its return; idx is its place in the log.
  datatype Writer = Writer(rec: Record, idx: nat, synced: bool)

  datatype Sys = Sys(
    durable: seq<Record>,
    pending: seq<Record>,
    data: Data,
    flying: map<nat, Writer>,
    acked: set<(nat, Record)>)

  datatype Event =
    | Begin(id: nat, rec: Record)
    | SyncLog(id: nat)
    | Finish(id: nat)
    | Fail(id: nat)
    | Crash(kept: nat)

  function Log(s: Sys): seq<Record>
  {
    s.durable + s.pending
  }

  // What the next Open reads from a file of these frames.
  function Recovered(crc: Checksum, disk: seq<Record>): seq<Record>
  {
    Replay(crc, EncodeAll(crc, disk))
  }

  predicate Enabled(s: Sys, e: Event)
  {
    match e
    case Begin(id, rec) => id !in s.flying && (rec.kind == PUT || rec.kind == DELETE) && |Body(rec)| < TWO_32
    case SyncLog(id) => id in s.flying
    case Finish(id) => id in s.flying && s.flying[id].synced
    case Fail(id) => id in s.flying && !s.flying[id].synced
    case Crash(kept) => kept <= |s.pending|
  }

  function Next(crc: Checksum, s: Sys, e: Event): Sys
    requires Enabled(s, e)
  {
    match e
    case Begin(id, rec) =>
      s.(pending := s.pending + [rec], flying := s.flying[id := Writer(rec, |Log(s)|, false)])
    // flushes and fsyncs everything appended so far, also for other writers
    case SyncLog(id) =>
      s.(durable := Log(s), pending := [], flying := s.flying[id := s.flying[id].(synced := true)])
    case Finish(id) =>
      var w := s.flying[id];
      s.(data := ApplyRecord(s.data, w.rec), flying := s.flying - {id}, acked := s.acked + {(w.idx, w.rec)})
    case Fail(id) => s.(flying := s.flying - {id})
    // whole frames of the unsynced tail may have reached the disk
    case Crash(kept) =>
      var disk := s.durable + s.pending[..kept];
      Sys(disk, [], Fold(Recovered(crc, disk)), map[], s.acked)
  }

  // A run of a store opened on a log of whole frames.
  ghost predicate IsRun(crc: Checksum, start: seq<Record>, run: seq<Sys>, events: seq<Event>)
  {
    && |run| == |events| + 1
    && run[0] == Sys(start, [], Fold(Recovered(crc, start)), map[], {}) && AllSized(start)
    && forall k | 0 <= k < |events| :: Enabled(run[k], events[k]) && run[k + 1] == Next(crc, run[k], events[k])
  }

  // No record of the run is over the cap.
  ghost predicate Capped(start: seq<Record>, events: seq<Event>)
  {
    AllFit(start) && forall k | 0 <= k < |events| && events[k].Begin? :: Fits(events[k].rec)
  }

  // ---- write-ahead ----

  ghost predicate Backed(durable: seq<Record>, k: Str, v: Str)
  {
    exists i :: 0 <= i < |durable| && durable[i] == Record(PUT, k, v)
  }

  ghost predicate AllBacked(durable: seq<Record>, data: Data)
  {
    forall k | k in data :: Backed(durable, k, data[k])
  }

  ghost predicate WriterInv(s: Sys, id: nat)
    requires id in s.flying
  {
    var w := s.flying[id];
    && w.idx < |Log(s)| && Log(s)[w.idx] == w.rec
    && (w.synced ==> w.idx < |s.durable|)
    && (w.rec.kind == PUT || w.rec.kind == DELETE)
  }

  ghost predicate AheadInv(s: Sys)
  {
    && (forall id | id in s.flying :: WriterInv(s, id))
    && (forall id, jd | id in s.flying && jd in s.flying && id != jd :: s.flying[id].idx != s.flying[jd].idx)
    && AllSized(Log(s))
    && AllBacked(s.durable, s.data)
    && (forall a | a in s.acked :: a.0 < |s.durable| && s.durable[a.0] == a.1)
  }

  lemma {:induction false} FoldBacked(rs: seq<Record>)
    ensures AllBacked(rs, Fold(rs))
  {
    if rs != [] {
      var init, last := rs[..|rs| - 1], rs[|rs| - 1];
      FoldBacked(init);
      forall k | k in Fold(rs) ensures Backed(rs, k, Fold(rs)[k]) {
        if last.kind == PUT && last.key == k {
          assert rs[|rs| - 1] == Record(PUT, k, Fold(rs)[k]);
        } else {
          assert Backed(init, k, Fold(init)[k]);
          var i :| 0 <= i < |init| && init[i] == Record(PUT, k, Fold(init)[k]);
          assert rs[i] == init[i];
        }
      }
    }
  }

  lemma BackedGrows(durable: seq<Record>, more: seq<Record>, data: Data)
    requires AllBacked(durable, data)
    ensures AllBacked(durable + more, data)
  {
    forall k | k in data ensures Backed(durable + more, k, data[k]) {
      assert Backed(durable, k, data[k]);
      var i :| 0 <= i < |durable| && durable[i] == Record(PUT, k, data[k]);
      assert (durable + more)[i] == durable[i];
    }
  }

  lemma FinishBacked(s: Sys, id: nat)
    requires AheadInv(s) && id in s.flying && s.flying[id].synced
    ensures AllBacked(s.durable, ApplyRecord(s.data, s.flying[id].rec))
  {
    var w := s.flying[id];
    assert WriterInv(s, id);
    assert s.durable[w.idx] == w.rec;
    forall k | k in ApplyRecord(s.data, w.rec) ensures Backed(s.durable, k, ApplyRecord(s.data, w.rec)[k]) {
      if w.rec.kind == PUT && w.rec.key == k {
        assert s.durable[w.idx] == Record(PUT, k, w.rec.value);
      } else {
        assert Backed(s.durable, k, s.data[k]);
      }
    }
  }

  lemma ReplayBacked(crc: Checksum, disk: seq<Record>)
    requires AllSized(disk)
    ensures AllBacked(disk, Fold(Recovered(crc, disk)))
  {
    hide Fold, Replay, EncodeAll, Fits, Body, AllBacked;
    var m := Recoverable(disk);
    ReplayToOversize(crc, disk);
    FoldBacked(disk[..m]);
    BackedGrows(disk[..m], disk[m..], Fold(disk[..m]));
    assert disk[..m] + disk[m..] == disk;
  }

  lemma AheadStep(crc: Checksum, s: Sys, e: Event)
    requires AheadInv(s) && Enabled(s, e)
    ensures AheadInv(Next(crc, s, e))
  {
    hide AllBacked, Fold, ApplyRecord, Recovered, Body;
    var s' := Next(crc, s, e);
    match e {
      case Begin(id, rec) => BeginAhead(crc, s, id, rec);
      case SyncLog(id) => SyncAhead(crc, s, id);
      case Finish(id) =>
        FinishBacked(s, id);
        assert WriterInv(s, id);
        forall jd | jd in s'.flying ensures WriterInv(s', jd) { assert WriterInv(s, jd); }
      case Fail(id) =>
        forall jd | jd in s'.flying ensures WriterInv(s', jd) { assert WriterInv(s, jd); }
      case Crash(kept) => CrashAhead(crc, s, kept);
    }
  }

  lemma BeginAhead(crc: Checksum, s: Sys, id: nat, rec: Record)
    requires AheadInv(s) && Enabled(s, Begin(id, rec))
    ensures AheadInv(Next(crc, s, Begin(id, rec)))
  {
    hide AllBacked, Body;
    var s' := Next(crc, s, Begin(id, rec));
    assert Log(s') == Log(s) + [rec];
    forall jd | jd in s'.flying ensures WriterInv(s', jd) {
      if jd != id { assert WriterInv(s, jd); }
    }
    forall jd | jd in s.flying ensures s.flying[jd].idx < |Log(s)| { assert WriterInv(s, jd); }
  }

  lemma SyncAhead(crc: Checksum, s: Sys, id: nat)
    requires AheadInv(s) && Enabled(s, SyncLog(id))
    ensures AheadInv(Next(crc, s, SyncLog(id)))
  {
    hide AllBacked, Body;
    var s' := Next(crc, s, SyncLog(id));
    assert Log(s') == Log(s);
    BackedGrows(s.durable, s.pending, s.data);
    forall jd | jd in s'.flying ensures WriterInv(s', jd) { assert WriterInv(s, jd); }
  }

  lemma CrashAhead(crc: Checksum, s: Sys, kept: nat)
    requires AheadInv(s) && Enabled(s, Crash(kept))
    ensures AheadInv(Next(crc, s, Crash(kept)))
  {
    hide AllBacked, Body, Recovered, Fold;
    var disk := s.durable + s.pending[..kept];
    assert disk == Log(s)[..|disk|] && disk + [] == disk;
    ReplayBacked(crc, disk);
  }

  lemma {:induction false} RunAhead(crc: Checksum, start: seq<Record>, run: seq<Sys>, events: seq<Event>, k: nat)
    requires IsRun(crc, start, run, events) && k <= |events|
    ensures AheadInv(run[k])
    decreases k
  {
    hide Enabled, Next, Recovered, Fold, Body, AllBacked;
    if k == 0 {
      ReplayBacked(crc, start);
      assert Log(run[0]) == start;
    } else {
      RunAhead(crc, start, run, events, k - 1);
      assert Enabled(run[k - 1], events[k - 1]);
      AheadStep(crc, run[k - 1], events[k - 1]);
    }
  }

  lemma {:induction false} AckedStay(crc: Checksum, start: seq<Record>, run: seq<Sys>, events: seq<Event>, j: nat, k: nat)
    requires IsRun(crc, start, run, events) && j <= k <= |events|
    ensures run[j].acked <= run[k].acked
    decreases k
  {
    hide Recovered, Fold, ApplyRecord;
    if j < k {
      AckedStay(crc, start, run, events, j, k - 1);
      assert Enabled(run[k - 1], events[k - 1]);
    }
  }

  lemma {:induction false} RunFits(crc: Checksum, start: seq<Record>, run: seq<Sys>, events: seq<Event>, k: nat)
    requires IsRun(crc, start, run, events) && k <= |events| && Capped(start, events)
    ensures AllFit(Log(run[k]))
    decreases k
  {
    hide Recovered, Fold, ApplyRecord, Fits;
    if k == 0 {
      assert Log(run[0]) == start;
    } else {
      RunFits(crc, start, run, events, k - 1);
      assert Enabled(run[k - 1], events[k - 1]);
      var s, s', e := run[k - 1], run[k], events[k - 1];
      match e {
        case Begin(id, rec) => assert Log(s') == Log(s) + [rec];
        case SyncLog(_) => assert Log(s') == Log(s);
        case Crash(kept) => assert Log(s') == Log(s)[..|s.durable| + kept];
        case _ =>
      }
    }
  }

  // Every value a Get can return has a durable record. Every write acknowledged
  // at j is, at its place, in the durable log at any later k, whatever crashed
  // in between, and the next Open reads it back exactly when no record up to it
  // is over the cap; so with none in the run the next Open reads everything.
  lemma WriteAhead(crc: Checksum, start: seq<Record>, run: seq<Sys>, events: seq<Event>, j: nat, k: nat)
    requires IsRun(crc, start, run, events) && j <= k <= |events|
    ensures AllBacked(run[k].durable, run[k].data)
    ensures forall a | a in run[j].acked :: a.0 < |run[k].durable| && run[k].durable[a.0] == a.1
    ensures var back := Recovered(crc, run[k].durable);
            && back <= run[k].durable
            && (forall a | a in run[j].acked ::
                  (a.0 < |back| && back[a.0] == a.1) <==> AllFit(run[k].durable[..a.0 + 1]))
            && (Capped(start, events) ==> back == run[k].durable)
  {
    hide Enabled, Next, Recovered, Fold, Body, AllBacked, Fits;
    RunAhead(crc, start, run, events, k);
    AckedStay(crc, start, run, events, j, k);
    var disk := run[k].durable;
    var m := DiskRecovers(crc, run[k]);
    assert disk[..m] <= disk;
    forall a | a in run[j].acked ensures a.0 < m <==> AllFit(disk[..a.0 + 1]) {
      RecoverableIff(disk, a.0);
    }
    if Capped(start, events) {
      RunFits(crc, start, run, events, k);
      assert forall i | 0 <= i < |disk| :: Log(run[k])[i] == disk[i];
    }
  }

  lemma DiskRecovers(crc: Checksum, s: Sys) returns (m: nat)
    requires AheadInv(s)
    ensures m == Recoverable(s.durable) && Recovered(crc, s.durable) == s.durable[..m]
    ensures AllFit(s.durable) ==> Recovered(crc, s.durable) == s.durable
  {
    hide Replay, EncodeAll, Body, AllBacked, Fits;
    m := Recoverable(s.durable);
    assert forall i | 0 <= i < |s.durable| :: Log(s)[i] == s.durable[i];
    ReplayToOversize(crc, s.durable);
    assert s.durable[..|s.durable|] == s.durable;
  }

  // An acknowledged record over the cap is in the map until the process stops,
  // and in no map after that.
  lemma OversizeVanishes(crc: Checksum, k: Str, v: Str) returns (run: seq<Sys>, events: seq<Event>)
    requires MAX_BODY < |Body(Record(PUT, k, v))| < TWO_32
    ensures IsRun(crc, [], run, events) && |events| == 4
    ensures (0, Record(PUT, k, v)) in run[3].acked && run[3].data == map[k := v]
    ensures run[4].durable == [Record(PUT, k, v)] && run[4].data == map[]
  {
    hide Body, Recovered, Fold;
    var rec := Record(PUT, k, v);
    events := [Begin(1, rec), SyncLog(1), Finish(1), Crash(0)];
    EmptyRecovers(crc);
    OversizeReads(crc, rec);
    var s0 := Sys([], [], map[], map[], {});
    var s1 := Next(crc, s0, events[0]);
    var s2 := Next(crc, s1, events[1]);
    assert s2 == Sys([rec], [], map[], map[1 := Writer(rec, 0, true)], {});
    var s3 := Next(crc, s2, events[2]);
    var s4 := Next(crc, s3, events[3]);
    assert s4.durable == [rec];
    run := [s0, s1, s2, s3, s4];
  }

  lemma EmptyRecovers(crc: Checksum)
    ensures Recovered(crc, []) == [] && Fold(Recovered(crc, [])) == map[]
  {
    ReplayNothing(crc);
  }

  lemma OversizeReads(crc: Checksum, r: Record)
    requires MAX_BODY < |Body(r)| < TWO_32
    ensures Fold(Recovered(crc, [r])) == map[]
  {
    hide Replay, EncodeAll, Body;
    ReplayToOversize(crc, [r]);
  }

  // ---- where the map and the log agree ----

  function Value(m: Data, k: Str): Option<Str>
  {
    if k in m then Some(m[k]) else None
  }

  function Effect(r: Record): Option<Str>
  {
    if r.kind == PUT then Some(r.value) else None
  }

  // What the last record of key k leaves there.
  function LastOf(rs: seq<Record>, k: Str): Option<Str>
  {
    if rs == [] then None
    else
      var last := rs[|rs| - 1];
      if last.key == k && (last.kind == PUT || last.kind == DELETE) then Effect(last) else LastOf(rs[..|rs| - 1], k)
  }

  lemma {:induction false} FoldIsLast(rs: seq<Record>, k: Str)
    ensures Value(Fold(rs), k) == LastOf(rs, k)
  {
    if rs != [] {
      FoldIsLast(rs[..|rs| - 1], k);
    }
  }

  // Records of other keys do not matter to k.
  lemma {:induction false} LastOfSkips(rs: seq<Record>, a: nat, k: Str)
    requires a <= |rs| && forall i | a <= i < |rs| :: rs[i].key != k
    ensures LastOf(rs, k) == LastOf(rs[..a], k)
    decreases |rs|
  {
    if a < |rs| {
      var init := rs[..|rs| - 1];
      LastOfSkips(init, a, k);
      assert init[..a] == rs[..a];
    } else {
      assert rs[..a] == rs;
    }
  }

  // Where the entry of a key in the map comes from: the records of the last
  // restart, or the last writer of the key to reach the map since.
  datatype Source = Restarted(disk: seq<Record>) | Wrote(idx: nat, rec: Record)

  function NextSource(s: Sys, e: Event, k: Str, src: Source): Source
    requires Enabled(s, e)
  {
    match e
    case Crash(kept) => Restarted(s.durable + s.pending[..kept])
    case Finish(id) => if s.flying[id].rec.key == k then Wrote(s.flying[id].idx, s.flying[id].rec) else src
    case _ => src
  }

  ghost function SourceAt(crc: Checksum, start: seq<Record>, run: seq<Sys>, events: seq<Event>, n: nat, k: Str): Source
    requires IsRun(crc, start, run, events) && n <= |events|
  {
    if n == 0 then Restarted(start)
    else
      assert Enabled(run[n - 1], events[n - 1]);
      NextSource(run[n - 1], events[n - 1], k, SourceAt(crc, start, run, events, n - 1, k))
  }

  function Left(crc: Checksum, src: Source, k: Str): Option<Str>
  {
    match src
    case Restarted(disk) => LastOf(Recovered(crc, disk), k)
    case Wrote(_, rec) => Effect(rec)
  }

  lemma SourceStep(crc: Checksum, s: Sys, e: Event, k: Str, src: Source)
    requires AheadInv(s) && Enabled(s, e) && Value(s.data, k) == Left(crc, src, k)
    ensures Value(Next(crc, s, e).data, k) == Left(crc, NextSource(s, e, k, src), k)
  {
    hide Fold, Recovered, LastOf, AllBacked, Body;
    match e {
      case Crash(kept) => FoldIsLast(Recovered(crc, s.durable + s.pending[..kept]), k);
      case Finish(id) => assert WriterInv(s, id);
      case _ =>
    }
  }

  lemma {:induction false} MapIsSource(crc: Checksum, start: seq<Record>, run: seq<Sys>, events: seq<Event>, n: nat, k: Str)
    requires IsRun(crc, start, run, events) && n <= |events|
    ensures Value(run[n].data, k) == Left(crc, SourceAt(crc, start, run, events, n, k), k)
    decreases n
  {
    hide Enabled, Next, NextSource, Recovered, Fold, LastOf, AheadInv;
    if n == 0 {
      FoldIsLast(Recovered(crc, start), k);
    } else {
      MapIsSource(crc, start, run, events, n - 1, k);
      RunAhead(crc, start, run, events, n - 1);
      assert Enabled(run[n - 1], events[n - 1]);
      SourceStep(crc, run[n - 1], events[n - 1], k, SourceAt(crc, start, run, events, n - 1, k));
    }
  }

  ghost predicate SameAt(a: Data, b: Data, k: Str)
  {
    (k in a <==> k in b) && (k in a ==> a[k] == b[k])
  }

  // In any state of any run, with writers in flight, overlaps and failed syncs:
  // a restart of the durable log would answer for k as the map does now if and
  // only if what last reached the map for k leaves what the last recovered
  // record of k leaves.
  lemma MapIsLogIff(crc: Checksum, start: seq<Record>, run: seq<Sys>, events: seq<Event>, n: nat, k: Str)
    requires IsRun(crc, start, run, events) && n <= |events|
    ensures SameAt(run[n].data, Fold(Recovered(crc, run[n].durable)), k)
            <==> Left(crc, SourceAt(crc, start, run, events, n, k), k) == LastOf(Recovered(crc, run[n].durable), k)
  {
    hide Enabled, Next, Recovered, Fold, LastOf, Left, SourceAt;
    MapIsSource(crc, start, run, events, n, k);
    FoldIsLast(Recovered(crc, run[n].durable), k);
  }

  // ---- writers that finish in log order ----

  ghost predicate InFlight(s: Sys, i: nat)
  {
    exists id :: id in s.flying && s.flying[id].idx == i
  }

  // A writer updates the map while every later record of its key is still in
  // flight: writers of one key finish in log order.
  ghost predicate InOrder(s: Sys, e: Event)
    requires Enabled(s, e)
  {
    && !e.Fail?
    && (e.Finish? ==>
          var w := s.flying[e.id];
          forall j | w.idx < j < |Log(s)| && Log(s)[j].key == w.rec.key :: InFlight(s, j))
  }

  // Everything in the log on key k from index a on is in flight.
  ghost predicate FlightFrom(s: Sys, a: nat, k: Str)
  {
    forall j | a <= j < |Log(s)| && Log(s)[j].key == k :: InFlight(s, j)
  }

  // Whatever the log holds on k above the source is in flight.
  ghost predicate OrderInv(s: Sys, k: Str, src: Source)
  {
    match src
    case Restarted(disk) => disk <= s.durable && FlightFrom(s, |disk|, k)
    case Wrote(idx, rec) =>
      && idx < |s.durable| && s.durable[idx] == rec && rec.key == k && (rec.kind == PUT || rec.kind == DELETE)
      && FlightFrom(s, idx + 1, k)
  }

  ghost predicate PendingInFlight(s: Sys)
  {
    forall i | |s.durable| <= i < |Log(s)| :: InFlight(s, i)
  }

  // A step that neither finishes a writer nor crashes takes nobody out of flight.
  lemma FlightStays(crc: Checksum, s: Sys, e: Event)
    requires Enabled(s, e) && (e.Begin? || e.SyncLog?)
    ensures var s' := Next(crc, s, e);
            && Log(s) <= Log(s') && s.durable <= s'.durable
            && (forall i | 0 <= i < |Log(s)| && InFlight(s, i) :: InFlight(s', i))
            && (forall i | |Log(s)| <= i < |Log(s')| :: InFlight(s', i))
  {
    var s' := Next(crc, s, e);
    if e.Begin? {
      assert Log(s') == Log(s) + [e.rec];
      assert s'.flying[e.id].idx == |Log(s)|;
    } else {
      assert Log(s') == Log(s);
    }
    forall i | 0 <= i < |Log(s)| && InFlight(s, i) ensures InFlight(s', i) {
      var id :| id in s.flying && s.flying[id].idx == i;
      assert s'.flying[id].idx == i;
    }
  }

  lemma FlightAfterFinish(crc: Checksum, s: Sys, id: nat)
    requires AheadInv(s) && Enabled(s, Finish(id))
    ensures var s' := Next(crc, s, Finish(id));
            && Log(s') == Log(s) && s'.durable == s.durable
            && forall i | InFlight(s, i) && i != s.flying[id].idx :: InFlight(s', i)
  {
    hide AllBacked, AllSized, WriterInv, ApplyRecord;
    var s' := Next(crc, s, Finish(id));
    forall i | InFlight(s, i) && i != s.flying[id].idx ensures InFlight(s', i) {
      var jd :| jd in s.flying && s.flying[jd].idx == i;
      assert s'.flying[jd].idx == i;
    }
  }

  lemma OrderStep(crc: Checksum, s: Sys, e: Event, k: Str, src: Source)
    requires AheadInv(s) && Enabled(s, e) && InOrder(s, e) && PendingInFlight(s) && OrderInv(s, k, src)
    ensures var s' := Next(crc, s, e);
            PendingInFlight(s') && OrderInv(s', k, NextSource(s, e, k, src))
  {
    hide AllBacked, AllSized, Fold, Recovered, ApplyRecord, Body, InFlight;
    var s' := Next(crc, s, e);
    match e {
      case Finish(id) =>
        assert WriterInv(s, id);
        FlightAfterFinish(crc, s, id);
        assert Log(s)[s.flying[id].idx] == s.flying[id].rec;
      case Crash(kept) => assert Log(s') == s'.durable;
      case _ =>
        FlightStays(crc, s, e);
    }
  }

  lemma {:induction false} RunOrder(crc: Checksum, start: seq<Record>, run: seq<Sys>, events: seq<Event>, n: nat, k: Str)
    requires IsRun(crc, start, run, events) && n <= |events|
    requires forall j | 0 <= j < n :: Enabled(run[j], events[j]) && InOrder(run[j], events[j])
    ensures PendingInFlight(run[n]) && OrderInv(run[n], k, SourceAt(crc, start, run, events, n, k))
    decreases n
  {
    hide Enabled, Next, NextSource, Recovered, Fold, InOrder, AheadInv;
    if n == 0 {
      assert Log(run[0]) == start;
    } else {
      hide PendingInFlight, OrderInv;
      RunOrder(crc, start, run, events, n - 1, k);
      RunAhead(crc, start, run, events, n - 1);
      assert Enabled(run[n - 1], events[n - 1]) && InOrder(run[n - 1], events[n - 1]);
      OrderStep(crc, run[n - 1], events[n - 1], k, SourceAt(crc, start, run, events, n - 1, k));
    }
  }

  // With nobody in flight, the source of k is the last record of k in the log.
  lemma QuiescentSource(crc: Checksum, s: Sys, k: Str, src: Source)
    requires s.flying == map[] && PendingInFlight(s) && OrderInv(s, k, src) && AllFit(s.durable)
    ensures s.pending == [] && Left(crc, src, k) == LastOf(s.durable, k)
  {
    hide Replay, EncodeAll, Fits;
    assert !InFlight(s, |s.durable|);
    assert Log(s) == s.durable;
    match src {
      case Restarted(disk) =>
        assert s.durable[..|disk|] == disk;
        ReplayAll(crc, disk);
        LastOfSkips(s.durable, |disk|, k);
      case Wrote(idx, rec) =>
        LastOfSkips(s.durable, idx + 1, k);
        assert s.durable[..idx + 1][idx] == rec;
    }
  }

  // In a quiescent state after writers that finished in order, with no record
  // over the cap: everything is durable and the map is the replayed log.
  lemma QuiescentMapIsLog(crc: Checksum, start: seq<Record>, run: seq<Sys>, events: seq<Event>, n: nat)
    requires IsRun(crc, start, run, events) && n <= |events| && Capped(start, events)
    requires forall j | 0 <= j < n :: Enabled(run[j], events[j]) && InOrder(run[j], events[j])
    requires run[n].flying == map[]
    ensures run[n].pending == [] && run[n].data == Fold(Replay(crc, EncodeAll(crc, run[n].durable)))
  {
    hide Fold, InOrder, Enabled, Next, Replay, EncodeAll, LastOf, OrderInv, PendingInFlight, AheadInv, Fits, Left;
    var s := run[n];
    var disk := Recovered(crc, s.durable);
    RunFits(crc, start, run, events, n);
    assert forall i | 0 <= i < |s.durable| :: Log(s)[i] == s.durable[i];
    ReplayAll(crc, s.durable);
    RunOrder(crc, start, run, events, n, []);
    QuiescentSource(crc, s, [], SourceAt(crc, start, run, events, n, []));
    forall k ensures SameAt(s.data, Fold(disk), k) {
      RunOrder(crc, start, run, events, n, k);
      QuiescentSource(crc, s, k, SourceAt(crc, start, run, events, n, k));
      MapIsLogIff(crc, start, run, events, n, k);
    }
    SameEverywhere(s.data, Fold(disk));
  }

  lemma SameEverywhere(a: Data, b: Data)
    requires forall k :: SameAt(a, b, k)
    ensures a == b
  {
    forall k ensures k in a <==> k in b { assert SameAt(a, b, k); }
    forall k | k in a ensures a[k] == b[k] { assert SameAt(a, b, k); }
  }

  // ---- when that is so ----

  // No write starts while another on the same key is in flight; none fails.
  ghost predicate Separate(s: Sys, e: Event)
  {
    !e.Fail? && (e.Begin? ==> forall id | id in s.flying :: s.flying[id].rec.key != e.rec.key)
  }

  // A writer in flight is the last of its key in the log.
  ghost predicate LastOfKey(s: Sys)
  {
    forall id, j | id in s.flying && s.flying[id].idx < j < |Log(s)| :: Log(s)[j].key != s.flying[id].rec.key
  }

  lemma LastOfKeyStep(crc: Checksum, s: Sys, e: Event)
    requires AheadInv(s) && LastOfKey(s) && Enabled(s, e) && Separate(s, e)
    ensures InOrder(s, e) && LastOfKey(Next(crc, s, e))
  {
    hide AllBacked, AllSized, Fold, ApplyRecord, Recovered, Body;
    var s' := Next(crc, s, e);
    match e {
      case Begin(id, rec) =>
        assert Log(s') == Log(s) + [rec];
        forall jd, j | jd in s'.flying && s'.flying[jd].idx < j < |Log(s')| ensures Log(s')[j].key != s'.flying[jd].rec.key {
          assert jd in s.flying;
          if j < |Log(s)| { assert Log(s')[j] == Log(s)[j]; }
        }
      case SyncLog(id) => assert Log(s') == Log(s);
      case _ =>
    }
  }

  // Writers of one key that never overlap finish in log order.
  lemma {:induction false} SeparateIsInOrder(crc: Checksum, start: seq<Record>, run: seq<Sys>, events: seq<Event>, k: nat)
    requires IsRun(crc, start, run, events) && k <= |events|
    requires forall j | 0 <= j < k :: Separate(run[j], events[j])
    ensures LastOfKey(run[k])
    ensures forall j | 0 <= j < k :: Enabled(run[j], events[j]) && InOrder(run[j], events[j])
    decreases k
  {
    hide Enabled, Next, InOrder, AheadInv, Separate, Recovered, Fold;
    if k > 0 {
      SeparateIsInOrder(crc, start, run, events, k - 1);
      RunAhead(crc, start, run, events, k - 1);
      assert Enabled(run[k - 1], events[k - 1]) && Separate(run[k - 1], events[k - 1]);
      LastOfKeyStep(crc, run[k - 1], events[k - 1]);
    }
  }

  // Two overlapping writes of one key: the log ends with b, the map with a,
  // so a restart changes what Get returns.
  lemma OverlapDiverges(crc: Checksum, k: Str, a: Str, b: Str) returns (run: seq<Sys>, events: seq<Event>)
    requires a != b && Fits(Record(PUT, k, a)) && Fits(Record(PUT, k, b))
    ensures IsRun(crc, [], run, events) && run[|events|].flying == map[]
    ensures run[|events|].data == map[k := a] && Fold(Recovered(crc, run[|events|].durable)) == map[k := b]
  {
    hide Fold, Body, Recovered;
    var ra, rb := Record(PUT, k, a), Record(PUT, k, b);
    events := [Begin(1, ra), Begin(2, rb), SyncLog(1), SyncLog(2), Finish(2), Finish(1)];
    EmptyRecovers(crc);
    var s0 := Sys([], [], map[], map[], {});
    var s1 := Next(crc, s0, events[0]);
    var s2 := Next(crc, s1, events[1]);
    assert s2 == Sys([], [ra, rb], map[], map[1 := Writer(ra, 0, false), 2 := Writer(rb, 1, false)], {});
    var s3 := Next(crc, s2, events[2]);
    var s4 := Next(crc, s3, events[3]);
    assert s4 == Sys([ra, rb], [], map[], map[1 := Writer(ra, 0, true), 2 := Writer(rb, 1, true)], {});
    var s5 := Next(crc, s4, events[4]);
    var s6 := Next(crc, s5, events[5]);
    run := [s0, s1, s2, s3, s4, s5, s6];
    LaterPutWins(crc, k, a, b);
  }

  lemma LaterPutWins(crc: Checksum, k: Str, a: Str, b: Str)
    requires Fits(Record(PUT, k, a)) && Fits(Record(PUT, k, b))
    ensures Fold(Recovered(crc, [Record(PUT, k, a), Record(PUT, k, b)])) == map[k := b]
  {
    hide Replay, EncodeAll, Body;
    var ra, rb := Record(PUT, k, a), Record(PUT, k, b);
    ReplayAll(crc, [ra, rb]);
    assert [ra, rb][..1] == [ra] && [ra][..0] == [];
    assert Fold([ra]) == map[k := a];
  }
}
