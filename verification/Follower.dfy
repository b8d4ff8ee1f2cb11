/** The follower: applies the leader's byte stream record by record, persists
    its offset after each one, and resumes from it after any crash. */
module Follower {
  import opened Options
  import opened Bytes
  import opened Wal
  import opened Store

  // ---- one connection ----

  // The bytes of the first i records that a stream decodes to.
  function Consumed(crc: Checksum, s: seq<byte>, i: nat): (n: nat)
    ensures n <= |s|
    decreases i
  {
    if i == 0 then 0
    else match Decode(crc, s)
         case Got(_, size) => size + Consumed(crc, s[size..], i - 1)
         case _ => 0
  }

  // How a connection goes wrong at a record: the store refuses it, or it is
  // applied and its offset cannot be written.
  datatype Failure = Failure(at: nat, applied: bool)

  // Records that are neither puts nor deletes are not given to the store.
  predicate Stops(f: Option<Failure>, rs: seq<Record>)
  {
    f.Some? && f.value.at < |rs| && (f.value.applied || rs[f.value.at].kind == PUT || rs[f.value.at].kind == DELETE)
  }

  // The records whose offset is written.
  function Saved(f: Option<Failure>, rs: seq<Record>): (n: nat)
    ensures n <= |rs|
  {
    if Stops(f, rs) then f.value.at else |rs|
  }

  // The records given to the store: one more if only its offset write failed.
  function Given(f: Option<Failure>, rs: seq<Record>): (n: nat)
    ensures n <= |rs|
  {
    if Stops(f, rs) && f.value.applied then f.value.at + 1 else Saved(f, rs)
  }

  class Replica {
    var data: Data       // the local store
    var offset: nat      // the offset file

    // runOnce on the bytes received until the connection ends or a write fails.
    method RunOnce(crc: Checksum, received: seq<byte>, failure: Option<Failure>)
      modifies this
      ensures var rs := Replay(crc, received);
              var stopped := failure.Some? && failure.value.at < |rs|
                             && (failure.value.applied || rs[failure.value.at].kind == PUT || rs[failure.value.at].kind == DELETE);
              var saved := if stopped then failure.value.at else |rs|;
              && data == FoldFrom(old(data), rs[..if stopped && failure.value.applied then saved + 1 else saved])
              && offset == old(offset) + Consumed(crc, received, saved)
    {
      hide Decode, ApplyRecord, Replay, Consumed, FoldFrom;
      var s, i := received, 0;
      NothingYet(crc, received, data);
      ghost var rs := Replay(crc, received);
      while true
        modifies this
        invariant i <= |rs| && rs[i..] == Replay(crc, s)
        invariant s == received[Consumed(crc, received, i)..]
        invariant data == FoldFrom(old(data), rs[..i]) && offset == old(offset) + Consumed(crc, received, i)
        invariant Stops(failure, rs) ==> failure.value.at >= i
        decreases |s|
      {
        match Decode(crc, s) {
          case Got(rec, size) =>
            ReplayHead(crc, s);
            assert rs[i] == rs[i..][0] && rs[i + 1..] == rs[i..][1..];
            if failure == Some(Failure(i, false)) && (rec.kind == PUT || rec.kind == DELETE) {
              return;
            }
            FoldFromSnoc(old(data), rs, i);
            Give(rec);
            if failure == Some(Failure(i, true)) {
              return;
            }
            ConsumedSnoc(crc, received, i);
            offset := offset + size;
            s := s[size..];
            i := i + 1;
          case _ =>
            ReplayHead(crc, s);
            assert rs[..i] == rs;
            return;
        }
      }
    }

    // The record goes to the local store.
    method Give(rec: Record)
      modifies this`data
      ensures data == ApplyRecord(old(data), rec)
    {
      if rec.kind == PUT {
        data := data[rec.key := rec.value];
      } else if rec.kind == DELETE {
        data := data - {rec.key};
      }
    }
  }

  lemma NothingYet(crc: Checksum, s: seq<byte>, m: Data)
    ensures Consumed(crc, s, 0) == 0 && FoldFrom(m, []) == m
  {
  }

  lemma ReplayHead(crc: Checksum, s: seq<byte>)
    ensures var d := Decode(crc, s);
            Replay(crc, s) == if d.Got? then [d.rec] + Replay(crc, s[d.size..]) else []
  {
    hide Decode;
  }

  lemma {:induction false} FoldFromSnoc(m: Data, rs: seq<Record>, i: nat)
    requires i < |rs|
    ensures FoldFrom(m, rs[..i + 1]) == ApplyRecord(FoldFrom(m, rs[..i]), rs[i])
    decreases i
  {
    hide ApplyRecord;
    assert rs[..i + 1][1..] == rs[1..][..i];
    if i > 0 {
      assert rs[..i][1..] == rs[1..][..i - 1];
      FoldFromSnoc(ApplyRecord(m, rs[0]), rs[1..], i - 1);
    }
  }

  lemma {:induction false} ConsumedSnoc(crc: Checksum, s: seq<byte>, i: nat)
    requires Decode(crc, s[Consumed(crc, s, i)..]).Got? && i < |Replay(crc, s)|
    ensures var size := Decode(crc, s[Consumed(crc, s, i)..]).size;
            && Consumed(crc, s, i + 1) == Consumed(crc, s, i) + size
            && s[Consumed(crc, s, i + 1)..] == s[Consumed(crc, s, i)..][size..]
    decreases i
  {
    hide Decode;
    if i == 0 {
      assert s[0..] == s;
    } else {
      var first := Decode(crc, s).size;
      var rest := s[first..];
      assert rest[Consumed(crc, rest, i - 1)..] == s[Consumed(crc, s, i)..];
      ConsumedSnoc(crc, rest, i - 1);
    }
  }

  // A stream cut anywhere replays its whole frames and moves the offset to the
  // end of the last of them.
  lemma {:induction false} OffsetAtFrame(crc: Checksum, rs: seq<Record>, n: nat)
    requires AllFit(rs) && n <= |EncodeAll(crc, rs)|
    ensures var w, s := WholeFrames(crc, rs, n), EncodeAll(crc, rs)[..n];
            Replay(crc, s) == rs[..w] && Consumed(crc, s, w) == |EncodeAll(crc, rs[..w])|
    decreases |rs|
  {
    hide Encode, Decode, Fits, Replay;
    TornTailRecovery(crc, rs, n);
    if rs != [] {
      var f := Encode(crc, rs[0]);
      var s := EncodeAll(crc, rs)[..n];
      if n >= |f| {
        var tail := EncodeAll(crc, rs[1..])[..n - |f|];
        assert s == f + tail;
        FrameRoundTrip(crc, rs[0], tail);
        OffsetAtFrame(crc, rs[1..], n - |f|);
        var w := WholeFrames(crc, rs, n);
        assert rs[..w][1..] == rs[1..][..w - 1];
      }
    }
  }

  // ---- runs with disconnects and crashes ----

  datatype Phase = Idle | Connected(offset: nat) | Applied(offset: nat, size: nat)

  datatype Sys = Sys(leader: seq<Record>, persisted: nat, data: Data, phase: Phase)

  datatype Event =
    | LeaderWrites(r: Record)
    | Connect
    | Receive(n: nat)          // n bytes have arrived; decode and apply
    | ReceiveAndDie(n: nat)    // the same, but the process dies before the offset is written
    | WriteOffset
    | Drop                     // disconnect, failed apply, failed offset write, or crash

  // The bytes of the leader's log from an offset on, as far as received.
  function Arrived(crc: Checksum, s: Sys, offset: nat, n: nat): seq<byte>
    requires offset + n <= |EncodeAll(crc, s.leader)|
  {
    EncodeAll(crc, s.leader)[offset..offset + n]
  }

  ghost predicate Enabled(crc: Checksum, s: Sys, e: Event)
  {
    match e
    case LeaderWrites(r) => |Body(r)| < TWO_32
    case Connect => s.phase == Idle
    case Receive(n) => s.phase.Connected? && s.phase.offset + n <= |EncodeAll(crc, s.leader)|
    case ReceiveAndDie(n) => s.phase.Connected? && s.phase.offset + n <= |EncodeAll(crc, s.leader)|
    case WriteOffset => s.phase.Applied?
    case Drop => true
  }

  function Next(crc: Checksum, s: Sys, e: Event): Sys
    requires Enabled(crc, s, e)
  {
    match e
    case LeaderWrites(r) => s.(leader := s.leader + [r])
    case Connect => s.(phase := Connected(s.persisted))
    case Receive(n) =>
      (match Decode(crc, Arrived(crc, s, s.phase.offset, n))
       case Got(rec, size) => s.(data := ApplyRecord(s.data, rec), phase := Applied(s.phase.offset, size))
       case _ => s.(phase := Idle))
    case ReceiveAndDie(n) =>
      (match Decode(crc, Arrived(crc, s, s.phase.offset, n))
       case Got(rec, _) => s.(data := ApplyRecord(s.data, rec), phase := Idle)
       case _ => s.(phase := Idle))
    case WriteOffset =>
      var offset := s.phase.offset + s.phase.size;
      s.(persisted := offset, phase := Connected(offset))
    case Drop => s.(phase := Idle)
  }

  // The events lead from s to t.
  ghost predicate Reaches(crc: Checksum, s: Sys, events: seq<Event>, t: Sys)
    decreases |events|
  {
    if events == [] then s == t
    else Enabled(crc, s, events[0]) && Reaches(crc, Next(crc, s, events[0]), events[1..], t)
  }

  ghost predicate IsRun(crc: Checksum, start: seq<Record>, run: seq<Sys>, events: seq<Event>)
  {
    && |run| == |events| + 1
    && run[0] == Sys(start, 0, map[], Idle) && AllSized(start)
    && forall k | 0 <= k < |events| :: Enabled(crc, run[k], events[k]) && run[k + 1] == Next(crc, run[k], events[k])
  }

  // The number of offsets written in the first k events.
  function Position(events: seq<Event>, k: nat): nat
    requires k <= |events|
  {
    if k == 0 then 0 else Position(events, k - 1) + if events[k - 1].WriteOffset? then 1 else 0
  }

  // The persisted offset is the end of the leader's m-th frame, and the map is
  // the leader's first m records, or one more. All of them are within the cap.
  ghost predicate AtFrame(crc: Checksum, s: Sys, m: nat)
  {
    && m <= |s.leader| && AllFit(s.leader[..m])
    && s.persisted == |EncodeAll(crc, s.leader[..m])|
    && (s.data == Fold(s.leader[..m]) || OneAhead(s, m))
    && (s.phase.Connected? ==> s.phase.offset == s.persisted)
    && (s.phase.Applied? ==>
          && s.phase.offset == s.persisted && OneAhead(s, m)
          && s.phase.size == |Encode(crc, s.leader[m])|)
  }

  ghost predicate OneAhead(s: Sys, m: nat)
  {
    m < |s.leader| && Fits(s.leader[m]) && s.data == Fold(s.leader[..m + 1])
  }

  lemma FoldSnoc(rs: seq<Record>, m: nat)
    requires m < |rs|
    ensures Fold(rs[..m + 1]) == ApplyRecord(Fold(rs[..m]), rs[m])
  {
    assert rs[..m + 1][..m] == rs[..m];
  }

  lemma ApplyTwice(d: Data, r: Record)
    ensures ApplyRecord(ApplyRecord(d, r), r) == ApplyRecord(d, r)
  {
  }

  lemma EncodeSnoc(crc: Checksum, rs: seq<Record>, m: nat)
    requires m < |rs|
    ensures |EncodeAll(crc, rs[..m + 1])| == |EncodeAll(crc, rs[..m])| + |Encode(crc, rs[m])|
  {
    hide Encode;
    assert rs[..m + 1] == rs[..m] + [rs[m]];
    EncodeAllAppends(crc, rs[..m], [rs[m]]);
    assert EncodeAll(crc, [rs[m]]) == Encode(crc, rs[m]) + EncodeAll(crc, []);
  }

  // From a frame boundary, a stream decodes to the next record as soon as its
  // frame is whole, to none before, and never past a record over the cap.
  lemma NextRecord(crc: Checksum, s: Sys, m: nat, n: nat)
    requires AllSized(s.leader) && AtFrame(crc, s, m) && s.persisted + n <= |EncodeAll(crc, s.leader)|
    ensures var d := Decode(crc, Arrived(crc, s, s.persisted, n));
            d.Got? <==> m < |s.leader| && Fits(s.leader[m]) && n >= |Encode(crc, s.leader[m])|
    ensures var d := Decode(crc, Arrived(crc, s, s.persisted, n));
            d.Got? ==> d == Got(s.leader[m], |Encode(crc, s.leader[m])|)
  {
    hide Encode, Decode, Fits, Fold, Body;
    var tail := s.leader[m..];
    EncodeAllAppends(crc, s.leader[..m], tail);
    assert s.leader[..m] + tail == s.leader;
    var bytes := Arrived(crc, s, s.persisted, n);
    assert bytes == EncodeAll(crc, tail)[..n];
    if tail == [] {
      assert bytes == [];
      NothingDecodes(crc);
    } else {
      NextFrame(crc, tail[0], EncodeAll(crc, tail[1..]), n);
    }
  }

  lemma NextFrame(crc: Checksum, r: Record, rest: seq<byte>, n: nat)
    requires |Body(r)| < TWO_32 && n <= |Encode(crc, r) + rest|
    ensures var d := Decode(crc, (Encode(crc, r) + rest)[..n]);
            && (d.Got? <==> Fits(r) && n >= |Encode(crc, r)|)
            && (d.Got? ==> d == Got(r, |Encode(crc, r)|))
  {
    hide Encode, Decode, Body;
    var f := Encode(crc, r);
    var bytes := (f + rest)[..n];
    if !Fits(r) {
      OversizeFrame(crc, r, rest, n);
    } else if n < |f| {
      assert bytes == f[..n];
      TornFrame(crc, r, n);
    } else {
      assert bytes == f + rest[..n - |f|];
      FrameRoundTrip(crc, r, rest[..n - |f|]);
    }
  }

  lemma NothingDecodes(crc: Checksum)
    ensures Decode(crc, []) == Eof
  {
  }

  lemma ApplyNext(crc: Checksum, s: Sys, m: nat)
    requires AtFrame(crc, s, m) && m < |s.leader|
    ensures ApplyRecord(s.data, s.leader[m]) == Fold(s.leader[..m + 1])
  {
    hide Fold, Encode, ApplyRecord, EncodeAll, Fits;
    FoldSnoc(s.leader, m);
    ApplyTwice(Fold(s.leader[..m]), s.leader[m]);
  }

  lemma StepKeepsFrame(crc: Checksum, s: Sys, e: Event, m: nat)
    requires AllSized(s.leader) && AtFrame(crc, s, m) && Enabled(crc, s, e)
    ensures var s' := Next(crc, s, e);
            AllSized(s'.leader) && AtFrame(crc, s', if e.WriteOffset? then m + 1 else m)
  {
    hide Fold, Encode, Decode, EncodeAll, ApplyRecord, Fits, Body;
    var s' := Next(crc, s, e);
    match e {
      case LeaderWrites(r) =>
        assert s'.leader[..m] == s.leader[..m];
        assert m < |s.leader| ==> s'.leader[..m + 1] == s.leader[..m + 1];
      case Receive(n) =>
        NextRecord(crc, s, m, n);
        if Decode(crc, Arrived(crc, s, s.phase.offset, n)).Got? { ApplyNext(crc, s, m); }
      case ReceiveAndDie(n) =>
        NextRecord(crc, s, m, n);
        if Decode(crc, Arrived(crc, s, s.phase.offset, n)).Got? { ApplyNext(crc, s, m); }
      case WriteOffset =>
        EncodeSnoc(crc, s.leader, m);
        assert s.leader[..m + 1] == s.leader[..m] + [s.leader[m]];
      case _ =>
    }
  }

  // Over any disconnects and crashes, the persisted offset is the end of as many
  // of the leader's frames as offsets were written, none of them over the cap,
  // and the follower's map is those records, or one record more.
  lemma {:induction false} FollowerResumes(crc: Checksum, start: seq<Record>, run: seq<Sys>, events: seq<Event>, k: nat)
    requires IsRun(crc, start, run, events) && k <= |events|
    ensures AllSized(run[k].leader) && AtFrame(crc, run[k], Position(events, k))
    decreases k
  {
    hide Enabled, Next, AtFrame, AllSized;
    if k == 0 {
      AtStart(crc, start);
    } else {
      FollowerResumes(crc, start, run, events, k - 1);
      assert Enabled(crc, run[k - 1], events[k - 1]);
      StepKeepsFrame(crc, run[k - 1], events[k - 1], Position(events, k - 1));
    }
  }

  lemma AtStart(crc: Checksum, start: seq<Record>)
    ensures AtFrame(crc, Sys(start, 0, map[], Idle), 0)
  {
    assert start[..0] == [];
  }

  lemma FrameNonEmpty(crc: Checksum, r: Record)
    ensures |Encode(crc, r)| > 0
  {
  }

  // A follower whose offset has reached the end of the leader's log has its map.
  lemma CaughtUp(crc: Checksum, start: seq<Record>, run: seq<Sys>, events: seq<Event>, k: nat)
    requires IsRun(crc, start, run, events) && k <= |events|
    requires run[k].persisted == |EncodeAll(crc, run[k].leader)|
    ensures run[k].data == Fold(run[k].leader)
  {
    hide Enabled, Next, Fold, Encode, Fits, Body;
    FollowerResumes(crc, start, run, events, k);
    var s, m := run[k], Position(events, k);
    EncodeAllAppends(crc, s.leader[..m], s.leader[m..]);
    assert s.leader[..m] + s.leader[m..] == s.leader;
    if m < |s.leader| {
      FrameNonEmpty(crc, s.leader[m]);
    }
    assert s.leader[..|s.leader|] == s.leader;
  }

  // ---- records applied more than once ----

  // The k-th event applies a record.
  ghost predicate AppliesAt(crc: Checksum, run: seq<Sys>, events: seq<Event>, k: nat)
    requires |run| == |events| + 1 && k < |events|
  {
    && Enabled(crc, run[k], events[k]) && (events[k].Receive? || events[k].ReceiveAndDie?)
    && Decode(crc, Arrived(crc, run[k], run[k].phase.offset, events[k].n)).Got?
  }

  // The process stopped after applying at j and before writing the offset.
  ghost predicate StoppedAfter(events: seq<Event>, j: nat)
    requires j < |events|
  {
    events[j].ReceiveAndDie? || exists d :: j < d < |events| && DropsFirst(events, j, d)
  }

  ghost predicate DropsFirst(events: seq<Event>, j: nat, d: nat)
    requires j < d < |events|
  {
    events[d].Drop? && forall i | j < i < d :: events[i].LeaderWrites?
  }

  // The frame it applies.
  ghost function FrameAt(crc: Checksum, run: seq<Sys>, events: seq<Event>, k: nat): Read
    requires |run| == |events| + 1 && k < |events| && AppliesAt(crc, run, events, k)
  {
    Decode(crc, Arrived(crc, run[k], run[k].phase.offset, events[k].n))
  }

  // An event that applies, applies the leader's record at the position reached.
  lemma AppliesPosition(crc: Checksum, start: seq<Record>, run: seq<Sys>, events: seq<Event>, k: nat)
    requires IsRun(crc, start, run, events) && k < |events| && AppliesAt(crc, run, events, k)
    ensures var m, leader := Position(events, k), run[k].leader;
            && m < |leader| && run[k].phase.offset == |EncodeAll(crc, leader[..m])|
            && FrameAt(crc, run, events, k) == Got(leader[m], |Encode(crc, leader[m])|)
            && run[k + 1].data == ApplyRecord(run[k].data, leader[m])
  {
    hide Decode, Encode, EncodeAll, Fold, Body, Fits, ApplyRecord;
    FollowerResumes(crc, start, run, events, k);
    NextRecord(crc, run[k], Position(events, k), events[k].n);
    assert Enabled(crc, run[k], events[k]);
  }

  // While nothing is applied, no offset is written.
  lemma {:induction false} QuietBetween(crc: Checksum, start: seq<Record>, run: seq<Sys>, events: seq<Event>, a: nat, b: nat)
    requires IsRun(crc, start, run, events) && a <= b <= |events| && !run[a].phase.Applied?
    requires forall i | a <= i < b :: !AppliesAt(crc, run, events, i)
    ensures !run[b].phase.Applied? && Position(events, b) == Position(events, a)
    decreases b
  {
    hide Decode, Encode, EncodeAll, Fold, Body, ApplyRecord;
    if a < b {
      QuietBetween(crc, start, run, events, a, b - 1);
      assert Enabled(crc, run[b - 1], events[b - 1]);
      assert !AppliesAt(crc, run, events, b - 1);
    }
  }

  // After an apply the follower waits, at the same position, until it writes
  // the offset or drops.
  lemma {:induction false} WaitsToWrite(crc: Checksum, start: seq<Record>, run: seq<Sys>, events: seq<Event>, a: nat, b: nat)
    requires IsRun(crc, start, run, events) && a <= b <= |events| && run[a].phase.Applied?
    requires forall i | a <= i < b :: !events[i].WriteOffset? && !events[i].Drop?
    ensures run[b].phase.Applied? && Position(events, b) == Position(events, a)
    ensures forall i | a <= i < b :: events[i].LeaderWrites?
    decreases b
  {
    hide Decode, Encode, EncodeAll, Fold, Body, ApplyRecord;
    if a < b {
      WaitsToWrite(crc, start, run, events, a, b - 1);
      assert Enabled(crc, run[b - 1], events[b - 1]);
    }
  }

  lemma {:induction false} PositionRises(events: seq<Event>, a: nat, b: nat)
    requires a <= b <= |events|
    ensures Position(events, a) <= Position(events, b)
    decreases b
  {
    if a < b {
      PositionRises(events, a, b - 1);
    }
  }

  // Both events apply, and they apply the same frame at the same offset.
  ghost predicate AgainAt(crc: Checksum, run: seq<Sys>, events: seq<Event>, j: nat, l: nat)
    requires |run| == |events| + 1 && j < l < |events|
  {
    && AppliesAt(crc, run, events, j) && AppliesAt(crc, run, events, l)
    && run[l].phase.offset == run[j].phase.offset
    && FrameAt(crc, run, events, l) == FrameAt(crc, run, events, j)
  }

  lemma {:induction false} LeaderGrows(crc: Checksum, start: seq<Record>, run: seq<Sys>, events: seq<Event>, a: nat, b: nat)
    requires IsRun(crc, start, run, events) && a <= b <= |events|
    ensures run[a].leader <= run[b].leader
    decreases b
  {
    hide Decode, Encode, EncodeAll, Fold, Body, ApplyRecord;
    if a < b {
      LeaderGrows(crc, start, run, events, a, b - 1);
      assert Enabled(crc, run[b - 1], events[b - 1]);
    }
  }

  lemma MoreFrames(crc: Checksum, rs: seq<Record>, a: nat, b: nat)
    requires a < b <= |rs|
    ensures |EncodeAll(crc, rs[..a])| < |EncodeAll(crc, rs[..b])|
  {
    hide Encode;
    assert rs[..b] == rs[..a] + rs[a..b];
    EncodeAllAppends(crc, rs[..a], rs[a..b]);
    FrameNonEmpty(crc, rs[a]);
  }

  // The same offset is the same position, and holds the same frame for good.
  lemma SamePlace(crc: Checksum, start: seq<Record>, run: seq<Sys>, events: seq<Event>, j: nat, l: nat)
    requires IsRun(crc, start, run, events) && j < l < |events|
    requires AppliesAt(crc, run, events, j) && AppliesAt(crc, run, events, l)
    ensures AgainAt(crc, run, events, j, l) <==> Position(events, l) == Position(events, j)
  {
    hide AppliesAt, FrameAt, Decode, Encode, EncodeAll, Body, ApplyRecord, Enabled, Next;
    AppliesPosition(crc, start, run, events, j);
    AppliesPosition(crc, start, run, events, l);
    LeaderGrows(crc, start, run, events, j, l);
    PositionRises(events, j, l);
    var a, b, leader := Position(events, j), Position(events, l), run[l].leader;
    assert run[j].leader[..a] == leader[..a] && run[j].leader[a] == leader[a];
    if a < b {
      MoreFrames(crc, leader, a, b);
    }
  }

  lemma {:induction false} FirstApply(crc: Checksum, run: seq<Sys>, events: seq<Event>, a: nat, l: nat) returns (f: nat)
    requires |run| == |events| + 1 && a <= l < |events| && AppliesAt(crc, run, events, l)
    ensures a <= f <= l && AppliesAt(crc, run, events, f) && forall i | a <= i < f :: !AppliesAt(crc, run, events, i)
    decreases l - a
  {
    hide AppliesAt;
    if AppliesAt(crc, run, events, a) {
      f := a;
    } else {
      f := FirstApply(crc, run, events, a + 1, l);
    }
  }

  lemma StoppedAgain(crc: Checksum, start: seq<Record>, run: seq<Sys>, events: seq<Event>, j: nat, l: nat) returns (f: nat)
    requires IsRun(crc, start, run, events) && j < l < |events|
    requires AppliesAt(crc, run, events, j) && AppliesAt(crc, run, events, l) && StoppedAfter(events, j)
    ensures j < f < |events| && AgainAt(crc, run, events, j, f)
  {
    hide Decode, Encode, EncodeAll, Fold, Body, ApplyRecord;
    assert Enabled(crc, run[j], events[j]);
    var a := j + 1;
    if !events[j].ReceiveAndDie? {
      var d :| j < d < |events| && DropsFirst(events, j, d);
      WaitsToWrite(crc, start, run, events, j + 1, d);
      assert Enabled(crc, run[d], events[d]);
      a := d + 1;
      assert d < l;
    }
    f := FirstApply(crc, run, events, a, l);
    QuietBetween(crc, start, run, events, a, f);
    SamePlace(crc, start, run, events, j, f);
  }

  lemma AgainStopped(crc: Checksum, start: seq<Record>, run: seq<Sys>, events: seq<Event>, j: nat, l: nat)
    requires IsRun(crc, start, run, events) && j < l < |events|
    requires AgainAt(crc, run, events, j, l)
    ensures StoppedAfter(events, j)
  {
    hide Decode, Encode, EncodeAll, Fold, Body, ApplyRecord;
    assert Enabled(crc, run[j], events[j]);
    SamePlace(crc, start, run, events, j, l);
    if events[j].Receive? {
      var d := FirstMove(crc, start, run, events, j + 1, l);
      PositionRises(events, d + 1, l);
      assert DropsFirst(events, j, d);
    }
  }

  lemma {:induction false} FirstMove(crc: Checksum, start: seq<Record>, run: seq<Sys>, events: seq<Event>, a: nat, l: nat) returns (d: nat)
    requires IsRun(crc, start, run, events) && a <= l <= |events| && run[a].phase.Applied? && !run[l].phase.Applied?
    ensures a <= d < l && (events[d].WriteOffset? || events[d].Drop?) && Position(events, d) == Position(events, a)
    ensures forall i | a <= i < d :: events[i].LeaderWrites?
    decreases l - a
  {
    hide Decode, Encode, EncodeAll, Fold, Body, ApplyRecord;
    assert Enabled(crc, run[a], events[a]);
    if events[a].WriteOffset? || events[a].Drop? {
      d := a;
    } else {
      d := FirstMove(crc, start, run, events, a + 1, l);
    }
  }

  // The record applied at j, at its offset in the leader's log, is applied again
  // later if and only if the process stopped between its apply and its
  // WriteOffset, and got to apply at all.
  lemma AppliedAgainIff(crc: Checksum, start: seq<Record>, run: seq<Sys>, events: seq<Event>, j: nat)
    requires IsRun(crc, start, run, events) && j < |events| && AppliesAt(crc, run, events, j)
    ensures (exists l :: j < l < |events| && AgainAt(crc, run, events, j, l))
            <==> StoppedAfter(events, j) && exists l :: j < l < |events| && AppliesAt(crc, run, events, l)
  {
    hide Enabled, Next, AppliesAt, StoppedAfter;
    if l :| j < l < |events| && AgainAt(crc, run, events, j, l) {
      AgainStopped(crc, start, run, events, j, l);
    }
    if StoppedAfter(events, j) && exists l :: j < l < |events| && AppliesAt(crc, run, events, l) {
      var l :| j < l < |events| && AppliesAt(crc, run, events, l);
      var f := StoppedAgain(crc, start, run, events, j, l);
    }
  }

  // One record, applied twice: the process died before writing its offset.
  lemma AppliedTwice(crc: Checksum, r: Record) returns (run: seq<Sys>, events: seq<Event>)
    requires Fits(r)
    ensures IsRun(crc, [r], run, events) && |events| == 4
    ensures AgainAt(crc, run, events, 1, 3) && FrameAt(crc, run, events, 3).rec == r
  {
    hide Decode, Encode, EncodeAll, Body, ApplyRecord;
    var n := |Encode(crc, r)|;
    OneFrame(crc, r);
    events := [Connect, ReceiveAndDie(n), Connect, Receive(n)];
    var s0 := Sys([r], 0, map[], Idle);
    var s1 := Next(crc, s0, events[0]);
    assert Arrived(crc, s1, 0, n) == Encode(crc, r);
    var s2 := Next(crc, s1, events[1]);
    var s3 := Next(crc, s2, events[2]);
    assert Arrived(crc, s3, 0, n) == Encode(crc, r);
    var s4 := Next(crc, s3, events[3]);
    run := [s0, s1, s2, s3, s4];
  }

  lemma OneFrame(crc: Checksum, r: Record)
    requires Fits(r)
    ensures EncodeAll(crc, [r]) == Encode(crc, r) && Decode(crc, Encode(crc, r)) == Got(r, |Encode(crc, r)|)
  {
    hide Encode, Decode, Body;
    assert Encode(crc, r) + EncodeAll(crc, []) == Encode(crc, r);
    FrameRoundTrip(crc, r, []);
    assert Encode(crc, r) + [] == Encode(crc, r);
  }

  // ---- one connection is a stretch of such a run ----

  lemma {:induction false} ReachesThen(crc: Checksum, s: Sys, a: seq<Event>, t: Sys, b: seq<Event>, u: Sys)
    requires Reaches(crc, s, a, t) && Reaches(crc, t, b, u)
    ensures Reaches(crc, s, a + b, u)
    decreases |a|
  {
    hide Enabled, Next;
    if a == [] {
      assert a + b == b;
    } else {
      assert (a + b)[1..] == a[1..] + b;
      ReachesThen(crc, Next(crc, s, a[0]), a[1..], t, b, u);
    }
  }

  lemma ReachesOne(crc: Checksum, s: Sys, e: Event)
    requires Enabled(crc, s, e)
    ensures Reaches(crc, s, [e], Next(crc, s, e))
  {
    hide Enabled, Next;
    var t := Next(crc, s, e);
    assert [e][1..] == [];
    assert Reaches(crc, t, [], t);
  }

  // Receiving the next i records and writing the offset after each.
  lemma {:induction false} ReachesSaved(crc: Checksum, s: Sys, total: nat, i: nat) returns (events: seq<Event>)
    requires s.phase == Connected(s.persisted) && s.persisted + total <= |EncodeAll(crc, s.leader)|
    requires i <= |Replay(crc, Arrived(crc, s, s.persisted, total))|
    ensures var received := Arrived(crc, s, s.persisted, total);
            var offset := s.persisted + Consumed(crc, received, i);
            Reaches(crc, s, events, Sys(s.leader, offset, FoldFrom(s.data, Replay(crc, received)[..i]), Connected(offset)))
    decreases i
  {
    hide Decode, Encode, EncodeAll, ApplyRecord, Body, Reaches, Replay;
    var received := Arrived(crc, s, s.persisted, total);
    var rs := Replay(crc, received);
    if i == 0 {
      events := [];
      assert rs[..0] == [];
      ReachesNothing(crc, s);
    } else {
      ReplayHead(crc, received);
      var size := Decode(crc, received).size;
      var s1 := Next(crc, s, Receive(total));
      var s2 := Next(crc, s1, WriteOffset);
      ReachesOne(crc, s, Receive(total));
      ReachesOne(crc, s1, WriteOffset);
      ReachesThen(crc, s, [Receive(total)], s1, [WriteOffset], s2);
      assert Arrived(crc, s2, s2.persisted, total - size) == received[size..];
      assert rs[1..] == Replay(crc, received[size..]) && rs[..i][1..] == rs[1..][..i - 1];
      var more := ReachesSaved(crc, s2, total - size, i - 1);
      events := [Receive(total)] + [WriteOffset] + more;
      var offset := s.persisted + Consumed(crc, received, i);
      ReachesThen(crc, s, [Receive(total)] + [WriteOffset], s2, more,
                  Sys(s.leader, offset, FoldFrom(s.data, rs[..i]), Connected(offset)));
    }
  }

  lemma ReachesNothing(crc: Checksum, s: Sys)
    ensures Reaches(crc, s, [], s)
  {
  }

  // What is left of a stream after i records.
  lemma {:induction false} ReplayRest(crc: Checksum, s: seq<byte>, i: nat)
    requires i <= |Replay(crc, s)|
    ensures Replay(crc, s[Consumed(crc, s, i)..]) == Replay(crc, s)[i..]
    decreases i
  {
    hide Decode, Replay;
    if i == 0 {
      assert s[0..] == s && Replay(crc, s)[0..] == Replay(crc, s);
    } else {
      ReplayHead(crc, s);
      var size := Decode(crc, s).size;
      var rest := s[size..];
      assert Replay(crc, s)[i..] == Replay(crc, rest)[i - 1..];
      ReplayRest(crc, rest, i - 1);
      assert rest[Consumed(crc, rest, i - 1)..] == s[Consumed(crc, s, i)..];
    }
  }

  // How the connection ends, from the state after the saved records: nothing
  // more decodes, the store refuses a record, or its offset write fails.
  lemma ReachesEnd(crc: Checksum, s: Sys, total: nat, rest: seq<Record>, stop: Option<bool>) returns (events: seq<Event>, t: Sys)
    requires s.phase == Connected(s.persisted) && s.persisted + total <= |EncodeAll(crc, s.leader)|
    requires rest == Replay(crc, Arrived(crc, s, s.persisted, total)) && (rest == [] <==> stop == None)
    ensures Reaches(crc, s, events, t)
    ensures t == Sys(s.leader, s.persisted, if stop.Some? && stop.value then ApplyRecord(s.data, rest[0]) else s.data, Idle)
  {
    hide Decode, Encode, EncodeAll, ApplyRecord, Body, Reaches, Replay;
    ReplayHead(crc, Arrived(crc, s, s.persisted, total));
    var e := if stop.Some? && !stop.value then Drop else Receive(total);
    events, t := [e], Next(crc, s, e);
    ReachesOne(crc, s, e);
    if stop.Some? && stop.value {
      var applied := t;
      t := Next(crc, applied, Drop);
      ReachesOne(crc, applied, Drop);
      ReachesThen(crc, s, events, applied, [Drop], t);
      events := events + [Drop];
      assert rest[0] == Decode(crc, Arrived(crc, s, s.persisted, total)).rec;
    } else if stop == None {
      assert !Decode(crc, Arrived(crc, s, s.persisted, total)).Got?;
    }
  }

  // A connection that receives `total` bytes, with whatever failure, takes the
  // machine from a state at rest to the map and the offset RunOnce computes.
  lemma ReachesSession(crc: Checksum, s: Sys, total: nat, failure: Option<Failure>) returns (events: seq<Event>)
    requires s.phase == Idle && s.persisted + total <= |EncodeAll(crc, s.leader)|
    ensures var received := Arrived(crc, s, s.persisted, total);
            var rs := Replay(crc, received);
            Reaches(crc, s, events, Sys(s.leader, s.persisted + Consumed(crc, received, Saved(failure, rs)),
                                        FoldFrom(s.data, rs[..Given(failure, rs)]), Idle))
  {
    hide Decode, Encode, EncodeAll, ApplyRecord, Body, Reaches, Replay, FoldFrom, Consumed;
    var received := Arrived(crc, s, s.persisted, total);
    var rs := Replay(crc, received);
    var n := Saved(failure, rs);
    var s0 := Next(crc, s, Connect);
    ReachesOne(crc, s, Connect);
    var saved := ReachesSaved(crc, s0, total, n);
    var used := Consumed(crc, received, n);
    var offset := s.persisted + used;
    var s1 := Sys(s.leader, offset, FoldFrom(s.data, rs[..n]), Connected(offset));
    ReachesThen(crc, s, [Connect], s0, saved, s1);
    assert Arrived(crc, s1, offset, total - used) == received[used..];
    ReplayRest(crc, received, n);
    var stop := if Stops(failure, rs) then Some(failure.value.applied) else None;
    var last, s2 := ReachesEnd(crc, s1, total - used, rs[n..], stop);
    if stop.Some? && stop.value {
      FoldFromSnoc(s.data, rs, n);
    }
    ReachesThen(crc, s, [Connect] + saved, s1, last, s2);
    events := [Connect] + saved + last;
  }

  lemma {:induction false} ExtendRun(crc: Checksum, start: seq<Record>, run: seq<Sys>, events: seq<Event>, more: seq<Event>, t: Sys)
    returns (run': seq<Sys>)
    requires IsRun(crc, start, run, events) && Reaches(crc, run[|events|], more, t)
    ensures IsRun(crc, start, run', events + more) && run <= run' && run'[|events + more|] == t
    decreases |more|
  {
    hide Enabled, Next;
    if more == [] {
      run' := run;
      assert events + more == events;
    } else {
      var s := Next(crc, run[|events|], more[0]);
      run' := ExtendRun(crc, start, run + [s], events + [more[0]], more[1..], t);
      assert events + [more[0]] + more[1..] == events + more;
    }
  }

  // Every call of RunOnce is a stretch of a run of the machine, so all that is
  // proved of runs holds of followers that call it again and again.
  lemma RunOnceIsRun(crc: Checksum, start: seq<Record>, run: seq<Sys>, events: seq<Event>, total: nat, failure: Option<Failure>)
    returns (run': seq<Sys>, events': seq<Event>)
    requires IsRun(crc, start, run, events) && run[|events|].phase == Idle
    requires run[|events|].persisted + total <= |EncodeAll(crc, run[|events|].leader)|
    ensures IsRun(crc, start, run', events') && run <= run' && events <= events'
    ensures var s, t := run[|events|], run'[|events'|];
            var received := Arrived(crc, s, s.persisted, total);
            var rs := Replay(crc, received);
            && t.phase == Idle && t.leader == s.leader
            && t.data == FoldFrom(s.data, rs[..Given(failure, rs)])
            && t.persisted == s.persisted + Consumed(crc, received, Saved(failure, rs))
  {
    hide Enabled, Next, Reaches, Replay, FoldFrom, Consumed, EncodeAll;
    var s := run[|events|];
    var received := Arrived(crc, s, s.persisted, total);
    var rs := Replay(crc, received);
    var more := ReachesSession(crc, s, total, failure);
    var t := Sys(s.leader, s.persisted + Consumed(crc, received, Saved(failure, rs)),
                 FoldFrom(s.data, rs[..Given(failure, rs)]), Idle);
    run' := ExtendRun(crc, start, run, events, more, t);
    events' := events + more;
  }

  // Applying records from the front, on an empty map, is applying them all.
  lemma {:induction false} FoldFromIsFold(rs: seq<Record>)
    ensures FoldFrom(map[], rs) == Fold(rs)
  {
    if rs != [] {
      var n := |rs| - 1;
      FoldFromIsFold(rs[..n]);
      FoldFromSnoc(map[], rs, n);
      assert rs[..n + 1] == rs;
    }
  }

  // A fresh follower that receives a leader's log cut at any byte has the map of
  // the whole frames before the cut.
  lemma FirstSession(crc: Checksum, rs: seq<Record>, n: nat)
    requires AllFit(rs) && n <= |EncodeAll(crc, rs)|
    ensures FoldFrom(map[], Replay(crc, EncodeAll(crc, rs)[..n])) == Fold(rs[..WholeFrames(crc, rs, n)])
  {
    hide Fold, FoldFrom, Replay, EncodeAll, Fits;
    TornTailRecovery(crc, rs, n);
    FoldFromIsFold(rs[..WholeFrames(crc, rs, n)]);
  }
}
