/** The log object, and streaming its durable bytes to a follower. */
module WalLog {
  import opened Bytes
  import opened Wal

  // ---- the log ----

  // How a write of the buffer or a Sync goes: up to `spill` bytes reach the file
  // before the buffer's write fails, after which it refuses everything; or the
  // bytes are written and only the fsync fails.
  datatype Outcome = Done | WriteFails(spill: nat) | FsyncFails

  class Log {
    const crc: Checksum
    var file: seq<byte>      // what the operating system has
    var buffer: seq<byte>    // what bufio still holds
    var failed: bool         // bufio keeps its first write error
    var durableOff: nat
    var pendingBytes: nat
    var notify: nat          // how often the notify channel was replaced

    ghost predicate Valid()
      reads this
    {
      durableOff <= |file| && (!failed ==> durableOff + pendingBytes == |file| + |buffer|)
    }

    function Content(): seq<byte>
      reads this
    {
      file + buffer
    }

    // Open counts the whole existing file, torn tail included, as durable.
    constructor (crc: Checksum, existing: seq<byte>)
      ensures Valid() && this.crc == crc && file == existing && buffer == [] && !failed
      ensures durableOff == |existing| && pendingBytes == 0
    {
      this.crc := crc;
      file, buffer, failed := existing, [], false;
      durableOff, pendingBytes, notify := |existing|, 0, 0;
    }

    // Up to `spill` bytes leave the full buffer for the file, with or without
    // an error; none are durable yet.
    method Append(rec: Record, spill: nat, ok: bool) returns (err: bool)
      requires Valid()
      modifies this`file, this`buffer, this`failed, this`pendingBytes
      ensures Valid() && err == (old(failed) || !ok) && failed == err
      ensures old(file) <= file <= old(Content()) + Encode(crc, rec)
      ensures !err ==> Content() == old(Content()) + Encode(crc, rec) && pendingBytes == old(pendingBytes) + |Encode(crc, rec)|
      ensures err ==> pendingBytes == old(pendingBytes) && (old(failed) ==> file == old(file))
    {
      hide Encode;
      if failed {
        return true;
      }
      var b := Encode(crc, rec);
      ghost var all := file + (buffer + b);
      assert all == Content() + b;
      buffer := buffer + b;
      var n := if spill <= |buffer| then spill else |buffer|;
      file := file + buffer[..n];
      buffer := buffer[n..];
      assert file + buffer == all;
      if !ok {
        failed := true;
        return true;
      }
      pendingBytes := pendingBytes + |b|;
      return false;
    }

    method Sync(outcome: Outcome) returns (err: bool)
      requires Valid()
      modifies this
      ensures Valid() && err == (old(failed) || outcome != Done) && failed == (old(failed) || outcome.WriteFails?)
      ensures old(file) <= file <= old(Content())
      ensures !err ==> file == old(Content()) && buffer == []
      ensures !err ==> durableOff == |file| && pendingBytes == 0 && notify == old(notify) + 1
      // an fsync that failed is made up for by the next one that does not
      ensures err && !failed ==> file == old(Content()) && buffer == []
      ensures err ==> durableOff == old(durableOff) && pendingBytes == old(pendingBytes) && notify == old(notify)
    {
      if failed {
        return true;
      }
      if outcome.WriteFails? {
        var n := if outcome.spill <= |buffer| then outcome.spill else |buffer|;
        assert file + buffer[..n] + buffer[n..] == file + buffer;
        file := file + buffer[..n];
        buffer := buffer[n..];
        failed := true;
        return true;
      }
      file := file + buffer;
      buffer := [];
      if outcome.FsyncFails? {
        return true;
      }
      durableOff := durableOff + pendingBytes;
      pendingBytes := 0;
      notify := notify + 1;
      return false;
    }
  }

  // ---- StreamFrom beside appends and syncs ----

  datatype LogView = LogView(content: seq<byte>, durable: nat, gen: nat)

  // Where the stream's loop stands: about to take the lock, copying up to a
  // target read under the lock, blocked on a notify channel, or gone.
  datatype At = Checking | Copying(target: nat) | Blocked(ch: nat) | Ended

  datatype Stream = Stream(pos: nat, sent: seq<byte>, at: At)

  datatype System = System(log: LogView, stream: Stream)

  datatype Move =
    | LogAppend(bytes: seq<byte>)
    | LogSync
    | Look
    | Copy(n: nat)
    | Wake

  predicate CanMove(s: System, m: Move)
  {
    match m
    case LogAppend(_) => true
    case LogSync => true
    case Look => s.stream.at.Checking?
    case Copy(n) => s.stream.at.Copying? && s.stream.pos + n <= s.stream.at.target <= |s.log.content|
    case Wake => s.stream.at.Blocked? && s.log.gen > s.stream.at.ch
  }

  function Moved(s: System, m: Move): System
    requires CanMove(s, m)
  {
    match m
    case LogAppend(bytes) => s.(log := s.log.(content := s.log.content + bytes))
    case LogSync => s.(log := s.log.(durable := |s.log.content|, gen := s.log.gen + 1))
    case Look =>
      if s.stream.pos < s.log.durable then s.(stream := s.stream.(at := Copying(s.log.durable)))
      else s.(stream := s.stream.(at := Blocked(s.log.gen)))
    case Copy(n) =>
      // a short copy means the follower is gone
      var pos := s.stream.pos + n;
      s.(stream := Stream(pos, s.stream.sent + s.log.content[s.stream.pos..pos],
                          if pos == s.stream.at.target then Checking else Ended))
    case Wake => s.(stream := s.stream.(at := Checking))
  }

  ghost predicate IsStreaming(from: nat, content: seq<byte>, run: seq<System>, moves: seq<Move>)
  {
    && |run| == |moves| + 1
    && run[0] == System(LogView(content, |content|, 0), Stream(from, [], Checking))
    && forall k | 0 <= k < |moves| :: CanMove(run[k], moves[k]) && run[k + 1] == Moved(run[k], moves[k])
  }

  // What was sent is the log from `from` to pos, all of it durable; a blocked
  // stream that has something to send has already been woken.
  ghost predicate StreamInv(from: nat, s: System)
  {
    && s.log.durable <= |s.log.content|
    && from <= s.stream.pos
    && (s.stream.pos == from || s.stream.pos <= s.log.durable)
    && s.stream.sent == (if s.stream.pos == from then [] else s.log.content[from..s.stream.pos])
    && (s.stream.at.Copying? ==> s.stream.pos < s.stream.at.target <= s.log.durable)
    && (s.stream.at.Blocked? ==> s.stream.at.ch <= s.log.gen
                                 && (s.stream.pos < s.log.durable ==> s.log.gen > s.stream.at.ch))
  }

  lemma MoveKeepsInv(from: nat, s: System, m: Move)
    requires StreamInv(from, s) && CanMove(s, m)
    ensures StreamInv(from, Moved(s, m))
  {
    match m
    case LogAppend(bytes) =>
      if s.stream.pos != from {
        assert (s.log.content + bytes)[from..s.stream.pos] == s.log.content[from..s.stream.pos];
      }
    case Copy(n) =>
      var pos := s.stream.pos + n;
      assert s.log.content[from..s.stream.pos] + s.log.content[s.stream.pos..pos] == s.log.content[from..pos];
    case _ =>
  }

  lemma {:induction false} StreamingInv(from: nat, content: seq<byte>, run: seq<System>, moves: seq<Move>, k: nat)
    requires IsStreaming(from, content, run, moves) && k <= |moves|
    ensures StreamInv(from, run[k])
    decreases k
  {
    if k > 0 {
      StreamingInv(from, content, run, moves, k - 1);
      MoveKeepsInv(from, run[k - 1], moves[k - 1]);
    }
  }

  // At every moment of every run, the stream has sent exactly the bytes from
  // its offset, never beyond the durable frontier, and no wake-up is lost.
  lemma StreamSendsDurable(from: nat, content: seq<byte>, run: seq<System>, moves: seq<Move>, k: nat)
    requires IsStreaming(from, content, run, moves) && k <= |moves|
    ensures var s := run[k];
            && |s.stream.sent| == s.stream.pos - from
            && (s.stream.sent != [] ==> s.stream.pos <= s.log.durable <= |s.log.content|
                                        && s.stream.sent == s.log.content[from..s.stream.pos])
            && (s.stream.at.Blocked? && s.stream.pos < s.log.durable ==> CanMove(s, Wake))
  {
    StreamingInv(from, content, run, moves, k);
  }

  // The stream ends only in a copy that came up short of its target.
  lemma EndedIff(s: System, m: Move)
    requires CanMove(s, m) && s.log.durable <= |s.log.content| && !s.stream.at.Ended?
    ensures Moved(s, m).stream.at.Ended?
            <==> m.Copy? && s.stream.at.Copying? && s.stream.pos + m.n < s.stream.at.target
    ensures !Moved(s, m).stream.at.Ended? && m.Copy? ==> Moved(s, m).stream.pos == s.stream.at.target
  {
  }

  // It has a move of its own: it can look, copy to its target, or wake.
  ghost predicate CanGoOn(s: System)
  {
    || CanMove(s, Look) || CanMove(s, Wake)
    || (s.stream.at.Copying? && s.stream.pos < s.stream.at.target && CanMove(s, Copy(s.stream.at.target - s.stream.pos)))
  }

  ghost predicate SentDurable(from: nat, s: System)
  {
    from <= s.log.durable <= |s.log.content| && s.stream.sent == s.log.content[from..s.log.durable]
  }

  // At any moment of any run a stream that has not lost its follower can go on,
  // or it has sent everything that is durable from its offset on.
  lemma GoesOnOrSentAll(from: nat, content: seq<byte>, run: seq<System>, moves: seq<Move>, k: nat)
    requires IsStreaming(from, content, run, moves) && k <= |moves| && !run[k].stream.at.Ended?
    requires from <= run[k].log.durable
    ensures CanGoOn(run[k]) || SentDurable(from, run[k])
  {
    StreamingInv(from, content, run, moves, k);
    BlockedAtEnd(from, content, run, moves, k);
  }

  // A blocked stream had caught up when it last looked.
  lemma {:induction false} BlockedAtEnd(from: nat, content: seq<byte>, run: seq<System>, moves: seq<Move>, k: nat)
    requires IsStreaming(from, content, run, moves) && k <= |moves|
    ensures run[k].stream.at.Blocked? && run[k].log.gen == run[k].stream.at.ch ==> run[k].log.durable <= run[k].stream.pos
    decreases k
  {
    if k > 0 {
      BlockedAtEnd(from, content, run, moves, k - 1);
      StreamingInv(from, content, run, moves, k - 1);
      assert CanMove(run[k - 1], moves[k - 1]);
    }
  }

  // From any such moment the stream's own moves bring it to all durable bytes.
  lemma CanFinish(from: nat, content: seq<byte>, run: seq<System>, moves: seq<Move>) returns (run': seq<System>, moves': seq<Move>)
    requires IsStreaming(from, content, run, moves) && !run[|moves|].stream.at.Ended? && from <= run[|moves|].log.durable
    ensures IsStreaming(from, content, run', moves') && run <= run' && moves <= moves'
    ensures run'[|moves'|].log == run[|moves|].log && SentDurable(from, run'[|moves'|])
  {
    hide StreamInv, Moved, SentDurable;
    var s := run[|moves|];
    if s.stream.at.Checking? {
      run', moves' := FinishFromLook(from, content, run, moves);
    } else {
      GoesOnOrSentAll(from, content, run, moves, |moves|);
      if CanGoOn(s) {
        var m := if s.stream.at.Copying? then Copy(s.stream.at.target - s.stream.pos) else Wake;
        BackToLook(s, m);
        var run1, moves1 := OneMove(from, content, run, moves, m);
        run', moves' := FinishFromLook(from, content, run1, moves1);
      } else {
        run', moves' := run, moves;
      }
    }
  }

  lemma BackToLook(s: System, m: Move)
    requires CanGoOn(s) && !s.stream.at.Checking?
    requires m == if s.stream.at.Copying? then Copy(s.stream.at.target - s.stream.pos) else Wake
    ensures CanMove(s, m) && Moved(s, m).stream.at.Checking? && Moved(s, m).log == s.log
  {
  }

  lemma FinishFromLook(from: nat, content: seq<byte>, run: seq<System>, moves: seq<Move>) returns (run': seq<System>, moves': seq<Move>)
    requires IsStreaming(from, content, run, moves) && run[|moves|].stream.at.Checking? && from <= run[|moves|].log.durable
    ensures IsStreaming(from, content, run', moves') && run <= run' && moves <= moves'
    ensures run'[|moves'|].log == run[|moves|].log && SentDurable(from, run'[|moves'|])
  {
    hide StreamInv;
    var s := run[|moves|];
    StreamingInv(from, content, run, moves, |moves|);
    if s.stream.pos < s.log.durable {
      var run1, moves1 := OneMove(from, content, run, moves, Look);
      StreamingInv(from, content, run1, moves1, |moves1|);
      CopyAllowed(from, run1[|moves1|]);
      run', moves' := OneMove(from, content, run1, moves1, Copy(s.log.durable - s.stream.pos));
      StreamingInv(from, content, run', moves', |moves'|);
    } else {
      run', moves' := run, moves;
    }
    SentAll(from, run'[|moves'|]);
  }

  lemma OneMove(from: nat, content: seq<byte>, run: seq<System>, moves: seq<Move>, m: Move) returns (run': seq<System>, moves': seq<Move>)
    requires IsStreaming(from, content, run, moves) && CanMove(run[|moves|], m)
    ensures |run'| == |moves'| + 1 && IsStreaming(from, content, run', moves') && run <= run' && moves <= moves'
    ensures |moves'| == |moves| + 1 && run'[|moves'|] == Moved(run[|moves|], m)
  {
    hide CanMove, Moved;
    run', moves' := run + [Moved(run[|moves|], m)], moves + [m];
  }

  lemma CopyAllowed(from: nat, s: System)
    requires StreamInv(from, s) && s.stream.at.Copying?
    ensures s.stream.pos < s.stream.at.target && CanMove(s, Copy(s.stream.at.target - s.stream.pos))
  {
  }

  lemma SentAll(from: nat, s: System)
    requires StreamInv(from, s) && from <= s.log.durable <= s.stream.pos
    ensures SentDurable(from, s)
  {
  }
}
