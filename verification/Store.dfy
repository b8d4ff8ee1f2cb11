/** The store over its log: recovery, and concurrent writers whose log appends,
    syncs and map updates interleave. */
module Store {
  import opened Bytes
  import opened Wal
  import L = WalLog

  type Data = map<Str, Str>

  function ApplyRecord(m: Data, r: Record): Data
  {
    if r.kind == PUT then m[r.key := r.value]
    else if r.kind == DELETE then m - {r.key}
    else m
  }

  function Fold(rs: seq<Record>): Data
  {
    if rs == [] then map[] else ApplyRecord(Fold(rs[..|rs| - 1]), rs[|rs| - 1])
  }

  function FoldFrom(m: Data, rs: seq<Record>): Data
    decreases |rs|
  {
    if rs == [] then m else FoldFrom(ApplyRecord(m, rs[0]), rs[1..])
  }

  // ---- the object ----

  class KvStore {
    var data: Data
    var log: L.Log

    ghost predicate Valid()
      reads this, log
    {
      log.Valid()
    }

    // Open replays the file and appends behind it.
    constructor (crc: Checksum, file: seq<byte>)
      ensures Valid() && fresh(log) && log.crc == crc && log.file == file && log.buffer == []
      ensures data == Fold(Replay(crc, file))
    {
      var records := ReplayLog(crc, file);
      var m: Data := map[];
      for i := 0 to |records|
        invariant m == Fold(records[..i])
      {
        assert records[..i + 1][..i] == records[..i];
        var rec := records[i];
        if rec.kind == PUT {
          m := m[rec.key := rec.value];
        } else if rec.kind == DELETE {
          m := m - {rec.key};
        }
      }
      assert records[..|records|] == records;
      data := m;
      log := new L.Log(crc, file);
    }

    // Append, then Sync; `append` and `sync` say how the two go.
    method Write(rec: Record, spill: nat, append: bool, sync: L.Outcome) returns (err: bool)
      requires Valid()
      modifies log
      ensures Valid() && old(log.file) <= log.file <= old(log.Content()) + Encode(log.crc, rec)
      ensures err == (old(log.failed) || !append || sync != L.Done)
      ensures !err ==> log.file == old(log.Content()) + Encode(log.crc, rec) && log.durableOff == |log.file| && log.buffer == []
      ensures err ==> log.durableOff == old(log.durableOff)
    {
      err := log.Append(rec, spill, append);
      if !err {
        err := log.Sync(sync);
      }
    }

    // On an error the map is as it was, though the record may be in the file.
    method Put(key: Str, value: Str, spill: nat, append: bool, sync: L.Outcome) returns (err: bool)
      requires Valid()
      modifies this`data, log
      ensures var rec := Record(PUT, key, value);
              && Valid() && old(log.file) <= log.file <= old(log.Content()) + Encode(log.crc, rec)
              && err == (old(log.failed) || !append || sync != L.Done)
              && data == (if err then old(data) else ApplyRecord(old(data), rec))
              && (!err ==> log.file == old(log.Content()) + Encode(log.crc, rec) && log.durableOff == |log.file| && log.buffer == [])
              && (err ==> log.durableOff == old(log.durableOff))
    {
      err := Write(Record(PUT, key, value), spill, append, sync);
      if !err {
        data := data[key := value];
      }
    }

    method Delete(key: Str, spill: nat, append: bool, sync: L.Outcome) returns (err: bool)
      requires Valid()
      modifies this`data, log
      ensures var rec := Record(DELETE, key, []);
              && Valid() && old(log.file) <= log.file <= old(log.Content()) + Encode(log.crc, rec)
              && err == (old(log.failed) || !append || sync != L.Done)
              && data == (if err then old(data) else ApplyRecord(old(data), rec))
              && (!err ==> log.file == old(log.Content()) + Encode(log.crc, rec) && log.durableOff == |log.file| && log.buffer == [])
              && (err ==> log.durableOff == old(log.durableOff))
    {
      err := Write(Record(DELETE, key, []), spill, append, sync);
      if !err {
        data := data - {key};
      }
    }

    method Get(key: Str) returns (v: Str, found: bool)
      ensures found == (key in data) && (found ==> v == data[key])
    {
      if key !in data {
        return [], false;
      }
      return data[key], true;
    }
  }

  // A store whose file is whole frames comes back, after one more write, as it is.
  lemma ReopenAfterWrite(crc: Checksum, rs: seq<Record>, r: Record)
    requires AllFit(rs) && |Body(r)| < TWO_32
    ensures Fold(Replay(crc, EncodeAll(crc, rs) + Encode(crc, r)))
            == if Fits(r) then ApplyRecord(Fold(rs), r) else Fold(rs)
  {
    hide Encode, Decode, Body, ApplyRecord;
    OversizeIsLost(crc, rs, r, []);
    assert Encode(crc, r) + [] == Encode(crc, r);
    ReplayNothing(crc);
    assert [r] + [] == [r];
    assert (rs + [r])[..|rs|] == rs;
  }

  lemma ReplayNothing(crc: Checksum)
    ensures Replay(crc, []) == []
  {
  }
}
