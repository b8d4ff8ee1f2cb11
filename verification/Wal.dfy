/** The write-ahead log's frames: encoding, decoding, replay after a torn write. */
module Wal {
  import opened Bytes

  type u32 = x: nat | x < TWO_32

  // CRC-32 enters only as some function of the body.
  type Checksum = seq<byte> -> u32

  const PUT: byte := 1
  const DELETE: byte := 2

  datatype Record = Record(kind: byte, key: Str, value: Str)

  const MAX_BODY: nat := 0x200_0000 // 32 MiB

  function Body(r: Record): seq<byte>
  {
    [r.kind] + LE32(|r.key|) + r.key + LE32(|r.value|) + r.value
  }

  function Encode(crc: Checksum, r: Record): seq<byte>
  {
    LE32(crc(Body(r))) + LE32(|Body(r)|) + Body(r)
  }

  // ReadRecord: the record and the bytes consumed, or how it failed.
  datatype Read = Got(rec: Record, size: nat) | Eof | Torn | TooLarge | BadChecksum | Malformed

  function Decode(crc: Checksum, s: seq<byte>): (r: Read)
    ensures r.Got? ==> 8 < r.size <= |s|
  {
    if s == [] then Eof
    else if |s| < 8 then Torn
    else
      var length := FromLE32(s[4..8]);
      if length > MAX_BODY then TooLarge
      else if |s| - 8 < length then Torn
      else if crc(s[8..8 + length]) != FromLE32(s[0..4]) then BadChecksum
      else DecodeBody(s[8..8 + length])
  }

  function DecodeBody(body: seq<byte>): (r: Read)
    ensures r.Got? ==> r.size == 8 + |body| && |body| >= 9
  {
    if |body| < 9 then Malformed
    else
      var keyLen := FromLE32(body[1..5]);
      if 5 + keyLen + 4 > |body| then Malformed
      else
        var valStart := 5 + keyLen + 4;
        var valLen := FromLE32(body[valStart - 4..valStart]);
        if valStart + valLen > |body| then Malformed
        else Got(Record(body[0], body[5..5 + keyLen], body[valStart..valStart + valLen]), 8 + |body|)
  }

  function EncodeAll(crc: Checksum, rs: seq<Record>): seq<byte>
  {
    if rs == [] then [] else Encode(crc, rs[0]) + EncodeAll(crc, rs[1..])
  }

  // Replay stops at the first record that does not decode.
  function Replay(crc: Checksum, s: seq<byte>): seq<Record>
    decreases |s|
  {
    match Decode(crc, s)
    case Got(rec, size) => [rec] + Replay(crc, s[size..])
    case _ => []
  }

  method ReplayLog(crc: Checksum, file: seq<byte>) returns (records: seq<Record>)
    ensures records == Replay(crc, file)
  {
    records := [];
    var s := file;
    while true
      invariant records + Replay(crc, s) == Replay(crc, file)
      decreases |s|
    {
      match Decode(crc, s) {
        case Got(rec, size) =>
          assert records + ([rec] + Replay(crc, s[size..])) == records + [rec] + Replay(crc, s[size..]);
          records := records + [rec];
          s := s[size..];
        case _ =>
          assert records + [] == records;
          return;
      }
    }
  }

  // ---- decoding undoes encoding ----

  ghost predicate Fits(r: Record)
  {
    |Body(r)| <= MAX_BODY
  }

  ghost predicate AllFit(rs: seq<Record>)
  {
    forall i | 0 <= i < |rs| :: Fits(rs[i])
  }

  lemma BodyRoundTrip(r: Record)
    requires Fits(r)
    ensures DecodeBody(Body(r)) == Got(r, 8 + |Body(r)|)
  {
    hide LE32, FromLE32;
    var b := Body(r);
    LE32RoundTrip(|r.key|);
    LE32RoundTrip(|r.value|);
    assert b[1..5] == LE32(|r.key|);
    assert b[5..5 + |r.key|] == r.key;
    assert b[5 + |r.key|..9 + |r.key|] == LE32(|r.value|);
    assert b[9 + |r.key|..9 + |r.key| + |r.value|] == r.value;
  }

  lemma Header(crc: Checksum, r: Record, rest: seq<byte>)
    requires Fits(r)
    ensures var s := Encode(crc, r) + rest;
            && |Encode(crc, r)| == 8 + |Body(r)|
            && FromLE32(s[0..4]) == crc(Body(r)) && FromLE32(s[4..8]) == |Body(r)|
            && s[8..8 + |Body(r)|] == Body(r)
  {
    hide LE32, FromLE32, Body;
    var s := Encode(crc, r) + rest;
    LE32RoundTrip(crc(Body(r)));
    LE32RoundTrip(|Body(r)|);
    assert s[0..4] == LE32(crc(Body(r)));
    assert s[4..8] == LE32(|Body(r)|);
  }

  lemma FrameRoundTrip(crc: Checksum, r: Record, rest: seq<byte>)
    requires Fits(r)
    ensures Decode(crc, Encode(crc, r) + rest) == Got(r, |Encode(crc, r)|)
    ensures (Encode(crc, r) + rest)[|Encode(crc, r)|..] == rest
  {
    hide LE32, FromLE32, Body, DecodeBody;
    Header(crc, r, rest);
    BodyRoundTrip(r);
  }

  // Whatever bytes are read, a record comes only out of a frame whose length is
  // within the cap and whose checksum is right, and is what its body spells.
  lemma DecodeIsSound(crc: Checksum, s: seq<byte>)
    requires Decode(crc, s).Got?
    ensures var Got(rec, size) := Decode(crc, s);
            && size - 8 == FromLE32(s[4..8]) <= MAX_BODY
            && crc(s[8..size]) == FromLE32(s[0..4])
            && Body(rec) <= s[8..size]
  {
    hide LE32, FromLE32;
    var length := FromLE32(s[4..8]);
    BodyIsSound(s[8..8 + length]);
  }

  lemma BodyIsSound(body: seq<byte>)
    requires DecodeBody(body).Got?
    ensures Body(DecodeBody(body).rec) <= body
  {
    hide LE32, FromLE32;
    var r := DecodeBody(body).rec;
    LE32OfDecoded(body[1..5]);
    var v := 9 + |r.key|;
    LE32OfDecoded(body[v - 4..v]);
    assert Body(r) == body[..v + |r.value|];
  }

  // Any proper part of a frame, with nothing after it, is not a record.
  lemma TornFrame(crc: Checksum, r: Record, n: nat)
    requires Fits(r) && n < |Encode(crc, r)|
    ensures Decode(crc, Encode(crc, r)[..n]) == if n == 0 then Eof else Torn
  {
    hide LE32, FromLE32, Body, DecodeBody;
    Header(crc, r, []);
    var f, s := Encode(crc, r), Encode(crc, r)[..n];
    assert f + [] == f;
    if n >= 8 {
      assert s[4..8] == f[4..8];
    }
  }

  // Whatever follows them, whole frames replay first.
  lemma {:induction false} ReplayAppends(crc: Checksum, rs: seq<Record>, rest: seq<byte>)
    requires AllFit(rs)
    ensures Replay(crc, EncodeAll(crc, rs) + rest) == rs + Replay(crc, rest)
    decreases |rs|
  {
    hide Encode, Decode, Fits;
    if rs == [] {
      assert [] + rest == rest;
    } else {
      var tail := EncodeAll(crc, rs[1..]) + rest;
      FrameRoundTrip(crc, rs[0], tail);
      assert EncodeAll(crc, rs) + rest == Encode(crc, rs[0]) + tail;
      ReplayAppends(crc, rs[1..], rest);
      assert [rs[0]] + (rs[1..] + Replay(crc, rest)) == rs + Replay(crc, rest);
    }
  }

  lemma {:induction false} EncodeAllAppends(crc: Checksum, a: seq<Record>, b: seq<Record>)
    ensures EncodeAll(crc, a + b) == EncodeAll(crc, a) + EncodeAll(crc, b)
    decreases |a|
  {
    hide Encode;
    if a == [] {
      assert a + b == b;
    } else {
      EncodeAllAppends(crc, a[1..], b);
      assert (a + b)[1..] == a[1..] + b;
    }
  }

  lemma ReplayAll(crc: Checksum, rs: seq<Record>)
    requires AllFit(rs)
    ensures Replay(crc, EncodeAll(crc, rs)) == rs
  {
    hide Encode;
    ReplayAppends(crc, rs, []);
    assert EncodeAll(crc, rs) + [] == EncodeAll(crc, rs);
    assert rs + [] == rs;
  }

  // The whole frames within the first n bytes.
  function WholeFrames(crc: Checksum, rs: seq<Record>, n: nat): (k: nat)
    ensures k <= |rs|
  {
    if rs == [] || n < |Encode(crc, rs[0])| then 0
    else 1 + WholeFrames(crc, rs[1..], n - |Encode(crc, rs[0])|)
  }

  // Recovery from a crash at any byte: exactly the records wholly before it.
  lemma {:induction false} TornTailRecovery(crc: Checksum, rs: seq<Record>, n: nat)
    requires AllFit(rs) && n <= |EncodeAll(crc, rs)|
    ensures Replay(crc, EncodeAll(crc, rs)[..n]) == rs[..WholeFrames(crc, rs, n)]
    decreases |rs|
  {
    hide Encode, Decode, Fits;
    if rs != [] {
      var f := Encode(crc, rs[0]);
      var s := EncodeAll(crc, rs)[..n];
      if n < |f| {
        assert s == f[..n];
        TornFrame(crc, rs[0], n);
      } else {
        var tail := EncodeAll(crc, rs[1..])[..n - |f|];
        assert s == f + tail;
        FrameRoundTrip(crc, rs[0], tail);
        TornTailRecovery(crc, rs[1..], n - |f|);
      }
    }
  }

  // WholeFrames is the largest number of records whose frames fit in n bytes.
  lemma {:induction false} WholeFramesIsLargest(crc: Checksum, rs: seq<Record>, n: nat, k: nat)
    requires k <= |rs|
    ensures |EncodeAll(crc, rs[..k])| <= n <==> k <= WholeFrames(crc, rs, n)
    decreases |rs|
  {
    hide Encode;
    if k > 0 {
      var f := Encode(crc, rs[0]);
      assert rs[..k][1..] == rs[1..][..k - 1] && rs[..k][0] == rs[0];
      if n >= |f| {
        WholeFramesIsLargest(crc, rs[1..], n - |f|, k - 1);
      }
    }
  }

  // A frame whose body was damaged, as far as the checksum can tell, ends the
  // replay: nothing of it and nothing after it is used.
  lemma DamageStopsReplay(crc: Checksum, rs: seq<Record>, r: Record, body: seq<byte>, rest: seq<byte>)
    requires AllFit(rs) && Fits(r) && |body| == |Body(r)| && crc(body) != crc(Body(r))
    ensures Replay(crc, EncodeAll(crc, rs) + (Encode(crc, r)[..8] + body + rest)) == rs
  {
    hide LE32, FromLE32, Body, DecodeBody;
    var s := Encode(crc, r)[..8] + body + rest;
    Header(crc, r, []);
    var f := Encode(crc, r);
    assert f + [] == f;
    assert s[0..4] == f[0..4] && s[4..8] == f[4..8] && s[8..8 + |body|] == body;
    assert Decode(crc, s) == BadChecksum;
    ReplayAppends(crc, rs, s);
    assert rs + [] == rs;
  }

  // ---- reopening after a torn write ----

  // The torn frame, its missing end made up of bytes written later, does not
  // pass. A tear inside the header takes part of the header from them as well.
  ghost predicate Swallows(crc: Checksum, big: Record, cut: nat, later: seq<byte>)
    requires cut <= |Encode(crc, big)|
  {
    var s := Encode(crc, big)[..cut] + later;
    if cut >= 8 then
      var n := |Body(big)|;
      |s| - 8 < n || crc(s[8..8 + n]) != crc(Body(big)) || !DecodeBody(s[8..8 + n]).Got?
    else
      || |s| < 8
      || (var n := FromLE32(s[4..8]);
          n > MAX_BODY || |s| - 8 < n || crc(s[8..8 + n]) != FromLE32(s[0..4]) || !DecodeBody(s[8..8 + n]).Got?)
  }

  // Open appends behind whatever the file holds. After a crash inside a frame,
  // the next replay drops everything acknowledged since, unless the bytes
  // written later happen to complete that frame.
  lemma TornTailIff(crc: Checksum, rs: seq<Record>, big: Record, cut: nat, later: seq<byte>)
    requires AllFit(rs) && Fits(big) && cut <= |Encode(crc, big)|
    ensures Replay(crc, EncodeAll(crc, rs) + (Encode(crc, big)[..cut] + later)) == rs <==> Swallows(crc, big, cut, later)
  {
    hide LE32, FromLE32, Body, DecodeBody, Encode, EncodeAll;
    var f := Encode(crc, big);
    var s := f[..cut] + later;
    if cut >= 8 {
      Header(crc, big, []);
      assert f + [] == f;
      assert s[0..4] == f[0..4] && s[4..8] == f[4..8];
    }
    assert Swallows(crc, big, cut, later) <==> !Decode(crc, s).Got?;
    ReplayAppends(crc, rs, s);
    assert |rs + Replay(crc, s)| == |rs| <==> !Decode(crc, s).Got?;
    assert rs + [] == rs;
  }

  // A header left by a crash hides a whole, shorter record written after it.
  lemma AcknowledgedLost(crc: Checksum, rs: seq<Record>, big: Record, r: Record)
    requires AllFit(rs) && Fits(big) && |Encode(crc, r)| < |Body(big)|
    ensures Replay(crc, EncodeAll(crc, rs) + (Encode(crc, big)[..8] + Encode(crc, r))) == rs
  {
    hide LE32, FromLE32, Body, DecodeBody, EncodeAll;
    TornTailIff(crc, rs, big, 8, Encode(crc, r));
  }

  // With whole frames in the file, everything appended later is replayed.
  lemma WholeFramesReopen(crc: Checksum, rs: seq<Record>, later: seq<Record>)
    requires AllFit(rs) && AllFit(later)
    ensures Replay(crc, EncodeAll(crc, rs) + EncodeAll(crc, later)) == rs + later
  {
    hide Encode;
    ReplayAppends(crc, rs, EncodeAll(crc, later));
    ReplayAll(crc, later);
  }

  // No part of a frame over the cap is a record.
  lemma OversizeFrame(crc: Checksum, r: Record, rest: seq<byte>, n: nat)
    requires !Fits(r) && |Body(r)| < TWO_32 && n <= |Encode(crc, r) + rest|
    ensures !Decode(crc, (Encode(crc, r) + rest)[..n]).Got?
  {
    hide FromLE32, LE32, Body, DecodeBody;
    var s := (Encode(crc, r) + rest)[..n];
    if n >= 8 {
      assert s[4..8] == LE32(|Body(r)|);
      LE32RoundTrip(|Body(r)|);
    }
  }

  // A record is recovered exactly when its body is within the cap; a longer
  // one is written all the same, and hides everything after it.
  lemma OversizeIsLost(crc: Checksum, rs: seq<Record>, r: Record, rest: seq<byte>)
    requires AllFit(rs) && |Body(r)| < TWO_32
    ensures Replay(crc, EncodeAll(crc, rs) + (Encode(crc, r) + rest))
            == if Fits(r) then rs + ([r] + Replay(crc, rest)) else rs
  {
    hide LE32, FromLE32, Body, DecodeBody;
    var s := Encode(crc, r) + rest;
    ReplayAppends(crc, rs, s);
    if Fits(r) {
      FrameRoundTrip(crc, r, rest);
    } else {
      LE32RoundTrip(|Body(r)|);
      assert s[4..8] == LE32(|Body(r)|);
      assert Decode(crc, s) == TooLarge;
      assert rs + [] == rs;
    }
  }

  // The length field of every frame is the length of its body.
  ghost predicate AllSized(rs: seq<Record>)
  {
    forall i | 0 <= i < |rs| :: |Body(rs[i])| < TWO_32
  }

  // The records before the first one over the cap.
  ghost function Recoverable(rs: seq<Record>): (m: nat)
    ensures m <= |rs| && AllFit(rs[..m]) && (m < |rs| ==> !Fits(rs[m]))
    ensures AllFit(rs) <==> m == |rs|
  {
    if rs == [] then 0
    else
      var m := Recoverable(rs[..|rs| - 1]);
      assert rs[..|rs| - 1][..m] == rs[..m];
      if m == |rs| - 1 && Fits(rs[|rs| - 1]) then |rs| else m
  }

  // A record is before the first one over the cap exactly when all up to it fit.
  lemma {:induction false} RecoverableIff(rs: seq<Record>, i: nat)
    requires i < |rs|
    ensures i < Recoverable(rs) <==> AllFit(rs[..i + 1])
  {
    hide Fits, Recoverable;
    var m := Recoverable(rs);
    if i < m {
      assert forall l | 0 <= l < i + 1 :: rs[..i + 1][l] == rs[..m][l];
    } else {
      assert rs[..i + 1][m] == rs[m];
    }
  }

  // What a replay of whole frames returns, whatever their sizes.
  lemma ReplayToOversize(crc: Checksum, rs: seq<Record>)
    requires AllSized(rs)
    ensures Replay(crc, EncodeAll(crc, rs)) == rs[..Recoverable(rs)]
  {
    hide Encode, Decode, Body, Fits, Replay, Recoverable;
    var m := Recoverable(rs);
    if m == |rs| {
      assert rs[..m] == rs;
      ReplayAll(crc, rs);
    } else {
      var rest := rs[m + 1..];
      assert rs == rs[..m] + ([rs[m]] + rest);
      EncodeAllAppends(crc, rs[..m], [rs[m]] + rest);
      assert ([rs[m]] + rest)[1..] == rest;
      OversizeIsLost(crc, rs[..m], rs[m], EncodeAll(crc, rest));
    }
  }
}
