/** The line protocol: splitting a byte stream into commands, with PUT values
    framed by their length. */
module Server {
  import opened Options
  import opened Bytes
  import opened Wal
  import opened Store

  const MAX_LINE: nat := 64 * 1024
  const MAX_VALUE: nat := 16 * 1024 * 1024

  const CR: byte := 13
  const LF: byte := 10
  const CRLF: seq<byte> := [CR, LF]
  const SPACE: byte := 32
  const PUT_WORD: seq<byte> := [80, 85, 84]
  const GET_WORD: seq<byte> := [71, 69, 84]
  const DEL_WORD: seq<byte> := [68, 69, 76]

  // ---- lines ----

  function LineEnd(s: seq<byte>): (i: nat)
    ensures i <= |s| && (forall j | 0 <= j < i :: s[j] != LF) && (i < |s| ==> s[i] == LF)
  {
    if s == [] || s[0] == LF then 0 else 1 + LineEnd(s[1..])
  }

  function Trimmed(line: seq<byte>): seq<byte>
  {
    if line != [] && line[|line| - 1] == CR then line[..|line| - 1] else line
  }

  // readLine: None is the end of the stream or a line that is too long.
  function ReadLine(s: seq<byte>): (r: Option<(seq<byte>, seq<byte>)>)
    ensures r.Some? ==> |r.value.1| < |s|
  {
    var i := LineEnd(s);
    if i == |s| || i > MAX_LINE then None else Some((Trimmed(s[..i]), s[i + 1..]))
  }

  method ReadLineLoop(s: seq<byte>) returns (r: Option<(seq<byte>, seq<byte>)>)
    ensures r == ReadLine(s)
  {
    var line: seq<byte> := [];
    var i := 0;
    ghost var end := LineEnd(s);
    while i < |s| && s[i] != LF
      invariant 0 <= i <= end && line == s[..i] && i <= MAX_LINE
    {
      line := line + [s[i]];
      i := i + 1;
      if |line| > MAX_LINE {
        return None;
      }
    }
    if i == |s| {
      return None;
    }
    return Some((Trimmed(line), s[i + 1..]));
  }

  // ---- fields ----

  predicate IsSpace(b: byte)
  {
    9 <= b <= 13 || b == SPACE
  }

  function WordLen(s: seq<byte>): (n: nat)
    ensures n <= |s| && (s != [] && !IsSpace(s[0]) ==> n > 0)
  {
    if s == [] || IsSpace(s[0]) then 0 else 1 + WordLen(s[1..])
  }

  function Fields(s: seq<byte>): seq<seq<byte>>
    decreases |s|
  {
    if s == [] then []
    else if IsSpace(s[0]) then Fields(s[1..])
    else [s[..WordLen(s)]] + Fields(s[WordLen(s)..])
  }

  ghost predicate Word(w: seq<byte>)
  {
    w != [] && forall b | b in w :: !IsSpace(b)
  }

  lemma {:induction false} WordLenWord(w: seq<byte>, rest: seq<byte>)
    requires (forall b | b in w :: !IsSpace(b)) && (rest == [] || IsSpace(rest[0]))
    ensures WordLen(w + rest) == |w|
  {
    if w == [] {
      assert w + rest == rest;
    } else {
      assert (w + rest)[1..] == w[1..] + rest;
      assert w[0] in w;
      WordLenWord(w[1..], rest);
    }
  }

  lemma FieldsWord(w: seq<byte>, rest: seq<byte>)
    requires Word(w) && (rest == [] || IsSpace(rest[0]))
    ensures Fields(w + rest) == [w] + Fields(rest)
  {
    WordLenWord(w, rest);
    assert w[0] in w;
    assert (w + rest)[..|w|] == w && (w + rest)[|w|..] == rest;
  }

  lemma FieldsSpaced(w: seq<byte>, rest: seq<byte>)
    requires Word(w)
    ensures Fields(w + ([SPACE] + rest)) == [w] + Fields(rest)
  {
    FieldsWord(w, [SPACE] + rest);
    assert ([SPACE] + rest)[1..] == rest;
  }

  // ---- numbers ----

  predicate IsDigit(b: byte)
  {
    48 <= b <= 57
  }

  function Decimal(n: nat): (s: seq<byte>)
    ensures s != [] && forall b | b in s :: IsDigit(b)
  {
    if n < 10 then [(48 + n) as byte] else Decimal(n / 10) + [(48 + n % 10) as byte]
  }

  function Digits(s: seq<byte>): nat
    requires forall b | b in s :: IsDigit(b)
  {
    if s == [] then 0
    else
      var last := s[|s| - 1];
      assert IsDigit(last);
      10 * Digits(s[..|s| - 1]) + (last as nat - 48)
  }

  const MAX_INT: nat := 0x7fff_ffff_ffff_ffff

  // strconv.Atoi on a 64-bit platform.
  function Atoi(s: seq<byte>): Option<int>
  {
    var signed := s != [] && (s[0] == 43 || s[0] == 45);
    var digits := if signed then s[1..] else s;
    if digits == [] || exists b :: b in digits && !IsDigit(b) then None
    else
      var n := Digits(digits);
      if signed && s[0] == 45 then (if n <= MAX_INT + 1 then Some(0 - n as int) else None)
      else if n <= MAX_INT then Some(n) else None
  }

  lemma {:induction false} DigitsDecimal(n: nat)
    ensures Digits(Decimal(n)) == n
  {
    var s := Decimal(n);
    if n < 10 {
      assert s[..0] == [];
    } else {
      DigitsDecimal(n / 10);
      assert s[..|s| - 1] == Decimal(n / 10);
    }
  }

  lemma AtoiDecimal(n: nat)
    requires n <= MAX_INT
    ensures Atoi(Decimal(n)) == Some(n)
  {
    hide Decimal, Digits;
    DigitsDecimal(n);
    var s := Decimal(n);
    assert s[0] in s;
  }

  // ---- commands ----

  datatype Reply = Ok | Value(v: Str) | Missing | Error

  function UpperByte(b: byte): byte
  {
    if 97 <= b <= 122 then b - 32 else b
  }

  function Upper(w: seq<byte>): seq<byte>
  {
    seq(|w|, i requires 0 <= i < |w| => UpperByte(w[i]))
  }

  // One command: the new map, the reply if any, the rest of the stream, and
  // whether the connection must be closed.
  datatype Outcome = Outcome(data: Data, replies: seq<Reply>, rest: seq<byte>, fatal: bool)

  // Whether the store accepts the write of the command with n bytes behind its line.
  type Answers = nat -> bool

  function HandlePut(m: Data, fields: seq<seq<byte>>, s: seq<byte>, up: Answers): (o: Outcome)
    ensures |o.rest| <= |s|
  {
    if |fields| != 3 then Outcome(m, [Error], s, false)
    else match Atoi(fields[2])
         case None => Outcome(m, [Error], s, false)
         case Some(n) =>
           if n < 0 then Outcome(m, [Error], s, false)
           else if n > MAX_VALUE then Outcome(m, [Error], s, true)
           else if |s| < n then Outcome(m, [], [], true)
           else if |s| < n + 2 || s[n..n + 2] != CRLF then Outcome(m, [Error], [], true)
           else if !up(|s|) then Outcome(m, [Error], s[n + 2..], false)
           else Outcome(m[fields[1] := s[..n]], [Ok], s[n + 2..], false)
  }

  function HandleGet(m: Data, fields: seq<seq<byte>>): Reply
  {
    if |fields| != 2 then Error else if fields[1] in m then Value(m[fields[1]]) else Missing
  }

  function HandleCommand(m: Data, fields: seq<seq<byte>>, s: seq<byte>, up: Answers): (o: Outcome)
    requires fields != []
    ensures |o.rest| <= |s|
  {
    var cmd := Upper(fields[0]);
    if cmd == PUT_WORD then HandlePut(m, fields, s, up)
    else if cmd == GET_WORD then Outcome(m, [HandleGet(m, fields)], s, false)
    else if cmd == DEL_WORD then
      if |fields| != 2 || !up(|s|) then Outcome(m, [Error], s, false) else Outcome(m - {fields[1]}, [Ok], s, false)
    else Outcome(m, [Error], s, false)
  }

  // handleConn until the stream ends or a fatal error.
  function Serve(m: Data, s: seq<byte>, up: Answers): (Data, seq<Reply>)
    decreases |s|
  {
    match ReadLine(s)
    case None => (m, [])
    case Some((line, rest)) =>
      var fields := Fields(line);
      if fields == [] then Serve(m, rest, up)
      else
        var o := HandleCommand(m, fields, rest, up);
        if o.fatal then (o.data, o.replies)
        else
          var (m', replies) := Serve(o.data, o.rest, up);
          (m', o.replies + replies)
  }

  class Connection {
    var data: Data              // the backing store
    var replies: seq<Reply>     // what has been written back

    method HandleConn(input: seq<byte>, up: Answers)
      modifies this
      ensures data == Serve(old(data), input, up).0
      ensures replies == old(replies) + Serve(old(data), input, up).1
    {
      var s := input;
      while true
        modifies this
        invariant Serve(data, s, up).0 == Serve(old(data), input, up).0
        invariant replies + Serve(data, s, up).1 == old(replies) + Serve(old(data), input, up).1
        decreases |s|
      {
        var line := ReadLineLoop(s);
        if line.None? {
          assert replies + [] == replies;
          return;
        }
        var fields := Fields(line.value.0);
        if fields == [] {
          s := line.value.1;
          continue;
        }
        var o := HandleCommand(data, fields, line.value.1, up);
        ghost var after := Serve(o.data, o.rest, up).1;
        assert replies + (o.replies + after) == replies + o.replies + after;
        data := o.data;
        replies := replies + o.replies;
        if o.fatal {
          return;
        }
        s := o.rest;
      }
    }
  }

  // ---- the round trip ----

  datatype Request = PutReq(key: Str, value: Str) | GetReq(key: Str) | DelReq(key: Str)

  function Line(r: Request): seq<byte>
  {
    match r
    case PutReq(k, v) => PUT_WORD + ([SPACE] + (k + ([SPACE] + Decimal(|v|))))
    case GetReq(k) => GET_WORD + ([SPACE] + k)
    case DelReq(k) => DEL_WORD + ([SPACE] + k)
  }

  function Payload(r: Request): seq<byte>
  {
    if r.PutReq? then r.value + CRLF else []
  }

  // What a client sends.
  function EncodeReq(r: Request): seq<byte>
  {
    Line(r) + CRLF + Payload(r)
  }

  function EncodeReqs(rs: seq<Request>): seq<byte>
  {
    if rs == [] then [] else EncodeReq(rs[0]) + EncodeReqs(rs[1..])
  }

  // Keys are words of printable ASCII; the line, with its CR, is within bounds.
  ghost predicate Admissible(r: Request)
  {
    && Word(r.key) && (forall b | b in r.key :: b < 128)
    && |Line(r)| + 1 <= MAX_LINE
    && (r.PutReq? ==> |r.value| <= MAX_VALUE)
  }

  ghost predicate AllAdmissible(rs: seq<Request>)
  {
    forall i | 0 <= i < |rs| :: Admissible(rs[i])
  }

  // What a request does when the store accepts its write, or refuses it.
  function Perform(m: Data, r: Request, ok: bool): (Data, Reply)
  {
    match r
    case PutReq(k, v) => if ok then (m[k := v], Ok) else (m, Error)
    case GetReq(k) => (m, if k in m then Value(m[k]) else Missing)
    case DelReq(k) => if ok then (m - {k}, Ok) else (m, Error)
  }

  // The requests in order, with `more` bytes behind the last one.
  function PerformAll(m: Data, rs: seq<Request>, more: nat, up: Answers): (Data, seq<Reply>)
    decreases |rs|
  {
    if rs == [] then (m, [])
    else
      var (m1, reply) := Perform(m, rs[0], up(|Payload(rs[0])| + |EncodeReqs(rs[1..])| + more));
      var (m2, replies) := PerformAll(m1, rs[1..], more, up);
      (m2, [reply] + replies)
  }

  lemma {:induction false} LineEndAt(line: seq<byte>, rest: seq<byte>)
    requires LF !in line
    ensures LineEnd(line + ([LF] + rest)) == |line|
  {
    if line != [] {
      assert (line + ([LF] + rest))[1..] == line[1..] + ([LF] + rest);
      LineEndAt(line[1..], rest);
    }
  }

  lemma ReadsLine(line: seq<byte>, rest: seq<byte>)
    requires LF !in line && |line| + 1 <= MAX_LINE
    ensures ReadLine(line + CRLF + rest) == Some((line, rest))
  {
    var s := line + CRLF + rest;
    assert s == (line + [CR]) + ([LF] + rest);
    LineEndAt(line + [CR], rest);
    assert s[..|line| + 1] == line + [CR];
    assert s[|line| + 2..] == rest;
  }

  lemma DigitsAreWord(n: nat)
    ensures Word(Decimal(n))
  {
  }

  lemma LineFields(r: Request)
    requires Word(r.key)
    ensures LF !in Line(r)
    ensures Fields(Line(r)) == match r
                               case PutReq(k, v) => [PUT_WORD, k, Decimal(|v|)]
                               case GetReq(k) => [GET_WORD, k]
                               case DelReq(k) => [DEL_WORD, k]
  {
    hide Fields, Decimal;
    NoFields();
    FieldsEnd(r.key);
    match r
    case PutReq(k, v) =>
      DigitsAreWord(|v|);
      FieldsEnd(Decimal(|v|));
      FieldsSpaced(k, Decimal(|v|));
      FieldsSpaced(PUT_WORD, k + ([SPACE] + Decimal(|v|)));
      assert [PUT_WORD] + ([k] + [Decimal(|v|)]) == [PUT_WORD, k, Decimal(|v|)];
    case GetReq(k) => FieldsSpaced(GET_WORD, k);
    case DelReq(k) => FieldsSpaced(DEL_WORD, k);
  }

  lemma NoFields()
    ensures Fields([]) == []
  {
  }

  lemma FieldsEnd(w: seq<byte>)
    requires Word(w)
    ensures Fields(w) == [w]
  {
    FieldsWord(w, []);
    assert w + [] == w;
  }

  lemma HandlesRequest(m: Data, r: Request, rest: seq<byte>, up: Answers)
    requires Admissible(r)
    ensures var s := Payload(r) + rest;
            var (m1, reply) := Perform(m, r, up(|s|));
            HandleCommand(m, Fields(Line(r)), s, up) == Outcome(m1, [reply], rest, false)
  {
    hide Fields, Decimal, Atoi, Line;
    LineFields(r);
    assert Upper(PUT_WORD) == PUT_WORD && Upper(GET_WORD) == GET_WORD && Upper(DEL_WORD) == DEL_WORD;
    match r
    case PutReq(k, v) =>
      AtoiDecimal(|v|);
      var s := v + CRLF + rest;
      assert s[..|v|] == v && s[|v|..|v| + 2] == CRLF && s[|v| + 2..] == rest;
    case GetReq(k) => assert [] + rest == rest;
    case DelReq(k) => assert [] + rest == rest;
  }

  lemma ServesOne(m: Data, r: Request, rest: seq<byte>, up: Answers)
    requires Admissible(r)
    ensures var (m1, reply) := Perform(m, r, up(|Payload(r)| + |rest|));
            var (m2, replies) := Serve(m1, rest, up);
            Serve(m, EncodeReq(r) + rest, up) == (m2, [reply] + replies)
  {
    hide Fields, Line, HandleCommand, ReadLine;
    var s := Payload(r) + rest;
    assert EncodeReq(r) + rest == Line(r) + CRLF + s;
    LineFields(r);
    ReadsLine(Line(r), s);
    HandlesRequest(m, r, rest, up);
    assert Fields(Line(r)) != [];
  }

  // The concatenated requests of a client perform exactly those requests, in
  // order, whatever bytes the values hold and whichever writes the store
  // refuses; what follows is read after them.
  lemma {:induction false} ServesAll(m: Data, rs: seq<Request>, rest: seq<byte>, up: Answers)
    requires AllAdmissible(rs)
    ensures var (m1, replies) := PerformAll(m, rs, |rest|, up);
            var (m2, more) := Serve(m1, rest, up);
            Serve(m, EncodeReqs(rs) + rest, up) == (m2, replies + more)
    decreases |rs|
  {
    hide EncodeReq, Serve, Perform, Admissible, Payload;
    if rs == [] {
      assert [] + rest == rest;
      assert [] + Serve(m, rest, up).1 == Serve(m, rest, up).1;
    } else {
      var tail := EncodeReqs(rs[1..]) + rest;
      assert EncodeReqs(rs) + rest == EncodeReq(rs[0]) + tail;
      ServesOne(m, rs[0], tail, up);
      var (m1, reply) := Perform(m, rs[0], up(|Payload(rs[0])| + |tail|));
      ServesAll(m1, rs[1..], rest, up);
      var (m2, replies) := PerformAll(m1, rs[1..], |rest|, up);
      var more := Serve(m2, rest, up).1;
      assert [reply] + (replies + more) == [reply] + replies + more;
    }
  }

  // The stream carries the value and the terminator.
  ghost predicate Framed(s: seq<byte>, v: seq<byte>, rest: seq<byte>)
  {
    s == v + CRLF + rest
  }

  // A PUT whose header names a length within the limit: if the value and its
  // terminator follow, they are consumed and the value goes to the store, and
  // otherwise the connection is closed with nothing stored, so no value byte is
  // ever read as a command. Without a length nothing is consumed.
  lemma PutFraming(m: Data, fields: seq<seq<byte>>, s: seq<byte>, up: Answers, v: seq<byte>, rest: seq<byte>)
    ensures var o := HandlePut(m, fields, s, up);
            var named := |fields| == 3 && Atoi(fields[2]).Some? && Atoi(fields[2]).value >= 0;
            && (!named ==> o == Outcome(m, [Error], s, false))
            && (named && Atoi(fields[2]).value == |v| <= MAX_VALUE && Framed(s, v, rest)
                ==> o == if up(|s|) then Outcome(m[fields[1] := v], [Ok], rest, false) else Outcome(m, [Error], rest, false))
            && (named && !o.fatal ==> exists x :: |x| == Atoi(fields[2]).value <= MAX_VALUE && Framed(s, x, o.rest))
            && (o.fatal ==> o.data == m && [Ok] != o.replies)
  {
    hide Atoi;
    if Framed(s, v, rest) {
      assert s[..|v|] == v && s[|v|..|v| + 2] == CRLF && s[|v| + 2..] == rest;
    }
    if |fields| == 3 && Atoi(fields[2]).Some? {
      var n := Atoi(fields[2]).value;
      if 0 <= n && n + 2 <= |s| {
        assert s == s[..n] + s[n..n + 2] + s[n + 2..];
        assert s[n..n + 2] == CRLF ==> Framed(s, s[..n], s[n + 2..]);
      }
    }
  }

  // ---- what reaches the log ----

  // A record given to the store, and whether the store took it. One that was
  // refused may be in the log all the same, if it was its sync that failed.
  datatype Write = Write(rec: Record, taken: bool)

  // What a command gives to the store: what it would write if the store took it.
  function CommandWrites(m: Data, fields: seq<seq<byte>>, s: seq<byte>, up: Answers): seq<Write>
    requires fields != []
  {
    var o := HandleCommand(m, fields, s, _ => true);
    if o.replies != [Ok] then []
    else if Upper(fields[0]) == PUT_WORD && |fields| == 3 && fields[1] in o.data then
      [Write(Record(PUT, fields[1], o.data[fields[1]]), up(|s|))]
    else if |fields| == 2 then [Write(Record(DELETE, fields[1], []), up(|s|))]
    else []
  }

  // What a connection gives to the store.
  function Writes(m: Data, s: seq<byte>, up: Answers): seq<Write>
    decreases |s|
  {
    match ReadLine(s)
    case None => []
    case Some((line, rest)) =>
      var fields := Fields(line);
      if fields == [] then Writes(m, rest, up)
      else
        var o := HandleCommand(m, fields, rest, up);
        CommandWrites(m, fields, rest, up) + if o.fatal then [] else Writes(o.data, o.rest, up)
  }

  function Taken(ws: seq<Write>): seq<Record>
  {
    if ws == [] then []
    else (if ws[0].taken then [ws[0].rec] else []) + Taken(ws[1..])
  }

  ghost predicate WritesFit(ws: seq<Write>)
  {
    forall i | 0 <= i < |ws| :: Fits(ws[i].rec)
  }

  lemma {:induction false} TakenAppends(a: seq<Write>, b: seq<Write>)
    ensures Taken(a + b) == Taken(a) + Taken(b)
    decreases |a|
  {
    if a == [] {
      assert a + b == b && Taken(a) + Taken(b) == Taken(b);
    } else {
      assert (a + b)[1..] == a[1..] + b;
      TakenAppends(a[1..], b);
      var head := if a[0].taken then [a[0].rec] else [];
      assert head + (Taken(a[1..]) + Taken(b)) == head + Taken(a[1..]) + Taken(b);
    }
  }

  lemma {:induction false} FieldLength(s: seq<byte>, i: nat)
    requires i < |Fields(s)|
    ensures |Fields(s)[i]| <= |s|
    decreases |s|
  {
    if IsSpace(s[0]) {
      FieldLength(s[1..], i);
    } else if i > 0 {
      FieldLength(s[WordLen(s)..], i - 1);
    }
  }

  lemma CommandFits(m: Data, fields: seq<seq<byte>>, s: seq<byte>, up: Answers)
    requires fields != [] && forall i | 0 <= i < |fields| :: |fields[i]| <= MAX_LINE
    ensures WritesFit(CommandWrites(m, fields, s, up))
    ensures HandleCommand(m, fields, s, up).data == FoldFrom(m, Taken(CommandWrites(m, fields, s, up)))
  {
    hide Atoi, Upper, LE32, Fits, FoldFrom;
    var ws := CommandWrites(m, fields, s, up);
    if ws != [] {
      ShortFits(ws[0].rec);
      OneTaken(m, ws[0]);
      assert ws == [ws[0]];
    } else {
      NoneTaken(m);
    }
  }

  lemma ShortFits(r: Record)
    requires |r.key| <= MAX_LINE && |r.value| <= MAX_VALUE
    ensures Fits(r)
  {
  }

  lemma OneTaken(m: Data, w: Write)
    ensures FoldFrom(m, Taken([w])) == if w.taken then ApplyRecord(m, w.rec) else m
  {
    NoneTaken(ApplyRecord(m, w.rec));
  }

  lemma NoneTaken(m: Data)
    ensures FoldFrom(m, Taken([])) == m
  {
  }

  lemma FoldFromAppends(m: Data, a: seq<Record>, b: seq<Record>)
    ensures FoldFrom(m, a + b) == FoldFrom(FoldFrom(m, a), b)
    decreases |a|
  {
    hide ApplyRecord;
    if a == [] {
      assert a + b == b;
    } else {
      assert (a + b)[1..] == a[1..] + b;
      FoldFromAppends(ApplyRecord(m, a[0]), a[1..], b);
    }
  }

  // Whatever bytes a client sends, every record they give to the store is within
  // the log's cap, taken or not, and the map is those taken, applied in order.
  lemma {:induction false} AdmittedFits(m: Data, s: seq<byte>, up: Answers)
    ensures WritesFit(Writes(m, s, up)) && Serve(m, s, up).0 == FoldFrom(m, Taken(Writes(m, s, up)))
    decreases |s|
  {
    hide Fields, HandleCommand, CommandWrites, Fits, LineEnd, ApplyRecord;
    match ReadLine(s)
    case None =>
    case Some((line, rest)) =>
      var fields := Fields(line);
      if fields == [] {
        AdmittedFits(m, rest, up);
      } else {
        forall i | 0 <= i < |fields| ensures |fields[i]| <= MAX_LINE { FieldLength(line, i); }
        CommandFits(m, fields, rest, up);
        var o := HandleCommand(m, fields, rest, up);
        var ws := CommandWrites(m, fields, rest, up);
        if o.fatal {
          assert ws + [] == ws;
        } else {
          AdmittedFits(o.data, o.rest, up);
          TakenAppends(ws, Writes(o.data, o.rest, up));
          FoldFromAppends(m, Taken(ws), Taken(Writes(o.data, o.rest, up)));
        }
      }
  }

  // ---- any line, not only a client's ----

  // A line ended by LF, or by CR LF, is read without its end; the limit of
  // 64 KiB includes the CR.
  lemma LineRead(line: seq<byte>, rest: seq<byte>)
    requires LF !in line && |line| <= 65536
    ensures ReadLine(line + ([LF] + rest))
            == Some((if line != [] && line[|line| - 1] == 13 then line[..|line| - 1] else line, rest))
  {
    var s := line + ([LF] + rest);
    LineEndAt(line, rest);
    assert s[..|line|] == line && s[|line| + 1..] == rest;
  }

  // No line is read exactly if none ends within the limit.
  lemma NoLineIff(s: seq<byte>)
    ensures ReadLine(s) == None <==> forall i | 0 <= i < |s| && i <= 65536 :: s[i] != LF
  {
    var i := LineEnd(s);
    if i < |s| { assert s[i] == LF; }
  }

  ghost predicate Blank(s: seq<byte>)
  {
    forall i | 0 <= i < |s| :: s[i] in {9, 10, 11, 12, 13, 32}
  }

  // Words between blanks.
  function Spread(parts: seq<(seq<byte>, seq<byte>)>): seq<byte>
  {
    if parts == [] then [] else parts[0].0 + (parts[0].1 + Spread(parts[1..]))
  }

  function WordsOf(parts: seq<(seq<byte>, seq<byte>)>): seq<seq<byte>>
  {
    if parts == [] then [] else [parts[0].1] + WordsOf(parts[1..])
  }

  // Each part is blanks and a word; only the first may have no blanks.
  ghost predicate Parted(parts: seq<(seq<byte>, seq<byte>)>)
  {
    forall i | 0 <= i < |parts| ::
      && Blank(parts[i].0) && (i > 0 ==> parts[i].0 != [])
      && parts[i].1 != [] && forall b | b in parts[i].1 :: b !in {9, 10, 11, 12, 13, 32}
  }

  lemma {:induction false} SkipBlanks(gap: seq<byte>, rest: seq<byte>)
    requires Blank(gap)
    ensures Fields(gap + rest) == Fields(rest)
    decreases |gap|
  {
    if gap == [] {
      assert gap + rest == rest;
    } else {
      assert (gap + rest)[1..] == gap[1..] + rest;
      SkipBlanks(gap[1..], rest);
    }
  }

  // Words in any blanks are the fields.
  lemma {:induction false} FieldsOfSpread(parts: seq<(seq<byte>, seq<byte>)>, trail: seq<byte>)
    requires Parted(parts) && Blank(trail)
    ensures Fields(Spread(parts) + trail) == WordsOf(parts)
    decreases |parts|
  {
    hide Fields;
    if parts == [] {
      assert [] + trail == trail + [];
      SkipBlanks(trail, []);
      NoFields();
    } else {
      var gap, w, tail := parts[0].0, parts[0].1, parts[1..];
      var rest := Spread(tail) + trail;
      assert Spread(parts) + trail == gap + (w + rest);
      SkipBlanks(gap, w + rest);
      BlankNext(tail, trail);
      FieldsWord(w, rest);
      FieldsOfSpread(tail, trail);
    }
  }

  lemma BlankNext(tail: seq<(seq<byte>, seq<byte>)>, trail: seq<byte>)
    requires Blank(trail) && (tail != [] ==> tail[0].0 != [] && Blank(tail[0].0))
    ensures var rest := Spread(tail) + trail; rest == [] || IsSpace(rest[0])
  {
    if tail != [] {
      assert (Spread(tail) + trail)[0] == tail[0].0[0];
    }
  }

  // The word in upper case, or with any of its letters in lower case.
  ghost predicate Says(w: seq<byte>, word: seq<byte>)
  {
    |w| == |word| && forall i | 0 <= i < |w| :: w[i] == word[i] || w[i] as int == word[i] as int + 32
  }

  lemma SaysIff(w: seq<byte>, word: seq<byte>)
    requires forall i | 0 <= i < |word| :: 65 <= word[i] <= 90
    ensures Upper(w) == word <==> Says(w, word)
  {
    var u := Upper(w);
    if |w| == |word| {
      forall i | 0 <= i < |w| ensures u[i] == word[i] <==> w[i] == word[i] || w[i] as int == word[i] as int + 32 {}
      if Says(w, word) {
        assert forall i | 0 <= i < |w| :: u[i] == word[i];
      }
    }
  }

  // The length a PUT line announces, if it announces one.
  ghost function Announced(fields: seq<seq<byte>>): Option<nat>
  {
    if |fields| == 3 && Says(fields[0], PUT_WORD) && Atoi(fields[2]).Some? && Atoi(fields[2]).value >= 0
    then Some(Atoi(fields[2]).value) else None
  }

  // The connection is closed by a command only after a PUT whose length is over
  // 16 MiB, whose value is cut short, or whose value is not followed by CR LF;
  // nothing is stored then, and all but the cut value are answered by an error.
  lemma ClosesIff(m: Data, fields: seq<seq<byte>>, s: seq<byte>, up: Answers)
    requires fields != []
    ensures var o := HandleCommand(m, fields, s, up);
            var n := Announced(fields);
            && (o.fatal <==> n.Some? && (n.value > 16777216 || |s| < n.value + 2 || s[n.value..n.value + 2] != [13, 10]))
            && (o.fatal ==> o.data == m && o.replies == if |s| < n.value <= 16777216 then [] else [Error])
  {
    hide Atoi, Upper;
    SaysIff(fields[0], PUT_WORD);
    SaysIff(fields[0], GET_WORD);
    SaysIff(fields[0], DEL_WORD);
  }

  // What is neither of the three commands with its number of fields.
  ghost predicate NoCommand(fields: seq<seq<byte>>)
    requires fields != []
  {
    && !(Says(fields[0], PUT_WORD) && |fields| == 3)
    && !((Says(fields[0], GET_WORD) || Says(fields[0], DEL_WORD)) && |fields| == 2)
  }

  // In any letter case: GET answers from the map, DEL removes the key if the
  // store takes it; everything that is no command is answered by an error. None
  // of them reads on or closes the connection.
  lemma CommandIff(m: Data, fields: seq<seq<byte>>, s: seq<byte>, up: Answers)
    requires fields != []
    ensures var o := HandleCommand(m, fields, s, up);
            && (NoCommand(fields) ==> o == Outcome(m, [Error], s, false))
            && (Says(fields[0], GET_WORD) && |fields| == 2 ==>
                  o == Outcome(m, [if fields[1] in m then Value(m[fields[1]]) else Missing], s, false))
            && (Says(fields[0], DEL_WORD) && |fields| == 2 ==>
                  o == if up(|s|) then Outcome(m - {fields[1]}, [Ok], s, false) else Outcome(m, [Error], s, false))
  {
    hide Atoi, Upper;
    SaysIff(fields[0], PUT_WORD);
    SaysIff(fields[0], GET_WORD);
    SaysIff(fields[0], DEL_WORD);
  }

  // A blank line changes nothing; a line that is no command costs one error
  // reply. Either way serving goes on behind it.
  lemma ServesOn(m: Data, line: seq<byte>, rest: seq<byte>, up: Answers)
    requires LF !in line && |line| <= 65536
    ensures var text := if line != [] && line[|line| - 1] == 13 then line[..|line| - 1] else line;
            var fields, (m1, replies) := Fields(text), Serve(m, rest, up);
            var served := Serve(m, line + ([LF] + rest), up);
            && (fields == [] ==> served == (m1, replies))
            && (fields != [] && NoCommand(fields) ==> served == (m1, [Error] + replies))
  {
    hide Fields, HandleCommand, ReadLine, NoCommand;
    LineRead(line, rest);
    var text := if line != [] && line[|line| - 1] == 13 then line[..|line| - 1] else line;
    if Fields(text) != [] {
      CommandIff(m, Fields(text), rest, up);
    }
  }

  // Without a line within the limit the connection ends and nothing is done.
  lemma ServesNoLine(m: Data, s: seq<byte>, up: Answers)
    requires forall i | 0 <= i < |s| && i <= 65536 :: s[i] != LF
    ensures Serve(m, s, up) == (m, [])
  {
    NoLineIff(s);
  }

  // A length is decimal digits with at most one sign before them, and fits a
  // 64-bit integer.
  lemma AtoiIff(d: seq<byte>)
    requires d != [] && forall b | b in d :: 48 <= b <= 57
    ensures Atoi(d) == if Digits(d) <= 0x7fff_ffff_ffff_ffff then Some(Digits(d)) else None
    ensures Atoi([43] + d) == Atoi(d)
    ensures Atoi([45] + d) == if Digits(d) <= 0x8000_0000_0000_0000 then Some(-(Digits(d) as int)) else None
  {
    hide Digits;
    assert d[0] in d;
    assert ([43] + d)[1..] == d && ([45] + d)[1..] == d;
  }

  // Anything else is no number.
  lemma AtoiNone(s: seq<byte>, i: nat)
    ensures s in {[], [43], [45]} ==> Atoi(s) == None
    ensures i < |s| && !(48 <= s[i] <= 57) && (i > 0 || (s[0] != 43 && s[0] != 45)) ==> Atoi(s) == None
  {
    hide Digits;
    if i < |s| && !(48 <= s[i] <= 57) && (i > 0 || (s[0] != 43 && s[0] != 45)) {
      assert s[i] in s;
      assert i > 0 ==> s[1..][i - 1] == s[i] && s[i] in s[1..];
      assert !IsDigit(s[i]);
    }
  }
}
