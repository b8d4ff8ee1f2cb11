/** The linearizability checker: a backtracking search that accepts a history
    exactly when some order of its operations explains every result. */
module LinearCheck {
  import opened Options

  datatype OpType = Put | Get | Delete | Unknown

  // One completed operation; start and end are points of real time.
  datatype Op = Op(kind: OpType, key: string, value: string, found: bool, start: int, end: int)

  type KvState = map<string, string>

  // The reference machine: the state after op, if op's observed result fits.
  function Apply(s: KvState, op: Op): Option<KvState>
  {
    match op.kind
    case Put => Some(s[op.key := op.value])
    case Delete => Some(s - {op.key})
    case Get =>
      if (op.key in s) != op.found then None
      else if op.key in s && s[op.key] != op.value then None
      else Some(s)
    case Unknown => None
  }

  // ---- what linearizable means ----

  ghost predicate Legal(s: KvState, order: seq<Op>)
    decreases |order|
  {
    order == [] || (Apply(s, order[0]).Some? && Legal(Apply(s, order[0]).value, order[1..]))
  }

  // An operation that ended before another started comes before it.
  ghost predicate RealTime(order: seq<Op>)
  {
    forall i, j | 0 <= i < j < |order| :: !(order[j].end < order[i].start)
  }

  ghost predicate Linearizes(s: KvState, ops: seq<Op>, order: seq<Op>)
  {
    multiset(order) == multiset(ops) && RealTime(order) && Legal(s, order)
  }

  ghost predicate Linearizable(s: KvState, ops: seq<Op>)
  {
    exists order :: Linearizes(s, ops, order)
  }

  ghost predicate WellTimed(ops: seq<Op>)
  {
    forall op | op in ops :: op.start <= op.end
  }

  // What a key holds after some operations: the latest write of it decides.
  ghost function LatestWrite(s: KvState, before: seq<Op>, k: string): Option<string>
  {
    if before == [] then (if k in s then Some(s[k]) else None)
    else
      var op := before[|before| - 1];
      if op.key == k && op.kind == Put then Some(op.value)
      else if op.key == k && op.kind == Delete then None
      else LatestWrite(s, before[..|before| - 1], k)
  }

  ghost predicate Observes(op: Op, held: Option<string>)
  {
    op.found == held.Some? && (op.found ==> op.value == held.value)
  }

  // Every Get in the order observed the latest write before it.
  ghost predicate GetsSeeLatest(s: KvState, order: seq<Op>)
  {
    forall i | 0 <= i < |order| ::
      order[i].kind != Unknown
      && (order[i].kind == Get ==> Observes(order[i], LatestWrite(s, order[..i], order[i].key)))
  }

  lemma {:induction false} LatestWriteShift(s: KvState, first: Op, rest: seq<Op>, k: string)
    requires Apply(s, first).Some?
    ensures LatestWrite(s, [first] + rest, k) == LatestWrite(Apply(s, first).value, rest, k)
    decreases |rest|
  {
    if rest == [] {
      var one := [first] + rest;
      assert one[..0] == [];
      assert LatestWrite(s, [], k) == if k in s then Some(s[k]) else None;
    } else {
      assert ([first] + rest)[..|rest|] == [first] + rest[..|rest| - 1];
      LatestWriteShift(s, first, rest[..|rest| - 1], k);
    }
  }

  // Legal for the map machine is the same as: every Get sees the latest write.
  lemma {:induction false} LegalIff(s: KvState, order: seq<Op>)
    ensures Legal(s, order) <==> GetsSeeLatest(s, order)
    decreases |order|
  {
    if order != [] {
      var first, rest := order[0], order[1..];
      assert order[..0] == [];
      FirstFits(s, first);
      if Apply(s, first).Some? {
        var next := Apply(s, first).value;
        LegalIff(next, rest);
        forall i | 0 <= i < |rest|
          ensures LatestWrite(s, order[..i + 1], rest[i].key) == LatestWrite(next, rest[..i], rest[i].key)
        {
          assert order[..i + 1] == [first] + rest[..i];
          LatestWriteShift(s, first, rest[..i], rest[i].key);
        }
        forall i | 0 <= i < |rest| ensures order[i + 1] == rest[i] {}
        SeeLatestCons(s, order, next);
      }
    }
  }

  lemma FirstFits(s: KvState, op: Op)
    ensures Apply(s, op).Some? <==> op.kind != Unknown && (op.kind == Get ==> Observes(op, LatestWrite(s, [], op.key)))
  {
  }

  lemma SeeLatestCons(s: KvState, order: seq<Op>, next: KvState)
    requires order != [] && Apply(s, order[0]).Some?
    requires forall i | 0 <= i < |order| - 1 ::
               LatestWrite(s, order[..i + 1], order[1..][i].key) == LatestWrite(next, order[1..][..i], order[1..][i].key)
    ensures GetsSeeLatest(s, order) <==> GetsSeeLatest(next, order[1..])
  {
    hide LatestWrite, Apply;
    var rest := order[1..];
    FirstFits(s, order[0]);
    assert order[..0] == [];
    if GetsSeeLatest(s, order) {
      forall i | 0 <= i < |rest|
        ensures rest[i].kind != Unknown
                && (rest[i].kind == Get ==> Observes(rest[i], LatestWrite(next, rest[..i], rest[i].key)))
      {
        assert order[i + 1] == rest[i];
      }
    }
    if GetsSeeLatest(next, rest) {
      forall i | 0 <= i < |order|
        ensures order[i].kind != Unknown
                && (order[i].kind == Get ==> Observes(order[i], LatestWrite(s, order[..i], order[i].key)))
      {
        if i > 0 {
          assert order[i] == rest[i - 1];
          assert LatestWrite(s, order[..(i - 1) + 1], rest[i - 1].key) == LatestWrite(next, rest[..i - 1], rest[i - 1].key);
        }
      }
    }
  }

  // ---- the search ----

  function Without(ops: seq<Op>, i: nat): (r: seq<Op>)
    requires i < |ops|
    ensures |r| == |ops| - 1
    ensures multiset(r) == multiset(ops) - multiset{ops[i]}
  {
    assert ops == ops[..i] + [ops[i]] + ops[i + 1..];
    ops[..i] + ops[i + 1..]
  }

  ghost predicate IsEarliestEnd(t: int, ops: seq<Op>)
  {
    (exists op :: op in ops && op.end == t) && forall op | op in ops :: t <= op.end
  }

  // What the checker accepts: a history no operation of which ends before it
  // starts, and which can be linearized.
  ghost predicate Accepted(s: KvState, ops: seq<Op>)
  {
    WellTimed(ops) && Linearizable(s, ops)
  }

  // ops[i] may be sequenced first, and the rest can be completed after it.
  ghost predicate CanLead(s: KvState, ops: seq<Op>, t: int, i: nat)
    requires i < |ops|
  {
    && ops[i].start <= t && Apply(s, ops[i]).Some?
    && Accepted(Apply(s, ops[i]).value, Without(ops, i))
  }

  lemma SameMembers(a: seq<Op>, b: seq<Op>)
    requires multiset(a) == multiset(b)
    ensures |a| == |b| && forall x :: x in a <==> x in b
  {
    assert |a| == |multiset(a)| && |b| == |multiset(b)|;
    assert forall x :: x in a <==> x in multiset(a);
    assert forall x :: x in b <==> x in multiset(b);
  }

  lemma WithoutMembers(ops: seq<Op>, i: nat)
    requires i < |ops|
    ensures forall x :: x in ops <==> x == ops[i] || x in Without(ops, i)
  {
    assert multiset(ops) == multiset(Without(ops, i)) + multiset{ops[i]};
    forall x ensures x in ops <==> x == ops[i] || x in Without(ops, i) {
      assert x in ops <==> x in multiset(ops);
      assert x in Without(ops, i) <==> x in multiset(Without(ops, i));
    }
  }

  // Prepending an operation that started before everything else ended.
  lemma LinearizesCons(s: KvState, ops: seq<Op>, i: nat, order: seq<Op>)
    requires i < |ops| && Apply(s, ops[i]).Some?
    requires Linearizes(Apply(s, ops[i]).value, Without(ops, i), order)
    requires forall x | x in ops :: ops[i].start <= x.end
    ensures Linearizes(s, ops, [ops[i]] + order)
  {
    var full := [ops[i]] + order;
    assert full[1..] == order;
    assert multiset(full) == multiset{ops[i]} + multiset(order);
    WithoutMembers(ops, i);
    SameMembers(order, Without(ops, i));
    forall p, q | 0 <= p < q < |full| ensures !(full[q].end < full[p].start) {
      assert full[q] == order[q - 1];
      if p == 0 {
        assert order[q - 1] in ops;
      } else {
        assert full[p] == order[p - 1];
      }
    }
  }

  lemma FindOp(ops: seq<Op>, x: Op) returns (i: nat)
    requires x in ops
    ensures i < |ops| && ops[i] == x
  {
    i :| i < |ops| && ops[i] == x;
  }

  // Removing the first operation of a linearization.
  lemma LinearizesTail(s: KvState, ops: seq<Op>, order: seq<Op>) returns (i: nat)
    requires Linearizes(s, ops, order) && ops != []
    ensures i < |ops| && |order| > 0 && ops[i] == order[0] && Apply(s, ops[i]).Some?
    ensures Linearizes(Apply(s, ops[i]).value, Without(ops, i), order[1..])
    ensures forall x | x in Without(ops, i) :: !(x.end < ops[i].start)
  {
    SameMembers(order, ops);
    i := FindOp(ops, order[0]);
    TailMembers(ops, order, i);
    SameMembers(order[1..], Without(ops, i));
    forall x | x in Without(ops, i) ensures !(x.end < ops[i].start) {
      assert x in order[1..];
    }
  }

  lemma TailMembers(ops: seq<Op>, order: seq<Op>, i: nat)
    requires i < |ops| && |order| > 0 && ops[i] == order[0] && multiset(order) == multiset(ops)
    ensures multiset(order[1..]) == multiset(Without(ops, i))
  {
    assert order == [order[0]] + order[1..];
    assert ops == ops[..i] + [ops[i]] + ops[i + 1..];
  }

  lemma SomeLeads(s: KvState, ops: seq<Op>, t: int) returns (i: nat)
    requires ops != [] && IsEarliestEnd(t, ops) && Accepted(s, ops)
    ensures i < |ops| && CanLead(s, ops, t, i)
  {
    hide Linearizes, Apply, Without;
    var order :| Linearizes(s, ops, order);
    i := LinearizesTail(s, ops, order);
    WithoutMembers(ops, i);
  }

  lemma LeaderAccepted(s: KvState, ops: seq<Op>, t: int, i: nat)
    requires IsEarliestEnd(t, ops) && i < |ops| && CanLead(s, ops, t, i)
    ensures Accepted(s, ops)
  {
    hide Linearizes, Apply, Without;
    WithoutMembers(ops, i);
    var order :| Linearizes(Apply(s, ops[i]).value, Without(ops, i), order);
    LinearizesCons(s, ops, i, order);
  }

  // The pruning loses nothing: some operation can lead exactly when the
  // history is accepted, where only starts up to the earliest end are tried.
  lemma AcceptedIff(s: KvState, ops: seq<Op>, t: int)
    requires ops != [] && IsEarliestEnd(t, ops)
    ensures Accepted(s, ops) <==> exists i: nat | i < |ops| :: CanLead(s, ops, t, i)
  {
    hide Accepted, CanLead, IsEarliestEnd;
    if Accepted(s, ops) {
      var i := SomeLeads(s, ops, t);
    } else if i: nat :| i < |ops| && CanLead(s, ops, t, i) {
      LeaderAccepted(s, ops, t, i);
    }
  }

  lemma NothingLeft(s: KvState)
    ensures Accepted(s, [])
  {
    assert Linearizes(s, [], []);
  }

  method EarliestEnd(ops: seq<Op>) returns (t: int)
    requires ops != []
    ensures IsEarliestEnd(t, ops)
  {
    t := ops[0].end;
    for i := 1 to |ops|
      invariant exists op :: op in ops && op.end == t
      invariant forall j | 0 <= j < i :: t <= ops[j].end
    {
      if ops[i].end < t {
        t := ops[i].end;
        assert ops[i] in ops;
      }
    }
  }

  method CheckFrom(s: KvState, remaining: seq<Op>) returns (ok: bool)
    ensures ok <==> Accepted(s, remaining)
    decreases |remaining|
  {
    hide Accepted, IsEarliestEnd, Apply, Without;
    if remaining == [] {
      NothingLeft(s);
      return true;
    }
    var earliest := EarliestEnd(remaining);
    AcceptedIff(s, remaining, earliest);
    for i := 0 to |remaining|
      invariant forall j: nat | j < i :: !CanLead(s, remaining, earliest, j)
    {
      if remaining[i].start <= earliest {
        var next := Apply(s, remaining[i]);
        if next.Some? {
          var rest := CheckFrom(next.value, Without(remaining, i));
          if rest {
            assert CanLead(s, remaining, earliest, i);
            return true;
          }
        }
      }
    }
    return false;
  }

  // The verdict is that of the definition, for every history.
  method Check(ops: seq<Op>) returns (ok: bool)
    ensures ok <==> Accepted(map[], ops)
  {
    hide Accepted;
    if ops == [] {
      NothingLeft(map[]);
      return true;
    }
    ok := CheckFrom(map[], ops);
  }

  // The verdict does not depend on the order in which operations were recorded.
  lemma OrderIrrelevant(s: KvState, a: seq<Op>, b: seq<Op>)
    requires multiset(a) == multiset(b)
    ensures Accepted(s, a) <==> Accepted(s, b)
  {
    SameMembers(a, b);
    if Linearizable(s, a) {
      var order :| Linearizes(s, a, order);
      assert Linearizes(s, b, order);
    }
    if Linearizable(s, b) {
      var order :| Linearizes(s, b, order);
      assert Linearizes(s, a, order);
    }
  }
}
