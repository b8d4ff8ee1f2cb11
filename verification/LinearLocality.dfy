/** Locality: a history is accepted exactly when its part on every single key is. */
module LinearLocality {
  import opened LinearCheck

  // The operations on one key, in the order of the history.
  function OnKey(ops: seq<Op>, k: string): seq<Op>
  {
    if ops == [] then []
    else if ops[0].key == k then [ops[0]] + OnKey(ops[1..], k)
    else OnKey(ops[1..], k)
  }

  lemma {:induction false} OnKeyCounts(ops: seq<Op>, k: string)
    ensures forall x :: multiset(OnKey(ops, k))[x] == if x.key == k then multiset(ops)[x] else 0
  {
    if ops != [] {
      OnKeyCounts(ops[1..], k);
      assert ops == [ops[0]] + ops[1..];
      assert multiset(ops) == multiset{ops[0]} + multiset(ops[1..]);
    }
  }

  lemma OnKeyMembers(ops: seq<Op>, k: string)
    ensures forall x :: x in OnKey(ops, k) <==> x in ops && x.key == k
  {
    OnKeyCounts(ops, k);
    forall x ensures x in OnKey(ops, k) <==> x in ops && x.key == k {
      assert x in OnKey(ops, k) <==> multiset(OnKey(ops, k))[x] > 0;
      assert x in ops <==> multiset(ops)[x] > 0;
    }
  }

  lemma OnKeyWithout(ops: seq<Op>, i: nat, k: string)
    requires i < |ops|
    ensures multiset(OnKey(Without(ops, i), k))
            == if ops[i].key == k then multiset(OnKey(ops, k)) - multiset{ops[i]} else multiset(OnKey(ops, k))
  {
    hide OnKey, Without;
    OnKeyCounts(ops, k);
    OnKeyCounts(Without(ops, i), k);
    var rest := Without(ops, i);
    forall x ensures multiset(rest)[x] == if x == ops[i] then multiset(ops)[x] - 1 else multiset(ops)[x] {
      assert ops[i] in multiset(ops);
    }
  }

  // ---- the machine looks at one key at a time ----

  ghost predicate SameAt(s: KvState, s': KvState, k: string)
  {
    (k in s <==> k in s') && (k in s ==> s[k] == s'[k])
  }

  lemma ApplySame(s: KvState, s': KvState, op: Op)
    requires SameAt(s, s', op.key)
    ensures Apply(s, op).Some? <==> Apply(s', op).Some?
    ensures Apply(s, op).Some? ==> SameAt(Apply(s, op).value, Apply(s', op).value, op.key)
  {
  }

  lemma ApplyOther(s: KvState, op: Op, k: string)
    requires op.key != k && Apply(s, op).Some?
    ensures SameAt(s, Apply(s, op).value, k)
  {
  }

  // A legal order is legal key by key, from any state with the same value there.
  lemma {:induction false} LegalOnKey(s: KvState, s': KvState, order: seq<Op>, k: string)
    requires Legal(s, order) && SameAt(s, s', k)
    ensures Legal(s', OnKey(order, k))
    decreases |order|
  {
    hide Apply;
    if order != [] {
      var next := Apply(s, order[0]).value;
      if order[0].key == k {
        ApplySame(s, s', order[0]);
        LegalOnKey(next, Apply(s', order[0]).value, order[1..], k);
        assert OnKey(order, k)[1..] == OnKey(order[1..], k);
      } else {
        ApplyOther(s, order[0], k);
        LegalOnKey(next, s', order[1..], k);
      }
    }
  }

  lemma {:induction false} LegalSame(s: KvState, s': KvState, order: seq<Op>, k: string)
    requires Legal(s, order) && SameAt(s, s', k) && forall x | x in order :: x.key == k
    ensures Legal(s', order)
    decreases |order|
  {
    hide Apply;
    if order != [] {
      ApplySame(s, s', order[0]);
      LegalSame(Apply(s, order[0]).value, Apply(s', order[0]).value, order[1..], k);
    }
  }

  lemma {:induction false} RealTimeOnKey(order: seq<Op>, k: string)
    requires RealTime(order)
    ensures RealTime(OnKey(order, k))
    decreases |order|
  {
    if order != [] {
      RealTimeOnKey(order[1..], k);
      OnKeyMembers(order[1..], k);
      var rest := OnKey(order[1..], k);
      if order[0].key == k {
        forall i, j | 0 <= i < j < |rest| + 1 ensures !(OnKey(order, k)[j].end < OnKey(order, k)[i].start) {
          assert OnKey(order, k)[j] == rest[j - 1];
          assert rest[j - 1] in order[1..];
          if i > 0 { assert OnKey(order, k)[i] == rest[i - 1]; }
        }
      }
    }
  }

  lemma LinearizesOnKey(s: KvState, ops: seq<Op>, order: seq<Op>, k: string)
    requires Linearizes(s, ops, order)
    ensures Linearizes(s, OnKey(ops, k), OnKey(order, k))
  {
    OnKeyCounts(ops, k);
    OnKeyCounts(order, k);
    RealTimeOnKey(order, k);
    LegalOnKey(s, s, order, k);
  }

  // ---- the merge ----

  lemma {:induction false} EarliestOp(ops: seq<Op>) returns (e: Op)
    requires ops != []
    ensures e in ops && forall x | x in ops :: e.end <= x.end
  {
    if |ops| == 1 {
      e := ops[0];
    } else {
      e := EarliestOp(ops[1..]);
      if ops[0].end < e.end { e := ops[0]; }
    }
  }

  // The head of the order of the key whose operation ends first started before
  // everything else ended, so it may come first overall.
  lemma HeadMayLead(s: KvState, ops: seq<Op>, e: Op, order: seq<Op>)
    requires WellTimed(ops) && e in ops && (forall x | x in ops :: e.end <= x.end)
    requires Linearizes(s, OnKey(ops, e.key), order)
    ensures |order| > 0 && order[0] in ops && order[0].key == e.key && forall x | x in ops :: order[0].start <= x.end
  {
    hide Legal;
    OnKeyMembers(ops, e.key);
    SameMembers(order, OnKey(ops, e.key));
    assert e in order;
    var j: nat :| j < |order| && order[j] == e;
    assert order[0] in ops;
  }

  lemma RestOfKey(s: KvState, ops: seq<Op>, i: nat, order: seq<Op>)
    requires i < |ops| && |order| > 0 && order[0] == ops[i] && Apply(s, ops[i]).Some?
    requires Linearizes(s, OnKey(ops, ops[i].key), order)
    ensures Linearizable(Apply(s, ops[i]).value, OnKey(Without(ops, i), ops[i].key))
  {
    hide Legal, RealTime, Apply, OnKey, Without;
    var k := ops[i].key;
    OnKeyWithout(ops, i, k);
    SameMembers(order, OnKey(ops, k));
    var j := LinearizesTail(s, OnKey(ops, k), order);
    assert Linearizes(Apply(s, ops[i]).value, OnKey(Without(ops, i), k), order[1..]);
  }

  lemma RestOfOther(s: KvState, ops: seq<Op>, i: nat, k: string)
    requires i < |ops| && Apply(s, ops[i]).Some? && k != ops[i].key
    requires Linearizable(s, OnKey(ops, k))
    ensures Linearizable(Apply(s, ops[i]).value, OnKey(Without(ops, i), k))
  {
    hide Apply, Legal, Without;
    var order :| Linearizes(s, OnKey(ops, k), order);
    OnKeyWithout(ops, i, k);
    OnKeyMembers(ops, k);
    SameMembers(order, OnKey(ops, k));
    ApplyOther(s, ops[i], k);
    LegalSame(s, Apply(s, ops[i]).value, order, k);
    assert Linearizes(Apply(s, ops[i]).value, OnKey(Without(ops, i), k), order);
  }

  lemma {:induction false} MergeKeys(s: KvState, ops: seq<Op>)
    requires WellTimed(ops) && forall k :: Linearizable(s, OnKey(ops, k))
    ensures Linearizable(s, ops)
    decreases |ops|
  {
    hide Linearizes, Apply, OnKey;
    if ops == [] {
      NothingLeft(s);
    } else {
      var e := EarliestOp(ops);
      assert Linearizable(s, OnKey(ops, e.key));
      var order :| Linearizes(s, OnKey(ops, e.key), order);
      HeadMayLead(s, ops, e, order);
      var i := FindOp(ops, order[0]);
      LegalHead(s, OnKey(ops, e.key), order);
      var s' := Apply(s, ops[i]).value;
      forall k ensures Linearizable(s', OnKey(Without(ops, i), k)) {
        if k == e.key {
          RestOfKey(s, ops, i, order);
        } else {
          assert Linearizable(s, OnKey(ops, k));
          RestOfOther(s, ops, i, k);
        }
      }
      WithoutMembers(ops, i);
      MergeKeys(s', Without(ops, i));
      var rest :| Linearizes(s', Without(ops, i), rest);
      LinearizesCons(s, ops, i, rest);
    }
  }

  lemma LegalHead(s: KvState, ops: seq<Op>, order: seq<Op>)
    requires Linearizes(s, ops, order) && |order| > 0
    ensures Apply(s, order[0]).Some?
  {
  }

  ghost predicate AcceptedPerKey(s: KvState, ops: seq<Op>)
  {
    forall k :: Accepted(s, OnKey(ops, k))
  }

  lemma AcceptedOnKey(s: KvState, ops: seq<Op>, k: string)
    requires Accepted(s, ops)
    ensures Accepted(s, OnKey(ops, k))
  {
    hide Linearizes;
    var order :| Linearizes(s, ops, order);
    OnKeyMembers(ops, k);
    LinearizesOnKey(s, ops, order, k);
  }

  lemma AcceptedByKeys(s: KvState, ops: seq<Op>)
    requires AcceptedPerKey(s, ops)
    ensures Accepted(s, ops)
  {
    hide Linearizes, OnKey;
    forall x | x in ops ensures x.start <= x.end {
      OnKeyMembers(ops, x.key);
      assert Accepted(s, OnKey(ops, x.key));
    }
    forall k ensures Linearizable(s, OnKey(ops, k)) {
      assert Accepted(s, OnKey(ops, k));
    }
    MergeKeys(s, ops);
  }

  // Checking each key on its own gives the verdict for the whole history.
  lemma Locality(s: KvState, ops: seq<Op>)
    ensures Accepted(s, ops) <==> AcceptedPerKey(s, ops)
  {
    hide Accepted, OnKey;
    if Accepted(s, ops) {
      forall k ensures Accepted(s, OnKey(ops, k)) {
        AcceptedOnKey(s, ops, k);
      }
    } else if AcceptedPerKey(s, ops) {
      AcceptedByKeys(s, ops);
    }
  }
}
