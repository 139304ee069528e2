/**
 * Effect algebra for re-running a pass. When no API call fails, every
 * upsert the operator issues acts on the store like one of two operations:
 * `Put` (create when absent, otherwise replace: the dynamic-client upsert)
 * or `Ensure` (create when absent, otherwise keep what is stored: every
 * create-if-absent step and every typed upsert, whose update writes back the
 * object its Get just read). A sequence of such operations is idempotent,
 * which is why a pass can be re-run from the start.
 */
module Converge {
  import opened Objects

  datatype Op = Put(key: Key, obj: Obj) | Ensure(key: Key, obj: Obj)

  type Contents = map<Key, Obj>

  function Exec(op: Op, m: Contents): Contents {
    match op
    case Put(k, v) => m[k := v]
    case Ensure(k, v) => if k in m then m else m[k := v]
  }

  function Apply(ops: seq<Op>, m: Contents): Contents
    decreases |ops|
  {
    if ops == [] then m else Apply(ops[1..], Exec(ops[0], m))
  }

  lemma ApplyThree(a: Op, b: Op, c: Op, m: Contents)
    ensures Apply([a, b, c], m) == Exec(c, Exec(b, Exec(a, m)))
  {
    assert [a, b, c][1..] == [b, c] && [b, c][1..] == [c] && [c][1..] == [];
    calc {
      Apply([a, b, c], m);
      Apply([b, c], Exec(a, m));
      Apply([c], Exec(b, Exec(a, m)));
      Apply([], Exec(c, Exec(b, Exec(a, m))));
    }
  }

  lemma ApplyTwo(a: Op, b: Op, m: Contents)
    ensures Apply([a, b], m) == Exec(b, Exec(a, m))
  {
    assert [a, b][1..] == [b] && [b][1..] == [];
    calc {
      Apply([a, b], m);
      Apply([b], Exec(a, m));
      Apply([], Exec(b, Exec(a, m)));
    }
  }

  function Keys(ops: seq<Op>): set<Key> {
    set i | 0 <= i < |ops| :: ops[i].key
  }

  lemma KeysAppend(a: seq<Op>, b: seq<Op>)
    ensures Keys(a + b) == Keys(a) + Keys(b)
  {
    forall k | k in Keys(a + b) ensures k in Keys(a) + Keys(b) {
      var i :| 0 <= i < |a + b| && (a + b)[i].key == k;
      if i >= |a| { assert b[i - |a|] == (a + b)[i]; }
    }
    forall k | k in Keys(b) ensures k in Keys(a + b) {
      var i :| 0 <= i < |b| && b[i].key == k;
      assert (a + b)[|a| + i] == b[i];
    }
    forall k | k in Keys(a) ensures k in Keys(a + b) {
      var i :| 0 <= i < |a| && a[i].key == k;
      assert (a + b)[i] == a[i];
    }
  }

  /** The first operation, then the rest. */
  lemma ApplyCons(op: Op, rest: seq<Op>, m: Contents)
    ensures Apply([op] + rest, m) == Apply(rest, Exec(op, m))
  {
    assert ([op] + rest)[1..] == rest;
  }

  lemma KeysCons(op: Op, rest: seq<Op>)
    ensures Keys([op] + rest) == {op.key} + Keys(rest)
  {
    KeysAppend([op], rest);
    assert [op][0] == op;
  }

  ghost predicate PutsAt(ops: seq<Op>, k: Key) {
    exists i :: 0 <= i < |ops| && ops[i].Put? && ops[i].key == k
  }

  /** Every operation writes its object under that object's own key. */
  ghost predicate KeyedOps(ops: seq<Op>) {
    forall i :: 0 <= i < |ops| ==> ops[i].obj.Key() == ops[i].key
  }

  /** `m` and `m'` hold the same entries at every key of `ks`. */
  ghost predicate AgreeOn(m: Contents, m': Contents, ks: set<Key>) {
    forall k :: k in ks ==> (k in m <==> k in m') && (k in m ==> m[k] == m'[k])
  }

  lemma {:induction false} ApplyAppend(a: seq<Op>, b: seq<Op>, m: Contents)
    ensures Apply(a + b, m) == Apply(b, Apply(a, m))
    decreases |a|
  {
    if a == [] {
      assert a + b == b;
    } else {
      assert (a + b)[1..] == a[1..] + b;
      ApplyAppend(a[1..], b, Exec(a[0], m));
    }
  }

  /** Applying operations adds exactly their keys to the domain. */
  lemma {:induction false} ApplyDomain(ops: seq<Op>, m: Contents)
    ensures Apply(ops, m).Keys == m.Keys + Keys(ops)
    decreases |ops|
  {
    if ops != [] {
      ApplyDomain(ops[1..], Exec(ops[0], m));
      assert Keys(ops) == {ops[0].key} + Keys(ops[1..]) by {
        forall k | k in Keys(ops) ensures k in {ops[0].key} + Keys(ops[1..]) {
          var i :| 0 <= i < |ops| && ops[i].key == k;
          if i > 0 { assert ops[1..][i - 1] == ops[i]; }
        }
        forall k | k in Keys(ops[1..]) ensures k in Keys(ops) {
          var i :| 0 <= i < |ops[1..]| && ops[1..][i].key == k;
          assert ops[i + 1] == ops[1..][i];
        }
      }
    }
  }

  /** Entries at keys the operations do not name are left alone. */
  lemma {:induction false} ApplyOutside(ops: seq<Op>, m: Contents, k: Key)
    requires k !in Keys(ops)
    ensures (k in Apply(ops, m)) == (k in m)
    ensures k in m ==> Apply(ops, m)[k] == m[k]
    decreases |ops|
  {
    if ops != [] {
      assert ops[0].key == k ==> k in Keys(ops);
      assert k !in Keys(ops[1..]);
      ApplyOutside(ops[1..], Exec(ops[0], m), k);
    }
  }

  /** Without a Put at `k`, a present entry at `k` survives. */
  lemma {:induction false} ApplyNoPutKeeps(ops: seq<Op>, m: Contents, k: Key)
    requires k in m && !PutsAt(ops, k)
    ensures k in Apply(ops, m) && Apply(ops, m)[k] == m[k]
    decreases |ops|
  {
    if ops != [] {
      assert !(ops[0].Put? && ops[0].key == k);
      assert !PutsAt(ops[1..], k);
      ApplyNoPutKeeps(ops[1..], Exec(ops[0], m), k);
    }
  }

  /** A later Put at `k` erases whatever `k` held before. */
  lemma {:induction false} ApplyPutForgets(ops: seq<Op>, m: Contents, m': Contents, k: Key)
    requires PutsAt(ops, k)
    requires m - {k} == m' - {k}
    ensures Apply(ops, m) == Apply(ops, m')
    decreases |ops|
  {
    var e, e' := Exec(ops[0], m), Exec(ops[0], m');
    if ops[0].Put? && ops[0].key == k {
      assert e == e' by {
        forall x ensures (x in e <==> x in e') && (x in e ==> e[x] == e'[x]) {
          if x != k {
            assert (x in m <==> x in m - {k}) && (x in m' <==> x in m' - {k});
            assert x in m ==> m[x] == (m - {k})[x];
            assert x in m' ==> m'[x] == (m' - {k})[x];
          }
        }
      }
    } else {
      var i :| 0 <= i < |ops| && ops[i].Put? && ops[i].key == k;
      assert i > 0 && ops[1..][i - 1] == ops[i];
      assert PutsAt(ops[1..], k);
      assert e - {k} == e' - {k} by {
        forall x | x != k
          ensures (x in e <==> x in e') && (x in e ==> e[x] == e'[x])
        {
          assert (x in m <==> x in m - {k}) && (x in m' <==> x in m' - {k});
          assert x in m ==> m[x] == (m - {k})[x];
          assert x in m' ==> m'[x] == (m' - {k})[x];
        }
      }
      ApplyPutForgets(ops[1..], e, e', k);
    }
  }

  /** Running the same operations twice is the same as running them once. */
  lemma {:induction false} ApplyIdempotent(ops: seq<Op>, m: Contents)
    ensures Apply(ops, Apply(ops, m)) == Apply(ops, m)
    decreases |ops|
  {
    if ops != [] {
      var op, rest := ops[0], ops[1..];
      var k := op.key;
      var m1 := Exec(op, m);
      var m2 := Apply(rest, m1);
      ApplyIdempotent(rest, m1);
      var e := Exec(op, m2);
      if PutsAt(rest, k) {
        assert e - {k} == m2 - {k};
        ApplyPutForgets(rest, e, m2, k);
      } else {
        ApplyNoPutKeeps(rest, m1, k);
        assert e == m2;
      }
    }
  }

  /** The result at the operations' keys depends only on the input at those keys. */
  lemma {:induction false} ApplyAgree(ops: seq<Op>, m: Contents, m': Contents, ks: set<Key>)
    requires Keys(ops) <= ks
    requires AgreeOn(m, m', ks)
    ensures AgreeOn(Apply(ops, m), Apply(ops, m'), ks)
    decreases |ops|
  {
    if ops != [] {
      assert ops[0].key in Keys(ops);
      assert Keys(ops[1..]) <= Keys(ops) by {
        forall k | k in Keys(ops[1..]) ensures k in Keys(ops) {
          var i :| 0 <= i < |ops[1..]| && ops[1..][i].key == k;
          assert ops[i + 1] == ops[1..][i];
        }
      }
      ApplyAgree(ops[1..], Exec(ops[0], m), Exec(ops[0], m'), ks);
    }
  }

  /**
   * A store that agrees with a fixpoint of `ops` at the keys of `ops` is a
   * fixpoint too, whatever it holds elsewhere.
   */
  lemma FixpointFrame(ops: seq<Op>, m: Contents, m': Contents)
    requires Apply(ops, m) == m
    requires AgreeOn(m, m', Keys(ops))
    ensures Apply(ops, m') == m'
  {
    ApplyAgree(ops, m, m', Keys(ops));
    var r := Apply(ops, m');
    forall k ensures (k in r <==> k in m') && (k in r ==> r[k] == m'[k]) {
      if k !in Keys(ops) {
        ApplyOutside(ops, m', k);
      }
    }
  }

  lemma {:induction false} ApplyWellKeyed(ops: seq<Op>, m: Contents)
    requires WellKeyed(m) && KeyedOps(ops)
    ensures WellKeyed(Apply(ops, m))
    decreases |ops|
  {
    if ops != [] {
      ApplyWellKeyed(ops[1..], Exec(ops[0], m));
    }
  }

  /** The result at one key depends only on the input at that key. */
  lemma {:induction false} ApplyAgreeAt(ops: seq<Op>, m: Contents, m': Contents, k: Key)
    requires (k in m <==> k in m') && (k in m ==> m[k] == m'[k])
    ensures var r, r' := Apply(ops, m), Apply(ops, m');
      (k in r <==> k in r') && (k in r ==> r[k] == r'[k])
    decreases |ops|
  {
    if ops != [] {
      ApplyAgreeAt(ops[1..], Exec(ops[0], m), Exec(ops[0], m'), k);
    }
  }

  /**
   * When every operation naming `k` is a Put, a sequence that names `k` at
   * all decides what `k` holds afterwards, whatever it held before.
   */
  lemma {:induction false} ApplyPutsDecide(ops: seq<Op>, m: Contents, m': Contents, k: Key)
    requires k in Keys(ops)
    requires forall i :: 0 <= i < |ops| && ops[i].key == k ==> ops[i].Put?
    ensures k in Apply(ops, m) && k in Apply(ops, m') && Apply(ops, m)[k] == Apply(ops, m')[k]
    decreases |ops|
  {
    var e, e' := Exec(ops[0], m), Exec(ops[0], m');
    KeysCons(ops[0], ops[1..]);
    assert [ops[0]] + ops[1..] == ops;
    if k in Keys(ops[1..]) {
      forall i | 0 <= i < |ops[1..]| && ops[1..][i].key == k
        ensures ops[1..][i].Put?
      {
        assert ops[1..][i] == ops[i + 1];
      }
      ApplyPutsDecide(ops[1..], e, e', k);
    } else {
      ApplyOutside(ops[1..], e, k);
      ApplyOutside(ops[1..], e', k);
    }
  }

  /**
   * Two phases run after each other, then both again on the result: the
   * second round changes nothing.
   */
  lemma TwoPhaseRerun(a: seq<Op>, b: seq<Op>, m: Contents)
    ensures Apply(b, Apply(a, Apply(b, Apply(a, m)))) == Apply(b, Apply(a, m))
  {
    ApplyAppend(a, b, m);
    ApplyAppend(a, b, Apply(a + b, m));
    ApplyIdempotent(a + b, m);
  }
}
