/**
 * A sequence of map inserts applied in order, as the card store's load loop
 * does with `BTreeMap::insert`: each `Some((key, value))` inserts or
 * overwrites, each `None` is an entry the loop skipped.
 */
module Inserts {
  import opened Wrappers

  /** The map after applying `ops` in order to an empty map. */
  function Applied<V>(ops: seq<Option<(nat, V)>>): (m: map<nat, V>)
    ensures |m| <= |ops|
  {
    if ops == [] then map[]
    else
      var last := ops[|ops| - 1];
      var m := Applied(ops[..|ops| - 1]);
      if last.Some? then m[last.value.0 := last.value.1] else m
  }

  /** Operation `i` inserts under `key`. */
  predicate InsertsAt<V>(ops: seq<Option<(nat, V)>>, key: nat, i: int) {
    0 <= i < |ops| && ops[i].Some? && ops[i].value.0 == key
  }

  /** Operation `i` is the last one inserting under `key`. */
  predicate LastInsertAt<V>(ops: seq<Option<(nat, V)>>, key: nat, i: int) {
    InsertsAt(ops, key, i) && forall j :: i < j < |ops| ==> !InsertsAt(ops, key, j)
  }

  lemma AppliedSnoc<V>(ops: seq<Option<(nat, V)>>, op: Option<(nat, V)>)
    ensures Applied(ops + [op]) == if op.Some? then Applied(ops)[op.value.0 := op.value.1] else Applied(ops)
  {
    assert (ops + [op])[..|ops|] == ops;
  }

  /** A skipped operation changes nothing, wherever it stands. */
  lemma {:induction false} SkipIgnored<V>(before: seq<Option<(nat, V)>>, after: seq<Option<(nat, V)>>)
    ensures Applied(before + [None] + after) == Applied(before + after)
    decreases |after|
  {
    if after == [] {
      assert before + [None] + after == before + [None];
      assert before + after == before;
      AppliedSnoc(before, None);
    } else {
      var rest, x := after[..|after| - 1], after[|after| - 1];
      assert before + [None] + after == (before + [None] + rest) + [x];
      assert before + after == (before + rest) + [x];
      AppliedSnoc(before + [None] + rest, x);
      AppliedSnoc(before + rest, x);
      SkipIgnored(before, rest);
    }
  }

  /** A key is in the result exactly when some operation inserts under it. */
  lemma {:induction false} AppliedKeys<V>(ops: seq<Option<(nat, V)>>, key: nat)
    ensures key in Applied(ops) <==> exists i :: InsertsAt(ops, key, i)
  {
    if ops != [] {
      var n := |ops| - 1;
      var prefix := ops[..n];
      assert ops == prefix + [ops[n]];
      AppliedSnoc(prefix, ops[n]);
      AppliedKeys(prefix, key);
      if exists i :: InsertsAt(prefix, key, i) {
        var i :| InsertsAt(prefix, key, i);
        assert InsertsAt(ops, key, i);
      }
      if InsertsAt(ops, key, n) {
        assert key in Applied(ops);
      }
      if exists i :: InsertsAt(ops, key, i) {
        var i :| InsertsAt(ops, key, i);
        assert i < n ==> InsertsAt(prefix, key, i);
      }
    }
  }

  /** Under each key lies the value of the last operation inserting under it. */
  lemma {:induction false} AppliedValue<V>(ops: seq<Option<(nat, V)>>, key: nat, i: nat)
    requires LastInsertAt(ops, key, i)
    ensures key in Applied(ops) && Applied(ops)[key] == ops[i].value.1
  {
    var n := |ops| - 1;
    var prefix := ops[..n];
    assert ops == prefix + [ops[n]];
    AppliedSnoc(prefix, ops[n]);
    if i < n {
      assert !InsertsAt(ops, key, n);
      forall j | i < j < |prefix| ensures !InsertsAt(prefix, key, j) {
        assert !InsertsAt(ops, key, j);
      }
      AppliedValue(prefix, key, i);
    }
  }
}
