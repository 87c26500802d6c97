/** A Python dict filled by a sequence of writes `d[k] = v`, where a later
    write to a key replaces the earlier one. */
module Dict {
  import opened Common

  /** The dict obtained by performing `writes` in order on an empty dict:
      `Some((k, v))` stores `v` under `k`; `None` stores nothing. */
  function Build<K, V>(writes: seq<Option<(K, V)>>): map<K, V>
  {
    if writes == [] then map[]
    else
      var d := Build(writes[..|writes| - 1]);
      match writes[|writes| - 1]
      case None => d
      case Some(kv) => d[kv.0 := kv.1]
  }

  /** One more write updates the dict it is performed on. */
  lemma BuildStep<K, V>(writes: seq<Option<(K, V)>>, w: Option<(K, V)>)
    ensures Build(writes + [w]) ==
      match w
      case None => Build(writes)
      case Some(kv) => Build(writes)[kv.0 := kv.1]
  {
    assert (writes + [w])[..|writes|] == writes;
  }

  /** Write number `i` stores something under `k`. */
  ghost predicate WritesAt<K, V>(writes: seq<Option<(K, V)>>, i: int, k: K)
  {
    0 <= i < |writes| && writes[i].Some? && writes[i].value.0 == k
  }

  /** Write number `i` is the last one that stores something under `k`. */
  ghost predicate LastWriteAt<K, V>(writes: seq<Option<(K, V)>>, i: int, k: K)
  {
    WritesAt(writes, i, k) && forall j :: i < j < |writes| ==> !WritesAt(writes, j, k)
  }

  /** A key is in the dict exactly when some write stores under it. */
  lemma {:induction false} BuildKeys<K, V>(writes: seq<Option<(K, V)>>)
    ensures forall k :: k in Build(writes) <==> exists i :: WritesAt(writes, i, k)
  {
    if writes != [] {
      var n := |writes| - 1;
      var p := writes[..n];
      BuildKeys(p);
      forall k
        ensures k in Build(writes) <==> exists i :: WritesAt(writes, i, k)
      {
        if k in Build(writes) && !WritesAt(writes, n, k) {
          assert k in Build(p);
          var i :| WritesAt(p, i, k);
          assert WritesAt(writes, i, k);
        }
        if exists i :: WritesAt(writes, i, k) {
          var i :| WritesAt(writes, i, k);
          if i < n {
            assert WritesAt(p, i, k);
          }
        }
      }
    }
  }

  /** The last write to a key decides its value. */
  lemma {:induction false} BuildLastWrite<K, V>(writes: seq<Option<(K, V)>>, i: int, k: K)
    requires LastWriteAt(writes, i, k)
    ensures k in Build(writes) && Build(writes)[k] == writes[i].value.1
  {
    var n := |writes| - 1;
    var p := writes[..n];
    if i < n {
      assert !WritesAt(writes, n, k);
      assert WritesAt(p, i, k);
      forall j | i < j < |p|
        ensures !WritesAt(p, j, k)
      {
        assert !WritesAt(writes, j, k);
      }
      BuildLastWrite(p, i, k);
    }
  }

  /** Every value in the dict is the one its key's last write stored. */
  lemma {:induction false} BuildValueIsLastWrite<K, V>(writes: seq<Option<(K, V)>>, k: K)
    requires k in Build(writes)
    ensures exists i :: LastWriteAt(writes, i, k) && Build(writes)[k] == writes[i].value.1
  {
    var n := |writes| - 1;
    var p := writes[..n];
    if WritesAt(writes, n, k) {
      assert LastWriteAt(writes, n, k);
    } else {
      BuildValueIsLastWrite(p, k);
      var i :| LastWriteAt(p, i, k) && Build(p)[k] == p[i].value.1;
      assert WritesAt(writes, i, k);
      forall j | i < j < |writes|
        ensures !WritesAt(writes, j, k)
      {
        if j < n {
          assert !WritesAt(p, j, k);
        }
      }
      assert LastWriteAt(writes, i, k);
    }
  }
}
