/**
 * The iteration order of a stable B-tree map whose keys are ids handed out by
 * a counter: every key is below the counter, and iteration visits the keys in
 * ascending order. `KeysBelow(m, n)` lists the keys of `m` below `n` in that
 * order, `ValuesBelow(m, n)` the values stored under them.
 */
module KeyOrder {

  ghost predicate StrictlyIncreasing(ks: seq<nat>) {
    forall i, j :: 0 <= i < j < |ks| ==> ks[i] < ks[j]
  }

  function KeysBelow<V>(m: map<nat, V>, n: nat): (ks: seq<nat>)
    ensures StrictlyIncreasing(ks)
    ensures forall k :: k in ks <==> k in m && k < n
  {
    if n == 0 then []
    else
      var ks := KeysBelow(m, n - 1);
      assert forall i :: 0 <= i < |ks| ==> ks[i] < n - 1 by {
        forall i | 0 <= i < |ks| ensures ks[i] < n - 1 {
          assert ks[i] in ks;
        }
      }
      ks + (if n - 1 in m then [n - 1] else [])
  }

  function ValuesBelow<V>(m: map<nat, V>, n: nat): (vs: seq<V>)
    ensures |vs| == |KeysBelow(m, n)|
    ensures forall i :: 0 <= i < |vs| ==> KeysBelow(m, n)[i] in m && vs[i] == m[KeysBelow(m, n)[i]]
  {
    if n == 0 then []
    else ValuesBelow(m, n - 1) + (if n - 1 in m then [m[n - 1]] else [])
  }

  /** When every key is below the bound, the listing holds every entry of the map. */
  lemma {:induction false} KeysBelowComplete<V>(m: map<nat, V>, n: nat)
    requires forall k :: k in m ==> k < n
    ensures |KeysBelow(m, n)| == |m|
  {
    var ks := KeysBelow(m, n);
    DistinctCardinality(ks);
    assert Elements(ks) == m.Keys;
  }

  /** ... and, as a set of values, exactly the values of the map. */
  lemma ValuesBelowComplete<V>(m: map<nat, V>, n: nat)
    requires forall k :: k in m ==> k < n
    ensures |ValuesBelow(m, n)| == |m|
    ensures forall v :: v in ValuesBelow(m, n) ==> v in m.Values
    ensures forall v :: v in m.Values ==> v in ValuesBelow(m, n)
  {
    KeysBelowComplete(m, n);
    var ks := KeysBelow(m, n);
    var vs := ValuesBelow(m, n);
    forall v | v in m.Values ensures v in vs {
      var k :| k in m && m[k] == v;
      assert k in ks;
      var i :| 0 <= i < |ks| && ks[i] == k;
      assert vs[i] == v;
    }
  }

  ghost function Elements(ks: seq<nat>): (s: set<nat>)
    ensures forall k :: k in s <==> k in ks
  {
    if ks == [] then {} else {ks[0]} + Elements(ks[1..])
  }

  lemma {:induction false} DistinctCardinality(ks: seq<nat>)
    requires StrictlyIncreasing(ks)
    ensures |Elements(ks)| == |ks|
  {
    if ks != [] {
      var rest := ks[1..];
      assert StrictlyIncreasing(rest) by {
        forall i, j | 0 <= i < j < |rest| ensures rest[i] < rest[j] {
          assert rest[i] == ks[i + 1] && rest[j] == ks[j + 1];
        }
      }
      DistinctCardinality(rest);
      assert ks[0] !in rest by {
        forall i | 0 <= i < |rest| ensures ks[0] < rest[i] {
          assert rest[i] == ks[i + 1];
        }
      }
    }
  }
}
