/** Facts about map union and update that the registries' loading loops rely on. */
module Maps {

  /** Overriding a key after a union is overriding it in the right operand. */
  lemma UpdateUnion<K, V>(a: map<K, V>, b: map<K, V>, k: K, v: V)
    ensures (a + b)[k := v] == a + b[k := v]
  {
  }

  /** Updating a key twice is updating it once, with the second value. */
  lemma UpdateTwice<K, V>(m: map<K, V>, k: K, v: V, w: V)
    ensures m[k := v][k := w] == m[k := w]
  {
  }

  /** The union of a sequence of maps, later maps overriding earlier ones. */
  function UnionAll<K, V>(ms: seq<map<K, V>>): map<K, V>
    decreases |ms|
  {
    if ms == [] then map[] else UnionAll(ms[..|ms| - 1]) + ms[|ms| - 1]
  }

  /** A key is in the union exactly when some map has it. */
  lemma {:induction false} UnionAllDomain<K, V>(ms: seq<map<K, V>>, k: K)
    ensures k in UnionAll(ms) <==> exists i :: 0 <= i < |ms| && k in ms[i]
    decreases |ms|
  {
    if ms != [] {
      var front := ms[..|ms| - 1];
      UnionAllDomain(front, k);
      if k in UnionAll(front) {
        var i :| 0 <= i < |front| && k in front[i];
        assert ms[i] == front[i];
      }
      if exists i :: 0 <= i < |ms| && k in ms[i] {
        var i :| 0 <= i < |ms| && k in ms[i];
        if i < |front| {
          assert front[i] == ms[i];
        }
      }
    }
  }

  /** A key of the union has the value of the last map that has it. */
  lemma {:induction false} UnionAllLastWins<K, V>(ms: seq<map<K, V>>, k: K, i: nat)
    requires i < |ms| && k in ms[i]
    requires forall j :: i < j < |ms| ==> k !in ms[j]
    ensures k in UnionAll(ms) && UnionAll(ms)[k] == ms[i][k]
    decreases |ms|
  {
    var front := ms[..|ms| - 1];
    if i < |front| {
      assert front[i] == ms[i];
      UnionAllLastWins(front, k, i);
    }
  }
}
