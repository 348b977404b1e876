/** Parallel lists as finite maps: the shape of every table the controller and the mock backend keep. */
module Tables {

  /** Two parallel lists without repeated keys stand for the finite map `m`. */
  ghost predicate Represents<K, V>(keys: seq<K>, values: seq<V>, m: map<K, V>) {
    && |keys| == |values| == |m|
    && (forall i, j :: 0 <= i < j < |keys| ==> keys[i] != keys[j])
    && (forall i :: 0 <= i < |keys| ==> keys[i] in m && m[keys[i]] == values[i])
    && (forall k :: k in m ==> k in keys)
  }

  lemma RepresentsAppend<K, V>(keys: seq<K>, values: seq<V>, m: map<K, V>, k: K, v: V)
    requires Represents(keys, values, m) && k !in m
    ensures Represents(keys + [k], values + [v], m[k := v])
  {
  }

  lemma RepresentsUpdate<K, V>(keys: seq<K>, values: seq<V>, m: map<K, V>, i: nat, v: V)
    requires Represents(keys, values, m) && i < |keys|
    ensures Represents(keys, values[i := v], m[keys[i] := v])
  {
    assert m[keys[i] := v].Keys == m.Keys;
  }

  /** The shift that closes the gap. */
  function Without<T>(s: seq<T>, i: nat): (r: seq<T>)
    requires i < |s|
    ensures |r| == |s| - 1
    ensures forall j :: 0 <= j < i ==> r[j] == s[j]
    ensures forall j :: i <= j < |r| ==> r[j] == s[j + 1]
  {
    s[..i] + s[i + 1..]
  }

  lemma RepresentsRemove<K, V>(keys: seq<K>, values: seq<V>, m: map<K, V>, i: nat)
    requires Represents(keys, values, m) && i < |keys|
    ensures Represents(Without(keys, i), Without(values, i), m - {keys[i]})
  {
    var rest := Without(keys, i);
    var m' := m - {keys[i]};
    assert m'.Keys == m.Keys - {keys[i]};
    forall k | k in m' ensures k in rest {
      var j :| 0 <= j < |keys| && keys[j] == k;
      assert rest[if j < i then j else j - 1] == k;
    }
    forall a, b | 0 <= a < b < |rest| ensures rest[a] != rest[b] {
      var a', b' := if a < i then a else a + 1, if b < i then b else b + 1;
      assert rest[a] == keys[a'] && rest[b] == keys[b'];
    }
  }
}
