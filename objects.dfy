/** The operations on plain JavaScript objects (string-keyed records) that the hooks'
    state updaters are built from. A map stands for an object and its own keys. */
module Objects {

  /** `{ ...prev, [key]: value }`: `key` now holds `value`, every other key keeps its value. */
  function With<V>(prev: map<string, V>, key: string, value: V): (next: map<string, V>)
    ensures next.Keys == prev.Keys + {key}
    ensures next[key] == value
    ensures forall k :: k in prev && k != key ==> next[k] == prev[k]
  {
    prev[key := value]
  }

  /** `const copy = { ...prev }; delete copy[key]; copy`: drops `key` and nothing else. */
  function Without<V>(prev: map<string, V>, key: string): (next: map<string, V>)
    ensures next.Keys == prev.Keys - {key}
    ensures forall k :: k in next ==> next[k] == prev[k]
    ensures key !in prev ==> next == prev
  {
    prev - {key}
  }

  /** No position after `i` repeats the key at `i`. */
  predicate LastOccurrence(keys: seq<string>, i: nat)
    requires i < |keys|
  {
    forall j :: i < j < |keys| ==> keys[j] != keys[i]
  }

  /** `Object.fromEntries` of the pairs `[keys[i], values[i]]` in order: the keys are exactly
      the listed ones, and a key's value is the one paired with its last occurrence. */
  function FromEntries<V>(keys: seq<string>, values: seq<V>): (r: map<string, V>)
    requires |keys| == |values|
    ensures r.Keys == set k | k in keys
    ensures forall i :: 0 <= i < |keys| && LastOccurrence(keys, i) ==> r[keys[i]] == values[i]
    decreases |keys|
  {
    if keys == [] then map[]
    else
      var n := |keys| - 1;
      var earlier := FromEntries(keys[..n], values[..n]);
      assert keys == keys[..n] + [keys[n]];
      assert (set k | k in keys) == (set k | k in keys[..n]) + {keys[n]};
      assert forall i :: 0 <= i < n && LastOccurrence(keys, i) ==>
          keys[..n][i] == keys[i] && LastOccurrence(keys[..n], i) && keys[i] != keys[n];
      earlier[keys[n] := values[n]]
  }

  /** With distinct keys, every pair is entered as given. */
  lemma FromDistinctEntries<V>(keys: seq<string>, values: seq<V>, i: nat)
    requires |keys| == |values| && i < |keys|
    requires forall a, b :: 0 <= a < b < |keys| ==> keys[a] != keys[b]
    ensures FromEntries(keys, values)[keys[i]] == values[i]
  {
    assert LastOccurrence(keys, i);
  }

  /** Every value `Object.fromEntries` holds came from a pair with that key. */
  lemma {:induction false} FromEntriesProvenance<V>(keys: seq<string>, values: seq<V>, k: string)
    requires |keys| == |values|
    requires k in keys
    ensures k in FromEntries(keys, values)
    ensures exists i :: 0 <= i < |keys| && keys[i] == k && FromEntries(keys, values)[k] == values[i]
    decreases |keys|
  {
    var n := |keys| - 1;
    if keys[n] != k {
      FromEntriesProvenance(keys[..n], values[..n], k);
      var i :| 0 <= i < n && keys[..n][i] == k && FromEntries(keys[..n], values[..n])[k] == values[..n][i];
      assert keys[i] == k && FromEntries(keys, values)[k] == values[i];
    }
  }
}
