/**
 * `HashMap` iteration, whose order Java leaves unspecified: each key once, in an order the model
 * leaves open, and `AbstractMap.toString`, which lists the entries in that order.
 */
module JavaMaps {
  import opened JavaText

  /** Each key of the map exactly once: the order a HashMap's entry set visits them in. */
  predicate IsEnumeration(keys: seq<string>, m: map<string, string>) {
    && (forall i | 0 <= i < |keys| :: keys[i] in m)
    && (forall k | k in m :: k in keys)
    && (forall i, j | 0 <= i < j < |keys| :: keys[i] != keys[j])
  }

  /** `headers.entrySet()`: its keys, each once, in an order the model leaves open. */
  method EntryOrder(m: map<string, string>) returns (keys: seq<string>)
    ensures IsEnumeration(keys, m)
  {
    keys := [];
    var remaining := m.Keys;
    while remaining != {}
      invariant remaining <= m.Keys
      invariant forall i | 0 <= i < |keys| :: keys[i] in m && keys[i] !in remaining
      invariant forall k | k in m :: k in remaining || k in keys
      invariant forall i, j | 0 <= i < j < |keys| :: keys[i] != keys[j]
      decreases remaining
    {
      var k :| k in remaining;
      keys := keys + [k];
      remaining := remaining - {k};
    }
  }

  /** The entries as "key=value", in the order the keys are visited. */
  function Entries(m: map<string, string>, keys: seq<string>): (r: seq<string>)
    ensures |r| <= |keys|
    decreases |keys|
  {
    if keys == [] then []
    else if keys[0] in m then [keys[0] + "=" + m[keys[0]]] + Entries(m, keys[1..])
    else Entries(m, keys[1..])
  }

  /** `toString()`: the entries between braces, separated by ", ". */
  function MapText(m: map<string, string>, keys: seq<string>): string {
    "{" + Join(Entries(m, keys), ", ") + "}"
  }

  /** An enumeration lists every entry once: as many entries as the map has keys. */
  lemma {:induction false} EntriesOfEnumeration(m: map<string, string>, keys: seq<string>)
    requires forall i | 0 <= i < |keys| :: keys[i] in m
    ensures |Entries(m, keys)| == |keys|
    ensures forall i | 0 <= i < |keys| :: Entries(m, keys)[i] == keys[i] + "=" + m[keys[i]]
    decreases |keys|
  {
    if keys != [] {
      assert forall i | 0 <= i < |keys[1..]| :: keys[1..][i] == keys[i + 1];
      EntriesOfEnumeration(m, keys[1..]);
    }
  }
}
