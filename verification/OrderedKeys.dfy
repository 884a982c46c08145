/** Iterating a `BTreeMap`: its 16-bit keys in ascending order. */
module OrderedKeys {
  import opened Octets

  predicate Ascends(s: seq<U16>) {
    forall i, j :: 0 <= i < j < |s| ==> s[i] < s[j]
  }

  lemma {:induction false} LeastBelow(keys: set<U16>, some: U16) returns (least: U16)
    requires some in keys
    ensures least in keys && forall x :: x in keys ==> least <= x
    decreases some
  {
    if lower: U16 :| lower in keys && lower < some {
      least := LeastBelow(keys, lower);
    } else {
      least := some;
    }
  }

  lemma LeastExists(keys: set<U16>)
    requires keys != {}
    ensures exists k :: k in keys && forall x :: x in keys ==> k <= x
  {
    var some :| some in keys;
    var least := LeastBelow(keys, some);
  }

  function Least(keys: set<U16>): (k: U16)
    requires keys != {}
    ensures k in keys && forall x :: x in keys ==> k <= x
  {
    LeastExists(keys);
    var k :| k in keys && forall x :: x in keys ==> k <= x;
    k
  }

  /** Every key once, in ascending order. */
  function Ascending(keys: set<U16>): (s: seq<U16>)
    ensures Ascends(s)
    ensures forall k :: k in s <==> k in keys
    ensures |s| == |keys|
    decreases |keys|
  {
    if keys == {} then []
    else
      var k := Least(keys);
      [k] + Ascending(keys - {k})
  }
}
