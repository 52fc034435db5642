/** A dictionary from prices to levels that can be read in ascending price order. */
module SortedDictionary {
  import opened Market

  type Ladder = map<real, Level>

  predicate StrictlyAscending(s: seq<real>) {
    forall i, j :: 0 <= i < j < |s| ==> s[i] < s[j]
  }

  /** `keys` is the ascending listing of the prices of `m`. */
  ghost predicate Lists(keys: seq<real>, m: Ladder) {
    && StrictlyAscending(keys)
    && (forall i :: 0 <= i < |keys| ==> keys[i] in m)
    && forall p :: p in m ==> p in keys
  }

  class SortedDict {
    var dict: Ladder
    var keys: seq<real>

    ghost predicate Valid()
      reads this
    {
      Lists(keys, dict)
    }

    constructor ()
      ensures Valid() && dict == map[]
    {
      dict := map[];
      keys := [];
    }

    function Get(price: real): Option<Level>
      reads this
    {
      if price in dict then Some(dict[price]) else None
    }

    /** The first position whose key is not below `price`. */
    method Position(price: real) returns (at: nat)
      requires Valid()
      ensures at <= |keys|
      ensures forall i :: 0 <= i < at ==> keys[i] < price
      ensures forall i :: at <= i < |keys| ==> price <= keys[i]
    {
      var lo, hi := 0, |keys|;
      while lo < hi
        invariant 0 <= lo <= hi <= |keys|
        invariant forall i :: 0 <= i < lo ==> keys[i] < price
        invariant forall i :: hi <= i < |keys| ==> price <= keys[i]
      {
        var mid := (lo + hi) / 2;
        if keys[mid] < price {
          lo := mid + 1;
        } else {
          hi := mid;
        }
      }
      at := lo;
    }

    method Set(price: real, level: Level)
      requires Valid()
      modifies this
      ensures Valid()
      ensures dict == old(dict)[price := level]
    {
      if price !in dict {
        var at := Position(price);
        assert forall i :: at <= i < |keys| ==> keys[i] in dict;
        ghost var before := keys;
        keys := keys[..at] + [price] + keys[at..];
        assert forall p :: p in keys <==> p == price || p in before by {
          assert before == before[..at] + before[at..];
        }
      }
      dict := dict[price := level];
    }

    /** Removes `price`; a price that is not held is left alone. */
    method Pop(price: real)
      requires Valid()
      modifies this
      ensures Valid()
      ensures dict == old(dict) - {price}
    {
      if price in dict {
        var at := Position(price);
        assert keys[at] == price;
        ghost var before := keys;
        keys := keys[..at] + keys[at + 1..];
        assert before == before[..at] + [price] + before[at + 1..];
        assert forall p :: p in keys <==> p != price && p in before by {
          assert price !in before[..at] && price !in before[at + 1..];
        }
      }
      dict := dict - {price};
    }
  }

  /** An ascending listing is as long as the side it lists. */
  lemma {:induction false} ListingLength(keys: seq<real>, m: Ladder)
    requires Lists(keys, m)
    ensures |keys| == |m|
  {
    if keys == [] {
      if m.Keys != {} {
        var p := Pick(m.Keys);
        assert false;
      }
    } else {
      var n := |keys| - 1;
      ListsInit(keys, m);
      ListingLength(keys[..n], m - {keys[n]});
      assert (m - {keys[n]}).Keys == m.Keys - {keys[n]};
    }
  }

  lemma ListsTail(keys: seq<real>, m: Ladder)
    requires Lists(keys, m) && keys != []
    ensures Lists(keys[1..], m - {keys[0]})
  {
    assert keys == [keys[0]] + keys[1..];
  }

  lemma ListsInit(keys: seq<real>, m: Ladder)
    requires Lists(keys, m) && keys != []
    ensures Lists(keys[..|keys| - 1], m - {keys[|keys| - 1]})
  {
    assert keys == keys[..|keys| - 1] + [keys[|keys| - 1]];
  }
}
