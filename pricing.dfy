/** Cart totals: the sum of the prices of the entries of a cart. */
module Pricing {
  import opened Catalog
  import opened Offsets

  /** The sum of `price` over every entry of `s` (reference definition). */
  function Total(s: seq<Product>): real
  {
    if s == [] then 0.0 else s[0].price + Total(s[1..])
  }

  /** `reduce(acc) { $0 + $1.price }`: the left fold that `totalPrice` runs,
      starting from the accumulator `acc`. */
  function FoldPrices(acc: real, s: seq<Product>): (r: real)
    ensures r == acc + Total(s)
    decreases s
  {
    if s == [] then acc else FoldPrices(acc + s[0].price, s[1..])
  }

  /** The total of two carts laid end to end is the sum of their totals. */
  lemma {:induction false} TotalConcat(s: seq<Product>, t: seq<Product>)
    ensures Total(s + t) == Total(s) + Total(t)
  {
    if s == [] {
      assert s + t == t;
    } else {
      assert (s + t)[1..] == s[1..] + t;
      TotalConcat(s[1..], t);
    }
  }

  /** Appending one product adds exactly its price. */
  lemma TotalAppend(s: seq<Product>, p: Product)
    ensures Total(s + [p]) == Total(s) + p.price
  {
    TotalConcat(s, [p]);
    assert [p][1..] == [];
  }

  /** When `t` is a rearrangement of a non-empty `s`, some entry `j` of `t` is
      `s[0]`, and the rest of `t` is a rearrangement of the rest of `s`. */
  lemma PermutationSplit(s: seq<Product>, t: seq<Product>) returns (j: nat)
    requires s != [] && multiset(s) == multiset(t)
    ensures j < |t| && t[j] == s[0]
    ensures t == t[..j] + [s[0]] + t[j + 1..]
    ensures multiset(s[1..]) == multiset(t[..j] + t[j + 1..])
  {
    assert s[0] in multiset(t);
    j :| 0 <= j < |t| && t[j] == s[0];
    assert s == [s[0]] + s[1..];
    assert t == t[..j] + [t[j]] + t[j + 1..];
    assert multiset(s[1..]) == multiset(s) - multiset{s[0]};
    assert multiset(t[..j] + t[j + 1..]) == multiset(t) - multiset{t[j]};
  }

  /** The total depends only on the multiset of entries, not on their order. */
  lemma {:induction false} TotalPermutation(s: seq<Product>, t: seq<Product>)
    requires multiset(s) == multiset(t)
    ensures Total(s) == Total(t)
  {
    if s == [] {
      assert |t| == |multiset(t)| == 0;
    } else {
      var j := PermutationSplit(s, t);
      var p, before, after := s[0], t[..j], t[j + 1..];
      calc {
        Total(s);
        p.price + Total(s[1..]);
        { TotalPermutation(s[1..], before + after); }
        p.price + Total(before + after);
        { TotalConcat(before, after); }
        Total(before) + p.price + Total(after);
        { TotalAppend(before, p); }
        Total(before + [p]) + Total(after);
        { TotalConcat(before + [p], after); }
        Total(t);
      }
    }
  }

  /** Adding the same product twice keeps two entries for it, and both count
      toward the total: the cart does not merge duplicates. */
  lemma AddTwiceCountsTwice(s: seq<Product>, p: Product)
    ensures var t := s + [p] + [p];
      && |t| == |s| + 2 && t[|s|] == p && t[|s| + 1] == p
      && multiset(t)[p] == multiset(s)[p] + 2
      && Total(t) == Total(s) + 2.0 * p.price
  {
    TotalAppend(s, p);
    TotalAppend(s + [p], p);
  }

  /** After `remove(atOffsets:)`, the total is the old total minus the prices
      of the removed entries. */
  lemma RemoveAtTotal(s: seq<Product>, offsets: set<nat>)
    ensures Total(RemoveAt(s, offsets)) == Total(s) - Total(EntriesAt(s, offsets))
  {
    RemoveAtPartition(s, offsets);
    TotalPermutation(RemoveAt(s, offsets) + EntriesAt(s, offsets), s);
    TotalConcat(RemoveAt(s, offsets), EntriesAt(s, offsets));
  }
}
