/** Removing the entries of a sequence at a set of offsets, keeping the order
    of the rest: the meaning of Swift's `remove(atOffsets:)` on an array. */
module Offsets {

  /** The entries of `s` whose index is in `offsets` (when `inOffsets`) or is
      not in `offsets` (otherwise), in their original order. */
  function Filter<T>(s: seq<T>, offsets: set<nat>, inOffsets: bool): seq<T>
  {
    if s == [] then []
    else
      var n := |s| - 1;
      Filter(s[..n], offsets, inOffsets) + (if (n in offsets) == inOffsets then [s[n]] else [])
  }

  /** The indices below `n` that are (or are not) in `offsets`, ascending. */
  function Positions(n: nat, offsets: set<nat>, inOffsets: bool): seq<nat>
  {
    if n == 0 then []
    else Positions(n - 1, offsets, inOffsets) + (if (n - 1 in offsets) == inOffsets then [n - 1] else [])
  }

  /** What `remove(atOffsets: offsets)` leaves in the array: entry `j` is the
      entry of `s` at the `j`-th index outside `offsets`. */
  function RemoveAt<T>(s: seq<T>, offsets: set<nat>): (r: seq<T>)
    ensures |r| == |Positions(|s|, offsets, false)|
    ensures forall j :: 0 <= j < |r| ==>
      Positions(|s|, offsets, false)[j] < |s| && Positions(|s|, offsets, false)[j] !in offsets &&
      r[j] == s[Positions(|s|, offsets, false)[j]]
  {
    FilterAtPositions(s, offsets, false);
    PositionsSpec(|s|, offsets, false);
    Filter(s, offsets, false)
  }

  /** The entries that `remove(atOffsets: offsets)` takes out, in order:
      entry `j` is the entry of `s` at the `j`-th index in `offsets`. */
  function EntriesAt<T>(s: seq<T>, offsets: set<nat>): (r: seq<T>)
    ensures |r| == |Positions(|s|, offsets, true)|
    ensures forall j :: 0 <= j < |r| ==>
      Positions(|s|, offsets, true)[j] < |s| && Positions(|s|, offsets, true)[j] in offsets &&
      r[j] == s[Positions(|s|, offsets, true)[j]]
  {
    FilterAtPositions(s, offsets, true);
    PositionsSpec(|s|, offsets, true);
    Filter(s, offsets, true)
  }

  /** `Positions` lists, strictly ascending, exactly the indices below `n`
      whose membership in `offsets` is `inOffsets`. */
  lemma {:induction false} PositionsSpec(n: nat, offsets: set<nat>, inOffsets: bool)
    ensures var ps := Positions(n, offsets, inOffsets);
      && (forall j :: 0 <= j < |ps| ==> ps[j] < n && (ps[j] in offsets) == inOffsets)
      && (forall j, k :: 0 <= j < k < |ps| ==> ps[j] < ps[k])
      && (forall i :: 0 <= i < n && (i in offsets) == inOffsets ==> i in ps)
  {
    if n > 0 {
      PositionsSpec(n - 1, offsets, inOffsets);
    }
  }

  /** Entry `j` of the filtered sequence is the entry of `s` at the `j`-th
      selected position. */
  lemma {:induction false} FilterAtPositions<T>(s: seq<T>, offsets: set<nat>, inOffsets: bool)
    ensures var r, ps := Filter(s, offsets, inOffsets), Positions(|s|, offsets, inOffsets);
      && |r| == |ps|
      && forall j :: 0 <= j < |r| ==> ps[j] < |s| && r[j] == s[ps[j]]
  {
    if s != [] {
      var n := |s| - 1;
      FilterAtPositions(s[..n], offsets, inOffsets);
      PositionsSpec(n, offsets, inOffsets);
    }
  }

  /** Filtering depends only on which indices of `s` are in `offsets`. */
  lemma {:induction false} FilterOnlyInRange<T>(s: seq<T>, o1: set<nat>, o2: set<nat>, inOffsets: bool)
    requires forall i :: 0 <= i < |s| ==> (i in o1 <==> i in o2)
    ensures Filter(s, o1, inOffsets) == Filter(s, o2, inOffsets)
  {
    if s != [] {
      FilterOnlyInRange(s[..|s| - 1], o1, o2, inOffsets);
    }
  }

  /** The multiset of a non-empty sequence is that of all but its last entry,
      plus the last entry. */
  lemma MultisetSnoc<T>(s: seq<T>)
    requires s != []
    ensures multiset(s) == multiset(s[..|s| - 1]) + multiset{s[|s| - 1]}
  {
    assert s == s[..|s| - 1] + [s[|s| - 1]];
  }

  /** Every entry lands on exactly one side: the survivors and the removed
      entries together are the original entries. */
  lemma {:induction false} RemoveAtPartition<T>(s: seq<T>, offsets: set<nat>)
    ensures multiset(RemoveAt(s, offsets)) + multiset(EntriesAt(s, offsets)) == multiset(s)
  {
    if s != [] {
      var n := |s| - 1;
      RemoveAtPartition(s[..n], offsets);
      MultisetSnoc(s);
    }
  }

  /** With every offset a valid index, exactly `|offsets|` entries are removed. */
  lemma {:induction false} EntriesAtCount<T>(s: seq<T>, offsets: set<nat>)
    requires forall o :: o in offsets ==> o < |s|
    ensures |EntriesAt(s, offsets)| == |offsets|
  {
    if s != [] {
      var n := |s| - 1;
      var rest := offsets - {n};
      FilterOnlyInRange(s[..n], offsets, rest, true);
      EntriesAtCount(s[..n], rest);
      if n in offsets {
        assert offsets == rest + {n};
      } else {
        assert offsets == rest;
      }
    }
  }

  /** `remove(atOffsets:)` with valid offsets: the length drops by the number
      of distinct offsets, and the survivors are exactly the entries of `s` at
      the indices outside `offsets`, unchanged and in their original order. */
  lemma RemoveAtSpec<T>(s: seq<T>, offsets: set<nat>)
    requires forall o :: o in offsets ==> o < |s|
    ensures |RemoveAt(s, offsets)| == |s| - |offsets|
    ensures var r, ps := RemoveAt(s, offsets), Positions(|s|, offsets, false);
      && |r| == |ps|
      && (forall j :: 0 <= j < |r| ==> ps[j] < |s| && ps[j] !in offsets && r[j] == s[ps[j]])
      && (forall j, k :: 0 <= j < k < |ps| ==> ps[j] < ps[k])
      && (forall i :: 0 <= i < |s| && i !in offsets ==> i in ps)
  {
    RemoveAtPartition(s, offsets);
    assert |multiset(RemoveAt(s, offsets))| + |multiset(EntriesAt(s, offsets))| == |multiset(s)|;
    EntriesAtCount(s, offsets);
    PositionsSpec(|s|, offsets, false);
  }

  /** Offsets that miss every index remove nothing. */
  lemma {:induction false} RemoveAtNone<T>(s: seq<T>, offsets: set<nat>)
    requires forall i :: 0 <= i < |s| ==> i !in offsets
    ensures RemoveAt(s, offsets) == s
  {
    if s != [] {
      RemoveAtNone(s[..|s| - 1], offsets);
    }
  }

  /** Swiping away the single row `i` removes just the entry at `i`. */
  lemma {:induction false} RemoveAtSingle<T>(s: seq<T>, i: nat)
    requires i < |s|
    ensures RemoveAt(s, {i}) == s[..i] + s[i + 1..]
  {
    var n := |s| - 1;
    if i == n {
      RemoveAtNone(s[..n], {i});
    } else {
      RemoveAtSingle(s[..n], i);
      assert s[..n][..i] + s[..n][i + 1..] + [s[n]] == s[..i] + s[i + 1..];
    }
  }
}
