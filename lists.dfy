/**
 * Python list operations used on lists of paths and names: filtering by
 * comprehension, `list.remove`, `pop`/`insert`, and de-duplication that keeps
 * the first occurrence.
 */
module Lists {

  /** `[y for y in s if y != x]`. */
  function Without<T(==)>(s: seq<T>, x: T): (r: seq<T>)
    ensures |r| <= |s|
    decreases |s|
  {
    if |s| == 0 then []
    else if s[0] == x then Without(s[1..], x)
    else [s[0]] + Without(s[1..], x)
  }

  /** Filtering removes every copy of `x` and keeps every other element with its multiplicity. */
  lemma {:induction false} WithoutSpec<T>(s: seq<T>, x: T)
    ensures x !in Without(s, x)
    ensures multiset(Without(s, x)) == multiset(s)[x := 0]
    decreases |s|
  {
    if |s| > 0 {
      WithoutSpec(s[1..], x);
      assert s == [s[0]] + s[1..];
      assert multiset(s) == multiset{s[0]} + multiset(s[1..]);
    }
  }

  /** Filtering a list that lacks `x` changes nothing. */
  lemma {:induction false} WithoutAbsent<T>(s: seq<T>, x: T)
    requires x !in s
    ensures Without(s, x) == s
    decreases |s|
  {
    if |s| > 0 {
      WithoutAbsent(s[1..], x);
      assert s == [s[0]] + s[1..];
    }
  }

  /** `s.remove(x)` when `x in s`; `s` unchanged otherwise (the caller's `in` test). */
  function RemoveFirst<T(==)>(s: seq<T>, x: T): (r: seq<T>)
    decreases |s|
  {
    if |s| == 0 then []
    else if s[0] == x then s[1..]
    else [s[0]] + RemoveFirst(s[1..], x)
  }

  /** `remove` takes away exactly one copy of `x` when there is one, and nothing else. */
  lemma {:induction false} RemoveFirstSpec<T>(s: seq<T>, x: T)
    ensures x in s ==> multiset(RemoveFirst(s, x)) == multiset(s) - multiset{x}
    ensures x in s ==> |RemoveFirst(s, x)| == |s| - 1
    ensures x !in s ==> RemoveFirst(s, x) == s
    decreases |s|
  {
    if |s| > 0 {
      RemoveFirstSpec(s[1..], x);
      assert s == [s[0]] + s[1..];
      assert multiset(s) == multiset{s[0]} + multiset(s[1..]);
    }
  }

  /** `remove` takes out the copy at the first index holding `x`. */
  lemma {:induction false} RemoveFirstAt<T>(s: seq<T>, i: nat, x: T)
    requires i < |s| && s[i] == x && x !in s[..i]
    ensures RemoveFirst(s, x) == s[..i] + s[i + 1..]
    decreases i
  {
    if i > 0 {
      assert s[1..][..i - 1] == s[1..i];
      assert x !in s[1..][..i - 1];
      RemoveFirstAt(s[1..], i - 1, x);
    }
  }

  /** Removing an element by position: `del s[i]`. */
  function RemoveAt<T>(s: seq<T>, i: nat): (r: seq<T>)
    requires i < |s|
    ensures |r| == |s| - 1
    ensures forall k :: 0 <= k < i ==> r[k] == s[k]
    ensures forall k :: i <= k < |r| ==> r[k] == s[k + 1]
  {
    s[..i] + s[i + 1..]
  }

  /** `s.insert(i, x)`: Python clamps an index past the end to an append. */
  function Insert<T>(s: seq<T>, i: nat, x: T): (r: seq<T>)
    ensures |r| == |s| + 1
    ensures multiset(r) == multiset(s) + multiset{x}
  {
    var k := if i <= |s| then i else |s|;
    assert s == s[..k] + s[k..];
    s[..k] + [x] + s[k..]
  }

  /** `s.insert(to, s.pop(from))`, which is also how a host collection's `move(from, to)`
      behaves for indices inside the list. */
  function MoveItem<T>(s: seq<T>, from: nat, to: nat): (r: seq<T>)
    requires from < |s|
  {
    Insert(RemoveAt(s, from), to, s[from])
  }

  /** Moving an item is a permutation: same length, same elements, same multiplicities. */
  lemma MoveItemPermutes<T>(s: seq<T>, from: nat, to: nat)
    requires from < |s|
    ensures |MoveItem(s, from, to)| == |s|
    ensures multiset(MoveItem(s, from, to)) == multiset(s)
  {
    assert s == s[..from] + [s[from]] + s[from + 1..];
  }

  /** The moved item lands at the requested index when it is inside the list. */
  lemma MoveItemLands<T>(s: seq<T>, from: nat, to: nat)
    requires from < |s| && to < |s|
    ensures MoveItem(s, from, to)[to] == s[from]
  {
  }

  /** Moving an item one place down swaps it with the next one and changes nothing else. */
  lemma MoveDownSwaps<T>(s: seq<T>, i: nat)
    requires i + 1 < |s|
    ensures MoveItem(s, i, i + 1) == s[i := s[i + 1]][i + 1 := s[i]]
  {
    var m := RemoveAt(s, i);
    var r := MoveItem(s, i, i + 1);
    var w := s[i := s[i + 1]][i + 1 := s[i]];
    assert r == m[..i + 1] + [s[i]] + m[i + 1..];
    forall k | 0 <= k < |s| ensures r[k] == w[k] {
      if k < i + 1 {
        assert r[k] == m[k];
      } else if k > i + 1 {
        assert r[k] == m[k - 1];
      }
    }
  }

  /** Moving an item one place up swaps it with the previous one and changes nothing else. */
  lemma MoveUpSwaps<T>(s: seq<T>, i: nat)
    requires 0 < i < |s|
    ensures MoveItem(s, i, i - 1) == s[i := s[i - 1]][i - 1 := s[i]]
  {
    var m := RemoveAt(s, i);
    var r := MoveItem(s, i, i - 1);
    var w := s[i := s[i - 1]][i - 1 := s[i]];
    assert r == m[..i - 1] + [s[i]] + m[i - 1..];
    forall k | 0 <= k < |s| ensures r[k] == w[k] {
      if k < i - 1 {
        assert r[k] == m[k];
      } else if k > i - 1 {
        assert r[k] == m[k - 1];
      }
    }
  }

  /** No element occurs twice. */
  predicate NoDups<T(==)>(s: seq<T>) {
    forall i, j :: 0 <= i < j < |s| ==> s[i] != s[j]
  }

  /** The first occurrence of each element, in the order of first occurrence
      (the loop with a `seen` set, and `sorted(set(s), key=s.index)`). */
  function Dedup<T(==)>(s: seq<T>): seq<T>
    decreases |s|
  {
    if |s| == 0 then []
    else
      var d := Dedup(s[..|s| - 1]);
      if s[|s| - 1] in d then d else d + [s[|s| - 1]]
  }

  /** De-duplication leaves no duplicates and loses no element. */
  lemma {:induction false} DedupSpec<T>(s: seq<T>)
    ensures NoDups(Dedup(s))
    ensures forall x :: x in Dedup(s) <==> x in s
    ensures |Dedup(s)| <= |s|
    decreases |s|
  {
    if |s| > 0 {
      var u := s[..|s| - 1];
      DedupSpec(u);
      assert s == u + [s[|s| - 1]];
    }
  }

  /** A list without duplicates is its own de-duplication. */
  lemma {:induction false} DedupFixed<T>(s: seq<T>)
    requires NoDups(s)
    ensures Dedup(s) == s
    decreases |s|
  {
    if |s| > 0 {
      var u := s[..|s| - 1];
      DedupFixed(u);
      DedupSpec(u);
      assert s[|s| - 1] !in u;
    }
  }

  /** De-duplication is idempotent. */
  lemma DedupIdempotent<T>(s: seq<T>)
    ensures Dedup(Dedup(s)) == Dedup(s)
  {
    DedupSpec(s);
    DedupFixed(Dedup(s));
  }

  /** De-duplication changes a list exactly when the list has a duplicate. */
  lemma DedupChangesIffDuplicate<T>(s: seq<T>)
    ensures Dedup(s) == s <==> NoDups(s)
  {
    DedupSpec(s);
    if NoDups(s) { DedupFixed(s); }
  }

  /** Index of the first occurrence of `x` (Python's `s.index(x)`). */
  function IndexOf<T(==)>(s: seq<T>, x: T): (k: nat)
    requires x in s
    ensures k < |s| && s[k] == x && x !in s[..k]
    decreases |s|
  {
    if s[0] == x then 0 else 1 + IndexOf(s[1..], x)
  }

  lemma IndexOfPrefix<T>(s: seq<T>, n: nat, x: T)
    requires n <= |s| && x in s[..n]
    ensures IndexOf(s, x) == IndexOf(s[..n], x)
  {
    var k := IndexOf(s[..n], x);
    assert s[..n][..k] == s[..k];
  }

  /** De-duplication lists elements in increasing order of first occurrence, so it
      equals `sorted(set(s), key=s.index)`. */
  lemma {:induction false} DedupOrderedByFirstIndex<T>(s: seq<T>)
    ensures forall x :: x in Dedup(s) ==> x in s
    ensures forall i, j :: 0 <= i < j < |Dedup(s)| ==>
              IndexOf(s, Dedup(s)[i]) < IndexOf(s, Dedup(s)[j])
    decreases |s|
  {
    DedupSpec(s);
    if |s| > 0 {
      var n := |s| - 1;
      var u := s[..n];
      var d := Dedup(u);
      var e := Dedup(s);
      DedupOrderedByFirstIndex(u);
      DedupSpec(u);
      forall x | x in d ensures IndexOf(s, x) == IndexOf(u, x) < n {
        IndexOfPrefix(s, n, x);
      }
      if s[n] in d {
        assert e == d;
      } else {
        assert e == d + [s[n]];
        assert s[n] !in u;
        assert IndexOf(s, s[n]) == n;
        forall i, j | 0 <= i < j < |e| ensures IndexOf(s, e[i]) < IndexOf(s, e[j]) {
          assert e[i] == d[i] && e[i] in d;
          if j < |d| { assert e[j] == d[j] && e[j] in d; }
        }
      }
    }
  }

  /** The number of distinct elements equals the length exactly when there is no duplicate
      (`len(s) != len(set(s))` detects a duplicate). */
  lemma {:induction false} DistinctCountIffNoDups<T>(s: seq<T>)
    ensures |(set x | x in s)| <= |s|
    ensures |(set x | x in s)| == |s| <==> NoDups(s)
    decreases |s|
  {
    if |s| > 0 {
      var n := |s| - 1;
      var u := s[..n];
      DistinctCountIffNoDups(u);
      assert s == u + [s[n]];
      var su := set x | x in u;
      var ss := set x | x in s;
      assert ss == su + {s[n]};
      if s[n] in u {
        assert ss == su;
        var k :| 0 <= k < n && u[k] == s[n];
        assert s[k] == s[n];
      } else {
        assert |ss| == |su| + 1;
        if NoDups(u) {
          forall i, j | 0 <= i < j < |s| ensures s[i] != s[j] {
            if j == n { assert s[i] in u; }
          }
        }
      }
      if NoDups(s) {
        assert NoDups(u);
      }
    }
  }

  /** `[x for x in s if keep(x)]`. */
  function Keep<T>(s: seq<T>, keep: T -> bool): (r: seq<T>)
    ensures |r| <= |s|
    decreases |s|
  {
    if |s| == 0 then []
    else if keep(s[0]) then [s[0]] + Keep(s[1..], keep)
    else Keep(s[1..], keep)
  }

  /** Filtering keeps exactly the elements that pass, and changes nothing when all pass. */
  lemma {:induction false} KeepSpec<T>(s: seq<T>, keep: T -> bool)
    ensures forall x :: x in Keep(s, keep) <==> x in s && keep(x)
    ensures (forall x :: x in s ==> keep(x)) <==> Keep(s, keep) == s
    decreases |s|
  {
    if |s| > 0 {
      KeepSpec(s[1..], keep);
      assert s == [s[0]] + s[1..];
      if !keep(s[0]) {
        assert |Keep(s, keep)| < |s|;
      }
    }
  }

  /** Filtering keeps every passing element as often as it occurs and drops the others. */
  lemma {:induction false} KeepCounts<T>(s: seq<T>, keep: T -> bool)
    ensures forall x :: multiset(Keep(s, keep))[x] == if keep(x) then multiset(s)[x] else 0
    decreases |s|
  {
    if |s| > 0 {
      KeepCounts(s[1..], keep);
      assert s == [s[0]] + s[1..];
    }
  }

  /** The indices from `i` on whose elements pass, in increasing order. */
  function KeptFrom<T>(s: seq<T>, keep: T -> bool, i: nat): seq<nat>
    requires i <= |s|
    decreases |s| - i
  {
    if i == |s| then [] else (if keep(s[i]) then [i] else []) + KeptFrom(s, keep, i + 1)
  }

  /** `r` is `s` read at the indices `ix`. */
  ghost predicate ReadAt<T>(r: seq<T>, s: seq<T>, ix: seq<nat>) {
    |ix| == |r| && forall j :: 0 <= j < |ix| ==> ix[j] < |s| && r[j] == s[ix[j]]
  }

  /** `ix` is strictly increasing and starts at `lo` or later. */
  predicate IncreasingFrom(ix: seq<nat>, lo: nat) {
    (forall j :: 0 <= j < |ix| ==> lo <= ix[j]) &&
    forall j, j' :: 0 <= j < j' < |ix| ==> ix[j] < ix[j']
  }

  lemma {:induction false} KeptFromOrder<T>(s: seq<T>, keep: T -> bool, i: nat)
    requires i <= |s|
    ensures ReadAt(Keep(s[i..], keep), s, KeptFrom(s, keep, i))
    ensures IncreasingFrom(KeptFrom(s, keep, i), i)
    decreases |s| - i
  {
    if i < |s| {
      KeptFromOrder(s, keep, i + 1);
      assert s[i..][1..] == s[i + 1..];
    }
  }

  lemma {:induction false} KeptFromCover<T>(s: seq<T>, keep: T -> bool, i: nat)
    requires i <= |s|
    ensures forall k :: i <= k < |s| ==> (k in KeptFrom(s, keep, i) <==> keep(s[k]))
    decreases |s| - i
  {
    if i < |s| {
      KeptFromCover(s, keep, i + 1);
      KeptFromOrder(s, keep, i + 1);
      assert i !in KeptFrom(s, keep, i + 1);
    }
  }

  /** Filtering keeps the original order: the result is `s` read at strictly increasing
      indices, and those indices are exactly the ones whose elements pass. */
  lemma KeepOrder<T>(s: seq<T>, keep: T -> bool)
    ensures ReadAt(Keep(s, keep), s, KeptFrom(s, keep, 0))
    ensures IncreasingFrom(KeptFrom(s, keep, 0), 0)
    ensures forall k :: 0 <= k < |s| ==> (k in KeptFrom(s, keep, 0) <==> keep(s[k]))
  {
    KeptFromOrder(s, keep, 0);
    KeptFromCover(s, keep, 0);
    assert s[0..] == s;
  }
}
