/** Sequences used as lists of dog ids: filtering, subsequences, and the
    insertion-ordered, duplicate-free sequences that model a JavaScript `Set`. */
module IdLists {

  /** No element occurs twice in `xs`. */
  predicate NoDup<T(==)>(xs: seq<T>) {
    forall i, j :: 0 <= i < j < |xs| ==> xs[i] != xs[j]
  }

  /** The elements of `xs`, forgetting order and repetition. */
  function Elems<T>(xs: seq<T>): set<T> {
    set x | x in xs
  }

  /** `xs` is obtained from `ys` by deleting some elements, keeping the order
      of the remaining ones. */
  predicate IsSubsequence<T(==)>(xs: seq<T>, ys: seq<T>)
    decreases |ys|
  {
    if |xs| == 0 then true
    else if |ys| == 0 then false
    else if xs[0] == ys[0] then IsSubsequence(xs[1..], ys[1..])
    else IsSubsequence(xs, ys[1..])
  }

  /** `Array.prototype.filter`: the elements of `xs` for which `keep` holds,
      in their original order. */
  function Filter<T(==,!new)>(xs: seq<T>, keep: T -> bool): (r: seq<T>)
    ensures forall i :: 0 <= i < |r| ==> keep(r[i])
    ensures forall y :: keep(y) ==> multiset(r)[y] == multiset(xs)[y]
    ensures forall y :: !keep(y) ==> multiset(r)[y] == 0
    ensures IsSubsequence(r, xs)
    ensures (forall i :: 0 <= i < |xs| ==> keep(xs[i])) ==> r == xs
  {
    if |xs| == 0 then []
    else
      var rest := Filter(xs[1..], keep);
      assert xs == [xs[0]] + xs[1..];
      if keep(xs[0]) then
        assert ([xs[0]] + rest)[1..] == rest;
        [xs[0]] + rest
      else rest
  }

  /** One step of `Filter`: the head is kept or dropped, then the tail is filtered. */
  lemma FilterUnfold<T(!new)>(xs: seq<T>, keep: T -> bool)
    requires |xs| > 0
    ensures Filter(xs, keep) == (if keep(xs[0]) then [xs[0]] else []) + Filter(xs[1..], keep)
  {
  }

  /** `xs` with every occurrence of `x` dropped. */
  function Without<T(==,!new)>(xs: seq<T>, x: T): (r: seq<T>)
    ensures x !in r
    ensures forall y :: y != x ==> multiset(r)[y] == multiset(xs)[y]
    ensures IsSubsequence(r, xs)
    ensures x !in xs ==> r == xs
  {
    Filter(xs, y => y != x)
  }

  /** One step of `Without`. */
  lemma WithoutUnfold<T(!new)>(xs: seq<T>, x: T)
    requires |xs| > 0
    ensures Without(xs, x) == (if xs[0] != x then [xs[0]] else []) + Without(xs[1..], x)
  {
  }

  /** Dropping `x` from `xs + [x]` when `x` is not in `xs` gives `xs`. */
  lemma {:induction false} WithoutAppendAbsent<T(!new)>(xs: seq<T>, x: T)
    requires x !in xs
    ensures Without(xs + [x], x) == xs
  {
    if |xs| == 0 {
      WithoutUnfold([x], x);
    } else {
      var ys := xs + [x];
      assert xs[0] != x && x !in xs[1..];
      assert ys[0] == xs[0] && ys[1..] == xs[1..] + [x];
      WithoutUnfold(ys, x);
      WithoutAppendAbsent(xs[1..], x);
      assert xs == [xs[0]] + xs[1..];
    }
  }

  /** `Set.prototype.add` on an insertion-ordered set: an element already
      present keeps its place, a new one goes to the end. */
  function Add<T(==,!new)>(s: seq<T>, x: T): (r: seq<T>)
    requires NoDup(s)
    ensures NoDup(r)
    ensures forall y :: y in r <==> y in s || y == x
    ensures Elems(r) == Elems(s) + {x}
    ensures x in s ==> r == s
    ensures x !in s ==> |r| == |s| + 1 && r[..|s|] == s && r[|s|] == x
  {
    if x in s then s else s + [x]
  }

  /** `Set.prototype.delete` on an insertion-ordered set. */
  function Delete<T(==,!new)>(s: seq<T>, x: T): (r: seq<T>)
    requires NoDup(s)
    ensures NoDup(r)
    ensures forall y :: y in r <==> y in s && y != x
    ensures Elems(r) == Elems(s) - {x}
    ensures IsSubsequence(r, s)
  {
    var r := Without(s, x);
    NoDupSubsequence(r, s);
    assert forall y :: y in r <==> y in s && y != x by {
      forall y
        ensures y in r <==> y in s && y != x
      {
        if y != x {
          assert multiset(r)[y] == multiset(s)[y];
          assert y in r <==> y in multiset(r);
          assert y in s <==> y in multiset(s);
        }
      }
    }
    r
  }

  /** `new Set(xs)`: the elements of `xs` added one after another, so each
      element keeps the position of its first occurrence. */
  function FromList<T(==,!new)>(xs: seq<T>): (r: seq<T>)
    ensures NoDup(r)
    ensures Elems(r) == Elems(xs)
    ensures |r| <= |xs|
    ensures InFirstOccurrenceOrder(r, xs)
  {
    if |xs| == 0 then []
    else
      var prefix := xs[..|xs| - 1];
      var last := xs[|xs| - 1];
      assert xs == prefix + [last];
      var rest := FromList(prefix);
      AddKeepsFirstOccurrenceOrder(prefix, rest, last);
      Add(rest, last)
  }

  /** Ordered by first occurrence in `xs`. */
  predicate InFirstOccurrenceOrder<T(==)>(r: seq<T>, xs: seq<T>) {
    forall i, j :: 0 <= i < j < |r| ==>
      r[i] in xs && r[j] in xs && FirstPos(xs, r[i]) < FirstPos(xs, r[j])
  }

  /** One step of `FromList`: adding the next element keeps the set ordered
      by first occurrence in the longer list. */
  lemma AddKeepsFirstOccurrenceOrder<T(!new)>(xs: seq<T>, r: seq<T>, z: T)
    requires NoDup(r) && Elems(r) == Elems(xs)
    requires InFirstOccurrenceOrder(r, xs)
    ensures InFirstOccurrenceOrder(Add(r, z), xs + [z])
  {
    FirstPosAppend(xs, z);
    var r' := Add(r, z);
    forall i, j | 0 <= i < j < |r'|
      ensures r'[i] in xs + [z] && r'[j] in xs + [z] && FirstPos(xs + [z], r'[i]) < FirstPos(xs + [z], r'[j])
    {
      assert r[i] in Elems(xs);
      if j < |r| {
        assert r[j] in Elems(xs);
      }
    }
  }

  /** Index of the first occurrence of `x` in `xs`. */
  function FirstPos<T(==)>(xs: seq<T>, x: T): (k: nat)
    requires x in xs
    ensures k < |xs| && xs[k] == x
    ensures forall j :: 0 <= j < k ==> xs[j] != x
  {
    if xs[0] == x then 0 else 1 + FirstPos(xs[1..], x)
  }

  /** Appending an element moves no first occurrence, and an element new to
      the list first occurs at the end. */
  lemma FirstPosAppend<T(!new)>(xs: seq<T>, z: T)
    ensures forall y :: y in xs ==> y in xs + [z] && FirstPos(xs + [z], y) == FirstPos(xs, y)
    ensures z !in xs ==> FirstPos(xs + [z], z) == |xs|
  {
    forall y | y in xs
      ensures FirstPos(xs + [z], y) == FirstPos(xs, y)
    {
      assert (xs + [z])[FirstPos(xs, y)] == y;
    }
  }

  lemma {:induction false} SubsequenceElems<T>(xs: seq<T>, ys: seq<T>)
    requires IsSubsequence(xs, ys)
    ensures forall x :: x in xs ==> x in ys
    decreases |ys|
  {
    if |xs| == 0 {
    } else if xs[0] == ys[0] {
      SubsequenceElems(xs[1..], ys[1..]);
      assert forall x :: x in xs ==> x == xs[0] || x in xs[1..];
      assert forall x :: x in ys[1..] ==> x in ys;
    } else {
      SubsequenceElems(xs, ys[1..]);
      assert forall x :: x in ys[1..] ==> x in ys;
    }
  }

  /** A subsequence of a duplicate-free sequence is duplicate-free. */
  lemma {:induction false} NoDupSubsequence<T>(xs: seq<T>, ys: seq<T>)
    requires IsSubsequence(xs, ys)
    requires NoDup(ys)
    ensures NoDup(xs)
    decreases |ys|
  {
    if |xs| == 0 {
    } else if xs[0] == ys[0] {
      NoDupSubsequence(xs[1..], ys[1..]);
      SubsequenceElems(xs[1..], ys[1..]);
      assert xs[0] !in ys[1..];
      forall i, j | 0 <= i < j < |xs|
        ensures xs[i] != xs[j]
      {
        if i == 0 {
          assert xs[j] == xs[1..][j - 1];
        } else {
          assert xs[i] == xs[1..][i - 1] && xs[j] == xs[1..][j - 1];
        }
      }
    } else {
      NoDupSubsequence(xs, ys[1..]);
    }
  }

  /** Re-reading a duplicate-free list into a set gives back the same list:
      what `Array.from` writes, `new Set` reads back unchanged. */
  lemma {:induction false} FromListOfNoDup<T(!new)>(xs: seq<T>)
    requires NoDup(xs)
    ensures FromList(xs) == xs
  {
    if |xs| > 0 {
      var prefix := xs[..|xs| - 1];
      var last := xs[|xs| - 1];
      assert NoDup(prefix);
      assert last !in prefix;
      assert FromList(prefix) == prefix by {
        FromListOfNoDup(prefix);
      }
      assert FromList(xs) == Add(FromList(prefix), last);
    }
  }

  /** Dropping an id twice is dropping it once. */
  lemma WithoutIdempotent<T(!new)>(xs: seq<T>, x: T)
    ensures Without(Without(xs, x), x) == Without(xs, x)
  {
  }
}
