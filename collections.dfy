/** Generic sequence helpers the album bookkeeping is built from: Python's
    `list.index`, `list.remove` and the two-element swap of a list. */
module Collections {

  datatype Option<+T> = None | Some(value: T)

  /** No element occurs twice (the entries of one directory, the listed paths). */
  predicate Distinct<T(==)>(s: seq<T>) {
    forall i, j :: 0 <= i < j < |s| ==> s[i] != s[j]
  }

  /** Each element of a sequence without duplicates occurs at most once in its multiset. */
  lemma {:induction false} DistinctCount<T>(s: seq<T>, x: T)
    requires Distinct(s)
    ensures multiset(s)[x] <= 1
  {
    if s != [] {
      assert s == [s[0]] + s[1..];
      assert Distinct(s[1..]);
      DistinctCount(s[1..], x);
    }
  }

  /** A rearrangement of a sequence without duplicates has none either. */
  lemma DistinctMultiset<T>(s: seq<T>, t: seq<T>)
    requires Distinct(s) && multiset(s) == multiset(t)
    ensures Distinct(t)
  {
    forall i, j | 0 <= i < j < |t|
      ensures t[i] != t[j]
    {
      var v := t[i];
      assert t == t[..j] + [t[j]] + t[j + 1..];
      assert v in t[..j];
      DistinctCount(s, v);
    }
  }

  /** `s.index(x)`: the position of the first occurrence of `x`. */
  function IndexOf<T(==)>(s: seq<T>, x: T): (i: nat)
    requires x in s
    ensures i < |s| && s[i] == x
    ensures x !in s[..i]
  {
    if s[0] == x then 0
    else
      var j := IndexOf(s[1..], x);
      assert s[..j + 1] == [s[0]] + s[1..][..j];
      1 + j
  }

  /** `s.remove(x)` when `x in s` (its first occurrence is dropped, everything
      else keeps its order), and `s` unchanged otherwise. */
  function RemoveFirst<T(==)>(s: seq<T>, x: T): (r: seq<T>)
    ensures x !in s ==> r == s
    ensures |r| == if x in s then |s| - 1 else |s|
    ensures multiset(r) == multiset(s) - multiset{x}
    ensures x in s ==> forall i :: 0 <= i < |r| ==> r[i] == if i < IndexOf(s, x) then s[i] else s[i + 1]
  {
    if x in s then
      var k := IndexOf(s, x);
      assert s == s[..k] + [x] + s[k + 1..];
      s[..k] + s[k + 1..]
    else s
  }

  /** Removing an element from a sequence without duplicates leaves no copy of
      it behind and keeps every other element. */
  lemma RemoveFirstDistinct<T>(s: seq<T>, x: T)
    requires Distinct(s)
    ensures Distinct(RemoveFirst(s, x))
    ensures x !in RemoveFirst(s, x)
    ensures forall y :: y in s && y != x ==> y in RemoveFirst(s, x)
  {
  }

  /** `s[i], s[j] = s[j], s[i]`: the values at `i` and `j` trade places. */
  function Swapped<T>(s: seq<T>, i: nat, j: nat): (r: seq<T>)
    requires i < |s| && j < |s|
    ensures |r| == |s| && r[i] == s[j] && r[j] == s[i]
    ensures forall k :: 0 <= k < |s| && k != i && k != j ==> r[k] == s[k]
    ensures multiset(r) == multiset(s)
  {
    s[i := s[j]][j := s[i]]
  }

  /** Swapping keeps a sequence free of duplicates. */
  lemma SwappedDistinct<T>(s: seq<T>, i: nat, j: nat)
    requires i < |s| && j < |s| && Distinct(s)
    ensures Distinct(Swapped(s, i, j))
  {
  }
}
