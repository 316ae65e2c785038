/** The rank map written by `move_image_up` / `move_image_down`: after the
    swap every listed path is ranked by its position in the list. */
module OrderMap {
  import opened Collections
  import opened Listing

  /** The loop `for i, img in enumerate(s): order[img] = i`, run on `order`. */
  function Reindexed(order: Ranks, s: seq<string>): (r: Ranks)
    ensures r.Keys == order.Keys + set x | x in s
    decreases |s|
  {
    if s == [] then order
    else
      var init := s[..|s| - 1];
      assert forall x :: x in s <==> x in init || x == s[|s| - 1] by {
        assert s == init + [s[|s| - 1]];
      }
      Reindexed(order, init)[s[|s| - 1] := |s| - 1]
  }

  /** With no path listed twice, each listed path is ranked by its position,
      and every other key keeps its old rank. */
  lemma {:induction false} ReindexedRanks(order: Ranks, s: seq<string>)
    requires Distinct(s)
    ensures forall i :: 0 <= i < |s| ==> Reindexed(order, s)[s[i]] == i
    ensures forall p :: p in order && p !in s ==> Reindexed(order, s)[p] == order[p]
    decreases |s|
  {
    if s != [] {
      var init := s[..|s| - 1];
      assert Distinct(init);
      ReindexedRanks(order, init);
      var last := s[|s| - 1];
      forall i | 0 <= i < |s| - 1
        ensures Reindexed(order, s)[s[i]] == i
      {
        assert s[i] == init[i] && s[i] != last;
      }
      assert forall p :: p in init ==> p in s;
    }
  }

  /** q[0], q[1], ... strictly increase and lie in [0, |q|): then q[a] == a. */
  lemma {:induction false} IncreasingBelowLength(q: seq<int>, a: nat)
    requires forall i :: 0 <= i < |q| ==> 0 <= q[i] < |q|
    requires forall i, j :: 0 <= i < j < |q| ==> q[i] < q[j]
    requires a < |q|
    ensures q[a] == a
  {
    AtLeastIndex(q, a);
    AtMostIndex(q, a);
  }

  lemma {:induction false} AtLeastIndex(q: seq<int>, a: nat)
    requires forall i :: 0 <= i < |q| ==> 0 <= q[i]
    requires forall i, j :: 0 <= i < j < |q| ==> q[i] < q[j]
    requires a < |q|
    ensures q[a] >= a
  {
    if a > 0 {
      AtLeastIndex(q, a - 1);
    }
  }

  lemma {:induction false} AtMostIndex(q: seq<int>, a: nat)
    requires forall i :: 0 <= i < |q| ==> q[i] < |q|
    requires forall i, j :: 0 <= i < j < |q| ==> q[i] < q[j]
    requires a < |q|
    ensures q[a] <= a
    decreases |q| - a
  {
    if a < |q| - 1 {
      AtMostIndex(q, a + 1);
    }
  }

  /** For each element of `r`, a position in `t` holding it. */
  lemma {:induction false} PositionsIn<T>(t: seq<T>, r: seq<T>) returns (q: seq<int>)
    requires forall x :: x in r ==> x in t
    ensures |q| == |r|
    ensures forall a :: 0 <= a < |r| ==> 0 <= q[a] < |t| && t[q[a]] == r[a]
  {
    if r == [] {
      q := [];
    } else {
      var rest := PositionsIn(t, r[1..]);
      q := [IndexOf(t, r[0])] + rest;
      forall a | 0 < a < |r|
        ensures 0 <= q[a] < |t| && t[q[a]] == r[a]
      {
        assert q[a] == rest[a - 1] && r[a] == r[1..][a - 1];
      }
    }
  }

  /** A sorted rearrangement of `t`, when `t`'s paths are ranked by their
      positions in `t`, is `t` itself. */
  lemma SortedByPositionIsIdentity(m: Ranks, t: seq<string>, r: seq<string>)
    requires Distinct(t)
    requires forall i :: 0 <= i < |t| ==> Rank(m, t[i]) == Some(i)
    requires multiset(r) == multiset(t) && SortedByRank(m, r)
    ensures r == t
  {
    var n := |t|;
    assert |r| == n by {
      assert |multiset(r)| == |multiset(t)|;
    }
    DistinctMultiset(t, r);
    assert forall x :: x in r ==> x in t by {
      forall x | x in r
        ensures x in t
      {
        assert x in multiset(r);
      }
    }
    var q := PositionsIn(t, r);
    assert forall a :: 0 <= a < n ==> 0 <= q[a] < n;
    forall a, b | 0 <= a < b < n
      ensures q[a] < q[b]
    {
      assert Rank(m, r[a]) == Some(q[a]) && Rank(m, r[b]) == Some(q[b]);
      assert RankLe(Rank(m, r[a]), Rank(m, r[b]));
      assert r[a] != r[b];
    }
    forall a | 0 <= a < n
      ensures r[a] == t[a]
    {
      IncreasingBelowLength(q, a);
    }
  }

  /** After the session rank map is rewritten from a list that rearranges the
      listed images, listing the album again gives back exactly that list:
      a move is what the next page run shows. */
  lemma ListedAfterReindex(dir: string, entries: seq<string>, order: Ranks, t: seq<string>)
    requires Distinct(t) && multiset(t) == multiset(ImageFiles(dir, entries))
    ensures Listed(dir, entries, Reindexed(order, t)) == t
  {
    var m := Reindexed(order, t);
    ReindexedRanks(order, t);
    ListedSpec(dir, entries, m);
    SortedByPositionIsIdentity(m, t, Listed(dir, entries, m));
  }
}
