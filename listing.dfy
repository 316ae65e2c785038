/** `load_images_from_album`: keep the directory entries with an accepted
    image extension, turn them into paths, and stable-sort the paths by their
    rank in the order file, unranked paths last. */
module Listing {
  import opened Collections
  import opened Names

  /** A rank map, as read from `image_order.json` or kept in the session. */
  type Ranks = map<string, int>

  /** `order.get(p, float('inf'))`: `None` stands for the infinite rank. */
  function Rank(order: Ranks, p: string): Option<int> {
    if p in order then Some(order[p]) else None
  }

  /** The comparison `sorted` makes between two keys: infinity is above every
      rank and equal to itself. */
  predicate RankLe(a: Option<int>, b: Option<int>) {
    match b
    case None => true
    case Some(y) => a.Some? && a.value <= y
  }

  predicate SortedByRank(order: Ranks, s: seq<string>) {
    forall i, j :: 0 <= i < j < |s| ==> RankLe(Rank(order, s[i]), Rank(order, s[j]))
  }

  /** The elements of `s` whose rank is `k`, in the order `s` has them. Two
      sequences agreeing on this for every `k` order equally ranked elements
      alike: this is what stability of a sort means. */
  function WithRank(order: Ranks, s: seq<string>, k: Option<int>): seq<string> {
    if s == [] then []
    else (if Rank(order, s[0]) == k then [s[0]] else []) + WithRank(order, s[1..], k)
  }

  /** The loop over `os.listdir`: the paths of the entries with an image
      extension, in directory enumeration order. */
  function ImageFiles(dir: string, entries: seq<string>): (r: seq<string>)
    ensures forall e :: e in entries && IsImageName(e) ==> Join(dir, e) in r
    ensures forall p :: p in r ==>
      EntryOf(dir, p).Some? && EntryOf(dir, p).value in entries && IsImageName(EntryOf(dir, p).value)
    ensures Distinct(entries) ==> Distinct(r)
  {
    if entries == [] then []
    else
      var e := entries[0];
      var rest := ImageFiles(dir, entries[1..]);
      assert Distinct(entries) ==> e !in entries[1..];
      assert Join(dir, e) in rest ==> e in entries[1..];
      assert forall x :: x in entries ==> x == e || x in entries[1..] by {
        assert entries == [e] + entries[1..];
      }
      (if IsImageName(e) then [Join(dir, e)] else []) + rest
  }

  /** The filter keeps directory order: the paths of two runs of entries are
      the paths of the first run followed by those of the second. */
  lemma {:induction false} ImageFilesAppend(dir: string, a: seq<string>, b: seq<string>)
    ensures ImageFiles(dir, a + b) == ImageFiles(dir, a) + ImageFiles(dir, b)
  {
    if a != [] {
      assert (a + b)[0] == a[0];
      assert (a + b)[1..] == a[1..] + b;
      ImageFilesAppend(dir, a[1..], b);
      var head := if IsImageName(a[0]) then [Join(dir, a[0])] else [];
      assert head + (ImageFiles(dir, a[1..]) + ImageFiles(dir, b))
          == (head + ImageFiles(dir, a[1..])) + ImageFiles(dir, b);
    } else {
      assert a + b == b;
    }
  }

  /** Places `x` in the sorted `s` before the first element whose rank is not
      below `x`'s. As `x` came before every element of `s` in the input, this
      keeps equally ranked elements in input order. */
  function Insert(order: Ranks, x: string, s: seq<string>): (r: seq<string>)
    ensures multiset(r) == multiset{x} + multiset(s)
  {
    if s == [] || RankLe(Rank(order, x), Rank(order, s[0])) then [x] + s
    else
      assert s == [s[0]] + s[1..];
      [s[0]] + Insert(order, x, s[1..])
  }

  lemma RankLeTransitive(a: Option<int>, b: Option<int>, c: Option<int>)
    requires RankLe(a, b) && RankLe(b, c)
    ensures RankLe(a, c)
  {
  }

  lemma {:induction false} InsertSorted(order: Ranks, x: string, s: seq<string>)
    requires SortedByRank(order, s)
    ensures SortedByRank(order, Insert(order, x, s))
  {
    var rx := Rank(order, x);
    if s == [] {
    } else if RankLe(rx, Rank(order, s[0])) {
      var r := [x] + s;
      forall i, j | 0 <= i < j < |r|
        ensures RankLe(Rank(order, r[i]), Rank(order, r[j]))
      {
        if i == 0 && j > 1 {
          RankLeTransitive(rx, Rank(order, s[0]), Rank(order, s[j - 1]));
        }
      }
    } else {
      var r0 := Rank(order, s[0]);
      assert SortedByRank(order, s[1..]);
      InsertSorted(order, x, s[1..]);
      var t := Insert(order, x, s[1..]);
      var r := [s[0]] + t;
      forall y | y in t
        ensures RankLe(r0, Rank(order, y))
      {
        assert y in multiset(t);
        if y != x {
          assert y in multiset(s[1..]);
          var j :| 0 <= j < |s[1..]| && s[1..][j] == y;
          assert s[j + 1] == y;
        }
      }
      forall i, j | 0 <= i < j < |r|
        ensures RankLe(Rank(order, r[i]), Rank(order, r[j]))
      {
        if i == 0 {
          assert r[j] == t[j - 1];
        } else {
          assert r[i] == t[i - 1] && r[j] == t[j - 1];
        }
      }
    }
  }

  /** Python's `sorted(paths, key=rank)`: a stable sort, written as an insertion sort. */
  function SortByRank(order: Ranks, s: seq<string>): (r: seq<string>)
    ensures multiset(r) == multiset(s)
    ensures SortedByRank(order, r)
  {
    if s == [] then []
    else
      var t := SortByRank(order, s[1..]);
      InsertSorted(order, s[0], t);
      assert s == [s[0]] + s[1..];
      Insert(order, s[0], t)
  }

  lemma {:induction false} InsertWithRank(order: Ranks, x: string, s: seq<string>, k: Option<int>)
    requires SortedByRank(order, s)
    ensures WithRank(order, Insert(order, x, s), k)
         == (if Rank(order, x) == k then [x] else []) + WithRank(order, s, k)
  {
    var rx := Rank(order, x);
    if s == [] || RankLe(rx, Rank(order, s[0])) {
      assert ([x] + s)[1..] == s;
    } else {
      var r0 := Rank(order, s[0]);
      assert r0 != rx;
      assert SortedByRank(order, s[1..]);
      InsertWithRank(order, x, s[1..], k);
      var t := Insert(order, x, s[1..]);
      assert ([s[0]] + t)[1..] == t;
    }
  }

  /** The sort is stable: among equally ranked paths, the input order is kept. */
  lemma {:induction false} SortByRankStable(order: Ranks, s: seq<string>, k: Option<int>)
    ensures WithRank(order, SortByRank(order, s), k) == WithRank(order, s, k)
  {
    if s != [] {
      SortByRankStable(order, s[1..], k);
      InsertWithRank(order, s[0], SortByRank(order, s[1..]), k);
    }
  }

  /** `load_images_from_album()` over the directory entries `entries` (in
      enumeration order) and the rank map read from the order file. */
  function Listed(dir: string, entries: seq<string>, order: Ranks): seq<string> {
    SortByRank(order, ImageFiles(dir, entries))
  }

  /** The listing holds exactly the paths of the directory's image entries,
      once each, sorted by rank with the unranked ones last, and equally
      ranked paths in directory order. */
  lemma ListedSpec(dir: string, entries: seq<string>, order: Ranks)
    ensures var r := Listed(dir, entries, order);
      && (forall p :: p in r <==>
            EntryOf(dir, p).Some? && EntryOf(dir, p).value in entries && IsImageName(EntryOf(dir, p).value))
      && multiset(r) == multiset(ImageFiles(dir, entries))
      && (Distinct(entries) ==> Distinct(r))
      && SortedByRank(order, r)
      && (forall i, j :: 0 <= i < j < |r| && Rank(order, r[i]).None? ==> Rank(order, r[j]).None?)
      && (forall k :: WithRank(order, r, k) == WithRank(order, ImageFiles(dir, entries), k))
  {
    var files := ImageFiles(dir, entries);
    var r := SortByRank(order, files);
    forall k
      ensures WithRank(order, r, k) == WithRank(order, files, k)
    {
      SortByRankStable(order, files, k);
    }
    forall p
      ensures p in r <==> p in files
    {
      assert p in r <==> p in multiset(r);
      assert p in files <==> p in multiset(files);
    }
    if Distinct(files) {
      DistinctMultiset(files, r);
    }
  }
}
