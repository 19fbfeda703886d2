/**
 * The two orderings the schedulers build candidate lists with: a
 * `std::multimap<K, T, std::greater<K>>` filled by `emplace` (entries kept in
 * non-increasing key order, equal keys in insertion order) and a stable
 * `std::list::sort` by non-increasing key, which yields the same sequence as
 * emplacing the list's elements one after the other.
 */
module Ordering {

  datatype Keyed<T> = Keyed(key: int, item: T)

  predicate NonIncreasing<T>(s: seq<Keyed<T>>)
  {
    forall i, j :: 0 <= i < j < |s| ==> s[i].key >= s[j].key
  }

  /** The entries of `s` whose key is `k`, in their order in `s`. */
  function WithKey<T>(s: seq<Keyed<T>>, k: int): seq<Keyed<T>>
  {
    if s == [] then [] else (if s[0].key == k then [s[0]] else []) + WithKey(s[1..], k)
  }

  /** `emplace` into the multimap: the new entry goes after every entry whose key is not smaller. */
  function Emplace<T>(s: seq<Keyed<T>>, e: Keyed<T>): (r: seq<Keyed<T>>)
    ensures |r| == |s| + 1
  {
    if s == [] || s[0].key < e.key then [e] + s else [s[0]] + Emplace(s[1..], e)
  }

  /** The list sorted stably by non-increasing key: its elements emplaced in list order. */
  function SortDesc<T>(s: seq<Keyed<T>>): (r: seq<Keyed<T>>)
    ensures |r| == |s|
  {
    if s == [] then [] else Emplace(SortDesc(s[..|s| - 1]), s[|s| - 1])
  }

  lemma {:induction false} EmplaceBelow<T>(s: seq<Keyed<T>>, e: Keyed<T>, b: int)
    requires forall i :: 0 <= i < |s| ==> s[i].key <= b
    requires e.key <= b
    ensures forall i :: 0 <= i < |Emplace(s, e)| ==> Emplace(s, e)[i].key <= b
  {
    if s != [] && s[0].key >= e.key {
      EmplaceBelow(s[1..], e, b);
    }
  }

  /** Emplacing keeps the multimap in non-increasing key order. */
  lemma {:induction false} EmplaceSorted<T>(s: seq<Keyed<T>>, e: Keyed<T>)
    requires NonIncreasing(s)
    ensures NonIncreasing(Emplace(s, e))
  {
    if s != [] && s[0].key >= e.key {
      EmplaceSorted(s[1..], e);
      EmplaceBelow(s[1..], e, s[0].key);
      var t := Emplace(s[1..], e);
      assert Emplace(s, e) == [s[0]] + t;
      forall i, j | 0 <= i < j < |Emplace(s, e)|
        ensures Emplace(s, e)[i].key >= Emplace(s, e)[j].key
      {
        if i > 0 {
          assert Emplace(s, e)[i] == t[i - 1] && Emplace(s, e)[j] == t[j - 1];
        } else {
          assert Emplace(s, e)[j] == t[j - 1];
        }
      }
    }
  }

  /** Emplacing adds exactly the new entry. */
  lemma {:induction false} EmplacePermutes<T>(s: seq<Keyed<T>>, e: Keyed<T>)
    ensures multiset(Emplace(s, e)) == multiset(s) + multiset{e}
  {
    if s != [] && s[0].key >= e.key {
      EmplacePermutes(s[1..], e);
      assert s == [s[0]] + s[1..];
    }
  }

  lemma WithKeyCons<T>(x: Keyed<T>, t: seq<Keyed<T>>, k: int)
    ensures WithKey([x] + t, k) == (if x.key == k then [x] else []) + WithKey(t, k)
  {
    assert ([x] + t)[0] == x && ([x] + t)[1..] == t;
  }

  lemma {:induction false} WithKeyAppend<T>(s: seq<Keyed<T>>, e: Keyed<T>, k: int)
    ensures WithKey(s + [e], k) == WithKey(s, k) + (if e.key == k then [e] else [])
  {
    if s == [] {
      assert s + [e] == [e] + [];
      WithKeyCons(e, [], k);
    } else {
      assert s + [e] == [s[0]] + (s[1..] + [e]);
      assert s == [s[0]] + s[1..];
      WithKeyCons(s[0], s[1..] + [e], k);
      WithKeyCons(s[0], s[1..], k);
      WithKeyAppend(s[1..], e, k);
    }
  }

  lemma {:induction false} WithKeyAbsent<T>(s: seq<Keyed<T>>, k: int)
    requires forall i :: 0 <= i < |s| ==> s[i].key != k
    ensures WithKey(s, k) == []
  {
    if s != [] {
      WithKeyAbsent(s[1..], k);
    }
  }

  /** Among equal keys the emplaced entry comes last: the multimap is stable. */
  lemma {:induction false} EmplaceStable<T>(s: seq<Keyed<T>>, e: Keyed<T>, k: int)
    requires NonIncreasing(s)
    ensures WithKey(Emplace(s, e), k) == WithKey(s, k) + (if e.key == k then [e] else [])
  {
    if s == [] {
      assert Emplace(s, e) == [e] + s;
      WithKeyCons(e, s, k);
    } else if s[0].key < e.key {
      assert Emplace(s, e) == [e] + s;
      WithKeyCons(e, s, k);
      if e.key == k {
        KeysBelowHead(s);
        WithKeyAbsent(s, k);
      }
    } else {
      var t := Emplace(s[1..], e);
      assert Emplace(s, e) == [s[0]] + t;
      assert s == [s[0]] + s[1..];
      WithKeyCons(s[0], t, k);
      WithKeyCons(s[0], s[1..], k);
      NonIncreasingTail(s);
      EmplaceStable(s[1..], e, k);
    }
  }

  lemma KeysBelowHead<T>(s: seq<Keyed<T>>)
    requires NonIncreasing(s) && s != []
    ensures forall i :: 0 <= i < |s| ==> s[i].key <= s[0].key
  {
    forall i | 0 < i < |s|
      ensures s[i].key <= s[0].key
    {
    }
  }

  lemma NonIncreasingTail<T>(s: seq<Keyed<T>>)
    requires NonIncreasing(s) && s != []
    ensures NonIncreasing(s[1..])
  {
    forall i, j | 0 <= i < j < |s| - 1
      ensures s[1..][i].key >= s[1..][j].key
    {
      assert s[1..][i] == s[i + 1] && s[1..][j] == s[j + 1];
    }
  }

  /**
   * The stable sort: its result is in non-increasing key order, holds the same
   * entries, and keeps the original order among entries with equal keys.
   */
  lemma {:induction false} SortDescSpec<T>(s: seq<Keyed<T>>)
    ensures NonIncreasing(SortDesc(s))
    ensures multiset(SortDesc(s)) == multiset(s)
    ensures forall k :: WithKey(SortDesc(s), k) == WithKey(s, k)
  {
    if s != [] {
      var init, last := s[..|s| - 1], s[|s| - 1];
      assert s == init + [last];
      SortDescSpec(init);
      EmplaceSorted(SortDesc(init), last);
      EmplacePermutes(SortDesc(init), last);
      forall k
        ensures WithKey(SortDesc(s), k) == WithKey(s, k)
      {
        EmplaceStable(SortDesc(init), last, k);
        WithKeyAppend(init, last, k);
      }
    }
  }

  /** The items of a keyed sequence, keys dropped. */
  function Items<T>(s: seq<Keyed<T>>): (r: seq<T>)
    ensures |r| == |s| && forall i :: 0 <= i < |s| ==> r[i] == s[i].item
  {
    if s == [] then [] else [s[0].item] + Items(s[1..])
  }

  lemma {:induction false} EmplaceItems<T>(s: seq<Keyed<T>>, e: Keyed<T>)
    ensures multiset(Items(Emplace(s, e))) == multiset(Items(s)) + multiset{e.item}
  {
    if s != [] && s[0].key >= e.key {
      EmplaceItems(s[1..], e);
      assert Items(s) == [s[0].item] + Items(s[1..]);
      assert Items(Emplace(s, e)) == [s[0].item] + Items(Emplace(s[1..], e));
    } else {
      assert Items(Emplace(s, e)) == [e.item] + Items(s);
    }
  }

  lemma {:induction false} ItemsSnoc<T>(s: seq<Keyed<T>>)
    requires s != []
    ensures Items(s) == Items(s[..|s| - 1]) + [s[|s| - 1].item]
  {
    var init := s[..|s| - 1];
    var l, m := Items(s), Items(init);
    var r := m + [s[|s| - 1].item];
    assert |l| == |r|;
    forall i | 0 <= i < |l|
      ensures l[i] == r[i]
    {
      if i < |m| {
        assert r[i] == m[i] == init[i].item;
      }
    }
  }

  /** Sorting moves the items around and loses or adds none. */
  lemma {:induction false} SortDescItems<T>(s: seq<Keyed<T>>)
    ensures multiset(Items(SortDesc(s))) == multiset(Items(s))
  {
    if s != [] {
      var init, last := s[..|s| - 1], s[|s| - 1];
      SortDescItems(init);
      EmplaceItems(SortDesc(init), last);
      ItemsSnoc(s);
      calc {
        multiset(Items(SortDesc(s)));
        multiset(Items(Emplace(SortDesc(init), last)));
        multiset(Items(SortDesc(init))) + multiset{last.item};
        multiset(Items(init)) + multiset{last.item};
        multiset(Items(init) + [last.item]);
        multiset(Items(s));
      }
    }
  }

  /** `s` is `t` with some entries left out, the rest in their order. */
  ghost predicate Subsequence<U>(s: seq<U>, t: seq<U>)
    decreases |t|
  {
    if s == [] then true
    else if t == [] then false
    else (s[0] == t[0] && Subsequence(s[1..], t[1..])) || Subsequence(s, t[1..])
  }

  /** Putting the same entry in front of both keeps a subsequence one. */
  lemma SubsequenceCons<U>(x: U, s: seq<U>, t: seq<U>)
    requires Subsequence(s, t)
    ensures Subsequence([x] + s, [x] + t)
  {
    assert ([x] + s)[1..] == s && ([x] + t)[1..] == t;
  }

  /** An entry put in front of the longer one only is left out. */
  lemma SubsequenceSkip<U>(x: U, s: seq<U>, t: seq<U>)
    requires Subsequence(s, t)
    ensures Subsequence(s, [x] + t)
  {
    assert ([x] + t)[1..] == t;
  }

  /** The entries of `s` that satisfy `p`, in order. */
  function Filter<U>(s: seq<U>, p: U -> bool): (r: seq<U>)
    ensures |r| <= |s|
    ensures forall i :: 0 <= i < |r| ==> p(r[i])
  {
    if s == [] then [] else (if p(s[0]) then [s[0]] else []) + Filter(s[1..], p)
  }

  lemma {:induction false} FilterSubsequence<U>(s: seq<U>, p: U -> bool)
    ensures Subsequence(Filter(s, p), s)
    ensures forall x :: x in Filter(s, p) <==> x in s && p(x)
  {
    if s != [] {
      FilterSubsequence(s[1..], p);
      var r := Filter(s[1..], p);
      if p(s[0]) {
        assert Filter(s, p) == [s[0]] + r;
        assert ([s[0]] + r)[1..] == r;
      } else {
        assert Filter(s, p) == r;
        if r != [] {
          assert Subsequence(r, s[1..]);
        }
      }
      assert s == [s[0]] + s[1..];
    }
  }

  lemma {:induction false} FilterAppend<U>(s: seq<U>, x: U, p: U -> bool)
    ensures Filter(s + [x], p) == Filter(s, p) + (if p(x) then [x] else [])
  {
    if s == [] {
      assert [x][1..] == [];
    } else {
      assert (s + [x])[1..] == s[1..] + [x];
      FilterAppend(s[1..], x, p);
    }
  }

  /** Leaving entries out of a non-increasing sequence keeps it non-increasing. */
  lemma {:induction false} FilterSorted<T>(s: seq<Keyed<T>>, p: Keyed<T> -> bool)
    requires NonIncreasing(s)
    ensures NonIncreasing(Filter(s, p))
  {
    if s != [] {
      FilterSorted(s[1..], p);
      FilterBelow(s[1..], p, s[0].key);
      var r := Filter(s[1..], p);
      if p(s[0]) {
        assert Filter(s, p) == [s[0]] + r;
        forall i, j | 0 <= i < j < |Filter(s, p)|
          ensures Filter(s, p)[i].key >= Filter(s, p)[j].key
        {
          assert Filter(s, p)[j] == r[j - 1];
          if i > 0 {
            assert Filter(s, p)[i] == r[i - 1];
          }
        }
      }
    }
  }

  lemma {:induction false} FilterBelow<T>(s: seq<Keyed<T>>, p: Keyed<T> -> bool, b: int)
    requires forall i :: 0 <= i < |s| ==> s[i].key <= b
    ensures forall i :: 0 <= i < |Filter(s, p)| ==> Filter(s, p)[i].key <= b
  {
    if s != [] {
      FilterBelow(s[1..], p, b);
      assert Filter(s, p) == (if p(s[0]) then [s[0]] else []) + Filter(s[1..], p);
    }
  }
}
