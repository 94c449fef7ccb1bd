/** The post record and the ordering the store sorts by.

    `SortPosts` is the store's `sortPosts` helper: it copies its input and
    sorts the copy by `id`, ascending or descending. The JavaScript sort it
    relies on is stable, so it is modelled as a stable insertion sort; the
    lemmas below prove that the result is ordered, is a permutation of the
    input, keeps posts that share an id in their input order, and is the only
    ordered rearrangement when ids are distinct.
 */
module PostData {

  /** A post as the remote list API and the local cache hold it. */
  datatype Post = Post(userId: int, id: int, title: string, body: string)

  /** The store's `sortOrder`: `'asc'` or `'desc'`. */
  datatype SortOrder = Asc | Desc

  /** The order `toggleSortOrder` switches to. */
  function Flip(o: SortOrder): (r: SortOrder)
    ensures r != o
  {
    if o == Asc then Desc else Asc
  }

  /** Toggling twice restores the original order. */
  lemma FlipTwice(o: SortOrder)
    ensures Flip(Flip(o)) == o
  {
  }

  /** `a` may stand before `b`: the comparator (`a.id - b.id`, or
      `b.id - a.id` for descending order) does not ask to swap them. */
  predicate InOrder(a: Post, b: Post, o: SortOrder)
  {
    if o == Asc then a.id <= b.id else a.id >= b.id
  }

  /** Every post of `s` has an id below `n`. */
  predicate IdsBelow(s: seq<Post>, n: int)
  {
    forall i :: 0 <= i < |s| ==> s[i].id < n
  }

  /** Every post of `s` has an id different from every other one. */
  predicate DistinctIds(s: seq<Post>)
  {
    forall i, j :: 0 <= i < j < |s| ==> s[i].id != s[j].id
  }

  /** Ids run in order `o` along `s`. */
  predicate Sorted(s: seq<Post>, o: SortOrder)
  {
    forall i, j :: 0 <= i < j < |s| ==> InOrder(s[i], s[j], o)
  }

  /** Inserts `p` in front of the first post of `s` it may precede, so that
      in an ordered `s` it lands before every post with the same id. */
  function Insert(p: Post, s: seq<Post>, o: SortOrder): (r: seq<Post>)
    ensures |r| == |s| + 1
  {
    if s == [] || InOrder(p, s[0], o) then [p] + s else [s[0]] + Insert(p, s[1..], o)
  }

  /** Inserting into an ordered sequence keeps it ordered and adds exactly
      `p`. */
  lemma {:induction false} InsertCorrect(p: Post, s: seq<Post>, o: SortOrder)
    requires Sorted(s, o)
    ensures Sorted(Insert(p, s, o), o)
    ensures multiset(Insert(p, s, o)) == multiset(s) + multiset{p}
  {
    if !(s == [] || InOrder(p, s[0], o)) {
      assert s == [s[0]] + s[1..];
      InsertCorrect(p, s[1..], o);
      InsertedAfter(s[0], p, s[1..], Insert(p, s[1..], o), o);
    }
  }

  /** `a` may precede every post of `t` and `t` is ordered, so `[a] + t` is. */
  lemma InsertedAfter(a: Post, p: Post, t: seq<Post>, rest: seq<Post>, o: SortOrder)
    requires Sorted([a] + t, o) && !InOrder(p, a, o)
    requires Sorted(rest, o) && multiset(rest) == multiset(t) + multiset{p}
    ensures Sorted([a] + rest, o)
  {
    forall x | x in rest
      ensures InOrder(a, x, o)
    {
      assert x in multiset(rest);
      if x != p {
        assert x in t;
        var i :| 0 <= i < |t| && t[i] == x;
        assert ([a] + t)[0] == a && ([a] + t)[i + 1] == x;
        assert InOrder(([a] + t)[0], ([a] + t)[i + 1], o);
      }
    }
    forall i, j | 0 <= i < j < |[a] + rest|
      ensures InOrder(([a] + rest)[i], ([a] + rest)[j], o)
    {
      if i == 0 {
        assert ([a] + rest)[j] in rest;
      } else {
        assert ([a] + rest)[i] == rest[i - 1] && ([a] + rest)[j] == rest[j - 1];
      }
    }
  }

  /** The store's `sortPosts`: a copy of `s` sorted by `o` (see
      `SortPostsCorrect` and `SortIsStable`); `s` itself is a value and is
      left as it was. */
  function SortPosts(s: seq<Post>, o: SortOrder): (r: seq<Post>)
    ensures |r| == |s|
  {
    if s == [] then [] else Insert(s[0], SortPosts(s[1..], o), o)
  }

  /** `SortPosts` returns its input reordered so that ids run in order `o`. */
  lemma {:induction false} SortPostsCorrect(s: seq<Post>, o: SortOrder)
    ensures Sorted(SortPosts(s, o), o)
    ensures multiset(SortPosts(s, o)) == multiset(s)
  {
    if s != [] {
      assert s == [s[0]] + s[1..];
      SortPostsCorrect(s[1..], o);
      InsertCorrect(s[0], SortPosts(s[1..], o), o);
    }
  }

  /** With distinct ids there is only one ordered rearrangement: any ordered
      sequence with the same posts as `s` is `SortPosts(s, o)`. */
  lemma SortPostsUnique(s: seq<Post>, r: seq<Post>, o: SortOrder)
    requires Sorted(r, o) && multiset(r) == multiset(s) && DistinctIds(r)
    ensures r == SortPosts(s, o)
  {
    SortPostsCorrect(s, o);
    OrderedRearrangementUnique(r, SortPosts(s, o), o);
  }

  lemma {:induction false} OrderedRearrangementUnique(a: seq<Post>, b: seq<Post>, o: SortOrder)
    requires Sorted(a, o) && Sorted(b, o) && multiset(a) == multiset(b) && DistinctIds(a)
    ensures a == b
  {
    assert |a| == |multiset(a)| == |multiset(b)| == |b|;
    if a != [] {
      FirstsAgree(a, b, o);
      DropFirst(a);
      DropFirst(b);
      assert Sorted(a[1..], o) && Sorted(b[1..], o) && DistinctIds(a[1..]);
      OrderedRearrangementUnique(a[1..], b[1..], o);
      assert a == [a[0]] + a[1..] && b == [b[0]] + b[1..];
    }
  }

  /** Two ordered rearrangements of the same posts, one with distinct ids,
      start with the same post. */
  lemma FirstsAgree(a: seq<Post>, b: seq<Post>, o: SortOrder)
    requires Sorted(a, o) && Sorted(b, o) && multiset(a) == multiset(b) && DistinctIds(a)
    requires a != [] && b != []
    ensures a[0] == b[0]
  {
    assert a[0] in multiset(b) && b[0] in multiset(a);
    var k :| 0 <= k < |b| && b[k] == a[0];
    var m :| 0 <= m < |a| && a[m] == b[0];
    assert InOrder(a[0], a[m], o) && InOrder(b[0], b[k], o);
    assert a[0].id == a[m].id;
    assert m == 0;
  }

  lemma DropFirst(s: seq<Post>)
    requires s != []
    ensures multiset(s[1..]) == multiset(s) - multiset{s[0]}
  {
    assert s == [s[0]] + s[1..];
  }

  /** The posts of `s` whose id is `k`, in the order of `s`. */
  function WithId(s: seq<Post>, k: int): seq<Post>
  {
    if s == [] then []
    else (if s[0].id == k then [s[0]] else []) + WithId(s[1..], k)
  }

  /** Inserting `p` puts it before every post that shares its id. */
  lemma {:induction false} InsertKeepsTies(p: Post, s: seq<Post>, o: SortOrder, k: int)
    requires Sorted(s, o)
    ensures WithId(Insert(p, s, o), k) == (if p.id == k then [p] else []) + WithId(s, k)
  {
    if s == [] || InOrder(p, s[0], o) {
      assert ([p] + s)[1..] == s;
    } else {
      var rest := Insert(p, s[1..], o);
      InsertKeepsTies(p, s[1..], o, k);
      assert s[0].id != p.id;
      assert ([s[0]] + rest)[1..] == rest;
      calc {
        WithId(Insert(p, s, o), k);
        WithId([s[0]] + rest, k);
        (if s[0].id == k then [s[0]] else []) + WithId(rest, k);
        (if s[0].id == k then [s[0]] else []) + ((if p.id == k then [p] else []) + WithId(s[1..], k));
        (if p.id == k then [p] else []) + ((if s[0].id == k then [s[0]] else []) + WithId(s[1..], k));
      }
    }
  }

  /** `SortPosts` is stable: for every id, the posts carrying it appear in the
      result in the same order as in the input. */
  lemma {:induction false} SortIsStable(s: seq<Post>, o: SortOrder, k: int)
    ensures WithId(SortPosts(s, o), k) == WithId(s, k)
  {
    if s != [] {
      SortIsStable(s[1..], o, k);
      SortPostsCorrect(s[1..], o);
      InsertKeepsTies(s[0], SortPosts(s[1..], o), o, k);
    }
  }

  /** Sorting a sequence that is already in order returns it unchanged. */
  lemma {:induction false} SortOfSorted(s: seq<Post>, o: SortOrder)
    requires Sorted(s, o)
    ensures SortPosts(s, o) == s
  {
    if s != [] {
      assert Sorted(s[1..], o);
      SortOfSorted(s[1..], o);
      assert [s[0]] + s[1..] == s;
    }
  }

  /** Adding a post whose id exceeds every id of an ordered sequence: in
      ascending order it goes last, in descending order first. */
  lemma SortAppendAbove(s: seq<Post>, p: Post, o: SortOrder)
    requires Sorted(s, o)
    requires IdsBelow(s, p.id)
    ensures SortPosts(s + [p], o) == if o == Asc then s + [p] else [p] + s
  {
    if o == Asc {
      assert Sorted(s + [p], o) by {
        forall i, j | 0 <= i < j < |s + [p]|
          ensures InOrder((s + [p])[i], (s + [p])[j], o)
        {
          if j == |s| {
            assert (s + [p])[i] == s[i];
          }
        }
      }
      SortOfSorted(s + [p], o);
    } else {
      SortAppendAboveDesc(s, p);
    }
  }

  lemma {:induction false} SortAppendAboveDesc(s: seq<Post>, p: Post)
    requires Sorted(s, Desc)
    requires IdsBelow(s, p.id)
    ensures SortPosts(s + [p], Desc) == [p] + s
  {
    if s == [] {
      assert [] + [p] == [p] && [p][1..] == [];
    } else {
      var t := s + [p];
      assert t[0] == s[0] && t[1..] == s[1..] + [p];
      assert Sorted(s[1..], Desc);
      assert IdsBelow(s[1..], p.id);
      SortAppendAboveDesc(s[1..], p);
      calc {
        SortPosts(t, Desc);
        Insert(s[0], SortPosts(s[1..] + [p], Desc), Desc);
        Insert(s[0], [p] + s[1..], Desc);
        [p] + Insert(s[0], s[1..], Desc);
        { assert [s[0]] + s[1..] == s; }
        [p] + s;
      }
    }
  }
}
