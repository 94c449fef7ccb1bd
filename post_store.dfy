/** The post store: one page of remote posts merged with the posts created
    locally, sorted, cut to a page of ten, plus the page count and the id
    counter for new local posts.

    The remote service and the browser storage are outside the model: each
    action receives what the remote call answered as a parameter, and the
    `localPosts` storage key is the field `cache`.
 */
module Posts {
  import opened PostData

  /** Number of posts on a page (`_limit: 10`, `.slice(0, 10)`). */
  const PageSize: nat := 10

  /** Ids of the remote service stop at 100; local ids start above it. */
  const RemoteIdCeiling: int := 100

  /** What the `localPosts` storage key holds: nothing (or an empty string,
      which the store treats alike), a list of posts, or text that does not
      parse. */
  datatype Cache = Absent | Stored(saved: seq<Post>) | Malformed

  /** The answer to the GET of one page: the posts and the `x-total-count`
      header, or a failed request. */
  datatype FetchResponse = Fetched(page: seq<Post>, totalCount: nat) | FetchFailed

  /** `Math.max(...ids of s, bound)`. */
  function MaxId(s: seq<Post>, bound: int): (m: int)
    ensures bound <= m
    ensures IdsBelow(s, m + 1)
  {
    if s == [] then
      bound
    else
      var rest := MaxId(s[1..], bound);
      if s[0].id > rest then s[0].id else rest
  }

  /** The maximum is the bound or the id of some post of `s`: it is never
      above every candidate. */
  lemma {:induction false} MaxIdAttained(s: seq<Post>, bound: int)
    ensures MaxId(s, bound) == bound || exists i :: 0 <= i < |s| && s[i].id == MaxId(s, bound)
  {
    if s != [] {
      MaxIdAttained(s[1..], bound);
      if MaxId(s, bound) != s[0].id && MaxId(s, bound) != bound {
        var i :| 0 <= i < |s[1..]| && s[1..][i].id == MaxId(s[1..], bound);
        assert s[i + 1].id == MaxId(s, bound);
      }
    }
  }

  /** `Math.ceil(total / 10)`: the fewest pages that hold `total` posts. */
  function PageCount(total: nat): (r: nat)
    ensures 10 * r >= total
    ensures r == 0 || 10 * (r - 1) < total
  {
    (total + 9) / 10
  }

  /** Adding one post to `t` full pages opens exactly one more page. */
  lemma CreateAddsOnePage(t: nat)
    ensures PageCount(10 * t + 1) == t + 1
  {
  }

  /** `slice(0, 10)`: the first page of `s`. */
  function FirstPage(s: seq<Post>): (r: seq<Post>)
    ensures |r| <= PageSize && |r| <= |s|
    ensures r == s[..|r|]
    ensures |r| == PageSize || r == s
  {
    if |s| <= PageSize then s else s[..PageSize]
  }

  /** The first page of an ordered sequence is ordered. */
  lemma FirstPageSorted(s: seq<Post>, o: SortOrder)
    requires Sorted(s, o)
    ensures Sorted(FirstPage(s), o)
  {
  }

  /** A new post whose id exceeds every id of a full page: in ascending order
      the page stays as it was, in descending order the post opens the page
      and the last post drops off. */
  lemma {:induction false} CreateOnFullPage(page: seq<Post>, p: Post, o: SortOrder)
    requires |page| == PageSize && Sorted(page, o)
    requires IdsBelow(page, p.id)
    ensures FirstPage(SortPosts(page + [p], o)) ==
            if o == Asc then page else [p] + page[..PageSize - 1]
  {
    SortAppendAbove(page, p, o);
    if o == Asc {
      assert (page + [p])[..PageSize] == page;
    } else {
      assert ([p] + page)[..PageSize] == [p] + page[..PageSize - 1];
    }
  }

  /** Appending a post whose id exceeds every id of `s` keeps ids distinct,
      and leaves every id at most that new one. */
  lemma AppendFreshId(s: seq<Post>, p: Post)
    requires IdsBelow(s, p.id)
    ensures IdsBelow(s + [p], p.id + 1)
    ensures DistinctIds(s) ==> DistinctIds(s + [p])
  {
    if DistinctIds(s) {
      forall i, j | 0 <= i < j < |s + [p]|
        ensures (s + [p])[i].id != (s + [p])[j].id
      {
        if j == |s| {
          assert (s + [p])[i] == s[i];
        }
      }
    }
  }

  class PostStore {
    var posts: seq<Post>
    var localPosts: seq<Post>
    var loading: bool
    var currentPage: int
    var totalPages: nat
    var sortOrder: SortOrder
    var nextId: int
    var cache: Cache

    /** What every action keeps: the counter lies above the remote ids and
        the displayed page holds at most one page. */
    ghost predicate Valid()
      reads this
    {
      nextId > RemoteIdCeiling && |posts| <= PageSize
    }

    /** Every local post has an id below the counter, so the next local post
        cannot reuse one. */
    ghost predicate LocalIdsFresh()
      reads this
    {
      IdsBelow(localPosts, nextId)
    }

    /** The store's initial state; `saved` is what storage holds from earlier
        sessions. */
    constructor (saved: Cache)
      ensures Valid() && LocalIdsFresh()
      ensures posts == [] && localPosts == [] && !loading
      ensures currentPage == 1 && totalPages == 1 && sortOrder == Asc
      ensures nextId == RemoteIdCeiling + 1 && cache == saved
    {
      posts := [];
      localPosts := [];
      loading := false;
      currentPage := 1;
      totalPages := 1;
      sortOrder := Asc;
      nextId := RemoteIdCeiling + 1;
      cache := saved;
    }

    /** `fetchPosts`: on an answer, load the cache, merge the remote page with
        the local posts, renumber the counter, sort, cut to a page and count
        the pages. A failed request, or a cache that does not parse, leaves
        everything but `loading` as it was. */
    method FetchPosts(response: FetchResponse)
      requires Valid()
      modifies this`loading, this`localPosts, this`nextId, this`posts, this`totalPages
      ensures Valid() && !loading
      ensures response.FetchFailed? || cache.Malformed? ==>
        && posts == old(posts) && localPosts == old(localPosts)
        && nextId == old(nextId) && totalPages == old(totalPages)
      ensures response.Fetched? && !cache.Malformed? ==>
        localPosts == (if cache.Stored? then cache.saved else old(localPosts))
      ensures response.Fetched? && !cache.Malformed? ==>
        posts == FirstPage(SortPosts(response.page + localPosts, sortOrder)) && Sorted(posts, sortOrder)
      ensures response.Fetched? && !cache.Malformed? ==>
        nextId == MaxId(response.page + localPosts, RemoteIdCeiling) + 1
      ensures response.Fetched? && !cache.Malformed? ==>
        IdsBelow(response.page + localPosts, nextId) && LocalIdsFresh()
      ensures response.Fetched? && !cache.Malformed? ==>
        totalPages == PageCount(response.totalCount + |localPosts|)
    {
      loading := true;
      if response.Fetched? {
        var parsed := LoadLocalPosts();
        if parsed {
          var allPosts := response.page + localPosts;
          assert forall i :: 0 <= i < |localPosts| ==> allPosts[|response.page| + i] == localPosts[i];
          var sorted := SortPosts(allPosts, sortOrder);
          SortPostsCorrect(allPosts, sortOrder);
          FirstPageSorted(sorted, sortOrder);
          nextId := MaxId(allPosts, RemoteIdCeiling) + 1;
          posts := FirstPage(sorted);
          totalPages := PageCount(response.totalCount + |localPosts|);
        }
      }
      loading := false;
    }

    /** `createPost`: once the POST succeeds, give the post the counter's
        value, append it to the local posts and save them, merge it into the
        displayed page and add a page. A failed POST changes nothing but
        `loading`. */
    method CreatePost(userId: int, title: string, body: string, delivered: bool)
      requires Valid()
      modifies this`loading, this`nextId, this`localPosts, this`cache, this`posts, this`totalPages
      ensures Valid() && !loading
      ensures !delivered ==>
        && posts == old(posts) && localPosts == old(localPosts) && cache == old(cache)
        && nextId == old(nextId) && totalPages == old(totalPages)
      ensures delivered ==> nextId == old(nextId) + 1 && totalPages == old(totalPages) + 1
      ensures delivered ==>
        localPosts == old(localPosts) + [Post(userId, old(nextId), title, body)] && cache == Stored(localPosts)
      ensures delivered ==>
        posts == FirstPage(SortPosts(old(posts) + [Post(userId, old(nextId), title, body)], sortOrder))
      ensures delivered ==> Sorted(posts, sortOrder)
      ensures old(LocalIdsFresh()) ==> LocalIdsFresh()
      ensures old(LocalIdsFresh() && DistinctIds(localPosts)) ==> DistinctIds(localPosts)
    {
      loading := true;
      if delivered {
        var newPost := Post(userId, nextId, title, body);
        if LocalIdsFresh() {
          AppendFreshId(localPosts, newPost);
        }
        var merged := SortPosts(posts + [newPost], sortOrder);
        SortPostsCorrect(posts + [newPost], sortOrder);
        FirstPageSorted(merged, sortOrder);
        CreateAddsOnePage(totalPages);
        nextId := nextId + 1;
        localPosts := localPosts + [newPost];
        SaveLocalPosts();
        posts := FirstPage(merged);
        totalPages := PageCount(totalPages * 10 + 1);
      }
      loading := false;
    }

    /** `setPage`; the fetch it starts is a separate `FetchPosts` call. */
    method SetPage(page: int)
      requires Valid()
      modifies this`currentPage
      ensures Valid() && currentPage == page
    {
      currentPage := page;
    }

    /** `toggleSortOrder`; the fetch it starts is a separate `FetchPosts`
        call. The displayed page is not re-sorted until then. */
    method ToggleSortOrder()
      requires Valid()
      modifies this`sortOrder
      ensures Valid() && sortOrder == Flip(old(sortOrder)) && sortOrder != old(sortOrder)
    {
      sortOrder := Flip(sortOrder);
    }

    /** `loadLocalPosts`: a stored list replaces the local posts and lifts the
        counter to the largest stored id (without adding one); nothing stored
        changes nothing; text that does not parse makes `JSON.parse` throw,
        reported here as `parsed == false`, before anything changes. */
    method LoadLocalPosts() returns (parsed: bool)
      requires Valid()
      modifies this`localPosts, this`nextId
      ensures Valid()
      ensures parsed == !cache.Malformed?
      ensures cache.Stored? ==>
        localPosts == cache.saved && nextId == MaxId(cache.saved, old(nextId))
      ensures !cache.Stored? ==> localPosts == old(localPosts) && nextId == old(nextId)
      ensures old(nextId) <= nextId
      ensures cache.Stored? ==> IdsBelow(localPosts, nextId + 1)
      ensures cache.Stored? && !IdsBelow(cache.saved, old(nextId)) ==> !LocalIdsFresh()
    {
      match cache
      case Absent =>
        parsed := true;
      case Stored(saved) =>
        MaxIdAttained(saved, nextId);
        localPosts := saved;
        nextId := MaxId(saved, nextId);
        parsed := true;
      case Malformed =>
        parsed := false;
    }

    /** `saveLocalPosts`: write the local posts through to storage. */
    method SaveLocalPosts()
      modifies this`cache
      ensures cache == Stored(localPosts)
    {
      cache := Stored(localPosts);
    }
  }

  /** Posts with ids 1 to n, in that order, as the remote service returns the
      first page in ascending order. */
  function Numbered(n: nat): (s: seq<Post>)
    ensures |s| == n && Sorted(s, Asc)
    ensures forall i :: 0 <= i < n ==> s[i].id == i + 1
  {
    seq(n, i => Post(1, i + 1, "title", "body"))
  }

  /** A first session: nothing stored, page 1 holds ids 1 to 10 of 100 remote
      posts; then one post is created. */
  method FirstSession()
  {
    var store := new PostStore(Absent);
    var page := Numbered(PageSize);
    store.FetchPosts(Fetched(page, 100));
    assert store.localPosts == [] && page + [] == page;
    SortOfSorted(page, Asc);
    assert store.posts == page;
    MaxIdAttained(page, RemoteIdCeiling);
    assert store.nextId == 101 && store.totalPages == 10;

    var created := Post(1, 101, "T", "B");
    assert IdsBelow(page, created.id);
    CreateOnFullPage(page, created, Asc);
    assert store.localPosts == [] && store.sortOrder == Asc;
    store.CreatePost(1, "T", "B", true);
    assert store.localPosts == [] + [created];
    assert store.posts == page;
    assert store.nextId == 102 && store.totalPages == 11;
  }

  /** The counter follows the page on display, not every id seen: after a
      page holding id 150, a page of ids 1 to 10 brings it back to 101. */
  method CounterCanFall()
  {
    var store := new PostStore(Absent);
    var high := Post(1, 150, "title", "body");
    store.FetchPosts(Fetched([high], 150));
    assert store.localPosts == [] && [high] + [] == [high];
    assert store.nextId == 151;

    var page := Numbered(PageSize);
    store.FetchPosts(Fetched(page, 150));
    assert page + [] == page;
    MaxIdAttained(page, RemoteIdCeiling);
    assert store.nextId == 101;
  }
}
