# Post store

A model of the post store of a small Nuxt application (`stores/posts.ts`).
The store shows one page of posts taken from a remote list service, merged
with the posts created on this client, which it keeps in browser storage
under the key `localPosts`. Each fetch loads the stored posts, puts the
remote page and the local posts together, sorts them by `id` (ascending or
descending), keeps the first ten, counts the pages and renumbers the counter
`nextId` that gives new local posts their id. Each creation posts the new
record to the remote service, gives it the next id, appends and saves it,
and merges it into the page on display.

- `post_data.dfy`, module `PostData`: the `Post` record, the sort order and
  `sortPosts`, modelled as a stable insertion sort, with lemmas that it
  orders, permutes, is stable and is unique for distinct ids.
- `post_store.dfy`, module `Posts`: the cache contents, the GET outcome,
  `Math.max` over ids (`MaxId`), `Math.ceil(n / 10)` (`PageCount`),
  `slice(0, 10)` (`FirstPage`), and the class `PostStore` with the store's
  fields and one method per action. Every asynchronous action takes what
  the remote service answered as a parameter: `FetchPosts` takes either the
  page plus the `x-total-count` value or a failure, and `CreatePost` takes
  whether the POST succeeded. The storage key is the field `cache`, which
  holds nothing, a list of posts, or text that does not parse.
- Two client methods, `Posts.FirstSession` and `Posts.CounterCanFall`,
  walk through two concrete scenarios that the verifier checks from the
  contracts alone. In the first, nothing is
  stored and a fetch of ids 1 to 10 with a total of 100 gives 10 pages and
  counter 101; the post created next gets id 101, and in ascending order it
  does not appear on the full first page. The second shows the counter
  dropping from 151 to 101 when a page with id 150 is followed by a page of
  ids 1 to 10.

The model follows the code as written, in particular:
- A failed POST aborts the whole creation: `createPost` awaits the request
  before any local change (`stores/posts.ts:54`).
- A stored value that does not parse makes `JSON.parse` throw inside the
  fetch's `try` (`stores/posts.ts:84`). The fetch then changes nothing but
  `loading`; the stored value is not treated as an empty list.
- `loadLocalPosts` sets the counter to the largest of the stored ids and
  the old counter, without adding one (`stores/posts.ts:86`). Right after it,
  the counter may equal a stored id (`LoadLocalPosts`'s last postcondition).
  `fetchPosts` then sets it to the maximum over the merged posts and 100,
  plus one.
- The counter is not monotone, and it is not above every remote id ever
  seen. It is above the ids of the current merge only (`CounterCanFall`).
- `toggleSortOrder` flips the order without re-sorting the page on display.
  The page is sorted by the current order only after the next fetch or
  creation.

## Model

| member | source | states |
|---|---|---|
| `PostData.Flip` | stores/posts.ts:78 | the toggled order differs from the current one, so of the two orders it is the other |
| `PostData.FlipTwice` | stores/posts.ts:78 | toggling twice restores the original order |
| `PostData.SortPosts` | stores/posts.ts:92-100 | the sorted copy has as many posts as the input; the input is a value and stays as it was |
| `PostData.InsertCorrect` | stores/posts.ts:93-99 | inserting a post into an ordered sequence keeps it ordered and adds exactly that post |
| `PostData.SortPostsCorrect` | stores/posts.ts:92-100 | the result is ordered by id, non-decreasing for `Asc` and non-increasing for `Desc`, and is a permutation of the input |
| `PostData.SortIsStable` | stores/posts.ts:93-99 | posts sharing an id keep their input order, since the comparator returns 0 for them and the sort is stable |
| `PostData.SortPostsUnique` | stores/posts.ts:92-100 | when ids are distinct, every ordered rearrangement of the input equals the sorted copy |
| `PostData.OrderedRearrangementUnique` | stores/posts.ts:92-100 | two ordered sequences holding the same posts, one with distinct ids, are equal |
| `PostData.SortOfSorted` | stores/posts.ts:92-100 | an input that is already ordered comes back unchanged |
| `PostData.SortAppendAbove` | stores/posts.ts:64 | a post whose id exceeds every id of an ordered sequence goes last in ascending order and first in descending order |
| `Posts.MaxId` | stores/posts.ts:39 | the maximum is at least the bound (100, or the old counter) and at least every id |
| `Posts.MaxIdAttained` | stores/posts.ts:86 | the maximum is the bound or the id of some post, never above every candidate |
| `Posts.PageCount` | stores/posts.ts:44 | the fewest pages of ten that hold `total` posts: `10r >= total` and `10(r - 1) < total` |
| `Posts.CreateAddsOnePage` | stores/posts.ts:66 | `ceil((10t + 1) / 10) == t + 1`, so creation adds exactly one page |
| `Posts.FirstPage` | stores/posts.ts:41 | the result is a prefix of at most ten posts, and it is the whole input or a full page |
| `Posts.CreateOnFullPage` | stores/posts.ts:64 | on a full ordered page, a new post with the highest id leaves the page as it was in ascending order; in descending order it opens the page and the last post drops off |
| `Posts.AppendFreshId` | stores/posts.ts:58-61 | appending a post whose id exceeds all existing ids keeps ids distinct and bounds them by the new id |
| `Posts.PostStore.constructor` | stores/posts.ts:12-20 | the initial state: no posts, page 1 of 1, ascending order, counter 101, storage as left by earlier sessions |
| `Posts.PostStore.FetchPosts` | stores/posts.ts:22-50 | after a failed request or an unparsable stored value, posts, local posts, counter and page count are unchanged; otherwise local posts are the stored list (unchanged if nothing is stored), the page is the first `min(10, n)` of the sorted concatenation of remote page and local posts and is ordered, the counter is `max(merged ids, 100) + 1` and lies above every merged id, and the page count is `ceil((x-total-count + local posts) / 10)`; `loading` is false on return |
| `Posts.PostStore.CreatePost` | stores/posts.ts:51-72 | after a successful POST the new post's id is the old counter, the counter grows by exactly one, the post is appended after the earlier local posts, storage equals the local posts, the page is the first page of the sorted old page plus the post, the page count grows by exactly one, and local ids stay below the counter and distinct; after a failed POST nothing but `loading` changes; `loading` is false on return |
| `Posts.PostStore.SetPage` | stores/posts.ts:73-76 | `currentPage` becomes the argument and nothing else changes |
| `Posts.PostStore.ToggleSortOrder` | stores/posts.ts:77-80 | the order becomes the other one and nothing else changes |
| `Posts.PostStore.LoadLocalPosts` | stores/posts.ts:81-88 | nothing stored: nothing changes; a stored list replaces the local posts and the counter becomes `max(old counter, stored ids)`, never lower, and equal to a stored id if one is at or above the old counter; unparsable text: reports the throw as `parsed == false` and changes nothing |
| `Posts.PostStore.SaveLocalPosts` | stores/posts.ts:89-91 | storage then holds exactly the local posts, and nothing else changes |

## Left out

- The HTTP calls (`stores/posts.ts:25-32`, `stores/posts.ts:54`) are
  parameters of the methods. The query sent with the GET (page, limit,
  sort field, order) is not modelled: the remote service's answer is taken
  as given.
- Browser storage and JSON encoding (`stores/posts.ts:82-84`,
  `stores/posts.ts:90`) are the abstract `Cache` value. An empty stored
  string is falsy, so it counts as `Absent`. Stored text that parses to
  something other than a list of posts, such as `null`, is not modelled.
- Asynchronous interleaving is not modelled. Each action runs to
  completion, so `loading` is observed only after it has been cleared. The
  fetch that `setPage` and `toggleSortOrder` start without awaiting is a
  separate `FetchPosts` call.
- `Number(...)` applied to a missing or non-numeric `x-total-count` header
  gives NaN; the model takes the count as a natural number.
- Ids and counts are unbounded integers. JavaScript numbers lose precision
  above 2^53.
- Posts.PostStore.CreatePost: writes to storage always succeed in the model. In the code,
  `localStorage.setItem` (`stores/posts.ts:90`) can throw (quota exceeded,
  storage disabled) inside `createPost`'s `try`, after the counter has been
  incremented and the post pushed onto the local posts
  (`stores/posts.ts:58-62`); the code then ends in a partial update where
  the counter and local posts have changed while storage, `posts` and
  `totalPages` keep their old values. That outcome is not modelled. A
  `localStorage.getItem` that throws inside `loadLocalPosts`
  (`stores/posts.ts:82`) would end like a `Malformed` value (the fetch
  changes nothing but `loading`) and is not modelled separately either.
- `console.error` logging and the Pinia `defineStore` wrapper are left out.
- `nuxt.config.ts` is left out: it holds only build configuration.
- PostData.SortPosts: the function's own contract gives only the length.
  Ordering, permutation, stability and uniqueness are stated in
  `SortPostsCorrect`, `SortIsStable` and `SortPostsUnique`. They are kept
  out of the function so that the proofs about the store stay small.
