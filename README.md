# PostService model

A Dafny model of `PostService`, the in-memory state container of a small
React + RxJS demo. The service holds one record `{count, posts}`, starting at
`{count: -1, posts: []}`. `setState` replaces it by a shallow merge of a
partial update. `getPost(id)` answers from the cached posts when it can;
otherwise, after a simulated delay, it looks the id up in a fixed two-post
sample table and appends the result. `getPosts()` overwrites the record with
the whole sample table after a delay. `current()` hands out one lazily
created instance.

Files:

- `post_state.dfy`, module `PostState`: the values (`Post`, `ServiceState`,
  `Partial`, the sample table), the shallow merge, the two `find` lookups
  (`FindById` over the sample table, `FindCached` over the cached entries), the
  state each timer callback leaves (`GetPostCompleted`, `GetPostsCompleted`),
  and the lemmas about them.
- `post_service.dfy`, module `Service`: the class `PostService` with one
  field `state` that every write replaces wholesale, and the class `Registry`,
  whose field `current` stands for the static `_current` field.

Each delayed operation is two steps. `BeginGetPost` is what `getPost` does
when called: it reads the state (line 45) and changes nothing. `CompleteGetPost`
and `CompleteGetPosts` are the timer callbacks. `CompleteGetPost` re-reads the
state when it fires (line 55). Any other call may run between the two steps.

Cached entries are `Option<Post>`. For an id the sample table lacks, the
callback appends `undefined` (`None`). `Array.prototype.find` reads `.id` of
every entry it visits, so a later lookup that reaches such an entry before
a match throws. That throw happens inside the Promise executor, which turns it
into a rejected promise. The model makes this the `Fault` lookup and the
`Rejected` start, not a precondition.

How overlapping calls interact:

- Overlapping `getPost` calls do not lose an append, because the callback
  re-reads the posts when it fires (line 55) (`CompletionsKeepBothAppends`).
- Two calls that both miss the same id append the lookup's result twice: the
  post itself for an id the sample table has (`ConcurrentMissesDuplicate`),
  and `undefined` twice for an id it lacks (`CompletionsKeepBothAppends`
  with both ids equal).
- A `getPosts` completion discards any append that completed before it
  (`GetPostsDiscardsEarlierAppend`).
- A `getPost` call that missed and whose timer fires after a `getPosts`
  completion appends to the sample posts. For an id the sample table has, a
  sample post is then held twice while `count` stays 2
  (`GetPostAfterGetPostsDuplicates`). For an id it lacks, `undefined` is
  appended after the two sample posts, and from then on a lookup for any id
  other than 1 and 2 throws (`GetPostAfterGetPostsUnknownId`).

`getPost` for an unknown id appends `undefined`, so the posts grow by one
(`FreshServiceScenarios`), and later lookups that would have missed throw
(`UnknownIdPoisonsCache`).

## Model

| member | source | states |
|---|---|---|
| `Service.PostService.constructor` | src/service/post.service.ts:74-78 | a new service holds count -1 and no posts |
| `Service.PostService.SetState` | src/service/post.service.ts:38-40 | afterwards getState returns the merge of the partial over the old value: present fields take the partial's value, absent ones keep theirs |
| `Service.PostService.BeginGetPost` | src/service/post.service.ts:43-49 | with state untouched, it resolves with the first cached post with that id. It starts the timer exactly when every entry is a post with another id. It rejects exactly when an `undefined` entry comes before any match |
| `Service.PostService.CompleteGetPost` | src/service/post.service.ts:53-57 | returns the first sample post with the id, or absent exactly when none has it. The new posts are the posts current at completion followed by that same value. count is unchanged |
| `Service.PostService.CompleteGetPosts` | src/service/post.service.ts:63-70 | whatever the prior state, count becomes 2 and posts the sample table. It returns the sample table |
| `Service.Registry.constructor` | src/service/post.service.ts:30 | no instance exists before the first `current()` |
| `Service.Registry.Current` | src/service/post.service.ts:32-35 | the first call creates a fresh service in the initial state. Later calls return that same instance with its state untouched |
| `Service.Registry.WriteThroughOneSeeThroughOther` | src/service/post.service.ts:32-40 | two `current()` results are one object. A `setState` through the first is seen through the second |
| `PostState.FindById` | src/service/post.service.ts:54 | `samplePosts.find`: a result has the id and is the first table entry with it. The result is absent exactly when no entry has the id |
| `PostState.FindCached` | src/service/post.service.ts:47 | `posts.find` over cached entries. A hit is the first entry with the id, after only posts with other ids. Miss holds exactly when every entry is a post with another id. Fault holds exactly when an `undefined` entry is reached first |
| `PostState.GetPostCompleted` | src/service/post.service.ts:54-56 | the getPost callback keeps count. The posts grow by one: the old posts, then the sample lookup's result |
| `PostState.GetPostsCompleted` | src/service/post.service.ts:67 | the getPosts callback leaves count 2 and the sample posts, independent of the prior state |
| `PostState.MergeFields` | src/service/post.service.ts:40 | a field absent from the partial keeps its value; a present one takes the partial's value |
| `PostState.MergeNoChange` | src/service/post.service.ts:40 | merging the empty partial leaves the state as it was |
| `PostState.MergeIdempotent` | src/service/post.service.ts:40 | merging the same partial twice equals merging it once |
| `PostState.MergeTwice` | src/service/post.service.ts:40 | two merges in a row equal one merge of the two partials spread together |
| `PostState.ApplyAllIsOneMerge` | src/service/post.service.ts:38-40 | after any sequence of setState calls the state is the start value merged with all partials spread in order |
| `PostState.ApplyAllKeepsUnset` | src/service/post.service.ts:40 | a field that no partial of the sequence mentions keeps its starting value |
| `PostState.ApplyAllLastCount` | src/service/post.service.ts:40 | count after a sequence of setState calls is the one given by the last partial that has a count |
| `PostState.ApplyAllLastPosts` | src/service/post.service.ts:40 | posts after a sequence of setState calls are the ones given by the last partial that has posts |
| `PostState.SampleLookup` | src/service/post.service.ts:13-19 | the sample table answers id 1 and id 2 with their posts and every other id with absent |
| `PostState.FindCachedAppend` | src/service/post.service.ts:47-55 | appending an entry keeps an existing hit or fault. A miss becomes the lookup of the new entry alone |
| `PostState.CachedAfterCompletion` | src/service/post.service.ts:45-56 | after a miss of an id the sample has, the next lookup hits that post, so no duplicate is appended |
| `PostState.CompletionKeepsEarlierAnswers` | src/service/post.service.ts:45-56 | a getPost completion leaves every lookup that already hit, or already threw, as it was |
| `PostState.UnknownIdPoisonsCache` | src/service/post.service.ts:47-55 | completing getPost for an id the sample lacks makes every lookup that would have missed throw |
| `PostState.CompletionsKeepBothAppends` | src/service/post.service.ts:53-56 | two getPost completions keep both appended results in completion order, with count unchanged |
| `PostState.ConcurrentMissesDuplicate` | src/service/post.service.ts:45-56 | two calls that both missed the same known id append that post twice |
| `PostState.GetPostAfterGetPostsDuplicates` | src/service/post.service.ts:53-67 | a getPost callback that fires after a getPosts completion appends a sample post already held: three posts, the last equal to an earlier one, count still 2 |
| `PostState.GetPostAfterGetPostsUnknownId` | src/service/post.service.ts:47-67 | for an id the sample table lacks, a getPost callback that fires after a getPosts completion leaves count 2 and the posts [post 1, post 2, `undefined`]; afterwards ids 1 and 2 hit and every other id throws |
| `PostState.GetPostsIdempotent` | src/service/post.service.ts:67 | completing getPosts twice yields the same state as once |
| `PostState.GetPostsDiscardsEarlierAppend` | src/service/post.service.ts:55-67 | a getPost append that completed before a getPosts completion is gone after it |
| `PostState.LookupAfterGetPosts` | src/service/post.service.ts:47-67 | after getPosts a lookup hits exactly the sample post with the id, misses otherwise, and never throws |
| `PostState.FreshServiceScenarios` | src/service/post.service.ts:53-77 | from a fresh service getPosts gives count 2 and both sample posts. getPost(1) gives that single post. getPost(999) appends one absent entry |

## Left out

- The RxJS `BehaviorSubject` (subscribe, replay of the latest value, notification order, unsubscribe) and the `state$` getter: library code outside this model. The held value is the plain field `state`.
- `setTimeout` timing and Promise scheduling: each delayed operation is a call-time step and a completion step, and callers choose the interleaving.
- The `usePostService` React hook and `src/App.tsx`: view and lifecycle code. `src/App.tsx` is not part of this model.
- Identity of returned objects: a hit returns the cached object and `getPosts` stores the `samplePosts` array itself. The model compares values, so aliasing is not captured.
- `posts: any[]`: the model's entries are posts or `undefined`, not arbitrary values a caller could pass to `setState`.
- A partial that holds a field explicitly set to `undefined`: the model treats a field as present or absent only.
- `number` ids and counts are modelled as unbounded integers; floating-point ids (NaN, fractions) are not modelled.
- `Service.PostService.GetState`: the read-only accessor is the function the other contracts use; it has no contract of its own.
- Privacy and process-wide uniqueness of the instance: the constructor at line 74 is private and `_current` is one static field, but in the model anyone can call `new PostService()` and several `Registry` objects can exist, so `Service.Registry.Current` gives one instance per `Registry`, not per process.
