/** Values held and exchanged by the post service: posts, the service state
    record, partial updates, the fixed sample table, the two `find` lookups and
    the state changes made by the two simulated-latency callbacks. */
module PostState {

  datatype Option<+T> = None | Some(value: T)

  /** A post; its identity is its id. */
  datatype Post = Post(id: int, title: string)

  /** One entry of the cached posts. The service appends whatever the sample
      lookup produced, which is `undefined` (None) for an unknown id. */
  type Entry = Option<Post>

  /** The record the service holds: `{count, posts}`. */
  datatype ServiceState = ServiceState(count: int, posts: seq<Entry>)

  /** A partial update: a field is present (Some) or absent (None). */
  datatype Partial = Partial(count: Option<int>, posts: Option<seq<Entry>>)

  /** The fixed table the simulated calls read from. */
  const SamplePosts: seq<Post> :=
    [Post(1, "Welcome to React with RxJS"), Post(2, "More fun stuff...")]

  /** The value a newly constructed service holds: count -1 means "not loaded". */
  const InitialState: ServiceState := ServiceState(-1, [])

  /** The partial with no field present. */
  const NoChange: Partial := Partial(None, None)

  /** Shallow merge `{...s, ...p}`: every field present in `p` overwrites. */
  function Merge(s: ServiceState, p: Partial): ServiceState
  {
    ServiceState(
      if p.count.Some? then p.count.value else s.count,
      if p.posts.Some? then p.posts.value else s.posts)
  }

  /** The partial `{...p, ...q}`: fields of `q` win over those of `p`. */
  function Combine(p: Partial, q: Partial): Partial
  {
    Partial(
      if q.count.Some? then q.count else p.count,
      if q.posts.Some? then q.posts else p.posts)
  }

  /** The state after merging each partial of `ps` in turn. */
  function ApplyAll(s: ServiceState, ps: seq<Partial>): ServiceState
    decreases |ps|
  {
    if ps == [] then s else ApplyAll(Merge(s, ps[0]), ps[1..])
  }

  /** All partials of `ps` spread into one, later ones winning. */
  function CombineAll(ps: seq<Partial>): Partial
    decreases |ps|
  {
    if ps == [] then NoChange else Combine(ps[0], CombineAll(ps[1..]))
  }

  /** A posts-only view of a table of posts. */
  function Entries(table: seq<Post>): seq<Entry>
  {
    seq(|table|, k requires 0 <= k < |table| => Some(table[k]))
  }

  /** No post among the first `k` of `table` has id `id`. */
  ghost predicate NoneBefore(table: seq<Post>, id: int, k: int)
  {
    0 <= k <= |table| && forall j :: 0 <= j < k ==> table[j].id != id
  }

  /** `find(post => post.id === id)` over a table of real posts: the first post
      with that id, or `undefined` when there is none. */
  function FindById(table: seq<Post>, id: int): (r: Option<Post>)
    ensures r.Some? ==>
      r.value.id == id &&
      exists k :: NoneBefore(table, id, k) && k < |table| && table[k] == r.value
    ensures r.None? <==> NoneBefore(table, id, |table|)
    decreases |table|
  {
    if table == [] then None
    else if table[0].id == id then Some(table[0])
    else FindById(table[1..], id)
  }

  /** What `find(post => post.id === id)` does over the cached entries: it
      returns the first post with that id (Hit), returns `undefined` after
      visiting every entry (Miss), or throws because it read `.id` of an
      `undefined` entry it reached first (Fault). */
  datatype Lookup = Hit(post: Post) | Miss | Fault

  /** `find` visits the first `k` entries without matching and without
      meeting an `undefined` one. */
  ghost predicate Passes(posts: seq<Entry>, id: int, k: int)
  {
    0 <= k <= |posts| &&
    forall j :: 0 <= j < k ==> posts[j].Some? && posts[j].value.id != id
  }

  function FindCached(posts: seq<Entry>, id: int): (r: Lookup)
    ensures r.Hit? ==>
      r.post.id == id &&
      exists k :: Passes(posts, id, k) && k < |posts| && posts[k] == Some(r.post)
    ensures r.Miss? <==> Passes(posts, id, |posts|)
    ensures r.Fault? <==>
      exists k :: Passes(posts, id, k) && k < |posts| && posts[k].None?
    decreases |posts|
  {
    if posts == [] then Miss
    else match posts[0]
      case None => Fault
      case Some(p) => if p.id == id then Hit(p) else FindCached(posts[1..], id)
  }

  /** The state the `getPost` timer callback leaves: it re-reads the current
      posts, appends the sample lookup's result and merges `{posts}` in. */
  function GetPostCompleted(s: ServiceState, id: int): (r: ServiceState)
    ensures r.count == s.count
    ensures |r.posts| == |s.posts| + 1
    ensures r.posts[..|s.posts|] == s.posts
    ensures r.posts[|s.posts|] == FindById(SamplePosts, id)
  {
    Merge(s, Partial(None, Some(s.posts + [FindById(SamplePosts, id)])))
  }

  /** The state the `getPosts` timer callback leaves: it merges
      `{count: samplePosts.length, posts: samplePosts}` in. */
  function GetPostsCompleted(s: ServiceState): (r: ServiceState)
    ensures r.count == |SamplePosts| == 2
    ensures r.posts == Entries(SamplePosts)
  {
    Merge(s, Partial(Some(|SamplePosts|), Some(Entries(SamplePosts))))
  }

  // ---------------------------------------------------------------------
  // setState: shallow merge

  /** A field absent from the partial keeps its value; a present one takes
      the partial's value; nothing else is in the record. */
  lemma MergeFields(s: ServiceState, p: Partial)
    ensures p.count.None? ==> Merge(s, p).count == s.count
    ensures p.count.Some? ==> Merge(s, p).count == p.count.value
    ensures p.posts.None? ==> Merge(s, p).posts == s.posts
    ensures p.posts.Some? ==> Merge(s, p).posts == p.posts.value
  {
  }

  /** Merging the empty partial changes nothing. */
  lemma MergeNoChange(s: ServiceState)
    ensures Merge(s, NoChange) == s
  {
  }

  /** Merging the same partial twice is merging it once. */
  lemma MergeIdempotent(s: ServiceState, p: Partial)
    ensures Merge(Merge(s, p), p) == Merge(s, p)
  {
  }

  /** Two merges in a row are one merge of the combined partial. */
  lemma MergeTwice(s: ServiceState, p: Partial, q: Partial)
    ensures Merge(Merge(s, p), q) == Merge(s, Combine(p, q))
  {
  }

  /** After any sequence of setState calls the state is the starting value
      merged with all the partials spread in order. */
  lemma {:induction false} ApplyAllIsOneMerge(s: ServiceState, ps: seq<Partial>)
    ensures ApplyAll(s, ps) == Merge(s, CombineAll(ps))
    decreases |ps|
  {
    if ps != [] {
      ApplyAllIsOneMerge(Merge(s, ps[0]), ps[1..]);
      MergeTwice(s, ps[0], CombineAll(ps[1..]));
    }
  }

  /** A field that no partial of the sequence mentions keeps its value. */
  lemma {:induction false} ApplyAllKeepsUnset(s: ServiceState, ps: seq<Partial>)
    ensures (forall j :: 0 <= j < |ps| ==> ps[j].count.None?) ==>
      ApplyAll(s, ps).count == s.count
    ensures (forall j :: 0 <= j < |ps| ==> ps[j].posts.None?) ==>
      ApplyAll(s, ps).posts == s.posts
    decreases |ps|
  {
    if ps != [] {
      ApplyAllKeepsUnset(Merge(s, ps[0]), ps[1..]);
      assert forall j :: 0 <= j < |ps[1..]| ==> ps[1..][j] == ps[j + 1];
    }
  }

  /** The count afterwards is the one given by the last partial that has one. */
  lemma {:induction false} ApplyAllLastCount(s: ServiceState, ps: seq<Partial>, k: int)
    requires 0 <= k < |ps| && ps[k].count.Some?
    requires forall j :: k < j < |ps| ==> ps[j].count.None?
    ensures ApplyAll(s, ps).count == ps[k].count.value
    decreases |ps|
  {
    assert forall j :: 0 <= j < |ps[1..]| ==> ps[1..][j] == ps[j + 1];
    if k == 0 {
      ApplyAllKeepsUnset(Merge(s, ps[0]), ps[1..]);
    } else {
      ApplyAllLastCount(Merge(s, ps[0]), ps[1..], k - 1);
    }
  }

  /** The posts afterwards are the ones given by the last partial that has them. */
  lemma {:induction false} ApplyAllLastPosts(s: ServiceState, ps: seq<Partial>, k: int)
    requires 0 <= k < |ps| && ps[k].posts.Some?
    requires forall j :: k < j < |ps| ==> ps[j].posts.None?
    ensures ApplyAll(s, ps).posts == ps[k].posts.value
    decreases |ps|
  {
    assert forall j :: 0 <= j < |ps[1..]| ==> ps[1..][j] == ps[j + 1];
    if k == 0 {
      ApplyAllKeepsUnset(Merge(s, ps[0]), ps[1..]);
    } else {
      ApplyAllLastPosts(Merge(s, ps[0]), ps[1..], k - 1);
    }
  }

  // ---------------------------------------------------------------------
  // Lookups

  /** The sample table answers ids 1 and 2 and nothing else. */
  lemma SampleLookup(id: int)
    ensures FindById(SamplePosts, id) ==
      if id == 1 then Some(Post(1, "Welcome to React with RxJS"))
      else if id == 2 then Some(Post(2, "More fun stuff..."))
      else None
  {
  }

  /** Appending an entry leaves a Hit or a Fault of the old posts as it was;
      a Miss becomes whatever the lookup makes of the new entry alone. */
  lemma {:induction false} FindCachedAppend(posts: seq<Entry>, e: Entry, id: int)
    ensures FindCached(posts + [e], id) ==
      if FindCached(posts, id).Miss? then FindCached([e], id) else FindCached(posts, id)
    decreases |posts|
  {
    if posts != [] {
      assert (posts + [e])[1..] == posts[1..] + [e];
      if posts[0].Some? && posts[0].value.id != id {
        FindCachedAppend(posts[1..], e, id);
      }
    }
  }

  // ---------------------------------------------------------------------
  // getPost completion

  /** Once a missed id that the sample table knows has been appended, the
      next lookup for it is a hit on that post: no second fetch. */
  lemma CachedAfterCompletion(s: ServiceState, id: int)
    requires FindCached(s.posts, id).Miss?
    requires FindById(SamplePosts, id).Some?
    ensures FindCached(GetPostCompleted(s, id).posts, id) ==
      Hit(FindById(SamplePosts, id).value)
  {
  }

  /** A completion does not disturb a lookup that already hit (or faulted). */
  lemma CompletionKeepsEarlierAnswers(s: ServiceState, id: int, other: int)
    requires !FindCached(s.posts, other).Miss?
    ensures FindCached(GetPostCompleted(s, id).posts, other) == FindCached(s.posts, other)
  {
  }

  /** Completing getPost for an id the sample table lacks appends `undefined`;
      from then on every lookup that would have missed throws instead. */
  lemma UnknownIdPoisonsCache(s: ServiceState, id: int, other: int)
    requires FindById(SamplePosts, id).None?
    requires FindCached(s.posts, other).Miss?
    ensures FindCached(GetPostCompleted(s, id).posts, other) == Fault
  {
  }

  /** Each completion re-reads the state it appends to, so two completions
      keep both appends, in completion order. */
  lemma CompletionsKeepBothAppends(s: ServiceState, a: int, b: int)
    ensures GetPostCompleted(GetPostCompleted(s, a), b) ==
      ServiceState(s.count, s.posts + [FindById(SamplePosts, a), FindById(SamplePosts, b)])
  {
  }

  /** Two calls for the same id that both missed at call time both append it. */
  lemma ConcurrentMissesDuplicate(s: ServiceState, id: int)
    requires FindCached(s.posts, id).Miss?
    requires FindById(SamplePosts, id).Some?
    ensures var t := GetPostCompleted(GetPostCompleted(s, id), id);
      |t.posts| == |s.posts| + 2 &&
      t.posts[|s.posts|] == t.posts[|s.posts| + 1] == FindById(SamplePosts, id)
  {
  }

  // ---------------------------------------------------------------------
  // getPosts completion

  /** Completing getPosts twice leaves the same state as completing it once. */
  lemma GetPostsIdempotent(s: ServiceState)
    ensures GetPostsCompleted(GetPostsCompleted(s)) == GetPostsCompleted(s)
  {
  }

  /** getPosts ignores the state it overwrites: a getPost append that
      completed before it is gone afterwards. */
  lemma GetPostsDiscardsEarlierAppend(s: ServiceState, id: int)
    ensures GetPostsCompleted(GetPostCompleted(s, id)) == GetPostsCompleted(s)
  {
  }

  /** A getPost call that missed at call time and whose timer fires after a
      getPosts completion appends to the sample posts it then reads: a sample
      post is held twice while count stays 2. */
  lemma GetPostAfterGetPostsDuplicates(s: ServiceState, id: int)
    requires FindById(SamplePosts, id).Some?
    ensures var t := GetPostCompleted(GetPostsCompleted(s), id);
      t.count == 2 && |t.posts| == 3 &&
      t.posts[2] == FindById(SamplePosts, id) && t.posts[2] in t.posts[..2]
  {
    var t := GetPostCompleted(GetPostsCompleted(s), id);
    assert t.posts[..2] == [Some(SamplePosts[0]), Some(SamplePosts[1])];
  }

  /** For an id the sample table lacks, the late getPost callback appends
      `undefined` to the sample posts; from then on a lookup for any id other
      than 1 and 2 throws, while ids 1 and 2 still hit. */
  lemma {:induction false} GetPostAfterGetPostsUnknownId(s: ServiceState, id: int)
    requires FindById(SamplePosts, id).None?
    ensures var t := GetPostCompleted(GetPostsCompleted(s), id);
      t.count == 2 &&
      t.posts == [Some(SamplePosts[0]), Some(SamplePosts[1]), None] &&
      (forall other :: FindCached(t.posts, other) ==
        if other == 1 then Hit(SamplePosts[0])
        else if other == 2 then Hit(SamplePosts[1])
        else Fault)
  {
    var g := GetPostsCompleted(s);
    var t := GetPostCompleted(g, id);
    assert g.posts == [Some(SamplePosts[0]), Some(SamplePosts[1])];
    forall other
      ensures FindCached(t.posts, other) ==
        if other == 1 then Hit(SamplePosts[0])
        else if other == 2 then Hit(SamplePosts[1])
        else Fault
    {
      LookupAfterGetPosts(s, other);
      SampleLookup(other);
      FindCachedAppend(g.posts, None, other);
    }
  }

  /** After getPosts every lookup hits exactly when the sample table has the
      id, and never throws, whatever the state held before. */
  lemma LookupAfterGetPosts(s: ServiceState, id: int)
    ensures FindCached(GetPostsCompleted(s).posts, id) ==
      match FindById(SamplePosts, id)
      case Some(p) => Hit(p)
      case None => Miss
  {
  }

  /** Scenarios written out for a fresh service. */
  lemma FreshServiceScenarios()
    ensures GetPostsCompleted(InitialState) == ServiceState(2,
      [Some(Post(1, "Welcome to React with RxJS")), Some(Post(2, "More fun stuff..."))])
    ensures GetPostCompleted(InitialState, 1) ==
      ServiceState(-1, [Some(Post(1, "Welcome to React with RxJS"))])
    ensures GetPostCompleted(InitialState, 999) == ServiceState(-1, [None])
  {
  }
}
