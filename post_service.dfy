/** The post service object: one held state record, replaced wholesale on
    every write, two operations that fill it after a simulated delay, and the
    lazily created process-wide instance. Each delayed operation is split into
    the step that runs when it is called and the step that runs when its timer
    fires; what happens in between is up to the caller. */
module Service {
  import opened PostState

  /** What a `getPost` call does before any delay: resolve at once with a
      cached post, start the timer, or reject because the cache lookup threw. */
  datatype Started = Resolved(post: Post) | Pending | Rejected

  class PostService {
    /** The value the service holds and broadcasts. */
    var state: ServiceState

    /** A new service holds `{count: -1, posts: []}`. */
    constructor ()
      ensures state == InitialState
      ensures state.count == -1 && state.posts == []
    {
      state := InitialState;
    }

    /** The current value. */
    function GetState(): ServiceState
      reads this
    {
      state
    }

    /** Replace the held value by the shallow merge of `p` over it. */
    method SetState(p: Partial)
      modifies this
      ensures GetState() == Merge(old(GetState()), p)
      ensures p.count.None? ==> state.count == old(state.count)
      ensures p.posts.None? ==> state.posts == old(state.posts)
      ensures p.count.Some? ==> state.count == p.count.value
      ensures p.posts.Some? ==> state.posts == p.posts.value
    {
      state := Merge(GetState(), p);
    }

    /** The call-time step of `getPost(id)`. It reads the state and changes
        nothing. It resolves with the first cached post with that id; it
        starts the timer when `find` visits every entry without a match; it
        rejects when `find` reaches an `undefined` entry first. */
    method BeginGetPost(id: int) returns (r: Started)
      ensures r.Resolved? ==>
        r.post.id == id &&
        exists k :: Passes(state.posts, id, k) && k < |state.posts| &&
          state.posts[k] == Some(r.post)
      ensures r.Pending? <==> Passes(state.posts, id, |state.posts|)
      ensures r.Rejected? <==>
        exists k :: Passes(state.posts, id, k) && k < |state.posts| &&
          state.posts[k].None?
    {
      var posts := GetState().posts;
      match FindCached(posts, id)
      case Hit(p) => r := Resolved(p);
      case Miss => r := Pending;
      case Fault => r := Rejected;
    }

    /** The timer step of `getPost(id)`. It looks the id up in the sample
        table, appends the result (possibly `undefined`) to the posts current
        NOW, stores them and resolves with the same result. */
    method CompleteGetPost(id: int) returns (r: Option<Post>)
      modifies this
      ensures r == FindById(SamplePosts, id)
      ensures r.Some? ==> r.value in SamplePosts && r.value.id == id
      ensures r.None? <==> forall k :: 0 <= k < |SamplePosts| ==> SamplePosts[k].id != id
      ensures state == GetPostCompleted(old(state), id)
      ensures state.count == old(state.count)
      ensures state.posts == old(state.posts) + [r]
    {
      var post := FindById(SamplePosts, id);
      var posts := GetState().posts + [post];
      SetState(Partial(None, Some(posts)));
      r := post;
    }

    /** The timer step of `getPosts()` (its call-time step does nothing). It
        overwrites both fields with the sample table, whatever was held
        before, and resolves with that table. */
    method CompleteGetPosts() returns (r: seq<Post>)
      modifies this
      ensures r == SamplePosts
      ensures state == GetPostsCompleted(old(state))
      ensures state.count == |r| == 2
      ensures state.posts == Entries(r)
    {
      SetState(Partial(Some(|SamplePosts|), Some(Entries(SamplePosts))));
      r := SamplePosts;
    }
  }

  /** Holder of the process-wide instance (the class's static field). */
  class Registry {
    var current: PostService?

    /** At start-up no instance exists. */
    constructor ()
      ensures current == null
    {
      current := null;
    }

    /** `current()`: create the instance on the first call, then always hand
        back that same instance with its state untouched. */
    method Current() returns (s: PostService)
      modifies this
      ensures current == s
      ensures old(current) != null ==> s == old(current) && s.state == old(current.state)
      ensures old(current) == null ==> fresh(s) && s.state == InitialState
    {
      if current == null {
        current := new PostService();
      }
      s := current;
    }

    /** Two `current()` calls with a write through the first result between
        them: both results are one object, and the second sees the write. */
    method WriteThroughOneSeeThroughOther(p: Partial) returns (a: PostService, b: PostService)
      modifies this, current
      ensures a == b && b == current
      ensures b.GetState() ==
        Merge(if old(current) == null then InitialState else old(current.state), p)
    {
      a := Current();
      a.SetState(p);
      b := Current();
    }
  }
}
