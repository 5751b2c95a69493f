/** The persistence layer the routes call (`createPost`, `getAllPosts`,
    `updatePost`, `getPostById`, `deletePost`, `getUserById`). Its own code is
    not part of this model: it is an in-memory store with the simplest
    semantics those calls suggest, an environment that says which calls throw
    and whether `createPost` resolves to nothing, and a ghost log of the calls
    made. */
module Db {
  import opened Wrappers

  type UserId = int
  type PostId = int

  /** A user record of the users table. */
  datatype User = User(id: UserId, username: string)

  /** The `author` object of a post; the routes only ever read its `id`. */
  datatype Author = Author(id: UserId)

  datatype Post = Post(
    id: PostId,
    author: Author,
    title: Option<string>,
    content: string,
    tags: seq<string>,
    active: bool)

  /** The `postData` object handed to `createPost`. */
  datatype PostDraft = PostDraft(authorId: UserId, title: Option<string>, content: string, tags: seq<string>)

  /** The `updateFields` object handed to `updatePost`: a key is either present
      (`Some`) or absent (`None`); there is no key for the author. */
  datatype PostPatch = PostPatch(title: Option<string>, content: Option<string>, tags: Option<seq<string>>)

  /** The `{ name, message }` shape of every error that reaches `next`. */
  datatype NamedError = NamedError(name: string, message: string)

  /** What an awaited store call gives back: a value, or the error it threw. */
  datatype DbResult<T> = Ok(value: T) | Threw(error: NamedError)

  /** One call into the store, as recorded in the ghost log. */
  datatype DbCall =
    | GetAllPosts
    | CreatePost(draft: PostDraft)
    | UpdatePost(postId: PostId, patch: PostPatch)
    | GetPostById(postId: PostId)
    | DeletePost(postId: PostId)
    | GetUserById(userId: UserId)

  /** The six store functions, as keys for the calls that throw. */
  datatype CallKind = AllPostsCall | PostByIdCall | CreateCall | UpdateCall | DeleteCall | UserByIdCall

  /** The error `getUserById` throws for an id with no user record. */
  const USER_NOT_FOUND := NamedError("UserNotFoundError", "A user with that id does not exist")

  /** What the routes cannot change about the store: the users table, the
      error each kind of call throws (a kind without an entry succeeds), and
      whether `createPost` resolves to nothing. */
  datatype Env = Env(users: map<UserId, User>, faults: map<CallKind, NamedError>, createReturnsNothing: bool)
  {
    /** The outcome of `getUserById(id)`. */
    function FindUser(id: UserId): (r: DbResult<User>)
      ensures r.Ok? <==> UserByIdCall !in faults && id in users
      ensures r.Ok? ==> r.value == users[id]
      ensures UserByIdCall in faults ==> r == Threw(faults[UserByIdCall])
      ensures UserByIdCall !in faults && id !in users ==> r == Threw(USER_NOT_FOUND)
    {
      if UserByIdCall in faults then Threw(faults[UserByIdCall])
      else if id in users then Ok(users[id])
      else Threw(USER_NOT_FOUND)
    }
  }

  /** The post `createPost` stores for a draft under a fresh id. New posts are
      active. */
  function NewPost(id: PostId, draft: PostDraft): (p: Post)
    ensures p.id == id && p.author.id == draft.authorId && p.active
    ensures p.title == draft.title && p.content == draft.content && p.tags == draft.tags
  {
    Post(id, Author(draft.authorId), draft.title, draft.content, draft.tags, true)
  }

  /** What `updatePost` stores: every key present in the patch replaces that
      field; every other field, and the id, author and visibility, stay. */
  function ApplyPatch(p: Post, patch: PostPatch): (q: Post)
    ensures q.id == p.id && q.author == p.author && q.active == p.active
    ensures patch.title.None? ==> q.title == p.title
    ensures patch.title.Some? ==> q.title == patch.title
    ensures q.content == patch.content.GetOr(p.content)
    ensures q.tags == patch.tags.GetOr(p.tags)
  {
    p.(title := if patch.title.Some? then patch.title else p.title,
       content := patch.content.GetOr(p.content),
       tags := patch.tags.GetOr(p.tags))
  }

  predicate Distinct(ids: seq<PostId>) {
    forall i, j :: 0 <= i < j < |ids| ==> ids[i] != ids[j]
  }

  /** `a` is `b` with some elements left out and the rest in their order. */
  ghost predicate IsSubsequence<T>(a: seq<T>, b: seq<T>)
    decreases |b|
  {
    a == [] || (b != [] && ((a[0] == b[0] && IsSubsequence(a[1..], b[1..])) || IsSubsequence(a, b[1..])))
  }

  /** The ids in order, with `id` taken out. */
  function Without(ids: seq<PostId>, id: PostId): (r: seq<PostId>)
    ensures forall x :: x in r <==> x in ids && x != id
    ensures Distinct(ids) ==> Distinct(r)
    ensures IsSubsequence(r, ids)
  {
    if ids == [] then []
    else
      var rest := Without(ids[1..], id);
      assert Distinct(ids) ==> ids[0] !in ids[1..];
      if ids[0] == id then rest
      else
        assert ([ids[0]] + rest)[1..] == rest;
        [ids[0]] + rest
  }

  /** The stored posts for `ids`, in the order of `ids`. */
  function PostsAt(ids: seq<PostId>, posts: map<PostId, Post>): (r: seq<Post>)
    requires forall i :: 0 <= i < |ids| ==> ids[i] in posts
    ensures |r| == |ids|
    ensures forall i :: 0 <= i < |ids| ==> r[i] == posts[ids[i]]
  {
    if ids == [] then [] else [posts[ids[0]]] + PostsAt(ids[1..], posts)
  }

  /** The data the store holds: what the routes may change. */
  datatype Snapshot = Snapshot(posts: map<PostId, Post>, order: seq<PostId>, nextId: PostId)
  {
    /** Every post is stored under its own id, below the next fresh id, and
        listed exactly once in the order. */
    predicate Valid() {
      && (forall id :: id in posts ==> posts[id].id == id && id < nextId)
      && (forall i :: 0 <= i < |order| ==> order[i] in posts)
      && (forall id :: id in posts ==> id in order)
      && Distinct(order)
    }

    /** The result of `getAllPosts`: every stored post, each listed under its
        own id. */
    function Listing(): (r: seq<Post>)
      requires Valid()
      ensures forall id :: id in posts ==> posts[id] in r
      ensures forall p :: p in r ==> p.id in posts && posts[p.id] == p
    {
      var r := PostsAt(order, posts);
      assert forall id :: id in posts ==> posts[id] in r by {
        forall id | id in posts ensures posts[id] in r {
          var i :| 0 <= i < |order| && order[i] == id;
          assert r[i] == posts[id];
        }
      }
      r
    }

    /** The data after `createPost(draft)`: the new post is stored under the
        fresh id and listed last; every post listed before stays listed. */
    function Created(draft: PostDraft): (s: Snapshot)
      requires Valid()
      ensures s.Valid()
      ensures nextId !in posts
      ensures s == Snapshot(posts[nextId := NewPost(nextId, draft)], order + [nextId], nextId + 1)
      ensures NewPost(nextId, draft) in s.Listing()
      ensures forall p :: p in Listing() ==> p in s.Listing()
    {
      var p := NewPost(nextId, draft);
      assert p.id !in order;
      var s := Snapshot(posts[p.id := p], order + [p.id], nextId + 1);
      assert s.Valid() by {
        assert forall i :: 0 <= i < |s.order| ==> s.order[i] in s.posts;
        assert Distinct(s.order);
      }
      assert p in s.Listing() by {
        assert s.posts[p.id] == p;
      }
      forall q | q in Listing()
        ensures q in s.Listing()
      {
        assert q.id in posts && s.posts[q.id] == q;
      }
      s
    }

    /** The data after `updatePost(id, patch)`: the post under `id` is patched
        in place and every other post stays. */
    function Patched(id: PostId, patch: PostPatch): (s: Snapshot)
      requires Valid() && id in posts
      ensures s.Valid()
      ensures s == Snapshot(posts[id := ApplyPatch(posts[id], patch)], order, nextId)
      ensures ApplyPatch(posts[id], patch) in s.Listing()
    {
      Snapshot(posts[id := ApplyPatch(posts[id], patch)], order, nextId)
    }

    /** The data after `deletePost(id)`: the post under `id` is gone from the
        table and the order, and the listing keeps every other post. */
    function Removed(id: PostId): (s: Snapshot)
      requires Valid()
      ensures s.Valid()
      ensures s == Snapshot(posts - {id}, Without(order, id), nextId)
      ensures forall p :: p in s.Listing() ==> p.id != id && p in Listing()
      ensures forall p :: p in Listing() && p.id != id ==> p in s.Listing()
    {
      var rest := Without(order, id);
      assert forall i :: 0 <= i < |rest| ==> rest[i] in rest;
      Snapshot(posts - {id}, rest, nextId)
    }
  }

  class Store {
    /** The posts table, by id. */
    var posts: map<PostId, Post>
    /** The order in which `getAllPosts` lists the posts. */
    var order: seq<PostId>
    /** The id the next created post gets. */
    var nextId: PostId
    /** The users table and the failure switches. */
    var env: Env
    /** Every call made, in order. */
    ghost var calls: seq<DbCall>

    ghost predicate Valid()
      reads this`posts, this`order, this`nextId
    {
      Data().Valid()
    }

    function Data(): Snapshot
      reads this`posts, this`order, this`nextId
    {
      Snapshot(posts, order, nextId)
    }

    constructor (users: map<UserId, User>)
      ensures Valid()
      ensures Data() == Snapshot(map[], [], 1)
      ensures env == Env(users, map[], false) && calls == []
    {
      this.posts := map[];
      this.order := [];
      this.nextId := 1;
      this.env := Env(users, map[], false);
      this.calls := [];
    }

    method GetAllPosts() returns (r: DbResult<seq<Post>>)
      requires Valid()
      modifies this`calls
      ensures calls == old(calls) + [DbCall.GetAllPosts]
      ensures AllPostsCall in env.faults ==> r == Threw(env.faults[AllPostsCall])
      ensures AllPostsCall !in env.faults ==> r == Ok(Data().Listing())
    {
      calls := calls + [DbCall.GetAllPosts];
      if AllPostsCall in env.faults {
        r := Threw(env.faults[AllPostsCall]);
      } else {
        r := Ok(PostsAt(order, posts));
      }
    }

    method GetPostById(id: PostId) returns (r: DbResult<Option<Post>>)
      modifies this`calls
      ensures calls == old(calls) + [DbCall.GetPostById(id)]
      ensures PostByIdCall in env.faults ==> r == Threw(env.faults[PostByIdCall])
      ensures PostByIdCall !in env.faults && id in posts ==> r == Ok(Some(posts[id]))
      ensures PostByIdCall !in env.faults && id !in posts ==> r == Ok(None)
    {
      calls := calls + [DbCall.GetPostById(id)];
      if PostByIdCall in env.faults {
        r := Threw(env.faults[PostByIdCall]);
      } else if id in posts {
        r := Ok(Some(posts[id]));
      } else {
        r := Ok(None);
      }
    }

    method CreatePost(draft: PostDraft) returns (r: DbResult<Option<Post>>)
      requires Valid()
      modifies this`posts, this`order, this`nextId, this`calls
      ensures Valid()
      ensures calls == old(calls) + [DbCall.CreatePost(draft)]
      ensures CreateCall in env.faults ==>
                r == Threw(env.faults[CreateCall]) && Data() == old(Data())
      ensures CreateCall !in env.faults && env.createReturnsNothing ==>
                r == Ok(None) && Data() == old(Data())
      ensures CreateCall !in env.faults && !env.createReturnsNothing ==>
                && r == Ok(Some(NewPost(old(nextId), draft)))
                && Data() == old(Data()).Created(draft)
    {
      calls := calls + [DbCall.CreatePost(draft)];
      if CreateCall in env.faults {
        r := Threw(env.faults[CreateCall]);
      } else if env.createReturnsNothing {
        r := Ok(None);
      } else {
        var p := NewPost(nextId, draft);
        ghost var before := Data();
        posts := posts[p.id := p];
        order := order + [p.id];
        nextId := nextId + 1;
        assert Data() == before.Created(draft);
        r := Ok(Some(p));
      }
    }

    method UpdatePost(id: PostId, patch: PostPatch) returns (r: DbResult<Post>)
      requires Valid() && id in posts
      modifies this`posts, this`calls
      ensures Valid()
      ensures calls == old(calls) + [DbCall.UpdatePost(id, patch)]
      ensures UpdateCall in env.faults ==>
                r == Threw(env.faults[UpdateCall]) && Data() == old(Data())
      ensures UpdateCall !in env.faults ==>
                && r == Ok(ApplyPatch(old(posts)[id], patch))
                && Data() == old(Data()).Patched(id, patch)
    {
      calls := calls + [DbCall.UpdatePost(id, patch)];
      if UpdateCall in env.faults {
        r := Threw(env.faults[UpdateCall]);
      } else {
        ghost var before := Data();
        var q := ApplyPatch(posts[id], patch);
        posts := posts[id := q];
        assert Data() == before.Patched(id, patch);
        r := Ok(q);
      }
    }

    method DeletePost(id: PostId) returns (r: DbResult<()>)
      requires Valid()
      modifies this`posts, this`order, this`calls
      ensures Valid()
      ensures calls == old(calls) + [DbCall.DeletePost(id)]
      ensures DeleteCall in env.faults ==>
                r == Threw(env.faults[DeleteCall]) && Data() == old(Data())
      ensures DeleteCall !in env.faults ==>
                r == Ok(()) && Data() == old(Data()).Removed(id)
    {
      calls := calls + [DbCall.DeletePost(id)];
      if DeleteCall in env.faults {
        r := Threw(env.faults[DeleteCall]);
      } else {
        ghost var before := Data();
        posts := posts - {id};
        order := Without(order, id);
        assert Data() == before.Removed(id);
        r := Ok(());
      }
    }

    method GetUserById(id: UserId) returns (r: DbResult<User>)
      modifies this`calls
      ensures calls == old(calls) + [DbCall.GetUserById(id)]
      ensures r == env.FindUser(id)
    {
      calls := calls + [DbCall.GetUserById(id)];
      if UserByIdCall in env.faults {
        r := Threw(env.faults[UserByIdCall]);
      } else if id in env.users {
        r := Ok(env.users[id]);
      } else {
        r := Threw(USER_NOT_FOUND);
      }
    }
  }
}
