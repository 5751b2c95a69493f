/** The posts router: list, create, update and delete, each a handler over the
    store and the request, returning the response it sends or the error it
    hands to `next`. */
module Posts {
  import opened Wrappers
  import opened Db
  import opened Tokenize
  import opened Utils

  /** What a handler sends with `res.send`. */
  datatype Payload =
    | PostList(posts: seq<Post>)
    | CreatedPost(post: Post)
    | UpdatedPost(post: Post)
    | Message(message: string)

  /** How a request ends: a direct JSON response with a status (only the guard
      sends one), a payload sent with `res.send`, or an error passed to `next`. */
  datatype Response =
    | Json(status: int, errorText: string)
    | Sent(payload: Payload)
    | Forwarded(error: NamedError)

  const POST_CREATION_ERROR :=
    NamedError("PostCreationError", "There was an error creating your post. Please try again.")
  const UPDATE_NOT_YOURS :=
    NamedError("UnauthorizedUserError", "You cannot update a post that is not yours")
  const DELETE_NOT_YOURS :=
    NamedError("UnauthorizedUserError", "You cannot delete a post that is not yours")
  const POST_NOT_FOUND := NamedError("PostNotFoundError", "Post not found")
  /** What the update handler's `catch` receives when `getPostById` finds
      nothing and `originalPost.author` is read from it. The text is V8's for
      a `null` result; it stands for whatever TypeError the engine raises
      (the wording differs for `undefined` and between engines). */
  const NULL_POST_READ := NamedError("TypeError", "Cannot read properties of null (reading 'author')")
  const DELETED_MESSAGE := "Post deleted successfully"

  /** JavaScript truthiness of an optional string body field. */
  predicate Truthy(field: Option<string>) {
    field.Some? && field.value != ""
  }

  /** The list filter: a post is shown when it is active or the viewer wrote it. */
  predicate VisibleTo(post: Post, viewer: Option<User>) {
    post.active || (viewer.Some? && post.author.id == viewer.value.id)
  }

  /** `allPosts.filter(...)`: exactly the visible posts, each as often as it is
      stored, in the store's order. An anonymous viewer sees the active posts. */
  function VisiblePosts(posts: seq<Post>, viewer: Option<User>): (r: seq<Post>)
    ensures forall p :: p in r <==> p in posts && VisibleTo(p, viewer)
    ensures viewer.None? ==> forall p :: p in r <==> p in posts && p.active
    ensures forall p :: multiset(r)[p] == if VisibleTo(p, viewer) then multiset(posts)[p] else 0
    ensures IsSubsequence(r, posts)
  {
    if posts == [] then []
    else
      var rest := VisiblePosts(posts[1..], viewer);
      assert posts == [posts[0]] + posts[1..];
      if VisibleTo(posts[0], viewer) then
        assert ([posts[0]] + rest)[1..] == rest;
        [posts[0]] + rest
      else
        rest
  }

  /** The `postData` of the create handler: the caller is the author, an
      undefined `content` becomes "", and `tags` is tokenised when truthy and
      is the empty list otherwise. */
  function Draft(caller: User, body: Body): (d: PostDraft)
    ensures d.authorId == caller.id && d.title == body.title
    ensures body.content.None? ==> d.content == ""
    ensures body.content.Some? ==> d.content == body.content.value
    ensures !Truthy(body.tags) ==> d.tags == []
    ensures Truthy(body.tags) ==> d.tags == Tags(body.tags.value)
  {
    PostDraft(caller.id, body.title, body.content.GetOr(""),
              if Truthy(body.tags) then Tags(body.tags.value) else [])
  }

  /** The `updateFields` of the update handler: a key for each truthy field
      and for no other, never one for the author. */
  function UpdateFields(body: Body): (patch: PostPatch)
    ensures patch.title.Some? <==> Truthy(body.title)
    ensures patch.content.Some? <==> Truthy(body.content)
    ensures patch.tags.Some? <==> Truthy(body.tags)
    ensures patch.title.Some? ==> patch.title == body.title
    ensures patch.content.Some? ==> patch.content == body.content
    ensures patch.tags.Some? ==> patch.tags.value == Tags(body.tags.value)
  {
    PostPatch(if Truthy(body.title) then body.title else None,
              if Truthy(body.content) then body.content else None,
              if Truthy(body.tags) then Some(Tags(body.tags.value)) else None)
  }

  /** Builds `updateFields` the way the handler does, one key at a time. */
  method BuildUpdateFields(body: Body) returns (patch: PostPatch)
    ensures patch == UpdateFields(body)
  {
    patch := PostPatch(None, None, None);
    if body.tags.Some? && |body.tags.value| > 0 {
      patch := patch.(tags := Some(Tags(body.tags.value)));
    }
    if Truthy(body.title) {
      patch := patch.(title := body.title);
    }
    if Truthy(body.content) {
      patch := patch.(content := body.content);
    }
  }

  /** An update that supplies only a title changes the title and nothing else
      of the stored post. */
  lemma TitleOnlyUpdate(p: Post, title: string)
    requires title != ""
    ensures ApplyPatch(p, UpdateFields(Body(Some(title), None, None))) == p.(title := Some(title))
  {
  }


  /** How a request ends (the response), what the store holds afterwards, and
      the store calls made on the way, in order. */
  datatype Outcome = Outcome(resp: Response, data: Snapshot, calls: seq<DbCall>)

  /** GET `/`: one `getAllPosts` call and no write. Unless that call throws,
      the response lists exactly the stored posts the viewer may see, in the
      store's order. */
  function ListOutcome(env: Env, d: Snapshot, viewer: Option<User>): (o: Outcome)
    requires d.Valid()
    ensures o.data == d && o.calls == [DbCall.GetAllPosts]
    ensures AllPostsCall in env.faults ==> o.resp == Forwarded(env.faults[AllPostsCall])
    ensures AllPostsCall !in env.faults ==>
              && o.resp.Sent? && o.resp.payload.PostList?
              && var shown := o.resp.payload.posts;
              && (forall id :: id in d.posts ==> (d.posts[id] in shown <==> VisibleTo(d.posts[id], viewer)))
              && (forall p :: p in shown ==> p.id in d.posts && d.posts[p.id] == p && VisibleTo(p, viewer))
              && IsSubsequence(shown, d.Listing())
  {
    if AllPostsCall in env.faults then Outcome(Forwarded(env.faults[AllPostsCall]), d, [DbCall.GetAllPosts])
    else Outcome(Sent(PostList(VisiblePosts(d.Listing(), viewer))), d, [DbCall.GetAllPosts])
  }

  /** POST `/` for the user `user`: one `createPost` call with the draft. On
      success the new post is sent and stored; a store that resolves to
      nothing gives `PostCreationError`, a throwing one its error, and both
      leave the data as it was. */
  function CreateOutcome(env: Env, d: Snapshot, user: User, body: Body): (o: Outcome)
    requires d.Valid()
    ensures o.data.Valid()
    ensures o.calls == [DbCall.CreatePost(Draft(user, body))]
    ensures CreateCall in env.faults ==> o.resp == Forwarded(env.faults[CreateCall]) && o.data == d
    ensures CreateCall !in env.faults && env.createReturnsNothing ==>
              o.resp == Forwarded(POST_CREATION_ERROR) && o.data == d
    ensures CreateCall !in env.faults && !env.createReturnsNothing ==>
              && o.resp == Sent(CreatedPost(NewPost(d.nextId, Draft(user, body))))
              && o.data == d.Created(Draft(user, body))
  {
    var draft := Draft(user, body);
    var calls := [DbCall.CreatePost(draft)];
    if CreateCall in env.faults then Outcome(Forwarded(env.faults[CreateCall]), d, calls)
    else if env.createReturnsNothing then Outcome(Forwarded(POST_CREATION_ERROR), d, calls)
    else Outcome(Sent(CreatedPost(NewPost(d.nextId, draft))), d.Created(draft), calls)
  }

  /** PATCH `/:postId` for the user `user`. The lookup comes first; a missing
      post makes the handler read `author` from it and that TypeError is
      forwarded; a post of someone else gives `UnauthorizedUserError`. Only
      the author's request issues `updatePost`, and only its success changes
      the data: the post is patched in place and sent back. */
  function UpdateOutcome(env: Env, d: Snapshot, user: User, id: PostId, body: Body): (o: Outcome)
    requires d.Valid()
    ensures o.data.Valid()
    ensures PostByIdCall in env.faults ==>
              o == Outcome(Forwarded(env.faults[PostByIdCall]), d, [DbCall.GetPostById(id)])
    ensures PostByIdCall !in env.faults && id !in d.posts ==>
              o == Outcome(Forwarded(NULL_POST_READ), d, [DbCall.GetPostById(id)])
    ensures PostByIdCall !in env.faults && id in d.posts && d.posts[id].author.id != user.id ==>
              o == Outcome(Forwarded(UPDATE_NOT_YOURS), d, [DbCall.GetPostById(id)])
    ensures PostByIdCall !in env.faults && id in d.posts && d.posts[id].author.id == user.id ==>
              var patch := UpdateFields(body);
              && o.calls == [DbCall.GetPostById(id), DbCall.UpdatePost(id, patch)]
              && (UpdateCall in env.faults ==> o.resp == Forwarded(env.faults[UpdateCall]) && o.data == d)
              && (UpdateCall !in env.faults ==>
                    && o.resp == Sent(UpdatedPost(ApplyPatch(d.posts[id], patch)))
                    && o.data == d.Patched(id, patch))
  {
    var lookup := [DbCall.GetPostById(id)];
    if PostByIdCall in env.faults then Outcome(Forwarded(env.faults[PostByIdCall]), d, lookup)
    else if id !in d.posts then Outcome(Forwarded(NULL_POST_READ), d, lookup)
    else if d.posts[id].author.id != user.id then Outcome(Forwarded(UPDATE_NOT_YOURS), d, lookup)
    else
      var patch := UpdateFields(body);
      var calls := lookup + [DbCall.UpdatePost(id, patch)];
      if UpdateCall in env.faults then Outcome(Forwarded(env.faults[UpdateCall]), d, calls)
      else Outcome(Sent(UpdatedPost(ApplyPatch(d.posts[id], patch))), d.Patched(id, patch), calls)
  }

  /** DELETE `/:postId` for the user `user`. The lookup comes first; a missing
      post gives `PostNotFoundError` before any ownership check, a post of
      someone else `UnauthorizedUserError`. Only the author's request issues
      `deletePost`, and only its success changes the data: exactly that post
      is removed and the fixed message is sent. */
  function DeleteOutcome(env: Env, d: Snapshot, user: User, id: PostId): (o: Outcome)
    requires d.Valid()
    ensures o.data.Valid()
    ensures PostByIdCall in env.faults ==>
              o == Outcome(Forwarded(env.faults[PostByIdCall]), d, [DbCall.GetPostById(id)])
    ensures PostByIdCall !in env.faults && id !in d.posts ==>
              o == Outcome(Forwarded(POST_NOT_FOUND), d, [DbCall.GetPostById(id)])
    ensures PostByIdCall !in env.faults && id in d.posts && d.posts[id].author.id != user.id ==>
              o == Outcome(Forwarded(DELETE_NOT_YOURS), d, [DbCall.GetPostById(id)])
    ensures PostByIdCall !in env.faults && id in d.posts && d.posts[id].author.id == user.id ==>
              && o.calls == [DbCall.GetPostById(id), DbCall.DeletePost(id)]
              && (DeleteCall in env.faults ==> o.resp == Forwarded(env.faults[DeleteCall]) && o.data == d)
              && (DeleteCall !in env.faults ==>
                    o.resp == Sent(Message(DELETED_MESSAGE)) && o.data == d.Removed(id))
  {
    var lookup := [DbCall.GetPostById(id)];
    if PostByIdCall in env.faults then Outcome(Forwarded(env.faults[PostByIdCall]), d, lookup)
    else if id !in d.posts then Outcome(Forwarded(POST_NOT_FOUND), d, lookup)
    else if d.posts[id].author.id != user.id then Outcome(Forwarded(DELETE_NOT_YOURS), d, lookup)
    else
      var calls := lookup + [DbCall.DeletePost(id)];
      if DeleteCall in env.faults then Outcome(Forwarded(env.faults[DeleteCall]), d, calls)
      else Outcome(Sent(Message(DELETED_MESSAGE)), d.Removed(id), calls)
  }

  /** A created post is listed for every viewer, the anonymous one included,
      and every post visible before stays visible. */
  lemma CreatedPostIsListed(env: Env, d: Snapshot, user: User, body: Body, viewer: Option<User>)
    requires d.Valid() && CreateCall !in env.faults && !env.createReturnsNothing
    ensures var o := CreateOutcome(env, d, user, body);
            && o.resp.Sent? && o.resp.payload.CreatedPost?
            && o.resp.payload.post.author.id == user.id
            && o.resp.payload.post in VisiblePosts(o.data.Listing(), viewer)
            && forall p :: p in VisiblePosts(d.Listing(), viewer) ==> p in VisiblePosts(o.data.Listing(), viewer)
  {
  }

  /** After a successful delete no viewer is shown the deleted post, and every
      other post visible before is still shown. */
  lemma DeletedPostIsUnlisted(env: Env, d: Snapshot, user: User, id: PostId, viewer: Option<User>)
    requires d.Valid()
    ensures var o := DeleteOutcome(env, d, user, id);
            o.resp == Sent(Message(DELETED_MESSAGE)) ==>
              && (forall p :: p in VisiblePosts(o.data.Listing(), viewer) ==> p.id != id)
              && (forall p :: p in VisiblePosts(d.Listing(), viewer) && p.id != id ==>
                                p in VisiblePosts(o.data.Listing(), viewer))
  {
  }

  /** Only the author of a post can change it or remove it: a write is issued,
      and the data changes, only when the post exists and `user` wrote it. */
  lemma WritesOnlyByAuthor(env: Env, d: Snapshot, user: User, id: PostId, body: Body)
    requires d.Valid()
    ensures var o := UpdateOutcome(env, d, user, id, body);
            (o.data != d || |o.calls| > 1) ==> id in d.posts && d.posts[id].author.id == user.id
    ensures var o := DeleteOutcome(env, d, user, id);
            (o.data != d || |o.calls| > 1) ==> id in d.posts && d.posts[id].author.id == user.id
  {
  }

  /** The routes of the router. */
  datatype Route = List | Create | Update | Delete

  /** The handler of a guarded route, run for the user the guard attached. */
  function HandlerOutcome(route: Route, env: Env, d: Snapshot, user: User, postId: PostId, body: Body): (o: Outcome)
    requires route != List && d.Valid()
    ensures o.data.Valid()
    ensures route == Create ==> o == CreateOutcome(env, d, user, body)
    ensures route == Update ==> o == UpdateOutcome(env, d, user, postId, body)
    ensures route == Delete ==> o == DeleteOutcome(env, d, user, postId)
  {
    if route == Create then CreateOutcome(env, d, user, body)
    else if route == Update then UpdateOutcome(env, d, user, postId, body)
    else DeleteOutcome(env, d, user, postId)
  }

  /** The router: GET runs its handler directly and never looks a user up;
      POST, PATCH and DELETE run `requireUser` first. Without an identity that
      is a 401 before any store call; a failed lookup is forwarded with the
      data unchanged; a successful one runs the handler for the stored user
      record, after the lookup. */
  function RouteOutcome(route: Route, env: Env, d: Snapshot, identity: Option<User>, postId: PostId, body: Body): (o: Outcome)
    requires d.Valid()
    ensures o.data.Valid()
    ensures route == List ==> o == ListOutcome(env, d, identity)
    ensures route != List && identity.None? ==> o == Outcome(Json(401, NOT_LOGGED_IN), d, [])
    ensures route != List && identity.Some? && env.FindUser(identity.value.id).Threw? ==>
              o == Outcome(Forwarded(env.FindUser(identity.value.id).error), d,
                           [DbCall.GetUserById(identity.value.id)])
    ensures route != List && identity.Some? && env.FindUser(identity.value.id).Ok? ==>
              var h := HandlerOutcome(route, env, d, env.FindUser(identity.value.id).value, postId, body);
              o == Outcome(h.resp, h.data, [DbCall.GetUserById(identity.value.id)] + h.calls)
  {
    if route == List then ListOutcome(env, d, identity)
    else if identity.None? then Outcome(Json(401, NOT_LOGGED_IN), d, [])
    else
      var lookup := env.FindUser(identity.value.id);
      var first := [DbCall.GetUserById(identity.value.id)];
      if lookup.Threw? then Outcome(Forwarded(lookup.error), d, first)
      else
        var h := HandlerOutcome(route, env, d, lookup.value, postId, body);
        Outcome(h.resp, h.data, first + h.calls)
  }

  /** Through the router, the data changes only on a guarded route whose
      identity has a user record, and an update or delete only for that
      user's own post. */
  lemma RouteWritesNeedAuthor(route: Route, env: Env, d: Snapshot, identity: Option<User>, postId: PostId, body: Body)
    requires d.Valid()
    ensures var o := RouteOutcome(route, env, d, identity, postId, body);
            o.data != d ==>
              && route != List && identity.Some? && env.FindUser(identity.value.id).Ok?
              && var user := env.FindUser(identity.value.id).value;
              && (route == Create ==> exists p :: p in o.data.Listing() && p.author.id == user.id && p.id !in d.posts)
              && (route != Create ==> postId in d.posts && d.posts[postId].author.id == user.id)
  {
    var o := RouteOutcome(route, env, d, identity, postId, body);
    if o.data != d {
      var user := env.FindUser(identity.value.id).value;
      if route == Create {
        var p := NewPost(d.nextId, Draft(user, body));
        assert p in o.data.Listing();
      } else {
        WritesOnlyByAuthor(env, d, user, postId, body);
      }
    }
  }

  /** GET `/`: the visible posts in the store's order, or the store's error. */
  method ListPosts(req: Request, store: Store) returns (resp: Response)
    requires store.Valid()
    modifies store`calls
    ensures var o := ListOutcome(store.env, old(store.Data()), req.user);
            resp == o.resp && store.Data() == o.data && store.calls == old(store.calls) + o.calls
  {
    var all := store.GetAllPosts();
    match all {
      case Threw(e) => resp := Forwarded(e);
      case Ok(posts) => resp := Sent(PostList(VisiblePosts(posts, req.user)));
    }
  }

  /** POST `/` (behind the guard): stores the draft and sends the new post. */
  method CreatePost(req: Request, store: Store) returns (resp: Response)
    requires store.Valid() && req.user.Some?
    modifies store`posts, store`order, store`nextId, store`calls
    ensures store.Valid()
    ensures var o := CreateOutcome(store.env, old(store.Data()), req.user.value, req.body);
            resp == o.resp && store.Data() == o.data && store.calls == old(store.calls) + o.calls
  {
    var draft := Draft(req.user.value, req.body);
    var created := store.CreatePost(draft);
    match created {
      case Threw(e) => resp := Forwarded(e);
      case Ok(None) => resp := Forwarded(POST_CREATION_ERROR);
      case Ok(Some(p)) => resp := Sent(CreatedPost(p));
    }
  }

  /** PATCH `/:postId` (behind the guard). */
  method UpdatePost(req: Request, store: Store) returns (resp: Response)
    requires store.Valid() && req.user.Some?
    modifies store`posts, store`calls
    ensures store.Valid()
    ensures var o := UpdateOutcome(store.env, old(store.Data()), req.user.value, req.postId, req.body);
            resp == o.resp && store.Data() == o.data && store.calls == old(store.calls) + o.calls
  {
    var patch := BuildUpdateFields(req.body);
    var original := store.GetPostById(req.postId);
    match original {
      case Threw(e) =>
        resp := Forwarded(e);
      case Ok(None) =>
        resp := Forwarded(NULL_POST_READ);
      case Ok(Some(post)) =>
        if post.author.id == req.user.value.id {
          var updated := store.UpdatePost(req.postId, patch);
          match updated {
            case Threw(e) => resp := Forwarded(e);
            case Ok(q) => resp := Sent(UpdatedPost(q));
          }
        } else {
          resp := Forwarded(UPDATE_NOT_YOURS);
        }
    }
  }

  /** DELETE `/:postId` (behind the guard). */
  method DeletePost(req: Request, store: Store) returns (resp: Response)
    requires store.Valid() && req.user.Some?
    modifies store`posts, store`order, store`calls
    ensures store.Valid()
    ensures var o := DeleteOutcome(store.env, old(store.Data()), req.user.value, req.postId);
            resp == o.resp && store.Data() == o.data && store.calls == old(store.calls) + o.calls
  {
    ghost var before := store.calls;
    var found := store.GetPostById(req.postId);
    match found {
      case Threw(e) =>
        resp := Forwarded(e);
      case Ok(None) =>
        resp := Forwarded(POST_NOT_FOUND);
      case Ok(Some(post)) =>
        if post.author.id != req.user.value.id {
          resp := Forwarded(DELETE_NOT_YOURS);
        } else {
          var deleted := store.DeletePost(req.postId);
          assert store.calls == before + [DbCall.GetPostById(req.postId), DbCall.DeletePost(req.postId)];
          match deleted {
            case Threw(e) => resp := Forwarded(e);
            case Ok(_) => resp := Sent(Message(DELETED_MESSAGE));
          }
        }
    }
  }

  /** Runs the handler of a guarded route once the guard has continued. */
  method Dispatch(route: Route, req: Request, store: Store) returns (resp: Response)
    requires route != List && store.Valid() && req.user.Some?
    modifies store`posts, store`order, store`nextId, store`calls
    ensures store.Valid()
    ensures var h := HandlerOutcome(route, store.env, old(store.Data()), req.user.value, req.postId, req.body);
            resp == h.resp && store.Data() == h.data && store.calls == old(store.calls) + h.calls
  {
    match route {
      case Create => resp := CreatePost(req, store);
      case Update => resp := UpdatePost(req, store);
      case Delete => resp := DeletePost(req, store);
    }
  }

  /** Appending to a call log in two steps is appending once. */
  lemma AppendTwice(log: seq<DbCall>, first: seq<DbCall>, rest: seq<DbCall>)
    ensures log + (first + rest) == (log + first) + rest
  {
  }

  /** A guarded route over a live request: `requireUser`, then the handler for
      the user it attached. */
  method Guarded(route: Route, req: Request, store: Store) returns (resp: Response)
    requires route != List && store.Valid()
    modifies req`user, store`posts, store`order, store`nextId, store`calls
    ensures store.Valid()
    ensures var o := RouteOutcome(route, store.env, old(store.Data()), old(req.user), req.postId, req.body);
            resp == o.resp && store.Data() == o.data && store.calls == old(store.calls) + o.calls
    ensures req.user ==
              if old(req.user).Some? && store.env.FindUser(old(req.user).value.id).Ok?
              then Some(store.env.FindUser(old(req.user).value.id).value)
              else old(req.user)
  {
    ghost var before := store.calls;
    ghost var identity := req.user;
    var g := RequireUser(req, store);
    if g.Unauthorized? {
      assert identity.None?;
      resp := Json(g.status, g.errorText);
      return;
    }
    ghost var id := identity.value.id;
    ghost var lookup := store.env.FindUser(id);
    ghost var first := [DbCall.GetUserById(id)];
    if g.Forward? {
      assert lookup.Threw?;
      resp := Forwarded(g.error);
      return;
    }
    assert lookup.Ok? && req.user == Some(lookup.value);
    resp := Dispatch(route, req, store);
    AppendTwice(before, first, HandlerOutcome(route, store.env, old(store.Data()), lookup.value, req.postId, req.body).calls);
  }

  /** The router over a live request: the guard may replace `req.user` with
      the stored user record, and the whole request ends as `RouteOutcome`
      says for the identity it arrived with. */
  method Handle(route: Route, req: Request, store: Store) returns (resp: Response)
    requires store.Valid()
    modifies req`user, store`posts, store`order, store`nextId, store`calls
    ensures store.Valid()
    ensures var o := RouteOutcome(route, store.env, old(store.Data()), old(req.user), req.postId, req.body);
            resp == o.resp && store.Data() == o.data && store.calls == old(store.calls) + o.calls
    ensures req.user ==
              if route != List && old(req.user).Some? && store.env.FindUser(old(req.user).value.id).Ok?
              then Some(store.env.FindUser(old(req.user).value.id).value)
              else old(req.user)
  {
    if route == List {
      resp := ListPosts(req, store);
    } else {
      resp := Guarded(route, req, store);
    }
  }
}
