/** The `requireUser` middleware: the identity guard in front of every route
    that changes posts. */
module Utils {
  import opened Wrappers
  import opened Db

  /** The body of the 401 response sent when a request carries no identity. */
  const NOT_LOGGED_IN := "Unauthorized: User not logged in"

  /** The fields of `req.body` the routes read. A field is `None` when it is
      `undefined`. */
  datatype Body = Body(title: Option<string>, content: Option<string>, tags: Option<string>)

  /** An in-flight request. `user` is the identity set by the upstream
      authentication step, which the guard replaces in place. */
  class Request {
    var user: Option<User>
    const body: Body
    /** `req.params.postId`, on the routes that have one. */
    const postId: PostId

    constructor (user: Option<User>, body: Body, postId: PostId)
      ensures this.user == user && this.body == body && this.postId == postId
    {
      this.user := user;
      this.body := body;
      this.postId := postId;
    }
  }

  /** How the guard ends: a direct response (its status and the `error` field
      of its JSON body), a call of `next()` that runs the route handler, or a
      call of `next(error)`. */
  datatype GuardOutcome =
    | Unauthorized(status: int, errorText: string)
    | Continue
    | Forward(error: NamedError)

  /** `requireUser`. With no identity it answers 401 with the fixed body and
      touches neither the request nor the store. Otherwise it makes exactly one
      lookup, of the incoming identity's id and of nothing else about it: on
      success the request's identity becomes the stored user record and the
      handler runs once; if the lookup throws, the error goes to `next` and the
      identity is left as it was. */
  method RequireUser(req: Request, store: Store) returns (g: GuardOutcome)
    modifies req`user, store`calls
    ensures old(req.user).None? ==>
              && g == Unauthorized(401, NOT_LOGGED_IN)
              && req.user == old(req.user)
              && store.calls == old(store.calls)
    ensures old(req.user).Some? ==>
              var id := old(req.user).value.id;
              var lookup := store.env.FindUser(id);
              && store.calls == old(store.calls) + [DbCall.GetUserById(id)]
              && (lookup.Ok? ==> g == Continue && req.user == Some(lookup.value))
              && (lookup.Threw? ==> g == Forward(lookup.error) && req.user == old(req.user))
  {
    if req.user.None? {
      return Unauthorized(401, NOT_LOGGED_IN);
    }
    var found := store.GetUserById(req.user.value.id);
    match found {
      case Ok(user) =>
        req.user := Some(user);
        g := Continue;
      case Threw(e) =>
        g := Forward(e);
    }
  }
}
