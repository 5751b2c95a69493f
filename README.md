# juicebox posts API — a verified model

This project models the posts router of the juicebox blogging API and the
`requireUser` guard in front of its writing routes, and proves what they
promise about visibility, authorship and the store.

- `Posts` — the four handlers of `api/posts.js` and the router that runs them.
  - `GET /` lists the posts: the active ones plus the viewer's own.
  - `POST /` creates a post authored by the caller.
  - `PATCH /:postId` lets only the author update their post.
  - `DELETE /:postId` lets only the author delete their post.
  - Each handler is a method over a `Request` and a `Store`. It returns the
    response it sends, or the `{ name, message }` error it hands to `next`.
- `Utils` — `requireUser` from `api/utils.js`. Without an identity it answers
  401. Otherwise it replaces `req.user` in place with the stored user record,
  or forwards the lookup's error.
- `Tokenize` — the tag tokeniser `tags.trim().split(/\s+/)`. Whitespace is the
  ECMAScript set. The model proves:
  - the pieces never contain whitespace;
  - the pieces are non-empty whenever the input has any non-whitespace;
  - joining the pieces with single spaces gives the trimmed input with each
    whitespace run collapsed;
  - splitting a space-joined list of tokens gives the list back.
- `Db` — the store the routes call (`getAllPosts`, `getPostById`,
  `createPost`, `updatePost`, `deletePost`, `getUserById`).
  - The database code is not part of this model. The store is an in-memory
    class with the simplest semantics those calls suggest.
  - An environment holds the users table, the error each kind of call
    throws (each kind fails or succeeds on its own), and a switch that makes
    `createPost` resolve to nothing. Together these reach every branch the
    handlers and the guard take, including a lookup that succeeds followed
    by a write that throws.
  - Each handler is also given as a pure outcome function over a snapshot
    of the store's data: the response, the data afterwards and the calls
    made. The handler methods and the router are proved to end exactly as
    these functions say.
  - A ghost log `calls` records every call. This lets the contracts say that
    a refused request never reaches `updatePost` or `deletePost`.
- `Wrappers` — `Option`, used for `undefined` fields and absent patch keys.

## Model

| member | source | states |
|---|---|---|
| Posts.VisiblePosts | api/posts.js:18-23 | The listed posts are exactly the stored posts that are active or written by the viewer. Each appears as often as it is stored, in store order. An anonymous viewer sees exactly the active posts. |
| Posts.ListOutcome | api/posts.js:14-31 | One `getAllPosts` call and no write. Unless the call throws, the response lists exactly the stored posts the viewer may see, as a subsequence of the store's listing. If it throws, its error is forwarded. |
| Posts.ListPosts | api/posts.js:14-31 | The handler's response, data and calls are those of `ListOutcome` for the request's viewer. |
| Posts.Draft | api/posts.js:34-41 | The caller is the author and the title is passed through. An undefined content becomes "" and a given content is kept. Tags are the tokenised string when truthy and the empty list otherwise. |
| Posts.CreateOutcome | api/posts.js:33-57 | One `createPost` call with the draft, and the data stays valid. On success the new post is sent, and the data is the old data plus that post under the fresh id, listed last, with the next id advanced. A store that resolves to nothing gives `PostCreationError`. A throwing store forwards its error. On both failures the data is unchanged. |
| Posts.CreatePost | api/posts.js:33-57 | The handler's response, data and calls are those of `CreateOutcome` for the request's user, and the store stays valid. |
| Posts.CreatedPostIsListed | api/posts.js:44-47 | After a successful create, the sent post is written by the caller and shown to every viewer, anonymous ones included. Every post visible before stays visible. |
| Posts.UpdateFields | api/posts.js:61-75 | The patch has a title, content or tags key exactly when that body field is truthy, with the body's value (tags tokenised). It never has an author key. |
| Posts.BuildUpdateFields | api/posts.js:63-75 | Building the patch one key at a time, as the handler does, gives `UpdateFields`. |
| Posts.TitleOnlyUpdate | api/posts.js:69-71 | An update body with only a non-empty title changes the stored post's title and nothing else. |
| Posts.UpdateOutcome | api/posts.js:59-92 | The lookup comes first. If it throws, its error is forwarded. A missing post gives the TypeError of reading `author` from the empty result, and someone else's post gives `UnauthorizedUserError`; each refusal makes only the lookup and leaves the data unchanged. For the author's post, `updatePost` follows. If it throws, its error is forwarded with the data unchanged. Otherwise the patched post is sent and stored in place. |
| Posts.UpdatePost | api/posts.js:59-92 | The handler's response, data and calls are those of `UpdateOutcome`, and the store stays valid. |
| Posts.DeleteOutcome | api/posts.js:94-120 | The lookup comes first. If it throws, its error is forwarded. A missing post gives `PostNotFoundError` before any ownership check, and someone else's post gives `UnauthorizedUserError`; each refusal makes only the lookup and leaves the data unchanged. For the author's post, `deletePost` follows. If it throws, its error is forwarded with the data unchanged. Otherwise exactly that post is removed and the fixed message is sent. |
| Posts.DeletePost | api/posts.js:94-120 | The handler's response, data and calls are those of `DeleteOutcome`, and the store stays valid. |
| Posts.DeletedPostIsUnlisted | api/posts.js:114-116 | After a successful delete, no viewer is shown the deleted post. Every other post visible before is still shown. |
| Posts.WritesOnlyByAuthor | api/posts.js:78-114 | For update and for delete, a write is issued, and the data changes, only when the post exists and the caller wrote it. |
| Posts.HandlerOutcome | api/posts.js:33-120 | A guarded route runs the create, update or delete handler, matching the route. |
| Posts.RouteOutcome | api/posts.js:14-120 | `GET` runs the list handler with the incoming identity and makes no user lookup. A guarded route without an identity answers 401 with no store call and the data unchanged. If the user lookup throws, its error is forwarded with the data unchanged. If it succeeds, the handler runs for the stored user record, after the lookup. |
| Posts.RouteWritesNeedAuthor | api/posts.js:59-120 | Through the router, the data changes only on a guarded route whose identity has a user record. An update or delete changes it only for that user's own post, and a create adds a post written by that user. |
| Posts.Guarded | api/posts.js:33 | A guarded route's response, data and calls are those of `RouteOutcome`. `req.user` becomes the stored record exactly when the lookup succeeds. |
| Posts.Dispatch | api/posts.js:33-120 | After the guard continues, the response, data and calls are those of `HandlerOutcome`. |
| Posts.Handle | api/posts.js:14-120 | The request's response, data and calls are those of `RouteOutcome` for the identity it arrived with. `req.user` is replaced by the stored record exactly when a guarded route's lookup succeeds. |
| Utils.RequireUser | api/utils.js:3-19 | Without `req.user` it answers 401 with the fixed body and makes no store call. Otherwise it looks up exactly the incoming id. On success `req.user` becomes that user record and the handler continues. On failure the error goes to `next` and `req.user` is unchanged. |
| Tokenize.Trim | api/posts.js:40 | The result is empty exactly when the input is all whitespace. Otherwise it starts and ends with a non-whitespace character. |
| Tokenize.TrimIsSlice | api/posts.js:40 | The trimmed string is a contiguous slice of the input with only whitespace before and after it. |
| Tokenize.TrimKeepsTrimmed | api/posts.js:40 | Trimming a string that starts and ends with non-whitespace changes nothing. |
| Tokenize.SplitWs | api/posts.js:66 | The split has at least one piece, and its first piece is empty exactly when the input is empty or starts with whitespace. |
| Tokenize.SplitPiecesHaveNoWhitespace | api/posts.js:40 | No piece of a whitespace split contains whitespace. |
| Tokenize.SplitInnerPiecesNonEmpty | api/posts.js:40 | When the input does not end in whitespace, only the first piece of the split can be empty. |
| Tokenize.JoinSplitIsCollapse | api/posts.js:40 | Re-joining the split pieces with single spaces gives the input with each whitespace run collapsed to one space. |
| Tokenize.SplitJoinRoundTrip | api/posts.js:40 | Splitting a space-joined list of non-empty, whitespace-free tokens gives the list back. |
| Tokenize.Tags | api/posts.js:40 | `tags.trim().split(/\s+/)`: at least one piece. Joining the pieces gives the collapsed trimmed input. For input with any non-whitespace, every tag is non-empty and whitespace-free. All-whitespace input gives the single empty tag. |
| Tokenize.TagsExampleDoubleSpace | api/posts.js:40 | `"a  b c"` gives the tags `a`, `b`, `c`: a double space makes no empty tag. |
| Tokenize.TagsExampleSingleSpace | api/posts.js:66 | `"x y"` gives the tags `x`, `y`. |
| Db.NewPost | api/posts.js:44 | A created post carries the draft's author, title, content and tags, and is active. |
| Db.ApplyPatch | api/posts.js:81 | An update replaces exactly the fields whose keys the patch has. Id, author and visibility never change. |
| Db.Without | api/posts.js:114 | Removing an id from the listing order keeps every other id in its order (a subsequence) and keeps the order free of duplicates. |
| Db.PostsAt | api/posts.js:16 | The listing holds, position by position, the stored post of each id in the order. |
| Db.Snapshot.Listing | api/posts.js:16 | `getAllPosts` lists every stored post, each under its own id. |
| Db.Snapshot.Created | api/posts.js:44 | After `createPost`, the new post is stored under the fresh id and listed last, every earlier post stays listed, and the data stays valid. |
| Db.Snapshot.Patched | api/posts.js:81 | After `updatePost`, the post is patched in place, still listed, and every other post stays. |
| Db.Snapshot.Removed | api/posts.js:114 | After `deletePost`, no listed post has the id, and every other post stays listed. |
| Db.Env.FindUser | api/utils.js:13 | The lookup succeeds exactly when `getUserById` does not throw and the id has a user record. It then returns that record. A missing record gives `UserNotFoundError`. |
| Db.Store.GetAllPosts | api/posts.js:16 | Logs the call. Returns the listing, or throws the error set for this call. |
| Db.Store.GetPostById | api/posts.js:98 | Logs the call. Returns the post with that id or nothing, or throws. |
| Db.Store.CreatePost | api/posts.js:44 | Logs the call. The new data is `Created` of the old, and the store stays valid. It may resolve to nothing or throw, in both cases leaving the data unchanged. |
| Db.Store.UpdatePost | api/posts.js:81 | Logs the call. Stores and returns the patched post, giving `Patched` of the old data, or throws with the data unchanged. |
| Db.Store.DeletePost | api/posts.js:114 | Logs the call. The new data is `Removed` of the old, or it throws with the data unchanged. |
| Db.Store.GetUserById | api/utils.js:13 | Logs the call. Returns exactly `FindUser` of the id. |

## Left out

- The Express plumbing is left out: routing by HTTP verb and path, `res.send` serialisation, `res.status().json()`, and the error-handling middleware that turns a forwarded error into an HTTP status. A handler's result is the payload it sends or the error it forwards.
- The authentication step that sets `req.user` from a token is not part of this model. The request arrives with its identity already set or absent.
- The database layer (`db/index.js`) is not part of this model. Its assumed behaviour:
  - new posts are active and get increasing ids;
  - `getPostById` of an unknown id resolves to nothing;
  - `getUserById` of an unknown id throws `UserNotFoundError`;
  - any call can throw, each kind of call on its own (the environment's
    `faults` map); a kind that fails fails on every call of that kind within
    a request;
  - `createPost` can resolve to nothing.
- The model does not cover `getUserById` resolving to nothing, as some database layers do. The guard would then continue with an undefined user.
- Asynchrony and concurrency are left out. Every awaited call completes before the next statement, and no two requests interleave.
- Body fields are strings or undefined. Non-string JSON values and `null` are out of scope. So is the `tags.length` test on a non-string, which for a string agrees with truthiness.
- `postId` is taken as already converted to a post id. The string-to-number conversion of the route parameter belongs to the database layer.
- Tokenize.Tags: `/\s+/` is modelled by a character-wise split over the ECMAScript whitespace and line-terminator characters, not by a regular-expression engine.
- Posts.UpdatePost: when the post does not exist, the handler reads `author` from the empty result. The model follows the code and forwards that TypeError. It does not send the "not found" error that the delete route sends. The message is V8's text for a `null` result, standing for whatever TypeError the engine raises.
- Post ids and user ids are unbounded integers. No width or overflow is modelled.
