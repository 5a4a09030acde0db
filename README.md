# Content-sharing backend: handlers, authentication and ownership

This project models the request handlers of a small content-sharing backend
(`index.js`): account registration and login, the `authenticateUser` middleware
that turns a bearer token into a request identity, posts with one optional
image or video attachment, comments on posts, and the ownership rules for
deleting them. The three database tables `users`, `posts` and `comments` become
maps from auto-incremented integer ids to records, held by the class
`Api.Server`. Each route handler is a method of that class: it returns a tagged
`Outcome` (`Ok` 200, `Created` 201, `BadRequest` 400, `Unauthenticated` 401,
`Forbidden` 403, `NotFound` 404, `ServerError` 500) and changes the maps as the
route does.

The password hashing library is an opaque `Hasher` (`hash`, `matches`), assumed
only to satisfy `matches(p, hash(p))` (`Credentials.Consistent`). The token
library is an opaque `TokenService` (`sign`, and a partial `verify`), assumed only
to verify what it signed and to produce a non-empty token without spaces
(`Session.WellFormed`). Both are values injected when the server is constructed.
JavaScript's `split(' ')`/`split('/')` and truthiness are modelled exactly
(`Strings`), and so are the two different attachment rules (`Media`): creation
uses `startsWith('image')` and sends everything else to `video`; update uses the
part of the mimetype before the first `/` and ignores anything but `image` and
`video`.

Module layout: `Outcomes` (outcome type), `Strings` (split, join, truthiness),
`Credentials` (hasher), `Session` (claims, token service, bearer extraction,
middleware), `Media` (attachment classification), `Records` (rows, the table
invariant, comments of a post), `Api` (the server and its handlers),
`Scenarios` (request sequences proved from the handlers' contracts).

Behaviour of the code that the model keeps, including where it looks unintended:

- Post creation without a file answers 500: `req.file.mimetype` is read
  unconditionally, so the "optional" file is in fact required.
- Post creation files any mimetype that does not start with `image` as a video;
  nothing is rejected as unrecognised.
- Post update performs no ownership check: any authenticated requester may update
  any post.
- Deleting a post compares the post's owner with the token's `userId` claim, while
  every other handler that reads a claim uses the `id` claim; tokens issued by login carry the same
  value in both.
- Duplicate emails are answered 400 on both registration routes (never 409), and
  every token failure (bad signature, expiry, malformed) is the same 401.
- Registration accepts a missing email or password only to fail with 500 (the
  hasher throws on a missing password, the table refuses a null email); `new-user`
  checks all four fields for truthiness first and answers 400.
- The handler code for deleting a post does not touch its comments.

## Model

| member | source | states |
|---|---|---|
| `Strings.Split` | index.js:164 | `split` (also the mimetype split of an update) always yields at least one piece, and more than one exactly when the string holds the separator |
| `Strings.JoinSplit` | index.js:164 | joining the pieces of `split(sep)` with `sep` gives back the original string |
| `Strings.SplitJoin` | index.js:164 | splitting the join of separator-free pieces gives back exactly those pieces |
| `Strings.SplitPieces` | index.js:164 | the pieces of `split` contain no separator |
| `Strings.FirstPiece` | index.js:385 | the first piece of `split(sep)` is the separator-free word `w` exactly when the string is `w` or starts with `w` followed by `sep` |
| `Session.BearerToken` | index.js:164-167 | no header, or a header without a space, yields no token; an extracted token is non-empty and contains no space |
| `Session.SecondPieceAccepted` | index.js:164 | a header `scheme SP token` or `scheme SP token SP ...` yields exactly `token` |
| `Session.SecondPieceOnly` | index.js:164 | an extracted token is the second space-separated piece of the header: a space-free first piece, one space, the token, then the end or a space |
| `Session.Authenticate` | index.js:163-167 | a request with no `authorization` header, or with a header holding no space, is rejected whatever the token service says |
| `Session.AuthenticateShaped` | index.js:163-177 | a header `scheme SP token` or `scheme SP token SP ...` with a non-empty token is accepted exactly when the service verifies `token`, with the claims it yields, and rejected otherwise |
| `Session.AcceptedHeader` | index.js:163-177 | every accepted header is a space-free scheme, one space, a non-empty space-free token, then the end or a space; the identity is what the service verifies of that token |
| `Session.IssuedTokenAccepted` | index.js:230-234 | a header carrying a token signed over claims `c` authenticates as exactly `c` |
| `Media.CreateSlot` | index.js:312 | on creation a file is an image exactly when its mimetype starts with `image`, otherwise a video; wherever the update rule picks a slot, the create rule picks the same one |
| `Media.UpdateSlot` | index.js:385-390 | on update a file is an image exactly when its mimetype is `image` or starts with `image/`, and a video exactly when it is `video` or starts with `video/` |
| `Media.UpdateSlotNone` | index.js:384-391 | on update every other mimetype selects no slot |
| `Media.RulesDiffer` | index.js:385-390 | `imagery/x` is an image on creation but nothing on update; `application/pdf` is a video on creation but nothing on update |
| `Outcomes.Outcome.Status` | index.js:166-175 | each outcome answers with its HTTP status; only `Ok` (200) and `Created` (201) are below 300 |
| `Records.UserWithEmail` | index.js:214 | with unique emails, a taken email belongs to exactly one stored user, so the lookup by email is well defined |
| `Records.Invariant` | index.js:48-132 | under the table invariant (ids from the sequences, unique emails, owners that exist) the next value of each auto-increment sequence is not yet a key |
| `Records.AddUserKeeps` | index.js:58-62 | adding a user whose email is not taken, under a fresh id, keeps emails unique and the table invariant |
| `Records.AddPostKeeps` | index.js:97-104 | adding a post owned by a stored user, under a fresh id, keeps the table invariant |
| `Records.AddCommentKeeps` | index.js:125-132 | adding a comment by a stored user, under a fresh id, keeps the table invariant |
| `Api.Server.constructor` | index.js:48-53 | a new server has empty tables and every id sequence at 1 |
| `Api.Server.Signup` | index.js:179-201 | missing password or email: 500; taken email: 400 and no user added; otherwise exactly one user added under a fresh id, storing the hash of the password |
| `Api.Server.NewUser` | index.js:260-299 | any falsy field: 400; taken email: 400; otherwise exactly one user added with all four fields and the hashed password, and returned without the hash |
| `Api.Server.Login` | index.js:204-252 | falsy email or password: 400; unknown email: 401; password not matching the stored hash: 401; otherwise a token signed over the user's id (as `id` and `userId`) and email, and the user without the hash |
| `Api.Server.CreatePost` | index.js:304-319 | unauthenticated: 401; no file, missing title or content, or unknown author: 500 and nothing added; otherwise one post added, owned by the requester's `id`, with the file path in the slot the create rule picks and the other slot null |
| `Api.Server.ListPosts` | index.js:322-347 | unauthenticated: 401; otherwise every stored post, each with exactly its comments |
| `Api.Server.GetPost` | index.js:349-367 | unauthenticated: 401; missing post: 404; otherwise the post with exactly its comments |
| `Api.Server.UpdatePost` | index.js:370-399 | unauthenticated: 401; missing post: 404 and nothing changes; otherwise title and content replaced only by truthy values, only the slot the update rule picks replaced by `/uploads/<filename>`, owner and all other posts unchanged |
| `Api.Server.DeletePost` | index.js:403-426 | unauthenticated: 401; missing post: 404; `userId` claim not the owner: 403 and the post stays; owner: exactly that post removed, comments untouched |
| `Api.Server.CreateComment` | index.js:430-442 | unauthenticated: 401; missing text, unknown author or unknown post: 500; otherwise exactly one comment added by the requester's `id` on that post |
| `Api.Server.ListComments` | index.js:444-457 | unauthenticated: 401; otherwise exactly the comments whose `postId` matches |
| `Api.Server.DeleteComment` | index.js:459-475 | unauthenticated: 401; the comment is removed, and nothing else, exactly when it exists and its author is the requester's `id`; a comment of someone else gets the same 404 as a missing one |
| `Scenarios.SignupThenLogin` | index.js:179-252 | signing up with a fresh email and a non-empty password, then logging in with the same credentials, succeeds with a token for the new user |
| `Scenarios.RegisterLoginAndList` | index.js:322-342 | after registering and logging in on a fresh server, listing posts without a header is 401 and with the issued token is the empty list |
| `Scenarios.CreateWithImageAndRead` | index.js:304-314 | a post created with an image file has the file path as `image` and null `video`, and reads back with no comments |
| `Scenarios.TwoUsersLoggedIn` | index.js:204-234 | two users with different emails sign up as ids 1 and 2, and their login tokens authenticate as themselves |
| `Scenarios.OnlyTheOwnerDeletes` | index.js:403-421 | another user's delete is 403 and the post remains; the owner's delete succeeds; the post then reads as 404 |

## Left out

- HTTP routing, CORS, JSON response bodies and messages, static file serving and the `/logout` route (it only clears a cookie and answers 200).
- The database connection, `sync()`, and the attribute projections of the eager joins: reads return the stored records, and neither a post's author nor the authors of its comments are joined in (index.js:332-337, 355-356, 450).
- The cascade from `posts` to `comments`: `comments.postId` is NOT NULL (index.js:134-135), so the foreign key that `Post.hasMany(Comment)` (index.js:147) creates on `sync()` defaults to ON DELETE CASCADE, and the database most likely deletes a post's comments with it. The model follows the handler code, which deletes only the post.
- The `createdAt`/`updatedAt` timestamps that the `posts` and `comments` tables keep (index.js:107, 143): they come from the clock, so the records carry no timestamps.
- Api.Server.Signup: the 255-character limit of the `STRING` (`VARCHAR(255)`) column `email` (index.js:58-59) is not modelled; a longer email makes the insert fail with 500, while the model stores it.
- Api.Server.NewUser: the 255-character limit of the `STRING` columns `name`, `email` and `gender` (index.js:54-70) is not modelled; a longer value makes the insert fail with 500, while the model stores it.
- Api.Server.CreatePost: the 255-character limit of the `STRING` columns `title`, `image` and `video` (index.js:81-95) is not modelled; a longer title or file path makes the insert fail with 500, while the model stores it.
- Api.Server.UpdatePost: the same 255-character limit on `title`, `image` and `video` is not modelled; a longer value makes `save()` fail with 500, while the model stores it.
- Records.Invariant: the `INTEGER` id sequences (index.js:50, 77, 117) are unbounded here; in the database they are 32-bit and end at 2^31-1, after which every insert fails with 500.
- Gaps in the id sequences left by failed inserts: a refused insert leaves the sequence where it was.
- Failures of the database or the file system other than the constraint violations named above (all would be 500).
- Route parameters that are not integers (they make the lookup fail with 500): ids are integers here.
- Request fields that are present but not strings: body fields are optional strings.
- Writing the uploaded file to disk and naming it from the clock: the upload arrives with its mimetype, stored file name and path already set.
- bcrypt's salting and work factor and JWT signatures: opaque functions, with only the assumptions named above.
- Session.Authenticate: token expiry (24 hours) and the `iat`/`exp` claims are not modelled, because they depend on the clock; a verified token is accepted whatever its age.
- Concurrency between requests and `console` logging.
