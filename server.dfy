/** The route handlers of the content-sharing backend over an in-memory store of
    the three tables. Each handler returns the tagged outcome the route responds
    with and changes the tables as the route does. */
module Api {
  import opened Outcomes
  import opened Strings
  import opened Credentials
  import opened Session
  import opened Media
  import opened Records

  /** The body of a successful login: the token and the user it was issued for. */
  datatype LoginReply = LoginReply(token: string, user: UserView)

  class Server {
    /** The password hashing library and the token service, fixed at start-up. */
    const hasher: Hasher
    const tokens: TokenService

    var users: map<int, User>
    var posts: map<int, Post>
    var comments: map<int, Comment>

    /** The next value of each table's id sequence. */
    var nextUserId: int
    var nextPostId: int
    var nextCommentId: int

    ghost predicate Valid()
      reads this
    {
      Invariant(users, posts, comments, nextUserId, nextPostId, nextCommentId)
    }

    constructor (hasher: Hasher, tokens: TokenService)
      ensures Valid()
      ensures this.hasher == hasher && this.tokens == tokens
      ensures users == map[] && posts == map[] && comments == map[]
      ensures nextUserId == 1 && nextPostId == 1 && nextCommentId == 1
    {
      this.hasher := hasher;
      this.tokens := tokens;
      users, posts, comments := map[], map[], map[];
      nextUserId, nextPostId, nextCommentId := 1, 1, 1;
    }

    /** `POST /api/signup`. A missing password makes the hasher throw and a missing email
        violates `NOT NULL`, both answered 500; a taken email violates the unique
        constraint and is answered 400; otherwise one user is added, holding the hash
        of the password and no name or gender. */
    method Signup(email: Option<string>, password: Option<string>) returns (o: Outcome<int>)
      requires Valid()
      modifies this`users, this`nextUserId
      ensures Valid()
      ensures password.None? || email.None? ==> o == ServerError
      ensures password.Some? && email.Some? ==>
        o == if EmailTaken(old(users), email.value) then BadRequest else Created(old(nextUserId))
      ensures o.Created? ==>
        && o.value !in old(users)
        && users == old(users)[o.value := User(None, email.value, hasher.hash(password.value), None)]
        && nextUserId == old(nextUserId) + 1
      ensures !o.Created? ==> users == old(users) && nextUserId == old(nextUserId)
    {
      if password.None? {
        return ServerError;
      }
      var hashed := hasher.hash(password.value);
      if email.None? {
        return ServerError;
      }
      if EmailTaken(users, email.value) {
        return BadRequest;
      }
      var id := nextUserId;
      AddUserKeeps(users, posts, comments, nextUserId, nextPostId, nextCommentId, User(None, email.value, hashed, None));
      users := users[id := User(None, email.value, hashed, None)];
      nextUserId := id + 1;
      o := Created(id);
    }

    /** `POST /new-user`. Every one of the four fields must be truthy (400 otherwise); a
        taken email is answered 400; otherwise one user is added with all four fields,
        the password stored as its hash. */
    method NewUser(name: Option<string>, email: Option<string>, password: Option<string>, gender: Option<string>)
      returns (o: Outcome<UserView>)
      requires Valid()
      modifies this`users, this`nextUserId
      ensures Valid()
      ensures !(Truthy(name) && Truthy(email) && Truthy(password) && Truthy(gender)) ==> o == BadRequest
      ensures Truthy(name) && Truthy(email) && Truthy(password) && Truthy(gender) ==>
        o == if EmailTaken(old(users), email.value) then BadRequest
             else Created(UserView(old(nextUserId), name, email.value, gender))
      ensures o.Created? ==>
        && o.value.id !in old(users)
        && users == old(users)[o.value.id := User(name, email.value, hasher.hash(password.value), gender)]
        && nextUserId == old(nextUserId) + 1
      ensures !o.Created? ==> users == old(users) && nextUserId == old(nextUserId)
    {
      if !(Truthy(name) && Truthy(email) && Truthy(password) && Truthy(gender)) {
        return BadRequest;
      }
      var hashed := hasher.hash(password.value);
      if EmailTaken(users, email.value) {
        return BadRequest;
      }
      var id := nextUserId;
      var user := User(name, email.value, hashed, gender);
      AddUserKeeps(users, posts, comments, nextUserId, nextPostId, nextCommentId, user);
      users := users[id := user];
      nextUserId := id + 1;
      o := Created(ViewOf(id, user));
    }

    /** `POST /api/login`. A falsy email or password is answered 400, an unknown email
        and a password that does not match the stored hash 401; only a matching
        password yields a token, signed over the stored user's id (as both `id` and
        `userId`) and email. */
    method Login(email: Option<string>, password: Option<string>) returns (o: Outcome<LoginReply>)
      requires Valid()
      ensures o.Ok? || o == BadRequest || o == Unauthenticated
      ensures !Truthy(email) || !Truthy(password) ==> o == BadRequest
      ensures Truthy(email) && Truthy(password) && !EmailTaken(users, email.value) ==> o == Unauthenticated
      ensures forall id :: Truthy(email) && Truthy(password) && id in users && users[id].email == email.value ==>
        o == if hasher.matches(password.value, users[id].passwordHash)
             then Ok(LoginReply(tokens.sign(Claims(id, id, users[id].email)), ViewOf(id, users[id])))
             else Unauthenticated
    {
      if !Truthy(email) || !Truthy(password) {
        return BadRequest;
      }
      if !EmailTaken(users, email.value) {
        return Unauthenticated;
      }
      var id :| id in users && users[id].email == email.value;
      var user := users[id];
      if !hasher.matches(password.value, user.passwordHash) {
        return Unauthenticated;
      }
      var token := tokens.sign(Claims(id, id, user.email));
      o := Ok(LoginReply(token, ViewOf(id, user)));
    }

    /** `POST /api/posts`. Without a file the mimetype lookup throws (500); a missing
        title or content, or an author that is not a stored user, is refused by the
        table (500). Otherwise one post is added, owned by the requester's `id`, with
        the file's path in the slot the create rule picks and null in the other. */
    method CreatePost(header: Option<string>, title: Option<string>, content: Option<string>, file: Option<Upload>)
      returns (o: Outcome<(int, Post)>)
      requires Valid()
      modifies this`posts, this`nextPostId
      ensures Valid()
      ensures Authenticate(header, tokens).Rejected? ==> o == Unauthenticated
      ensures Authenticate(header, tokens).Accepted? ==>
        if file.Some? && title.Some? && content.Some? && Authenticate(header, tokens).claims.id in users
        then o.Created? else o == ServerError
      ensures o.Created? ==>
        var id, p, f := o.value.0, o.value.1, file.value;
        && id == old(nextPostId) && id !in old(posts)
        && posts == old(posts)[id := p] && nextPostId == id + 1
        && p.title == title.value && p.content == content.value
        && p.userId == Authenticate(header, tokens).claims.id
        && (CreateSlot(f.mimetype) == Image ==> p.image == Some(f.path) && p.video == None)
        && (CreateSlot(f.mimetype) == Video ==> p.video == Some(f.path) && p.image == None)
      ensures !o.Created? ==> posts == old(posts) && nextPostId == old(nextPostId)
    {
      var auth := Authenticate(header, tokens);
      if auth.Rejected? {
        return Unauthenticated;
      }
      if file.None? {
        return ServerError;
      }
      var f := file.value;
      var slot := CreateSlot(f.mimetype);
      if title.None? || content.None? || auth.claims.id !in users {
        return ServerError;
      }
      var p := Post(title.value, content.value,
                    if slot == Image then Some(f.path) else None,
                    if slot == Video then Some(f.path) else None,
                    auth.claims.id);
      var id := nextPostId;
      AddPostKeeps(users, posts, comments, nextUserId, nextPostId, nextCommentId, p);
      posts := posts[id := p];
      nextPostId := id + 1;
      o := Created((id, p));
    }

    /** `GET /api/posts`: every stored post, each with exactly its comments. */
    method ListPosts(header: Option<string>) returns (o: Outcome<map<int, PostDetail>>)
      ensures Authenticate(header, tokens).Rejected? <==> o == Unauthenticated
      ensures !o.Unauthenticated? ==> o.Ok? && o.value.Keys == posts.Keys
      ensures o.Ok? ==> forall id :: id in posts ==> o.value[id] == PostDetail(posts[id], CommentsOn(comments, id))
    {
      if Authenticate(header, tokens).Rejected? {
        return Unauthenticated;
      }
      o := Ok(map id | id in posts :: PostDetail(posts[id], CommentsOn(comments, id)));
    }

    /** `GET /api/posts/:id`: the post with its comments, or 404. */
    method GetPost(header: Option<string>, id: int) returns (o: Outcome<PostDetail>)
      ensures Authenticate(header, tokens).Rejected? ==> o == Unauthenticated
      ensures Authenticate(header, tokens).Accepted? ==>
        o == if id in posts then Ok(PostDetail(posts[id], CommentsOn(comments, id))) else NotFound
    {
      if Authenticate(header, tokens).Rejected? {
        return Unauthenticated;
      }
      if id !in posts {
        return NotFound;
      }
      o := Ok(PostDetail(posts[id], CommentsOn(comments, id)));
    }

    /** `PUT /api/posts/:id`. Any authenticated requester may update any post: there is
        no ownership check. A missing post is answered 404. Otherwise a truthy title or
        content replaces the stored one, a file whose type is `image` before the first
        `/` replaces only `image` and one whose type is `video` only `video`, both with
        `/uploads/` and the stored file name; the owner and every other post stay. */
    method UpdatePost(header: Option<string>, id: int, title: Option<string>, content: Option<string>, file: Option<Upload>)
      returns (o: Outcome<Post>)
      requires Valid()
      modifies this`posts
      ensures Valid()
      ensures Authenticate(header, tokens).Rejected? ==> o == Unauthenticated
      ensures Authenticate(header, tokens).Accepted? ==> if id in old(posts) then o.Ok? else o == NotFound
      ensures !o.Ok? ==> posts == old(posts)
      ensures o.Ok? ==>
        var was, p := old(posts)[id], o.value;
        var slot := if file.Some? then UpdateSlot(file.value.mimetype) else None;
        && posts == old(posts)[id := p]
        && p.title == (if Truthy(title) then title.value else was.title)
        && p.content == (if Truthy(content) then content.value else was.content)
        && p.image == (if slot == Some(Image) then Some("/uploads/" + file.value.filename) else was.image)
        && p.video == (if slot == Some(Video) then Some("/uploads/" + file.value.filename) else was.video)
        && p.userId == was.userId
    {
      if Authenticate(header, tokens).Rejected? {
        return Unauthenticated;
      }
      if id !in posts {
        return NotFound;
      }
      var p := posts[id];
      p := p.(title := if Truthy(title) then title.value else p.title);
      p := p.(content := if Truthy(content) then content.value else p.content);
      if file.Some? {
        var slot := UpdateSlot(file.value.mimetype);
        if slot == Some(Image) {
          p := p.(image := Some("/uploads/" + file.value.filename));
        } else if slot == Some(Video) {
          p := p.(video := Some("/uploads/" + file.value.filename));
        }
      }
      posts := posts[id := p];
      o := Ok(p);
    }

    /** `DELETE /api/posts/:id`. A missing post is answered 404; a requester whose
        `userId` claim is not the post's owner 403, and the post stays; the owner
        removes exactly that post, and its comments stay. */
    method DeletePost(header: Option<string>, id: int) returns (o: Outcome<()>)
      requires Valid()
      modifies this`posts
      ensures Valid()
      ensures Authenticate(header, tokens).Rejected? ==> o == Unauthenticated
      ensures Authenticate(header, tokens).Accepted? ==>
        o == if id !in old(posts) then NotFound
             else if old(posts)[id].userId != Authenticate(header, tokens).claims.userId then Forbidden
             else Ok(())
      ensures posts == if o.Ok? then old(posts) - {id} else old(posts)
    {
      var auth := Authenticate(header, tokens);
      if auth.Rejected? {
        return Unauthenticated;
      }
      if id !in posts {
        return NotFound;
      }
      if posts[id].userId != auth.claims.userId {
        return Forbidden;
      }
      posts := posts - {id};
      o := Ok(());
    }

    /** `POST /api/posts/:postId/comments`. A missing text, an author that is not a
        stored user or a post that does not exist is refused by the table (500);
        otherwise one comment is added by the requester's `id` on that post. */
    method CreateComment(header: Option<string>, postId: int, text: Option<string>)
      returns (o: Outcome<(int, Comment)>)
      requires Valid()
      modifies this`comments, this`nextCommentId
      ensures Valid()
      ensures Authenticate(header, tokens).Rejected? ==> o == Unauthenticated
      ensures Authenticate(header, tokens).Accepted? ==>
        if text.Some? && Authenticate(header, tokens).claims.id in users && postId in posts
        then o == Created((old(nextCommentId), Comment(text.value, Authenticate(header, tokens).claims.id, postId)))
        else o == ServerError
      ensures o.Created? ==>
        && o.value.0 !in old(comments)
        && comments == old(comments)[o.value.0 := o.value.1]
        && nextCommentId == old(nextCommentId) + 1
      ensures !o.Created? ==> comments == old(comments) && nextCommentId == old(nextCommentId)
    {
      var auth := Authenticate(header, tokens);
      if auth.Rejected? {
        return Unauthenticated;
      }
      if text.None? || auth.claims.id !in users || postId !in posts {
        return ServerError;
      }
      var id := nextCommentId;
      var c := Comment(text.value, auth.claims.id, postId);
      AddCommentKeeps(users, posts, comments, nextUserId, nextPostId, nextCommentId, c);
      comments := comments[id := c];
      nextCommentId := id + 1;
      o := Created((id, c));
    }

    /** `GET /api/posts/:postId/comments`: exactly the comments whose `postId` matches. */
    method ListComments(header: Option<string>, postId: int) returns (o: Outcome<map<int, Comment>>)
      ensures Authenticate(header, tokens).Rejected? <==> o == Unauthenticated
      ensures !o.Unauthenticated? ==> o.Ok?
      ensures o.Ok? ==> forall id :: id in o.value <==> id in comments && comments[id].postId == postId
      ensures o.Ok? ==> forall id :: id in o.value ==> o.value[id] == comments[id]
    {
      if Authenticate(header, tokens).Rejected? {
        return Unauthenticated;
      }
      o := Ok(CommentsOn(comments, postId));
    }

    /** `DELETE /api/comments/:id`. The comment is looked up by its id together with the
        requester's `id`, so a comment of someone else is answered with the same 404 as
        one that does not exist; only the author's request removes it, and nothing else. */
    method DeleteComment(header: Option<string>, id: int) returns (o: Outcome<()>)
      requires Valid()
      modifies this`comments
      ensures Valid()
      ensures Authenticate(header, tokens).Rejected? ==> o == Unauthenticated
      ensures Authenticate(header, tokens).Accepted? ==>
        o == if id in old(comments) && old(comments)[id].userId == Authenticate(header, tokens).claims.id
             then Ok(()) else NotFound
      ensures comments == if o.Ok? then old(comments) - {id} else old(comments)
    {
      var auth := Authenticate(header, tokens);
      if auth.Rejected? {
        return Unauthenticated;
      }
      if !(id in comments && comments[id].userId == auth.claims.id) {
        return NotFound;
      }
      comments := comments - {id};
      o := Ok(());
    }
  }
}
