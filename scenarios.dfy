/** Request sequences against a fresh server, proved from the handlers' contracts alone:
    registration followed by login, the authentication gate, posting with an image, and
    the ownership check on deleting a post. */
module Scenarios {
  import opened Outcomes
  import opened Credentials
  import opened Session
  import opened Media
  import opened Records
  import opened Api

  /** Whoever signs up with a fresh email and a non-empty password can then log in with
      the same credentials, and the token names the new user. */
  method SignupThenLogin(server: Server, email: string, password: string)
    returns (signedUp: Outcome<int>, loggedIn: Outcome<LoginReply>)
    requires server.Valid() && Consistent(server.hasher)
    requires email != "" && password != "" && !EmailTaken(server.users, email)
    modifies server`users, server`nextUserId
    ensures server.Valid()
    ensures signedUp == Created(old(server.nextUserId)) && loggedIn.Ok?
    ensures server.users == old(server.users)[signedUp.value := User(None, email, server.hasher.hash(password), None)]
    ensures server.nextUserId == old(server.nextUserId) + 1
    ensures loggedIn.value.token == server.tokens.sign(Claims(signedUp.value, signedUp.value, email))
    ensures loggedIn.value.user == UserView(signedUp.value, None, email, None)
  {
    signedUp := server.Signup(Some(email), Some(password));
    loggedIn := server.Login(Some(email), Some(password));
    assert server.users[signedUp.value].email == email;
  }

  /** Sign up and log in as `a@x.com`; listing posts without a header is refused, and with
      the issued token it yields the empty list. */
  method RegisterLoginAndList(hasher: Hasher, tokens: TokenService)
    returns (signedUp: Outcome<int>, loggedIn: Outcome<LoginReply>,
             anonymous: Outcome<map<int, PostDetail>>, listed: Outcome<map<int, PostDetail>>)
    requires Consistent(hasher) && WellFormed(tokens)
    ensures signedUp == Created(1) && loggedIn.Ok?
    ensures anonymous == Unauthenticated && listed == Ok(map[])
  {
    var server := new Server(hasher, tokens);
    signedUp, loggedIn := SignupThenLogin(server, "a@x.com", "p1");
    anonymous := server.ListPosts(None);
    IssuedTokenAccepted(tokens, Claims(1, 1, "a@x.com"), "Bearer");
    listed := server.ListPosts(Some("Bearer" + " " + loggedIn.value.token));
  }

  /** A logged-in user creates a post `t`/`c` with an image file: `image` holds the file's
      path and `video` is null, and reading the post back gives it with no comments. */
  method CreateWithImageAndRead(hasher: Hasher, tokens: TokenService, file: Upload)
    returns (created: Outcome<(int, Post)>, fetched: Outcome<PostDetail>)
    requires Consistent(hasher) && WellFormed(tokens)
    requires "image" <= file.mimetype
    ensures created.Created?
    ensures created.value.1 == Post("t", "c", Some(file.path), None, 1)
    ensures fetched == Ok(PostDetail(created.value.1, map[]))
  {
    var server := new Server(hasher, tokens);
    var signedUp, loggedIn := SignupThenLogin(server, "a@x.com", "p1");
    var header := Some("Bearer" + " " + loggedIn.value.token);
    IssuedTokenAccepted(tokens, Claims(1, 1, "a@x.com"), "Bearer");
    created := server.CreatePost(header, Some("t"), Some("c"), Some(file));
    fetched := server.GetPost(header, created.value.0);
  }

  /** A fresh server on which two users with different emails have signed up (ids 1
      and 2) and logged in; `a` and `b` are their authorization headers. */
  method TwoUsersLoggedIn(hasher: Hasher, tokens: TokenService, emailA: string, emailB: string)
    returns (server: Server, a: Option<string>, b: Option<string>)
    requires Consistent(hasher) && WellFormed(tokens)
    requires emailA != "" && emailB != "" && emailA != emailB
    ensures fresh(server) && server.Valid() && server.tokens == tokens
    ensures server.users.Keys == {1, 2} && server.posts == map[] && server.nextPostId == 1
    ensures Authenticate(a, tokens) == Accepted(Claims(1, 1, emailA))
    ensures Authenticate(b, tokens) == Accepted(Claims(2, 2, emailB))
  {
    server := new Server(hasher, tokens);
    var aUp, aIn := SignupThenLogin(server, emailA, "p1");
    assert server.users.Keys == {1} && server.users[1].email == emailA;
    var bUp, bIn := SignupThenLogin(server, emailB, "p2");
    a := Some("Bearer" + " " + aIn.value.token);
    b := Some("Bearer" + " " + bIn.value.token);
    IssuedTokenAccepted(tokens, Claims(1, 1, emailA), "Bearer");
    IssuedTokenAccepted(tokens, Claims(2, 2, emailB), "Bearer");
  }

  /** User B's attempt to delete user A's post is refused with 403 and the post stays;
      A's own delete succeeds, after which the post is gone. */
  method OnlyTheOwnerDeletes(hasher: Hasher, tokens: TokenService, file: Upload)
    returns (byOther: Outcome<()>, stillThere: Outcome<PostDetail>, byOwner: Outcome<()>, gone: Outcome<PostDetail>)
    requires Consistent(hasher) && WellFormed(tokens)
    ensures byOther == Forbidden && stillThere.Ok?
    ensures byOwner == Ok(()) && gone == NotFound
  {
    var server, a, b := TwoUsersLoggedIn(hasher, tokens, "a@x.com", "b@x.com");
    var created := server.CreatePost(a, Some("t"), Some("c"), Some(file));
    var id := created.value.0;
    byOther := server.DeletePost(b, id);
    stillThere := server.GetPost(a, id);
    byOwner := server.DeletePost(a, id);
    gone := server.GetPost(a, id);
  }
}
