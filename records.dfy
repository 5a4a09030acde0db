/** The three tables, `users`, `posts` and `comments`, as records keyed by their
    auto-incremented integer ids, and the invariant the handlers keep over them. */
module Records {
  import opened Outcomes

  /** A row of `users`; `passwordHash` is what the hasher produced, never the plaintext. */
  datatype User = User(name: Option<string>, email: string, passwordHash: string, gender: Option<string>)

  /** A row of `posts`; `image` and `video` are stored file references or null. */
  datatype Post = Post(title: string, content: string, image: Option<string>, video: Option<string>, userId: int)

  /** A row of `comments`. */
  datatype Comment = Comment(text: string, userId: int, postId: int)

  /** A user as the handlers send it back: everything but the password hash. */
  datatype UserView = UserView(id: int, name: Option<string>, email: string, gender: Option<string>)

  /** A post read together with its comments. */
  datatype PostDetail = PostDetail(post: Post, comments: map<int, Comment>)

  function ViewOf(id: int, u: User): (v: UserView)
    ensures v.id == id && v.name == u.name && v.email == u.email && v.gender == u.gender
  {
    UserView(id, u.name, u.email, u.gender)
  }

  /** Some stored user has this email: it is among the values of the column `users.email`. */
  predicate EmailTaken(users: map<int, User>, email: string)
    ensures EmailTaken(users, email) <==> email in (set id | id in users :: users[id].email)
  {
    exists id :: id in users && users[id].email == email
  }

  /** `User.findOne({ where: { email } })` is well defined: with emails unique, a taken
      email belongs to exactly one stored user. */
  lemma UserWithEmail(users: map<int, User>, email: string) returns (id: int)
    requires EmailsUnique(users) && EmailTaken(users, email)
    ensures id in users && users[id].email == email
    ensures forall j :: j in users && users[j].email == email ==> j == id
  {
    id :| id in users && users[id].email == email;
  }

  /** `Comment.findAll({ where: { postId } })`: exactly the comments on `postId`, as stored. */
  function CommentsOn(comments: map<int, Comment>, postId: int): (r: map<int, Comment>)
    ensures forall id :: id in r <==> id in comments && comments[id].postId == postId
    ensures forall id :: id in r ==> r[id] == comments[id]
  {
    map id | id in comments && comments[id].postId == postId :: comments[id]
  }

  /** Every id in `m` was drawn from the sequence that starts at 1 and is now at `next`. */
  ghost predicate IdsBelow<T>(m: map<int, T>, next: int) {
    1 <= next && forall id :: id in m ==> 1 <= id < next
  }

  /** No two users share an email. */
  ghost predicate EmailsUnique(users: map<int, User>) {
    forall i, j :: i in users && j in users && users[i].email == users[j].email ==> i == j
  }

  /** Every post and every comment belongs to a stored user (the `userId` foreign keys). */
  ghost predicate OwnersExist(users: map<int, User>, posts: map<int, Post>, comments: map<int, Comment>) {
    && (forall id :: id in posts ==> posts[id].userId in users)
    && (forall id :: id in comments ==> comments[id].userId in users)
  }

  /** What the schema guarantees of the three tables. In particular the next value of each
      auto-increment sequence is not yet used as a key. */
  ghost predicate Invariant(users: map<int, User>, posts: map<int, Post>, comments: map<int, Comment>,
                            nextUser: int, nextPost: int, nextComment: int)
    ensures Invariant(users, posts, comments, nextUser, nextPost, nextComment) ==>
      nextUser !in users && nextPost !in posts && nextComment !in comments
  {
    && IdsBelow(users, nextUser) && IdsBelow(posts, nextPost) && IdsBelow(comments, nextComment)
    && EmailsUnique(users)
    && OwnersExist(users, posts, comments)
  }

  /** Adding a user with a fresh email at the head of the sequence keeps the invariant. */
  lemma AddUserKeeps(users: map<int, User>, posts: map<int, Post>, comments: map<int, Comment>,
                     nextUser: int, nextPost: int, nextComment: int, u: User)
    requires Invariant(users, posts, comments, nextUser, nextPost, nextComment)
    requires !EmailTaken(users, u.email)
    ensures nextUser !in users
    ensures Invariant(users[nextUser := u], posts, comments, nextUser + 1, nextPost, nextComment)
  {
    var users' := users[nextUser := u];
    forall i, j | i in users' && j in users' && users'[i].email == users'[j].email
      ensures i == j
    {
      if i != nextUser && j != nextUser {
        assert users[i].email == users[j].email;
      }
    }
  }

  /** Adding a post owned by a stored user at the head of the sequence keeps the invariant. */
  lemma AddPostKeeps(users: map<int, User>, posts: map<int, Post>, comments: map<int, Comment>,
                     nextUser: int, nextPost: int, nextComment: int, p: Post)
    requires Invariant(users, posts, comments, nextUser, nextPost, nextComment)
    requires p.userId in users
    ensures nextPost !in posts
    ensures Invariant(users, posts[nextPost := p], comments, nextUser, nextPost + 1, nextComment)
  {
  }

  /** Adding a comment by a stored user at the head of the sequence keeps the invariant. */
  lemma AddCommentKeeps(users: map<int, User>, posts: map<int, Post>, comments: map<int, Comment>,
                        nextUser: int, nextPost: int, nextComment: int, c: Comment)
    requires Invariant(users, posts, comments, nextUser, nextPost, nextComment)
    requires c.userId in users
    ensures nextComment !in comments
    ensures Invariant(users, posts, comments[nextComment := c], nextUser, nextPost, nextComment + 1)
  {
  }
}
