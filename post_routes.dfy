/** The handlers of `server/routes/posts.js`: create with an uploaded image and
    optional music, like and dislike toggles, comments and owner-only delete. */
module PostRoutes {
  import opened Wrappers
  import opened Seqs
  import opened Models
  import opened Uploads

  datatype Comment = Comment(text: Option<string>, user: Id)

  /** A Post document; `user` is the author's id. */
  datatype Post = Post(
    user: Id,
    caption: Option<string>,
    image: string,
    music: Option<string>,
    likes: seq<Id>,
    dislikes: seq<Id>,
    comments: seq<Comment>)

  /** Both reaction lists are duplicate-free and nobody is in both. */
  ghost predicate Exclusive(likes: seq<Id>, dislikes: seq<Id>) {
    && NoDup(likes)
    && NoDup(dislikes)
    && (forall u :: u in likes ==> u !in dislikes)
  }

  /** The like toggle: an existing like is withdrawn (its first occurrence
      spliced out, dislikes untouched); otherwise the user goes to the front of
      `likes` and a dislike of theirs is withdrawn. Result: (likes, dislikes). */
  function Like(likes: seq<Id>, dislikes: seq<Id>, u: Id): (r: (seq<Id>, seq<Id>))
    ensures u in likes ==> multiset(r.0) == multiset(likes) - multiset{u} && r.1 == dislikes
    ensures u in likes ==> r.0 == RemoveFirst(likes, u)
    ensures u !in likes ==> |r.0| > 0 && r.0[0] == u && r.0[1..] == likes
    ensures u !in likes ==> multiset(r.1) == multiset(dislikes) - multiset{u}
    ensures u !in likes ==> r.1 == RemoveFirst(dislikes, u)
  {
    if u in likes then (RemoveFirst(likes, u), dislikes)
    else ([u] + likes, RemoveFirst(dislikes, u))
  }

  /** The dislike toggle, written out as the handler does. Result: (likes, dislikes). */
  function Dislike(likes: seq<Id>, dislikes: seq<Id>, u: Id): (r: (seq<Id>, seq<Id>))
    ensures u in dislikes ==> multiset(r.1) == multiset(dislikes) - multiset{u} && r.0 == likes
    ensures u in dislikes ==> r.1 == RemoveFirst(dislikes, u)
    ensures u !in dislikes ==> |r.1| > 0 && r.1[0] == u && r.1[1..] == dislikes
    ensures u !in dislikes ==> multiset(r.0) == multiset(likes) - multiset{u}
    ensures u !in dislikes ==> r.0 == RemoveFirst(likes, u)
  {
    if u in dislikes then (likes, RemoveFirst(dislikes, u))
    else (RemoveFirst(likes, u), [u] + dislikes)
  }

  /** Dislike is Like with the two lists swapped. */
  lemma DislikeMirrorsLike(likes: seq<Id>, dislikes: seq<Id>, u: Id)
    ensures var (d, l) := Like(dislikes, likes, u); Dislike(likes, dislikes, u) == (l, d)
  {
  }

  lemma PrependNoDup(s: seq<Id>, u: Id)
    requires NoDup(s) && u !in s
    ensures NoDup([u] + s)
  {
    var r := [u] + s;
    forall i, j | 0 <= i < j < |r| ensures r[i] != r[j] {
      if i == 0 {
        assert r[j] == s[j - 1];
      } else {
        assert r[i] == s[i - 1] && r[j] == s[j - 1];
      }
    }
  }

  /** Any like keeps the reaction lists exclusive, and afterwards the user has
      liked exactly when they had not liked before, and has not disliked. */
  lemma LikeKeepsExclusive(likes: seq<Id>, dislikes: seq<Id>, u: Id)
    requires Exclusive(likes, dislikes)
    ensures var (l, d) := Like(likes, dislikes, u);
      Exclusive(l, d) && (u in l <==> u !in likes) && u !in d
  {
    var (l, d) := Like(likes, dislikes, u);
    RemoveFirstNoDup(likes, u);
    RemoveFirstNoDup(dislikes, u);
    if u !in likes {
      PrependNoDup(likes, u);
      assert forall y :: y in l <==> y == u || y in likes;
    }
  }

  /** Any dislike keeps the reaction lists exclusive. */
  lemma DislikeKeepsExclusive(likes: seq<Id>, dislikes: seq<Id>, u: Id)
    requires Exclusive(likes, dislikes)
    ensures var (l, d) := Dislike(likes, dislikes, u);
      Exclusive(l, d) && (u in d <==> u !in dislikes) && u !in l
  {
    DislikeMirrorsLike(likes, dislikes, u);
    LikeKeepsExclusive(dislikes, likes, u);
  }

  /** From a neutral state, liking twice restores both lists. */
  lemma LikeTwiceFromNeutral(likes: seq<Id>, dislikes: seq<Id>, u: Id)
    requires u !in likes && u !in dislikes
    ensures var (l, d) := Like(likes, dislikes, u); Like(l, d, u) == (likes, dislikes)
  {
    RemoveFirstAfterPrepend(likes, u);
  }

  /** A like followed by a dislike leaves just the dislike. */
  lemma LikeThenDislike(likes: seq<Id>, dislikes: seq<Id>, u: Id)
    requires u !in likes && u !in dislikes
    ensures var (l, d) := Like(likes, dislikes, u); Dislike(l, d, u) == (likes, [u] + dislikes)
  {
    RemoveFirstAfterPrepend(likes, u);
  }

  /** The stored path of an upload: multer's `fieldname-<Date.now()><extname>` under `/uploads/`. */
  function StoredPath(field: string, stamp: string, file: Upload): string {
    "/uploads/" + field + "-" + stamp + Extname(file.originalName)
  }

  class PostStore {
    var posts: map<Id, Post>

    ghost predicate Valid()
      reads this
    {
      forall id | id in posts :: Exclusive(posts[id].likes, posts[id].dislikes)
    }

    constructor ()
      ensures Valid() && posts == map[]
    {
      posts := map[];
    }

    /** `POST /api/posts`: 400 when an uploaded file fails the type filter or
        the size limit, 400 when there is no image; otherwise a new post with
        the image path, the music path or null and no reactions. `imageStamp`
        and `musicStamp` are the `Date.now()` values multer names the files with. */
    method CreatePost(author: Id, caption: Option<string>, image: Option<Upload>, music: Option<Upload>,
                      imageStamp: string, musicStamp: string, newId: Id) returns (status: int)
      requires Valid() && newId !in posts
      modifies this
      ensures Valid()
      ensures var rejected := (image.Some? && Screen(POST_TYPES, "Error: Images and Music Only!", image.value).Some?)
                           || (music.Some? && Screen(POST_TYPES, "Error: Images and Music Only!", music.value).Some?);
        status == (if rejected || image.None? then BAD_REQUEST else OK)
      ensures status == OK ==> posts == old(posts)[newId := Post(author, caption,
        StoredPath("image", imageStamp, image.value),
        if music.Some? then Some(StoredPath("music", musicStamp, music.value)) else None,
        [], [], [])]
      ensures status != OK ==> posts == old(posts)
    {
      if image.Some? && Screen(POST_TYPES, "Error: Images and Music Only!", image.value).Some? {
        return BAD_REQUEST;
      }
      if music.Some? && Screen(POST_TYPES, "Error: Images and Music Only!", music.value).Some? {
        return BAD_REQUEST;
      }
      if image.None? {
        return BAD_REQUEST;
      }
      var musicPath := if music.Some? then Some(StoredPath("music", musicStamp, music.value)) else None;
      var newPost := Post(author, caption, StoredPath("image", imageStamp, image.value), musicPath, [], [], []);
      posts := posts[newId := newPost];
      status := OK;
    }

    /** `PUT /api/posts/like/:id`. A missing post makes `post.likes` throw: 500. */
    method LikePost(postId: Id, userId: Id) returns (status: int)
      requires Valid()
      modifies this
      ensures Valid()
      ensures postId !in old(posts) ==> status == SERVER_ERROR && posts == old(posts)
      ensures postId in old(posts) ==> status == OK
      ensures postId in old(posts) ==>
        var p := old(posts)[postId];
        var (l, d) := Like(p.likes, p.dislikes, userId);
        posts == old(posts)[postId := p.(likes := l, dislikes := d)]
    {
      if postId !in posts {
        return SERVER_ERROR;
      }
      var post := posts[postId];
      var likes, dislikes := post.likes, post.dislikes;
      if userId in likes {
        var removeIndex := IndexOf(likes, userId);
        likes := likes[..removeIndex] + likes[removeIndex + 1..];
      } else {
        likes := [userId] + likes;
        if userId in dislikes {
          var removeIndex := IndexOf(dislikes, userId);
          dislikes := dislikes[..removeIndex] + dislikes[removeIndex + 1..];
        }
      }
      assert (likes, dislikes) == Like(post.likes, post.dislikes, userId);
      LikeKeepsExclusive(post.likes, post.dislikes, userId);
      posts := posts[postId := post.(likes := likes, dislikes := dislikes)];
      status := OK;
    }

    /** `PUT /api/posts/dislike/:id`. A missing post makes `post.dislikes` throw: 500. */
    method DislikePost(postId: Id, userId: Id) returns (status: int)
      requires Valid()
      modifies this
      ensures Valid()
      ensures postId !in old(posts) ==> status == SERVER_ERROR && posts == old(posts)
      ensures postId in old(posts) ==> status == OK
      ensures postId in old(posts) ==>
        var p := old(posts)[postId];
        var (l, d) := Dislike(p.likes, p.dislikes, userId);
        posts == old(posts)[postId := p.(likes := l, dislikes := d)]
    {
      if postId !in posts {
        return SERVER_ERROR;
      }
      var post := posts[postId];
      var likes, dislikes := post.likes, post.dislikes;
      if userId in dislikes {
        var removeIndex := IndexOf(dislikes, userId);
        dislikes := dislikes[..removeIndex] + dislikes[removeIndex + 1..];
      } else {
        dislikes := [userId] + dislikes;
        if userId in likes {
          var removeIndex := IndexOf(likes, userId);
          likes := likes[..removeIndex] + likes[removeIndex + 1..];
        }
      }
      assert (likes, dislikes) == Dislike(post.likes, post.dislikes, userId);
      DislikeKeepsExclusive(post.likes, post.dislikes, userId);
      posts := posts[postId := post.(likes := likes, dislikes := dislikes)];
      status := OK;
    }

    /** `POST /api/posts/comment/:id`: the new comment goes first; the
        response is the updated comment list. A missing post throws: 500. */
    method CommentOn(postId: Id, userId: Id, text: Option<string>) returns (status: int, comments: seq<Comment>)
      requires Valid()
      modifies this
      ensures Valid()
      ensures postId !in old(posts) ==> status == SERVER_ERROR && posts == old(posts)
      ensures postId in old(posts) ==>
        && status == OK
        && |comments| == |old(posts)[postId].comments| + 1
        && comments[0] == Comment(text, userId)
        && comments[1..] == old(posts)[postId].comments
        && posts == old(posts)[postId := old(posts)[postId].(comments := comments)]
    {
      if postId !in posts {
        return SERVER_ERROR, [];
      }
      var post := posts[postId];
      comments := [Comment(text, userId)] + post.comments;
      posts := posts[postId := post.(comments := comments)];
      status := OK;
    }

    /** `DELETE /api/posts/:id`: 404 for a missing post, 401 unless the
        requester wrote it, otherwise the post is removed. */
    method DeletePost(postId: Id, requester: Id) returns (status: int)
      requires Valid()
      modifies this
      ensures Valid()
      ensures status == (if postId !in old(posts) then NOT_FOUND
                         else if old(posts)[postId].user != requester then UNAUTHORIZED
                         else OK)
      ensures status == OK ==> posts == old(posts) - {postId}
      ensures status != OK ==> posts == old(posts)
    {
      if postId !in posts {
        return NOT_FOUND;
      }
      if posts[postId].user != requester {
        return UNAUTHORIZED;
      }
      posts := posts - {postId};
      status := OK;
    }
  }
}
