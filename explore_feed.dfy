/** The post feed of `client/src/pages/Explore.jsx`: a post the user has just
    created goes to the top, and a post is removed once its deletion has gone
    through on the server. */
module ExploreFeed {
  import opened Seqs
  import opened Models
  import opened PostRoutes
  import opened ClientLists

  /** The `{_id, username}` object the feed shows as a post's author. */
  datatype Author = Author(id: Id, username: string)

  /** A post as the feed shows it: the document and its author. */
  datatype Shown = Shown(author: Author, post: Post)

  /** `handlePostCreated`: the created post, with the current user as its
      author and no comments, is put in front of the feed. */
  function HandlePostCreated(feed: seq<Row<Shown>>, id: Id, created: Post, me: Author): (r: seq<Row<Shown>>)
    ensures |r| == |feed| + 1 && r[1..] == feed
    ensures r[0].id == id && r[0].doc.author == me && r[0].doc.post.comments == []
    ensures r[0].doc.post.(comments := created.comments) == created
  {
    [Row(id, Shown(me, created.(comments := [])))] + feed
  }

  /** `handleDeletePost`: the shared delete rule of the client lists. */
  function HandleDeletePost(feed: seq<Row<Shown>>, postId: Id, confirmed: bool, status: int): (r: seq<Row<Shown>>)
    ensures confirmed && Succeeded(status) ==> forall x :: x in r <==> x in feed && x.id != postId
    ensures !confirmed || !Succeeded(status) ==> r == feed
  {
    HandleDelete(feed, postId, confirmed, status)
  }

  /** Deleting a post removes it and keeps every other post in feed order. */
  lemma DeleteKeepsFeedOrder(before: seq<Row<Shown>>, post: Row<Shown>, after: seq<Row<Shown>>)
    requires forall k :: 0 <= k < |before| ==> before[k].id != post.id
    requires forall k :: 0 <= k < |after| ==> after[k].id != post.id
    ensures HandleDeletePost(before + [post] + after, post.id, true, OK) == before + after
  {
    DeleteKeepsOthersInOrder(before, post, after);
  }

  /** Creating a post and then deleting it successfully gives back the feed;
      a declined confirm or a failed request keeps the new post on top. */
  lemma CreateThenDeleteRestores(feed: seq<Row<Shown>>, id: Id, created: Post, me: Author, status: int)
    requires forall k :: 0 <= k < |feed| ==> feed[k].id != id
    ensures HandleDeletePost(HandlePostCreated(feed, id, created, me), id, true, OK) == feed
    ensures !Succeeded(status) ==>
      HandleDeletePost(HandlePostCreated(feed, id, created, me), id, true, status) == HandlePostCreated(feed, id, created, me)
    ensures HandleDeletePost(HandlePostCreated(feed, id, created, me), id, false, OK) == HandlePostCreated(feed, id, created, me)
  {
    var shown := HandlePostCreated(feed, id, created, me);
    assert shown == [] + [shown[0]] + feed;
    DeleteKeepsFeedOrder([], shown[0], feed);
  }

  /** A feed that mirrors the server's posts still does after a successful
      delete, which removes the post there too. */
  lemma DeleteFollowsServer(feed: seq<Row<Shown>>, table: map<Id, Shown>, postId: Id)
    requires Mirrors(feed, table)
    ensures Mirrors(HandleDeletePost(feed, postId, true, OK), table - {postId})
  {
    DeleteKeepsMirror(feed, table, postId);
  }
}
