/**
 * The derivations the three views compute from the state: the feed cards, and each
 * author's impact timeline. None of them changes the state.
 */
module Views {
  import opened Wrappers
  import opened Tables
  import opened Records
  import opened TrustLevels
  import opened CommentComposer

  /** `users.find(u => u.id === id)`: the first user with that id, if any. */
  function FindUser(users: seq<User>, id: int): (r: Option<User>)
    ensures r.Some? ==> r.value in users && r.value.id == id
    ensures r.None? <==> forall k :: 0 <= k < |users| ==> users[k].id != id
    ensures r.Some? ==> exists i :: 0 <= i < |users| && users[i] == r.value &&
                          forall k :: 0 <= k < i ==> users[k].id != id
  {
    if users == [] then None
    else if users[0].id == id then Some(users[0])
    else
      var r := FindUser(users[1..], id);
      assert r.Some? ==> exists i :: 0 <= i < |users[1..]| && users[1..][i] == r.value &&
                          forall k :: 0 <= k < i ==> users[1..][k].id != id;
      assert users == [users[0]] + users[1..];
      r
  }

  predicate AuthorExists(users: seq<User>, id: int) {
    exists k :: 0 <= k < |users| && users[k].id == id
  }

  /** Whether an id has a user does not depend on the order of the users. */
  lemma PermutationKeepsAuthors(a: seq<User>, b: seq<User>, id: int)
    requires multiset(a) == multiset(b)
    ensures AuthorExists(a, id) ==> AuthorExists(b, id)
  {
    if AuthorExists(a, id) {
      var k :| 0 <= k < |a| && a[k].id == id;
      assert a[k] in multiset(b);
      var m :| 0 <= m < |b| && b[m] == a[k];
    }
  }

  /** What the feed shows for one post. */
  datatype FeedCard = FeedCard(
    post: Post,
    author: User,
    trust: TrustLevel,
    comments: seq<Comment>,
    expanded: bool,
    totalReactions: int)

  /**
   * One post's card: its author is the first user with the post's authorId; the thread
   * holds exactly that post's comments; the card is expanded exactly when the post's id is
   * in the expanded set. The source dereferences the author without a guard, so the author
   * must exist.
   */
  function CardFor(post: Post, users: seq<User>, comments: seq<Comment>, expanded: set<int>): (c: FeedCard)
    requires AuthorExists(users, post.authorId)
    ensures c.post == post && c.author in users && c.author.id == post.authorId
    ensures FindUser(users, post.authorId) == Some(c.author)
    ensures c.trust == GetTrustLevel(c.author.reputation)
    ensures forall x :: x in c.comments <==> x in comments && x.postId == post.id
    ensures c.comments == CommentsFor(comments, post.id)
    ensures c.expanded <==> post.id in expanded
    ensures c.totalReactions == TotalReactions(post)
  {
    var author := FindUser(users, post.authorId).value;
    FeedCard(post, author, GetTrustLevel(author.reputation), CommentsFor(comments, post.id),
             post.id in expanded, TotalReactions(post))
  }

  /** The feed: one card per post, in the order of the post list. */
  function FeedView(posts: seq<Post>, users: seq<User>, comments: seq<Comment>, expanded: set<int>): (r: seq<FeedCard>)
    requires forall i :: 0 <= i < |posts| ==> AuthorExists(users, posts[i].authorId)
    ensures |r| == |posts|
    ensures forall i :: 0 <= i < |posts| ==> r[i].post == posts[i] && r[i].author.id == posts[i].authorId
  {
    if posts == [] then []
    else [CardFor(posts[0], users, comments, expanded)] + FeedView(posts[1..], users, comments, expanded)
  }

  /** `posts.filter(p => p.authorId === user.id)`: one author's posts, in list order. */
  function PostsBy(posts: seq<Post>, authorId: int): (r: seq<Post>)
    ensures |r| <= |posts|
    ensures forall p :: p in r ==> p in posts && p.authorId == authorId
    ensures forall p :: p in posts && p.authorId == authorId ==> p in r
  {
    if posts == [] then []
    else (if posts[0].authorId == authorId then [posts[0]] else []) + PostsBy(posts[1..], authorId)
  }

  /** Filtering keeps the order: it distributes over concatenation. */
  lemma {:induction false} PostsByConcat(a: seq<Post>, b: seq<Post>, authorId: int)
    ensures PostsBy(a + b, authorId) == PostsBy(a, authorId) + PostsBy(b, authorId)
  {
    if a == [] {
      assert a + b == b;
    } else {
      assert (a + b)[1..] == a[1..] + b;
      PostsByConcat(a[1..], b, authorId);
    }
  }

  /** One line of an author's impact timeline; the reach is shown, never stored. */
  datatype TimelineEntry = TimelineEntry(post: Post, reactions: int, comments: nat, reach: int)

  function Min(a: int, b: int): int { if a <= b then a else b }

  /**
   * The impact timeline of one author: the first three of the author's posts in list
   * order (not by date), each with its positive total, its comment count and a reach of
   * twice the total.
   */
  function Timeline(posts: seq<Post>, comments: seq<Comment>, authorId: int): (r: seq<TimelineEntry>)
    ensures |r| == Min(3, |PostsBy(posts, authorId)|)
    ensures forall i :: 0 <= i < |r| ==>
      && r[i].post == PostsBy(posts, authorId)[i]
      && r[i].post.authorId == authorId
      && r[i].reactions == TotalReactions(r[i].post)
      && r[i].reach == 2 * r[i].reactions
      && r[i].comments == |CommentsFor(comments, r[i].post.id)|
  {
    var mine := PostsBy(posts, authorId);
    var shown := mine[..Min(3, |mine|)];
    assert forall i :: 0 <= i < |shown| ==> shown[i] in mine;
    seq(|shown|, i requires 0 <= i < |shown| =>
      TimelineEntry(shown[i], TotalReactions(shown[i]),
                    |CommentsFor(comments, shown[i].id)|, 2 * TotalReactions(shown[i])))
  }

  /** Posts added after an author's third post never change that author's timeline. */
  lemma TimelineIgnoresLaterPosts(posts: seq<Post>, later: seq<Post>, comments: seq<Comment>, authorId: int)
    requires |PostsBy(posts, authorId)| >= 3
    ensures Timeline(posts + later, comments, authorId) == Timeline(posts, comments, authorId)
  {
    PostsByConcat(posts, later, authorId);
  }
}
