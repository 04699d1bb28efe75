/**
 * The component's state: the users array, the post and comment lists and the set of
 * expanded posts. The reaction and expand buttons call their handlers; the comment
 * handler is defined in the component but has no caller there.
 */
module App {
  import opened Wrappers
  import opened Tables
  import opened Records
  import opened Seed
  import opened ReactionHandler
  import opened CommentComposer
  import opened ExpansionToggle
  import opened TopContributors
  import opened Views

  predicate PostIdsUnique(posts: seq<Post>) {
    forall i, j :: 0 <= i < j < |posts| ==> posts[i].id != posts[j].id
  }

  /** Reacting keeps what the state invariant asks of the post list. */
  lemma ReactAllKeepsIntegrity(posts: seq<Post>, users: seq<User>, postId: int, kind: ReactionKind, reason: Option<string>)
    requires PostIdsUnique(posts)
    requires forall i :: 0 <= i < |posts| ==> AuthorExists(users, posts[i].authorId)
    ensures var r := ReactAll(posts, postId, kind, reason);
      && PostIdsUnique(r)
      && forall i :: 0 <= i < |r| ==> AuthorExists(users, r[i].authorId)
  {
  }

  /** The seed data meets the state invariant. */
  lemma SeedIsValid(loadTime: int)
    ensures PostIdsUnique(SeedPosts(loadTime)) && IdsSequential(SeedComments(loadTime))
    ensures forall i :: 0 <= i < |SeedPosts(loadTime)| ==> AuthorExists(SeedUsers(), SeedPosts(loadTime)[i].authorId)
    ensures forall i :: 0 <= i < |SeedComments(loadTime)| ==> AuthorExists(SeedUsers(), SeedComments(loadTime)[i].authorId)
  {
    SeedAuthorsExist();
    SeedPostsShape(loadTime);
    SeedCommentsShape(loadTime);
  }

  lemma SeedAuthorsExist()
    ensures forall id :: 1 <= id <= 3 ==> AuthorExists(SeedUsers(), id)
  {
    var users := SeedUsers();
    assert users[0].id == 1 && users[1].id == 2 && users[2].id == 3;
  }

  lemma SeedPostsShape(loadTime: int)
    ensures Ids(SeedPosts(loadTime)) == [1, 2, 3, 4, 5] && PostIdsUnique(SeedPosts(loadTime))
    ensures forall i :: 0 <= i < |SeedPosts(loadTime)| ==> 1 <= SeedPosts(loadTime)[i].authorId <= 3
  {
    var posts := SeedPosts(loadTime);
    assert forall i :: 0 <= i < |posts| ==> posts[i].id == i + 1;
  }

  lemma SeedCommentsShape(loadTime: int)
    ensures IdsSequential(SeedComments(loadTime))
    ensures forall i :: 0 <= i < |SeedComments(loadTime)| ==> 1 <= SeedComments(loadTime)[i].authorId <= 3
  {
  }

  class KnowledgeFeed {
    const users: array<User>
    /** The acting user, fixed when the component mounts. */
    const currentUser: User
    var posts: seq<Post>
    var comments: seq<Comment>
    var expanded: set<int>

    /**
     * The acting user has a user record; post ids are unique; comment ids are 1..n;
     * every post and comment has an existing author.
     */
    ghost predicate Valid()
      reads this, users
    {
      && AuthorExists(users[..], currentUser.id)
      && PostIdsUnique(posts)
      && IdsSequential(comments)
      && (forall i :: 0 <= i < |posts| ==> AuthorExists(users[..], posts[i].authorId))
      && (forall i :: 0 <= i < |comments| ==> AuthorExists(users[..], comments[i].authorId))
    }

    /** Mounts the component on the seed data; `loadTime` is the instant the seed was built. */
    constructor (loadTime: int)
      ensures Valid() && fresh(users)
      ensures users[..] == SeedUsers() && currentUser == SeedUsers()[0]
      ensures posts == SeedPosts(loadTime) && comments == SeedComments(loadTime)
      ensures expanded == {}
    {
      var seed := SeedUsers();
      users := new User[|seed|](i requires 0 <= i < |seed| => seed[i]);
      currentUser := seed[0];
      posts := SeedPosts(loadTime);
      comments := SeedComments(loadTime);
      expanded := {};
      new;
      assert users[..] == seed;
      SeedIsValid(loadTime);
    }

    /** The feed view of the current state. */
    function Feed(): (r: seq<FeedCard>)
      reads this, users
      requires Valid()
      ensures |r| == |posts|
      ensures forall i :: 0 <= i < |posts| ==> r[i].post == posts[i] && r[i].author.id == posts[i].authorId
      ensures forall i :: 0 <= i < |posts| ==> r[i] == CardFor(posts[i], users[..], comments, expanded)
    {
      var cards := FeedView(posts, users[..], comments, expanded);
      FeedViewCards(posts, users[..], comments, expanded);
      cards
    }

    /**
     * `handleReaction`: the post list is rebuilt by ReactAll; `reason` is what the prompt
     * returned, and is only read on the disagree path.
     */
    method HandleReaction(postId: int, kind: ReactionKind, reason: Option<string>)
      requires Valid()
      modifies this
      ensures Valid()
      ensures posts == ReactAll(old(posts), postId, kind, reason)
      ensures comments == old(comments) && expanded == old(expanded)
    {
      ReactAllKeepsIntegrity(posts, users[..], postId, kind, reason);
      posts := ReactAll(posts, postId, kind, reason);
    }

    /**
     * `addComment`, which the component defines but never calls: appends one comment by the
     * acting user, numbered length + 1, with no likes.
     */
    method AddComment(postId: int, content: string, kind: CommentType, now: int)
      requires Valid()
      modifies this
      ensures Valid()
      ensures comments == old(comments) + [Comment(|old(comments)| + 1, postId, currentUser.id, kind, content, now, 0)]
      ensures posts == old(posts) && expanded == old(expanded)
    {
      var comment := Comment(|comments| + 1, postId, currentUser.id, kind, content, now, 0);
      AppendKeepsIdsSequential(comments, comment);
      comments := comments + [comment];
    }

    /** `togglePost`: copies the set, flips the id's membership in the copy, stores the copy. */
    method TogglePost(postId: int)
      requires Valid()
      modifies this
      ensures Valid()
      ensures expanded == Toggled(old(expanded), postId)
      ensures posts == old(posts) && comments == old(comments)
    {
      var next := expanded;
      if postId in next {
        next := next - {postId};
      } else {
        next := next + {postId};
      }
      expanded := next;
    }

    /** The sidebar's `users.sort(...)`: ranks the users array in place and returns it. */
    method RankContributors() returns (ranking: seq<User>)
      requires Valid()
      modifies users
      ensures Valid()
      ensures users[..] == SortByReputation(old(users[..]))
      ensures ranking == users[..]
    {
      ghost var before := users[..];
      SortInPlace(users);
      SortRanked(before);
      forall id | AuthorExists(before, id) ensures AuthorExists(users[..], id) {
        PermutationKeepsAuthors(before, users[..], id);
      }
      ranking := users[..];
    }
  }

  lemma {:induction false} FeedViewCards(posts: seq<Post>, users: seq<User>, comments: seq<Comment>, expanded: set<int>)
    requires forall i :: 0 <= i < |posts| ==> AuthorExists(users, posts[i].authorId)
    ensures forall i :: 0 <= i < |posts| ==>
      FeedView(posts, users, comments, expanded)[i] == CardFor(posts[i], users, comments, expanded)
  {
    if posts != [] {
      FeedViewCards(posts[1..], users, comments, expanded);
    }
  }

  /**
   * On the seed data, three agree reactions on post 1 take its agree count from 45 to 48
   * and its visibility from 95 to 101.
   */
  method ThreeAgreesOnSeed(loadTime: int) returns (agree: int, visibility: int)
    ensures agree == 48 && visibility == 101
  {
    var feed := new KnowledgeFeed(loadTime);
    assert feed.posts[0].id == 1 && feed.posts[0].reactions.agree == 45 && feed.posts[0].visibility == 95;
    feed.HandleReaction(1, Agree, None);
    assert feed.posts[0].reactions.agree == 46 && feed.posts[0].visibility == 97;
    feed.HandleReaction(1, Agree, None);
    assert feed.posts[0].reactions.agree == 47 && feed.posts[0].visibility == 99;
    feed.HandleReaction(1, Agree, None);
    agree, visibility := feed.posts[0].reactions.agree, feed.posts[0].visibility;
  }

  /** On the seed data, a comment on post 2 becomes the sixth comment, with id 6. */
  method CommentOnSeed(loadTime: int, now: int) returns (commentId: int, commentPostId: int, commentCount: int)
    ensures commentId == 6 && commentPostId == 2 && commentCount == 6
  {
    var feed := new KnowledgeFeed(loadTime);
    feed.AddComment(2, "Class weights worked well for me.", Explanation, now);
    commentCount := |feed.comments|;
    commentId, commentPostId := feed.comments[commentCount - 1].id, feed.comments[commentCount - 1].postId;
  }
}
