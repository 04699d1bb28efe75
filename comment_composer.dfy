/**
 * The comment thread: comments are only ever appended, each new one numbered by the
 * length of the list plus one, and a post shows the comments whose postId is its id.
 */
module CommentComposer {
  import opened Records

  /** The comments of one post, in insertion order (`comments.filter(c => c.postId === post.id)`). */
  function CommentsFor(cs: seq<Comment>, postId: int): (r: seq<Comment>)
    ensures |r| <= |cs|
    ensures forall c :: c in r ==> c in cs && c.postId == postId
    ensures forall c :: c in cs && c.postId == postId ==> c in r
  {
    if cs == [] then []
    else (if cs[0].postId == postId then [cs[0]] else []) + CommentsFor(cs[1..], postId)
  }

  /** Filtering keeps the order: it distributes over concatenation. */
  lemma {:induction false} CommentsForConcat(a: seq<Comment>, b: seq<Comment>, postId: int)
    ensures CommentsFor(a + b, postId) == CommentsFor(a, postId) + CommentsFor(b, postId)
  {
    if a == [] {
      assert a + b == b;
    } else {
      assert (a + b)[1..] == a[1..] + b;
      CommentsForConcat(a[1..], b, postId);
    }
  }

  /**
   * Appending a comment shows it at the end of its own post's thread and changes the
   * thread of no other post.
   */
  lemma CommentsForAppend(cs: seq<Comment>, c: Comment, postId: int)
    ensures CommentsFor(cs + [c], postId) ==
              CommentsFor(cs, postId) + (if c.postId == postId then [c] else [])
  {
    CommentsForConcat(cs, [c], postId);
  }

  /** Comment ids are exactly 1..n, in order. */
  predicate IdsSequential(cs: seq<Comment>) {
    forall i :: 0 <= i < |cs| ==> cs[i].id == i + 1
  }

  predicate IdsUnique(cs: seq<Comment>) {
    forall i, j :: 0 <= i < j < |cs| ==> cs[i].id != cs[j].id
  }

  /**
   * While ids are 1..n, the id length + 1 given to a new comment is fresh, ids stay
   * unique, and they are 1..n+1 afterwards.
   */
  lemma AppendKeepsIdsSequential(cs: seq<Comment>, c: Comment)
    requires IdsSequential(cs) && c.id == |cs| + 1
    ensures forall d :: d in cs ==> d.id != c.id
    ensures IdsSequential(cs + [c]) && IdsUnique(cs + [c])
  {
  }
}
