/**
 * The reaction handler: one reaction rebuilds the post list, replacing every post with the
 * given id by a copy whose reactions and visibility are updated.
 */
module ReactionHandler {
  import opened Wrappers
  import opened Records

  /**
   * The disagree path only records a reason that is truthy in JavaScript: a cancelled
   * prompt (None) and the empty string both record nothing.
   */
  predicate HasReason(reason: Option<string>) {
    reason.Some? && reason.value != ""
  }

  /** The counter a non-disagree reaction increments. */
  function Counter(r: Reactions, kind: ReactionKind): int
    requires kind != Disagree
  {
    match kind
    case Agree => r.agree
    case Useful => r.useful
    case Insightful => r.insightful
  }

  /**
   * The new version of a post hit by a reaction. A counter reaction raises exactly its own
   * counter; a disagree reaction appends one record when a reason was given. Visibility
   * rises by 2 in every case, a disagree without reason included, and nothing else changes.
   */
  function React(p: Post, kind: ReactionKind, reason: Option<string>): (q: Post)
    ensures q.id == p.id && q.authorId == p.authorId && q.kind == p.kind
    ensures q.content == p.content && q.timestamp == p.timestamp
    ensures q.visibility == p.visibility + 2
    ensures kind != Disagree ==>
      && Counter(q.reactions, kind) == Counter(p.reactions, kind) + 1
      && (forall other :: other != Disagree && other != kind ==>
            Counter(q.reactions, other) == Counter(p.reactions, other))
      && q.reactions.disagree == p.reactions.disagree
    ensures kind == Disagree ==>
      && q.reactions.agree == p.reactions.agree
      && q.reactions.useful == p.reactions.useful
      && q.reactions.insightful == p.reactions.insightful
      && q.reactions.disagree ==
           p.reactions.disagree + (if HasReason(reason) then [Disagreement(reason.value, 1)] else [])
  {
    var r := p.reactions;
    var updated :=
      match kind
      case Agree => r.(agree := r.agree + 1)
      case Useful => r.(useful := r.useful + 1)
      case Insightful => r.(insightful := r.insightful + 1)
      case Disagree =>
        if HasReason(reason) then r.(disagree := r.disagree + [Disagreement(reason.value, 1)]) else r;
    p.(reactions := updated, visibility := p.visibility + 2)
  }

  /**
   * `handleReaction`'s new post list: same length and order, every post with the given id
   * replaced by its reacted copy, every other post as it was.
   */
  function ReactAll(posts: seq<Post>, postId: int, kind: ReactionKind, reason: Option<string>): (r: seq<Post>)
    ensures |r| == |posts|
    ensures forall i :: 0 <= i < |posts| && posts[i].id != postId ==> r[i] == posts[i]
    ensures forall i :: 0 <= i < |posts| && posts[i].id == postId ==> r[i] == React(posts[i], kind, reason)
  {
    if posts == [] then []
    else [if posts[0].id == postId then React(posts[0], kind, reason) else posts[0]]
         + ReactAll(posts[1..], postId, kind, reason)
  }

  function Ids(posts: seq<Post>): seq<int> {
    seq(|posts|, i requires 0 <= i < |posts| => posts[i].id)
  }

  /** Reacting keeps the list of post ids and every post's author. */
  lemma ReactAllKeepsIdsAndAuthors(posts: seq<Post>, postId: int, kind: ReactionKind, reason: Option<string>)
    ensures Ids(ReactAll(posts, postId, kind, reason)) == Ids(posts)
    ensures forall i :: 0 <= i < |posts| ==> ReactAll(posts, postId, kind, reason)[i].authorId == posts[i].authorId
  {
  }

  /** A reaction on an id that matches no post leaves the list as it was. */
  lemma ReactOnUnknownId(posts: seq<Post>, postId: int, kind: ReactionKind, reason: Option<string>)
    requires forall p :: p in posts ==> p.id != postId
    ensures ReactAll(posts, postId, kind, reason) == posts
  {
    var r := ReactAll(posts, postId, kind, reason);
    assert forall i :: 0 <= i < |posts| ==> r[i] == posts[i] by {
      forall i | 0 <= i < |posts| ensures r[i] == posts[i] {
        assert posts[i] in posts;
      }
    }
  }

  /** A counter reaction adds one to the positive total; a disagree leaves it unchanged. */
  lemma ReactTotal(p: Post, kind: ReactionKind, reason: Option<string>)
    ensures TotalReactions(React(p, kind, reason)) == TotalReactions(p) + (if kind == Disagree then 0 else 1)
  {
  }

  /** The same reaction applied n times over. */
  function Repeat(posts: seq<Post>, postId: int, kind: ReactionKind, reason: Option<string>, n: nat): seq<Post>
  {
    if n == 0 then posts else ReactAll(Repeat(posts, postId, kind, reason, n - 1), postId, kind, reason)
  }

  /**
   * n reactions of one counter kind on a post raise that counter by exactly n and its
   * visibility by exactly 2n, leave the other counters and the disagreements alone, and
   * leave every post with another id untouched.
   */
  lemma {:induction false} RepeatCounter(posts: seq<Post>, postId: int, kind: ReactionKind, reason: Option<string>, n: nat, i: int)
    requires kind != Disagree && 0 <= i < |posts|
    ensures var r := Repeat(posts, postId, kind, reason, n);
      && |r| == |posts|
      && r[i].id == posts[i].id
      && (posts[i].id != postId ==> r[i] == posts[i])
      && (posts[i].id == postId ==>
            && Counter(r[i].reactions, kind) == Counter(posts[i].reactions, kind) + n
            && (forall other :: other != Disagree && other != kind ==>
                  Counter(r[i].reactions, other) == Counter(posts[i].reactions, other))
            && r[i].reactions.disagree == posts[i].reactions.disagree
            && r[i].visibility == posts[i].visibility + 2 * n)
  {
    if n > 0 {
      RepeatCounter(posts, postId, kind, reason, n - 1, i);
    }
  }
}
