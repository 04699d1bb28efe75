/** The in-memory records of the feed: users, posts with their reactions, and comments. */
module Records {
  import opened Tables

  /** One entry of a post's disagreement list. */
  datatype Disagreement = Disagreement(reason: string, count: int)

  /** The reactions record of a post; only the three counters make up its positive total. */
  datatype Reactions = Reactions(agree: int, useful: int, insightful: int, disagree: seq<Disagreement>)

  datatype User = User(
    id: int,
    username: string,
    avatar: string,
    reputation: int,
    expertise: seq<string>,
    contributions: seq<int>,
    whyFollow: string,
    followers: int,
    following: int,
    postsCount: int,
    impactReach: int)

  /** A post; `kind` is the source's `type` tag and `timestamp` is in milliseconds. */
  datatype Post = Post(
    id: int,
    authorId: int,
    kind: PostType,
    content: string,
    timestamp: int,
    reactions: Reactions,
    visibility: int)

  /** A comment; `kind` is the source's `type` tag and `timestamp` is in milliseconds. */
  datatype Comment = Comment(
    id: int,
    postId: int,
    authorId: int,
    kind: CommentType,
    content: string,
    timestamp: int,
    likes: int)

  /** The four reaction buttons of a post. */
  datatype ReactionKind = Agree | Useful | Insightful | Disagree

  /** Positive reactions of a post: disagreements are not part of the total. */
  function TotalReactions(p: Post): int {
    p.reactions.agree + p.reactions.useful + p.reactions.insightful
  }
}
