# KnowledgeX feed rules in Dafny

KnowledgeX is a single-page "knowledge sharing" feed written as one React component
(`App.jsx`). Users react to the seeded posts (agree, useful, insightful, or disagree with
a reason) and expand their comment threads. The component defines an `addComment` handler
(`App.jsx:205`) that nothing in its markup calls: there is no way to write a post or a
comment. `App.KnowledgeFeed.AddComment` models that handler as written. The component shows three views built from in-memory
records: the feed, the profiles and the impact timeline. This project models the
component's rules and derivations, and proves what they promise:

- the trust-level resolver;
- the reaction handler, the comment composer and the expansion toggle;
- the relative-time formatter;
- the in-place ranking of top contributors;
- the feed cards and the impact timeline.

Layout, one module per component:

| file | module | what it holds |
|---|---|---|
| `wrappers.dfy` | `Wrappers` | `Option`, for a cancelled prompt and a failed lookup |
| `tables.dfy` | `Tables` | trust tiers, post types, comment types and their metadata |
| `records.dfy` | `Records` | users, posts, reactions, comments; the positive reaction total |
| `seed.dfy` | `Seed` | the sample users, posts and comments |
| `trust_levels.dfy` | `TrustLevels` | `getTrustLevel` |
| `relative_time.dfy` | `RelativeTime` | `formatTime`, its hour/day buckets and their decimal rendering |
| `reaction_handler.dfy` | `ReactionHandler` | `handleReaction`'s rebuilt post list |
| `comment_composer.dfy` | `CommentComposer` | comment ids and the per-post comment filter |
| `expansion_toggle.dfy` | `ExpansionToggle` | `togglePost`'s set update |
| `top_contributors.dfy` | `TopContributors` | the stable sort by reputation, in place on the users array |
| `views.dfy` | `Views` | author lookup, feed cards, impact timeline |
| `app.dfy` | `App` | class `KnowledgeFeed`: the component state and its handlers |

The component state is the class `App.KnowledgeFeed`. It has:

- the users as an `array`, because the sidebar sorts that array in place;
- the posts and comments as sequences that the handlers reassign;
- the expanded post ids as a set.

Its invariant `Valid()` holds for the seed data and every handler keeps it:

- the acting user has a user record;
- post ids are unique;
- comment ids are exactly 1..n;
- every post and every comment has an existing author.

Two inputs are parameters of the model:

- the result of `prompt()` on the disagree path, as an `Option<string>`;
- `Date.now()`, as `now`; the seed's load instant is `loadTime`.

A disagree reaction with an empty or cancelled reason records no disagreement but still
raises visibility by 2: the bump at `App.jsx:198` sits outside the `if (reason)` test at
`App.jsx:192`. `ReactionHandler.React` states this.

## Model

| member | source | states |
|---|---|---|
| `TrustLevels.GetTrustLevel` | App.jsx:178-183 | the tier returned is the highest one whose threshold the reputation reaches (New when none is reached) |
| `TrustLevels.TrustBands` | App.jsx:5-10 | Elite iff reputation ≥ 1000, Trusted iff 500–999, Verified iff 100–499, New iff below 100, negative scores included |
| `TrustLevels.TrustMonotone` | App.jsx:178-183 | more reputation never gives a lower tier |
| `TrustLevels.TrustedAt650` | App.jsx:8 | reputation 650 resolves to Trusted, labelled "Trusted" |
| `ReactionHandler.React` | App.jsx:189-198 | a counter reaction raises exactly its own counter by 1 and keeps the other two and the disagreements; a disagree appends exactly one `{reason, count: 1}` at the end when the reason is non-empty, and nothing otherwise; visibility rises by exactly 2 in every case; id, author, type, content and timestamp are kept |
| `ReactionHandler.ReactAll` | App.jsx:187-201 | the rebuilt list has the same length and order; posts with the given id are replaced by their reacted copy; every other post is returned unchanged |
| `ReactionHandler.ReactAllKeepsIdsAndAuthors` | App.jsx:187-201 | reacting keeps the list of post ids and each post's author |
| `ReactionHandler.ReactOnUnknownId` | App.jsx:188 | an id that matches no post leaves the list unchanged |
| `ReactionHandler.ReactTotal` | App.jsx:196 | a counter reaction adds 1 to the positive total; a disagree leaves it unchanged |
| `ReactionHandler.RepeatCounter` | App.jsx:196-198 | n reactions of one counter kind raise that counter by exactly n and visibility by exactly 2n, keep the other counters and the disagreements, and leave posts with other ids untouched |
| `App.ReactAllKeepsIntegrity` | App.jsx:187-201 | reacting keeps post ids unique and every post's author existing |
| `App.KnowledgeFeed.HandleReaction` | App.jsx:186-202 | the new post list is `ReactAll` of the old one; comments and expanded set unchanged; the state invariant is kept |
| `CommentComposer.CommentsFor` | App.jsx:298 | the result holds exactly the comments whose postId is the given id |
| `CommentComposer.CommentsForConcat` | App.jsx:298 | the filter keeps insertion order: it distributes over concatenation |
| `CommentComposer.CommentsForAppend` | App.jsx:215 | an appended comment shows at the end of its own post's thread; no other post's thread changes |
| `CommentComposer.AppendKeepsIdsSequential` | App.jsx:207 | while ids are 1..n, the new id n + 1 is fresh, and ids are unique and exactly 1..n+1 afterwards |
| `App.KnowledgeFeed.AddComment` | App.jsx:205-216 | exactly one comment is appended at the end: id = old length + 1, the given postId, type and content, the acting user as author, `now` as timestamp, likes 0; earlier comments, posts and expanded set unchanged; the state invariant is kept |
| `ExpansionToggle.Toggled` | App.jsx:220-225 | the id's membership flips; no other id's membership changes |
| `ExpansionToggle.ToggleTwice` | App.jsx:219-227 | toggling the same id twice restores the set |
| `App.KnowledgeFeed.TogglePost` | App.jsx:219-227 | the expanded set becomes `Toggled` of the old one; posts and comments unchanged |
| `RelativeTime.Bucket` | App.jsx:231-235 | JustNow iff the elapsed time is under one hour, negative times included; otherwise h whole hours (1 ≤ h < 24) with h·3,600,000 ≤ diff < (h+1)·3,600,000, or d ≥ 1 whole days with d·86,400,000 ≤ diff < (d+1)·86,400,000 |
| `RelativeTime.DayBounds` | App.jsx:235 | flooring hours and then dividing by 24 gives the whole days elapsed |
| `RelativeTime.NatToString` | App.jsx:234 | the decimal text is non-empty, all digits, with no leading zero |
| `RelativeTime.NatRoundTrip` | App.jsx:234 | reading the decimal text back gives the number |
| `RelativeTime.RenderRoundTrip` | App.jsx:233-235 | each of "Just now", "{h}h ago" and "{d}d ago" reads back to the bucket it came from |
| `RelativeTime.FormatTimeMeaning` | App.jsx:230-236 | the formatted text states the elapsed time: "Just now" below one hour, "{h}h ago" for h whole hours below a day, "{d}d ago" for d whole days |
| `RelativeTime.TwoHoursAgo` | App.jsx:230-236 | a timestamp 7,200,000 ms in the past formats as "2h ago" |
| `TopContributors.InsertPermutation` | App.jsx:415 | inserting adds exactly one user: the result is a permutation of the input plus that user |
| `TopContributors.InsertBounded` | App.jsx:415 | inserting into users of reputation at most a bound keeps every reputation under that bound |
| `TopContributors.InsertSorted` | App.jsx:415 | inserting into a list ranked by descending reputation keeps it ranked |
| `TopContributors.SortRanked` | App.jsx:415 | the ranking is ordered by descending reputation and is a permutation of the users |
| `TopContributors.WithReputationConcat` | App.jsx:415 | selecting users of one reputation distributes over concatenation |
| `TopContributors.WithReputationNone` | App.jsx:415 | a list whose reputations are all below r has no user of reputation r |
| `TopContributors.InsertStable` | App.jsx:415 | an inserted user lands behind every ranked user of the same reputation |
| `TopContributors.SortStable` | App.jsx:415 | stability: for every reputation, the users having it keep their original relative order |
| `TopContributors.InsertAtEnd` | App.jsx:415 | a user of no more reputation than all others goes last |
| `TopContributors.SortedIsFixpoint` | App.jsx:415 | a list already ranked is left as it is |
| `TopContributors.SortIdempotent` | App.jsx:415 | sorting again on the next render changes nothing |
| `TopContributors.InsertAt` | App.jsx:415 | in a ranked list, placing the user after all of at least its reputation and before all of less is what insertion does |
| `TopContributors.SortStep` | App.jsx:415 | ranking one more user inserts that user into the ranking so far |
| `TopContributors.ShiftedIsInsert` | App.jsx:415 | an array prefix holding the ranked users before the hole, the user in the hole and the rest shifted one place right equals the insertion of that user |
| `TopContributors.ShiftRight` | App.jsx:415 | every user of the ranked prefix with less reputation than the one being placed moves one place right; the returned hole sits after all users of at least its reputation, and nothing else changes |
| `TopContributors.InsertInPlace` | App.jsx:415 | one in-place step leaves the prefix equal to the insertion of the next user, the rest untouched |
| `TopContributors.SortInPlace` | App.jsx:415 | after the in-place sort the array equals the stable ranking of its old contents |
| `App.KnowledgeFeed.RankContributors` | App.jsx:415 | the users array becomes its stable ranking, which is returned; the state invariant is kept |
| `Views.FindUser` | App.jsx:296 | a user is returned only if it has the id, and it is the first one that does; none is returned exactly when no user has the id |
| `Views.PermutationKeepsAuthors` | App.jsx:415 | reordering the users does not change which ids have a user |
| `Views.CardFor` | App.jsx:296-300 | the card's author is the first user with the post's authorId (what `FindUser` returns); its tier is that author's; its thread is exactly the post's comments in insertion order, repeats kept (`CommentsFor`); it is expanded exactly when the post id is in the set; its total is agree + useful + insightful |
| `Views.FeedView` | App.jsx:295-300 | one card per post, in post order, each with its post's author |
| `App.FeedViewCards` | App.jsx:295-300 | the i-th card of the feed is the card of the i-th post |
| `App.KnowledgeFeed.Feed` | App.jsx:295-300 | in a valid state every post has a card, in order, and the i-th card is `CardFor` of the i-th post: its first matching author and tier, its ordered thread, its expanded flag and its total |
| `Views.PostsBy` | App.jsx:552 | the result holds exactly the posts with the given author |
| `Views.PostsByConcat` | App.jsx:552 | the author filter keeps list order: it distributes over concatenation |
| `Views.Timeline` | App.jsx:552-569 | at most three entries, the author's first posts in list order; each with its positive total, its comment count and a reach of twice the total |
| `Views.TimelineIgnoresLaterPosts` | App.jsx:552 | once an author has three posts, posts added later do not change the timeline |
| `App.SeedIsValid` | App.jsx:26-164 | the seed data meets the state invariant |
| `App.SeedAuthorsExist` | App.jsx:26-66 | users 1, 2 and 3 exist in the seed |
| `App.SeedPostsShape` | App.jsx:69-115 | the seed posts have ids 1..5 and authors among users 1..3 |
| `App.SeedCommentsShape` | App.jsx:118-164 | the seed comments have ids 1..5 and authors among users 1..3 |
| `App.KnowledgeFeed.constructor` | App.jsx:169-175 | the state starts from the seed: users, posts and comments as seeded, nothing expanded, the first user acting; the invariant holds |
| `App.ThreeAgreesOnSeed` | App.jsx:186-202 | three agree reactions on seed post 1 take agree from 45 to 48 and visibility from 95 to 101 |
| `App.CommentOnSeed` | App.jsx:205-216 | a comment on seed post 2 becomes the sixth comment, with id 6 and postId 2 |

## Left out

- JSX markup, styling, colours in the markup and the icon components: presentation only.
  The tables keep their labels, icons and colours as data.
- The React state hooks and re-rendering: the state is a class whose fields the handlers
  reassign. The sidebar sort, which the source runs during every render of the feed tab
  (`App.jsx:415`, inside the `activeTab === 'feed'` branch at `App.jsx:291`), is the explicit
  method `RankContributors`; the profiles and impact views see the users in whatever order
  the last ranking left.
- `prompt()`: blocking user input, passed in as `reason`. The source prompts once per post
  whose id matches. The model passes one reason, which is the same thing while post ids are
  unique, as the state invariant guarantees.
- `Date.now()`: a clock, passed in as `now`, and as `loadTime` for the seed timestamps.
- Reaction kinds other than the four buttons: the source would add a new counter under any
  other key. The model takes the closed set of the four kinds the buttons pass.
- `RelativeTime.Bucket`: `Math.floor(diff / 3600000)` is floating-point division. The model
  divides exactly on integers. The two differ only for spans of about 4·10^15 ms and more.
- The contribution-chart bar height `(val / 70) * 100`: floating-point presentation.
- `toLocaleString()` on the impact reach: locale-dependent library formatting.
- Tab switching and the selected user: plain assignments with no rule to state.
- The trending-topics list: a constant not derived from any data.
- Comment authors shown in an expanded thread (`users.find` at App.jsx:378): the same lookup
  as the post author's, so `Views.FindUser` covers it.
- `Views.CardFor`: requires the post's author to exist. The source dereferences the lookup
  without a guard, so a missing author has no defined outcome to model.
- `App.KnowledgeFeed.AddComment`: no caller fixes the `type` argument, so taking it from the
  closed `CommentType` is the model's choice. The source accepts any value, and an unknown
  type would throw at `App.jsx:387` (`COMMENT_TYPES[comment.type].icon`) once that post is
  expanded; the model does not capture that failure.
- JavaScript numbers are doubles: the reaction counters (`+ 1`, `App.jsx:196`), the
  visibility bump (`+ 2`, `App.jsx:198`) and the new comment id (`comments.length + 1`,
  `App.jsx:207`) are exact only below 2^53. The model uses unbounded integers, which agree
  with the source on every value below that bound.
- Comments whose postId names no post: the source does not check this when it adds a comment.
  The state invariant therefore does not claim it.
