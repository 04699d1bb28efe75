/**
 * The sample data the feed starts from. Post and comment timestamps are offsets from the
 * moment the module is loaded, so they are functions of that instant. Long texts are
 * written as concatenations of short literals, which keeps the verifier's work on them small.
 */
module Seed {
  import opened Tables
  import opened Records

  function SeedUsers(): seq<User> {
    [ User(1, "sarah_dev", "\U{1F469}\U{200D}\U{1F4BB}", 1250,
           ["React", "TypeScript", "UI/UX"], [45, 52, 38, 61, 48, 70, 55],
           "Expert in modern web " + "development with " + "clear explanations", 342, 89, 127, 5600),
      User(2, "alex_ml", "\U{1F9E0}", 890,
           ["Machine Learning", "Python", "Data Science"], [30, 42, 35, 48, 52, 45, 38],
           "Breaks down complex " + "ML concepts into " + "digestible content", 218, 45, 89, 3200),
      User(3, "jordan_sys", "\U{2699}\U{FE0F}", 650,
           ["DevOps", "AWS", "Docker"], [20, 28, 32, 25, 30, 35, 28],
           "Practical " + "infrastructure " + "advice from " + "real-world " + "experience", 156, 67, 54, 1800) ]
  }

  function SeedPosts(loadTime: int): seq<Post> {
    [ Post(1, 1, Teach,
           "Understanding React " + "Hooks: A practical " + "guide to useState " + "and useEffect with " + "real examples from " + "production code.",
           loadTime - 3600000, Reactions(45, 62, 38, []), 95),
      Post(2, 2, Ask,
           "What are the best " + "practices for " + "handling imbalanced " + "datasets in ML? " + "Looking for " + "techniques beyond " + "SMOTE.",
           loadTime - 7200000, Reactions(12, 8, 5, []), 78),
      Post(3, 3, Challenge,
           "Most developers " + "over-engineer their " + "Docker setups. " + "Change my mind. " + "Here's why simpler " + "is often better...",
           loadTime - 10800000, Reactions(28, 15, 22, [Disagreement("Enterprise needs " + "differ", 8)]), 88),
      Post(4, 1, Opinion,
           "TypeScript is no " + "longer optional for " + "serious web " + "development. The " + "tooling and DX " + "improvements are too " + "significant to " + "ignore.",
           loadTime - 14400000, Reactions(89, 34, 45, [Disagreement("Small projects don't " + "need it", 12)]), 92),
      Post(5, 2, Teach,
           "Neural network " + "optimization: Why " + "learning rate " + "scheduling matters " + "more than most " + "people think. Thread " + "\U{1F9F5}",
           loadTime - 18000000, Reactions(34, 56, 67, []), 90) ]
  }

  function SeedComments(loadTime: int): seq<Comment> {
    [ Comment(1, 1, 2, Example,
              "Great post! Here's " + "how I used useEffect " + "to handle WebSocket " + "connections in my " + "project...",
              loadTime - 3000000, 23),
      Comment(2, 1, 3, Explanation,
              "To add to this: the " + "cleanup function in " + "useEffect is crucial " + "for preventing " + "memory leaks.",
              loadTime - 2800000, 18),
      Comment(3, 3, 1, Counter,
              "While I agree with " + "simplicity, " + "multi-stage builds " + "and proper layer " + "caching can " + "significantly reduce " + "deployment time.",
              loadTime - 9000000, 34),
      Comment(4, 4, 3, Explanation,
              "The type safety " + "catches so many bugs " + "at compile time. " + "Saved our team " + "countless hours of " + "debugging.",
              loadTime - 13000000, 45),
      Comment(5, 2, 1, Example,
              "I've had success " + "with focal loss for " + "extreme imbalance " + "cases. Here's a " + "notebook showing the " + "implementation...",
              loadTime - 6000000, 28) ]
  }
}
