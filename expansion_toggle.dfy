/** The set of posts whose comment thread is expanded. */
module ExpansionToggle {

  /** The set after toggling one id: that id's membership flips, no other id's does. */
  function Toggled(expanded: set<int>, postId: int): (r: set<int>)
    ensures postId in r <==> postId !in expanded
    ensures forall x :: x != postId ==> (x in r <==> x in expanded)
  {
    if postId in expanded then expanded - {postId} else expanded + {postId}
  }

  /** Toggling twice restores the set. */
  lemma ToggleTwice(expanded: set<int>, postId: int)
    ensures Toggled(Toggled(expanded, postId), postId) == expanded
  {
  }
}
