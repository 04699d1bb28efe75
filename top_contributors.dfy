/**
 * The top-contributors ranking: the users array sorted in place by reputation, highest
 * first. The comparator `b.reputation - a.reputation` under JavaScript's stable sort keeps
 * users of equal reputation in their original relative order.
 */
module TopContributors {
  import opened Records

  predicate SortedDesc(s: seq<User>) {
    forall i, j :: 0 <= i < j < |s| ==> s[i].reputation >= s[j].reputation
  }

  /** Places u after every user of at least its reputation. */
  function Insert(s: seq<User>, u: User): seq<User> {
    if s == [] then [u]
    else if s[0].reputation >= u.reputation then [s[0]] + Insert(s[1..], u)
    else [u] + s
  }

  /** The stable ranking by descending reputation, built by inserting users left to right. */
  function SortByReputation(s: seq<User>): seq<User> {
    if s == [] then [] else Insert(SortByReputation(s[..|s| - 1]), s[|s| - 1])
  }

  /** Inserting adds exactly one user. */
  lemma {:induction false} InsertPermutation(s: seq<User>, u: User)
    ensures multiset(Insert(s, u)) == multiset(s) + multiset{u}
  {
    if s == [] {
      assert Insert(s, u) == [u];
    } else if s[0].reputation >= u.reputation {
      var rest := Insert(s[1..], u);
      InsertPermutation(s[1..], u);
      assert Insert(s, u) == [s[0]] + rest;
      assert multiset(Insert(s, u)) == multiset{s[0]} + multiset(rest);
      assert multiset(s) == multiset{s[0]} + multiset(s[1..]) by {
        assert s == [s[0]] + s[1..];
      }
    } else {
      assert Insert(s, u) == [u] + s;
    }
  }

  /** Inserting u into users of reputation at most `bound` gives users of reputation at most `bound`. */
  lemma {:induction false} InsertBounded(s: seq<User>, u: User, bound: int)
    requires u.reputation <= bound
    requires forall k :: 0 <= k < |s| ==> s[k].reputation <= bound
    ensures forall k :: 0 <= k < |Insert(s, u)| ==> Insert(s, u)[k].reputation <= bound
  {
    if s != [] && s[0].reputation >= u.reputation {
      InsertBounded(s[1..], u, bound);
    }
  }

  /** Inserting into a ranked list keeps it ranked. */
  lemma {:induction false} InsertSorted(s: seq<User>, u: User)
    requires SortedDesc(s)
    ensures SortedDesc(Insert(s, u))
  {
    if s != [] && s[0].reputation >= u.reputation {
      var rest := Insert(s[1..], u);
      assert SortedDesc(s[1..]);
      InsertSorted(s[1..], u);
      InsertBounded(s[1..], u, s[0].reputation);
      assert Insert(s, u) == [s[0]] + rest;
    }
  }

  /** The ranking is ordered by descending reputation and is a permutation of the users. */
  lemma {:induction false} SortRanked(s: seq<User>)
    ensures SortedDesc(SortByReputation(s))
    ensures multiset(SortByReputation(s)) == multiset(s)
  {
    if s != [] {
      var init, last := s[..|s| - 1], s[|s| - 1];
      assert s == init + [last];
      var ranked := SortByReputation(init);
      assert SortByReputation(s) == Insert(ranked, last);
      SortRanked(init);
      InsertSorted(ranked, last);
      InsertPermutation(ranked, last);
    }
  }

  /** The users of one reputation, in order. */
  function WithReputation(s: seq<User>, rep: int): seq<User> {
    if s == [] then []
    else (if s[0].reputation == rep then [s[0]] else []) + WithReputation(s[1..], rep)
  }

  lemma {:induction false} WithReputationConcat(a: seq<User>, b: seq<User>, rep: int)
    ensures WithReputation(a + b, rep) == WithReputation(a, rep) + WithReputation(b, rep)
  {
    if a == [] {
      assert a + b == b;
    } else {
      var ab := a + b;
      var head := if a[0].reputation == rep then [a[0]] else [];
      assert ab[0] == a[0] && ab[1..] == a[1..] + b;
      WithReputationConcat(a[1..], b, rep);
      assert WithReputation(ab, rep) == head + WithReputation(ab[1..], rep);
      assert WithReputation(a, rep) == head + WithReputation(a[1..], rep);
    }
  }

  lemma {:induction false} WithReputationNone(s: seq<User>, rep: int)
    requires forall i :: 0 <= i < |s| ==> s[i].reputation < rep
    ensures WithReputation(s, rep) == []
  {
    if s != [] {
      WithReputationNone(s[1..], rep);
    }
  }

  /** Inserting into a ranked list puts u behind every user of its own reputation. */
  lemma {:induction false} InsertStable(s: seq<User>, u: User, rep: int)
    requires SortedDesc(s)
    ensures WithReputation(Insert(s, u), rep) == WithReputation(s, rep) + WithReputation([u], rep)
  {
    var tail := if u.reputation == rep then [u] else [];
    assert WithReputation([u], rep) == tail by {
      assert [u][1..] == [];
    }
    if s == [] {
      assert Insert(s, u) == [u];
    } else if s[0].reputation >= u.reputation {
      var rest := Insert(s[1..], u);
      var r := Insert(s, u);
      var head := if s[0].reputation == rep then [s[0]] else [];
      assert SortedDesc(s[1..]);
      InsertStable(s[1..], u, rep);
      assert r[0] == s[0] && r[1..] == rest;
      assert WithReputation(r, rep) == head + WithReputation(rest, rep);
      assert WithReputation(s, rep) == head + WithReputation(s[1..], rep);
    } else {
      var r := Insert(s, u);
      assert r[0] == u && r[1..] == s;
      assert WithReputation(r, rep) == tail + WithReputation(s, rep);
      if u.reputation == rep {
        WithReputationNone(s, rep);
      }
    }
  }

  /**
   * Stability: for every reputation value, the users having it appear in the ranking in
   * exactly their original order.
   */
  lemma {:induction false} SortStable(s: seq<User>, rep: int)
    ensures WithReputation(SortByReputation(s), rep) == WithReputation(s, rep)
  {
    if s != [] {
      var init, last := s[..|s| - 1], s[|s| - 1];
      assert s == init + [last];
      var ranked := SortByReputation(init);
      assert SortByReputation(s) == Insert(ranked, last);
      SortStable(init, rep);
      SortRanked(init);
      InsertStable(ranked, last, rep);
      assert WithReputation(Insert(ranked, last), rep) == WithReputation(init, rep) + WithReputation([last], rep);
      WithReputationConcat(init, [last], rep);
      assert WithReputation(s, rep) == WithReputation(init, rep) + WithReputation([last], rep);
    }
  }

  lemma {:induction false} InsertAtEnd(s: seq<User>, u: User)
    requires forall i :: 0 <= i < |s| ==> s[i].reputation >= u.reputation
    ensures Insert(s, u) == s + [u]
  {
    if s != [] {
      InsertAtEnd(s[1..], u);
      assert s == [s[0]] + s[1..];
      assert Insert(s, u) == [s[0]] + Insert(s[1..], u);
    }
  }

  /** A list already ranked is its own ranking. */
  lemma {:induction false} SortedIsFixpoint(s: seq<User>)
    requires SortedDesc(s)
    ensures SortByReputation(s) == s
  {
    if s != [] {
      var init, last := s[..|s| - 1], s[|s| - 1];
      assert s == init + [last];
      assert SortByReputation(s) == Insert(SortByReputation(init), last);
      assert SortedDesc(init);
      SortedIsFixpoint(init);
      assert forall i :: 0 <= i < |init| ==> init[i].reputation >= last.reputation;
      InsertAtEnd(init, last);
    }
  }

  /** Ranking again on the next render changes nothing. */
  lemma SortIdempotent(s: seq<User>)
    ensures SortByReputation(SortByReputation(s)) == SortByReputation(s)
  {
    SortRanked(s);
    SortedIsFixpoint(SortByReputation(s));
  }

  /**
   * In a ranked list, inserting u at position j (after every user of at least its
   * reputation, before every user of less) is what Insert does.
   */
  lemma {:induction false} InsertAt(s: seq<User>, u: User, j: nat)
    requires SortedDesc(s) && j <= |s|
    requires j > 0 ==> s[j - 1].reputation >= u.reputation
    requires forall k :: j <= k < |s| ==> s[k].reputation < u.reputation
    ensures Insert(s, u) == s[..j] + [u] + s[j..]
  {
    if j == 0 {
      if s != [] {
        assert s[0].reputation < u.reputation;
        assert Insert(s, u) == [u] + s;
      }
      assert s[..j] == [] && s[j..] == s;
    } else {
      assert s[0].reputation >= u.reputation;
      assert Insert(s, u) == [s[0]] + Insert(s[1..], u);
      assert SortedDesc(s[1..]);
      InsertAt(s[1..], u, j - 1);
      assert s[1..][..j - 1] == s[1..j];
      assert s[1..][j - 1..] == s[j..];
      assert s[..j] == [s[0]] + s[1..j];
    }
  }

  /** Ranking one more user of the input inserts that user into the ranking so far. */
  lemma SortStep(input: seq<User>, i: nat)
    requires i < |input|
    ensures SortByReputation(input[..i + 1]) == Insert(SortByReputation(input[..i]), input[i])
    ensures SortedDesc(SortByReputation(input[..i]))
  {
    assert input[..i + 1][..i] == input[..i];
    SortRanked(input[..i]);
  }

  /**
   * The array prefix left by one insertion step, the ranked users up to j, then u, then
   * the rest shifted one place right, is the insertion of u.
   */
  lemma ShiftedIsInsert(after: seq<User>, ranked: seq<User>, u: User, j: nat)
    requires SortedDesc(ranked) && j <= |ranked| && |after| == |ranked| + 1
    requires forall k :: 0 <= k < j ==> after[k] == ranked[k]
    requires after[j] == u
    requires forall k :: j < k < |after| ==> after[k] == ranked[k - 1]
    requires j > 0 ==> ranked[j - 1].reputation >= u.reputation
    requires forall k :: j <= k < |ranked| ==> ranked[k].reputation < u.reputation
    ensures after == Insert(ranked, u)
  {
    InsertAt(ranked, u, j);
    var placed := ranked[..j] + [u] + ranked[j..];
    forall k | 0 <= k < |after| ensures after[k] == placed[k] {
      if k < j {
        assert placed[k] == ranked[k];
      } else if k > j {
        assert placed[k] == ranked[k - 1];
      }
    }
  }

  /**
   * Shifts the users of a[..i] with less reputation than u one place right, from the end
   * of the prefix down, and returns the hole left at j.
   */
  method ShiftRight(a: array<User>, i: nat, u: User) returns (j: nat)
    requires i < a.Length
    modifies a
    ensures j <= i
    ensures forall k :: 0 <= k < j ==> a[k] == old(a[k])
    ensures forall k :: j < k <= i ==> a[k] == old(a[k - 1])
    ensures forall k :: i < k < a.Length ==> a[k] == old(a[k])
    ensures j > 0 ==> old(a[j - 1]).reputation >= u.reputation
    ensures forall k :: j <= k < i ==> old(a[k]).reputation < u.reputation
  {
    j := i;
    while j > 0 && a[j - 1].reputation < u.reputation
      invariant 0 <= j <= i
      invariant forall k :: 0 <= k < j ==> a[k] == old(a[k])
      invariant forall k :: j < k <= i ==> a[k] == old(a[k - 1])
      invariant forall k :: j <= k < i ==> old(a[k]).reputation < u.reputation
      invariant forall k :: i < k < a.Length ==> a[k] == old(a[k])
    {
      a[j] := a[j - 1];
      j := j - 1;
    }
  }

  /** One step of the in-place sort: moves a[i] into its place in the ranked prefix a[..i]. */
  method InsertInPlace(a: array<User>, i: nat)
    requires i < a.Length && SortedDesc(a[..i])
    modifies a
    ensures a[..i + 1] == Insert(old(a[..i]), old(a[i]))
    ensures a[i + 1..] == old(a[i + 1..])
  {
    ghost var ranked := a[..i];
    var u := a[i];
    var j := ShiftRight(a, i, u);
    a[j] := u;
    ShiftedIsInsert(a[..i + 1], ranked, u, j);
  }

  /** `users.sort((a, b) => b.reputation - a.reputation)`, as an in-place insertion sort. */
  method SortInPlace(a: array<User>)
    modifies a
    ensures a[..] == SortByReputation(old(a[..]))
  {
    ghost var input := a[..];
    var i := 0;
    while i < a.Length
      invariant 0 <= i <= a.Length
      invariant a[..i] == SortByReputation(input[..i])
      invariant a[i..] == input[i..]
    {
      SortStep(input, i);
      assert a[i] == input[i] && a[i + 1..] == input[i + 1..] by {
        assert a[i..][1..] == a[i + 1..] && input[i..][1..] == input[i + 1..];
      }
      InsertInPlace(a, i);
      i := i + 1;
    }
    assert input[..a.Length] == input;
  }
}
