/** The trust-level resolver: a reputation score mapped to the highest tier it reaches. */
module TrustLevels {
  import opened Tables

  /**
   * Checks the tiers from the highest threshold down and returns the first one reached;
   * anything below the Verified threshold, negative scores included, is New.
   */
  function GetTrustLevel(reputation: int): (t: TrustLevel)
    ensures t == New || t.Threshold() <= reputation
    ensures forall u: TrustLevel :: t.Rank() < u.Rank() ==> reputation < u.Threshold()
  {
    if reputation >= Elite.Threshold() then Elite
    else if reputation >= Trusted.Threshold() then Trusted
    else if reputation >= Verified.Threshold() then Verified
    else New
  }

  /** The four reputation bands, each in both directions. */
  lemma TrustBands(reputation: int)
    ensures GetTrustLevel(reputation) == Elite <==> 1000 <= reputation
    ensures GetTrustLevel(reputation) == Trusted <==> 500 <= reputation < 1000
    ensures GetTrustLevel(reputation) == Verified <==> 100 <= reputation < 500
    ensures GetTrustLevel(reputation) == New <==> reputation < 100
  {
  }

  /** More reputation never lowers the tier. */
  lemma TrustMonotone(r1: int, r2: int)
    requires r1 <= r2
    ensures GetTrustLevel(r1).Rank() <= GetTrustLevel(r2).Rank()
  {
  }

  /** A user with reputation 650 is shown with the "Trusted" badge. */
  lemma TrustedAt650()
    ensures GetTrustLevel(650) == Trusted && GetTrustLevel(650).Label() == "Trusted"
  {
  }
}
