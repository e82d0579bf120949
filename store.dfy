/** The hand-off store shared by the pages: a claim to check and whether
    the chat session should submit it when it picks it up. */
module Store {

  class FactCheckStore {
    var claim: string
    var autoSubmit: bool

    /** Both fields at their initial values. */
    predicate IsInitial()
      reads this
    {
      claim == "" && !autoSubmit
    }

    constructor ()
      ensures IsInitial()
    {
      claim := "";
      autoSubmit := false;
    }

    /** setClaim: only the claim changes. */
    method SetClaim(c: string)
      modifies this
      ensures claim == c && autoSubmit == old(autoSubmit)
    {
      claim := c;
    }

    /** setAutoSubmit: only the flag changes. */
    method SetAutoSubmit(b: bool)
      modifies this
      ensures autoSubmit == b && claim == old(claim)
    {
      autoSubmit := b;
    }

    /** resetClaim: back to the initial values, whatever the state was, so
        a second reset changes nothing. */
    method ResetClaim()
      modifies this
      ensures IsInitial()
    {
      claim := "";
      autoSubmit := false;
    }
  }

  /** Resetting twice leaves the store as resetting once does. */
  method ResetClaimIdempotent(s: FactCheckStore)
    modifies s
    ensures s.IsInitial()
  {
    s.ResetClaim();
    s.ResetClaim();
  }

  /** A hand-off: the store holds the claim with auto-submit on. */
  method HandOff(s: FactCheckStore, c: string)
    modifies s
    ensures s.claim == c && s.autoSubmit
  {
    s.SetClaim(c);
    s.SetAutoSubmit(true);
  }
}
