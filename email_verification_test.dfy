/** The landing-page trial (src/components/EmailVerificationTest.tsx): three free
    verifications of one address at a time, then an upgrade prompt that hides the form
    until "Try 3 more" resets the counter. */
module EmailVerificationTest {
  import opened Wrappers
  import opened Strings
  import opened Types
  import opened MockData

  /** The number of free verifications before the prompt. */
  const FreeTries: nat := 3

  class Trial {
    var email: string
    var isVerifying: bool
    var result: Option<VerificationResult>
    var verificationCount: nat
    var showUpgradePrompt: bool

    /** Reachable states: at most three verifications since the last reset, and the
        prompt shows exactly after the third. */
    predicate Valid()
      reads this
    {
      verificationCount <= FreeTries && (showUpgradePrompt <==> verificationCount == FreeTries)
    }

    /** `3 - verificationCount`, the remaining free verifications. */
    function Remaining(): (n: int)
      reads this
      ensures Valid() ==> 0 <= n <= FreeTries
    {
      FreeTries - verificationCount
    }

    /** The trial as first shown. */
    constructor ()
      ensures email == [] && !isVerifying && result == None
      ensures verificationCount == 0 && !showUpgradePrompt
      ensures Valid()
    {
      email := [];
      isVerifying := false;
      result := None;
      verificationCount := 0;
      showUpgradePrompt := false;
    }

    /** `handleVerify`: an empty address or one without '@' is ignored; otherwise the
        classifier's one result is shown and counted, and the prompt is raised when two
        verifications had already been made.  A rejected call changes nothing but the
        busy flag. */
    method HandleVerify(reply: Reply)
      modifies this
      ensures email == old(email)
      ensures email == [] || !Contains(email, "@") ==>
                && result == old(result) && verificationCount == old(verificationCount)
                && showUpgradePrompt == old(showUpgradePrompt) && isVerifying == old(isVerifying)
      ensures email != [] && Contains(email, "@") && reply.Rejected? ==>
                && result == old(result) && verificationCount == old(verificationCount)
                && showUpgradePrompt == old(showUpgradePrompt) && !isVerifying
      ensures email != [] && Contains(email, "@") && reply.Resolved? ==>
                && result == Some(MockVerifyEmails([email], reply.draw)[0])
                && verificationCount == old(verificationCount) + 1
                && showUpgradePrompt == (old(showUpgradePrompt) || old(verificationCount) >= 2)
                && !isVerifying
      ensures old(Valid()) && !old(showUpgradePrompt) ==> Valid()
    {
      if email == [] || !Contains(email, "@") {
        return;
      }
      isVerifying := true;
      match reply {
        case Rejected =>
        case Resolved(draw) =>
          var results := MockVerifyEmails([email], draw);
          result := Some(results[0]);
          var before := verificationCount;
          verificationCount := verificationCount + 1;
          if before >= 2 {
            showUpgradePrompt := true;
          }
      }
      isVerifying := false;
    }

    /** The "Try 3 more" button. */
    method TryThreeMore()
      modifies this
      ensures verificationCount == 0 && !showUpgradePrompt
      ensures email == old(email) && result == old(result) && isVerifying == old(isVerifying)
      ensures Valid()
    {
      showUpgradePrompt := false;
      verificationCount := 0;
    }
  }

  // ---------------------------------------------------------------- properties

  /** The result shown is the classifier's verdict on the address typed. */
  lemma TrialResultIsForEmail(email: string, draw: nat -> Draw)
    ensures MockVerifyEmails([email], draw)[0] == Classify(email, draw(0))
  {
  }
}
