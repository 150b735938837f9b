/** The manual verification form (src/components/dashboard/ManualVerification.tsx):
    a text area of addresses separated by new lines or commas, an optional batch name,
    the live address count, the credit check behind the button, and the submit handler. */
module ManualVerification {
  import opened Wrappers
  import opened Strings
  import opened Types
  import opened MockData
  import opened Verification

  /** The separators of `split(/[\n,]/)`. */
  const Separators: set<char> := {'\n', ','}

  /** `.map(email => email.trim()).filter(email => email.length > 0)`. */
  function TrimmedNonEmpty(pieces: seq<string>): (r: seq<string>)
    ensures |r| <= |pieces|
    ensures forall i :: 0 <= i < |r| ==> r[i] != [] && Trim(r[i]) == r[i]
  {
    if pieces == [] then []
    else
      var last := pieces[|pieces| - 1];
      TrimIdempotent(last);
      TrimmedNonEmpty(pieces[..|pieces| - 1]) + (if Trim(last) != [] then [Trim(last)] else [])
  }

  /** The address list the form submits. */
  function ParseEmailList(input: string): seq<string> {
    TrimmedNonEmpty(Split(input, Separators))
  }

  /** `emailCount`: zero for an empty text area, otherwise the length of the list. */
  function EmailCount(input: string): nat {
    if input == [] then 0 else |ParseEmailList(input)|
  }

  /** `hasEnoughCredits`: a logged-in user whose balance covers the count; administrators
      get no exemption here. */
  predicate HasEnoughCredits(user: Option<User>, count: nat) {
    user.Some? && user.value.credits.available >= count
  }

  /** The button's `disabled` condition, negated. */
  predicate VerifyButtonEnabled(count: nat, isVerifying: bool, hasEnoughCredits: bool) {
    !(count == 0 || isVerifying || !hasEnoughCredits)
  }

  /** `batchName || undefined`. */
  function OptionalName(batchName: string): (r: Option<string>)
    ensures r.None? <==> batchName == []
    ensures r.Some? ==> r.value == batchName
  {
    if batchName == [] then None else Some(batchName)
  }

  class Form {
    const workflow: Workflow
    var emailsInput: string
    var batchName: string

    /** The form as first shown: both fields empty. */
    constructor (workflow: Workflow)
      ensures this.workflow == workflow && emailsInput == [] && batchName == []
    {
      this.workflow := workflow;
      emailsInput := [];
      batchName := [];
    }

    /** `handleVerify`: give up on blank input or an empty list, otherwise hand the list
        and the optional name to the workflow. */
    method HandleVerify(reply: Reply, stamp: Stamp) returns (outcome: Option<Outcome>)
      requires workflow.Valid()
      modifies workflow, workflow.session
      ensures workflow.Valid()
      ensures workflow.session.isLoading == old(workflow.session.isLoading)
      ensures outcome.None? <==> ParseEmailList(emailsInput) == []
      ensures outcome.None? ==> workflow.Untouched() && workflow.isVerifying == old(workflow.isVerifying)
      ensures outcome.Some? ==>
                var o, u, n := outcome.value, old(workflow.session.user), |ParseEmailList(emailsInput)|;
                && (o.NotLoggedIn? || o.InsufficientCredits? || o.VerificationFailed? || o.Verified?)
                && (o.NotLoggedIn? <==> u.None?)
                && (o.InsufficientCredits? <==> u.Some? && !Affords(u.value, n))
                && (o.InsufficientCredits? ==> o == InsufficientCredits(n, u.value.credits.available))
                && (o.VerificationFailed? <==> u.Some? && Affords(u.value, n) && reply.Rejected?)
                && (o.Verified? <==> u.Some? && Affords(u.value, n) && reply.Resolved?)
                && (o.NotLoggedIn? || o.InsufficientCredits? ==> workflow.isVerifying == old(workflow.isVerifying))
                && (o.VerificationFailed? || o.Verified? ==> !workflow.isVerifying)
      ensures outcome.Some? && !outcome.value.Verified? ==> workflow.Untouched()
      ensures outcome.Some? && outcome.value.Verified? ==>
                && old(workflow.session.user).Some? && reply.Resolved?
                && workflow.VerifiedEffect(old(workflow.session.user).value, ParseEmailList(emailsInput),
                                           OptionalName(batchName), reply.draw, stamp, outcome.value.batch)
    {
      if Trim(emailsInput) == [] {
        TrimEmptyIffBlank(emailsInput);
        BlankInputIgnored(emailsInput);
        return None;
      }
      var emails := ParseEmailList(emailsInput);
      if |emails| == 0 {
        return None;
      }
      var o := workflow.VerifyEmails(emails, OptionalName(batchName), reply, stamp);
      outcome := Some(o);
    }
  }

  // ---------------------------------------------------------------- properties

  /** An entry of the list is exactly a non-empty trim of one of the pieces. */
  lemma {:induction false} TrimmedNonEmptyMembers(pieces: seq<string>, t: string)
    ensures t in TrimmedNonEmpty(pieces) <==> t != [] && exists i :: 0 <= i < |pieces| && Trim(pieces[i]) == t
    decreases |pieces|
  {
    if pieces != [] {
      var init := pieces[..|pieces| - 1];
      TrimmedNonEmptyMembers(init, t);
      if exists i :: 0 <= i < |pieces| && Trim(pieces[i]) == t {
        var i :| 0 <= i < |pieces| && Trim(pieces[i]) == t;
        if i < |init| {
          assert Trim(init[i]) == t;
        }
      }
      if exists i :: 0 <= i < |init| && Trim(init[i]) == t {
        var i :| 0 <= i < |init| && Trim(init[i]) == t;
        assert Trim(pieces[i]) == t;
      }
    }
  }

  /** Every submitted entry is non-empty, trimmed, and holds neither separator. */
  lemma ParsedEntriesClean(input: string)
    ensures forall i :: 0 <= i < |ParseEmailList(input)| ==>
              var e := ParseEmailList(input)[i];
              e != [] && Trim(e) == e && FreeOf(e, '\n') && FreeOf(e, ',')
  {
    var pieces := Split(input, Separators);
    SplitPieces(input, Separators);
    forall i | 0 <= i < |ParseEmailList(input)|
      ensures FreeOf(ParseEmailList(input)[i], '\n') && FreeOf(ParseEmailList(input)[i], ',')
    {
      var e := ParseEmailList(input)[i];
      TrimmedNonEmptyMembers(pieces, e);
      var j :| 0 <= j < |pieces| && Trim(pieces[j]) == e;
      TrimSpec(pieces[j]);
      var lo := |TrimEnd(pieces[j])| - |e|;
      assert forall k :: 0 <= k < |e| ==> e[k] == pieces[j][lo + k];
    }
  }

  /** Input made only of whitespace and separators, such as " ,\n ", yields no address,
      so nothing is submitted. */
  lemma BlankInputIgnored(input: string)
    requires forall k :: 0 <= k < |input| ==> IsWhitespace(input[k]) || input[k] in Separators
    ensures ParseEmailList(input) == []
  {
    var pieces := Split(input, Separators);
    var r := ParseEmailList(input);
    if r != [] {
      TrimmedNonEmptyMembers(pieces, r[0]);
      var j :| 0 <= j < |pieces| && Trim(pieces[j]) == r[0];
      SplitPieces(input, Separators);
      assert forall k :: 0 <= k < |pieces[j]| ==> pieces[j][k] in input && pieces[j][k] !in Separators;
      TrimEmptyIffBlank(pieces[j]);
    }
  }

  /** The count shown is the length of the list that would be submitted. */
  lemma EmailCountIsListLength(input: string)
    ensures EmailCount(input) == |ParseEmailList(input)|
  {
    if input == [] {
      BlankInputIgnored(input);
    }
  }

  /** An enabled button means a non-empty list that also passes the workflow's credit
      gate. */
  lemma EnabledPassesCreditGate(input: string, user: Option<User>, isVerifying: bool)
    requires VerifyButtonEnabled(EmailCount(input), isVerifying, HasEnoughCredits(user, EmailCount(input)))
    ensures ParseEmailList(input) != [] && !isVerifying
    ensures user.Some? && Affords(user.value, |ParseEmailList(input)|)
  {
    EmailCountIsListLength(input);
  }

  /** The form is stricter than the workflow: an administrator whose balance is too small
      cannot press the button, although the workflow would have let the batch through. */
  lemma AdminBlockedByForm(u: User, input: string)
    requires IsAdmin(u) && u.credits.available < EmailCount(input)
    ensures Affords(u, EmailCount(input))
    ensures !VerifyButtonEnabled(EmailCount(input), false, HasEnoughCredits(Some(u), EmailCount(input)))
  {
  }

  /** An empty name field gives the default batch name, like an absent one. */
  lemma ManualBatchName(batchName: string, localDate: string)
    ensures BatchName(OptionalName(batchName), localDate) ==
            if batchName == [] then "Batch " + localDate else batchName
  {
  }
}
