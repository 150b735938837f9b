/** The verification workflow (src/contexts/VerificationContext.tsx): the current
    results, the history of batches and the busy flag, over the session of the logged-in
    user whose credits it spends. */
module Verification {
  import opened Wrappers
  import opened Strings
  import opened Types
  import opened MockData
  import opened CsvScan
  import opened Auth

  /** The two identities treated as administrators, whose credits are never checked or
      spent.  The user's own `isAdmin` flag plays no part. */
  predicate IsAdmin(u: User) {
    u.email == "admin@mailscribe.com" || u.id == "admin-user-id"
  }

  /** The values the source draws from `uuidv4()`, `toLocaleDateString()` and
      `toISOString()` when it builds a batch. */
  datatype Stamp = Stamp(id: string, localDate: string, iso: string)

  /** An uploaded file: its name, and the text the reader delivers (`None` when the read
      fails). */
  datatype File = File(name: string, content: Option<string>)

  /** How a call ended; in the source each non-success case is a toast and a return. */
  datatype Outcome =
    | NotLoggedIn
    | NoFileSelected
    | NotCsv
    | ReadFailed
    | NoEmailsFound
    | InsufficientCredits(needed: nat, available: int)
    | VerificationFailed
    | Verified(batch: VerificationBatch)

  /** The credit gate: an administrator always passes, anybody else needs a balance of at
      least `n`. */
  predicate Affords(u: User, n: nat) {
    IsAdmin(u) || n <= u.credits.available
  }

  /** A read that delivers text: the reader fails, or delivers an empty (falsy) result,
      otherwise. */
  predicate Readable(f: File) {
    f.content.Some? && f.content.value != []
  }

  /** The addresses `parseCSVEmails` extracts from a readable file. */
  function FileEmails(f: File): seq<string>
    requires Readable(f)
  {
    CsvEmails(f.content.value)
  }

  /** An upload that passes every gate of `verifyUploadedFile` for the user `u`. */
  predicate UploadPasses(u: User, f: File) {
    EndsWith(f.name, ".csv") && Readable(f) && FileEmails(f) != [] && Affords(u, |FileEmails(f)|)
  }

  /** `batchName || "Batch <date>"`: the given name unless it is absent or empty. */
  function BatchName(batchName: Option<string>, localDate: string): (n: string)
    ensures batchName.Some? && batchName.value != [] ==> n == batchName.value
    ensures batchName.None? || batchName.value == [] ==> n == "Batch " + localDate
  {
    if batchName.Some? && batchName.value != [] then batchName.value else "Batch " + localDate
  }

  /** The batch recorded for `results`: its counts are those of the results and add up
      to the total. */
  function NewBatch(results: seq<VerificationResult>, batchName: Option<string>, stamp: Stamp): (b: VerificationBatch)
    ensures CountsMatchResults(b) && CountsAddUp(b)
    ensures b.results == results && b.id == stamp.id && b.timestamp == stamp.iso
    ensures b.name == BatchName(batchName, stamp.localDate)
  {
    CountsPartition(results);
    VerificationBatch(
      stamp.id, BatchName(batchName, stamp.localDate), |results|,
      CountStatus(results, Valid), CountStatus(results, Invalid), CountStatus(results, Risky),
      CountStatus(results, Disposable), CountStatus(results, Unknown),
      stamp.iso, results)
  }

  /** What `verifyUploadedFile` passes as the batch name: the file name without its first
      ".csv". */
  function UploadBatchName(fileName: string): string {
    ReplaceFirst(fileName, ".csv", "")
  }

  /** `parseCSVEmails`: the nested loops over the lines of `content`. */
  method ParseCsvEmails(content: string) returns (emails: seq<string>)
    ensures emails == CsvEmails(content)
  {
    var lines := Lines(content);
    emails := ScanLines(lines);
  }

  class Workflow {
    const session: Session
    var currentResults: seq<VerificationResult>
    var recentBatches: seq<VerificationBatch>
    var isVerifying: bool

    /** Every batch in the history has counts that add up to its total. */
    predicate Valid()
      reads this
    {
      forall i :: 0 <= i < |recentBatches| ==> CountsAddUp(recentBatches[i])
    }

    /** The provider's initial state: no current results, the seed batches as history. */
    constructor (session: Session, id1: string, id2: string, loadTime: string)
      ensures this.session == session
      ensures currentResults == [] && recentBatches == MockRecentBatches(id1, id2, loadTime) && !isVerifying
      ensures Valid()
    {
      this.session := session;
      currentResults := [];
      recentBatches := MockRecentBatches(id1, id2, loadTime);
      isVerifying := false;
      SeedBatches(id1, id2, loadTime);
    }

    /** Nothing the workflow or the session records has changed. */
    twostate predicate Untouched()
      reads this, session
    {
      && currentResults == old(currentResults)
      && recentBatches == old(recentBatches)
      && session.user == old(session.user)
      && session.stored == old(session.stored)
    }

    /** The effect of a verification of `emails` that went through for the user `u`: the
        classifier's results become the current results, their batch is put in front of
        the history, and a non-administrator is charged one credit per address. */
    twostate predicate VerifiedEffect(u: User, emails: seq<string>, batchName: Option<string>,
                                      draw: nat -> Draw, stamp: Stamp, batch: VerificationBatch)
      reads this, session
    {
      && currentResults == MockVerifyEmails(emails, draw)
      && batch == NewBatch(currentResults, batchName, stamp)
      && recentBatches == [batch] + old(recentBatches)
      && session.user == Some(if IsAdmin(u) then u else DebitUser(u, |emails|))
      && (IsAdmin(u) ==> session.stored == old(session.stored))
      && (!IsAdmin(u) ==> session.stored == Holds(session.user.value))
    }

    /** `verifyEmails(emails, batchName)`: the login gate, the credit gate (skipped for an
        administrator), then the classifier call; `reply` stands for the classifier's
        promise and `stamp` for the fresh id and dates.  Duplicates are charged. */
    method VerifyEmails(emails: seq<string>, batchName: Option<string>, reply: Reply, stamp: Stamp)
      returns (outcome: Outcome)
      requires Valid()
      modifies this, session
      ensures Valid()
      ensures session.isLoading == old(session.isLoading)
      ensures old(session.Synced()) ==> session.Synced()
      ensures outcome.NotLoggedIn? || outcome.InsufficientCredits? || outcome.VerificationFailed? || outcome.Verified?
      ensures outcome.NotLoggedIn? <==> old(session.user).None?
      ensures outcome.InsufficientCredits? <==>
                old(session.user).Some? && !Affords(old(session.user).value, |emails|)
      ensures outcome.InsufficientCredits? ==>
                outcome == InsufficientCredits(|emails|, old(session.user).value.credits.available)
      ensures outcome.VerificationFailed? <==>
                old(session.user).Some? && Affords(old(session.user).value, |emails|) && reply.Rejected?
      ensures outcome.Verified? <==>
                old(session.user).Some? && Affords(old(session.user).value, |emails|) && reply.Resolved?
      ensures !outcome.Verified? ==> Untouched()
      ensures outcome.Verified? ==>
                VerifiedEffect(old(session.user).value, emails, batchName, reply.draw, stamp, outcome.batch)
      ensures outcome.NotLoggedIn? || outcome.InsufficientCredits? ==> isVerifying == old(isVerifying)
      ensures outcome.VerificationFailed? || outcome.Verified? ==> !isVerifying
    {
      if session.user.None? {
        return NotLoggedIn;
      }
      var u := session.user.value;
      var isAdmin := IsAdmin(u);
      if !Affords(u, |emails|) {
        return InsufficientCredits(|emails|, u.credits.available);
      }
      isVerifying := true;
      match reply {
        case Rejected =>
          outcome := VerificationFailed;
        case Resolved(draw) =>
          var results := MockVerifyEmails(emails, draw);
          currentResults := results;
          var newBatch := NewBatch(results, batchName, stamp);
          recentBatches := [newBatch] + recentBatches;
          if !isAdmin {
            session.UpdateUserCredits(|emails|);
          }
          outcome := Verified(newBatch);
      }
      isVerifying := false;
    }

    /** `verifyUploadedFile(file)`: the login, file and file-name gates, then reading and
        parsing the file, the empty-extraction and credit gates, and finally
        `VerifyEmails` on the extracted addresses under the file's name. */
    method VerifyUploadedFile(file: Option<File>, reply: Reply, stamp: Stamp) returns (outcome: Outcome)
      requires Valid()
      modifies this, session
      ensures Valid()
      ensures session.isLoading == old(session.isLoading)
      ensures old(session.Synced()) ==> session.Synced()
      ensures outcome.NotLoggedIn? <==> old(session.user).None?
      ensures outcome.NoFileSelected? <==> old(session.user).Some? && file.None?
      ensures outcome.NotCsv? <==> old(session.user).Some? && file.Some? && !EndsWith(file.value.name, ".csv")
      ensures outcome.ReadFailed? <==>
                old(session.user).Some? && file.Some? && EndsWith(file.value.name, ".csv") && !Readable(file.value)
      ensures outcome.NoEmailsFound? <==>
                old(session.user).Some? && file.Some? && EndsWith(file.value.name, ".csv") && Readable(file.value)
                && FileEmails(file.value) == []
      ensures outcome.InsufficientCredits? <==>
                old(session.user).Some? && file.Some? && EndsWith(file.value.name, ".csv") && Readable(file.value)
                && FileEmails(file.value) != [] && !Affords(old(session.user).value, |FileEmails(file.value)|)
      ensures outcome.InsufficientCredits? ==>
                outcome == InsufficientCredits(|FileEmails(file.value)|, old(session.user).value.credits.available)
      ensures outcome.VerificationFailed? <==>
                old(session.user).Some? && file.Some? && UploadPasses(old(session.user).value, file.value) && reply.Rejected?
      ensures outcome.Verified? <==>
                old(session.user).Some? && file.Some? && UploadPasses(old(session.user).value, file.value) && reply.Resolved?
      ensures !outcome.Verified? ==> Untouched()
      ensures outcome.Verified? ==>
                && file.Some? && Readable(file.value) && reply.Resolved?
                && VerifiedEffect(old(session.user).value, FileEmails(file.value),
                                  Some(UploadBatchName(file.value.name)), reply.draw, stamp, outcome.batch)
      ensures outcome.NotLoggedIn? || outcome.NoFileSelected? || outcome.NotCsv? ==> isVerifying == old(isVerifying)
      ensures !(outcome.NotLoggedIn? || outcome.NoFileSelected? || outcome.NotCsv?) ==> !isVerifying
    {
      if session.user.None? {
        return NotLoggedIn;
      }
      if file.None? {
        return NoFileSelected;
      }
      var f := file.value;
      if !EndsWith(f.name, ".csv") {
        return NotCsv;
      }
      isVerifying := true;
      if !Readable(f) {
        outcome := ReadFailed;
      } else {
        var emails := ParseCsvEmails(f.content.value);
        var u := session.user.value;
        if |emails| == 0 {
          outcome := NoEmailsFound;
        } else if !Affords(u, |emails|) {
          outcome := InsufficientCredits(|emails|, u.credits.available);
        } else {
          outcome := VerifyEmails(emails, Some(UploadBatchName(f.name)), reply, stamp);
        }
      }
      isVerifying := false;
    }

    /** `clearCurrentResults`: only the current results are emptied. */
    method ClearCurrentResults()
      modifies this
      ensures currentResults == [] && recentBatches == old(recentBatches) && isVerifying == old(isVerifying)
    {
      currentResults := [];
    }
  }

  // ---------------------------------------------------------------- properties

  /** A name with ".csv" only at its end gives its stem as the batch name. */
  lemma UploadNameDropsExtension(base: string, ext: string)
    requires ext == ".csv" && !Contains(base, ext)
    ensures UploadBatchName(base + ext) == base
  {
    var s := base + ext;
    assert s[|base|..|base| + 4] == ext;
    assert OccursAt(s, ext, |base|);
    ContainsIffOccurs(s, ext);
    ContainsIffOccurs(base, ext);
    forall j | 0 <= j < |base|
      ensures !OccursAt(s, ext, j)
    {
      if j + 4 <= |base| {
        assert s[j..j + 4] == base[j..j + 4];
        assert !OccursAt(base, ext, j);
      } else {
        assert s[|base|] == '.';
        assert s[j..j + 4][|base| - j] == s[|base|];
      }
    }
    var i := IndexOf(s, ext).value;
    assert i == |base|;
    assert s[..i] + "" + s[i + 4..] == base;
  }

  /** Only the FIRST ".csv" is removed: a name holding an earlier ".csv" keeps the
      extension in its batch name. */
  lemma UploadNameKeepsLaterExtension(base: string, ext: string)
    requires ext == ".csv" && Contains(base, ext)
    ensures EndsWith(UploadBatchName(base + ext), ext)
  {
    var s := base + ext;
    ContainsIffOccurs(base, ext);
    var k :| OccursAt(base, ext, k);
    assert s[k..k + 4] == base[k..k + 4];
    assert OccursAt(s, ext, k);
    ContainsIffOccurs(s, ext);
    var i := IndexOf(s, ext).value;
    assert i <= k;
    var r := s[..i] + "" + s[i + 4..];
    assert r[|r| - 4..] == ext;
  }

  /** A name that passes the extension gate always loses exactly four characters. */
  lemma UploadNameShorter(name: string)
    requires EndsWith(name, ".csv")
    ensures |UploadBatchName(name)| == |name| - 4
  {
    assert OccursAt(name, ".csv", |name| - 4);
    ContainsIffOccurs(name, ".csv");
  }

  /** Sign-up puts no restriction on the address, so signing up as the administrator
      address yields an identity the credit gate exempts, whatever its balance. */
  lemma SignupAsAdminIsExempt(name: string, now: string, n: nat)
    ensures IsAdmin(NewUser(name, "admin@mailscribe.com", now))
    ensures Affords(NewUser(name, "admin@mailscribe.com", now), n)
  {
  }
}
