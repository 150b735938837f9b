/** The results panel (src/components/dashboard/VerificationResults.tsx): the summary
    counts of the current results, their export, and the clear action. */
module VerificationResults {
  import opened Wrappers
  import opened Strings
  import opened Types
  import opened CsvExport
  import opened Verification

  /** The counts of `stats`; the percentages are left out. */
  datatype Stats = Stats(total: nat, valid: nat, invalid: nat, disposable: nat, risky: nat)

  /** `stats`: nothing for an empty list, otherwise the total and four of the five
      per-status counts ('unknown' is not counted). */
  function StatsOf(results: seq<VerificationResult>): (s: Option<Stats>)
    ensures s.None? <==> results == []
    ensures s.Some? ==> s.value.total == |results|
  {
    if results == [] then None
    else Some(Stats(|results|, CountStatus(results, Valid), CountStatus(results, Invalid),
                    CountStatus(results, Disposable), CountStatus(results, Risky)))
  }

  /** The date part of an ISO timestamp: `iso.split("T")[0]`. */
  function DatePart(iso: string): string {
    Split(iso, {'T'})[0]
  }

  /** The download name of the current results. */
  function ResultsFileName(iso: string): string {
    "email-verification-" + DatePart(iso) + ".csv"
  }

  /** `downloadCsv`: nothing without results, otherwise the export named after the date
      of `iso` (the source's `new Date().toISOString()`). */
  method DownloadCsv(w: Workflow, iso: string) returns (d: Option<Download>)
    ensures w.currentResults == [] ==> d.None?
    ensures w.currentResults != [] ==> d == Some(Download(ResultsFileName(iso), CsvText(w.currentResults)))
  {
    if |w.currentResults| == 0 {
      return None;
    }
    var csv := BuildCsv(w.currentResults);
    d := Some(Download(ResultsFileName(iso), csv));
  }

  /** The "Clear Results" button. */
  method ClearResults(w: Workflow)
    modifies w
    ensures w.currentResults == [] && w.recentBatches == old(w.recentBatches)
    ensures w.isVerifying == old(w.isVerifying)
  {
    w.ClearCurrentResults();
  }

  // ---------------------------------------------------------------- properties

  /** The four shown counts never exceed the total, and add up to it exactly when no
      result is 'unknown'. */
  lemma StatsBound(results: seq<VerificationResult>)
    requires results != []
    ensures var s := StatsOf(results).value;
            && s.valid + s.invalid + s.disposable + s.risky <= s.total
            && (s.valid + s.invalid + s.disposable + s.risky == s.total <==>
                forall i :: 0 <= i < |results| ==> results[i].status != Unknown)
  {
    CountsPartition(results);
    CountZeroIffAbsent(results, Unknown);
  }

  /** Results fresh from the classifier always fill the four counts. */
  lemma FreshStatsAddUp(emails: seq<string>, draw: nat -> MockData.Draw)
    requires emails != []
    ensures var s := StatsOf(MockData.MockVerifyEmails(emails, draw)).value;
            s.valid + s.invalid + s.disposable + s.risky == s.total
  {
    var results := MockData.MockVerifyEmails(emails, draw);
    CountsPartition(results);
    MockData.NoUnknownResults(emails, draw);
  }

  /** The date part is everything before the first 'T'. */
  lemma DatePartOfIso(date: string, time: string)
    requires 'T' !in date
    ensures DatePart(date + "T" + time) == date
  {
    assert date + "T" + time == date + ['T'] + time;
    SplitConcat(date, 'T', time, {'T'});
    SplitNoSeparator(date, {'T'});
  }
}
