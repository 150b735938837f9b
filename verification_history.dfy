/** The history panel (src/components/dashboard/VerificationHistory.tsx): which batch is
    expanded, and the export of a batch under a file name derived from its name. */
module VerificationHistory {
  import opened Wrappers
  import opened Strings
  import opened Types
  import opened CsvExport

  /** The characters `/[^a-zA-Z0-9]/` does not match (ASCII letters and digits). */
  predicate IsAlphanumeric(c: char) {
    ('a' <= c <= 'z') || ('A' <= c <= 'Z') || ('0' <= c <= '9')
  }

  /** `name.replace(/[^a-zA-Z0-9]/g, "-")`: every other character becomes '-'. */
  function Sanitize(name: string): (r: string)
    ensures |r| == |name|
    ensures forall i :: 0 <= i < |r| ==> IsAlphanumeric(name[i]) ==> r[i] == name[i]
    ensures forall i :: 0 <= i < |r| ==> !IsAlphanumeric(name[i]) ==> r[i] == '-'
  {
    seq(|name|, i requires 0 <= i < |name| => if IsAlphanumeric(name[i]) then name[i] else '-')
  }

  /** The download name of a batch's export. */
  function ExportFileName(batchName: string): string {
    Sanitize(batchName) + ".csv"
  }

  /** The new `expandedBatch` after `toggleExpand(batchId)`: the same id collapses, any
      other id becomes the one expanded. */
  function Toggled(expanded: Option<string>, batchId: string): (r: Option<string>)
    ensures r.None? <==> expanded == Some(batchId)
    ensures r.Some? ==> r.value == batchId
  {
    if expanded == Some(batchId) then None else Some(batchId)
  }

  class Panel {
    var expandedBatch: Option<string>

    /** Nothing expanded at first. */
    constructor ()
      ensures expandedBatch == None
    {
      expandedBatch := None;
    }

    /** `toggleExpand(batchId)`. */
    method ToggleExpand(batchId: string)
      modifies this
      ensures expandedBatch == Toggled(old(expandedBatch), batchId)
    {
      if expandedBatch == Some(batchId) {
        expandedBatch := None;
      } else {
        expandedBatch := Some(batchId);
      }
    }
  }

  /** `downloadCsv(results, batchName)`: nothing for an empty list, otherwise the export
      under the sanitised name. */
  method DownloadCsv(results: seq<VerificationResult>, batchName: string) returns (d: Option<Download>)
    ensures results == [] ==> d.None?
    ensures results != [] ==> d == Some(Download(ExportFileName(batchName), CsvText(results)))
  {
    if |results| == 0 {
      return None;
    }
    var csv := BuildCsv(results);
    d := Some(Download(ExportFileName(batchName), csv));
  }

  // ---------------------------------------------------------------- properties

  /** Two toggles of the same id from the collapsed state, or from that id, come back. */
  lemma ToggleTwice(expanded: Option<string>, batchId: string)
    requires expanded.None? || expanded == Some(batchId)
    ensures Toggled(Toggled(expanded, batchId), batchId) == expanded
  {
  }

  /** Toggling another batch replaces the expanded one: at most one is open. */
  lemma ToggleOther(current: string, batchId: string)
    requires current != batchId
    ensures Toggled(Some(current), batchId) == Some(batchId)
  {
  }

  /** A sanitised name holds only letters, digits and '-'. */
  lemma SanitizedCharset(name: string)
    ensures forall i :: 0 <= i < |Sanitize(name)| ==>
              IsAlphanumeric(Sanitize(name)[i]) || Sanitize(name)[i] == '-'
  {
  }

  /** Sanitising twice is sanitising once. */
  lemma SanitizeIdempotent(name: string)
    ensures Sanitize(Sanitize(name)) == Sanitize(name)
  {
  }

  /** A name is left as it is exactly when it is made of letters, digits and '-'. */
  lemma SanitizeFixedIffPlain(name: string)
    ensures Sanitize(name) == name <==> forall i :: 0 <= i < |name| ==> IsAlphanumeric(name[i]) || name[i] == '-'
  {
    if Sanitize(name) == name {
      forall i | 0 <= i < |name| ensures IsAlphanumeric(name[i]) || name[i] == '-' {
        assert Sanitize(name)[i] == name[i];
      }
    }
  }

  /** The file name keeps one character per character of the batch name, holds no '.'
      before its extension, and ends with ".csv". */
  lemma ExportFileNameShape(batchName: string)
    ensures |ExportFileName(batchName)| == |batchName| + 4
    ensures EndsWith(ExportFileName(batchName), ".csv")
    ensures FreeOf(Sanitize(batchName), '.')
  {
    var f := ExportFileName(batchName);
    assert f[|f| - 4..] == ".csv";
  }
}
