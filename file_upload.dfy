/** The CSV upload panel (src/components/dashboard/FileUpload.tsx): the selected file,
    the preview of the addresses in its first five lines, the credit warning and the
    upload button. */
module FileUpload {
  import opened Wrappers
  import opened Strings
  import opened MockData
  import opened CsvScan
  import opened Verification

  /** The loops of `handleFileChange` on the first five lines of `content`. */
  method PreviewEmails(content: string) returns (emails: seq<string>)
    ensures emails == CsvPreview(content)
  {
    var lines := Lines(content);
    var k := if |lines| < 5 then |lines| else 5;
    emails := ScanLines(lines[..k]);
  }

  class Panel {
    const workflow: Workflow
    var file: Option<File>
    var previewEmails: seq<string>

    /** The panel as first shown: nothing selected, nothing previewed. */
    constructor (workflow: Workflow)
      ensures this.workflow == workflow && file == None && previewEmails == []
    {
      this.workflow := workflow;
      file := None;
      previewEmails := [];
    }

    /** `handleFileChange`: no selection changes nothing; a selection becomes the file,
        and when the read delivers text its preview replaces the old one. */
    method HandleFileChange(selected: Option<File>)
      modifies this
      ensures selected.None? ==> file == old(file) && previewEmails == old(previewEmails)
      ensures selected.Some? ==> file == selected
      ensures selected.Some? && Readable(selected.value) ==>
                previewEmails == CsvPreview(selected.value.content.value)
      ensures selected.Some? && !Readable(selected.value) ==> previewEmails == old(previewEmails)
    {
      if selected.None? {
        return;
      }
      file := selected;
      var f := selected.value;
      if !Readable(f) {
        return;
      }
      var emails := PreviewEmails(f.content.value);
      previewEmails := emails;
    }

    /** `handleUpload`: nothing without a file; otherwise upload it, then forget the file
        and the preview whatever the upload did. */
    method HandleUpload(reply: Reply, stamp: Stamp) returns (outcome: Option<Outcome>)
      requires workflow.Valid()
      modifies this, workflow, workflow.session
      ensures workflow.Valid()
      ensures old(file).None? ==>
                && outcome.None? && file == old(file) && previewEmails == old(previewEmails)
                && workflow.Untouched() && workflow.isVerifying == old(workflow.isVerifying)
      ensures workflow.session.isLoading == old(workflow.session.isLoading)
      ensures old(file).Some? ==> outcome.Some? && file == None && previewEmails == []
      ensures outcome.Some? ==>
                var o, u, f := outcome.value, old(workflow.session.user), old(file).value;
                && (o.NotLoggedIn? <==> u.None?)
                && !o.NoFileSelected?
                && (o.NotCsv? <==> u.Some? && !EndsWith(f.name, ".csv"))
                && (o.ReadFailed? <==> u.Some? && EndsWith(f.name, ".csv") && !Readable(f))
                && (o.NoEmailsFound? <==> u.Some? && EndsWith(f.name, ".csv") && Readable(f) && FileEmails(f) == [])
                && (o.InsufficientCredits? <==>
                      u.Some? && EndsWith(f.name, ".csv") && Readable(f) && FileEmails(f) != []
                      && !Affords(u.value, |FileEmails(f)|))
                && (o.InsufficientCredits? ==> o == InsufficientCredits(|FileEmails(f)|, u.value.credits.available))
                && (o.VerificationFailed? <==> u.Some? && UploadPasses(u.value, f) && reply.Rejected?)
                && (o.Verified? <==> u.Some? && UploadPasses(u.value, f) && reply.Resolved?)
                && (o.NotLoggedIn? || o.NotCsv? ==> workflow.isVerifying == old(workflow.isVerifying))
                && (!(o.NotLoggedIn? || o.NotCsv?) ==> !workflow.isVerifying)
      ensures outcome.Some? && !outcome.value.Verified? ==> workflow.Untouched()
      ensures outcome.Some? && outcome.value.Verified? ==>
                && old(workflow.session.user).Some? && old(file).Some? && Readable(old(file).value) && reply.Resolved?
                && workflow.VerifiedEffect(old(workflow.session.user).value, FileEmails(old(file).value),
                                           Some(UploadBatchName(old(file).value.name)), reply.draw, stamp,
                                           outcome.value.batch)
    {
      if file.None? {
        return None;
      }
      var o := workflow.VerifyUploadedFile(file, reply, stamp);
      outcome := Some(o);
      file := None;
      previewEmails := [];
    }

    /** The "..." under the preview, shown at exactly five entries. */
    predicate ShowEllipsis()
      reads this
    {
      file.Some? && |previewEmails| == 5
    }

    /** The credit warning: a file with a non-empty preview longer than the logged-in
        user's balance (with nobody logged in the comparison is false). */
    predicate ShowCreditWarning()
      reads this, workflow.session
    {
      && file.Some? && previewEmails != []
      && workflow.session.user.Some? && workflow.session.user.value.credits.available < |previewEmails|
    }

    /** The upload button's `disabled` condition. */
    predicate UploadDisabled()
      reads this, workflow
    {
      file.None? || workflow.isVerifying
    }
  }

  // ---------------------------------------------------------------- properties

  /** The preview counts lines, not addresses: one line of six clean addresses previews
      all six, so the list can be longer than five and then shows no "...". */
  lemma PreviewCanExceedFive(vs: seq<string>)
    requires |vs| >= 1
    requires forall i :: 0 <= i < |vs| ==>
               FreeOf(vs[i], ',') && FreeOf(vs[i], '\n') && Trim(vs[i]) == vs[i] && LooksLikeEmail(vs[i])
    ensures CsvPreview(Join(vs, ',')) == vs
  {
    var text := Join(vs, ',');
    JoinFreeOf(vs, ',', '\n');
    SingleLinePreview(text);
    LineOfAddresses(vs);
  }

  /** A text without line breaks is previewed in full. */
  lemma SingleLinePreview(text: string)
    requires FreeOf(text, '\n')
    ensures CsvPreview(text) == LineEmails(text)
  {
    SplitNoSeparator(text, {'\n'});
    assert Lines(text) == [text];
    assert Lines(text)[..1] == [text];
    assert PerLine([text]) == [LineEmails(text)];
    assert Flatten([LineEmails(text)]) == LineEmails(text);
  }
}
