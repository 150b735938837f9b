/** The heuristic CSV address extractor.  `parseCSVEmails` in the verification context
    and the preview in the file-upload panel run the same nested loops: split the
    text into lines at `\r?\n`, split each line at ',', trim every value and keep a
    value when it contains both an '@' and a '.'.  The loops are written once here. */
module CsvScan {
  import opened Strings

  /** A line break `\r?\n` consumes a '\r' just before the '\n'. */
  function DropCarriageReturn(line: string): string {
    if |line| > 0 && line[|line| - 1] == '\r' then line[..|line| - 1] else line
  }

  /** Every piece except the last was followed by a '\n'. */
  function StripCarriageReturns(pieces: seq<string>): (r: seq<string>)
    ensures |r| == |pieces|
  {
    if |pieces| <= 1 then pieces
    else [DropCarriageReturn(pieces[0])] + StripCarriageReturns(pieces[1..])
  }

  /** `content.split(/\r?\n/)`. */
  function Lines(content: string): (r: seq<string>)
    ensures |r| >= 1
  {
    StripCarriageReturns(Split(content, {'\n'}))
  }

  /** `line.split(',')`. */
  function Values(line: string): (r: seq<string>)
    ensures |r| >= 1
  {
    Split(line, {','})
  }

  /** The "very basic email validation" of the extractor. */
  predicate LooksLikeEmail(token: string) {
    Contains(token, "@") && Contains(token, ".")
  }

  /** What one value contributes: its trim, if that looks like an address. */
  function Kept(value: string): seq<string> {
    var t := Trim(value);
    if LooksLikeEmail(t) then [t] else []
  }

  /** The pieces of a list of lists laid end to end. */
  function Flatten(xss: seq<seq<string>>): seq<string>
  {
    if xss == [] then [] else Flatten(xss[..|xss| - 1]) + xss[|xss| - 1]
  }

  /** What each value of a line contributes, value by value. */
  function PerValue(values: seq<string>): (r: seq<seq<string>>)
    ensures |r| == |values|
  {
    seq(|values|, j requires 0 <= j < |values| => Kept(values[j]))
  }

  /** The kept tokens of one line, in order. */
  function LineEmails(line: string): seq<string> {
    Flatten(PerValue(Values(line)))
  }

  /** What each line contributes, line by line. */
  function PerLine(lines: seq<string>): (r: seq<seq<string>>)
    ensures |r| == |lines|
  {
    seq(|lines|, i requires 0 <= i < |lines| => LineEmails(lines[i]))
  }

  /** The kept tokens of a list of lines: line by line, and within a line value by value. */
  function EmailsOfLines(lines: seq<string>): seq<string> {
    Flatten(PerLine(lines))
  }

  /** What `parseCSVEmails(content)` returns. */
  function CsvEmails(content: string): seq<string> {
    EmailsOfLines(Lines(content))
  }

  /** What the upload panel previews: the same extraction on `slice(0, 5)` of the lines. */
  function CsvPreview(content: string): seq<string> {
    var lines := Lines(content);
    EmailsOfLines(lines[..if |lines| < 5 then |lines| else 5])
  }

  /** The nested `forEach` loops that push every kept token. */
  method ScanLines(lines: seq<string>) returns (emails: seq<string>)
    ensures emails == EmailsOfLines(lines)
  {
    emails := [];
    for i := 0 to |lines|
      invariant emails == EmailsOfLines(lines[..i])
    {
      var values := Values(lines[i]);
      ghost var before := emails;
      for j := 0 to |values|
        invariant emails == before + Flatten(PerValue(values[..j]))
      {
        var trimmedValue := Trim(values[j]);
        ValueStep(values, j);
        if LooksLikeEmail(trimmedValue) {
          emails := emails + [trimmedValue];
        }
      }
      assert values[..|values|] == values;
      LineStep(lines, i);
    }
    assert lines[..|lines|] == lines;
  }

  // ---------------------------------------------------------------- properties

  lemma {:induction false} FlattenConcat(a: seq<seq<string>>, b: seq<seq<string>>)
    ensures Flatten(a + b) == Flatten(a) + Flatten(b)
    decreases |b|
  {
    if b == [] {
      assert a + b == a;
    } else {
      var ab, b' := a + b, b[..|b| - 1];
      assert ab[..|ab| - 1] == a + b';
      FlattenConcat(a, b');
    }
  }

  /** A string is in a flattened list exactly when it is in one of the pieces. */
  lemma {:induction false} FlattenMembers(xss: seq<seq<string>>, t: string)
    ensures t in Flatten(xss) <==> exists i :: 0 <= i < |xss| && t in xss[i]
    decreases |xss|
  {
    if xss != [] {
      var init := xss[..|xss| - 1];
      FlattenMembers(init, t);
      if exists i :: 0 <= i < |xss| && t in xss[i] {
        var i :| 0 <= i < |xss| && t in xss[i];
        if i < |init| {
          assert init[i] == xss[i];
        }
      }
      if exists i :: 0 <= i < |init| && t in init[i] {
        var i :| 0 <= i < |init| && t in init[i];
        assert xss[i] == init[i];
      }
    }
  }

  lemma ValueStep(values: seq<string>, j: nat)
    requires j < |values|
    ensures Flatten(PerValue(values[..j + 1])) == Flatten(PerValue(values[..j])) + Kept(values[j])
  {
    assert PerValue(values[..j + 1]) == PerValue(values[..j]) + [Kept(values[j])];
    FlattenConcat(PerValue(values[..j]), [Kept(values[j])]);
    assert Flatten([Kept(values[j])]) == Kept(values[j]);
  }

  lemma LineStep(lines: seq<string>, i: nat)
    requires i < |lines|
    ensures EmailsOfLines(lines[..i + 1]) == EmailsOfLines(lines[..i]) + LineEmails(lines[i])
  {
    assert PerLine(lines[..i + 1]) == PerLine(lines[..i]) + [LineEmails(lines[i])];
    FlattenConcat(PerLine(lines[..i]), [LineEmails(lines[i])]);
    assert Flatten([LineEmails(lines[i])]) == LineEmails(lines[i]);
  }

  lemma EmailsOfLinesConcat(a: seq<string>, b: seq<string>)
    ensures EmailsOfLines(a + b) == EmailsOfLines(a) + EmailsOfLines(b)
  {
    assert PerLine(a + b) == PerLine(a) + PerLine(b);
    FlattenConcat(PerLine(a), PerLine(b));
  }

  /** A '\r' at the end of a line is trimmed away with the line's last value. */
  lemma LineEmailsIgnoresCarriageReturn(line: string)
    ensures LineEmails(DropCarriageReturn(line)) == LineEmails(line)
  {
    if |line| > 0 && line[|line| - 1] == '\r' {
      var m := line[..|line| - 1];
      assert line == m + ['\r'];
      SplitSnoc(m, '\r', {','});
      var p := Values(m);
      var n := |p|;
      assert Values(line) == p[..n - 1] + [p[n - 1] + ['\r']];
      assert p == p[..n - 1] + [p[n - 1]];
      var init := PerValue(p[..n - 1]);
      assert PerValue(Values(line)) == init + [Kept(p[n - 1] + ['\r'])];
      assert PerValue(p) == init + [Kept(p[n - 1])];
      FlattenConcat(init, [Kept(p[n - 1] + ['\r'])]);
      FlattenConcat(init, [Kept(p[n - 1])]);
      TrimIgnoresTrailingWhitespace(p[n - 1], '\r');
      assert Kept(p[n - 1] + ['\r']) == Kept(p[n - 1]);
    }
  }

  lemma {:induction false} StripCarriageReturnsKeepsEmails(pieces: seq<string>)
    ensures EmailsOfLines(StripCarriageReturns(pieces)) == EmailsOfLines(pieces)
    decreases |pieces|
  {
    if |pieces| > 1 {
      var rest := pieces[1..];
      StripCarriageReturnsKeepsEmails(rest);
      EmailsOfLinesConcat([DropCarriageReturn(pieces[0])], StripCarriageReturns(rest));
      EmailsOfLinesConcat([pieces[0]], rest);
      assert pieces == [pieces[0]] + rest;
      LineEmailsIgnoresCarriageReturn(pieces[0]);
      assert EmailsOfLines([DropCarriageReturn(pieces[0])]) == EmailsOfLines([pieces[0]]) by {
        assert [DropCarriageReturn(pieces[0])][..0] == [] == [pieces[0]][..0];
      }
    }
  }

  /** The extraction reads the text one '\n'-separated line at a time; a '\r' before the
      '\n' makes no difference. */
  lemma CsvEmailsByNewline(content: string)
    ensures CsvEmails(content) == EmailsOfLines(Split(content, {'\n'}))
  {
    StripCarriageReturnsKeepsEmails(Split(content, {'\n'}));
  }

  /** Line-then-column order: parsing two texts joined by a line break is
      parsing each of them, one after the other. */
  lemma CsvEmailsConcat(a: string, b: string)
    ensures CsvEmails(a + "\n" + b) == CsvEmails(a) + CsvEmails(b)
  {
    assert a + "\n" + b == a + ['\n'] + b;
    SplitConcat(a, '\n', b, {'\n'});
    CsvEmailsByNewline(a + "\n" + b);
    CsvEmailsByNewline(a);
    CsvEmailsByNewline(b);
    EmailsOfLinesConcat(Split(a, {'\n'}), Split(b, {'\n'}));
  }

  /** The preview is a prefix of the full extraction, and is all of it when the text
      has at most five lines (so it can hold more than five addresses). */
  lemma PreviewIsPrefix(content: string)
    ensures CsvPreview(content) <= CsvEmails(content)
    ensures |Lines(content)| <= 5 ==> CsvPreview(content) == CsvEmails(content)
  {
    var lines := Lines(content);
    var k := if |lines| < 5 then |lines| else 5;
    assert lines == lines[..k] + lines[k..];
    EmailsOfLinesConcat(lines[..k], lines[k..]);
    if |lines| <= 5 {
      assert lines[..k] == lines;
    }
  }

  /** Completeness and soundness for a line: a token is extracted exactly when it is the
      trim of one of the line's values and looks like an address. */
  lemma LineEmailsMembers(line: string, t: string)
    ensures t in LineEmails(line) <==>
              LooksLikeEmail(t) && exists j :: 0 <= j < |Values(line)| && Trim(Values(line)[j]) == t
  {
    var values := Values(line);
    FlattenMembers(PerValue(values), t);
    if exists j :: 0 <= j < |values| && t in PerValue(values)[j] {
      var j :| 0 <= j < |values| && t in PerValue(values)[j];
      assert Trim(values[j]) == t;
    }
    if LooksLikeEmail(t) && exists j :: 0 <= j < |values| && Trim(values[j]) == t {
      var j :| 0 <= j < |values| && Trim(values[j]) == t;
      assert t in PerValue(values)[j];
    }
  }

  /** Completeness and soundness for a text: a token is extracted exactly when it is the
      trim of some value of some line and looks like an address. */
  lemma EmailsOfLinesMembers(lines: seq<string>, t: string)
    ensures t in EmailsOfLines(lines) <==>
              LooksLikeEmail(t)
              && exists i, j :: 0 <= i < |lines| && 0 <= j < |Values(lines[i])| && Trim(Values(lines[i])[j]) == t
  {
    FlattenMembers(PerLine(lines), t);
    if exists i :: 0 <= i < |lines| && t in PerLine(lines)[i] {
      var i :| 0 <= i < |lines| && t in PerLine(lines)[i];
      LineEmailsMembers(lines[i], t);
    }
    if LooksLikeEmail(t) && exists i, j :: 0 <= i < |lines| && 0 <= j < |Values(lines[i])| && Trim(Values(lines[i])[j]) == t {
      var i, j :| 0 <= i < |lines| && 0 <= j < |Values(lines[i])| && Trim(Values(lines[i])[j]) == t;
      LineEmailsMembers(lines[i], t);
      assert t in PerLine(lines)[i];
    }
  }

  /** Every extracted token is trimmed and contains both an '@' and a '.'. */
  lemma ExtractedTokensAreClean(content: string)
    ensures forall k :: 0 <= k < |CsvEmails(content)| ==>
              Trim(CsvEmails(content)[k]) == CsvEmails(content)[k] && LooksLikeEmail(CsvEmails(content)[k])
  {
    var lines := Lines(content);
    forall k | 0 <= k < |CsvEmails(content)|
      ensures Trim(CsvEmails(content)[k]) == CsvEmails(content)[k] && LooksLikeEmail(CsvEmails(content)[k])
    {
      var t := CsvEmails(content)[k];
      EmailsOfLinesMembers(lines, t);
      var i, j :| 0 <= i < |lines| && 0 <= j < |Values(lines[i])| && Trim(Values(lines[i])[j]) == t;
      TrimIdempotent(Values(lines[i])[j]);
    }
  }

  /** A line made of clean addresses, joined by commas, yields exactly those
      addresses. */
  lemma LineOfAddresses(vs: seq<string>)
    requires |vs| >= 1
    requires forall i :: 0 <= i < |vs| ==> FreeOf(vs[i], ',') && Trim(vs[i]) == vs[i] && LooksLikeEmail(vs[i])
    ensures LineEmails(Join(vs, ',')) == vs
  {
    SplitJoin(vs, ',');
    FlattenSingletons(PerValue(vs), vs);
  }

  lemma {:induction false} FlattenSingletons(xss: seq<seq<string>>, vs: seq<string>)
    requires |xss| == |vs| && forall i :: 0 <= i < |xss| ==> xss[i] == [vs[i]]
    ensures Flatten(xss) == vs
    decreases |xss|
  {
    if xss != [] {
      FlattenSingletons(xss[..|xss| - 1], vs[..|vs| - 1]);
      assert vs == vs[..|vs| - 1] + [vs[|vs| - 1]];
    }
  }
}
