/** The handful of JavaScript string operations the core relies on, written out:
    `includes`, `indexOf`, `replace` with a string pattern, `endsWith`, `trim`,
    `split` on single characters and `join`.  Strings are sequences of characters. */
module Strings {
  import opened Wrappers

  // ---------------------------------------------------------------- substrings

  predicate IsPrefix(p: string, s: string) {
    |p| <= |s| && p == s[..|p|]
  }

  /** `s.includes(sub)`. */
  predicate Contains(s: string, sub: string)
    decreases |s|
  {
    if |s| < |sub| then false else IsPrefix(sub, s) || Contains(s[1..], sub)
  }

  /** `sub` occurs in `s` at position `i`. */
  predicate OccursAt(s: string, sub: string, i: int) {
    0 <= i && i + |sub| <= |s| && s[i..i + |sub|] == sub
  }

  /** An occurrence past the first character is an occurrence in the tail. */
  lemma OccursShift(s: string, sub: string)
    requires |s| > 0
    ensures forall j :: 1 <= j ==> (OccursAt(s, sub, j) <==> OccursAt(s[1..], sub, j - 1))
  {
    forall j | 1 <= j
      ensures OccursAt(s, sub, j) <==> OccursAt(s[1..], sub, j - 1)
    {
      if j + |sub| <= |s| {
        assert s[1..][j - 1..j - 1 + |sub|] == s[j..j + |sub|];
      }
    }
  }

  /** `Contains` is the existence of an occurrence, in both directions. */
  lemma {:induction false} ContainsIffOccurs(s: string, sub: string)
    ensures Contains(s, sub) <==> exists i :: OccursAt(s, sub, i)
    decreases |s|
  {
    if |s| < |sub| {
      forall i ensures !OccursAt(s, sub, i) { }
    } else if IsPrefix(sub, s) {
      assert OccursAt(s, sub, 0);
    } else {
      assert !OccursAt(s, sub, 0);
      ContainsIffOccurs(s[1..], sub);
      OccursShift(s, sub);
      if Contains(s, sub) {
        var i :| OccursAt(s[1..], sub, i);
        assert OccursAt(s, sub, i + 1);
      } else {
        forall i ensures !OccursAt(s, sub, i) {
          if i >= 1 {
            assert !OccursAt(s[1..], sub, i - 1);
          }
        }
      }
    }
  }

  /** Whatever contains a string contains every piece of it. */
  lemma ContainsPiece(s: string, big: string, lo: nat, hi: nat)
    requires lo <= hi <= |big|
    requires Contains(s, big)
    ensures Contains(s, big[lo..hi])
  {
    ContainsIffOccurs(s, big);
    var i :| OccursAt(s, big, i);
    assert forall k :: lo <= k < hi ==> big[k] == s[i + k];
    assert big[lo..hi] == s[i + lo..i + hi];
    assert OccursAt(s, big[lo..hi], i + lo);
    ContainsIffOccurs(s, big[lo..hi]);
  }

  /** A string lacking one character of `sub` does not contain `sub`. */
  lemma MissingCharExcludes(s: string, sub: string, k: nat)
    requires k < |sub| && sub[k] !in s
    ensures !Contains(s, sub)
  {
    ContainsIffOccurs(s, sub);
  }

  /** One step of the search: a first character that cannot start `sub` is skipped. */
  lemma SkipFirst(s: string, sub: string)
    requires |s| > 0 && |sub| > 0 && s[0] != sub[0]
    ensures Contains(s, sub) == Contains(s[1..], sub)
  {
  }

  /** First occurrence of `sub` in `s` (`s.indexOf(sub)`, with `None` for -1). */
  function IndexOf(s: string, sub: string): (r: Option<nat>)
    ensures r.None? <==> !Contains(s, sub)
    ensures r.Some? ==> OccursAt(s, sub, r.value)
    ensures r.Some? ==> forall j :: 0 <= j < r.value ==> !OccursAt(s, sub, j)
    decreases |s|
  {
    if |s| < |sub| then None
    else if IsPrefix(sub, s) then Some(0)
    else
      match IndexOf(s[1..], sub)
      case None => None
      case Some(i) =>
        OccursShift(s, sub);
        Some(i + 1)
  }

  /** `s.replace(pat, rep)` with a string pattern: only the FIRST occurrence is replaced. */
  function ReplaceFirst(s: string, pat: string, rep: string): (r: string)
  {
    match IndexOf(s, pat)
    case None => s
    case Some(i) => s[..i] + rep + s[i + |pat|..]
  }

  lemma ReplaceFirstSpec(s: string, pat: string, rep: string)
    ensures !Contains(s, pat) ==> ReplaceFirst(s, pat, rep) == s
    ensures Contains(s, pat) ==>
      exists i :: OccursAt(s, pat, i) && (forall j :: 0 <= j < i ==> !OccursAt(s, pat, j))
                  && ReplaceFirst(s, pat, rep) == s[..i] + rep + s[i + |pat|..]
  {
    if Contains(s, pat) {
      var i := IndexOf(s, pat).value;
      assert OccursAt(s, pat, i);
    }
  }

  /** `s.endsWith(suffix)`. */
  predicate EndsWith(s: string, suffix: string) {
    |suffix| <= |s| && s[|s| - |suffix|..] == suffix
  }

  // ---------------------------------------------------------------- trim

  /** The characters `String.prototype.trim` removes: ECMAScript WhiteSpace
      (tab, vertical tab, form feed, space, no-break space, zero-width no-break
      space and the Unicode space separators) and LineTerminator (LF, CR, LS, PS). */
  predicate IsWhitespace(c: char) {
    c == '\t' || c == '\n' || c == '\U{000B}' || c == '\U{000C}' || c == '\r' || c == ' '
    || c == '\U{00A0}' || c == '\U{1680}' || ('\U{2000}' <= c <= '\U{200A}')
    || c == '\U{2028}' || c == '\U{2029}' || c == '\U{202F}' || c == '\U{205F}'
    || c == '\U{3000}' || c == '\U{FEFF}'
  }

  function TrimStart(s: string): string
    decreases |s|
  {
    if |s| > 0 && IsWhitespace(s[0]) then TrimStart(s[1..]) else s
  }

  function TrimEnd(s: string): string
    decreases |s|
  {
    if |s| > 0 && IsWhitespace(s[|s| - 1]) then TrimEnd(s[..|s| - 1]) else s
  }

  /** `TrimStart` removes the leading whitespace run and nothing more. */
  lemma {:induction false} TrimStartSpec(s: string)
    ensures var r := TrimStart(s);
            && |r| <= |s| && r == s[|s| - |r|..]
            && (r == [] || !IsWhitespace(r[0]))
            && (forall k :: 0 <= k < |s| - |r| ==> IsWhitespace(s[k]))
    decreases |s|
  {
    if |s| > 0 && IsWhitespace(s[0]) {
      TrimStartSpec(s[1..]);
      var r := TrimStart(s);
      assert s[1..][|s| - 1 - |r|..] == s[|s| - |r|..];
      assert forall k :: 1 <= k < |s| - |r| ==> s[k] == s[1..][k - 1];
    }
  }

  /** `TrimEnd` removes the trailing whitespace run and nothing more. */
  lemma {:induction false} TrimEndSpec(s: string)
    ensures var r := TrimEnd(s);
            && |r| <= |s| && r == s[..|r|]
            && (r == [] || !IsWhitespace(r[|r| - 1]))
            && (forall k :: |r| <= k < |s| ==> IsWhitespace(s[k]))
    decreases |s|
  {
    if |s| > 0 && IsWhitespace(s[|s| - 1]) {
      TrimEndSpec(s[..|s| - 1]);
      var r := TrimEnd(s);
      assert s[..|s| - 1][..|r|] == s[..|r|];
      assert forall k :: |r| <= k < |s| - 1 ==> s[k] == s[..|s| - 1][k];
    }
  }

  /** `s.trim()`. */
  function Trim(s: string): (r: string)
  {
    TrimStart(TrimEnd(s))
  }

  /** The trimmed string is the middle of `s` left once the whitespace runs at both
      ends are removed: it starts and ends with a non-whitespace character, and
      everything cut off is whitespace. */
  lemma TrimSpec(s: string)
    ensures var r, lo := Trim(s), |TrimEnd(s)| - |Trim(s)|;
              && 0 <= lo <= lo + |r| <= |s| && r == s[lo..lo + |r|]
              && (forall k :: 0 <= k < lo ==> IsWhitespace(s[k]))
              && (forall k :: lo + |r| <= k < |s| ==> IsWhitespace(s[k]))
    ensures Trim(s) == [] || (!IsWhitespace(Trim(s)[0]) && !IsWhitespace(Trim(s)[|Trim(s)| - 1]))
  {
    var e := TrimEnd(s);
    var r := TrimStart(e);
    TrimEndSpec(s);
    TrimStartSpec(e);
    var lo := |e| - |r|;
    assert e == s[..|e|];
    assert r == e[lo..];
    assert lo + |r| == |e|;
    assert e[lo..] == s[lo..|e|];
    assert forall k :: 0 <= k < lo ==> s[k] == e[k];
    if r != [] {
      assert r[|r| - 1] == e[|e| - 1];
    }
  }

  /** Trimming is idempotent: a trimmed string is its own trim. */
  lemma TrimIdempotent(s: string)
    ensures Trim(Trim(s)) == Trim(s)
  {
    TrimSpec(s);
    var r := Trim(s);
    if r != [] {
      assert TrimEnd(r) == r;
      assert TrimStart(r) == r;
    } else {
      assert TrimEnd(r) == r;
    }
  }

  /** Trailing whitespace does not change the trim. */
  lemma TrimIgnoresTrailingWhitespace(s: string, c: char)
    requires IsWhitespace(c)
    ensures Trim(s + [c]) == Trim(s)
  {
    assert (s + [c])[..|s|] == s;
  }

  /** A string trims to nothing exactly when all of it is whitespace. */
  lemma TrimEmptyIffBlank(s: string)
    ensures Trim(s) == [] <==> forall k :: 0 <= k < |s| ==> IsWhitespace(s[k])
  {
    TrimSpec(s);
    if forall k :: 0 <= k < |s| ==> IsWhitespace(s[k]) {
      BlankTrimEndEmpty(s);
    }
  }

  lemma {:induction false} BlankTrimEndEmpty(s: string)
    requires forall k :: 0 <= k < |s| ==> IsWhitespace(s[k])
    ensures TrimEnd(s) == []
    decreases |s|
  {
    if |s| > 0 {
      BlankTrimEndEmpty(s[..|s| - 1]);
    }
  }

  // ---------------------------------------------------------------- split and join

  /** `s.split(c)` generalised to a set of single-character separators
      (`s.split(/[\n,]/)` is `Split(s, {'\n', ','})`).  As in JavaScript, the
      empty string splits into one empty piece and the pieces never contain a
      separator. */
  function Split(s: string, seps: set<char>): (r: seq<string>)
    ensures |r| >= 1
    decreases |s|
  {
    if |s| == 0 then [""]
    else
      var rest := Split(s[1..], seps);
      if s[0] in seps then [""] + rest
      else [[s[0]] + rest[0]] + rest[1..]
  }

  /** Every character of a piece is a character of the input and not a separator. */
  lemma {:induction false} SplitPieces(s: string, seps: set<char>)
    ensures forall i, k :: 0 <= i < |Split(s, seps)| && 0 <= k < |Split(s, seps)[i]| ==>
              Split(s, seps)[i][k] !in seps && Split(s, seps)[i][k] in s
    decreases |s|
  {
    if |s| > 0 {
      SplitPieces(s[1..], seps);
      var r, rest := Split(s, seps), Split(s[1..], seps);
      forall i, k | 0 <= i < |r| && 0 <= k < |r[i]|
        ensures r[i][k] !in seps && r[i][k] in s
      {
        var c := r[i][k];
        if s[0] !in seps && i == 0 && k == 0 {
          assert c == s[0];
        } else {
          var i', k' := if s[0] in seps then i - 1 else i, if s[0] !in seps && i == 0 then k - 1 else k;
          assert c == rest[i'][k'];
          assert c in s[1..];
          var m :| 0 <= m < |s[1..]| && s[1..][m] == c;
          assert s[m + 1] == c;
        }
      }
    }
  }

  /** Splitting at a separator splits the two sides independently. */
  lemma {:induction false} SplitConcat(a: string, c: char, b: string, seps: set<char>)
    requires c in seps
    ensures Split(a + [c] + b, seps) == Split(a, seps) + Split(b, seps)
    decreases |a|
  {
    if |a| == 0 {
      assert a + [c] + b == [c] + b;
      assert ([c] + b)[1..] == b;
    } else {
      assert (a + [c] + b)[1..] == a[1..] + [c] + b;
      SplitConcat(a[1..], c, b, seps);
    }
  }

  /** One unfolding of `Split` at a known first character. */
  lemma SplitCons(x: char, t: string, seps: set<char>)
    ensures Split([x] + t, seps) ==
            if x in seps then [""] + Split(t, seps)
            else [[x] + Split(t, seps)[0]] + Split(t, seps)[1..]
  {
    assert ([x] + t)[0] == x && ([x] + t)[1..] == t;
  }

  /** The piece list `ps` with `c` appended to its last piece. */
  function ExtendLast(ps: seq<string>, c: char): seq<string>
    requires |ps| >= 1
  {
    ps[..|ps| - 1] + [ps[|ps| - 1] + [c]]
  }

  /** Extending the last piece commutes with putting an empty piece in front. */
  lemma ExtendLastBlank(rest: seq<string>, c: char)
    requires |rest| >= 1
    ensures [""] + ExtendLast(rest, c) == ExtendLast([""] + rest, c)
  {
    var q := [""] + rest;
    assert q[..|q| - 1] == [""] + rest[..|rest| - 1];
  }

  /** Extending the last piece commutes with putting a character in front of the first. */
  lemma ExtendLastJoined(x: char, rest: seq<string>, c: char)
    requires |rest| >= 1
    ensures var r := ExtendLast(rest, c);
            [[x] + r[0]] + r[1..] == ExtendLast([[x] + rest[0]] + rest[1..], c)
  {
    var n := |rest|;
    var r := ExtendLast(rest, c);
    var q := [[x] + rest[0]] + rest[1..];
    if n == 1 {
      assert r == [rest[0] + [c]];
      assert [x] + (rest[0] + [c]) == ([x] + rest[0]) + [c];
    } else {
      assert r[0] == rest[0];
      assert r[1..] == rest[1..n - 1] + [rest[n - 1] + [c]];
      assert q[..|q| - 1] == [[x] + rest[0]] + rest[1..n - 1];
    }
  }

  /** Appending a non-separator extends the last piece. */
  lemma {:induction false} SplitSnoc(s: string, c: char, seps: set<char>)
    requires c !in seps
    ensures Split(s + [c], seps) == ExtendLast(Split(s, seps), c)
    decreases |s|
  {
    if |s| == 0 {
      SplitCons(c, "", seps);
      assert s + [c] == [c] + "";
    } else {
      var x, t := s[0], s[1..];
      assert s == [x] + t && s + [c] == [x] + (t + [c]);
      SplitSnoc(t, c, seps);
      SplitCons(x, t, seps);
      SplitCons(x, t + [c], seps);
      if x in seps {
        ExtendLastBlank(Split(t, seps), c);
      } else {
        ExtendLastJoined(x, Split(t, seps), c);
      }
    }
  }

  /** A string free of separators is a single piece. */
  lemma {:induction false} SplitNoSeparator(s: string, seps: set<char>)
    requires forall k :: 0 <= k < |s| ==> s[k] !in seps
    ensures Split(s, seps) == [s]
    decreases |s|
  {
    if |s| > 0 {
      SplitNoSeparator(s[1..], seps);
      assert [s[0]] + s[1..] == s;
    }
  }

  /** `parts.join(sep)`. */
  function Join(parts: seq<string>, sep: char): string
  {
    if |parts| == 0 then ""
    else if |parts| == 1 then parts[0]
    else parts[0] + [sep] + Join(parts[1..], sep)
  }

  predicate FreeOf(s: string, c: char) {
    forall k :: 0 <= k < |s| ==> s[k] != c
  }

  /** A join holds a character only if a part or the separator does. */
  lemma {:induction false} JoinFreeOf(parts: seq<string>, sep: char, c: char)
    requires sep != c
    requires forall i :: 0 <= i < |parts| ==> FreeOf(parts[i], c)
    ensures FreeOf(Join(parts, sep), c)
    decreases |parts|
  {
    if |parts| > 1 {
      JoinFreeOf(parts[1..], sep, c);
      var j := Join(parts[1..], sep);
      var w := parts[0] + [sep] + j;
      forall k | 0 <= k < |w| ensures w[k] != c {
        if k > |parts[0]| {
          assert w[k] == j[k - |parts[0]| - 1];
        }
      }
    }
  }

  /** Splitting a join gives back the parts when no part holds the separator. */
  lemma {:induction false} SplitJoin(parts: seq<string>, sep: char)
    requires |parts| >= 1
    requires forall i :: 0 <= i < |parts| ==> FreeOf(parts[i], sep)
    ensures Split(Join(parts, sep), {sep}) == parts
    decreases |parts|
  {
    if |parts| == 1 {
      SplitNoSeparator(parts[0], {sep});
    } else {
      SplitJoin(parts[1..], sep);
      SplitNoSeparator(parts[0], {sep});
      SplitConcat(parts[0], sep, Join(parts[1..], sep), {sep});
      assert [parts[0]] + parts[1..] == parts;
    }
  }

  /** Putting a character in front of the first part puts it in front of the join. */
  lemma JoinExtendFirst(c: char, parts: seq<string>, sep: char)
    requires |parts| >= 1
    ensures Join([[c] + parts[0]] + parts[1..], sep) == [c] + Join(parts, sep)
  {
    var p := [[c] + parts[0]] + parts[1..];
    assert p[0] == [c] + parts[0] && p[1..] == parts[1..];
    if |parts| > 1 {
      assert Join(parts, sep) == parts[0] + [sep] + Join(parts[1..], sep);
    }
  }

  /** Joining the pieces of a split at one separator gives back the string. */
  lemma {:induction false} JoinSplit(s: string, sep: char)
    ensures Join(Split(s, {sep}), sep) == s
    decreases |s|
  {
    if |s| > 0 {
      var rest := Split(s[1..], {sep});
      JoinSplit(s[1..], sep);
      if s[0] == sep {
        var p := [""] + rest;
        assert p[0] == "" && p[1..] == rest;
        assert Join(p, sep) == "" + [sep] + Join(rest, sep);
      } else {
        JoinExtendFirst(s[0], rest, sep);
      }
      assert [s[0]] + s[1..] == s;
    }
  }
}
