/** The demo data and the mock classifier (src/data/mockData.ts).
    The classifier's `Math.random()` fallback and its per-result `new Date()` are an
    oracle: for the `i`-th email the caller supplies a `Draw` saying which of the
    random outcomes happened, with which score, at which time. */
module MockData {
  import opened Wrappers
  import opened Strings
  import opened Types

  // ---------------------------------------------------------------- seed values

  /** `mockUser`, the account the demo credentials log into. */
  const MockUser: User := User("user-1", "John Doe", "john.doe@example.com", UserCredits(85, 15, 100), None)

  /** `mockVerificationResults`; `loadTime` is `new Date().toISOString()` at module load. */
  function MockVerificationResults(loadTime: string): seq<VerificationResult> {
    [ VerificationResult("valid@gmail.com", Valid, Some("personal"), None, Some(Score("0.98")), loadTime),
      VerificationResult("disposable@tempmail.com", Disposable, Some("temporary"), None, Some(Score("0.99")), loadTime),
      VerificationResult("risky@example.com", Risky, Some("catch-all"), None, Some(Score("0.7")), loadTime),
      VerificationResult("invalid@nonexistentdomain123456.com", Invalid, Some("domain-error"), None, Some(Score("0.05")), loadTime),
      VerificationResult("typo@gmal.com", Invalid, None, Some("typo@gmail.com"), Some(Score("0.3")), loadTime) ]
  }

  /** `mockRecentBatches`; `id1` and `id2` are the two `uuidv4()` values. */
  function MockRecentBatches(id1: string, id2: string, loadTime: string): seq<VerificationBatch> {
    var results := MockVerificationResults(loadTime);
    [ VerificationBatch(id1, "Marketing Campaign Q2", 150, 120, 15, 10, 5, 0, "2023-06-15T10:30:00Z", results),
      VerificationBatch(id2, "Newsletter Subscribers", 75, 65, 5, 3, 2, 0, "2023-06-10T08:15:00Z", results[..3]) ]
  }

  /** The seed batches keep the counts invariant, but their totals (150 and 75) are not
      the number of results they hold (5 and 3): `total == |results|` is a property of
      freshly built batches only, never of the whole history. */
  lemma SeedBatches(id1: string, id2: string, loadTime: string)
    ensures var seeds := MockRecentBatches(id1, id2, loadTime);
            && |seeds| == 2
            && (forall i :: 0 <= i < |seeds| ==> CountsAddUp(seeds[i]))
            && seeds[0].total == 150 && |seeds[0].results| == 5
            && seeds[1].total == 75 && |seeds[1].results| == 3
            && (forall i :: 0 <= i < |seeds| ==> !CountsMatchResults(seeds[i]))
  {
  }

  // ---------------------------------------------------------------- the classifier

  /** Which branch of the random fallback was taken. */
  datatype Pick = ValidPersonal | ValidBusiness | DomainError | Temporary | RoleBased

  /** What the classifier's environment supplies for one email: the fallback branch,
      the random score of that branch, and the result's timestamp. */
  datatype Draw = Draw(pick: Pick, score: Score, timestamp: string)

  /** The settled classifier promise: resolved (with the oracle for email `i`) or rejected. */
  datatype Reply = Resolved(draw: nat -> Draw) | Rejected

  /** The random fallback.  The probability split (70/10/10/10) is not modelled. */
  function Fallback(email: string, d: Draw): (r: VerificationResult)
    ensures r.status in {Valid, Invalid, Disposable, Risky}
  {
    match d.pick
    case ValidPersonal => VerificationResult(email, Valid, Some("personal"), None, Some(d.score), d.timestamp)
    case ValidBusiness => VerificationResult(email, Valid, Some("business"), None, Some(d.score), d.timestamp)
    case DomainError => VerificationResult(email, Invalid, Some("domain-error"), None, Some(d.score), d.timestamp)
    case Temporary => VerificationResult(email, Disposable, Some("temporary"), None, Some(Score("0.9")), d.timestamp)
    case RoleBased => VerificationResult(email, Risky, Some("role-based"), None, Some(d.score), d.timestamp)
  }

  /** The body of the `emails.map(...)` callback: an ordered, first-match chain of
      substring tests on the raw address. */
  function Classify(email: string, d: Draw): (r: VerificationResult)
    ensures r.email == email && r.timestamp == d.timestamp
    ensures r.status != Unknown && r.score.Some?
  {
    if Contains(email, "valid") || Contains(email, "real") then
      VerificationResult(email, Valid, Some("personal"), None, Some(Score("0.95")), d.timestamp)
    else if Contains(email, "disposable") || Contains(email, "temp") then
      VerificationResult(email, Disposable, Some("temporary"), None, Some(Score("0.98")), d.timestamp)
    else if Contains(email, "risky") || Contains(email, "catch") then
      VerificationResult(email, Risky, Some("catch-all"), None, Some(Score("0.7")), d.timestamp)
    else if Contains(email, "invalid") || !Contains(email, "@") then
      VerificationResult(email, Invalid, Some("syntax-error"), None, Some(Score("0.1")), d.timestamp)
    else if Contains(email, "typo") || Contains(email, "gmal") then
      VerificationResult(email, Invalid, Some("typo"), Some(ReplaceFirst(email, "gmal", "gmail")), Some(Score("0.4")), d.timestamp)
    else
      Fallback(email, d)
  }

  /** `mockVerifyEmails(emails)` once its promise resolves: one result per email, in
      input order, duplicates and malformed entries included. */
  function MockVerifyEmails(emails: seq<string>, draw: nat -> Draw): (r: seq<VerificationResult>)
    ensures |r| == |emails|
    ensures forall i :: 0 <= i < |r| ==> r[i].email == emails[i] && r[i].status != Unknown
  {
    var r := seq(|emails|, i requires 0 <= i < |emails| => Classify(emails[i], draw(i)));
    assert forall i :: 0 <= i < |r| ==> r[i] == Classify(emails[i], draw(i));
    r
  }

  /** No classifier branch yields `unknown`, so the count of unknown results is zero. */
  lemma NoUnknownResults(emails: seq<string>, draw: nat -> Draw)
    ensures CountStatus(MockVerifyEmails(emails, draw), Unknown) == 0
  {
    CountZeroIffAbsent(MockVerifyEmails(emails, draw), Unknown);
  }

  // ---------------------------------------------------------------- the rule table

  /** A classifier rule as data: it fires when the address contains one of `keywords`
      (or, when `orNoAt`, lacks an '@'), and then gives `status`, `kind` and `score`;
      a rule with `suggests` also offers the address with "gmal" corrected. */
  datatype Rule = Rule(keywords: seq<string>, orNoAt: bool, status: Status, kind: string, score: string, suggests: bool)

  /** The rules in the order they are tried. */
  const Rules: seq<Rule> := [
    Rule(["valid", "real"], false, Valid, "personal", "0.95", false),
    Rule(["disposable", "temp"], false, Disposable, "temporary", "0.98", false),
    Rule(["risky", "catch"], false, Risky, "catch-all", "0.7", false),
    Rule(["invalid"], true, Invalid, "syntax-error", "0.1", false),
    Rule(["typo", "gmal"], false, Invalid, "typo", "0.4", true)
  ]

  predicate ContainsAny(email: string, keywords: seq<string>) {
    exists k :: 0 <= k < |keywords| && Contains(email, keywords[k])
  }

  predicate Fires(rule: Rule, email: string) {
    ContainsAny(email, rule.keywords) || (rule.orNoAt && !Contains(email, "@"))
  }

  /** Index of the first rule that fires. */
  function FirstRule(rules: seq<Rule>, email: string): (r: Option<nat>)
    ensures r.Some? ==> r.value < |rules| && Fires(rules[r.value], email)
    ensures r.Some? ==> forall j :: 0 <= j < r.value ==> !Fires(rules[j], email)
    ensures r.None? ==> forall j :: 0 <= j < |rules| ==> !Fires(rules[j], email)
  {
    if rules == [] then None
    else if Fires(rules[0], email) then Some(0)
    else match FirstRule(rules[1..], email)
      case None => None
      case Some(i) => Some(i + 1)
  }

  function Apply(rule: Rule, email: string, timestamp: string): VerificationResult {
    VerificationResult(email, rule.status, Some(rule.kind),
                       if rule.suggests then Some(ReplaceFirst(email, "gmal", "gmail")) else None,
                       Some(Score(rule.score)), timestamp)
  }

  /** The classification the rule table prescribes: the first rule that fires,
      otherwise the random fallback. */
  function ByRuleTable(email: string, d: Draw): VerificationResult {
    match FirstRule(Rules, email)
    case Some(i) => Apply(Rules[i], email, d.timestamp)
    case None => Fallback(email, d)
  }

  /** The if/else chain is exactly the first-match evaluation of the rule table. */
  lemma ClassifyFollowsRuleTable(email: string, d: Draw)
    ensures Classify(email, d) == ByRuleTable(email, d)
  {
    var r0, r1, r2, r3, r4 := Rules[0], Rules[1], Rules[2], Rules[3], Rules[4];
    assert Fires(r0, email) <==> Contains(email, "valid") || Contains(email, "real") by {
      assert r0.keywords[0] == "valid" && r0.keywords[1] == "real";
    }
    assert Fires(r1, email) <==> Contains(email, "disposable") || Contains(email, "temp") by {
      assert r1.keywords[0] == "disposable" && r1.keywords[1] == "temp";
    }
    assert Fires(r2, email) <==> Contains(email, "risky") || Contains(email, "catch") by {
      assert r2.keywords[0] == "risky" && r2.keywords[1] == "catch";
    }
    assert Fires(r3, email) <==> Contains(email, "invalid") || !Contains(email, "@") by {
      assert r3.keywords[0] == "invalid";
    }
    assert Fires(r4, email) <==> Contains(email, "typo") || Contains(email, "gmal") by {
      assert r4.keywords[0] == "typo" && r4.keywords[1] == "gmal";
    }
  }

  // ---------------------------------------------------------------- consequences of the chain

  /** The dead test: "invalid" contains "valid", so any address containing "invalid" is
      taken by the first rule and classified valid/personal. */
  lemma InvalidKeywordClassifiedValid(email: string, d: Draw)
    requires Contains(email, "invalid")
    ensures Classify(email, d).status == Valid && Classify(email, d).kind == Some("personal")
  {
    ContainsPiece(email, "invalid", 2, 7);
    assert "invalid"[2..7] == "valid";
  }

  /** Keywords of the first three rules. */
  predicate EarlierKeyword(email: string) {
    || Contains(email, "valid") || Contains(email, "real")
    || Contains(email, "disposable") || Contains(email, "temp")
    || Contains(email, "risky") || Contains(email, "catch")
  }

  /** Consequently the syntax-error branch is reached exactly when the address lacks
      an '@' and none of the earlier keywords occurs. */
  lemma SyntaxErrorIffNoAt(email: string, d: Draw)
    ensures Classify(email, d).kind == Some("syntax-error") <==> !EarlierKeyword(email) && !Contains(email, "@")
  {
    if Contains(email, "invalid") {
      InvalidKeywordClassifiedValid(email, d);
    }
  }

  /** A suggestion is made only in the typo branch, and there it is the address with
      its first "gmal" replaced by "gmail". */
  lemma SuggestionOnlyForTypos(email: string, d: Draw)
    ensures var r := Classify(email, d);
            && (r.suggestion.Some? <==> r.kind == Some("typo"))
            && (r.kind == Some("typo") ==> r.status == Invalid && r.suggestion == Some(ReplaceFirst(email, "gmal", "gmail")))
            && (r.kind == Some("typo") <==>
                 !EarlierKeyword(email) && Contains(email, "@") && (Contains(email, "typo") || Contains(email, "gmal")))
  {
    if Contains(email, "invalid") {
      InvalidKeywordClassifiedValid(email, d);
    }
  }

  /** Keywords of all five rules. */
  predicate AnyKeyword(email: string) {
    EarlierKeyword(email) || Contains(email, "invalid") || Contains(email, "typo") || Contains(email, "gmal")
  }

  /** The random draw matters only for an address with an '@' and no keyword; there the
      result is one of valid, invalid, disposable or risky, as the draw says. */
  lemma FallbackOnlyWithoutKeywords(email: string, d1: Draw, d2: Draw)
    requires d1.timestamp == d2.timestamp
    ensures AnyKeyword(email) || !Contains(email, "@") ==> Classify(email, d1) == Classify(email, d2)
    ensures !AnyKeyword(email) && Contains(email, "@") ==>
              Classify(email, d1) == Fallback(email, d1)
              && Classify(email, d1).status in {Valid, Invalid, Disposable, Risky}
              && (Classify(email, d1).status == Valid <==> d1.pick in {ValidPersonal, ValidBusiness})
  {
  }

  /** An address with an '@', a "gmal" and no earlier keyword takes the typo branch. */
  lemma TypoBranch(email: string, d: Draw)
    requires !EarlierKeyword(email) && !Contains(email, "invalid")
    requires Contains(email, "@") && Contains(email, "gmal")
    ensures Classify(email, d).status == Invalid
    ensures Classify(email, d).suggestion == Some(ReplaceFirst(email, "gmal", "gmail"))
  {
  }

  /** "user@gmal.com" is classified invalid with the suggestion "user@gmail.com". */
  lemma TypoExample(d: Draw)
    ensures Classify("user@gmal.com", d).status == Invalid
    ensures Classify("user@gmal.com", d).suggestion == Some("user@gmail.com")
  {
    ExampleKeywords("user@gmal.com");
    ExampleGmalAt5("user@gmal.com");
    TypoBranch("user@gmal.com", d);
  }

  /** Which keywords "user@gmal.com" contains. */
  lemma ExampleKeywords(e: string)
    requires e == "user@gmal.com"
    ensures !EarlierKeyword(e) && !Contains(e, "invalid")
    ensures Contains(e, "@") && Contains(e, "gmal")
  {
    ExampleLacksLetters(e);
    ExampleLacksReal(e);
    ExampleHasAtAndGmal(e);
  }

  /** Each of these keywords has a letter "user@gmal.com" lacks. */
  lemma ExampleLacksLetters(e: string)
    requires e == "user@gmal.com"
    ensures !Contains(e, "valid") && !Contains(e, "disposable") && !Contains(e, "temp")
    ensures !Contains(e, "risky") && !Contains(e, "catch") && !Contains(e, "invalid")
  {
    ExampleLacksFirstLetters(e);
    ExampleLacksLaterLetters(e);
  }

  /** "user@gmal.com" has no 'v', 'd' or 't'. */
  lemma ExampleLacksFirstLetters(e: string)
    requires e == "user@gmal.com"
    ensures !Contains(e, "valid") && !Contains(e, "disposable") && !Contains(e, "temp")
  {
    assert 'v' !in e && 'd' !in e && 't' !in e;
    MissingCharExcludes(e, "valid", 0);
    MissingCharExcludes(e, "disposable", 0);
    MissingCharExcludes(e, "temp", 0);
  }

  /** "user@gmal.com" has no 'k', 'h' or 'i'. */
  lemma ExampleLacksLaterLetters(e: string)
    requires e == "user@gmal.com"
    ensures !Contains(e, "risky") && !Contains(e, "catch") && !Contains(e, "invalid")
  {
    assert 'k' !in e && 'h' !in e && 'i' !in e;
    MissingCharExcludes(e, "risky", 3);
    MissingCharExcludes(e, "catch", 4);
    MissingCharExcludes(e, "invalid", 0);
  }

  lemma ExampleHasAtAndGmal(e: string)
    requires e == "user@gmal.com"
    ensures Contains(e, "@") && Contains(e, "gmal")
  {
    assert OccursAt(e, "@", 4);
    ContainsIffOccurs(e, "@");
    assert OccursAt(e, "gmal", 5);
    ContainsIffOccurs(e, "gmal");
  }

  /** The only 'r' of "user@gmal.com" is followed by '@', so "real" does not occur. */
  lemma ExampleLacksReal(e: string)
    requires e == "user@gmal.com"
    ensures !Contains(e, "real")
  {
    ContainsIffOccurs(e, "real");
    forall i | 0 <= i && i + 4 <= |e| ensures !OccursAt(e, "real", i) {
      if i == 3 {
        assert e[i + 1] == '@';
        assert e[i..i + 4][1] == e[i + 1];
      } else {
        assert e[i] != 'r';
        assert e[i..i + 4][0] == e[i];
      }
    }
  }

  /** The first "gmal" of "user@gmal.com" starts at index 5, so the suggestion is "user@gmail.com". */
  lemma ExampleGmalAt5(e: string)
    requires e == "user@gmal.com"
    ensures IndexOf(e, "gmal") == Some(5)
    ensures ReplaceFirst(e, "gmal", "gmail") == "user@gmail.com"
  {
    ExampleFirstGmal(e);
    assert e[..5] + "gmail" + e[9..] == "user@gmail.com";
  }

  /** The first "gmal" of "user@gmal.com" starts at index 5. */
  lemma ExampleFirstGmal(e: string)
    requires e == "user@gmal.com"
    ensures IndexOf(e, "gmal") == Some(5)
  {
    assert e[5..9] == "gmal";
    assert OccursAt(e, "gmal", 5);
    ContainsIffOccurs(e, "gmal");
    forall j | 0 <= j < 5 ensures !OccursAt(e, "gmal", j) {
      assert e[j] != 'g';
      assert e[j..j + 4][0] == e[j];
    }
  }

}
