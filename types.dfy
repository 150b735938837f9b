/** The records the application passes around (src/types/index.ts). */
module Types {
  import opened Wrappers

  /** `EmailVerificationStatus`. */
  datatype Status = Valid | Invalid | Risky | Disposable | Unknown

  /** The text a status is written as (`'valid'`, `'invalid'`, ...). */
  function StatusText(s: Status): string {
    match s
    case Valid => "valid"
    case Invalid => "invalid"
    case Risky => "risky"
    case Disposable => "disposable"
    case Unknown => "unknown"
  }

  /** A confidence score.  The source holds a floating-point number; the model keeps
      only the text its `toString()` produces. */
  datatype Score = Score(text: string)

  /** `EmailVerificationResult`; the source's optional field `type` is `kind` here. */
  datatype VerificationResult = VerificationResult(
    email: string,
    status: Status,
    kind: Option<string>,
    suggestion: Option<string>,
    score: Option<Score>,
    timestamp: string)

  /** `VerificationBatch`. */
  datatype VerificationBatch = VerificationBatch(
    id: string,
    name: string,
    total: int,
    valid: int,
    invalid: int,
    risky: int,
    disposable: int,
    unknown: int,
    timestamp: string,
    results: seq<VerificationResult>)

  /** `UserCredits`. */
  datatype UserCredits = UserCredits(available: int, used: int, planLimit: int)

  /** `User`; the optional `isAdmin` flag is carried but, as in the source, never read. */
  datatype User = User(id: string, name: string, email: string, credits: UserCredits, isAdmin: Option<bool>)

  /** Number of results with status `s` (`results.filter(r => r.status === s).length`). */
  function CountStatus(results: seq<VerificationResult>, s: Status): (n: nat)
    ensures n <= |results|
  {
    if results == [] then 0
    else CountStatus(results[..|results| - 1], s) + (if results[|results| - 1].status == s then 1 else 0)
  }

  /** The five status counts add up to the number of results. */
  lemma {:induction false} CountsPartition(results: seq<VerificationResult>)
    ensures CountStatus(results, Valid) + CountStatus(results, Invalid) + CountStatus(results, Risky)
            + CountStatus(results, Disposable) + CountStatus(results, Unknown) == |results|
  {
    if results != [] {
      CountsPartition(results[..|results| - 1]);
    }
  }

  /** A status count is zero exactly when no result has that status. */
  lemma {:induction false} CountZeroIffAbsent(results: seq<VerificationResult>, s: Status)
    ensures CountStatus(results, s) == 0 <==> forall i :: 0 <= i < |results| ==> results[i].status != s
  {
    if results != [] {
      CountZeroIffAbsent(results[..|results| - 1], s);
    }
  }

  /** Counting distributes over concatenation. */
  lemma {:induction false} CountConcat(a: seq<VerificationResult>, b: seq<VerificationResult>, s: Status)
    ensures CountStatus(a + b, s) == CountStatus(a, s) + CountStatus(b, s)
    decreases |b|
  {
    if b == [] {
      assert a + b == a;
    } else {
      assert (a + b)[..|a + b| - 1] == a + b[..|b| - 1];
      CountConcat(a, b[..|b| - 1], s);
    }
  }

  /** The batch invariant: the total is the sum of the five per-status counts. */
  predicate CountsAddUp(b: VerificationBatch) {
    b.total == b.valid + b.invalid + b.risky + b.disposable + b.unknown
  }

  /** The counts a batch built from `results` carries are those of its results. */
  predicate CountsMatchResults(b: VerificationBatch) {
    && b.total == |b.results|
    && b.valid == CountStatus(b.results, Valid)
    && b.invalid == CountStatus(b.results, Invalid)
    && b.risky == CountStatus(b.results, Risky)
    && b.disposable == CountStatus(b.results, Disposable)
    && b.unknown == CountStatus(b.results, Unknown)
  }
}
