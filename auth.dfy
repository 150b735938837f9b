/** The session and credit ledger (src/contexts/AuthContext.tsx): who is logged in,
    whether a session operation is in flight, and the record kept in browser storage. */
module Auth {
  import opened Wrappers
  import opened Types
  import MockData

  /** What browser storage holds under the session key: nothing, a user record, or text
      that does not parse as one. */
  datatype Storage = Empty | Holds(user: User) | Corrupt

  /** The one credential pair `login` accepts. */
  const DemoEmail: string := "demo@example.com"
  const DemoPassword: string := "password"

  /** The credit record after spending `n` credits: the balance goes down by `n` but is
      clamped at zero, and the spent counter goes up by exactly `n`. */
  function Debit(c: UserCredits, n: int): (r: UserCredits)
    ensures r.available >= 0 && r.available >= c.available - n
    ensures r.available == 0 || r.available == c.available - n
    ensures r.used == c.used + n && r.planLimit == c.planLimit
  {
    UserCredits(if c.available - n > 0 then c.available - n else 0, c.used + n, c.planLimit)
  }

  /** The user record after spending `n` credits; only the credits change. */
  function DebitUser(u: User, n: int): (r: User)
    ensures r.id == u.id && r.name == u.name && r.email == u.email && r.isAdmin == u.isAdmin
    ensures r.credits == Debit(u.credits, n)
  {
    u.(credits := Debit(u.credits, n))
  }

  /** The record `signup` creates: the demo user's credits and flags under a new id and
      the given name and address. */
  function NewUser(name: string, email: string, now: string): (r: User)
    ensures r.name == name && r.email == email && r.id == "user-" + now
    ensures r.credits == MockData.MockUser.credits && r.isAdmin == MockData.MockUser.isAdmin
  {
    MockData.MockUser.(id := "user-" + now, name := name, email := email)
  }

  class Session {
    var user: Option<User>
    var isLoading: bool
    var stored: Storage

    /** The stored record is the in-memory user whenever someone is logged in. */
    predicate Synced()
      reads this
    {
      user.Some? ==> stored == Holds(user.value)
    }

    /** `isAuthenticated`. */
    predicate IsAuthenticated()
      reads this
    {
      user.Some?
    }

    /** The provider's initial state, before the restore effect has run. */
    constructor (storage: Storage)
      ensures user == None && isLoading && stored == storage
      ensures Synced()
    {
      user := None;
      isLoading := true;
      stored := storage;
    }

    /** The mount effect: adopt a stored record that parses; an absent or corrupt one
        leaves the user as it is.  Loading ends either way. */
    method RestoreSession()
      modifies this
      ensures stored == old(stored) && !isLoading
      ensures old(stored).Holds? ==> user == Some(old(stored).user)
      ensures !old(stored).Holds? ==> user == old(user)
      ensures old(Synced()) ==> Synced()
    {
      match stored {
        case Holds(u) =>
          user := Some(u);
        case Empty =>
        case Corrupt =>
      }
      isLoading := false;
    }

    /** `login`: only the demo credentials succeed; a failure (the rejected promise) leaves
        the session as it was.  Loading ends either way. */
    method Login(email: string, password: string) returns (ok: bool)
      modifies this
      ensures ok <==> email == DemoEmail && password == DemoPassword
      ensures ok ==> user == Some(MockData.MockUser) && stored == Holds(MockData.MockUser)
      ensures !ok ==> user == old(user) && stored == old(stored)
      ensures !isLoading
      ensures old(Synced()) ==> Synced()
    {
      isLoading := true;
      if email == DemoEmail && password == DemoPassword {
        user := Some(MockData.MockUser);
        stored := Holds(MockData.MockUser);
        ok := true;
      } else {
        ok := false;
      }
      isLoading := false;
    }

    /** `signup`: always succeeds with a fresh record; `now` stands for `Date.now()`.
        The password is not looked at. */
    method Signup(name: string, email: string, password: string, now: string)
      modifies this
      ensures user == Some(NewUser(name, email, now)) && stored == Holds(NewUser(name, email, now))
      ensures !isLoading
      ensures Synced()
    {
      isLoading := true;
      var newUser := NewUser(name, email, now);
      user := Some(newUser);
      stored := Holds(newUser);
      isLoading := false;
    }

    /** `logout`: forget the user and remove the stored record. */
    method Logout()
      modifies this
      ensures user == None && stored == Empty && isLoading == old(isLoading)
      ensures Synced()
    {
      user := None;
      stored := Empty;
    }

    /** `updateUserCredits(creditsUsed)`: a no-op without a user; otherwise debit and store.
        There is no admin check here. */
    method UpdateUserCredits(creditsUsed: int)
      modifies this
      ensures old(user).None? ==> user == old(user) && stored == old(stored)
      ensures old(user).Some? ==>
                user == Some(DebitUser(old(user).value, creditsUsed)) && stored == Holds(user.value)
      ensures isLoading == old(isLoading)
      ensures old(Synced()) ==> Synced()
    {
      if user.None? {
        return;
      }
      var updatedUser := DebitUser(user.value, creditsUsed);
      user := Some(updatedUser);
      stored := Holds(updatedUser);
    }
  }

  // ---------------------------------------------------------------- properties

  /** When the balance covers the charge, the debit is exact and no credit is lost:
      available plus used is conserved. */
  lemma DebitExact(c: UserCredits, n: int)
    requires 0 <= n <= c.available
    ensures Debit(c, n).available == c.available - n
    ensures Debit(c, n).available + Debit(c, n).used == c.available + c.used
  {
  }

  /** Two debits in a row, the second non-negative, are one debit of the sum. */
  lemma DebitTwice(c: UserCredits, a: int, b: int)
    requires b >= 0
    ensures Debit(Debit(c, a), b) == Debit(c, a + b)
  {
  }

  /** An overdraft is clamped: the balance becomes zero, yet `used` still grows by the
      whole charge, so available plus used grows. */
  lemma DebitOverdraft(c: UserCredits, n: int)
    requires c.available >= 0 && n > c.available
    ensures Debit(c, n).available == 0
    ensures Debit(c, n).available + Debit(c, n).used == c.used + n > c.available + c.used
  {
  }

  /** The logged-in demo user is John Doe with 85 of 100 credits left. */
  lemma DemoUser()
    ensures MockData.MockUser.email == "john.doe@example.com"
    ensures MockData.MockUser.credits == UserCredits(85, 15, 100)
  {
  }
}
