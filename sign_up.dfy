/** The sign-up form (src/pages/Auth/SignUp.tsx): a password-length gate in front of the
    session's `signup`. */
module SignUp {
  import opened Wrappers
  import opened Auth

  /** The shortest password the form accepts. */
  const MinPasswordLength: nat := 6

  const ShortPasswordError: string := "Password must be at least 6 characters"

  class Form {
    const session: Session
    var name: string
    var email: string
    var password: string
    var error: string

    /** The empty form. */
    constructor (session: Session)
      ensures this.session == session
      ensures name == [] && email == [] && password == [] && error == []
    {
      this.session := session;
      name := [];
      email := [];
      password := [];
      error := [];
    }

    /** `handleSubmit`: clear the error; a short password sets it and stops; otherwise
        sign up and go to the dashboard.  `now` stands for the signup's `Date.now()`. */
    method HandleSubmit(now: string) returns (navigated: bool)
      modifies this, session
      ensures name == old(name) && email == old(email) && password == old(password)
      ensures navigated <==> |password| >= MinPasswordLength
      ensures !navigated ==>
                && error == ShortPasswordError
                && session.user == old(session.user) && session.stored == old(session.stored)
                && session.isLoading == old(session.isLoading)
      ensures navigated ==>
                && error == []
                && session.user == Some(NewUser(name, email, now)) && session.stored == Holds(NewUser(name, email, now))
                && !session.isLoading
    {
      error := [];
      if |password| < MinPasswordLength {
        error := ShortPasswordError;
        return false;
      }
      session.Signup(name, email, password, now);
      navigated := true;
    }

    /** The submit button's `disabled` condition. */
    predicate SubmitDisabled()
      reads this, session
    {
      session.isLoading || name == [] || email == [] || password == []
    }
  }
}
