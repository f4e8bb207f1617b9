/**
 * The sign-up form (pages/auth/SignupPage.tsx): the password rule and the
 * order of the checks made on submission.
 */
module SignupPage {
  import opened Wrappers
  import opened Types
  import MockApi
  import Session

  // ---------------------------------------------------------------- the password rule

  predicate IsLetter(c: char) { 'A' <= c <= 'Z' || 'a' <= c <= 'z' }
  predicate IsDigit(c: char) { '0' <= c <= '9' }
  predicate IsSpecial(c: char) { c in "@$!%*#?&" }
  predicate IsAllowed(c: char) { IsLetter(c) || IsDigit(c) || IsSpecial(c) }

  /**
   * What the pattern `^(?=.*[A-Za-z])(?=.*\d)(?=.*[@$!%*#?&])[A-Za-z\d@$!%*#?&]{8,}$`
   * accepts, stated declaratively: at least eight characters, each a letter, a
   * digit or one of `@$!%*#?&`, with at least one of each kind.
   */
  ghost predicate StrongPassword(pw: string) {
    && |pw| >= 8
    && (exists i :: 0 <= i < |pw| && IsLetter(pw[i]))
    && (exists i :: 0 <= i < |pw| && IsDigit(pw[i]))
    && (exists i :: 0 <= i < |pw| && IsSpecial(pw[i]))
    && (forall i :: 0 <= i < |pw| ==> IsAllowed(pw[i]))
  }

  /** What one pass over a password has seen so far. */
  datatype Seen = Seen(letter: bool, digit: bool, special: bool, allAllowed: bool)

  /** A single pass over the password, recording each character class it meets. */
  function Scan(pw: string): (s: Seen)
    ensures s.letter <==> exists i :: 0 <= i < |pw| && IsLetter(pw[i])
    ensures s.digit <==> exists i :: 0 <= i < |pw| && IsDigit(pw[i])
    ensures s.special <==> exists i :: 0 <= i < |pw| && IsSpecial(pw[i])
    ensures s.allAllowed <==> forall i :: 0 <= i < |pw| ==> IsAllowed(pw[i])
    decreases |pw|
  {
    if pw == [] then Seen(false, false, false, true)
    else
      var rest := Scan(pw[1..]);
      var c := pw[0];
      assert forall i :: 0 < i < |pw| ==> pw[i] == pw[1..][i - 1];
      assert forall i :: 0 <= i < |pw[1..]| ==> pw[1..][i] == pw[i + 1];
      Seen(rest.letter || IsLetter(c), rest.digit || IsDigit(c), rest.special || IsSpecial(c),
           rest.allAllowed && IsAllowed(c))
  }

  /** `validatePassword`: the regular expression's test, accepting exactly the strong passwords. */
  function ValidatePassword(pw: string): (ok: bool)
    ensures ok <==> StrongPassword(pw)
  {
    var s := Scan(pw);
    |pw| >= 8 && s.letter && s.digit && s.special && s.allAllowed
  }

  /** A space, or any symbol outside `@$!%*#?&`, makes a password fail. */
  lemma RejectsOtherCharacters(pw: string, i: nat)
    requires i < |pw| && !IsAllowed(pw[i])
    ensures !ValidatePassword(pw)
  {
  }

  /** Seven characters are never enough, however varied. */
  lemma RejectsShort(pw: string)
    requires |pw| < 8
    ensures !ValidatePassword(pw)
  {
  }

  // ---------------------------------------------------------------- submission

  const MismatchMessage := "Passwords do not match."
  const WeakPasswordMessage := "Password must be at least 8 characters long, with one number and one special character."

  /** The page's own state: the error line, the busy flag, and where it navigated to. */
  class SignupForm {
    var error: string
    var loading: bool
    var navigatedTo: Option<string>

    constructor ()
      ensures error == "" && !loading && navigatedTo == None
    {
      error := "";
      loading := false;
      navigatedTo := None;
    }

    /**
     * `handleSubmit`: a mismatch is reported first, then a weak password; only
     * when both checks pass does the session sign up, after which the page
     * goes to the dashboard or shows the store's error message.
     */
    method HandleSubmit(auth: Session.AuthProvider, api: MockApi.Store,
                        name: string, email: string, password: string, confirmPassword: string,
                        idStamp: nat, now: int)
      requires auth.Valid() && api.Valid()
      modifies this, auth, api
      ensures auth.Valid() && api.Valid()
      ensures loading == (old(loading) && (password != confirmPassword || !ValidatePassword(password)))
      ensures password != confirmPassword ==>
        error == MismatchMessage && navigatedTo == old(navigatedTo) && unchanged(auth) && unchanged(api)
      ensures password == confirmPassword && !ValidatePassword(password) ==>
        error == WeakPasswordMessage && navigatedTo == old(navigatedTo) && unchanged(auth) && unchanged(api)
      ensures password == confirmPassword && ValidatePassword(password) ==>
        var res := MockApi.SignupResult(old(api.users), name, email, idStamp, now);
        && api.users == MockApi.UsersAfterSignup(old(api.users), res)
        && api.courses == old(api.courses) && api.feedback == old(api.feedback)
        && auth.loading == old(auth.loading)
        && match res
           case Success(p) =>
             && error == "" && navigatedTo == Some("/dashboard") && auth.user == Some(p.user)
             && auth.storage == Session.Stored(old(auth.storage), p.token, p.user.id)
           case Failure(e) =>
             && error == MockApi.ErrorMessage(e) && navigatedTo == old(navigatedTo)
             && auth.user == old(auth.user) && auth.storage == old(auth.storage)
    {
      error := "";
      if password != confirmPassword {
        error := MismatchMessage;
        return;
      }
      if !ValidatePassword(password) {
        error := WeakPasswordMessage;
        return;
      }
      loading := true;
      var r := auth.Signup(api, name, email, password, idStamp, now);
      if r.Success? {
        navigatedTo := Some("/dashboard");
      } else {
        error := MockApi.ErrorMessage(r.error);
      }
      loading := false;
    }
  }
}
