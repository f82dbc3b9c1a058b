/**
 * The admin sign-up form: on mount it seeds the browser's list of admin
 * credentials with a default account if there is none, and on submit it runs
 * its checks in order and appends the new account when they all pass.
 */
module AdminSignup {
  import opened Wrappers
  import opened Sequences

  datatype AdminCredential = AdminCredential(username: string, password: string)

  /** The account written when no list is stored yet. */
  const DefaultAdmin := AdminCredential("admin", "password")

  /** Passwords shorter than this are refused. */
  const MinPasswordLength := 6

  /** Why a submission was refused, or that it went through. */
  datatype SignupOutcome = NotMounted | PasswordsDoNotMatch | PasswordTooShort | UsernameTaken | SignedUp

  function Username(c: AdminCredential): string
  {
    c.username
  }

  function HasUsername(username: string): AdminCredential -> bool
  {
    (c: AdminCredential) => c.username == username
  }

  /** No two stored accounts share a username. */
  predicate UniqueUsernames(users: seq<AdminCredential>)
  {
    DistinctBy(Username, users)
  }

  /**
   * The checks of a submission, in the form's order: the form must be mounted,
   * the two passwords must match, the password must be long enough, and the
   * username must be new.
   */
  function SignupDecision(mounted: bool, users: seq<AdminCredential>, username: string, password: string,
                          confirmPassword: string): (r: SignupOutcome)
    ensures !mounted ==> r == NotMounted
    ensures mounted && password != confirmPassword ==> r == PasswordsDoNotMatch
    ensures mounted && password == confirmPassword && |password| < MinPasswordLength ==> r == PasswordTooShort
    ensures r == SignedUp <==>
      mounted && password == confirmPassword && |password| >= MinPasswordLength
      && forall i :: 0 <= i < |users| ==> users[i].username != username
    ensures r == UsernameTaken <==>
      mounted && password == confirmPassword && |password| >= MinPasswordLength
      && exists i :: 0 <= i < |users| && users[i].username == username
  {
    if !mounted then NotMounted
    else if password != confirmPassword then PasswordsDoNotMatch
    else if |password| < MinPasswordLength then PasswordTooShort
    else if Find(HasUsername(username), users).Some? then UsernameTaken
    else SignedUp
  }

  /** Appending an account whose username is new keeps usernames unique. */
  lemma SignupKeepsUnique(users: seq<AdminCredential>, username: string, password: string, confirmPassword: string)
    requires UniqueUsernames(users)
    requires SignupDecision(true, users, username, password, confirmPassword) == SignedUp
    ensures UniqueUsernames(users + [AdminCredential(username, password)])
  {
    var s := users + [AdminCredential(username, password)];
    forall i, j | 0 <= i < j < |s| ensures Username(s[i]) != Username(s[j]) {
      assert s[i] == users[i];
      if j < |users| {
        assert s[j] == users[j];
      }
    }
  }

  /** The form, with the browser's stored admin list (`None` when nothing is stored). */
  class SignupForm {
    var mounted: bool
    var storedUsers: Option<seq<AdminCredential>>

    /** The list as the submit handler reads it: an absent list is empty. */
    function Users(): seq<AdminCredential>
      reads this
    {
      storedUsers.GetOr([])
    }

    /** A form not yet mounted, over whatever the browser has stored. */
    constructor (stored: Option<seq<AdminCredential>>)
      ensures !mounted && storedUsers == stored
    {
      mounted := false;
      storedUsers := stored;
    }

    /** The mount effect: mark the form mounted and seed the default account if no list is stored. */
    method Mount()
      modifies this
      ensures mounted
      ensures old(storedUsers).None? ==> storedUsers == Some([DefaultAdmin])
      ensures old(storedUsers).Some? ==> storedUsers == old(storedUsers)
    {
      mounted := true;
      if storedUsers.None? {
        storedUsers := Some([DefaultAdmin]);
      }
    }

    /**
     * `handleSubmit`: refuse for the first check that fails, leaving the stored
     * list alone; otherwise append the new account at the end and store the list.
     */
    method HandleSubmit(username: string, password: string, confirmPassword: string) returns (outcome: SignupOutcome)
      modifies this
      ensures outcome == SignupDecision(old(mounted), old(Users()), username, password, confirmPassword)
      ensures mounted == old(mounted)
      ensures outcome == SignedUp ==> storedUsers == Some(old(Users()) + [AdminCredential(username, password)])
      ensures outcome != SignedUp ==> storedUsers == old(storedUsers)
      ensures UniqueUsernames(old(Users())) ==> UniqueUsernames(Users())
    {
      if !mounted {
        return NotMounted;
      }
      if password != confirmPassword {
        return PasswordsDoNotMatch;
      }
      if |password| < MinPasswordLength {
        return PasswordTooShort;
      }
      var adminUsers := Users();
      if Find(HasUsername(username), adminUsers).Some? {
        return UsernameTaken;
      }
      if UniqueUsernames(adminUsers) {
        SignupKeepsUnique(adminUsers, username, password, confirmPassword);
      }
      adminUsers := adminUsers + [AdminCredential(username, password)];
      storedUsers := Some(adminUsers);
      outcome := SignedUp;
    }
  }
}
