/**
 * The registration page's decision logic over the stored user list. Form validation, toasts,
 * navigation and storage are outside the model: the form's validity and the current time are inputs.
 */
module RegisterPage {
  import opened Ids
  import opened Types

  datatype RegisterOutcome =
    | FormInvalid            // 'Please fill in all fields correctly.'
    | EmailAlreadyRegistered // 'Email already registered.'
    | Registered(user: User) // 'Registration successful! Please log in.'

  /**
   * `register()`: reject an invalid form or a known email without touching the list; otherwise
   * append a new admin user built from the form values. `users'` is the list afterwards (saved
   * only when it grew).
   */
  method Register(users: seq<User>, formValid: bool, name: string, surname: string, email: string, now: nat)
    returns (users': seq<User>, outcome: RegisterOutcome)
    ensures !formValid ==> outcome == FormInvalid && users' == users
    ensures formValid && HasEmail(users, email) ==> outcome == EmailAlreadyRegistered && users' == users
    ensures formValid && !HasEmail(users, email) ==>
      && outcome == Registered(User(UserId(now), name, surname, email, Admin))
      && users' == users + [outcome.user]
    ensures outcome.Registered? ==> outcome.user.role == Admin && HasEmail(users', email)
    ensures EmailsDistinct(users) ==> EmailsDistinct(users')
  {
    users' := users;
    if !formValid {
      outcome := FormInvalid;
      return;
    }
    if FindUserByEmail(users, email).Some? {
      outcome := EmailAlreadyRegistered;
      return;
    }
    var newUser := User(UserId(now), name, surname, email, Admin);
    users' := users' + [newUser];
    outcome := Registered(newUser);
    assert users'[|users|] == newUser;
  }
}
