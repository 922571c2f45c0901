/**
 * The login page's logic: seeding the mock administrator into the stored user list, and looking
 * a user up by email to set the current user. Storage, toasts and navigation are outside the model.
 */
module LoginPage {
  import opened Common
  import opened Types

  const MockUser := User("admin1", "John", "Doe", "John.Doe@example.com", Admin)

  /** `ngOnInit()`: append the mock user unless some user already has its email. */
  method SeedMockUser(users: seq<User>) returns (users': seq<User>)
    ensures HasEmail(users', MockUser.email)
    ensures HasEmail(users, MockUser.email) ==> users' == users
    ensures !HasEmail(users, MockUser.email) ==> users' == users + [MockUser]
  {
    users' := users;
    if FindUserByEmail(users, MockUser.email).None? {
      users' := users' + [MockUser];
      assert users'[|users|] == MockUser;
    }
  }

  /** Opening the page twice leaves the same user list as opening it once. */
  method SeedTwice(users: seq<User>) returns (once: seq<User>, twice: seq<User>)
    ensures twice == once
    ensures |once| <= |users| + 1
  {
    once := SeedMockUser(users);
    twice := SeedMockUser(once);
  }

  datatype LoginOutcome =
    | FormInvalid    // 'Please enter a valid email.'
    | UnknownEmail   // 'Invalid email. Please register.'
    | LoggedIn(user: User)

  /**
   * `login()`: with a valid form, the first user whose email equals the input exactly becomes
   * the current user; otherwise the current user stays as it was.
   */
  method Login(users: seq<User>, current: Option<User>, formValid: bool, email: string)
    returns (current': Option<User>, outcome: LoginOutcome)
    ensures !formValid ==> outcome == FormInvalid && current' == current
    ensures formValid && !HasEmail(users, email) ==> outcome == UnknownEmail && current' == current
    ensures formValid && HasEmail(users, email) ==>
      exists k :: 0 <= k < |users| && users[k].email == email
        && (forall j :: 0 <= j < k ==> users[j].email != email)
        && outcome == LoggedIn(users[k]) && current' == Some(users[k])
    ensures outcome.LoggedIn? ==> outcome.user in users && outcome.user.email == email
  {
    current' := current;
    if !formValid {
      outcome := FormInvalid;
      return;
    }
    var found := FindUserByEmail(users, email);
    if found.None? {
      outcome := UnknownEmail;
      return;
    }
    var k := found.value;
    current' := Some(users[k]);
    outcome := LoggedIn(users[k]);
  }

  /** The email comparison is exact: the seeded user cannot log in with a lower-cased address. */
  method CaseSensitiveLogin() returns (outcome: LoginOutcome)
    ensures outcome == UnknownEmail
  {
    var users := SeedMockUser([]);
    var _, o := Login(users, None, true, "john.doe@example.com");
    outcome := o;
  }
}
