/** The credential check of the login form. The form's fields and the fetched
    user list are parameters; storing the first name and the redirect that
    follow a success are left to the caller. */
module Login {
  import opened Seqs
  import opened Text

  datatype User = User(username: string, password: string, firstName: string)

  datatype Outcome =
    | MissingField               // an empty field: nothing is fetched
    | ConnectionError            // the user list could not be fetched or read
    | InvalidCredentials         // no such user, or a wrong password
    | Welcome(firstName: string) // success: this first name is stored

  const WelcomePrefix: string := "Welcome, "
  const MissingFieldText: string := "Please enter both username and password"
  const ConnectionErrorText: string := "Connection error. Please try again later."
  const InvalidCredentialsText: string := "Invalid username or password"

  /** The message the form shows for each outcome; only a success greets. */
  function Message(o: Outcome): (m: string)
    ensures StartsWith(m, WelcomePrefix) <==> o.Welcome?
  {
    match o
    case MissingField =>
      assert MissingFieldText[0] != WelcomePrefix[0];
      MissingFieldText
    case ConnectionError =>
      assert ConnectionErrorText[0] != WelcomePrefix[0];
      ConnectionErrorText
    case InvalidCredentials =>
      assert InvalidCredentialsText[0] != WelcomePrefix[0];
      InvalidCredentialsText
    case Welcome(name) => WelcomePrefix + name + "! Redirecting..."
  }

  /** Different outcomes never show the same message: the text tells the user
      which case occurred and, on success, whose name was found. */
  lemma MessageIdentifiesOutcome(a: Outcome, b: Outcome)
    requires Message(a) == Message(b)
    ensures a == b
  {
    if a.Welcome? && b.Welcome? {
      var m := Message(a);
      assert |a.firstName| == |b.firstName|;
      assert a.firstName == m[|WelcomePrefix|..|WelcomePrefix| + |a.firstName|];
      assert b.firstName == m[|WelcomePrefix|..|WelcomePrefix| + |b.firstName|];
    }
  }

  function HasUsername(username: string): User -> bool
  {
    (u: User) => u.username == username
  }

  /** `handleLogin` without the page: the username is trimmed, the password
      is taken as typed; both must be non-empty before the user list is
      consulted (`users` is None when fetching or parsing it failed); the first
      user with that exact username decides, and its password must match
      exactly. */
  function CheckLogin(usernameField: string, password: string, users: Option<seq<User>>): (o: Outcome)
    ensures o == MissingField <==> Trim(usernameField) == "" || password == ""
    ensures o == ConnectionError <==> Trim(usernameField) != "" && password != "" && users.None?
    ensures o.Welcome? <==>
      Trim(usernameField) != "" && password != "" && users.Some? &&
      exists i :: FirstWithUsername(users.value, Trim(usernameField), i) && users.value[i].password == password
    ensures o.Welcome? ==>
      exists i :: FirstWithUsername(users.value, Trim(usernameField), i) && o.firstName == users.value[i].firstName
  {
    var username := Trim(usernameField);
    if username == "" || password == "" then MissingField
    else match users
      case None => ConnectionError
      case Some(list) =>
        match FindFirst(list, HasUsername(username))
        case None => InvalidCredentials
        case Some(i) =>
          assert FirstWithUsername(list, username, i);
          FirstWithUsernameUnique(list, username, i);
          if list[i].password != password then InvalidCredentials else Welcome(list[i].firstName)
  }

  /** `i` is the position of the first user named `username`. */
  predicate FirstWithUsername(users: seq<User>, username: string, i: int)
  {
    0 <= i < |users| && users[i].username == username && forall j :: 0 <= j < i ==> users[j].username != username
  }

  lemma FirstWithUsernameUnique(users: seq<User>, username: string, i: int)
    requires FirstWithUsername(users, username, i)
    ensures forall k :: FirstWithUsername(users, username, k) ==> k == i
  {
  }

  /** Users after the first one with the given name are never consulted:
      whatever follows it, the outcome is the same. */
  lemma LaterUsersIgnored(usernameField: string, password: string, users: seq<User>, i: nat, later: seq<User>)
    requires FirstWithUsername(users, Trim(usernameField), i)
    ensures CheckLogin(usernameField, password, Some(users[..i + 1] + later)) == CheckLogin(usernameField, password, Some(users))
  {
    var username := Trim(usernameField);
    var prefix := users[..i + 1];
    assert FindFirst(prefix, HasUsername(username)) == Some(i) by {
      assert FirstWithUsername(prefix, username, i);
    }
    assert users == prefix + users[i + 1..];
    FindFirstIgnoresTail(prefix, later, HasUsername(username));
    FindFirstIgnoresTail(prefix, users[i + 1..], HasUsername(username));
  }

  /** Surrounding white space in the username field does not matter. */
  lemma UsernameTrimmed(usernameField: string, password: string, users: Option<seq<User>>)
    ensures CheckLogin(Trim(usernameField), password, users) == CheckLogin(usernameField, password, users)
  {
    TrimIdempotent(usernameField);
  }
}
