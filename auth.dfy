/** Registration, login and logout of the web app
    (web-app/routes/auth.py). Accounts live in a dictionary from user name
    to password hash held by the process; a successful login keeps the user
    name in the session. Password hashing is a pair of parameters: the
    salted hash `generate_password_hash` produces for a password, and the
    `check_password_hash` test. */
module Auth {
  import opened Common

  /** The record kept per account. */
  datatype Account = Account(passwordHash: string)

  /** What a route answers, with the message it flashes, if any. */
  datatype AuthPage =
    | LoginForm(flashed: Option<string>)
    | RegisterForm(flashed: Option<string>)
    | RedirectToDashboard(notice: string)
    | RedirectToLogin(notice: string)
    | ServerError

  const ExistsText := "Username already exists."
  const EmptyText := "Username and password cannot be empty."
  const ShortText := "Password must be at least 6 characters long."
  const LoggedInText := "Logged in successfully."
  const InvalidLoginText := "Invalid username or password."
  const LoggedOutText := "You have been logged out."
  const RegisteredText := "Registration successful! You can now log in."

  /** A form field as `request.form.get` reads it: None when absent. Python
      treats None and "" alike as falsy. */
  predicate Filled(field: Option<string>) {
    field.Some? && field.value != ""
  }

  /** `validate_registration`: the checks run in order (taken name, empty
      field, short password) and the first that fails gives the message. */
  function ValidateRegistration(users: map<string, Account>, username: Option<string>, password: Option<string>)
    : (r: (bool, string))
    ensures r.0 <==> username.Some? && username.value !in users && Filled(username) && Filled(password) &&
                     |password.value| >= 6
    ensures r.0 ==> r.1 == ""
    ensures username.Some? && username.value in users ==> r == (false, ExistsText)
    ensures !(username.Some? && username.value in users) && !(Filled(username) && Filled(password)) ==>
            r == (false, EmptyText)
    ensures !r.0 && r.1 != ExistsText && r.1 != EmptyText ==> r == (false, ShortText)
  {
    if username.Some? && username.value in users then (false, ExistsText)
    else if !Filled(username) || !Filled(password) then (false, EmptyText)
    else if |password.value| < 6 then (false, ShortText)
    else (true, "")
  }

  /** `validate_login`: an unknown (or missing) name is refused; a known
      one is decided by the hash check. Checking a missing password raises
      inside the hash library, which is None here. */
  function ValidateLogin(users: map<string, Account>, username: Option<string>, password: Option<string>,
                         check: (string, string) -> bool): (r: Option<bool>)
    ensures username.None? || username.value !in users ==> r == Some(false)
    ensures username.Some? && username.value in users && password.Some? ==>
            r == Some(check(users[username.value].passwordHash, password.value))
    ensures r.None? <==> username.Some? && username.value in users && password.None?
  {
    if username.None? || username.value !in users then Some(false)
    else if password.None? then None
    else Some(check(users[username.value].passwordHash, password.value))
  }

  /** The store after a successful registration. */
  function Registered(users: map<string, Account>, username: string, password: string,
                      hash: string -> string): (r: map<string, Account>)
    ensures r.Keys == users.Keys + {username}
    ensures r[username] == Account(hash(password))
    ensures forall u :: u in users && u != username ==> r[u] == users[u]
  {
    users[username := Account(hash(password))]
  }

  /** The hash check accepts what the hash function produced. */
  ghost predicate HashSound(hash: string -> string, check: (string, string) -> bool) {
    forall p :: check(hash(p), p)
  }

  /** A user who has just registered can log in with the same password. */
  lemma RegisteredCanLogIn(users: map<string, Account>, username: string, password: string,
                           hash: string -> string, check: (string, string) -> bool)
    requires ValidateRegistration(users, Some(username), Some(password)).0
    requires HashSound(hash, check)
    ensures ValidateLogin(Registered(users, username, password, hash), Some(username), Some(password), check) == Some(true)
  {
  }

  /** A name, once registered, cannot be registered again, and registering
      never changes another account. */
  lemma RegisteredNameTaken(users: map<string, Account>, username: string, password: string,
                            hash: string -> string, other: Option<string>)
    ensures ValidateRegistration(Registered(users, username, password, hash), Some(username), other) ==
            (false, ExistsText)
  {
  }

  /** The running app's state: the account store and the session of the
      current client. */
  class AuthService {
    var users: map<string, Account>
    var session: Session

    constructor()
      ensures users == map[] && session == map[]
    {
      users := map[];
      session := map[];
    }

    /** GET and POST /register. */
    method Register(isPost: bool, username: Option<string>, password: Option<string>, hash: string -> string)
      returns (page: AuthPage)
      modifies this
      ensures session == old(session)
      ensures !isPost ==> users == old(users) && page == RegisterForm(None)
      ensures isPost && !ValidateRegistration(old(users), username, password).0 ==>
              users == old(users) && page == RegisterForm(Some(ValidateRegistration(old(users), username, password).1))
      ensures isPost && ValidateRegistration(old(users), username, password).0 ==>
              users == Registered(old(users), username.value, password.value, hash) &&
              page == RedirectToLogin(RegisteredText)
    {
      if !isPost {
        return RegisterForm(None);
      }
      var verdict := ValidateRegistration(users, username, password);
      if !verdict.0 {
        return RegisterForm(Some(verdict.1));
      }
      users := users[username.value := Account(hash(password.value))];
      page := RedirectToLogin(RegisteredText);
    }

    /** GET and POST /login: only a successful check puts the user name in
      the session. */
    method Login(isPost: bool, username: Option<string>, password: Option<string>, check: (string, string) -> bool)
      returns (page: AuthPage)
      modifies this
      ensures users == old(users)
      ensures !isPost ==> session == old(session) && page == LoginForm(None)
      ensures isPost && ValidateLogin(users, username, password, check) == Some(true) ==>
              session == old(session)["user_id" := username.value] && page == RedirectToDashboard(LoggedInText)
      ensures isPost && ValidateLogin(users, username, password, check) == Some(false) ==>
              session == old(session) && page == LoginForm(Some(InvalidLoginText))
      ensures isPost && ValidateLogin(users, username, password, check).None? ==>
              session == old(session) && page == ServerError
    {
      if !isPost {
        return LoginForm(None);
      }
      var valid := ValidateLogin(users, username, password, check);
      if valid.None? {
        return ServerError;
      }
      if valid.value {
        session := session["user_id" := username.value];
        return RedirectToDashboard(LoggedInText);
      }
      page := LoginForm(Some(InvalidLoginText));
    }

    /** GET /logout: the whole session is cleared. */
    method Logout() returns (page: AuthPage)
      modifies this
      ensures users == old(users) && session == map[]
      ensures page == RedirectToLogin(LoggedOutText)
    {
      session := map[];
      page := RedirectToLogin(LoggedOutText);
    }
  }
}
