/** Registration and login (authentication/views.py): a chain of guards over
    the submitted form decides what happens; the user store maps each
    username to its password.

    `create_user` stores the username in Unicode NFKC form
    (`normalize_username`), while both views look up the name as typed. The
    normalisation is a parameter `normalize`, since Unicode tables are not
    part of this model. */
module Auth {
  import opened PyText

  /** A request: its method and the posted form fields. */
  datatype Request = Request(isPost: bool, form: map<string, string>)

  datatype Response = Render(template: string) | Redirect(location: string)

  datatype Message = Error(text: string) | Success(text: string)

  /** What a view decides: show the form, refuse with a message, go ahead
      with the stripped username and password, or (registration) find that
      `create_user` raises because the normalised name is already stored. */
  datatype Decision =
    | ShowForm
    | Refuse(reason: string)
    | Proceed(username: string, password: string)
    | CreateFails

  const RegisterPage := "/auth/register/"
  const LoginPage := "/auth/login/"
  const ProblemsPage := "/problems/"

  const FieldsRequired := "Username and password are required"
  const UsernameTooShort := "Username must be at least 3 characters long"
  const PasswordTooShort := "Password must be at least 6 characters long"
  const UsernameTaken := "User with this username already exists"
  const UserCreated := "User created successfully. Please login."
  const CreateUserError := "Error creating user: "
  const NoSuchUser := "User with this username does not exist"
  const WrongPassword := "Invalid password"

  /** A posted field, `""` when absent, stripped. */
  function Field(request: Request, name: string): (r: string)
    ensures Stripped(r)
    ensures name !in request.form ==> r == ""
  {
    Strip(if name in request.form then request.form[name] else "")
  }

  // ---------------------------------------------------------------------------
  // Registration

  /** The registration guards, in order: both fields present, username of at
      least 3 characters, password of at least 6, username not yet taken;
      then `create_user` fails on the unique username when the normalised
      name is taken. */
  function RegisterDecision(request: Request, users: map<string, string>, normalize: string -> string): Decision {
    if !request.isPost then ShowForm
    else
      var username, password := Field(request, "username"), Field(request, "password");
      if username == "" || password == "" then Refuse(FieldsRequired)
      else if |username| < 3 then Refuse(UsernameTooShort)
      else if |password| < 6 then Refuse(PasswordTooShort)
      else if username in users then Refuse(UsernameTaken)
      else if normalize(username) in users then CreateFails
      else Proceed(username, password)
  }

  /** The store after a registration that goes ahead: the password under the
      normalised name. */
  function Registered(users: map<string, string>, normalize: string -> string, username: string, password: string): map<string, string> {
    users[normalize(username) := password]
  }

  /** Each refusal names the first guard that fails. */
  lemma RegisterGuardOrder(request: Request, users: map<string, string>, normalize: string -> string)
    requires request.isPost
    ensures var username, password := Field(request, "username"), Field(request, "password");
      var d := RegisterDecision(request, users, normalize);
      (d == Refuse(FieldsRequired) <==> username == "" || password == "")
      && (d == Refuse(UsernameTooShort) <==> username != "" && password != "" && |username| < 3)
      && (d == Refuse(PasswordTooShort) <==>
            username != "" && password != "" && |username| >= 3 && |password| < 6)
      && (d == Refuse(UsernameTaken) <==>
            username != "" && password != "" && |username| >= 3 && |password| >= 6 && username in users)
      && (d == CreateFails <==>
            username != "" && password != "" && |username| >= 3 && |password| >= 6 && username !in users
            && normalize(username) in users)
  {
  }

  /** Registration goes ahead exactly for a username of at least 3
      characters, fresh as typed and once normalised, with a password of at
      least 6, both stripped. */
  lemma RegisterProceeds(request: Request, users: map<string, string>, normalize: string -> string)
    ensures RegisterDecision(request, users, normalize).Proceed? <==>
      request.isPost
      && |Field(request, "username")| >= 3 && |Field(request, "password")| >= 6
      && Field(request, "username") !in users && normalize(Field(request, "username")) !in users
    ensures RegisterDecision(request, users, normalize).Proceed? ==>
      var d := RegisterDecision(request, users, normalize);
      d.username == Field(request, "username") && d.password == Field(request, "password")
      && Stripped(d.username) && Stripped(d.password)
  {
  }

  // ---------------------------------------------------------------------------
  // Login

  /** The login guards, in order: both fields present, username known,
      password matching the stored one. */
  function LoginDecision(request: Request, users: map<string, string>): Decision {
    if !request.isPost then ShowForm
    else
      var username, password := Field(request, "username"), Field(request, "password");
      if username == "" || password == "" then Refuse(FieldsRequired)
      else if username !in users then Refuse(NoSuchUser)
      else if users[username] != password then Refuse(WrongPassword)
      else Proceed(username, password)
  }

  /** Login succeeds exactly for a known username with its stored password;
      the refusals name the first failing guard. */
  lemma LoginGuardOrder(request: Request, users: map<string, string>)
    requires request.isPost
    ensures var username, password := Field(request, "username"), Field(request, "password");
      var d := LoginDecision(request, users);
      (d == Refuse(FieldsRequired) <==> username == "" || password == "")
      && (d == Refuse(NoSuchUser) <==> username != "" && password != "" && username !in users)
      && (d == Refuse(WrongPassword) <==>
            username != "" && password != "" && username in users && users[username] != password)
      && (d.Proceed? <==> username != "" && password != "" && username in users && users[username] == password)
  {
  }

  /** After a registration goes ahead, the same form logs in against the
      updated store exactly when the username is already in normalised form;
      otherwise the name as typed is unknown. */
  lemma RegisterThenLogin(request: Request, users: map<string, string>, normalize: string -> string)
    requires RegisterDecision(request, users, normalize).Proceed?
    ensures var d := RegisterDecision(request, users, normalize);
      LoginDecision(request, Registered(users, normalize, d.username, d.password))
        == if normalize(d.username) == d.username then d else Refuse(NoSuchUser)
  {
  }

  /** Registering never changes the outcome of logging in under any name but
      the stored, normalised one. */
  lemma RegisterKeepsOthers(request: Request, other: Request, users: map<string, string>, normalize: string -> string)
    requires RegisterDecision(request, users, normalize).Proceed?
    requires Field(other, "username") != normalize(Field(request, "username"))
    ensures var d := RegisterDecision(request, users, normalize);
      LoginDecision(other, Registered(users, normalize, d.username, d.password)) == LoginDecision(other, users)
  {
  }

  // ---------------------------------------------------------------------------
  // The views

  /** The user store, the logged-in user of the session, and the messages
      queued for the next page. */
  class Site {
    var users: map<string, string>
    var session: Option<string>
    var messages: seq<Message>

    constructor(users: map<string, string>)
      ensures this.users == users && session == None && messages == []
    {
      this.users := users;
      session := None;
      messages := [];
    }

    /** `register_user`: a refusal queues its message and returns to the
        form, as does a failing `create_user` with the database's message
        `dbError`; success stores the user under the normalised name and
        sends to the login page. */
    method RegisterUser(request: Request, normalize: string -> string, dbError: string) returns (response: Response)
      modifies this
      ensures var d := old(RegisterDecision(request, users, normalize));
        match d
        case ShowForm =>
          response == Render("register.html")
          && users == old(users) && messages == old(messages)
        case Refuse(reason) =>
          response == Redirect(RegisterPage)
          && users == old(users) && messages == old(messages) + [Error(reason)]
        case Proceed(username, password) =>
          response == Redirect(LoginPage)
          && users == Registered(old(users), normalize, username, password)
          && messages == old(messages) + [Success(UserCreated)]
        case CreateFails =>
          response == Redirect(RegisterPage)
          && users == old(users) && messages == old(messages) + [Error(CreateUserError + dbError)]
      ensures session == old(session)
    {
      if request.isPost {
        var username := Field(request, "username");
        var password := Field(request, "password");
        if username == "" || password == "" {
          messages := messages + [Error(FieldsRequired)];
          return Redirect(RegisterPage);
        }
        if |username| < 3 {
          messages := messages + [Error(UsernameTooShort)];
          return Redirect(RegisterPage);
        }
        if |password| < 6 {
          messages := messages + [Error(PasswordTooShort)];
          return Redirect(RegisterPage);
        }
        if username in users {
          messages := messages + [Error(UsernameTaken)];
          return Redirect(RegisterPage);
        }
        var stored := normalize(username);
        if stored in users {
          // `create_user` violates the unique username
          messages := messages + [Error(CreateUserError + dbError)];
          return Redirect(RegisterPage);
        }
        users := users[stored := password];
        messages := messages + [Success(UserCreated)];
        return Redirect(LoginPage);
      }
      return Render("register.html");
    }

    /** `login_user`: a refusal queues its message and returns to the form;
        success logs the user into the session and sends to the problems. */
    method LoginUser(request: Request) returns (response: Response)
      modifies this
      ensures users == old(users)
      ensures var d := old(LoginDecision(request, users));
        match d
        case ShowForm =>
          response == Render("login.html") && session == old(session) && messages == old(messages)
        case Refuse(reason) =>
          response == Redirect(LoginPage) && session == old(session)
          && messages == old(messages) + [Error(reason)]
        case Proceed(username, _) =>
          response == Redirect(ProblemsPage) && session == Some(username)
          && messages == old(messages) + [Success("Welcome back, " + username + "!")]
    {
      if request.isPost {
        var username := Field(request, "username");
        var password := Field(request, "password");
        if username == "" || password == "" {
          messages := messages + [Error(FieldsRequired)];
          return Redirect(LoginPage);
        }
        if username !in users {
          messages := messages + [Error(NoSuchUser)];
          return Redirect(LoginPage);
        }
        if users[username] != password {
          messages := messages + [Error(WrongPassword)];
          return Redirect(LoginPage);
        }
        session := Some(username);
        messages := messages + [Success("Welcome back, " + username + "!")];
        return Redirect(ProblemsPage);
      }
      return Render("login.html");
    }
  }
}
