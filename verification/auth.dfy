/** Login, logout, the authentication probe and registration. A login looks
    the user up by one of three fields and checks the password against the
    stored hash; registration refuses a taken e-mail or username and stores
    the new account under its e-mail. Password hashing and checking are
    parameters, and the order in which the store lists users is an input. */
module Auth {
  import opened Values
  import opened Db
  import opened Web

  // ----- login -----

  const FillAll := "Please fill all fields"
  const InvalidLoginType := "Invalid login type"
  const BadCredentials := "Invalid credentials. Please try again."
  const LoginError := "A server error occurred. Please try again later."

  /** The four login inputs, the two typed values already stripped. */
  datatype LoginForm = LoginForm(loginType: Value, loginValue: string, authType: Value, authValue: string)

  /** `d.get(k, '').strip()`; `None` where the value is not a string and
      `.strip()` raises. */
  function StrippedField(d: Doc, k: string): Option<string> {
    var v := GetOr(d, k, Str(""));
    if v.Str? then Some(Strip(v.s)) else None
  }

  /** The login inputs of a request body, `None` when reading them raises. */
  function ReadLoginForm(d: Doc): Option<LoginForm> {
    match (StrippedField(d, "login_value"), StrippedField(d, "auth_value"))
    case (Some(lv), Some(av)) => Some(LoginForm(Get(d, "loginType"), lv, Get(d, "authType"), av))
    case _ => None
  }

  /** `all([login_type, login_value, auth_type, auth_value])` */
  predicate Complete(f: LoginForm) {
    Truthy(f.loginType) && f.loginValue != "" && Truthy(f.authType) && f.authValue != ""
  }

  /** The user field a login type searches. */
  function LoginField(loginType: Value): (r: Option<string>)
    ensures r.Some? <==> loginType in {Str("loginUsername"), Str("loginEmail"), Str("loginPhone")}
    ensures r.Some? ==> r.value in {"username", "email", "phone_number"}
    ensures loginType == Str("loginEmail") <==> r == Some("email")
    ensures loginType == Str("loginUsername") <==> r == Some("username")
    ensures loginType == Str("loginPhone") <==> r == Some("phone_number")
  {
    if loginType == Str("loginUsername") then Some("username")
    else if loginType == Str("loginEmail") then Some("email")
    else if loginType == Str("loginPhone") then Some("phone_number")
    else None
  }

  /** A request that passes the input checks: readable, complete, with a
      known login type. */
  predicate Admissible(data: Option<Doc>) {
    && data.Some? && ReadLoginForm(data.value).Some?
    && Complete(ReadLoginForm(data.value).value)
    && LoginField(ReadLoginForm(data.value).value.loginType).Some?
  }

  /** The users an admissible request names. */
  function Matches(s: Store, data: Option<Doc>): set<Id>
    requires Admissible(data)
  {
    var f := ReadLoginForm(data.value).value;
    Where(s.users, LoginField(f.loginType).value, Str(f.loginValue))
  }

  /** The password an admissible request offers. */
  function Offered(data: Option<Doc>): Value
    requires Admissible(data)
  {
    Str(ReadLoginForm(data.value).value.authValue)
  }

  /** Position of the first listed document whose `field` equals `v`: the
      single result of `where(field, '==', v).limit(1)`. */
  function FirstIndex(c: Collection, order: seq<Id>, field: string, v: Value, from: nat): (r: Option<nat>)
    requires from <= |order|
    ensures r.Some? ==> from <= r.value < |order| && order[r.value] in Where(c, field, v)
    ensures r.Some? ==> forall j :: from <= j < r.value ==> order[j] !in Where(c, field, v)
    ensures r.None? ==> forall j :: from <= j < |order| ==> order[j] !in Where(c, field, v)
    decreases |order| - from
  {
    if from == |order| then None
    else if order[from] in Where(c, field, v) then Some(from)
    else FirstIndex(c, order, field, v, from + 1)
  }

  /** What a successful login reports and keeps in the session. */
  datatype UserInfo = UserInfo(id: Id, username: Value, name: string)

  /** `f"{first_name} {last_name}".strip()`, each part defaulting to `''`. */
  function SessionName(user: Doc): string {
    Strip(PyStr(GetOr(user, "first_name", Str(""))) + " " + PyStr(GetOr(user, "last_name", Str(""))))
  }

  /** The stored hash the password is checked against (`''` when absent). */
  function StoredHash(user: Doc): Value {
    GetOr(user, "password_hash", Str(""))
  }

  /** The POST `login`. `data` is the decoded body (`None` when decoding
      raises), `order` the order in which the store lists the users, and
      `check(hash, password)` is `check_password_hash` (`None` where it
      raises). Login never writes; it sets the session only on success. An
      unknown user and a wrong password get the same 401. */
  function Login(session: Session, s: Store, data: Option<Doc>, order: seq<Id>,
                 check: (Value, Value) -> Option<bool>): (st: Step<UserInfo>)
    requires Enumerates(order, s.users.Keys)
    ensures st.store == s
    ensures !st.reply.Success? ==> st.session == session
    ensures data.None? || ReadLoginForm(data.value).None? ==> st.reply == Failure(500, LoginError)
    ensures data.Some? && ReadLoginForm(data.value).Some? && !Complete(ReadLoginForm(data.value).value) ==>
      st.reply == Failure(400, FillAll)
    ensures data.Some? && ReadLoginForm(data.value).Some? && Complete(ReadLoginForm(data.value).value)
            && LoginField(ReadLoginForm(data.value).value.loginType).None? ==>
      st.reply == Failure(400, InvalidLoginType)
    ensures Admissible(data) && Matches(s, data) == {} ==> st.reply == Failure(401, BadCredentials)
    ensures Admissible(data) ==>
      st.reply.Success? || st.reply == Failure(401, BadCredentials) || st.reply == Failure(500, LoginError)
    ensures st.reply.Success? ==> Admissible(data)
    ensures Admissible(data) ==>
      forall i :: 0 <= i < |order| && order[i] in Matches(s, data)
                  && (forall j :: 0 <= j < i ==> order[j] !in Matches(s, data)) ==>
        (st.reply.Success? <==> check(StoredHash(s.users[order[i]]), Offered(data)) == Some(true))
    ensures st.reply.Success? ==>
      var id := st.reply.payload.id;
      && id in Matches(s, data)
      && (exists i :: 0 <= i < |order| && order[i] == id && forall j :: 0 <= j < i ==> order[j] !in Matches(s, data))
      && check(StoredHash(s.users[id]), Offered(data)) == Some(true)
      && st.reply.code == 200
      && st.reply.payload == UserInfo(id, Get(s.users[id], "username"), SessionName(s.users[id]))
      && st.session == Session(Some(id), Some(Get(s.users[id], "username")), Some(SessionName(s.users[id])))
  {
    if data.None? then Fail(500, LoginError, s, session)
    else
      match ReadLoginForm(data.value)
      case None => Fail(500, LoginError, s, session)
      case Some(f) =>
        if !Complete(f) then Fail(400, FillAll, s, session)
        else
          match LoginField(f.loginType)
          case None => Fail(400, InvalidLoginType, s, session)
          case Some(field) =>
            match FirstIndex(s.users, order, field, Str(f.loginValue), 0)
            case None => Fail(401, BadCredentials, s, session)
            case Some(i) =>
              var id := order[i];
              var user := s.users[id];
              match check(StoredHash(user), Str(f.authValue))
              case None => Fail(500, LoginError, s, session)
              case Some(false) => Fail(401, BadCredentials, s, session)
              case Some(true) =>
                var info := UserInfo(id, Get(user, "username"), SessionName(user));
                Step(Success(200, info), s, Session(Some(id), Some(info.username), Some(info.name)))
  }

  /** A sole match is what the single-result query returns. */
  lemma FirstIndexOfSole(c: Collection, order: seq<Id>, field: string, v: Value, id: Id)
    requires Enumerates(order, c.Keys) && Where(c, field, v) == {id}
    ensures FirstIndex(c, order, field, v, 0).Some?
    ensures order[FirstIndex(c, order, field, v, 0).value] == id
  {
    assert id in c;
    var k :| 0 <= k < |order| && order[k] == id;
    assert order[k] in Where(c, field, v);
  }

  /** When exactly one user matches, the outcome is decided by the password
      check on that user alone. */
  lemma LoginSoleMatch(session: Session, s: Store, data: Option<Doc>, order: seq<Id>,
                       check: (Value, Value) -> Option<bool>, id: Id)
    requires Enumerates(order, s.users.Keys)
    requires Admissible(data) && Matches(s, data) == {id}
    ensures id in s.users
    ensures var st := Login(session, s, data, order, check);
      var verdict := check(StoredHash(s.users[id]), Offered(data));
      && (verdict == Some(true) ==>
            st.reply == Success(200, UserInfo(id, Get(s.users[id], "username"), SessionName(s.users[id]))))
      && (verdict == Some(false) ==> st.reply == Failure(401, BadCredentials))
      && (verdict == None ==> st.reply == Failure(500, LoginError))
  {
    var f := ReadLoginForm(data.value).value;
    var field := LoginField(f.loginType).value;
    FirstIndexOfSole(s.users, order, field, Str(f.loginValue), id);
    var i := FirstIndex(s.users, order, field, Str(f.loginValue), 0).value;
    var user := s.users[id];
    assert order[i] == id && Offered(data) == Str(f.authValue);
    var st := Login(session, s, data, order, check);
    match check(StoredHash(user), Str(f.authValue))
    case Some(true) =>
      assert st.reply == Success(200, UserInfo(id, Get(user, "username"), SessionName(user)));
    case Some(false) =>
      assert st.reply == Failure(401, BadCredentials);
    case None =>
      assert st.reply == Failure(500, LoginError);
  }

  /** A caller cannot tell an unknown login from a wrong password: both
      answer the same and leave the session alone. */
  lemma NoAccountProbing(session: Session, s1: Store, order1: seq<Id>, s2: Store, order2: seq<Id>,
                         data: Option<Doc>, check: (Value, Value) -> Option<bool>, id: Id)
    requires Enumerates(order1, s1.users.Keys) && Enumerates(order2, s2.users.Keys)
    requires Admissible(data)
    requires Matches(s1, data) == {}
    requires Matches(s2, data) == {id} && check(StoredHash(s2.users[id]), Offered(data)) == Some(false)
    ensures Login(session, s1, data, order1, check).reply == Login(session, s2, data, order2, check).reply
    ensures Login(session, s1, data, order1, check).session == Login(session, s2, data, order2, check).session
  {
    LoginSoleMatch(session, s2, data, order2, check, id);
  }

  // ----- logout and check_auth -----

  const LoggedOut := "Logged out successfully"

  /** `logout`: the session is cleared and nothing else changes. */
  function Logout(session: Session, s: Store): (st: Step<string>)
    ensures st == Step(Success(200, LoggedOut), s, Cleared)
  {
    Step(Success(200, LoggedOut), s, Session(None, None, None))
  }

  /** Logging out twice is logging out once. */
  lemma LogoutIdempotent(session: Session, s: Store)
    ensures var st := Logout(session, s);
      Logout(st.session, st.store) == st
  {
  }

  /** What `check_auth` reports. */
  datatype AuthStatus = Anonymous | Authenticated(id: Id, username: Value, name: Value)

  /** `session.get(k)` of a session name. */
  function NameValue(name: Option<string>): Value {
    match name
    case Some(n) => Str(n)
    case None => Null
  }

  /** `check_auth`: authenticated exactly when the session holds a user id;
      it changes nothing. */
  function CheckAuth(session: Session, s: Store): (st: Step<AuthStatus>)
    ensures st.store == s && st.session == session
    ensures st.reply.Success? && st.reply.code == 200
    ensures st.reply.payload.Authenticated? <==> session.userId.Some?
    ensures st.reply.payload.Authenticated? ==>
      && st.reply.payload.id == session.userId.value
      && st.reply.payload.username == session.username.GetOr(Null)
      && st.reply.payload.name == NameValue(session.name)
  {
    match session.userId
    case None => Step(Success(200, Anonymous), s, session)
    case Some(id) => Step(Success(200, Authenticated(id, session.username.GetOr(Null), NameValue(session.name))), s, session)
  }

  /** After a successful login the probe reports the user the login
      returned; after a logout it reports nobody. */
  lemma LoginThenCheckAuth(session: Session, s: Store, data: Option<Doc>, order: seq<Id>,
                           check: (Value, Value) -> Option<bool>)
    requires Enumerates(order, s.users.Keys)
    ensures var st := Login(session, s, data, order, check);
      st.reply.Success? ==>
        var info := st.reply.payload;
        CheckAuth(st.session, st.store).reply == Success(200, Authenticated(info.id, info.username, Str(info.name)))
    ensures var out := Logout(session, s);
      CheckAuth(out.session, out.store).reply == Success(200, Anonymous)
  {
  }

  // ----- register -----

  const PasswordMismatch := "Passwords do not match."
  const EmailTaken := "An account with this email already exists."
  const UsernameTaken := "This username is already taken."
  const Registered := "Registration successful! You can now log in."
  const RegisterError := "A server error occurred: " + ExceptionText

  /** `request.form.get(f, '').strip()` */
  function FormText(form: map<string, string>, f: string): string {
    Strip(if f in form then form[f] else "")
  }

  /** The fields of the account document registration stores. */
  const AccountKeys := {"first_name", "last_name", "date_of_birth", "education", "email",
                          "phone_number", "username", "password_hash"}

  /** An account document: the eight fields, holding the hash and never
      the password itself. */
  function Account(first: string, last: string, born: string, education: string, email: string,
                   phone: string, username: string, passwordHash: string): (d: Doc)
    ensures d.Keys == AccountKeys
    ensures "password" !in d && "confirm_password" !in d
    ensures d["first_name"] == Str(first) && d["last_name"] == Str(last)
    ensures d["date_of_birth"] == Str(born) && d["education"] == Str(education)
    ensures d["email"] == Str(email) && d["phone_number"] == Str(phone)
    ensures d["username"] == Str(username) && d["password_hash"] == Str(passwordHash)
  {
    map["first_name" := Str(first), "last_name" := Str(last), "date_of_birth" := Str(born),
        "education" := Str(education), "email" := Str(email), "phone_number" := Str(phone),
        "username" := Str(username), "password_hash" := Str(passwordHash)]
  }

  /** The account document registration builds: the stripped form fields
      and the hash of the password. */
  function NewAccount(form: map<string, string>, hash: string -> string): Doc {
    Account(FormText(form, "first_name"), FormText(form, "last_name"), FormText(form, "date_of_birth"),
            FormText(form, "education"), FormText(form, "email"), FormText(form, "phone_number"),
            FormText(form, "username"), hash(FormText(form, "password")))
  }

  /** The stored account holds each form field stripped, and the hash of
      the stripped password in place of the password. */
  lemma NewAccountFields(form: map<string, string>, hash: string -> string)
    ensures var d := NewAccount(form, hash);
      && d.Keys == AccountKeys
      && "password" !in d && "confirm_password" !in d
      && d["first_name"] == Str(FormText(form, "first_name"))
      && d["last_name"] == Str(FormText(form, "last_name"))
      && d["date_of_birth"] == Str(FormText(form, "date_of_birth"))
      && d["education"] == Str(FormText(form, "education"))
      && d["email"] == Str(FormText(form, "email"))
      && d["phone_number"] == Str(FormText(form, "phone_number"))
      && d["username"] == Str(FormText(form, "username"))
      && d["password_hash"] == Str(hash(FormText(form, "password")))
  {
  }

  /** The POST `register`. The confirmation is compared before the store is
      read; a taken e-mail is reported before a taken username; success
      writes one document whose id is the e-mail (`document(email)` raises
      for an id it cannot address). No failure writes anything. */
  function Register(session: Session, s: Store, form: map<string, string>,
                    hash: string -> string): (st: Step<string>)
    ensures st.session == session
    ensures !st.reply.Success? ==> st.store == s
    ensures FormText(form, "password") != FormText(form, "confirm_password") ==>
      st.reply == Failure(400, PasswordMismatch)
    ensures FormText(form, "password") == FormText(form, "confirm_password")
            && Where(s.users, "email", Str(FormText(form, "email"))) != {} ==>
      st.reply == Failure(409, EmailTaken)
    ensures FormText(form, "password") == FormText(form, "confirm_password")
            && Where(s.users, "email", Str(FormText(form, "email"))) == {}
            && Where(s.users, "username", Str(FormText(form, "username"))) != {} ==>
      st.reply == Failure(409, UsernameTaken)
    ensures st.reply.Success? <==>
      && FormText(form, "password") == FormText(form, "confirm_password")
      && Where(s.users, "email", Str(FormText(form, "email"))) == {}
      && Where(s.users, "username", Str(FormText(form, "username"))) == {}
      && ValidDocId(FormText(form, "email"))
    ensures !st.reply.Success? ==> st.reply.Failure?
    ensures st.reply.Success? ==>
      && st.reply == Success(201, Registered)
      && st.store == s.(users := s.users[FormText(form, "email") := NewAccount(form, hash)])
  {
    var email := FormText(form, "email");
    var username := FormText(form, "username");
    if FormText(form, "password") != FormText(form, "confirm_password") then Fail(400, PasswordMismatch, s, session)
    else if Where(s.users, "email", Str(email)) != {} then Fail(409, EmailTaken, s, session)
    else if Where(s.users, "username", Str(username)) != {} then Fail(409, UsernameTaken, s, session)
    else if !ValidDocId(email) then Fail(500, RegisterError, s, session)
    else Step(Success(201, Registered), s.(users := s.users[email := NewAccount(form, hash)]), session)
  }

  /** No two users share a value of `f`. */
  predicate Unique(c: Collection, f: string) {
    forall a, b :: a in c && b in c && a != b && f in c[a] && f in c[b] ==> c[a][f] != c[b][f]
  }

  /** The field of the new account is unique after it is stored under `id`
      when no other user had that value. */
  lemma StoredUnique(c: Collection, id: Id, d: Doc, f: string)
    requires Unique(c, f) && f in d && Where(c, f, d[f]) == {}
    ensures Unique(c[id := d], f)
  {
    var t := c[id := d];
    forall a, b | a in t && b in t && a != b && f in t[a] && f in t[b]
      ensures t[a][f] != t[b][f]
    {
      if a == id {
        assert b !in Where(c, f, d[f]);
      } else if b == id {
        assert a !in Where(c, f, d[f]);
      }
    }
  }

  /** Registration keeps e-mails and usernames unique among users. */
  lemma RegisterKeepsAccountsUnique(session: Session, s: Store, form: map<string, string>, hash: string -> string)
    requires Unique(s.users, "email") && Unique(s.users, "username")
    ensures var t := Register(session, s, form, hash).store;
      Unique(t.users, "email") && Unique(t.users, "username")
  {
    var st := Register(session, s, form, hash);
    if st.reply.Success? {
      var email := FormText(form, "email");
      NewAccountFields(form, hash);
      StoredUnique(s.users, email, NewAccount(form, hash), "email");
      StoredUnique(s.users, email, NewAccount(form, hash), "username");
    }
  }

  /** The login body that signs in with an e-mail and a password. */
  function EmailLogin(email: string, password: string): Doc {
    map["loginType" := Str("loginEmail"), "login_value" := Str(email),
        "authType" := Str("password"), "auth_value" := Str(password)]
  }

  /** An e-mail login with stripped, non-blank inputs passes the input
      checks and searches the `email` field. */
  lemma EmailLoginAdmissible(s: Store, email: string, password: string)
    requires Strip(email) == email && Strip(password) == password
    requires email != "" && password != ""
    ensures Admissible(Some(EmailLogin(email, password)))
    ensures Matches(s, Some(EmailLogin(email, password))) == Where(s.users, "email", Str(email))
    ensures Offered(Some(EmailLogin(email, password))) == Str(password)
  {
    var d := EmailLogin(email, password);
    assert GetOr(d, "login_value", Str("")) == Str(email);
    assert GetOr(d, "auth_value", Str("")) == Str(password);
    assert ReadLoginForm(d) == Some(LoginForm(Str("loginEmail"), email, Str("password"), password));
  }

  /** A document stored under `id` that carries a value of `f` no other
      document had is the only one with that value. */
  lemma SoleHolder(c: Collection, id: Id, d: Doc, f: string)
    requires f in d && Where(c, f, d[f]) == {}
    ensures Where(c[id := d], f, d[f]) == {id}
  {
    var t := c[id := d];
    forall k | k in t && k != id ensures !(f in t[k] && t[k][f] == d[f]) {
      assert k !in Where(c, f, d[f]);
    }
  }

  /** A fresh account can sign in with its e-mail and password, provided
      the password is not blank (a blank one registers, but the login form
      refuses it), and the session then names the e-mail as the user id. */
  lemma RegisterThenLogin(session: Session, s: Store, form: map<string, string>, hash: string -> string,
                          check: (Value, Value) -> Option<bool>, order: seq<Id>)
    requires forall p :: check(Str(hash(p)), Str(p)) == Some(true)
    requires Register(session, s, form, hash).reply.Success?
    requires FormText(form, "password") != ""
    requires Enumerates(order, Register(session, s, form, hash).store.users.Keys)
    ensures var t := Register(session, s, form, hash).store;
      var st := Login(session, t, Some(EmailLogin(FormText(form, "email"), FormText(form, "password"))), order, check);
      st.reply.Success? && st.session.userId == Some(FormText(form, "email"))
  {
    var email := FormText(form, "email");
    var password := FormText(form, "password");
    var t := Register(session, s, form, hash).store;
    var data := Some(EmailLogin(email, password));
    StripIdempotent(if "email" in form then form["email"] else "");
    StripIdempotent(if "password" in form then form["password"] else "");
    EmailLoginAdmissible(t, email, password);
    NewAccountFields(form, hash);
    SoleHolder(s.users, email, NewAccount(form, hash), "email");
    assert Matches(t, data) == {email};
    LoginSoleMatch(session, t, data, order, check, email);
  }
}
