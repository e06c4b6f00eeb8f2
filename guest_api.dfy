/** The JSON API of the guest module: registration, password reset,
    login and logout with session tokens, and the partial update of the
    logged user's own account. Each action first runs a pure check that
    decides the fail it answers with, or lets it through; the controller
    methods then apply the table updates. */
module GuestApi {
  import opened Php
  import opened JSend
  import Cors
  import opened Entities
  import opened Tokens
  import opened SessionKeys
  import opened Permissions
  import opened Resets

  const ALREADY_LOGGED_REGISTER := "User cannot register: already logged."
  const ALREADY_LOGGED_LOGIN := "User cannot login: already logged."
  const ALREADY_LOGGED_RESET := "A logged user cannot change the password with this method."
  const SITE_REQUIRED := "A site is required to register."
  const SITE_MISSING := "The site doesn’t exist."
  const EMAIL_REQUIRED := "Email is required."
  const EMAIL_INVALID := "Invalid email."
  const PASSWORD_REQUIRED := "Password is required."
  const ALREADY_REGISTERED := "Already registered."
  const CHECK_EMAIL := "Check your email to confirm your registration."
  const UNDER_MODERATION := "Your account is under moderation for opening."
  const WRONG_CREDENTIALS := "Wrong email or password."
  const ROLE_REFUSED := "Role \"{role]\" is not allowed to login via api."
  const MAIL_ERROR := "An error occurred when the email was sent."
  const USER_INACTIVE := "User is not active and cannot update password."
  const TOKEN_INVALID := "Invalid token."
  const TOKEN_NOT_YOURS := "This token is invalid. Check your email."
  const TOKEN_EXPIRED := "Password token expired."
  const PASSWORD_TOO_SHORT := "New password should have 6 characters or more."
  const NOT_LOGGED := "User not logged."
  const UNAUTHORIZED := "Unauthorized access."
  const LOGGED_OUT := "Successfully logout."
  const REQUEST_EMPTY := "Request is empty."
  const EMAIL_NO_SITE := "Email cannot be updated: the user is not related to a site."
  const NOT_UPDATABLE := "Your request contains metadata that cannot be updated."
  const NAME_EMPTY := "The new name is empty."
  const PASSWORD_WITH_OTHER := "You cannot update password and another data in the same time."
  const CURRENT_PASSWORD_EMPTY := "Existing password empty."
  const NEW_PASSWORD_EMPTY := "New password empty."
  const WRONG_PASSWORD := "Wrong password."
  const PASSWORD_CHANGED := "Password successfully changed"
  const EMAIL_WITH_OTHER := "You cannot update email and another data in the same time."
  const NEW_EMAIL_EMPTY := "New email empty."
  const NOT_AN_EMAIL := "\"{email}\" is not an email."
  const SAME_EMAIL := "The new email is the same than the current one."
  const EMAIL_TAKEN := "The email \"{email}\" is not yours."
  const CHECK_EMAIL_CHANGE := "Check your email \"{email}\" to confirm the change."
  const WELCOME_VALID := "Thank you for registering. You can now log in and use the library."
  const WELCOME_OPEN := "Thank you for registering. Please check your email for a confirmation message. Once you have confirmed your request, you will be able to log in."
  const WELCOME_MODERATE := "Thank you for registering. Please check your email for a confirmation message. Once you have confirmed your request, a moderator will confirm registration."
  /** The shortest password the API accepts. */
  const MIN_PASSWORD_LENGTH := 6

  /** The outcome of an action's checks: the fail to answer with, or the
      value the action goes on with. */
  datatype Check<T> = Stop(response: Response) | Go(value: T)

  /** What the login action answers: JSON, or a redirection. */
  datatype Reply = Json(response: Response) | Redirect(url: string)

  /** The user as the API represents it. */
  function UserRepr(u: User): (v: Value)
    ensures v.Obj? && "o:id" in v.fields && v.fields["o:id"] == Int(u.id)
    ensures "o:email" in v.fields && v.fields["o:email"] == Str(u.email)
  {
    Obj(map["o:id" := Int(u.id), "o:email" := Str(u.email), "o:name" := Str(u.name),
            "o:role" := Str(u.role), "o:is_active" := Bool(u.isActive)])
  }

  // ---------------------------------------------------------------------
  // Registration

  /** The checks of registerAction before any table is read, in order: CORS,
      registration closed, already logged, the site when one is required,
      then the email. `siteFound` is the id the sites API resolves the
      posted site to. On success the check yields the site to grant. */
  function RegisterCheck(settings: Settings, origin: Option<string>, logged: bool, email: Option<string>,
                         emailValid: bool, site: Option<string>, siteFound: Option<int>,
                         flashed: string): (r: Check<Option<int>>)
    ensures Cors.CheckCors(settings.cors, origin, flashed).Deny? ==>
              r == Stop(Cors.CheckCors(settings.cors, origin, flashed).response)
    ensures Cors.CheckCors(settings.cors, origin, flashed).Allow? && settings.guestOpen == "closed" ==>
              r == Stop(FailWithStatus("user", Cors.ACCESS_FORBIDDEN, HTTP_FORBIDDEN, flashed))
    ensures r.Go? <==>
              && Cors.CheckCors(settings.cors, origin, flashed).Allow?
              && settings.guestOpen != "closed" && !logged
              && (settings.registerSite ==> !Empty(site) && siteFound.Some?)
              && email.Some? && emailValid
    ensures r.Go? ==> r.value == (if settings.registerSite then siteFound else None)
    // each later refusal once the earlier checks have passed, in source order
    ensures var open := Cors.CheckCors(settings.cors, origin, flashed).Allow? && settings.guestOpen != "closed";
            var siteOk := settings.registerSite ==> !Empty(site) && siteFound.Some?;
            && (open && logged ==> r == Stop(FailOn("user", ALREADY_LOGGED_REGISTER, flashed)))
            && (open && !logged && settings.registerSite && Empty(site) ==>
                  r == Stop(FailOn("site", SITE_REQUIRED, flashed)))
            && (open && !logged && settings.registerSite && !Empty(site) && siteFound.None? ==>
                  r == Stop(FailOn("site", SITE_MISSING, flashed)))
            && (open && !logged && siteOk && email.None? ==> r == Stop(FailOn("email", EMAIL_REQUIRED, flashed)))
            && (open && !logged && siteOk && email.Some? && !emailValid ==>
                  r == Stop(FailOn("email", EMAIL_INVALID, flashed)))
    ensures r.Stop? ==> r.response.json.status == FAIL
  {
    match Cors.CheckCors(settings.cors, origin, flashed)
    case Deny(response) => Stop(response)
    case Allow(_) =>
      if settings.guestOpen == "closed" then
        Stop(FailWithStatus("user", Cors.ACCESS_FORBIDDEN, HTTP_FORBIDDEN, flashed))
      else if logged then Stop(FailOn("user", ALREADY_LOGGED_REGISTER, flashed))
      else if settings.registerSite && Empty(site) then Stop(FailOn("site", SITE_REQUIRED, flashed))
      else if settings.registerSite && siteFound.None? then Stop(FailOn("site", SITE_MISSING, flashed))
      else if email.None? then Stop(FailOn("email", EMAIL_REQUIRED, flashed))
      else if !emailValid then Stop(FailOn("email", EMAIL_INVALID, flashed))
      else Go(if settings.registerSite then siteFound else None)
  }

  /** The account a registration creates: a guest, active only when
      registration is open, named after the email when no name is given. */
  function NewGuest(id: UserId, email: string, username: Option<string>, password: Option<string>,
                    settings: Settings): (u: User)
    ensures u.id == id && u.email == email && u.password == password
    ensures u.role == ROLE_GUEST
    ensures u.isActive <==> IsOpenRegister(settings)
    ensures Empty(username) ==> u.name == email
    ensures !Empty(username) ==> u.name == username.value
  {
    User(id, email, Elvis(username, email), ROLE_GUEST, IsOpenRegister(settings), password)
  }

  /** The message of a successful registration: the configured one, else a
      default that depends on how the account gets activated. */
  function WelcomeMessage(settings: Settings): (m: string)
    ensures Truthy(settings.confirmRegisterMessage) ==> m == settings.confirmRegisterMessage
    ensures !Truthy(settings.confirmRegisterMessage) ==>
              m == (if settings.emailIsValid then WELCOME_VALID
                    else if IsOpenRegister(settings) then WELCOME_OPEN
                    else WELCOME_MODERATE)
  {
    var fallback := if settings.emailIsValid then WELCOME_VALID
                    else if IsOpenRegister(settings) then WELCOME_OPEN
                    else WELCOME_MODERATE;
    Elvis(Some(settings.confirmRegisterMessage), fallback)
  }

  /** The token table after a registration for an email that already has
      an account: only the newest token may change, and only when every
      email is taken as valid. */
  function AfterReRegister(tokens: seq<GuestToken>, email: string, emailIsValid: bool): (r: seq<GuestToken>)
    ensures |r| == |tokens|
    ensures ReRegister(tokens, email, emailIsValid).ConfirmLatest? ==>
              var i := ReRegister(tokens, email, emailIsValid).index;
              r == tokens[i := tokens[i].(confirmed := true)]
    ensures !ReRegister(tokens, email, emailIsValid).ConfirmLatest? ==> r == tokens
  {
    match ReRegister(tokens, email, emailIsValid)
    case ConfirmLatest(i) => tokens[i := tokens[i].(confirmed := true)]
    case _ => tokens
  }

  /** A second registration never reports success, and after it the email
      is registered for good when every email is taken as valid. */
  lemma ReRegisterSettles(tokens: seq<GuestToken>, email: string)
    ensures ReRegister(AfterReRegister(tokens, email, true), email, true) == AlreadyRegistered
  {
    var after := AfterReRegister(tokens, email, true);
    LatestTokenIgnoresConfirmation(tokens, after, email);
  }

  // ---------------------------------------------------------------------
  // Password reset

  /** The checks of forgotPasswordAction shared by both of its paths: not
      logged, an email that is valid and belongs to an active user. */
  function ForgotCheck(logged: bool, email: Option<string>, emailValid: bool, users: seq<User>,
                       flashed: string): (r: Check<nat>)
    ensures r.Go? <==>
              && !logged && email.Some? && emailValid
              && FindUserByEmail(users, email.value).Some?
              && users[FindUserByEmail(users, email.value).value].isActive
    ensures r.Go? ==> r.value == FindUserByEmail(users, email.value).value
    ensures !logged && email.Some? && emailValid && FindUserByEmail(users, email.value).None? ==>
              r == Stop(FailOn("email", EMAIL_INVALID, flashed))
    ensures r.Stop? ==> r.response.json.status == FAIL
  {
    if logged then Stop(FailOn("user", ALREADY_LOGGED_RESET, flashed))
    else if email.None? then Stop(FailOn("email", EMAIL_REQUIRED, flashed))
    else if !emailValid then Stop(FailOn("email", EMAIL_INVALID, flashed))
    else match FindUserByEmail(users, email.value)
      case None => Stop(FailOn("email", EMAIL_INVALID, flashed))
      case Some(i) =>
        if !users[i].isActive then Stop(FailOn("user", USER_INACTIVE, flashed))
        else Go(i)
  }

  /** What redeeming a reset code does. */
  datatype Redeem =
    | Reject(response: Response)                    // nothing changes
    | ExpireAt(index: nat, response: Response)      // the record is removed
    | Accept(index: nat, password: string)          // the password is set and the record removed

  /** Redeeming a reset code for `user`: the code must name a record of
      that user created less than an hour ago, and the new password must
      have six characters or more. */
  function RedeemCheck(resets: seq<PasswordCreation>, code: string, user: User, now: int,
                       password: Option<string>, flashed: string): (r: Redeem)
    ensures r.Accept? <==>
              && FindReset(resets, code).Some?
              && resets[FindReset(resets, code).value].user == user.id
              && !Expired(resets[FindReset(resets, code).value], now)
              && password.Some? && |password.value| >= MIN_PASSWORD_LENGTH
    ensures r.Accept? ==> r.index == FindReset(resets, code).value && r.password == password.value
    ensures r.ExpireAt? <==>
              && FindReset(resets, code).Some?
              && resets[FindReset(resets, code).value].user == user.id
              && Expired(resets[FindReset(resets, code).value], now)
    ensures r.ExpireAt? ==> r.index == FindReset(resets, code).value
                            && r.response == FailOn("token", TOKEN_EXPIRED, flashed)
    // a code of another user is refused as the unknown one is, but with its own message
    ensures FindReset(resets, code).None? ==> r == Reject(FailOn("email", TOKEN_INVALID, flashed))
    ensures FindReset(resets, code).Some? && resets[FindReset(resets, code).value].user != user.id ==>
              r == Reject(FailOn("email", TOKEN_NOT_YOURS, flashed))
    ensures r.Reject? ==> r.response.json.status == FAIL
  {
    match FindReset(resets, code)
    case None => Reject(FailOn("email", TOKEN_INVALID, flashed))
    case Some(i) =>
      if resets[i].user != user.id then Reject(FailOn("email", TOKEN_NOT_YOURS, flashed))
      else if Expired(resets[i], now) then ExpireAt(i, FailOn("token", TOKEN_EXPIRED, flashed))
      else if password.None? then Reject(FailOn("token", PASSWORD_REQUIRED, flashed))
      else if |password.value| < MIN_PASSWORD_LENGTH then Reject(FailOn("token", PASSWORD_TOO_SHORT, flashed))
      else Accept(i, password.value)
  }

  /** A code is good for one use: once accepted and removed, the same code
      is refused as unknown. */
  lemma RedeemIsSingleUse(resets: seq<PasswordCreation>, code: string, user: User, now: int,
                          password: Option<string>, flashed: string, later: int, again: Option<string>)
    requires RedeemCheck(resets, code, user, now, password, flashed).Accept?
    requires DistinctResetIds(resets)
    ensures var i := RedeemCheck(resets, code, user, now, password, flashed).index;
            RedeemCheck(resets[..i] + resets[i + 1..], code, user, later, again, flashed)
              == Reject(FailOn("email", TOKEN_INVALID, flashed))
  {
    var i := RedeemCheck(resets, code, user, now, password, flashed).index;
    var rest := resets[..i] + resets[i + 1..];
    forall j | 0 <= j < |rest| ensures rest[j].id != code {
      var j' := if j < i then j else j + 1;
      assert rest[j] == resets[j'];
    }
  }

  // ---------------------------------------------------------------------
  // Login

  /** The message a refused session authentication answers with. When
      registration is not open and the email has an account, the newest
      token for the email tells an account awaiting confirmation from one
      under moderation; otherwise the authentication's own message. */
  function SessionRefusal(settings: Settings, users: seq<User>, tokens: seq<GuestToken>, email: string,
                          authMessage: string): (m: string)
    ensures !IsOpenRegister(settings) && FindUserByEmail(users, email).Some? ==>
              var u := users[FindUserByEmail(users, email).value];
              var t := LatestToken(tokens, email);
              && (t.Some? && !tokens[t.value].confirmed ==> m == CHECK_EMAIL)
              && ((t.None? || tokens[t.value].confirmed) && !u.isActive ==> m == UNDER_MODERATION)
              && ((t.None? || tokens[t.value].confirmed) && u.isActive ==> m == authMessage)
    ensures IsOpenRegister(settings) || FindUserByEmail(users, email).None? ==> m == authMessage
  {
    if IsOpenRegister(settings) then authMessage
    else match FindUserByEmail(users, email)
      case None => authMessage
      case Some(i) =>
        match LatestToken(tokens, email)
        case Some(t) =>
          if !tokens[t].confirmed then CHECK_EMAIL
          else if !users[i].isActive then UNDER_MODERATION
          else authMessage
        case None =>
          if !users[i].isActive then UNDER_MODERATION else authMessage
  }

  /** The checks of loginAction, in order. `authValid` and `authMessage`
      are the outcome of the session authentication, consulted only when
      guest_login_session is set. On success the check yields the index of
      the account that logs in. */
  function LoginCheck(settings: Settings, users: seq<User>, tokens: seq<GuestToken>,
                      origin: Option<string>, logged: bool, email: Option<string>, emailValid: bool,
                      password: Option<string>, authValid: bool, authMessage: string,
                      flashed: string): (r: Check<nat>)
    ensures Cors.CheckCors(settings.cors, origin, flashed).Deny? ==>
              r == Stop(Cors.CheckCors(settings.cors, origin, flashed).response)
    ensures r.Go? <==>
              && Cors.CheckCors(settings.cors, origin, flashed).Allow?
              && !logged && !Empty(email) && emailValid && !Empty(password)
              && FindActiveUserByEmail(users, email.value).Some?
              && VerifyPassword(users[FindActiveUserByEmail(users, email.value).value], password.value)
              && users[FindActiveUserByEmail(users, email.value).value].role in settings.loginRoles
              && (settings.loginSession ==> authValid)
    ensures r.Go? ==> r.value == FindActiveUserByEmail(users, email.value).value
    // an unknown email and a wrong password are answered alike
    ensures && Cors.CheckCors(settings.cors, origin, flashed).Allow?
            && !logged && !Empty(email) && emailValid && !Empty(password)
            && (|| FindActiveUserByEmail(users, email.value).None?
                || !VerifyPassword(users[FindActiveUserByEmail(users, email.value).value], password.value))
            ==> r == Stop(FailOn("user", WRONG_CREDENTIALS, flashed))
    ensures r.Stop? ==> r.response.json.status == FAIL
  {
    match Cors.CheckCors(settings.cors, origin, flashed)
    case Deny(response) => Stop(response)
    case Allow(_) =>
      if logged then Stop(FailOn("user", ALREADY_LOGGED_LOGIN, flashed))
      else if Empty(email) then Stop(FailOn("email", EMAIL_REQUIRED, flashed))
      else if !emailValid then Stop(FailOn("email", EMAIL_INVALID, flashed))
      else if Empty(password) then Stop(FailOn("password", PASSWORD_REQUIRED, flashed))
      else match FindActiveUserByEmail(users, email.value)
        case None => Stop(FailOn("user", WRONG_CREDENTIALS, flashed))
        case Some(i) =>
          if !VerifyPassword(users[i], password.value) then Stop(FailOn("user", WRONG_CREDENTIALS, flashed))
          else if users[i].role !in settings.loginRoles then Stop(FailOn("user", ROLE_REFUSED, flashed))
          else if settings.loginSession && !authValid then
            Stop(FailOn("user", SessionRefusal(settings, users, tokens, email.value, authMessage), flashed))
          else Go(i)
  }

  /** When no two accounts share an email, login never answers that the
      account is under moderation: an inactive account is already refused
      as a wrong email, before the session authentication is consulted. */
  lemma ModerationNoticeUnreachable(settings: Settings, users: seq<User>, tokens: seq<GuestToken>,
                                    origin: Option<string>, logged: bool, email: Option<string>,
                                    emailValid: bool, password: Option<string>, authValid: bool,
                                    authMessage: string, flashed: string)
    requires UniqueEmails(users)
    requires authMessage != UNDER_MODERATION
    ensures LoginCheck(settings, users, tokens, origin, logged, email, emailValid, password,
                       authValid, authMessage, flashed)
            != Stop(FailOn("user", UNDER_MODERATION, flashed))
  {
    assert FailOn("user", UNDER_MODERATION, flashed).json.data.d["user"] == Str(UNDER_MODERATION);
    if email.Some? && FindActiveUserByEmail(users, email.value).Some? {
      var a := FindActiveUserByEmail(users, email.value).value;
      var b := FindUserByEmail(users, email.value).value;
      assert users[a].email == users[b].email;
    }
  }

  /** The payload of prepareSessionToken: the user's id and the new key. */
  function SessionTokenData(user: UserId, keyId: string, credential: string): (d: Data)
    ensures "key_identity" in d && d["key_identity"] == Str(keyId)
    ensures "key_credential" in d && d["key_credential"] == Str(credential)
    ensures "user" in d && d["user"] == Obj(map["o:id" := Int(user)])
  {
    map["user" := Obj(map["o:id" := Int(user)]), "key_identity" := Str(keyId),
        "key_credential" := Str(credential)]
  }

  // ---------------------------------------------------------------------
  // Partial update of the logged user

  /** A request body: each key maps to its value, None for null. */
  type Request = map<string, Option<string>>

  /** `array_filter($data)` is not empty: some value is truthy. */
  predicate HasTruthy(data: Request)
  {
    exists k :: k in data && data[k].Some? && Truthy(data[k].value)
  }

  /** The request with `name` and `email` moved to `o:name` and `o:email`
      when set, and removed in any case. */
  function Aliased(data: Request): (d: Request)
    ensures "name" !in d && "email" !in d
    ensures Isset(data, "name") ==> "o:name" in d && d["o:name"] == data["name"]
    ensures !Isset(data, "name") ==>
              ("o:name" in d <==> "o:name" in data) && ("o:name" in data ==> d["o:name"] == data["o:name"])
    ensures Isset(data, "email") ==> "o:email" in d && d["o:email"] == data["email"]
    ensures !Isset(data, "email") ==>
              ("o:email" in d <==> "o:email" in data) && ("o:email" in data ==> d["o:email"] == data["o:email"])
    ensures forall k :: k != "name" && k != "email" && k != "o:name" && k != "o:email" ==>
              (k in d <==> k in data) && (k in d ==> d[k] == data[k])
  {
    var named := if Isset(data, "name") then data["o:name" := data["name"]] else data;
    var unnamed := named - {"name"};
    var mailed := if Isset(data, "email") then unnamed["o:email" := data["email"]] else unnamed;
    mailed - {"email"}
  }

  /** Where updatePatch sends a request. */
  datatype Patch =
    | Refuse(response: Response)
    | ToPassword                // changePassword with the request as sent
    | ToEmail(data: Request)    // changeEmail with the aliased request
    | Update(toPatch: Request)  // a partial api update of the user

  /** updatePatch: an empty request is refused; a password in it sends it
      to the password change; an email (aliased) to the email change, when
      the user may change it; else only the name may be updated, and not
      to an empty one. */
  function PlanPatch(data: Request, registerSite: bool, userHasSite: bool, flashed: string): (r: Patch)
    ensures !HasTruthy(data) ==> r == Refuse(FailOn("user", REQUEST_EMPTY, flashed))
    ensures HasTruthy(data) ==> (r == ToPassword <==> Isset(data, "password") || Isset(data, "new_password"))
    ensures r.ToEmail? <==>
              && HasTruthy(data) && !Isset(data, "password") && !Isset(data, "new_password")
              && Isset(Aliased(data), "o:email") && (registerSite ==> userHasSite)
    ensures r.ToEmail? ==> r.data == Aliased(data)
    ensures r.Update? ==>
              && HasTruthy(data) && !Isset(data, "password") && !Isset(data, "new_password")
              && r.toPatch == Aliased(data)
              && (forall k :: k in r.toPatch ==> k == "o:name")
    // past the routing, the whitelist, then the empty name
    ensures var d := Aliased(data);
            HasTruthy(data) && !Isset(data, "password") && !Isset(data, "new_password") && !Isset(d, "o:email") ==>
              && (d.Keys - {"o:name"} != {} ==> r == Refuse(FailOn("user", NOT_UPDATABLE, flashed)))
              && (d.Keys <= {"o:name"} && Isset(d, "o:name") && Empty(d["o:name"]) ==>
                    r == Refuse(FailOn("name", NAME_EMPTY, flashed)))
              && (d.Keys <= {"o:name"} && !(Isset(d, "o:name") && Empty(d["o:name"])) ==> r == Update(d))
    ensures r.Refuse? ==> r.response.json.status == FAIL
  {
    if !HasTruthy(data) then Refuse(FailOn("user", REQUEST_EMPTY, flashed))
    else if Isset(data, "password") || Isset(data, "new_password") then ToPassword
    else
      var d := Aliased(data);
      if Isset(d, "o:email") then
        if registerSite && !userHasSite then Refuse(FailOn("email", EMAIL_NO_SITE, flashed))
        else ToEmail(d)
      else if d.Keys - {"o:name"} != {} then Refuse(FailOn("user", NOT_UPDATABLE, flashed))
      else if Isset(d, "o:name") && Empty(d["o:name"]) then Refuse(FailOn("name", NAME_EMPTY, flashed))
      else Update(d)
  }

  /** The only update updatePatch lets through sets a non-empty name and
      nothing else. */
  lemma PatchOnlyRenames(data: Request, registerSite: bool, userHasSite: bool, flashed: string)
    requires PlanPatch(data, registerSite, userHasSite, flashed).Update?
    ensures var m := PlanPatch(data, registerSite, userHasSite, flashed).toPatch;
            && "o:name" in m && m["o:name"].Some? && Truthy(m["o:name"].value)
            && m == map["o:name" := m["o:name"]]
  {
    var d := Aliased(data);
    var k :| k in data && data[k].Some? && Truthy(data[k].value);
    assert "o:name" in d && d["o:name"].Some?;
    assert d.Keys == {"o:name"};
  }

  /** changePassword: the request may hold the two passwords and nothing
      more; the current one must verify and the new one have six
      characters or more. On success the check yields the new password. */
  function PasswordChange(data: Request, user: User, flashed: string): (r: Check<string>)
    ensures r.Go? <==>
              && |data| <= 2
              && !Empty(Lookup(data, "password")) && !Empty(Lookup(data, "new_password"))
              && |data["new_password"].value| >= MIN_PASSWORD_LENGTH
              && VerifyPassword(user, data["password"].value)
    ensures r.Go? ==> r.value == data["new_password"].value
    ensures |data| > 2 ==> r == Stop(FailOn("password", PASSWORD_WITH_OTHER, flashed))
    ensures r.Stop? ==> r.response.json.status == FAIL
  {
    if |data| > 2 then Stop(FailOn("password", PASSWORD_WITH_OTHER, flashed))
    else if Empty(Lookup(data, "password")) then Stop(FailOn("password", CURRENT_PASSWORD_EMPTY, flashed))
    else if Empty(Lookup(data, "new_password")) then Stop(FailOn("password", NEW_PASSWORD_EMPTY, flashed))
    else if |data["new_password"].value| < MIN_PASSWORD_LENGTH then Stop(FailOn("password", PASSWORD_TOO_SHORT, flashed))
    else if !VerifyPassword(user, data["password"].value) then Stop(FailOn("password", WRONG_PASSWORD, flashed))
    else Go(data["new_password"].value)
  }

  /** changeEmail up to the token: the request may hold the email alone; it
      must be a valid email, not the current one, and no account may hold
      it. On success the check yields the requested email. */
  function EmailChange(data: Request, user: User, users: seq<User>, emailValid: bool,
                       flashed: string): (r: Check<string>)
    ensures r.Go? <==>
              && |data| <= 1 && !Empty(Lookup(data, "o:email")) && emailValid
              && data["o:email"].value != user.email
              && FindUserByEmail(users, data["o:email"].value).None?
    ensures r.Go? ==> r.value == data["o:email"].value
    ensures r.Go? ==> forall j :: 0 <= j < |users| ==> users[j].email != r.value
    ensures r.Stop? ==> r.response.json.status == FAIL
  {
    if |data| > 1 then Stop(FailOn("email", EMAIL_WITH_OTHER, flashed))
    else if Empty(Lookup(data, "o:email")) then Stop(FailOn("email", NEW_EMAIL_EMPTY, flashed))
    else
      var email := data["o:email"].value;
      if !emailValid then Stop(FailOn("email", NOT_AN_EMAIL, flashed))
      else if email == user.email then Stop(FailOn("email", SAME_EMAIL, flashed))
      else if FindUserByEmail(users, email).Some? then Stop(FailOn("email", EMAIL_TAKEN, flashed))
      else Go(email)
  }

  /** The token `changeEmail` issues AS WRITTEN: `createGuestToken($user)`
      reads the email of the account, which still holds the old address. */
  function EmailChangeTokenAsWritten(tokens: seq<GuestToken>, tokenValue: string, user: User): (t: GuestToken)
    ensures t.email == user.email && t.user == user.id && t.token == tokenValue && !t.confirmed
  {
    NewToken(tokens, tokenValue, user.email, user.id)
  }

  /** As written, the email change is lost: for any request that passes the
      checks, the token carries the account's current email, so
      `confirmEmail` finds the account itself as owner and as holder of that
      email, goes through, and writes the old email back. */
  lemma AsWrittenEmailChangeIsLost(data: Request, users: seq<User>, i: nat, emailValid: bool,
                                   flashed: string, tokens: seq<GuestToken>, tokenValue: string)
    requires UniqueEmails(users) && DistinctUserIds(users) && i < |users|
    requires EmailChange(data, users[i], users, emailValid, flashed).Go?
    ensures var requested := EmailChange(data, users[i], users, emailValid, flashed).value;
            var t := EmailChangeTokenAsWritten(tokens, tokenValue, users[i]);
            && t.email != requested
            && FindUserById(users, t.user) == Some(i)
            && FindUserByEmail(users, t.email) == Some(i)
            && users[i := users[i].(email := t.email)] == users
  {
    var t := EmailChangeTokenAsWritten(tokens, tokenValue, users[i]);
    var h := FindUserByEmail(users, t.email);
    assert h.Some? by { assert users[i].email == t.email; }
    var o := FindUserById(users, t.user);
    assert o.Some? by { assert users[i].id == t.user; }
  }

  /** The token `changeEmail` evidently means to issue: one for the requested
      email, owned by the account. */
  function EmailChangeToken(tokens: seq<GuestToken>, tokenValue: string, user: User, requested: string): (t: GuestToken)
    ensures t.email == requested && t.user == user.id && t.token == tokenValue && !t.confirmed
    ensures forall k :: 0 <= k < |tokens| ==> tokens[k].id < t.id
  {
    NewToken(tokens, tokenValue, requested, user.id)
  }

  /** With the corrected token the change completes: `confirmEmail` finds the
      account as owner and no account holding the requested email, and the
      account then carries the requested email with the store's keys kept. */
  lemma EmailChangeCompletes(data: Request, users: seq<User>, i: nat, emailValid: bool,
                             flashed: string, tokens: seq<GuestToken>, tokenValue: string)
    requires UniqueEmails(users) && DistinctUserIds(users) && i < |users|
    requires EmailChange(data, users[i], users, emailValid, flashed).Go?
    ensures var requested := EmailChange(data, users[i], users, emailValid, flashed).value;
            var t := EmailChangeToken(tokens, tokenValue, users[i], requested);
            var after := users[i := users[i].(email := t.email)];
            && FindUserById(users, t.user) == Some(i)
            && FindUserByEmail(users, t.email).None?
            && after[i].email == requested && after[i].email != users[i].email
            && UniqueEmails(after) && DistinctUserIds(after)
  {
    var requested := EmailChange(data, users[i], users, emailValid, flashed).value;
    var t := EmailChangeToken(tokens, tokenValue, users[i], requested);
    var o := FindUserById(users, t.user);
    assert o.Some? by { assert users[i].id == t.user; }
    SetEmailKeepsKeys(users, i, requested);
  }

  /** returnSessionToken: the envelope of prepareSessionToken, nested under
      'session_token' in a success. */
  function SessionTokenReply(user: UserId, keyId: string, credential: string, flashed: string): (r: Response)
    ensures r.json.status == SUCCESS && r.json.data.Present?
    ensures "session_token" in r.json.data.d
    ensures var t := r.json.data.d["session_token"];
            && t.Obj? && "status" in t.fields && t.fields["status"] == Str(SUCCESS)
            && "data" in t.fields && t.fields["data"] == Obj(SessionTokenData(user, keyId, credential))
  {
    var inner := SucceedWith(SessionTokenData(user, keyId, credential), None, flashed);
    var d := map["session_token" := ToValue(inner.json)];
    assert "session_token" in d;
    SucceedWith(d, None, flashed)
  }

  // ---------------------------------------------------------------------
  // The controller

  class GuestApiController {
    const store: Store
    const settings: Settings
    /** The error messages already queued in the messenger, joined. */
    const flashed: string

    constructor (store: Store, settings: Settings, flashed: string)
      ensures this.store == store && this.settings == settings && this.flashed == flashed
    {
      this.store := store;
      this.settings := settings;
      this.flashed := flashed;
    }

    /** removeSessionTokens: the user keeps no session key. */
    method RemoveSessionTokens(user: UserId)
      requires store.Valid()
      modifies store
      ensures store.Valid()
      ensures store.keys == WithoutSessionKeys(old(store.keys), user)
      ensures SessionKeyCount(store.keys, user) == 0
      ensures unchanged(store`users, store`tokens, store`resets, store`permissions, store`sites)
    {
      store.keys := RemoveSessionKeys(store.keys, user);
      NoSessionKeyLeft(old(store.keys), user);
    }

    /** prepareSessionToken: the user's session keys give way to one new
        key, whose id and credential are answered. */
    method PrepareSessionToken(user: UserId, keyId: string, credential: string) returns (r: Response)
      requires store.Valid()
      modifies store
      ensures store.Valid()
      ensures store.keys == WithoutSessionKeys(old(store.keys), user) + [SessionKey(keyId, user, credential)]
      ensures SessionKeyCount(store.keys, user) == 1
      ensures unchanged(store`users, store`tokens, store`resets, store`permissions, store`sites)
      ensures r == SucceedWith(SessionTokenData(user, keyId, credential), None, flashed)
    {
      RemoveSessionTokens(user);
      store.keys := store.keys + [SessionKey(keyId, user, credential)];
      OneSessionKeyAfterIssue(old(store.keys), user, keyId, credential);
      r := SucceedWith(SessionTokenData(user, keyId, credential), None, flashed);
    }

    method ReturnSessionToken(user: UserId, keyId: string, credential: string) returns (r: Response)
      requires store.Valid()
      modifies store
      ensures store.Valid()
      ensures store.keys == WithoutSessionKeys(old(store.keys), user) + [SessionKey(keyId, user, credential)]
      ensures unchanged(store`users, store`tokens, store`resets, store`permissions, store`sites)
      ensures r == SessionTokenReply(user, keyId, credential, flashed)
    {
      var token := PrepareSessionToken(user, keyId, credential);
      r := SucceedWith(map["session_token" := ToValue(token.json)], None, flashed);
    }

    /** loginAction. `redirect` is the query's redirect parameter; the
        session key is created only when there is none. */
    method Login(origin: Option<string>, logged: bool, email: Option<string>, emailValid: bool,
                 password: Option<string>, authValid: bool, authMessage: string,
                 redirect: Option<string>, keyId: string, credential: string) returns (r: Reply)
      requires store.Valid()
      modifies store
      ensures store.Valid()
      ensures unchanged(store`users, store`tokens, store`resets, store`permissions, store`sites)
      ensures var c := LoginCheck(settings, old(store.users), old(store.tokens), origin, logged, email,
                                  emailValid, password, authValid, authMessage, flashed);
              && (c.Stop? ==> r == Json(c.response) && store.keys == old(store.keys))
              && (c.Go? && !Empty(redirect) ==> r == Redirect(redirect.value) && store.keys == old(store.keys))
              && (c.Go? && Empty(redirect) ==>
                    var u := old(store.users)[c.value].id;
                    && store.keys == WithoutSessionKeys(old(store.keys), u) + [SessionKey(keyId, u, credential)]
                    && r == Json(SessionTokenReply(u, keyId, credential, flashed)))
    {
      var c := LoginCheck(settings, store.users, store.tokens, origin, logged, email,
                          emailValid, password, authValid, authMessage, flashed);
      match c
      case Stop(response) =>
        r := Json(response);
      case Go(i) =>
        if !Empty(redirect) {
          r := Redirect(redirect.value);
        } else {
          var response := ReturnSessionToken(store.users[i].id, keyId, credential);
          r := Json(response);
        }
    }

    /** logoutAction: the user of either authentication loses every
        session key. */
    method Logout(origin: Option<string>, identity: Option<UserId>, sessionIdentity: Option<UserId>)
      returns (r: Response)
      requires store.Valid()
      modifies store
      ensures store.Valid()
      ensures unchanged(store`users, store`tokens, store`resets, store`permissions, store`sites)
      ensures Cors.CheckCors(settings.cors, origin, flashed).Deny? ==>
                r == Cors.CheckCors(settings.cors, origin, flashed).response && store.keys == old(store.keys)
      ensures Cors.CheckCors(settings.cors, origin, flashed).Allow? && identity.None? && sessionIdentity.None? ==>
                r == FailOn("user", NOT_LOGGED, flashed) && store.keys == old(store.keys)
      ensures Cors.CheckCors(settings.cors, origin, flashed).Allow? && (identity.Some? || sessionIdentity.Some?) ==>
                var u := if identity.Some? then identity.value else sessionIdentity.value;
                && store.keys == WithoutSessionKeys(old(store.keys), u)
                && SessionKeyCount(store.keys, u) == 0
                && r == SucceedWith(map["user" := Null], Some(LOGGED_OUT), flashed)
    {
      match Cors.CheckCors(settings.cors, origin, flashed)
      case Deny(response) =>
        r := response;
      case Allow(_) =>
        var user := if identity.Some? then identity else sessionIdentity;
        if user.None? {
          r := FailOn("user", NOT_LOGGED, flashed);
        } else {
          RemoveSessionTokens(user.value);
          r := SucceedWith(map["user" := Null], Some(LOGGED_OUT), flashed);
        }
    }

    /** sessionTokenAction: a logged user gets a fresh session key. */
    method SessionToken(origin: Option<string>, logged: Option<UserId>, keyId: string, credential: string)
      returns (r: Response)
      requires store.Valid()
      modifies store
      ensures store.Valid()
      ensures unchanged(store`users, store`tokens, store`resets, store`permissions, store`sites)
      ensures Cors.CheckCors(settings.cors, origin, flashed).Deny? ==>
                r == Cors.CheckCors(settings.cors, origin, flashed).response && store.keys == old(store.keys)
      ensures Cors.CheckCors(settings.cors, origin, flashed).Allow? && logged.None? ==>
                r == FailWithStatus("user", UNAUTHORIZED, HTTP_UNAUTHORIZED, flashed) && store.keys == old(store.keys)
      ensures Cors.CheckCors(settings.cors, origin, flashed).Allow? && logged.Some? ==>
                && store.keys == WithoutSessionKeys(old(store.keys), logged.value)
                                 + [SessionKey(keyId, logged.value, credential)]
                && r == SessionTokenReply(logged.value, keyId, credential, flashed)
    {
      match Cors.CheckCors(settings.cors, origin, flashed)
      case Deny(response) =>
        r := response;
      case Allow(_) =>
        if logged.None? {
          r := FailWithStatus("user", UNAUTHORIZED, HTTP_UNAUTHORIZED, flashed);
        } else {
          r := ReturnSessionToken(logged.value, keyId, credential);
        }
    }

    /** registerAction. `siteFound` is the id the posted site resolves to,
        `emailValid` the email filter's verdict, `newUserId` the id the new
        account receives, `tokenValue` the random token and `mailSent`
        whether the confirmation email went out. */
    method Register(origin: Option<string>, logged: bool, email: Option<string>, username: Option<string>,
                    password: Option<string>, emailValid: bool, site: Option<string>, siteFound: Option<int>,
                    newUserId: UserId, tokenValue: string, mailSent: bool) returns (r: Response)
      requires store.Valid()
      // the database's auto id: no account holds it yet
      requires FindUserById(store.users, newUserId).None?
      modifies store
      ensures store.Valid()
      ensures unchanged(store`resets, store`keys, store`sites)
      ensures var c := RegisterCheck(settings, origin, logged, email, emailValid, site, siteFound, flashed);
              c.Stop? ==> r == c.response && unchanged(store`users, store`tokens, store`permissions)
      // an email with an account: nothing is created, the newest token may be confirmed
      ensures var c := RegisterCheck(settings, origin, logged, email, emailValid, site, siteFound, flashed);
              c.Go? && FindUserByEmail(old(store.users), email.value).Some? ==>
                && unchanged(store`users, store`permissions)
                && store.tokens == AfterReRegister(old(store.tokens), email.value, settings.emailIsValid)
                && r == FailOn("user", if ReRegister(old(store.tokens), email.value, settings.emailIsValid) == CheckEmail
                                       then CHECK_EMAIL else ALREADY_REGISTERED, flashed)
      // a new email: the guest, its site permission and its token are created
      ensures var c := RegisterCheck(settings, origin, logged, email, emailValid, site, siteFound, flashed);
              c.Go? && FindUserByEmail(old(store.users), email.value).None? ==>
                var u := NewGuest(newUserId, email.value, username, password, settings);
                && store.users == old(store.users) + [u]
                && store.permissions == old(store.permissions)
                     + (if c.value.Some? then [SitePermission(c.value.value, newUserId, ROLE_VIEWER)] else [])
                && store.tokens == old(store.tokens)
                     + (if settings.emailIsValid then [] else [NewToken(old(store.tokens), tokenValue, email.value, newUserId)])
                && r == (if mailSent then SucceedWith(map["user" := UserRepr(u)], Some(WelcomeMessage(settings)), flashed)
                         else ErrorWith(MAIL_ERROR, flashed))
    {
      var c := RegisterCheck(settings, origin, logged, email, emailValid, site, siteFound, flashed);
      if c.Stop? {
        return c.response;
      }
      var address := email.value;
      if FindUserByEmail(store.users, address).Some? {
        var decision := ReRegister(store.tokens, address, settings.emailIsValid);
        if decision.ConfirmLatest? {
          var i := decision.index;
          store.tokens := store.tokens[i := store.tokens[i].(confirmed := true)];
        }
        return FailOn("user", if decision == CheckEmail then CHECK_EMAIL else ALREADY_REGISTERED, flashed);
      }
      var u := NewGuest(newUserId, address, username, password, settings);
      AppendFreshUserKeepsKeys(store.users, u);
      store.users := store.users + [u];
      if c.value.Some? {
        store.permissions := store.permissions + [SitePermission(c.value.value, newUserId, ROLE_VIEWER)];
      }
      if !settings.emailIsValid {
        store.tokens := store.tokens + [NewToken(store.tokens, tokenValue, address, newUserId)];
      }
      if !mailSent {
        return ErrorWith(MAIL_ERROR, flashed);
      }
      r := SucceedWith(map["user" := UserRepr(u)], Some(WelcomeMessage(settings)), flashed);
    }

    /** The issuing half of forgotPasswordAction: the user's previous
        record is removed, a record is created under `createdId`, then
        renamed to the first of the random `draws` that no record holds. */
    method IssueResetCode(user: UserId, now: int, createdId: string, draws: seq<string>)
      returns (code: string)
      requires store.Valid()
      requires FindReset(store.resets, createdId).None?
      requires forall j :: 0 <= j < |draws| ==> IsResetCode(draws[j])
      requires exists j :: 0 <= j < |draws| && draws[j] != createdId && FindReset(store.resets, draws[j]).None?
      modifies store
      ensures store.Valid()
      ensures unchanged(store`users, store`tokens, store`keys, store`permissions, store`sites)
      ensures store.resets == WithoutResetOf(old(store.resets), user) + [PasswordCreation(code, user, now, false)]
      ensures IsResetCode(code) && code in draws && code != createdId
      ensures FindReset(store.resets, code) == Some(|store.resets| - 1)
      ensures FindResetOf(store.resets, user) == Some(|store.resets| - 1)
      // the code is the first draw free once the user's old record is gone
      // and the new record sits under `createdId`
      ensures exists k :: 0 <= k < |draws| && code == draws[k]
                && forall j :: 0 <= j < k ==>
                     FindReset(WithoutResetOf(old(store.resets), user) + [PasswordCreation(createdId, user, now, false)], draws[j]).Some?
    {
      WithoutResetOfRemovesAll(store.resets, user);
      WithoutResetOfKeepsDistinctIds(store.resets, user);
      var kept := WithoutResetOf(store.resets, user);
      var held := kept + [PasswordCreation(createdId, user, now, false)];
      var j :| 0 <= j < |draws| && draws[j] != createdId && FindReset(store.resets, draws[j]).None?;
      FreeIdStaysFree(store.resets, user, PasswordCreation(createdId, user, now, false), draws[j]);
      var k := DrawResetId(held, draws);
      code := draws[k];
      var issued := PasswordCreation(code, user, now, false);
      FreeWithoutLast(kept, PasswordCreation(createdId, user, now, false), code);
      IssueKeepsOnePerUser(store.resets, issued);
      AppendFreshIdKeepsDistinct(kept, issued);
      assert 0 <= k < |draws| && code == draws[k];
      store.resets := kept + [issued];
    }

    /** The redeeming half of forgotPasswordAction, for the user at index
        `i`, at time `now`. */
    method RedeemResetCode(i: nat, code: string, password: Option<string>, now: int) returns (r: Response)
      requires store.Valid() && i < |store.users|
      modifies store
      ensures store.Valid()
      ensures unchanged(store`tokens, store`keys, store`permissions, store`sites)
      ensures var u := old(store.users)[i];
              var d := RedeemCheck(old(store.resets), code, u, now, password, flashed);
              && (d.Reject? ==> r == d.response && unchanged(store`users, store`resets))
              && (d.ExpireAt? ==>
                    && r == d.response && unchanged(store`users)
                    && store.resets == old(store.resets)[..d.index] + old(store.resets)[d.index + 1..])
              && (d.Accept? ==>
                    var u' := u.(password := Some(d.password),
                                 isActive := u.isActive || old(store.resets)[d.index].activate);
                    && store.users == old(store.users)[i := u']
                    && store.resets == old(store.resets)[..d.index] + old(store.resets)[d.index + 1..]
                    && r == SucceedWith(map["user" := UserRepr(u')], None, flashed))
    {
      var u := store.users[i];
      match RedeemCheck(store.resets, code, u, now, password, flashed)
      case Reject(response) =>
        r := response;
      case ExpireAt(at, response) =>
        RemoveKeepsOnePerUser(store.resets, at);
        RemoveKeepsDistinctIds(store.resets, at);
        store.resets := store.resets[..at] + store.resets[at + 1..];
        r := response;
      case Accept(at, newPassword) =>
        var u' := u.(password := Some(newPassword), isActive := u.isActive || store.resets[at].activate);
        store.users := store.users[i := u'];
        RemoveKeepsOnePerUser(store.resets, at);
        RemoveKeepsDistinctIds(store.resets, at);
        store.resets := store.resets[..at] + store.resets[at + 1..];
        r := SucceedWith(map["user" := UserRepr(u')], None, flashed);
    }

    /** forgotPasswordAction: without a (truthy) code it issues one, with a
        code it redeems it. */
    method ForgotPassword(logged: bool, email: Option<string>, emailValid: bool, code: Option<string>,
                          password: Option<string>, now: int, createdId: string, draws: seq<string>)
      returns (r: Response)
      requires store.Valid()
      requires FindReset(store.resets, createdId).None?
      requires forall j :: 0 <= j < |draws| ==> IsResetCode(draws[j])
      requires exists j :: 0 <= j < |draws| && draws[j] != createdId && FindReset(store.resets, draws[j]).None?
      modifies store
      ensures store.Valid()
      ensures unchanged(store`tokens, store`keys, store`permissions, store`sites)
      ensures var c := ForgotCheck(logged, email, emailValid, old(store.users), flashed);
              c.Stop? ==> r == c.response && unchanged(store`users, store`resets)
      // issuing: the user holds exactly one record, under a fresh code
      ensures var c := ForgotCheck(logged, email, emailValid, old(store.users), flashed);
              c.Go? && Empty(code) ==>
                var user := old(store.users)[c.value].id;
                && unchanged(store`users)
                && |store.resets| > 0
                && (var p := store.resets[|store.resets| - 1];
                    && store.resets == WithoutResetOf(old(store.resets), user) + [PasswordCreation(p.id, user, now, false)]
                    && IsResetCode(p.id) && p.id in draws && p.id != createdId
                    && (exists k :: 0 <= k < |draws| && p.id == draws[k]
                          && forall j :: 0 <= j < k ==>
                               FindReset(WithoutResetOf(old(store.resets), user) + [PasswordCreation(createdId, user, now, false)], draws[j]).Some?)
                    && FindReset(store.resets, p.id) == Some(|store.resets| - 1)
                    && FindResetOf(store.resets, user) == Some(|store.resets| - 1))
                && r == SucceedWith(map["email" := Str(email.value)], None, flashed)
      // redeeming: as RedeemResetCode for the user the email names
      ensures var c := ForgotCheck(logged, email, emailValid, old(store.users), flashed);
              c.Go? && !Empty(code) ==>
                var u := old(store.users)[c.value];
                var d := RedeemCheck(old(store.resets), code.value, u, now, password, flashed);
                && (d.Reject? ==> r == d.response && unchanged(store`users, store`resets))
                && (d.ExpireAt? ==> r == d.response && unchanged(store`users)
                                    && store.resets == old(store.resets)[..d.index] + old(store.resets)[d.index + 1..])
                // the account is active already, so the record's activation flag changes nothing
                && (d.Accept? ==>
                      var u' := u.(password := Some(d.password));
                      && store.users == old(store.users)[c.value := u']
                      && store.resets == old(store.resets)[..d.index] + old(store.resets)[d.index + 1..]
                      && r == SucceedWith(map["user" := UserRepr(u')], None, flashed))
    {
      var c := ForgotCheck(logged, email, emailValid, store.users, flashed);
      if c.Stop? {
        return c.response;
      }
      if Empty(code) {
        var issued := IssueResetCode(store.users[c.value].id, now, createdId, draws);
        return SucceedWith(map["email" := Str(email.value)], None, flashed);
      }
      r := RedeemResetCode(c.value, code.value, password, now);
    }

    /** changePassword for the logged user at index `i`. */
    method ChangePassword(i: nat, data: Request) returns (r: Response)
      requires store.Valid() && i < |store.users|
      modifies store
      ensures store.Valid()
      ensures unchanged(store`tokens, store`resets, store`keys, store`permissions, store`sites)
      ensures var c := PasswordChange(data, old(store.users)[i], flashed);
              && (c.Stop? ==> r == c.response && unchanged(store`users))
              && (c.Go? ==>
                    var u := old(store.users)[i].(password := Some(c.value));
                    && store.users == old(store.users)[i := u]
                    && r == SucceedWith(map["user" := UserRepr(u)], Some(PASSWORD_CHANGED), flashed))
    {
      match PasswordChange(data, store.users[i], flashed)
      case Stop(response) =>
        r := response;
      case Go(newPassword) =>
        var u := store.users[i].(password := Some(newPassword));
        store.users := store.users[i := u];
        r := SucceedWith(map["user" := UserRepr(u)], Some(PASSWORD_CHANGED), flashed);
    }

    /** changeEmail for the logged user at index `i`: a token for the
        requested email is issued, and the account keeps its email until
        the token is confirmed. */
    method ChangeEmail(i: nat, data: Request, emailValid: bool, tokenValue: string, mailSent: bool)
      returns (r: Response)
      requires store.Valid() && i < |store.users|
      modifies store
      ensures store.Valid()
      ensures unchanged(store`users, store`resets, store`keys, store`permissions, store`sites)
      ensures var c := EmailChange(data, old(store.users)[i], old(store.users), emailValid, flashed);
              && (c.Stop? ==> r == c.response && unchanged(store`tokens))
              && (c.Go? ==>
                    && store.tokens == old(store.tokens) + [EmailChangeToken(old(store.tokens), tokenValue, old(store.users)[i], c.value)]
                    && r == (if mailSent then SucceedWith(map["user" := UserRepr(old(store.users)[i])], Some(CHECK_EMAIL_CHANGE), flashed)
                             else ErrorWith(MAIL_ERROR, flashed)))
    {
      match EmailChange(data, store.users[i], store.users, emailValid, flashed)
      case Stop(response) =>
        r := response;
      case Go(email) =>
        store.tokens := store.tokens + [EmailChangeToken(store.tokens, tokenValue, store.users[i], email)];
        if !mailSent {
          return ErrorWith(MAIL_ERROR, flashed);
        }
        r := SucceedWith(map["user" := UserRepr(store.users[i])], Some(CHECK_EMAIL_CHANGE), flashed);
    }

    /** updatePatch for the logged user at index `i`. `userHasSite` says
        whether the user has a site, `emailValid` is the email filter's
        verdict on the requested email. */
    method UpdatePatch(i: nat, data: Request, userHasSite: bool, emailValid: bool, tokenValue: string,
                       mailSent: bool) returns (r: Response)
      requires store.Valid() && i < |store.users|
      modifies store
      ensures store.Valid()
      ensures unchanged(store`resets, store`keys, store`permissions, store`sites)
      ensures var p := PlanPatch(data, settings.registerSite, userHasSite, flashed);
              && (p.Refuse? ==> r == p.response && unchanged(store`users, store`tokens))
              // a password change: the password changes only when every check passes
              && (p.ToPassword? ==>
                    var c := PasswordChange(data, old(store.users)[i], flashed);
                    && unchanged(store`tokens)
                    && (c.Stop? ==> r == c.response && unchanged(store`users))
                    && (c.Go? ==>
                          var u := old(store.users)[i].(password := Some(c.value));
                          && store.users == old(store.users)[i := u]
                          && r == SucceedWith(map["user" := UserRepr(u)], Some(PASSWORD_CHANGED), flashed)))
              // an email change only issues a token, for the requested email
              && (p.ToEmail? ==>
                    var c := EmailChange(p.data, old(store.users)[i], old(store.users), emailValid, flashed);
                    && unchanged(store`users)
                    && (c.Stop? ==> r == c.response && unchanged(store`tokens))
                    && (c.Go? ==>
                          && store.tokens == old(store.tokens) + [EmailChangeToken(old(store.tokens), tokenValue, old(store.users)[i], c.value)]
                          && r == (if mailSent then SucceedWith(map["user" := UserRepr(old(store.users)[i])], Some(CHECK_EMAIL_CHANGE), flashed)
                                   else ErrorWith(MAIL_ERROR, flashed))))
              // the only direct update sets a non-empty name
              && (p.Update? ==>
                    && "o:name" in p.toPatch && p.toPatch["o:name"].Some? && Truthy(p.toPatch["o:name"].value)
                    && var u := old(store.users)[i].(name := p.toPatch["o:name"].value);
                       && unchanged(store`tokens)
                       && store.users == old(store.users)[i := u]
                       && r == SucceedWith(map["user" := UserRepr(u)], None, flashed))
    {
      match PlanPatch(data, settings.registerSite, userHasSite, flashed)
      case Refuse(response) =>
        r := response;
      case ToPassword =>
        r := ChangePassword(i, data);
      case ToEmail(aliased) =>
        r := ChangeEmail(i, aliased, emailValid, tokenValue, mailSent);
      case Update(toPatch) =>
        PatchOnlyRenames(data, settings.registerSite, userHasSite, flashed);
        var u := store.users[i].(name := toPatch["o:name"].value);
        store.users := store.users[i := u];
        r := SucceedWith(map["user" := UserRepr(u)], None, flashed);
    }
  }
}
