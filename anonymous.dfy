/** The site pages an anonymous visitor uses: registration with its
    confirmation link, the confirmation of an email, and the request for a
    password reset. Each action answers with the page it shows or
    redirects to and the notice it queues. */
module Anonymous {
  import opened Php
  import opened Entities
  import opened Tokens
  import opened SessionKeys
  import opened Permissions
  import opened Resets

  const FORM_INVALID := "Email or password invalid"
  const PASSWORD_MISSING := "A password must be set."
  const ALREADY_REGISTERED := "Already registered."
  const CHECK_EMAIL := "Check your email to confirm your registration."
  const NOTIFY_ERROR := "An error occurred when the notification email was sent."
  const MAIL_ERROR := "An error occurred when the email was sent."
  const TOKEN_STOP := "Invalid token stop"
  const THANKS_OPEN := "Thanks for joining {site_title}! You can now log in using the password you chose."
  const THANKS_MODERATE := "Thanks for joining {site_title}! Your registration is under moderation. See you soon!"
  const EMAIL_TOKEN_INVALID := "Invalid token: your email was not confirmed for {site_title}."
  const EMAIL_CONFIRMED := "Your email \"{user_email}\" is confirmed for {site_title}."
  const RESET_FAILED := "Activation unsuccessful"
  const RESET_SENT := "Check your email for instructions on how to reset your password"

  /** Where an action leaves the visitor. */
  datatype Page =
    | Form          // the action's own page, with its form
    | AdminOrSite   // the redirection of a logged user
    | LoginPage     // the guest login page
    | SitePage      // the site's home page
    | MePage        // the logged user's account page
    | UpdateEmail   // the logged user's email-update page
    | Url(url: string)
    | Fault         // the request dies on a missing entity; nothing is saved

  /** The message queued in the messenger, if any. */
  datatype Notice = Quiet | Failure(message: string) | Done(message: string)

  datatype WebReply = WebReply(page: Page, notice: Notice)

  /** The password part of the user form. `password` is None when the form
      has no 'password' key under 'change-password' (the older form, whose
      password sits under 'password-confirm'), and Some(None) when the key
      holds null. */
  datatype PasswordFields = PasswordFields(password: Option<Option<string>>, confirmPassword: Option<string>)

  /** The password of the registration form: from whichever form the
      values come from, and only when it is not empty. */
  function ExtractPassword(f: PasswordFields): (r: Option<string>)
    ensures r.Some? ==> Truthy(r.value)
    ensures f.password.Some? ==> (r.Some? <==> !Empty(f.password.value)) && (r.Some? ==> r == f.password.value)
    ensures f.password.None? ==> (r.Some? <==> !Empty(f.confirmPassword)) && (r.Some? ==> r == f.confirmPassword)
  {
    var chosen := if f.password.Some? then f.password.value else f.confirmPassword;
    if Empty(chosen) then None else chosen
  }

  /** The checks of registerAction before any table is read: not logged,
      a posted and valid form, and a password. On success the check yields
      the password. */
  function RegisterForm(logged: bool, posted: bool, formValid: bool, f: PasswordFields): (r: Option<WebReply>)
    ensures r.None? <==> !logged && posted && formValid && ExtractPassword(f).Some?
    ensures logged ==> r == Some(WebReply(AdminOrSite, Quiet))
    ensures r.Some? && !logged ==> r.value.page == Form
  {
    if logged then Some(WebReply(AdminOrSite, Quiet))
    else if !posted then Some(WebReply(Form, Quiet))
    else if !formValid then Some(WebReply(Form, Failure(FORM_INVALID)))
    else if ExtractPassword(f).None? then Some(WebReply(Form, Failure(PASSWORD_MISSING)))
    else None
  }

  /** The message of a completed registration. */
  function RegisteredMessage(settings: Settings): (m: string)
    ensures IsOpenRegister(settings) ==> m == settings.confirmRegisterMessage
    ensures !IsOpenRegister(settings) ==> m == settings.confirmRegisterModerateMessage
  {
    if IsOpenRegister(settings) then settings.confirmRegisterMessage else settings.confirmRegisterModerateMessage
  }

  /** Confirming the newest token for an email registers that email:
      a later registration with it is refused. */
  lemma {:induction false} ConfirmLatestRegisters(tokens: seq<GuestToken>, t: nat, emailIsValid: bool)
    requires t < |tokens| && LatestToken(tokens, tokens[t].email) == Some(t)
    ensures ReRegister(tokens[t := tokens[t].(confirmed := true)], tokens[t].email, emailIsValid) == AlreadyRegistered
  {
    var after := tokens[t := tokens[t].(confirmed := true)];
    LatestTokenIgnoresConfirmation(tokens, after, tokens[t].email);
  }

  class AnonymousController {
    const store: Store
    const settings: Settings

    constructor (store: Store, settings: Settings)
      ensures this.store == store && this.settings == settings
    {
      this.store := store;
      this.settings := settings;
    }

    /** registerAction. `email` and `name` are the validated form's
        'user-information' values, `newUserId` the id the account receives,
        `tokenValue` the random token, `notifySent` and `confirmSent`
        whether the notification and the confirmation emails went out. */
    method Register(logged: bool, posted: bool, formValid: bool, email: string, name: string,
                    fields: PasswordFields, newUserId: UserId, tokenValue: string,
                    notifySent: bool, confirmSent: bool) returns (r: WebReply)
      requires store.Valid()
      // the database's auto id: no account holds it yet
      requires FindUserById(store.users, newUserId).None?
      modifies store
      ensures store.Valid()
      ensures unchanged(store`resets, store`keys, store`sites)
      ensures var gate := RegisterForm(logged, posted, formValid, fields);
              gate.Some? ==> r == gate.value && unchanged(store`users, store`tokens, store`permissions)
      // a known email: nothing changes, not even the newest token
      ensures RegisterForm(logged, posted, formValid, fields).None? && FindUserByEmail(old(store.users), email).Some? ==>
                && unchanged(store`users, store`tokens, store`permissions)
                && r == WebReply(LoginPage, Failure(if ReRegister(old(store.tokens), email, false) == CheckEmail
                                                    then CHECK_EMAIL else ALREADY_REGISTERED))
      // a new email: the guest is created with its default-site permissions
      ensures RegisterForm(logged, posted, formValid, fields).None? && FindUserByEmail(old(store.users), email).None? ==>
                var u := User(newUserId, email, name, ROLE_GUEST, IsOpenRegister(settings),
                              ExtractPassword(fields));
                && store.users == old(store.users) + [u]
                && store.permissions == old(store.permissions) + ViewerGrants(settings.defaultSites, old(store.sites), newUserId)
                && (settings.notifyRegister != [] && !notifySent ==>
                      && unchanged(store`tokens)
                      && r == WebReply(Form, Failure(NOTIFY_ERROR)))
                && (settings.notifyRegister == [] || notifySent ==>
                      && store.tokens == old(store.tokens) + [NewToken(old(store.tokens), tokenValue, email, newUserId)]
                      && r == (if confirmSent then WebReply(LoginPage, Done(RegisteredMessage(settings)))
                               else WebReply(Form, Failure(MAIL_ERROR))))
    {
      var gate := RegisterForm(logged, posted, formValid, fields);
      if gate.Some? {
        return gate.value;
      }
      if FindUserByEmail(store.users, email).Some? {
        var decision := ReRegister(store.tokens, email, false);
        return WebReply(LoginPage, Failure(if decision == CheckEmail then CHECK_EMAIL else ALREADY_REGISTERED));
      }
      var u := User(newUserId, email, name, ROLE_GUEST, IsOpenRegister(settings), ExtractPassword(fields));
      AppendFreshUserKeepsKeys(store.users, u);
      store.users := store.users + [u];
      var grants := GrantDefaultSites(settings.defaultSites, store.sites, newUserId);
      store.permissions := store.permissions + grants;
      if settings.notifyRegister != [] && !notifySent {
        return WebReply(Form, Failure(NOTIFY_ERROR));
      }
      store.tokens := store.tokens + [NewToken(store.tokens, tokenValue, email, newUserId)];
      if !confirmSent {
        return WebReply(Form, Failure(MAIL_ERROR));
      }
      r := WebReply(LoginPage, Done(RegisteredMessage(settings)));
    }

    /** confirmAction: the token is confirmed and its owner activated when
        registration is open, deactivated otherwise. */
    method Confirm(token: Option<string>) returns (r: WebReply)
      requires store.Valid()
      modifies store
      ensures store.Valid()
      ensures unchanged(store`resets, store`keys, store`permissions, store`sites)
      ensures token.None? || FindToken(old(store.tokens), token.value).None? ==>
                r == WebReply(SitePage, Failure(TOKEN_STOP)) && unchanged(store`users, store`tokens)
      ensures token.Some? && FindToken(old(store.tokens), token.value).Some? ==>
                var t := FindToken(old(store.tokens), token.value).value;
                var owner := FindUserById(old(store.users), old(store.tokens)[t].user);
                && (owner.None? ==> r == WebReply(Fault, Quiet) && unchanged(store`users, store`tokens))
                && (owner.Some? ==>
                      && store.tokens == old(store.tokens)[t := old(store.tokens)[t].(confirmed := true)]
                      && store.users == old(store.users)[owner.value := old(store.users)[owner.value].(isActive := IsOpenRegister(settings))]
                      && r == (if IsOpenRegister(settings) then WebReply(LoginPage, Done(THANKS_OPEN))
                               else WebReply(SitePage, Done(THANKS_MODERATE))))
    {
      if token.None? || FindToken(store.tokens, token.value).None? {
        return WebReply(SitePage, Failure(TOKEN_STOP));
      }
      var t := FindToken(store.tokens, token.value).value;
      var owner := FindUserById(store.users, store.tokens[t].user);
      if owner.None? {
        return WebReply(Fault, Quiet);
      }
      var o := owner.value;
      store.tokens := store.tokens[t := store.tokens[t].(confirmed := true)];
      ReplaceUserKeepsKeys(store.users, o, store.users[o].(isActive := IsOpenRegister(settings)));
      store.users := store.users[o := store.users[o].(isActive := IsOpenRegister(settings))];
      r := if IsOpenRegister(settings) then WebReply(LoginPage, Done(THANKS_OPEN))
           else WebReply(SitePage, Done(THANKS_MODERATE));
    }

    /** confirmEmail (confirm-email when `isUpdate` is false, validate-email
        when true): every token for the token's email is confirmed and the
        token's owner takes that email. */
    method ConfirmEmail(token: Option<string>, isUpdate: bool, logged: bool) returns (r: WebReply)
      requires store.Valid()
      modifies store
      ensures store.Valid()
      ensures unchanged(store`resets, store`keys, store`permissions, store`sites)
      ensures token.None? || FindToken(old(store.tokens), token.value).None? ==>
                && r == WebReply(if logged then UpdateEmail else LoginPage, Failure(EMAIL_TOKEN_INVALID))
                && unchanged(store`users, store`tokens)
      ensures token.Some? && FindToken(old(store.tokens), token.value).Some? ==>
                var t := old(store.tokens)[FindToken(old(store.tokens), token.value).value];
                var owner := FindUserById(old(store.users), t.user);
                var holder := FindUserByEmail(old(store.users), t.email);
                && (owner.None? ==> r == WebReply(Fault, Quiet) && unchanged(store`users, store`tokens))
                // another account holds the email: the unique email column refuses the flush
                && (owner.Some? && holder.Some? && holder != owner ==>
                      r == WebReply(Fault, Quiet) && unchanged(store`users, store`tokens))
                && (owner.Some? && (holder.None? || holder == owner) ==>
                      && store.tokens == ConfirmAllFor(old(store.tokens), t.email)
                      && store.users == old(store.users)[owner.value := old(store.users)[owner.value].(email := t.email)]
                      && r == WebReply(if logged then MePage else LoginPage,
                                       Done(if isUpdate then EMAIL_CONFIRMED else settings.confirmEmailMessage)))
    {
      if token.None? || FindToken(store.tokens, token.value).None? {
        return WebReply(if logged then UpdateEmail else LoginPage, Failure(EMAIL_TOKEN_INVALID));
      }
      var t := store.tokens[FindToken(store.tokens, token.value).value];
      var owner := FindUserById(store.users, t.user);
      if owner.None? {
        return WebReply(Fault, Quiet);
      }
      var holder := FindUserByEmail(store.users, t.email);
      if holder.Some? && holder != owner {
        return WebReply(Fault, Quiet);
      }
      var o := owner.value;
      SetEmailKeepsKeys(store.users, o, t.email);
      store.tokens := ConfirmTokensFor(store.tokens, t.email);
      store.users := store.users[o := store.users[o].(email := t.email)];
      r := WebReply(if logged then MePage else LoginPage,
                    Done(if isUpdate then EMAIL_CONFIRMED else settings.confirmEmailMessage));
    }

    /** forgotPasswordAction. An active account with the email gets a new
        reset record under `resetId`, its previous one removed; the reply
        is the same whether or not there is such an account. */
    method ForgotPassword(logged: bool, posted: bool, formValid: bool, email: string, now: int,
                          resetId: string, redirect: Option<string>) returns (r: WebReply)
      requires store.Valid()
      requires FindReset(store.resets, resetId).None?
      modifies store
      ensures store.Valid()
      ensures unchanged(store`users, store`tokens, store`keys, store`permissions, store`sites)
      ensures logged ==> r == WebReply(AdminOrSite, Quiet) && unchanged(store`resets)
      ensures !logged && !posted ==> r == WebReply(Form, Quiet) && unchanged(store`resets)
      ensures !logged && posted && !formValid ==> r == WebReply(Form, Failure(RESET_FAILED)) && unchanged(store`resets)
      ensures !logged && posted && formValid ==>
                && r == WebReply(if Empty(redirect) then SitePage else Url(redirect.value), Done(RESET_SENT))
                && (FindActiveUserByEmail(old(store.users), email).None? ==> unchanged(store`resets))
                && (FindActiveUserByEmail(old(store.users), email).Some? ==>
                      var user := old(store.users)[FindActiveUserByEmail(old(store.users), email).value].id;
                      && store.resets == WithoutResetOf(old(store.resets), user) + [PasswordCreation(resetId, user, now, false)]
                      && FindResetOf(store.resets, user) == Some(|store.resets| - 1))
    {
      if logged {
        return WebReply(AdminOrSite, Quiet);
      }
      if !posted {
        return WebReply(Form, Quiet);
      }
      if !formValid {
        return WebReply(Form, Failure(RESET_FAILED));
      }
      var found := FindActiveUserByEmail(store.users, email);
      if found.Some? {
        var user := store.users[found.value].id;
        var issued := PasswordCreation(resetId, user, now, false);
        WithoutResetOfRemovesAll(store.resets, user);
        WithoutResetOfKeepsDistinctIds(store.resets, user);
        var kept := WithoutResetOf(store.resets, user);
        assert FindReset(kept, resetId).None? by {
          forall m | 0 <= m < |kept| ensures kept[m].id != resetId {
            assert kept[m] in store.resets;
          }
        }
        IssueKeepsOnePerUser(store.resets, issued);
        AppendFreshIdKeepsDistinct(kept, issued);
        store.resets := kept + [issued];
      }
      r := WebReply(if Empty(redirect) then SitePage else Url(redirect.value), Done(RESET_SENT));
    }
  }
}
