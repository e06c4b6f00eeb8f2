/** The entities the guest controllers read and write, the module settings
    they consult, the repository lookups they run, and the in-memory store
    that stands in for the entity manager. */
module Entities {
  import opened Php

  type UserId = nat

  const ROLE_GUEST := "guest"
  const ROLE_VIEWER := "viewer"
  /** Label of the API keys that serve as guest session tokens. */
  const SESSION_LABEL := "guest_session"
  /** A reset code lives one hour (in seconds), not the host's two weeks. */
  const RESET_LIFETIME := 3600
  const RESET_CODE_LENGTH := 8

  /** An account. `password` stands for the stored credential; hashing is
      not modelled, so a password verifies when it equals the stored one. */
  datatype User = User(id: UserId, email: string, name: string, role: string,
                       isActive: bool, password: Option<string>)

  /** A confirmation token sent by email. */
  datatype GuestToken = GuestToken(id: nat, token: string, email: string, user: UserId, confirmed: bool)

  /** A password-creation (reset) record; `created` is in seconds. */
  datatype PasswordCreation = PasswordCreation(id: string, user: UserId, created: int, activate: bool)

  /** An API key; the guest session tokens are keys labelled SESSION_LABEL. */
  datatype ApiKey = ApiKey(id: string, keyLabel: string, owner: UserId, credential: string)

  datatype SitePermission = SitePermission(site: int, user: UserId, role: string)

  /** The module settings the controllers consult. */
  datatype Settings = Settings(
    guestOpen: string,                     // guest_open: "open", "moderate" or "closed"
    emailIsValid: bool,                    // guest_register_email_is_valid
    cors: seq<string>,                     // guest_cors
    registerSite: bool,                    // guest_register_site
    loginRoles: seq<string>,               // guest_login_roles
    loginSession: bool,                    // guest_login_session
    defaultSites: seq<int>,                // guest_default_sites
    notifyRegister: seq<string>,           // guest_notify_register
    confirmRegisterMessage: string,        // guest_message_confirm_register_site
    confirmRegisterModerateMessage: string, // guest_message_confirm_register_moderate_site
    confirmEmailMessage: string)           // guest_message_confirm_email_site

  /** isOpenRegister: registration is open only when guest_open is exactly
      "open"; "moderate", "closed" and any other value are not open. */
  function IsOpenRegister(s: Settings): (b: bool)
    ensures b <==> s.guestOpen == "open"
    ensures s.guestOpen == "moderate" || s.guestOpen == "closed" ==> !b
  {
    s.guestOpen == "open"
  }

  predicate VerifyPassword(u: User, password: string)
  {
    u.password == Some(password)
  }

  /** A code as Rand::getString(8, '1234567890') draws it. */
  predicate IsResetCode(s: string)
  {
    |s| == RESET_CODE_LENGTH && forall i :: 0 <= i < |s| ==> '0' <= s[i] <= '9'
  }

  /** The first element of a table that matches: what `findOneBy` returns
      when the table is read in insertion order. */
  function FirstIndex<T>(s: seq<T>, p: T -> bool): (r: Option<nat>)
    ensures r.Some? ==> r.value < |s| && p(s[r.value])
    ensures r.Some? ==> forall j :: 0 <= j < r.value ==> !p(s[j])
    ensures r.None? ==> forall j :: 0 <= j < |s| ==> !p(s[j])
  {
    if s == [] then None
    else if p(s[0]) then Some(0)
    else match FirstIndex(s[1..], p)
      case None => None
      case Some(i) => Some(i + 1)
  }

  function FindUserByEmail(users: seq<User>, email: string): (r: Option<nat>)
    ensures r.Some? ==> r.value < |users| && users[r.value].email == email
    ensures r.None? <==> forall j :: 0 <= j < |users| ==> users[j].email != email
  {
    FirstIndex(users, (u: User) => u.email == email)
  }

  function FindActiveUserByEmail(users: seq<User>, email: string): (r: Option<nat>)
    ensures r.Some? ==> r.value < |users| && users[r.value].email == email && users[r.value].isActive
    ensures r.None? <==> forall j :: 0 <= j < |users| ==> !(users[j].email == email && users[j].isActive)
  {
    FirstIndex(users, (u: User) => u.email == email && u.isActive)
  }

  function FindUserById(users: seq<User>, id: UserId): (r: Option<nat>)
    ensures r.Some? ==> r.value < |users| && users[r.value].id == id
    ensures r.None? <==> forall j :: 0 <= j < |users| ==> users[j].id != id
  {
    FirstIndex(users, (u: User) => u.id == id)
  }

  function FindToken(tokens: seq<GuestToken>, token: string): (r: Option<nat>)
    ensures r.Some? ==> r.value < |tokens| && tokens[r.value].token == token
    ensures r.None? <==> forall j :: 0 <= j < |tokens| ==> tokens[j].token != token
  {
    FirstIndex(tokens, (t: GuestToken) => t.token == token)
  }

  function FindReset(resets: seq<PasswordCreation>, id: string): (r: Option<nat>)
    ensures r.Some? ==> r.value < |resets| && resets[r.value].id == id
    ensures r.None? <==> forall j :: 0 <= j < |resets| ==> resets[j].id != id
  {
    FirstIndex(resets, (p: PasswordCreation) => p.id == id)
  }

  function FindResetOf(resets: seq<PasswordCreation>, user: UserId): (r: Option<nat>)
    ensures r.Some? ==> r.value < |resets| && resets[r.value].user == user
    ensures r.None? <==> forall j :: 0 <= j < |resets| ==> resets[j].user != user
  {
    FirstIndex(resets, (p: PasswordCreation) => p.user == user)
  }

  /** The newest token for an email (`findOneBy(['email' => …], ['id' =>
      'DESC'])`): a token for that email whose id no other such token
      exceeds, or None when the email has no token. */
  function LatestToken(tokens: seq<GuestToken>, email: string): (r: Option<nat>)
    ensures r.Some? ==> r.value < |tokens| && tokens[r.value].email == email
    ensures r.Some? ==> forall j :: 0 <= j < |tokens| && tokens[j].email == email ==> tokens[j].id <= tokens[r.value].id
    ensures r.None? <==> forall j :: 0 <= j < |tokens| ==> tokens[j].email != email
  {
    if tokens == [] then None
    else
      var last := |tokens| - 1;
      var rest := LatestToken(tokens[..last], email);
      if tokens[last].email != email then rest
      else if rest.Some? && tokens[rest.value].id > tokens[last].id then rest
      else Some(last)
  }

  /** The id the next token receives: above every id in use. */
  function NextTokenId(tokens: seq<GuestToken>): (r: nat)
    ensures forall j :: 0 <= j < |tokens| ==> tokens[j].id < r
  {
    if tokens == [] then 1
    else
      var rest := NextTokenId(tokens[..|tokens| - 1]);
      var id := tokens[|tokens| - 1].id;
      if id + 1 > rest then id + 1 else rest
  }

  /** The store invariant: there is at most one reset record per user. */
  predicate OneResetPerUser(resets: seq<PasswordCreation>)
  {
    forall i, j :: 0 <= i < j < |resets| ==> resets[i].user != resets[j].user
  }

  /** No two accounts share an email. */
  predicate UniqueEmails(users: seq<User>)
  {
    forall i, j :: 0 <= i < j < |users| ==> users[i].email != users[j].email
  }

  /** Accounts are keyed by their id: no two share one. */
  predicate DistinctUserIds(users: seq<User>)
  {
    forall i, j :: 0 <= i < j < |users| ==> users[i].id != users[j].id
  }

  /** Reset records are keyed by their id: no two share one. */
  predicate DistinctResetIds(resets: seq<PasswordCreation>)
  {
    forall i, j :: 0 <= i < j < |resets| ==> resets[i].id != resets[j].id
  }

  /** An account whose email and id no account holds can be added. */
  lemma AppendFreshUserKeepsKeys(users: seq<User>, u: User)
    requires UniqueEmails(users) && DistinctUserIds(users)
    requires FindUserByEmail(users, u.email).None? && FindUserById(users, u.id).None?
    ensures UniqueEmails(users + [u]) && DistinctUserIds(users + [u])
  {
    var after := users + [u];
    assert forall j :: 0 <= j < |users| ==> after[j] == users[j];
  }

  /** Changing an account's other fields keeps emails and ids unique. */
  lemma ReplaceUserKeepsKeys(users: seq<User>, i: nat, u: User)
    requires UniqueEmails(users) && DistinctUserIds(users)
    requires i < |users| && u.email == users[i].email && u.id == users[i].id
    ensures UniqueEmails(users[i := u]) && DistinctUserIds(users[i := u])
  {
  }

  /** An account may take an email that no other account holds. */
  lemma SetEmailKeepsKeys(users: seq<User>, i: nat, email: string)
    requires UniqueEmails(users) && DistinctUserIds(users) && i < |users|
    requires FindUserByEmail(users, email).None? || FindUserByEmail(users, email) == Some(i)
    ensures UniqueEmails(users[i := users[i].(email := email)])
    ensures DistinctUserIds(users[i := users[i].(email := email)])
  {
    var after := users[i := users[i].(email := email)];
    forall a, b | 0 <= a < b < |after| ensures after[a].email != after[b].email {
      if a == i {
        assert users[b].email != email;
      } else if b == i {
        assert users[a].email != email;
      }
    }
  }

  /** The entity manager's tables, held in memory. */
  class Store {
    var users: seq<User>
    var tokens: seq<GuestToken>
    var resets: seq<PasswordCreation>
    var keys: seq<ApiKey>
    var sites: set<int>
    var permissions: seq<SitePermission>

    ghost predicate Valid()
      reads this
    {
      && UniqueEmails(users) && DistinctUserIds(users)
      && OneResetPerUser(resets) && DistinctResetIds(resets)
    }

    constructor (sites: set<int>)
      ensures Valid()
      ensures users == [] && tokens == [] && resets == [] && keys == [] && permissions == []
      ensures this.sites == sites
    {
      users, tokens, resets, keys, permissions := [], [], [], [], [];
      this.sites := sites;
    }
  }
}
