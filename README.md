# Guest module for Omeka S: account lifecycle model

This project models the core of the Guest module for Omeka S. The module lets visitors register as "guest" users of a site. They confirm their email with a token and reset a forgotten password with a short code. They log in through a JSON API that hands out session keys, and they update their own name, email or password. A "Login" link type appears in the site navigation.

The model covers three source files:

- `src/Controller/GuestApiController.php`: the JSON API.
  - Its pure parts are the JSend envelope builder (`jSend`), the CORS gate (`checkCors`) and the checks of each action. They are functions (`jsend.dfy`, `cors.dfy`, the checks in `guest_api.dfy`).
  - Its actions change the tables. They are methods of the class `GuestApi.GuestApiController`, which holds an in-memory `Entities.Store`.
- `src/Controller/Site/AnonymousController.php`: the site pages for registration, confirmation and password reset. These are the methods of `Anonymous.AnonymousController`.
- `src/Site/Navigation/Link/Login.php`: the navigation link. It is pure and lives in `login_link.dfy`.

The store (`entities.dfy`) holds these tables as sequences in insertion order: users, guest tokens, password-creation (reset) records, API keys and site permissions. A repository `findOneBy` is the first match. The "newest token for an email" is the matching token with the highest id. The store invariant `Store.Valid()` holds the keys the database enforces:

- no two accounts share an email, and no two share an id;
- at most one reset record per user;
- no two reset records share an id.

Every method preserves it. A new account receives an id no account holds, as the database's auto id does, so both `Register` methods require that id to be free.

The tables each have a module of their own: `tokens.dfy` (guest tokens), `session_keys.dfy` (the API keys used as session tokens), `permissions.dfy` (site permissions) and `resets.dfy` (password-creation records). The loops of the source are methods there, each proved against the specification function it computes:

- the `foreach` that confirms every token of an email;
- the `foreach` that removes a user's session keys;
- the `foreach` over the default sites;
- the `while (true)` that draws a fresh reset code.

Outside facts are parameters of the methods:

- the email filter's verdict (`emailValid`);
- whether each email went out (`mailSent`, `notifySent`, `confirmSent`);
- the random values (`tokenValue`, `keyId`, `credential`, `draws`, `resetId`, `createdId`);
- the current time in seconds (`now`);
- the outcome of the session authentication (`authValid`, `authMessage`);
- the site the sites API resolves (`siteFound`);
- whether the user is related to a site (`userHasSite`);
- whether the visitor is logged in;
- whether the form was posted and is valid.

PHP's own semantics are written out in `php.dfy`:

- `empty()` and string truthiness (`""` and `"0"` are falsy);
- `isset`, `??` and `?:`.

Modelling decisions:

- **Email-change token.** As written, `changeEmail` issues `createGuestToken($user)` (`src/Controller/GuestApiController.php:1116`), and the registrations use the same call with the account's email. The token therefore carries the account's current email, and confirming it writes that email back. This is logged under "## Findings". The model's `ChangeEmail` issues the evidently intended token for the requested email instead (`GuestApi.EmailChangeToken`).
- **Passwords.** Hashing is not modelled. A password verifies when it equals the stored one, and "no password" is `None`.
- **Reset-code draw.** The unbounded retry loop is driven by a finite sequence of draws. The caller must supply a draw that no record holds.
- **Confirmation.** `confirmAction` confirms only the redeemed token, while `confirmEmail` confirms every token of the email (`Tokens.SingleConfirmLeavesNewerSibling`, `Tokens.ConfirmedEmailIsRegistered`).
- **Registration order.** The API registration checks the site before the email (`GuestApi.RegisterCheck`).

## Model

| member | source | states |
|---|---|---|
| JSend.Respond | src/Controller/GuestApiController.php:1238-1300 | Success: data is passed through (null stays null), there is no default HTTP status, and an empty message is dropped. Fail: data is never empty; without data, the message is the caller's when truthy, else the flashed errors when truthy, else the default, and it stands in under `fail`; the HTTP status defaults to 400. Error: the message is chosen by the same chain with the error default; data is present exactly when it is non-empty; the HTTP status defaults to 500. A non-zero explicit status is always set. |
| JSend.JSend | src/Controller/GuestApiController.php:1231-1300 | Exactly the three statuses success, fail and error build an envelope, and it is the envelope `Respond` builds for that status. Any other status throws with the source's message. |
| Cors.AllowList | src/Controller/GuestApiController.php:848 | An unset or empty `guest_cors` allows `*`. Otherwise the setting is used as it is. |
| Cors.CheckCors | src/Controller/GuestApiController.php:845-878 | A wildcard in the allow-list echoes `*` whatever the request says. Otherwise only a present, truthy, listed Origin passes, and it is echoed as sent. A refusal is a fail with HTTP 403. |
| Cors.UnsetSettingAllowsEveryOrigin | src/Controller/GuestApiController.php:845-852 | Without a `guest_cors` setting, every request passes the gate whatever its Origin header, and `*` is echoed. |
| Entities.IsOpenRegister | src/Controller/GuestApiController.php:897-900 | Registration is open exactly when `guest_open` is `open`. `moderate` and `closed` are not open. |
| Entities.AppendFreshUserKeepsKeys | src/Controller/GuestApiController.php:500-507 | An account whose email and id no account holds can be added without breaking unique emails and ids. |
| Entities.ReplaceUserKeepsKeys | src/Controller/GuestApiController.php:766-771 | Changing an account's password, name or active flag keeps emails and ids unique. |
| Entities.SetEmailKeepsKeys | src/Controller/Site/AnonymousController.php:504-508 | An account may take an email that no other account holds, and emails and ids stay unique. |
| Entities.LatestToken | src/Controller/GuestApiController.php:396-397 | The newest token for an email is a token with that email whose id no other token with that email exceeds. None means the email has no token. |
| Tokens.ReRegister | src/Controller/GuestApiController.php:392-419 | A registration for a known email is decided by the newest token. No token, or a confirmed one, means "already registered". An unconfirmed one is confirmed when every email is taken as valid; otherwise the visitor is told to check their email. Each outcome holds if and only if its condition holds. |
| Tokens.NewToken | src/Controller/GuestApiController.php:551-556 | A new token is unconfirmed, carries the given value, email and owner, and has an id above every id in use. |
| Tokens.IssuedTokenDecides | src/Controller/GuestApiController.php:392-419 | The token just issued is the newest for its email. The next re-registration is therefore "check your email", or a force-confirmation when every email is taken as valid. |
| Tokens.LatestTokenIgnoresConfirmation | src/Controller/Site/AnonymousController.php:492-501 | Confirming tokens never changes which token is the newest for an email. |
| Tokens.ConfirmTokensFor | src/Controller/Site/AnonymousController.php:497-501 | The loop returns the token table with every token of the email confirmed and every other token unchanged (`ConfirmAllFor`). |
| Tokens.ConfirmedEmailIsRegistered | src/Controller/Site/AnonymousController.php:492-501 | Once every token of an email is confirmed, any later registration with that email is refused as already registered. |
| Tokens.SingleConfirmLeavesNewerSibling | src/Controller/Site/AnonymousController.php:418-433 | `confirmAction` confirms only the redeemed token. If a newer token for the same email is unconfirmed, the email stays in the "check your email" state. |
| SessionKeys.WithoutSessionKeys | src/Controller/GuestApiController.php:1164-1174 | A key survives exactly when it is not a `guest_session` key of the user. The table does not grow. |
| SessionKeys.RemoveSessionKeys | src/Controller/GuestApiController.php:1167-1172 | The loop computes `WithoutSessionKeys`. |
| SessionKeys.NoSessionKeyLeft | src/Controller/GuestApiController.php:1164-1174 | After the removal the user holds no `guest_session` key. |
| SessionKeys.SessionKey | src/Controller/GuestApiController.php:1143-1148 | The new key is a `guest_session` key of the user with the drawn id and credential. |
| SessionKeys.OneSessionKeyAfterIssue | src/Controller/GuestApiController.php:1139-1162 | After a session token is issued, the user holds exactly one session key, the new one. Keys of other owners or with other labels are as before. |
| Permissions.ViewerGrants | src/Controller/Site/AnonymousController.php:345-360 | Every configured site id that exists gets a viewer permission for the user. Ids of missing sites get none, and no other permission is created. |
| Permissions.GrantDefaultSites | src/Controller/Site/AnonymousController.php:348-359 | The loop computes `ViewerGrants`. |
| Resets.WithoutResetOf | src/Controller/GuestApiController.php:652-659 | Removing the user's record yields no new records and does not grow the table. |
| Resets.RemoveKeepsOnePerUser | src/Controller/GuestApiController.php:747-753 | Deleting a record keeps at most one record per user. |
| Resets.RemoveKeepsDistinctIds | src/Controller/GuestApiController.php:747-753 | Deleting a record keeps the record ids distinct. |
| Resets.AppendFreshIdKeepsDistinct | src/Controller/GuestApiController.php:665-683 | A record stored under an id no record holds keeps the ids distinct and is the record found under that id. |
| Resets.WithoutResetOfRemovesAll | src/Controller/GuestApiController.php:652-659 | Under the invariant, removing the record found for the user leaves the user none. Every other user's record stays. |
| Resets.WithoutResetOfKeepsDistinctIds | src/Controller/GuestApiController.php:652-659 | Removing the user's record keeps the ids distinct. |
| Resets.FreeIdStaysFree | src/Controller/GuestApiController.php:650-674 | An id free before the old record is removed and the new record is created stays free for the draw. |
| Resets.FreeWithoutLast | src/Controller/GuestApiController.php:665-683 | A code that is free while the new record sits under its first id is still free once that record is renamed. |
| Resets.IssueKeepsOnePerUser | src/Controller/GuestApiController.php:650-683 | Removing the user's record and then issuing one keeps at most one record per user. The user's only record is the new one. |
| Resets.Expired | src/Controller/GuestApiController.php:747 | A record is expired exactly when more than 3600 seconds have passed since its creation. |
| Resets.ExpiryIsFinal | src/Controller/GuestApiController.php:747-753 | A record is valid throughout its first hour, and once expired it stays expired at every later time. |
| Resets.DrawResetId | src/Controller/GuestApiController.php:665-674 | The loop stops at the first draw that no record holds. Every earlier draw is held. |
| GuestApi.RegisterCheck | src/Controller/GuestApiController.php:297-371 | The checks run in source order. A CORS refusal comes first, then 403 when registration is closed. The later refusals follow in source order, each with its own message: already logged, site required, site missing, email required, invalid email. The registration goes on exactly when CORS passes, registration is not closed, nobody is logged in, the required site is given and exists, and the email is set and valid. It goes on with the site to grant. |
| GuestApi.NewGuest | src/Controller/GuestApiController.php:373-507 | The new account is a guest with the given email and password. Its name is the username, or the email when the username is empty. It is active exactly when registration is open. |
| GuestApi.WelcomeMessage | src/Controller/GuestApiController.php:586-599 | The configured message when it is truthy. Otherwise the default for "email always valid", then for open registration, then for moderation, in that order. |
| GuestApi.AfterReRegister | src/Controller/GuestApiController.php:392-419 | A second registration changes at most the newest token, which it confirms only in the force-confirm case. Otherwise the token table is unchanged. |
| GuestApi.ReRegisterSettles | src/Controller/GuestApiController.php:404-411 | When every email is taken as valid, a second registration leaves the email registered for good: a third one is refused as already registered. |
| GuestApi.ForgotCheck | src/Controller/GuestApiController.php:607-644 | The reset goes on exactly when nobody is logged in and the email is set, valid, and belongs to an active account. An unknown email fails as invalid. |
| GuestApi.RedeemCheck | src/Controller/GuestApiController.php:724-766 | An unknown code is refused as invalid, and a code of another user with its own message. An expired record (now past created + 3600 s) is deleted and refused. A missing password, or one shorter than 6 characters, is refused. The code is accepted exactly when it names an unexpired record of the user and the password is long enough. |
| GuestApi.RedeemIsSingleUse | src/Controller/GuestApiController.php:767-771 | Once a code is accepted and its record removed, the same code is refused as unknown at any later time. |
| GuestApi.SessionRefusal | src/Controller/GuestApiController.php:195-219 | When registration is not open and the email has an account, the message is chosen by the newest token and the account state. An unconfirmed token gives "check your email". Otherwise an inactive account gives "under moderation" and an active one the authentication's own message. In every other case the authentication's own message is used. |
| GuestApi.LoginCheck | src/Controller/GuestApiController.php:120-221 | Login goes on exactly when CORS passes, nobody is logged in, the email and password are non-empty, the email is valid, an active account with the email verifies the password and has an allowed role, and the session authentication succeeds when it is used. An unknown email and a wrong password get the identical answer. |
| GuestApi.ModerationNoticeUnreachable | src/Controller/GuestApiController.php:155-210 | When no two accounts share an email (part of the store invariant), login never answers "under moderation". An inactive account is already refused as a wrong email or password. |
| GuestApi.SessionTokenData | src/Controller/GuestApiController.php:1154-1161 | The payload carries the user's id and the new key's identity and credential. |
| GuestApi.SessionTokenReply | src/Controller/GuestApiController.php:1176-1182 | The success envelope nests the session token's own success envelope, with its data, under `session_token`. |
| GuestApi.Aliased | src/Controller/GuestApiController.php:942-950 | `name` and `email` become `o:name` and `o:email` when set, and are removed in any case. Every other key is kept as it is. |
| GuestApi.PlanPatch | src/Controller/GuestApiController.php:930-988 | A request with no truthy value is refused. A password key sends it to the password change. A set email (after aliasing) sends it to the email change, when the user may change it. Past that routing, a key other than `o:name` is refused, then a set but empty name. Every other request is accepted as the patch of `o:name` alone. |
| GuestApi.PatchOnlyRenames | src/Controller/GuestApiController.php:968-988 | The only direct update sets a non-empty name and nothing else. |
| GuestApi.PasswordChange | src/Controller/GuestApiController.php:996-1030 | More than two fields are refused first. The password changes exactly when both passwords are non-empty, the new one has at least 6 characters and the current one verifies, and it changes to the new one. |
| GuestApi.EmailChange | src/Controller/GuestApiController.php:1042-1111 | The change goes on exactly when the request holds at most the email, and that email is non-empty, valid, not the current one and held by no account. |
| GuestApi.EmailChangeTokenAsWritten | src/Controller/GuestApiController.php:1116 | As written, the email-change token carries the account's current email, not the requested one, and is owned by the account. |
| GuestApi.AsWrittenEmailChangeIsLost | src/Controller/Site/AnonymousController.php:492-508 | With the as-written token, `confirmEmail` finds the account both as the token's owner and as the holder of its email, so it goes through and the users are exactly as before: the requested email is never set. |
| GuestApi.EmailChangeToken | src/Controller/GuestApiController.php:1116 | The corrected token carries the requested email, is owned by the account, is unconfirmed and is newer than every token. |
| GuestApi.EmailChangeCompletes | src/Controller/Site/AnonymousController.php:492-508 | With the corrected token, `confirmEmail` finds the account as owner and no account holding the requested email. The account then carries the requested email, and emails and ids stay unique. |
| GuestApi.GuestApiController.RemoveSessionTokens | src/Controller/GuestApiController.php:1164-1174 | The user keeps no session key. Every other table is unchanged. |
| GuestApi.GuestApiController.PrepareSessionToken | src/Controller/GuestApiController.php:1139-1162 | The user's session keys give way to exactly one new key, whose identity and credential are answered. |
| GuestApi.GuestApiController.ReturnSessionToken | src/Controller/GuestApiController.php:1176-1182 | As `PrepareSessionToken`, with the answer nested under `session_token`. |
| GuestApi.GuestApiController.Login | src/Controller/GuestApiController.php:120-236 | A refused login changes nothing. An accepted login with a redirect answers the redirect and creates no key. Otherwise it issues the user's single session key. |
| GuestApi.GuestApiController.Logout | src/Controller/GuestApiController.php:238-274 | The user of either authentication loses every session key. Without a user, the answer is "not logged" and nothing changes. |
| GuestApi.GuestApiController.SessionToken | src/Controller/GuestApiController.php:276-290 | A logged user gets a fresh single session key. Otherwise the answer is 401 and nothing changes. |
| GuestApi.GuestApiController.Register | src/Controller/GuestApiController.php:295-600 | A refused check changes nothing. A known email creates no account and at most confirms the newest token, always answering a fail. A new email creates the guest, its site permission when a site is required, and a token unless every email is taken as valid. It answers success, or an error when the email did not go out. |
| GuestApi.GuestApiController.IssueResetCode | src/Controller/GuestApiController.php:646-722 | The user's previous record is removed. The new record is stored under an 8-digit code that no other record holds, and that code is the first draw free once the new record sits under its first id. The user then has exactly that one record, and the invariant holds. |
| GuestApi.GuestApiController.RedeemResetCode | src/Controller/GuestApiController.php:724-777 | A refusal changes nothing. An expired record is deleted. On acceptance the password is set, the account is activated if the record says so, and the record is deleted. |
| GuestApi.GuestApiController.ForgotPassword | src/Controller/GuestApiController.php:605-778 | A failed check changes nothing. Without a code, a fresh code, the first free draw, is issued and the email is answered. With a code, the code is redeemed; the account is already active, so on success only the password changes. |
| GuestApi.GuestApiController.ChangePassword | src/Controller/GuestApiController.php:996-1035 | The password changes only when every check passes. Nothing else changes. |
| GuestApi.GuestApiController.ChangeEmail | src/Controller/GuestApiController.php:1042-1137 | A refused change touches nothing. An accepted one issues one token, the corrected `EmailChangeToken` for the requested email, and leaves the account's email as it is. It answers an error when the email did not go out. |
| GuestApi.GuestApiController.UpdatePatch | src/Controller/GuestApiController.php:930-994 | A refused patch changes nothing. A password request changes the password exactly as `changePassword` does, only when every check passes. An email request issues the corrected token for the requested email exactly as `ChangeEmail` does and leaves the users as they are. A direct update sets only a non-empty name. |
| Anonymous.ExtractPassword | src/Controller/Site/AnonymousController.php:223-235 | The password comes from `change-password.password` when that key exists, else from the older form's field. It is kept only when it is non-empty. |
| Anonymous.RegisterForm | src/Controller/Site/AnonymousController.php:200-235 | Registration goes on exactly when nobody is logged in, the form is posted and valid, and a password is given. A logged user is redirected. Every other refusal shows the form again. |
| Anonymous.RegisteredMessage | src/Controller/Site/AnonymousController.php:407-411 | The open-registration message when registration is open, else the moderation message. |
| Anonymous.ConfirmLatestRegisters | src/Controller/Site/AnonymousController.php:418-433 | Confirming the newest token of an email makes any later registration with that email "already registered". |
| Anonymous.AnonymousController.Register | src/Controller/Site/AnonymousController.php:198-412 | A known email changes nothing, not even a token, and is told "already registered" or "check your email" by the newest token. A new email creates the guest (active exactly when registration is open) with its default-site permissions. A failed notification stops before any token is made. Otherwise a token is issued and the outcome of the confirmation email is reported. |
| Anonymous.AnonymousController.Confirm | src/Controller/Site/AnonymousController.php:414-453 | An unknown token changes nothing. Otherwise that token alone is confirmed, and its owner's active flag is set to "registration is open", which deactivates an active account under moderation. |
| Anonymous.AnonymousController.ConfirmEmail | src/Controller/Site/AnonymousController.php:465-529 | An unknown token changes nothing. Otherwise every token of the token's email is confirmed and the owner takes that email. When another account already holds the email, nothing is saved. |
| Anonymous.AnonymousController.ForgotPassword | src/Controller/Site/AnonymousController.php:531-584 | The same reply whether or not an active account has the email. For such an account the previous record is replaced by one new record, which becomes the user's only record. |
| LoginLink.TrimEmptyIffBlank | src/Site/Navigation/Link/Login.php:17-19 | `trim()` yields `""` exactly for strings made only of the characters it strips. |
| LoginLink.Name | src/Site/Navigation/Link/Login.php:10-13 | The link type is always named "Login". |
| LoginLink.Label | src/Site/Navigation/Link/Login.php:15-21 | The stored label when it has a character `trim()` keeps. "Login" when the label is missing, null or blank. |
| LoginLink.IsValid | src/Site/Navigation/Link/Login.php:28-35 | Valid exactly when the label is set (present and not null), including an empty label. An invalid link records exactly one error, under `o:navigation`. |
| LoginLink.ToZend | src/Site/Navigation/Link/Login.php:37-49 | The label unchanged, route `site/resource`, class `loginlink`, and the site slug with controller `guestuser` and action `login`. |
| LoginLink.BlankLabelValidButDefaulted | src/Site/Navigation/Link/Login.php:15-35 | Every label that trims to nothing passes validation and records no error, yet it is shown as "Login". |

## Left out

- I/O that the model takes as parameters:
  - mail composition and sending (a boolean outcome);
  - the email syntax filter;
  - random ids, keys and tokens;
  - the clock;
  - the session authentication adapter;
  - the site lookup by id or slug.
- Translation, `PsrMessage` placeholders and view models: messages are kept as their untranslated templates, and page redirects are named destinations.
- The PHP session, cookie headers, `Access-Control-Allow-Origin` header text, `user.login`/`user.logout` events and the session container's destruction: these are host I/O.
- `sleep()` delays against brute force: timing only.
- The `@id` URL in the session token payload: URL construction belongs to the router.
- Doctrine persistence, and the SQL that renames a reset record's id: the rename is modelled as replacing the record.
- The API registration through the full user form (`user-information` with its form validation), user settings (`o:settings`), the UserNames integration and its exception-recovery branches: these are foreign modules and form classes.
- `meAction`, `dialogAction`, `prepareSiteTemplates`, the web `loginAction` (with two-factor login and token resend), `staleTokenAction` and `authErrorAction`: presentation or foreign modules.
- `Login::toJstree` and `getFormTemplate`: the first reads an undefined `$sitePage`, the second names a template.
- `src/Form/ConfigForm.php`, `src/Form/SiteSettingsFieldset.php` and `src/View/Helper/GuestNavigation.php`: form declarations and a wrapper over the navigation factory.
- GuestApi.GuestApiController.IssueResetCode: the source's `while (true)` draws until it finds a free code. The model takes the draws as a finite sequence and requires that one of them is free.
- GuestApi.GuestApiController.ForgotPassword: as for `IssueResetCode`, it requires a free draw among the given ones. It also requires the record's first id to be free, as the database's auto id is.
- GuestApi.GuestApiController.ChangeEmail: issues the corrected token for the requested email, not the as-written `createGuestToken($user)`, which carries the account's current email (see "## Findings").
- GuestApi.GuestApiController.UpdatePatch: its email branch goes through `ChangeEmail` and so issues the corrected token as well.
- Permissions.ViewerGrants: a site id repeated in `guest_default_sites` yields two equal grants, as the source's `foreach` does. The database's unique site/user key would then make the flush fail; that failure is not modelled.
- GuestApi.RedeemCheck: `strlen` counts bytes, while the model counts characters. A password with multi-byte characters is measured differently.
- GuestApi.PasswordChange: the same difference between bytes and characters for the 6-character minimum.
- Cors.CheckCors: `in_array` compares loosely, while the model compares strings exactly. An `Origin` header carrying several values (an array) is not modelled.
- Anonymous.AnonymousController.Confirm: when the token's owner no longer exists, the source dies with a fatal error before anything is saved. The model answers `Fault` and changes nothing.
- Anonymous.AnonymousController.ConfirmEmail: the same missing-owner case is modelled the same way. When another account already holds the token's email, the database's unique email column makes the flush fail with an exception. The model answers `Fault` and changes nothing.
- The API registration's `guest_open` check has no counterpart in the web registration, which does not consult that setting. The model follows the code.
- Hashing: passwords are compared and stored in plain text, and `setPassword(null)` is stored as no password.

## Findings

| source | as written | input that shows it | evidently intended | confidence | as-written member | corrected member |
|---|---|---|---|---|---|---|
| src/Controller/GuestApiController.php:1116 | `changeEmail` creates its token with `createGuestToken($user)`, which reads the account's email; the account still holds the old email until `confirmEmail` copies the token's email onto it (`src/Controller/Site/AnonymousController.php:506`). | A guest with email `a@x.org` asks to change it to `b@x.org`: the token carries `a@x.org`, and confirming it sets the email to `a@x.org` again. | The token carries the requested email, so that confirming it completes the change. | medium, not executed (the trait that defines `createGuestToken` is not part of this model) | GuestApi.EmailChangeTokenAsWritten, GuestApi.AsWrittenEmailChangeIsLost | GuestApi.EmailChangeToken, GuestApi.EmailChangeCompletes |
