/** The guest-token table: which token decides a second registration, the
    token a registration or an email change adds, and confirming every token
    of an email. */
module Tokens {
  import opened Php
  import opened Entities

  // ---------------------------------------------------------------------
  // Re-registration with an email already in use

  /** What a second registration for a known email does. */
  datatype ReRegistration = AlreadyRegistered | ConfirmLatest(index: nat) | CheckEmail

  /** The newest token for the email decides: none or confirmed means the
      email is already registered; an unconfirmed one is force-confirmed
      when every email is taken as valid, else the visitor is told to check
      their email. */
  function ReRegister(tokens: seq<GuestToken>, email: string, emailIsValid: bool): (r: ReRegistration)
    ensures r.ConfirmLatest? ==> emailIsValid && LatestToken(tokens, email) == Some(r.index)
                                 && !tokens[r.index].confirmed
    ensures r == AlreadyRegistered <==>
              (LatestToken(tokens, email).None? || tokens[LatestToken(tokens, email).value].confirmed)
    ensures r == CheckEmail <==>
              (!emailIsValid && LatestToken(tokens, email).Some?
               && !tokens[LatestToken(tokens, email).value].confirmed)
  {
    match LatestToken(tokens, email)
    case None => AlreadyRegistered
    case Some(i) =>
      if tokens[i].confirmed then AlreadyRegistered
      else if emailIsValid then ConfirmLatest(i)
      else CheckEmail
  }

  /** A new token, as createGuestToken makes it: unconfirmed, newest. */
  function NewToken(tokens: seq<GuestToken>, value: string, email: string, user: UserId): (t: GuestToken)
    ensures !t.confirmed && t.email == email && t.user == user && t.token == value
    ensures forall j :: 0 <= j < |tokens| ==> tokens[j].id < t.id
  {
    GuestToken(NextTokenId(tokens), value, email, user, false)
  }

  /** The token just issued is the newest for its email, so it alone decides
      the next re-registration. */
  lemma {:induction false} IssuedTokenDecides(tokens: seq<GuestToken>, value: string, email: string,
                                              user: UserId, emailIsValid: bool)
    ensures LatestToken(tokens + [NewToken(tokens, value, email, user)], email) == Some(|tokens|)
    ensures ReRegister(tokens + [NewToken(tokens, value, email, user)], email, emailIsValid)
            == (if emailIsValid then ConfirmLatest(|tokens|) else CheckEmail)
  {
    var ts := tokens + [NewToken(tokens, value, email, user)];
    assert ts[..|ts| - 1] == tokens;
  }

  /** Two tables with the same ids and emails, position by position, have
      the same newest token for every email. */
  lemma {:induction false} LatestTokenIgnoresConfirmation(a: seq<GuestToken>, b: seq<GuestToken>, email: string)
    requires |a| == |b|
    requires forall i :: 0 <= i < |a| ==> a[i].id == b[i].id && a[i].email == b[i].email
    ensures LatestToken(a, email) == LatestToken(b, email)
  {
    if a != [] {
      LatestTokenIgnoresConfirmation(a[..|a| - 1], b[..|b| - 1], email);
    }
  }

  // ---------------------------------------------------------------------
  // Confirming every token of an email

  /** Every token for the email confirmed, every other token untouched. */
  function ConfirmAllFor(tokens: seq<GuestToken>, email: string): (r: seq<GuestToken>)
  {
    seq(|tokens|, i requires 0 <= i < |tokens| =>
      if tokens[i].email == email then tokens[i].(confirmed := true) else tokens[i])
  }

  /** The foreach of confirmEmail over the tokens found for the email. */
  method ConfirmTokensFor(tokens: seq<GuestToken>, email: string) returns (r: seq<GuestToken>)
    ensures r == ConfirmAllFor(tokens, email)
  {
    r := [];
    var i := 0;
    while i < |tokens|
      invariant 0 <= i <= |tokens|
      invariant |r| == i
      invariant forall j :: 0 <= j < i ==> r[j] == ConfirmAllFor(tokens, email)[j]
    {
      var t := tokens[i];
      if t.email == email {
        t := t.(confirmed := true);
      }
      r := r + [t];
      i := i + 1;
    }
  }

  /** After confirmEmail, registering again with the same email is always
      refused as already registered: the sibling tokens were confirmed too. */
  lemma ConfirmedEmailIsRegistered(tokens: seq<GuestToken>, email: string, emailIsValid: bool)
    ensures ReRegister(ConfirmAllFor(tokens, email), email, emailIsValid) == AlreadyRegistered
  {
    LatestTokenIgnoresConfirmation(ConfirmAllFor(tokens, email), tokens, email);
  }

  /** confirmAction, by contrast, confirms only the redeemed token: when an
      unconfirmed newer token exists for the same email, the email stays in
      the "check your email" state. */
  lemma {:induction false} SingleConfirmLeavesNewerSibling(tokens: seq<GuestToken>, k: nat, email: string)
    requires k < |tokens| && tokens[k].email == email
    requires LatestToken(tokens, email).Some? && LatestToken(tokens, email).value != k
    requires !tokens[LatestToken(tokens, email).value].confirmed
    ensures ReRegister(tokens[k := tokens[k].(confirmed := true)], email, false) == CheckEmail
  {
    var after := tokens[k := tokens[k].(confirmed := true)];
    LatestTokenIgnoresConfirmation(after, tokens, email);
  }
}
