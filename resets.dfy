/** The password-creation (reset) records: at most one per user, keyed by
    a fresh 8-digit code, valid for one hour. */
module Resets {
  import opened Php
  import opened Entities

  /** The table without the user's record (there is at most one). */
  function WithoutResetOf(resets: seq<PasswordCreation>, user: UserId): (r: seq<PasswordCreation>)
    ensures |r| <= |resets|
    ensures forall j :: 0 <= j < |r| ==> r[j] in resets
  {
    match FindResetOf(resets, user)
    case None => resets
    case Some(i) => resets[..i] + resets[i + 1..]
  }

  /** Removing one record keeps at most one record per user. */
  lemma RemoveKeepsOnePerUser(resets: seq<PasswordCreation>, i: nat)
    requires OneResetPerUser(resets) && i < |resets|
    ensures OneResetPerUser(resets[..i] + resets[i + 1..])
  {
    var r := resets[..i] + resets[i + 1..];
    forall a, b | 0 <= a < b < |r| ensures r[a].user != r[b].user {
      var a' := if a < i then a else a + 1;
      var b' := if b < i then b else b + 1;
      assert r[a] == resets[a'] && r[b] == resets[b'];
    }
  }

  /** Removing one record keeps the ids distinct. */
  lemma RemoveKeepsDistinctIds(resets: seq<PasswordCreation>, i: nat)
    requires DistinctResetIds(resets) && i < |resets|
    ensures DistinctResetIds(resets[..i] + resets[i + 1..])
  {
    var r := resets[..i] + resets[i + 1..];
    forall a, b | 0 <= a < b < |r| ensures r[a].id != r[b].id {
      var a' := if a < i then a else a + 1;
      var b' := if b < i then b else b + 1;
      assert r[a] == resets[a'] && r[b] == resets[b'];
    }
  }

  /** Appending a record under an id no record holds keeps the ids
      distinct, and the new record is the one found under its id. */
  lemma AppendFreshIdKeepsDistinct(resets: seq<PasswordCreation>, p: PasswordCreation)
    requires DistinctResetIds(resets) && FindReset(resets, p.id).None?
    ensures DistinctResetIds(resets + [p])
    ensures FindReset(resets + [p], p.id) == Some(|resets|)
  {
    var after := resets + [p];
    assert forall j :: 0 <= j < |resets| ==> after[j] == resets[j];
    assert after[|resets|].id == p.id;
  }

  /** Under the invariant, removing the record found for the user leaves
      none for that user, and the rest of the table as it was. */
  lemma WithoutResetOfRemovesAll(resets: seq<PasswordCreation>, user: UserId)
    requires OneResetPerUser(resets)
    ensures OneResetPerUser(WithoutResetOf(resets, user))
    ensures FindResetOf(WithoutResetOf(resets, user), user).None?
    ensures forall p: PasswordCreation :: p.user != user ==> (p in WithoutResetOf(resets, user) <==> p in resets)
  {
    match FindResetOf(resets, user)
    case None =>
    case Some(i) =>
      RemoveKeepsOnePerUser(resets, i);
      var r := resets[..i] + resets[i + 1..];
      forall j | 0 <= j < |r| ensures r[j].user != user {
        var j' := if j < i then j else j + 1;
        assert r[j] == resets[j'];
      }
      forall p: PasswordCreation | p.user != user ensures p in r <==> p in resets {
        if p in resets {
          var k :| 0 <= k < |resets| && resets[k] == p;
          assert k != i;
          assert r[if k < i then k else k - 1] == p;
        }
      }
  }

  /** Removing the user's record keeps the ids distinct. */
  lemma WithoutResetOfKeepsDistinctIds(resets: seq<PasswordCreation>, user: UserId)
    requires DistinctResetIds(resets)
    ensures DistinctResetIds(WithoutResetOf(resets, user))
  {
    match FindResetOf(resets, user)
    case None =>
    case Some(i) => RemoveKeepsDistinctIds(resets, i);
  }

  /** An id no record holds stays free once the user's record is removed
      and a record under another id is appended. */
  lemma FreeIdStaysFree(resets: seq<PasswordCreation>, user: UserId, extra: PasswordCreation, id: string)
    requires FindReset(resets, id).None? && extra.id != id
    ensures FindReset(WithoutResetOf(resets, user) + [extra], id).None?
  {
    var kept := WithoutResetOf(resets, user);
    var held := kept + [extra];
    forall m | 0 <= m < |held| ensures held[m].id != id {
      if m < |kept| {
        assert held[m] == kept[m] && kept[m] in resets;
      }
    }
  }

  /** An id free in a table with a record appended is free without it. */
  lemma FreeWithoutLast(resets: seq<PasswordCreation>, extra: PasswordCreation, id: string)
    requires FindReset(resets + [extra], id).None?
    ensures FindReset(resets, id).None?
  {
    forall m | 0 <= m < |resets| ensures resets[m].id != id {
      assert (resets + [extra])[m] == resets[m];
    }
  }

  /** Issuing a reset record after removing the user's previous one keeps
      at most one record per user, and the user holds exactly the new one. */
  lemma IssueKeepsOnePerUser(resets: seq<PasswordCreation>, p: PasswordCreation)
    requires OneResetPerUser(resets)
    ensures var after := WithoutResetOf(resets, p.user) + [p];
            && OneResetPerUser(after)
            && FindResetOf(after, p.user) == Some(|after| - 1)
  {
    WithoutResetOfRemovesAll(resets, p.user);
    var w := WithoutResetOf(resets, p.user);
    var after := w + [p];
    assert forall j :: 0 <= j < |w| ==> after[j] == w[j] && w[j].user != p.user;
    assert after[|after| - 1] == p;
  }

  /** The retry loop of the reset request: the first draw that no record
      holds as its id. `k == |draws|` means every draw was taken (the
      source would keep drawing). */
  method DrawResetId(held: seq<PasswordCreation>, draws: seq<string>) returns (k: nat)
    ensures k <= |draws|
    ensures forall j :: 0 <= j < k ==> FindReset(held, draws[j]).Some?
    ensures k < |draws| ==> FindReset(held, draws[k]).None?
  {
    k := 0;
    while k < |draws|
      invariant k <= |draws|
      invariant forall j :: 0 <= j < k ==> FindReset(held, draws[j]).Some?
    {
      if FindReset(held, draws[k]).None? {
        return;
      }
      k := k + 1;
    }
  }

  /** A reset record is expired once the current time is past its creation
      plus one hour. */
  function Expired(p: PasswordCreation, now: int): (b: bool)
    ensures b <==> now - p.created > 3600
  {
    now > p.created + RESET_LIFETIME
  }

  /** A record stays valid for its first hour and, once expired, stays
      expired. */
  lemma ExpiryIsFinal(p: PasswordCreation, now: int, later: int)
    requires now <= later
    ensures now <= p.created + 3600 ==> !Expired(p, now)
    ensures Expired(p, now) ==> Expired(p, later)
  {
  }
}
