/** The API keys that serve as guest session tokens: removing a user's
    session keys and issuing a new one. */
module SessionKeys {
  import opened Entities

  predicate IsSessionKeyOf(k: ApiKey, owner: UserId)
  {
    k.owner == owner && k.keyLabel == SESSION_LABEL
  }

  /** The keys table without the owner's session keys, order kept. */
  function WithoutSessionKeys(keys: seq<ApiKey>, owner: UserId): (r: seq<ApiKey>)
    ensures |r| <= |keys|
    ensures forall k :: k in r <==> k in keys && !IsSessionKeyOf(k, owner)
  {
    if keys == [] then []
    else
      var rest := WithoutSessionKeys(keys[..|keys| - 1], owner);
      var last := keys[|keys| - 1];
      assert keys == keys[..|keys| - 1] + [last];
      if IsSessionKeyOf(last, owner) then rest else rest + [last]
  }

  /** How many session keys the owner holds. */
  function SessionKeyCount(keys: seq<ApiKey>, owner: UserId): nat
  {
    if keys == [] then 0
    else SessionKeyCount(keys[..|keys| - 1], owner)
         + (if IsSessionKeyOf(keys[|keys| - 1], owner) then 1 else 0)
  }

  /** The foreach of removeSessionTokens over the user's keys. */
  method RemoveSessionKeys(keys: seq<ApiKey>, owner: UserId) returns (r: seq<ApiKey>)
    ensures r == WithoutSessionKeys(keys, owner)
  {
    r := [];
    var i := 0;
    while i < |keys|
      invariant 0 <= i <= |keys|
      invariant r == WithoutSessionKeys(keys[..i], owner)
    {
      assert keys[..i + 1][..i] == keys[..i];
      if !IsSessionKeyOf(keys[i], owner) {
        r := r + [keys[i]];
      }
      i := i + 1;
    }
    assert keys[..|keys|] == keys;
  }

  /** Logging out leaves the user no session key. */
  lemma {:induction false} NoSessionKeyLeft(keys: seq<ApiKey>, owner: UserId)
    ensures SessionKeyCount(WithoutSessionKeys(keys, owner), owner) == 0
  {
    if keys != [] {
      var rest := keys[..|keys| - 1];
      NoSessionKeyLeft(rest, owner);
      var last := keys[|keys| - 1];
      if !IsSessionKeyOf(last, owner) {
        var w := WithoutSessionKeys(rest, owner) + [last];
        assert w[..|w| - 1] == WithoutSessionKeys(rest, owner);
      }
    }
  }

  /** The key a fresh session token adds. */
  function SessionKey(id: string, owner: UserId, credential: string): (k: ApiKey)
    ensures IsSessionKeyOf(k, owner) && k.id == id && k.credential == credential
  {
    ApiKey(id, SESSION_LABEL, owner, credential)
  }

  /** After issuing a session token the user holds exactly one session key,
      the new one; keys of other owners or labels are unchanged. */
  lemma OneSessionKeyAfterIssue(keys: seq<ApiKey>, owner: UserId, id: string, credential: string)
    ensures var after := WithoutSessionKeys(keys, owner) + [SessionKey(id, owner, credential)];
            && SessionKeyCount(after, owner) == 1
            && (forall k :: k in after && IsSessionKeyOf(k, owner) ==> k == SessionKey(id, owner, credential))
            && (forall k :: !IsSessionKeyOf(k, owner) ==> (k in after <==> k in keys))
  {
    var w := WithoutSessionKeys(keys, owner);
    var after := w + [SessionKey(id, owner, credential)];
    assert after[..|after| - 1] == w;
    NoSessionKeyLeft(keys, owner);
  }
}
