/** The site permissions a web registration grants on the default sites. */
module Permissions {
  import opened Entities

  /** A viewer permission for each configured site id that exists, in the
      configured order; ids of missing sites are skipped. */
  function ViewerGrants(siteIds: seq<int>, sites: set<int>, user: UserId): (r: seq<SitePermission>)
    ensures |r| <= |siteIds|
    ensures forall p :: p in r ==> p.role == ROLE_VIEWER && p.user == user && p.site in sites && p.site in siteIds
    ensures forall i :: 0 <= i < |siteIds| && siteIds[i] in sites ==>
              SitePermission(siteIds[i], user, ROLE_VIEWER) in r
  {
    if siteIds == [] then []
    else
      var rest := ViewerGrants(siteIds[..|siteIds| - 1], sites, user);
      var id := siteIds[|siteIds| - 1];
      assert siteIds == siteIds[..|siteIds| - 1] + [id];
      if id in sites then rest + [SitePermission(id, user, ROLE_VIEWER)] else rest
  }

  /** The foreach of the web registration over guest_default_sites. */
  method GrantDefaultSites(siteIds: seq<int>, sites: set<int>, user: UserId) returns (r: seq<SitePermission>)
    ensures r == ViewerGrants(siteIds, sites, user)
  {
    r := [];
    for i := 0 to |siteIds|
      invariant r == ViewerGrants(siteIds[..i], sites, user)
    {
      assert siteIds[..i + 1][..i] == siteIds[..i];
      if siteIds[i] !in sites {
        continue;
      }
      r := r + [SitePermission(siteIds[i], user, ROLE_VIEWER)];
    }
    assert siteIds[..|siteIds|] == siteIds;
  }
}
