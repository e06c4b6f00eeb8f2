/** The CORS gate that every guest API action except forgot-password
    passes first: which origin is echoed in Access-Control-Allow-Origin,
    or the 403 fail that stops the action. */
module Cors {
  import opened Php
  import opened JSend

  const WILDCARD := "*"
  const ACCESS_FORBIDDEN := "Access forbidden."

  datatype Decision = Allow(origin: string) | Deny(response: Response)

  /** `guest_cors ?: ['*']`: an unset or empty setting allows every origin. */
  function AllowList(setting: seq<string>): (r: seq<string>)
    ensures r != []
    ensures setting == [] ==> r == [WILDCARD]
    ensures setting != [] ==> r == setting
  {
    if setting == [] then [WILDCARD] else setting
  }

  /** The gate. `origin` is the request's Origin header value, None when
      the header is absent. */
  function CheckCors(setting: seq<string>, origin: Option<string>, flashed: string): (d: Decision)
    // a wildcard in the allow-list echoes '*' whatever the request says
    ensures WILDCARD in AllowList(setting) ==> d == Allow(WILDCARD)
    // otherwise only a present, listed origin passes, and it is echoed as is
    ensures WILDCARD !in AllowList(setting) ==>
              (d.Allow? <==> origin.Some? && Truthy(origin.value) && origin.value in setting)
    ensures WILDCARD !in AllowList(setting) && d.Allow? ==> d.origin == origin.value
    // a refusal is a fail with HTTP 403 and no origin to echo
    ensures d.Deny? ==> d.response.json.status == FAIL && d.response.httpStatus == Some(HTTP_FORBIDDEN)
  {
    var allowed := AllowList(setting);
    if WILDCARD in allowed then Allow(WILDCARD)
    else if origin.None? || !Truthy(origin.value) || origin.value !in allowed then
      Deny(FailWithStatus("user", ACCESS_FORBIDDEN, HTTP_FORBIDDEN, flashed))
    else Allow(origin.value)
  }

  /** Without a `guest_cors` setting every request passes, with or without
      an Origin header, and `*` is echoed. */
  lemma UnsetSettingAllowsEveryOrigin(origin: Option<string>, flashed: string)
    ensures CheckCors([], origin, flashed) == Allow(WILDCARD)
  {
    assert WILDCARD in AllowList([]);
  }
}
