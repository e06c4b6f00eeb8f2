/** The "Login" link type of the site navigation: its name, the label it
    shows, its validation and the page description handed to the
    navigation builder. */
module LoginLink {
  import opened Php

  const NAME := "Login"
  const ROUTE := "site/resource"
  const CSS_CLASS := "loginlink"
  const NAVIGATION_KEY := "o:navigation"
  const MISSING_LABEL := "Invalid navigation: login link missing label"

  /** The link's stored data; `linkLabel` (the `label` key) is None when the key is missing or null. */
  datatype LinkData = LinkData(linkLabel: Option<string>)

  /** One entry of an error store: the field and its message. */
  datatype FieldError = FieldError(field: string, message: string)

  /** The page array built for the navigation container. */
  datatype ZendPage = ZendPage(linkLabel: Option<string>, route: string, cssClass: string, params: map<string, string>)

  /** The characters PHP's trim() strips by default. */
  predicate IsTrimmed(c: char)
  {
    c == ' ' || c == '\t' || c == '\n' || c == '\r' || c == '\0' || c == '\U{B}'
  }

  /** True when the string holds nothing but trimmed characters. */
  predicate Blank(s: string)
  {
    forall i :: 0 <= i < |s| ==> IsTrimmed(s[i])
  }

  function TrimLeft(s: string): (r: string)
    ensures r == "" || !IsTrimmed(r[0])
    ensures |r| <= |s| && r == s[|s| - |r|..]
  {
    if s != [] && IsTrimmed(s[0]) then TrimLeft(s[1..]) else s
  }

  function TrimRight(s: string): string
  {
    if s != [] && IsTrimmed(s[|s| - 1]) then TrimRight(s[..|s| - 1]) else s
  }

  /** PHP's trim() with its default character list. */
  function Trim(s: string): string
  {
    TrimRight(TrimLeft(s))
  }

  lemma {:induction false} TrimLeftEmpty(s: string)
    ensures TrimLeft(s) == "" <==> Blank(s)
  {
    if s != [] && IsTrimmed(s[0]) {
      TrimLeftEmpty(s[1..]);
      assert Blank(s) <==> Blank(s[1..]) by {
        if Blank(s[1..]) {
          forall i | 0 <= i < |s| ensures IsTrimmed(s[i]) {
            if i > 0 { assert s[i] == s[1..][i - 1]; }
          }
        }
      }
    } else if s != [] {
      assert !IsTrimmed(s[0]);
    }
  }

  /** trim() yields "" exactly for blank strings. */
  lemma TrimEmptyIffBlank(s: string)
    ensures Trim(s) == "" <==> Blank(s)
  {
    TrimLeftEmpty(s);
    TrimRightOfKept(TrimLeft(s));
  }

  lemma {:induction false} TrimRightOfKept(s: string)
    requires s == "" || !IsTrimmed(s[0])
    ensures TrimRight(s) == "" <==> s == ""
  {
    if s != [] && IsTrimmed(s[|s| - 1]) {
      assert |s| > 1;
      TrimRightOfKept(s[..|s| - 1]);
    }
  }

  /** getName: the link type is always called "Login". */
  function Name(): (n: string)
    ensures n == NAME
  {
    NAME
  }

  /** getLabel: the stored label when it has a visible character, else the
      link type's name. */
  function Label(data: LinkData): (r: string)
    ensures data.linkLabel.Some? && !Blank(data.linkLabel.value) ==> r == data.linkLabel.value
    ensures data.linkLabel.None? || Blank(data.linkLabel.value) ==> r == Name()
  {
    match data.linkLabel
    case None => NAME
    case Some(text) =>
      TrimEmptyIffBlank(text);
      if "" != Trim(text) then text else NAME
  }

  /** isValid: a missing label is the only error, recorded once under
      'o:navigation' in the error store. */
  function IsValid(data: LinkData, errors: seq<FieldError>): (r: (bool, seq<FieldError>))
    ensures r.0 <==> data.linkLabel.Some?
    ensures r.0 ==> r.1 == errors
    ensures !r.0 ==> r.1 == errors + [FieldError(NAVIGATION_KEY, MISSING_LABEL)]
  {
    if data.linkLabel.None? then (false, errors + [FieldError(NAVIGATION_KEY, MISSING_LABEL)])
    else (true, errors)
  }

  /** toZend: the label unchanged and a route to the guest login page of
      the site. */
  function ToZend(data: LinkData, siteSlug: string): (p: ZendPage)
    ensures p.linkLabel == data.linkLabel
    ensures p.route == ROUTE && p.cssClass == CSS_CLASS
    ensures p.params == map["site-slug" := siteSlug, "controller" := "guestuser", "action" := "login"]
  {
    ZendPage(data.linkLabel, ROUTE, CSS_CLASS,
             map["site-slug" := siteSlug, "controller" := "guestuser", "action" := "login"])
  }

  /** A label that passes validation may still be shown as the default:
      any label that trims to "" is valid, and shows as "Login". */
  lemma BlankLabelValidButDefaulted(text: string, errors: seq<FieldError>)
    requires Trim(text) == ""
    ensures IsValid(LinkData(Some(text)), errors) == (true, errors)
    ensures Label(LinkData(Some(text))) == NAME
  {
    TrimEmptyIffBlank(text);
  }
}
