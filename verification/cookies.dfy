/**
 * The cookie directives a session emits: the session cookie written by Save
 * and the revoking cookie written by Destroy. Only the attributes that carry
 * the id and the Store settings are kept; the absolute expiry time is not.
 */
module Cookies {
  import opened Store

  datatype SameSite = LaxMode | StrictMode | NoneMode

  datatype Cookie = Cookie(
    key: string,
    value: string,
    path: string,
    domain: string,
    maxAge: int,
    secure: bool,
    httpOnly: bool,
    sameSite: SameSite)

  /** ASCII lower-casing of one character; every other character is left alone. */
  function LowerChar(c: char): char
  {
    if 'A' <= c <= 'Z' then (c as int + 32) as char else c
  }

  /** ASCII lower-casing of a string, character by character. */
  function Lower(s: string): (r: string)
    ensures |r| == |s|
    ensures forall i :: 0 <= i < |s| ==> r[i] == LowerChar(s[i])
  {
    if s == [] then [] else [LowerChar(s[0])] + Lower(s[1..])
  }

  /**
   * The SameSite attribute chosen for a `CookieSameSite` setting. The choice
   * ignores case: "strict" in any case gives Strict, "none" in any case gives
   * None, and every other setting gives Lax.
   */
  function SameSiteOf(setting: string): (m: SameSite)
    ensures m == StrictMode <==> EqualIgnoringAsciiCase(setting, "strict")
    ensures m == NoneMode <==> EqualIgnoringAsciiCase(setting, "none")
    ensures m == LaxMode <==> !EqualIgnoringAsciiCase(setting, "strict") && !EqualIgnoringAsciiCase(setting, "none")
  {
    LowerKeepsLowercase("strict");
    LowerKeepsLowercase("none");
    FoldIsLowerEquality(setting, "strict");
    FoldIsLowerEquality(setting, "none");
    var lowered := Lower(setting);
    if lowered == "strict" then StrictMode
    else if lowered == "none" then NoneMode
    else LaxMode
  }

  /** The cookie Save issues: it carries `id` and lives as long as the stored record. */
  function SessionCookie(cfg: Config, id: string): Cookie
  {
    Cookie(cfg.cookieName, id, cfg.cookiePath, cfg.cookieDomain, cfg.expiration,
           cfg.cookieSecure, cfg.cookieHTTPOnly, SameSiteOf(cfg.cookieSameSite))
  }

  /** The cookie Destroy issues: no value, already expired. */
  function RevokeCookie(cfg: Config): Cookie
  {
    Cookie(cfg.cookieName, "", cfg.cookiePath, cfg.cookieDomain, -1,
           cfg.cookieSecure, cfg.cookieHTTPOnly, SameSiteOf(cfg.cookieSameSite))
  }

  /**
   * Two settings that differ only in the case of ASCII letters. Unlike Go's
   * `strings.EqualFold` this does no Unicode folding, matching `utils.ToLower`.
   */
  predicate EqualIgnoringAsciiCase(a: string, b: string)
  {
    |a| == |b| && forall i :: 0 <= i < |a| ==> LowerChar(a[i]) == LowerChar(b[i])
  }

  lemma FoldIsLowerEquality(a: string, b: string)
    ensures EqualIgnoringAsciiCase(a, b) <==> Lower(a) == Lower(b)
  {
    if Lower(a) == Lower(b) {
      assert forall i :: 0 <= i < |a| ==> LowerChar(a[i]) == Lower(b)[i];
    }
  }

  lemma LowerKeepsLowercase(s: string)
    requires forall i :: 0 <= i < |s| ==> !('A' <= s[i] <= 'Z')
    ensures Lower(s) == s
  {
  }

  /** Settings equal up to case choose the same SameSite attribute. */
  lemma SameSiteIgnoresCase(a: string, b: string)
    requires EqualIgnoringAsciiCase(a, b)
    ensures SameSiteOf(a) == SameSiteOf(b)
  {
    FoldIsLowerEquality(a, b);
  }

  /**
   * The revoking cookie addresses the same cookie as the session cookie (same
   * name, path, domain, flags and SameSite), carries no value and has expired.
   */
  lemma RevokeMatchesSessionCookie(cfg: Config, id: string)
    ensures var live := SessionCookie(cfg, id); var dead := RevokeCookie(cfg);
      && dead.key == live.key == cfg.cookieName
      && dead.path == live.path && dead.domain == live.domain
      && dead.secure == live.secure && dead.httpOnly == live.httpOnly
      && dead.sameSite == live.sameSite == SameSiteOf(cfg.cookieSameSite)
      && live.value == id && live.maxAge == cfg.expiration
      && dead.value == "" && dead.maxAge == -1
  {
  }
}
