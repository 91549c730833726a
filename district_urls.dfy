/**
 * The district site's base URL as the case-number routes normalise it, and the URLs and
 * header values derived from it.
 */
module DistrictUrls {
  import opened Text

  const SearchPagePath := "case-status-search-by-case-number/"
  const AjaxPath := "wp-admin/admin-ajax.php"
  const CaptchaQuery := "?_siwp_captcha&id="

  /** `link.endsWith('/') ? link : link + '/'`: the link with exactly the trailing `/` it needs.
      The result ends in `/`, extends the link by at most that one character, and leaves a link
      that already ends in `/` untouched. */
  function NormalizeBase(link: string): (base: string)
    ensures EndsWith(base, "/")
    ensures link <= base && |base| <= |link| + 1
    ensures EndsWith(link, "/") ==> base == link
  {
    if EndsWith(link, "/") then link else link + "/"
  }

  /** Normalising twice is normalising once. */
  lemma NormalizeIdempotent(link: string)
    ensures NormalizeBase(NormalizeBase(link)) == NormalizeBase(link)
  {
  }

  /** `base.slice(0, -1)`: the normalised base without its last character. */
  function Origin(base: string): (origin: string)
    requires EndsWith(base, "/")
    ensures origin + "/" == base
  {
    base[..|base| - 1]
  }

  /** The origin drops exactly the `/` that normalisation guarantees, so it is the link itself
      whenever the link did not end in `/`. */
  lemma OriginOfLink(link: string)
    ensures Origin(NormalizeBase(link)) + "/" == NormalizeBase(link)
    ensures !EndsWith(link, "/") ==> Origin(NormalizeBase(link)) == link
  {
  }

  /** The case-number search page: fetched for the court details, and the `Referer` of the
      CAPTCHA fetch. */
  function SearchPageUrl(base: string): string {
    base + SearchPagePath
  }

  /** The WordPress ajax endpoint that the case-types and case-data posts go to. */
  function AjaxUrl(base: string): string {
    base + AjaxPath
  }

  /** The CAPTCHA image bound to the session id `scid`. */
  function CaptchaUrl(base: string, scid: string): string {
    base + CaptchaQuery + scid
  }

  /** The `Referer` that `getAjaxHeaders` sends, built from the origin. */
  function AjaxReferer(origin: string): string {
    origin + "/" + SearchPagePath
  }

  /** The ajax calls claim to come from the very page that the court-details step fetched. */
  lemma AjaxRefererIsSearchPage(link: string)
    ensures AjaxReferer(Origin(NormalizeBase(link))) == SearchPageUrl(NormalizeBase(link))
  {
    var base := NormalizeBase(link);
    assert Origin(base) + "/" == base;
    assert AjaxReferer(Origin(base)) == (Origin(base) + "/") + SearchPagePath;
  }

  /** Every derived URL extends the normalised base, and the part after it tells them apart;
      the CAPTCHA URL ends with the session id it was given. */
  lemma DerivedUrls(link: string, scid: string)
    ensures var base := NormalizeBase(link);
      && base <= SearchPageUrl(base) && SearchPageUrl(base)[|base|..] == SearchPagePath
      && base <= AjaxUrl(base) && AjaxUrl(base)[|base|..] == AjaxPath
      && base <= CaptchaUrl(base, scid) && CaptchaUrl(base, scid)[|base|..] == CaptchaQuery + scid
      && EndsWith(CaptchaUrl(base, scid), scid)
  {
    var base := NormalizeBase(link);
    assert CaptchaUrl(base, scid) == base + (CaptchaQuery + scid);
  }

  /** The party-search route of the older server appends `/wp-admin/admin-ajax.php` to the raw
      base without normalising it. */
  function PartySearchAjaxUrl(districtBaseUrl: string): string {
    districtBaseUrl + "/" + AjaxPath
  }

  /** The two routes reach the same endpoint exactly when the base the client sent does not end
      in `/`; with a trailing `/` the older route asks for a `//` path. */
  lemma PartySearchAjaxUrlAgrees(link: string)
    ensures PartySearchAjaxUrl(link) == AjaxUrl(NormalizeBase(link)) <==> !EndsWith(link, "/")
  {
    if EndsWith(link, "/") {
      assert |PartySearchAjaxUrl(link)| == |AjaxUrl(NormalizeBase(link))| + 1;
    } else {
      assert PartySearchAjaxUrl(link) == (link + "/") + AjaxPath;
    }
  }
}
