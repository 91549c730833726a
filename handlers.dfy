/**
 * The route handlers with the network taken out: each one receives what its outbound call
 * answered and what cheerio extracted from it, and returns the call it made (none when
 * validation failed) together with the reply it sends to the client.
 */
module Handlers {
  import opened Text
  import opened Js
  import opened Cookies
  import opened DistrictUrls
  import opened Collecting
  import opened Dropdowns
  import opened Forms
  import opened Requests
  import opened Envelopes
  import opened CaseRows
  import opened CaseDetails

  /** A GET the relay sends: its URL and the `Cookie` and `Referer` headers it sets. */
  datatype PageGet = PageGet(url: string, cookie: string, referer: string)

  /** A POST of the case-number flow with the headers of `getAjaxHeaders` that vary. */
  datatype AjaxPost = AjaxPost(url: string, cookie: string, origin: string, referer: string, body: seq<Pair>)

  /** The POST of the litigant search, whose `Cookie` header is the client's value as sent. */
  datatype PartyPost = PartyPost(url: string, cookies: CookieInput, origin: string, referer: string, body: seq<Pair>)

  /** What cheerio finds on the case-number search page: the `scid` input's value, the name and
      value of the first `tok_` input, and the court-complex options. */
  datatype SearchPage = SearchPage(
    scid: Option<string>, tokenName: Option<string>, tokenValue: Option<string>,
    options: seq<OptionElement>)

  // ----- court details (step 1) -----

  datatype CourtDetailsReply =
    | LinkMissing                                                   // 400
    | CourtDetails(scid: Option<string>, appTokenName: Option<string>, appTokenValue: Option<string>,
                   courtComplexes: seq<CourtOption>, setCookies: seq<string>)
    | DetailsFailed                                                 // 500

  /** The page fetched in step 1: the search page under the normalised link, with that link as
      the `Referer`. */
  function CourtDetailsGet(r: CourtDetailsRequest): PageGet
    requires CourtDetailsComplete(r)
  {
    var base := NormalizeBase(r.districtLink.s);
    PageGet(SearchPageUrl(base), CookieHeader(r.cookies), base)
  }

  /** `POST /court-details`. A missing link is refused before any call. A page that is not
      text makes the logging of its first 500 characters throw. Otherwise the reply carries
      the session id and token (`null` when missing or empty) and the filtered court
      complexes. */
  method CourtDetailsRoute(r: CourtDetailsRequest, answer: Upstream, scrape: string -> SearchPage)
    returns (get: Option<PageGet>, reply: CourtDetailsReply)
    ensures get.None? <==> !CourtDetailsComplete(r)
    ensures get.Some? ==> get.value == CourtDetailsGet(r)
    ensures !CourtDetailsComplete(r) ==> reply == LinkMissing
    ensures CourtDetailsComplete(r) && answer.Answered? && answer.data.Str? ==>
      var page := scrape(answer.data.s);
      reply == CourtDetails(OrNull(page.scid), OrNull(page.tokenName), OrNull(page.tokenValue),
                            Collect(page.options, Keep(CourtComplexSentinel), ToChoice),
                            SetCookiesOrEmpty(answer.setCookie))
    ensures CourtDetailsComplete(r) && !(answer.Answered? && answer.data.Str?) ==> reply == DetailsFailed
  {
    if !CourtDetailsComplete(r) {
      return None, LinkMissing;
    }
    get := Some(CourtDetailsGet(r));
    if !(answer.Answered? && answer.data.Str?) {
      return get, DetailsFailed;
    }
    var page := scrape(answer.data.s);
    var complexes := ListChoices(page.options, CourtComplexSentinel);
    reply := CourtDetails(OrNull(page.scid), OrNull(page.tokenName), OrNull(page.tokenValue),
                          complexes, SetCookiesOrEmpty(answer.setCookie));
  }

  // ----- case types (step 2) -----

  datatype CaseTypesReply =
    | TypesMissing                                             // 400
    | CaseTypes(caseTypes: seq<CourtOption>, setCookies: seq<string>)
    | TypesRefused(details: JsValue)                           // 400
    | TypesFailed                                              // 500

  function CaseTypesPost(r: CaseTypesRequest): AjaxPost
    requires CaseTypesComplete(r)
  {
    var base := NormalizeBase(r.districtBaseUrl.s);
    var origin := Origin(base);
    AjaxPost(AjaxUrl(base), CookieHeader(r.cookies), origin, AjaxReferer(origin), CaseTypesBody(r))
  }

  /** `POST /case-types`. Validation comes before the call. The envelope is sorted two ways:
      a parsed list of case types, or a 400 that hands the whole envelope back; a call that
      throws, or a body without properties, ends in a 500. */
  method CaseTypesRoute(r: CaseTypesRequest, answer: Upstream, scrape: string -> seq<OptionElement>)
    returns (post: Option<AjaxPost>, reply: CaseTypesReply)
    ensures post.None? <==> !CaseTypesComplete(r)
    ensures post.Some? ==> post.value == CaseTypesPost(r)
    ensures !CaseTypesComplete(r) ==> reply == TypesMissing
    ensures CaseTypesComplete(r) && Outcome(answer).Parsed? ==>
      reply == CaseTypes(Collect(scrape(Outcome(answer).html), Keep(CaseTypeSentinel), ToChoice),
                         SetCookiesOrEmpty(answer.setCookie))
    ensures CaseTypesComplete(r) && (Outcome(answer).Refused? || Outcome(answer).Unexpected?) ==>
      reply == TypesRefused(answer.data)
    ensures CaseTypesComplete(r) && Outcome(answer).Throws? ==> reply == TypesFailed
  {
    if !CaseTypesComplete(r) {
      return None, TypesMissing;
    }
    var form := BuildCaseTypesForm(r);
    var base := NormalizeBase(r.districtBaseUrl.s);
    var origin := Origin(base);
    post := Some(AjaxPost(AjaxUrl(base), CookieHeader(r.cookies), origin, AjaxReferer(origin), form.entries));
    var verdict := Outcome(answer);
    if verdict.Throws? {
      reply := TypesFailed;
    } else if verdict.Parsed? {
      var types := ListChoices(scrape(verdict.html), CaseTypeSentinel);
      reply := CaseTypes(types, SetCookiesOrEmpty(answer.setCookie));
    } else {
      reply := TypesRefused(answer.data);
    }
  }

  // ----- captcha (step 3) -----

  datatype CaptchaReply =
    | CaptchaMissing          // 400
    | CaptchaImage(setCookies: seq<string>)
    | CaptchaFailed           // 500

  /** `POST /captcha`: the image bound to the session id, fetched with the search page as the
      `Referer`; whatever bytes come back become the image. */
  function CaptchaRoute(r: CaptchaRequest, answer: Upstream): (result: (Option<PageGet>, CaptchaReply))
    ensures result.0.None? <==> !CaptchaComplete(r)
    ensures result.1.CaptchaMissing? <==> !CaptchaComplete(r)
    ensures result.1.CaptchaFailed? <==> CaptchaComplete(r) && answer.Threw?
    ensures result.0.Some? ==>
      var base := NormalizeBase(r.districtBaseUrl.s);
      result.0.value == PageGet(CaptchaUrl(base, r.scid.s), CookieHeader(r.cookies), SearchPageUrl(base))
    ensures CaptchaComplete(r) && answer.Answered? ==> result.1 == CaptchaImage(SetCookiesOrEmpty(answer.setCookie))
  {
    if !CaptchaComplete(r) then (None, CaptchaMissing)
    else
      var base := NormalizeBase(r.districtBaseUrl.s);
      var get := PageGet(CaptchaUrl(base, r.scid.s), CookieHeader(r.cookies), SearchPageUrl(base));
      if answer.Threw? then (Some(get), CaptchaFailed)
      else (Some(get), CaptchaImage(SetCookiesOrEmpty(answer.setCookie)))
  }

  // ----- case data (step 4) -----

  datatype CaseDataReply =
    | DataMissing                                                      // 400
    | Cases(parsedCases: seq<CaseNumberRecord>, setCookies: seq<string>)
    | DataRefused(error: JsValue, setCookies: seq<string>)             // 400
    | DataUnexpected(externalResponse: JsValue, setCookies: seq<string>) // 500
    | DataFailed                                                       // 500

  function CaseDataStatus(reply: CaseDataReply): int {
    match reply
    case DataMissing => 400
    case Cases(_, _) => 200
    case DataRefused(_, _) => 400
    case DataUnexpected(_, _) => 500
    case DataFailed => 500
  }

  function CaseDataPost(r: CaseDataRequest): AjaxPost
    requires CaseDataComplete(r)
  {
    var base := NormalizeBase(r.districtBaseUrl.s);
    var origin := Origin(base);
    AjaxPost(AjaxUrl(base), CookieHeader(r.cookies), origin, AjaxReferer(origin), CaseDataBody(r))
  }

  /** `POST /case-data`. Validation comes before the call. The envelope is sorted three ways:
      the scraped cases, one per table row in row order; a 400 carrying the site's own message
      when it says `success: false`; a 500 with the raw envelope for any other shape. A call
      that throws, or a body without properties, ends in a 500 as well. */
  method CaseDataRoute(r: CaseDataRequest, answer: Upstream, scrape: string -> seq<Row>)
    returns (post: Option<AjaxPost>, reply: CaseDataReply)
    ensures post.None? <==> !CaseDataComplete(r)
    ensures post.Some? ==> post.value == CaseDataPost(r)
    ensures !CaseDataComplete(r) ==> reply == DataMissing
    ensures CaseDataComplete(r) && Outcome(answer).Parsed? ==>
      var rows := scrape(Outcome(answer).html);
      && reply.Cases? && |reply.parsedCases| == |rows|
      && (forall i :: 0 <= i < |rows| ==> reply.parsedCases[i] == CaseNumberRecordOf(rows[i]))
      && reply.setCookies == SetCookiesOrEmpty(answer.setCookie)
    ensures CaseDataComplete(r) && Outcome(answer).Refused? ==>
      reply == DataRefused(Outcome(answer).error, SetCookiesOrEmpty(answer.setCookie))
    ensures CaseDataComplete(r) && Outcome(answer).Unexpected? ==>
      reply == DataUnexpected(answer.data, SetCookiesOrEmpty(answer.setCookie))
    ensures CaseDataComplete(r) && Outcome(answer).Throws? ==> reply == DataFailed
    ensures CaseDataStatus(reply) == 400 <==> !CaseDataComplete(r) || Outcome(answer).Refused?
  {
    if !CaseDataComplete(r) {
      return None, DataMissing;
    }
    var form := BuildCaseDataForm(r);
    var base := NormalizeBase(r.districtBaseUrl.s);
    var origin := Origin(base);
    post := Some(AjaxPost(AjaxUrl(base), CookieHeader(r.cookies), origin, AjaxReferer(origin), form.entries));
    var verdict := Outcome(answer);
    match verdict
    case Throws =>
      reply := DataFailed;
    case Parsed(html) =>
      var cases := ParseCaseNumberRows(scrape(html));
      reply := Cases(cases, SetCookiesOrEmpty(answer.setCookie));
    case Refused(error) =>
      reply := DataRefused(error, SetCookiesOrEmpty(answer.setCookie));
    case Unexpected =>
      reply := DataUnexpected(answer.data, SetCookiesOrEmpty(answer.setCookie));
  }

  // ----- litigant search (older server) -----

  const PartySearchPagePath := "case-status-search-by-petitioner-respondent/"

  datatype PartySearchReply =
    | PartyMissing                                        // 400
    | PartyCases(parsedCases: seq<PartySearchRecord>)
    | PartyUnexpected(externalResponse: JsValue)          // 500
    | PartyFailed                                         // 500

  /** The raw base is used as sent: no `/` is added, and the origin is the base itself. */
  function PartySearchPost(r: PartySearchRequest): PartyPost
    requires PartySearchComplete(r)
  {
    var b := r.districtBaseUrl.s;
    PartyPost(PartySearchAjaxUrl(b), r.cookies, b, b + "/" + PartySearchPagePath, PartySearchBody(r))
  }

  /** `POST /api/case-data` of the older server. Validation of nine fields comes before the
      call. The envelope is sorted two ways: the scraped cases, one per table row in row
      order, or a 500 with the raw envelope, `success: false` included. */
  method PartySearchRoute(r: PartySearchRequest, answer: Upstream, scrape: string -> seq<Row>)
    returns (post: Option<PartyPost>, reply: PartySearchReply)
    ensures post.None? <==> !PartySearchComplete(r)
    ensures post.Some? ==> post.value == PartySearchPost(r)
    ensures !PartySearchComplete(r) ==> reply == PartyMissing
    ensures PartySearchComplete(r) && Outcome(answer).Parsed? ==>
      var rows := scrape(Outcome(answer).html);
      && reply.PartyCases? && |reply.parsedCases| == |rows|
      && (forall i :: 0 <= i < |rows| ==> reply.parsedCases[i] == PartySearchRecordOf(rows[i]))
    ensures PartySearchComplete(r) && (Outcome(answer).Refused? || Outcome(answer).Unexpected?) ==>
      reply == PartyUnexpected(answer.data)
    ensures PartySearchComplete(r) && Outcome(answer).Throws? ==> reply == PartyFailed
  {
    if !PartySearchComplete(r) {
      return None, PartyMissing;
    }
    var form := BuildPartySearchForm(r);
    var b := r.districtBaseUrl.s;
    post := Some(PartyPost(PartySearchAjaxUrl(b), r.cookies, b, b + "/" + PartySearchPagePath, form.entries));
    var verdict := Outcome(answer);
    if verdict.Throws? {
      reply := PartyFailed;
    } else if verdict.Parsed? {
      var cases := ParsePartySearchRows(scrape(verdict.html));
      reply := PartyCases(cases);
    } else {
      reply := PartyUnexpected(answer.data);
    }
  }

  // ----- case details by CINO (older server) -----

  datatype CinoReply =
    | CinoMissing                                         // 400
    | CaseDetailsFound(caseDetails: map<string, Detail>)
    | CinoFailed                                          // 500

  /** A document `cheerio.load` accepts: it refuses `null` and `undefined`. */
  predicate Loadable(v: JsValue) {
    !v.Undefined? && !v.Null?
  }

  /** Sent like the litigant search: the raw base, with the litigant-search page as `Referer`. */
  function CinoPost(r: CinoRequest): PartyPost
    requires CinoComplete(r)
  {
    var b := r.districtBaseUrl.s;
    PartyPost(PartySearchAjaxUrl(b), r.cookies, b, b + "/" + PartySearchPagePath, CinoBody(r))
  }

  /** `POST /api/case-details-by-cino`. Validation of three fields comes before the call. The
      `data` property of whatever came back is scraped without any check of `success`; a call
      that throws, a body whose `data` cannot be read, a `data` that is `null` or `undefined`
      (which `cheerio.load` refuses), and a history row with more cells than headers all end
      in a 500. */
  method CaseDetailsRoute(r: CinoRequest, answer: Upstream, scrape: JsValue -> DetailsPage)
    returns (post: Option<PartyPost>, reply: CinoReply)
    ensures post.None? <==> !CinoComplete(r)
    ensures post.Some? ==> post.value == CinoPost(r)
    ensures !CinoComplete(r) ==> reply == CinoMissing
    ensures CinoComplete(r) && (answer.Threw? || Get(answer.data, "data").None?) ==> reply == CinoFailed
    ensures CinoComplete(r) && answer.Answered? && Get(answer.data, "data").Some? && !Loadable(Get(answer.data, "data").value) ==>
      reply == CinoFailed
    ensures CinoComplete(r) && answer.Answered? && Get(answer.data, "data").Some? && Loadable(Get(answer.data, "data").value) ==>
      var details := CaseDetailsOf(scrape(Get(answer.data, "data").value));
      && (details.None? ==> reply == CinoFailed)
      && (details.Some? ==> reply == CaseDetailsFound(details.value))
  {
    if !CinoComplete(r) {
      return None, CinoMissing;
    }
    var form := BuildCinoForm(r);
    var b := r.districtBaseUrl.s;
    post := Some(PartyPost(PartySearchAjaxUrl(b), r.cookies, b, b + "/" + PartySearchPagePath, form.entries));
    if answer.Threw? {
      return post, CinoFailed;
    }
    var html := Get(answer.data, "data");
    if html.None? || !Loadable(html.value) {
      return post, CinoFailed;
    }
    var details := BuildCaseDetails(scrape(html.value));
    reply := if details.Some? then CaseDetailsFound(details.value) else CinoFailed;
  }

  /** The CINO lookup trusts the envelope: even `success: false` has its `data` scraped when
      that `data` is a text, and the reply then carries the parties, whatever the page held. */
  lemma CinoIgnoresSuccess(r: CinoRequest, error: JsValue, scrape: JsValue -> DetailsPage)
    requires CinoComplete(r)
    requires error.Str?
    requires scrape(error).history.None?
    ensures var answer := Answered(Obj(map["success" := Bool(false), "data" := error]), None);
      && Outcome(answer).Refused?
      && Get(answer.data, "data") == Some(error)
      && CaseDetailsOf(scrape(error)).Some?
      && "petitioners" in CaseDetailsOf(scrape(error)).value
  {
    var answer := Answered(Obj(map["success" := Bool(false), "data" := error]), None);
    assert Get(answer.data, "success") == Some(Bool(false));
  }

  // ----- properties across the steps -----

  /** One session, one page: the CAPTCHA fetch and every ajax post of the case-number flow name
      as their `Referer` the very page step 1 fetched, and the CAPTCHA asked for is the one
      bound to the session id sent. */
  lemma SessionRefersToSearchPage(link: string, scid: string, cookies: CookieInput)
    requires link != "" && scid != "" && CookiesGiven(cookies)
    ensures var page := CourtDetailsGet(CourtDetailsRequest(Text(link), cookies)).url;
      var captcha := CaptchaRoute(CaptchaRequest(Text(link), Text(scid), cookies), Threw).0;
      && captcha.Some? && captcha.value.referer == page
      && EndsWith(captcha.value.url, scid)
      && AjaxReferer(Origin(NormalizeBase(link))) == page
  {
    DerivedUrls(link, scid);
    AjaxRefererIsSearchPage(link);
    var base := NormalizeBase(link);
    var captcha := CaptchaRoute(CaptchaRequest(Text(link), Text(scid), cookies), Threw).0;
    assert captcha == Some(PageGet(CaptchaUrl(base, scid), CookieHeader(cookies), SearchPageUrl(base)));
  }

  /** Every post of the case-number flow goes to the same endpoint with the same `Origin` and
      `Cookie`, whichever step sends it. */
  lemma StepsShareEndpoint(t: CaseTypesRequest, d: CaseDataRequest)
    requires CaseTypesComplete(t) && CaseDataComplete(d)
    requires t.districtBaseUrl == d.districtBaseUrl && t.cookies == d.cookies
    ensures CaseTypesPost(t).url == CaseDataPost(d).url
    ensures CaseTypesPost(t).origin == CaseDataPost(d).origin
    ensures CaseTypesPost(t).cookie == CaseDataPost(d).cookie
    ensures CaseTypesPost(t).origin + "/" == NormalizeBase(t.districtBaseUrl.s)
  {
  }
}
