/**
 * The request bodies the client posts, the required-field checks that run before any outbound
 * call, and the form bodies posted to the district site's ajax endpoint.
 */
module Requests {
  import opened Js
  import opened Cookies
  import opened Forms

  /** `POST /court-details` (case-number flow). */
  datatype CourtDetailsRequest = CourtDetailsRequest(districtLink: Field, cookies: CookieInput)

  /** `POST /case-types`. */
  datatype CaseTypesRequest = CaseTypesRequest(
    districtBaseUrl: Field, cookies: CookieInput, estCode: Field, scid: Field,
    appTokenName: Field, appTokenValue: Field)

  /** `POST /captcha` (case-number flow). */
  datatype CaptchaRequest = CaptchaRequest(districtBaseUrl: Field, scid: Field, cookies: CookieInput)

  /** `POST /case-data`: the search by case number. */
  datatype CaseDataRequest = CaseDataRequest(
    districtBaseUrl: Field, cookies: CookieInput, estCode: Field, caseType: Field,
    regNo: Field, regYear: Field, scid: Field, appTokenName: Field, appTokenValue: Field,
    captchaValue: Field)

  /** `POST /api/case-data` of the older server: the search by litigant name. */
  datatype PartySearchRequest = PartySearchRequest(
    districtBaseUrl: Field, cookies: CookieInput, estCode: Field, litigantName: Field,
    regYear: Field, caseStatus: Field, scid: Field, appTokenName: Field, appTokenValue: Field,
    captchaValue: Field)

  /** `POST /api/case-details-by-cino` of the older server. */
  datatype CinoRequest = CinoRequest(districtBaseUrl: Field, cookies: CookieInput, cino: Field)

  /** Only the district link is required; the cookies may be missing. */
  predicate CourtDetailsComplete(r: CourtDetailsRequest) {
    Given(r.districtLink)
  }

  /** The six fields that must all be truthy. */
  predicate CaseTypesComplete(r: CaseTypesRequest) {
    && Given(r.districtBaseUrl) && CookiesGiven(r.cookies) && Given(r.estCode)
    && Given(r.scid) && Given(r.appTokenName) && Given(r.appTokenValue)
  }

  /** The three fields that must all be truthy. */
  predicate CaptchaComplete(r: CaptchaRequest) {
    Given(r.districtBaseUrl) && Given(r.scid) && CookiesGiven(r.cookies)
  }

  /** The ten fields that must all be truthy. */
  predicate CaseDataComplete(r: CaseDataRequest) {
    && Given(r.districtBaseUrl) && CookiesGiven(r.cookies) && Given(r.estCode)
    && Given(r.caseType) && Given(r.regNo) && Given(r.regYear) && Given(r.scid)
    && Given(r.appTokenName) && Given(r.appTokenValue) && Given(r.captchaValue)
  }

  /** The nine fields that must all be truthy; the case status is not among them. */
  predicate PartySearchComplete(r: PartySearchRequest) {
    && Given(r.districtBaseUrl) && CookiesGiven(r.cookies) && Given(r.estCode)
    && Given(r.litigantName) && Given(r.regYear) && Given(r.scid)
    && Given(r.appTokenName) && Given(r.appTokenValue) && Given(r.captchaValue)
  }

  /** The three fields that must all be truthy. */
  predicate CinoComplete(r: CinoRequest) {
    Given(r.districtBaseUrl) && CookiesGiven(r.cookies) && Given(r.cino)
  }

  /** The case status plays no part in validation: any value of it, a missing one included,
      leaves the verdict unchanged. */
  lemma CaseStatusNotRequired(r: PartySearchRequest, status: Field)
    ensures PartySearchComplete(r.(caseStatus := status)) == PartySearchComplete(r)
    ensures PartySearchComplete(r.(caseStatus := Absent)) == PartySearchComplete(r)
  {
  }

  /** The names a case-types body uses besides the token's own. */
  const CaseTypesNames := ["action", "service_type", "est_code", "scid", "es_ajax_request"]

  /** The case-types body: six pairs, the `get_case_types` action first, the token among
      them under its run-time name. */
  function CaseTypesBody(r: CaseTypesRequest): (body: seq<Pair>)
    requires CaseTypesComplete(r)
    ensures |body| == 6 && body[0] == ("action", "get_case_types")
    ensures (r.appTokenName.s, r.appTokenValue.s) in body
  {
    [ ("action", "get_case_types"),
      ("service_type", "courtComplex"),
      ("est_code", r.estCode.s),
      ("scid", r.scid.s),
      (r.appTokenName.s, r.appTokenValue.s),
      ("es_ajax_request", "1") ]
  }

  /** The names a case-data body uses besides the token's own. */
  const CaseDataNames := ["service_type", "est_code", "case_type", "reg_no", "reg_year", "scid",
                          "siwp_captcha_value", "es_ajax_request", "submit", "action"]

  /** The case-data body: eleven pairs, the `get_cases` action last, the token among them
      under its run-time name. */
  function CaseDataBody(r: CaseDataRequest): (body: seq<Pair>)
    requires CaseDataComplete(r)
    ensures |body| == 11 && body[10] == ("action", "get_cases")
    ensures (r.appTokenName.s, r.appTokenValue.s) in body
  {
    [ ("service_type", "courtComplex"),
      ("est_code", r.estCode.s),
      ("case_type", r.caseType.s),
      ("reg_no", r.regNo.s),
      ("reg_year", r.regYear.s),
      ("scid", r.scid.s),
      (r.appTokenName.s, r.appTokenValue.s),
      ("siwp_captcha_value", r.captchaValue.s),
      ("es_ajax_request", "1"),
      ("submit", "Search"),
      ("action", "get_cases") ]
  }

  /** The names a party-search body uses besides the token's own. */
  const PartySearchNames := ["service_type", "est_code", "litigant_name", "reg_year",
                             "case_status", "scid", "siwp_captcha_value", "es_ajax_request",
                             "submit", "action"]

  /** The party-search body: eleven pairs, the `get_parties` action last, the token among them
      under its run-time name, and the case status as `String` makes it (`"undefined"` when
      the client left it out). */
  function PartySearchBody(r: PartySearchRequest): (body: seq<Pair>)
    requires PartySearchComplete(r)
    ensures |body| == 11 && body[10] == ("action", "get_parties")
    ensures (r.appTokenName.s, r.appTokenValue.s) in body
    ensures r.caseStatus.Absent? ==> ("case_status", "undefined") in body
  {
    [ ("service_type", "courtComplex"),
      ("est_code", r.estCode.s),
      ("litigant_name", r.litigantName.s),
      ("reg_year", r.regYear.s),
      ("case_status", Stringify(r.caseStatus)),
      ("scid", r.scid.s),
      (r.appTokenName.s, r.appTokenValue.s),
      ("siwp_captcha_value", r.captchaValue.s),
      ("es_ajax_request", "1"),
      ("submit", "Search"),
      ("action", "get_parties") ]
  }

  /** The CINO body: three pairs, the CINO first and the `get_cnr_details` action second. */
  function CinoBody(r: CinoRequest): (body: seq<Pair>)
    requires CinoComplete(r)
    ensures |body| == 3 && body[0] == ("cino", r.cino.s) && body[1] == ("action", "get_cnr_details")
  {
    [ ("cino", r.cino.s),
      ("action", "get_cnr_details"),
      ("es_ajax_request", "1") ]
  }

  /** The `append` calls of the case-types handler, in order. */
  method BuildCaseTypesForm(r: CaseTypesRequest) returns (form: FormData)
    requires CaseTypesComplete(r)
    ensures fresh(form) && form.entries == CaseTypesBody(r)
  {
    form := new FormData();
    form.Append("action", "get_case_types");
    form.Append("service_type", "courtComplex");
    form.Append("est_code", r.estCode.s);
    form.Append("scid", r.scid.s);
    form.Append(r.appTokenName.s, r.appTokenValue.s);
    form.Append("es_ajax_request", "1");
  }

  /** The `append` calls of the case-data handler, in order. */
  method BuildCaseDataForm(r: CaseDataRequest) returns (form: FormData)
    requires CaseDataComplete(r)
    ensures fresh(form) && form.entries == CaseDataBody(r)
  {
    form := new FormData();
    form.Append("service_type", "courtComplex");
    form.Append("est_code", r.estCode.s);
    form.Append("case_type", r.caseType.s);
    form.Append("reg_no", r.regNo.s);
    form.Append("reg_year", r.regYear.s);
    form.Append("scid", r.scid.s);
    form.Append(r.appTokenName.s, r.appTokenValue.s);
    form.Append("siwp_captcha_value", r.captchaValue.s);
    form.Append("es_ajax_request", "1");
    form.Append("submit", "Search");
    form.Append("action", "get_cases");
  }

  /** The `append` calls of the party-search handler, in order. */
  method BuildPartySearchForm(r: PartySearchRequest) returns (form: FormData)
    requires PartySearchComplete(r)
    ensures fresh(form) && form.entries == PartySearchBody(r)
  {
    form := new FormData();
    form.Append("service_type", "courtComplex");
    form.Append("est_code", r.estCode.s);
    form.Append("litigant_name", r.litigantName.s);
    form.Append("reg_year", r.regYear.s);
    form.Append("case_status", Stringify(r.caseStatus));
    form.Append("scid", r.scid.s);
    form.Append(r.appTokenName.s, r.appTokenValue.s);
    form.Append("siwp_captcha_value", r.captchaValue.s);
    form.Append("es_ajax_request", "1");
    form.Append("submit", "Search");
    form.Append("action", "get_parties");
  }

  /** The `append` calls of the CINO handler, in order. */
  method BuildCinoForm(r: CinoRequest) returns (form: FormData)
    requires CinoComplete(r)
    ensures fresh(form) && form.entries == CinoBody(r)
  {
    form := new FormData();
    form.Append("cino", r.cino.s);
    form.Append("action", "get_cnr_details");
    form.Append("es_ajax_request", "1");
  }

  /** The upstream receives the CINO, and every other parameter of its body, exactly once. */
  lemma CinoSentOnce(r: CinoRequest)
    requires CinoComplete(r)
    ensures var body := CinoBody(r);
      && ValuesOf(body, "cino") == [r.cino.s]
      && forall i :: 0 <= i < |body| ==> ValuesOf(body, body[i].0) == [body[i].1]
  {
    var body := CinoBody(r);
    forall i | 0 <= i < |body|
      ensures ValuesOf(body, body[i].0) == [body[i].1]
    {
      DistinctSentOnce(body, i);
    }
    assert ValuesOf(body, body[0].0) == [body[0].1];
  }

  /** As long as the token's name is none of the fixed names, the upstream receives every
      parameter of the case-types body exactly once, each with its own value. */
  lemma CaseTypesSentOnce(r: CaseTypesRequest)
    requires CaseTypesComplete(r) && r.appTokenName.s !in CaseTypesNames
    ensures var body := CaseTypesBody(r);
      forall i :: 0 <= i < |body| ==> ValuesOf(body, body[i].0) == [body[i].1]
  {
    var body := CaseTypesBody(r);
    forall i | 0 <= i < |body|
      ensures ValuesOf(body, body[i].0) == [body[i].1]
    {
      DistinctSentOnce(body, i);
    }
  }

  /** As long as the token's name is none of the fixed names, the upstream receives every
      parameter of the case-data body exactly once, each with its own value. */
  lemma CaseDataSentOnce(r: CaseDataRequest)
    requires CaseDataComplete(r) && r.appTokenName.s !in CaseDataNames
    ensures var body := CaseDataBody(r);
      forall i :: 0 <= i < |body| ==> ValuesOf(body, body[i].0) == [body[i].1]
  {
    var body := CaseDataBody(r);
    forall i | 0 <= i < |body|
      ensures ValuesOf(body, body[i].0) == [body[i].1]
    {
      DistinctSentOnce(body, i);
    }
  }

  /** As long as the token's name is none of the fixed names, the upstream receives every
      parameter of the party-search body exactly once, each with its own value. */
  lemma PartySearchSentOnce(r: PartySearchRequest)
    requires PartySearchComplete(r) && r.appTokenName.s !in PartySearchNames
    ensures var body := PartySearchBody(r);
      forall i :: 0 <= i < |body| ==> ValuesOf(body, body[i].0) == [body[i].1]
  {
    var body := PartySearchBody(r);
    forall i | 0 <= i < |body|
      ensures ValuesOf(body, body[i].0) == [body[i].1]
    {
      DistinctSentOnce(body, i);
    }
  }

  /** The token's name is appended without any check: a token named `action` puts a second
      action into the case-types body, after `get_case_types`. */
  lemma TokenNamedAction(r: CaseTypesRequest)
    requires CaseTypesComplete(r) && r.appTokenName.s == "action"
    ensures ValuesOf(CaseTypesBody(r), "action") == ["get_case_types", r.appTokenValue.s]
  {
    var body := CaseTypesBody(r);
    var first, second := body[..4], body[4..];
    assert body == first + second;
    assert first == [] + [("action", "get_case_types")] + first[1..];
    assert Lacks(first[1..], "action");
    SentOnce([], "action", "get_case_types", first[1..]);
    assert second == [] + [("action", r.appTokenValue.s)] + second[1..];
    assert Lacks(second[1..], "action");
    SentOnce([], "action", r.appTokenValue.s, second[1..]);
    ValuesOfAppend(first, second, "action");
  }
}
