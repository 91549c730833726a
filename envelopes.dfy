/**
 * The `{ success, data }` envelope the district site's ajax endpoint answers with, and how
 * the handlers sort it.
 */
module Envelopes {
  import opened Js

  /** What an outbound call produced: the parsed response body with its `set-cookie` header
      (missing when the site set no cookie), or an exception (network failure, non-2xx
      status). */
  datatype Upstream =
    | Answered(data: JsValue, setCookie: Option<seq<string>>)
    | Threw

  /** `response.headers['set-cookie'] || []`. */
  function SetCookiesOrEmpty(setCookie: Option<seq<string>>): seq<string> {
    if setCookie.Some? then setCookie.value else []
  }

  /** How a handler reads the envelope. */
  datatype Verdict =
    | Parsed(html: string)    // `success` truthy and `data` a string: the HTML to scrape
    | Refused(error: JsValue) // `success === false`: the site's own message in `data`
    | Unexpected              // any other shape
    | Throws                  // the handler ends in its `catch` block

  /** `if (r.success && typeof r.data === 'string') … else if (r.success === false) … else …`,
      where reading a property of `null` or `undefined` throws. */
  function Classify(body: JsValue): (v: Verdict)
    ensures v.Throws? <==> body.Undefined? || body.Null?
    ensures v.Parsed? <==> body.Obj? && "success" in body.fields && Truthy(body.fields["success"])
                           && "data" in body.fields && body.fields["data"].Str?
    ensures v.Parsed? ==> v.html == body.fields["data"].s
    ensures v.Refused? <==> body.Obj? && "success" in body.fields && body.fields["success"] == Bool(false)
    ensures v.Refused? ==> v.error == (if "data" in body.fields then body.fields["data"] else Undefined)
  {
    var success := Get(body, "success");
    if success.None? then Throws
    else
      var data := Get(body, "data").value;
      if Truthy(success.value) && data.Str? then Parsed(data.s)
      else if success.value == Bool(false) then Refused(data)
      else Unexpected
  }

  /** The truthiness test is not `=== true`: a `success` of `1` or `"yes"` with a string
      `data` is parsed too, while `success: true` with an array `data` is not. */
  lemma TruthySuccessIsEnough(html: string)
    ensures Classify(Obj(map["success" := Number(1), "data" := Str(html)])) == Parsed(html)
    ensures Classify(Obj(map["success" := Str("yes"), "data" := Str(html)])) == Parsed(html)
    ensures Classify(Obj(map["success" := Bool(true), "data" := Arr([])])) == Unexpected
  {
    var a := Obj(map["success" := Number(1), "data" := Str(html)]);
    assert Get(a, "success") == Some(Number(1));
    var b := Obj(map["success" := Str("yes"), "data" := Str(html)]);
    assert Get(b, "success") == Some(Str("yes"));
    var c := Obj(map["success" := Bool(true), "data" := Arr([])]);
    assert Get(c, "success") == Some(Bool(true)) && Get(c, "data") == Some(Arr([]));
  }

  /** A body that is no envelope at all, such as the bare `0` WordPress answers for an unknown
      action or a plain text page, is unexpected rather than refused, and does not throw. */
  lemma BareValueIsUnexpected(text: string)
    ensures Classify(Number(0)) == Unexpected
    ensures Classify(Str(text)) == Unexpected
  {
  }

  /** The verdict for a whole call: a call that threw ends in the same `catch` block as a body
      whose `success` cannot be read. */
  function Outcome(answer: Upstream): (v: Verdict)
    ensures v.Throws? <==> answer.Threw? || answer.data.Undefined? || answer.data.Null?
    ensures answer.Answered? ==> v == Classify(answer.data)
  {
    if answer.Threw? then Throws else Classify(answer.data)
  }
}
