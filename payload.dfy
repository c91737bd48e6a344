/** The input resolver of the Scan tab: how the uploaded export, the pasted
    OpenAPI text and the demo state become the one JSON body posted to `/scan`
    (app.py lines 61-75). */
module Payload {
  import opened Wrappers
  import opened PyStr

  /** The JSON values a scan request body carries. */
  datatype Json = Flag(b: bool) | Str(s: string)

  /** A JSON object, as the Python dict that is posted. */
  type Body = map<string, Json>

  /** The body the page posts for the given inputs. `upload` is the decoded text
      of the uploaded file, `None` when nothing is uploaded; `pasted` is the text
      area's content. The upload wins over pasted text, pasted text is used only
      when it has a non-whitespace character and is then sent exactly as typed,
      and otherwise the request asks for the demo specimen. */
  function Requested(upload: Option<string>, pasted: string): (body: Body)
    ensures "demo" in body
    ensures body.Keys <= {"demo", "file", "openapi"}
    ensures !("file" in body && "openapi" in body)
    ensures body["demo"] == Flag(upload.None? && !HasContent(pasted))
    ensures "file" in body <==> upload.Some?
    ensures "file" in body ==> body["file"] == Str(upload.value)
    ensures "openapi" in body <==> upload.None? && HasContent(pasted)
    ensures "openapi" in body ==> body["openapi"] == Str(pasted)
  {
    if upload.Some? then map["demo" := Flag(false), "file" := Str(upload.value)]
    else if HasContent(pasted) then map["demo" := Flag(false), "openapi" := Str(pasted)]
    else map["demo" := Flag(true)]
  }

  /** The `if run:` block's construction of `payload`, one dict update at a time.
      `demoLoaded` says whether the demo specimen was preloaded into the session;
      both of the last two branches set the same flag, so it makes no difference. */
  method BuildPayload(upload: Option<string>, pasted: string, demoLoaded: bool) returns (payload: Body)
    ensures payload == Requested(upload, pasted)
  {
    payload := map["demo" := Flag(false)];
    if upload.Some? {
      payload := payload["file" := Str(upload.value)];
    } else if Strip(pasted, Whitespace) != [] {
      payload := payload["openapi" := Str(pasted)];
    } else if demoLoaded {
      payload := payload["demo" := Flag(true)];
    } else {
      payload := payload["demo" := Flag(true)];
    }
    StripTest(pasted);
  }
}
