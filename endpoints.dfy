/** The two POST handlers of backend/main.py that do more than forward a
    call: `/generate-drafts` and `/send-email`. Request fields are what
    `data.get(...)` returns for a JSON string or null (an absent key is
    None); what `send_email` returned is an input. */
module Endpoints {
  import opened PyStrings
  import opened Drafts
  import opened Backends

  /** A JSON response: its HTTP status and its body. */
  datatype Response<T> = Response(status: nat, payload: T)

  datatype GeneratePayload = DraftsPayload(reply: DraftsReply) | GenerateError(error: string)

  const SheetIdRequired: string := "sheet_id is required"

  /** `resume_id or ""`. */
  function ResumeIdArg(resumeId: Option<string>): string {
    if resumeId.Some? then resumeId.value else ""
  }

  /** The response of `/generate-drafts`. */
  function GenerateResponse(sheetId: Option<string>, resumeId: Option<string>,
                            sheet: SheetFetch, resume: ResumeFetch, llm: Llm): Response<GeneratePayload> {
    if !Truthy(sheetId) then Response(400, GenerateError(SheetIdRequired))
    else Response(200, DraftsPayload(GenerateDraftsSpec(MainApp, sheet, ResumeIdArg(resumeId), resume, llm)))
  }

  /** `/generate-drafts`: a falsy sheet_id is refused with 400 before any
      work; otherwise the reply of `generate_drafts` is sent with 200,
      even when it reports a failed sheet fetch. */
  method ApiGenerateDrafts(sheetId: Option<string>, resumeId: Option<string>,
                           sheet: SheetFetch, resume: ResumeFetch, llm: Llm)
    returns (r: Response<GeneratePayload>)
    ensures r == GenerateResponse(sheetId, resumeId, sheet, resume, llm)
    ensures r.status == 400 <==> !Truthy(sheetId)
    ensures r.status == 400 ==> r.payload == GenerateError(SheetIdRequired)
    ensures r.status != 400 ==>
      r.status == 200 && r.payload == DraftsPayload(GenerateDraftsSpec(MainApp, sheet, ResumeIdArg(resumeId), resume, llm))
  {
    if !Truthy(sheetId) {
      return Response(400, GenerateError(SheetIdRequired));
    }
    var reply := GenerateDrafts(MainApp, sheet, ResumeIdArg(resumeId), resume, llm);
    r := Response(200, DraftsPayload(reply));
  }

  /** A failed sheet fetch is not an HTTP error: with a sheet_id the
      response is 200, and the failure is reported inside the reply. */
  lemma FetchFailureIsStill200(sheetId: string, resumeId: Option<string>, message: string, resume: ResumeFetch, llm: Llm)
    requires sheetId != ""
    ensures var r := GenerateResponse(Some(sheetId), resumeId, SheetFetchFailed(message), resume, llm);
      && r.status == 200 && r.payload.DraftsPayload?
      && r.payload.reply.drafts == [] && r.payload.reply.error == Some(FetchFailurePrefix + message)
  {
  }

  /** What `send_email` returned: `{"ok": True, "raw": ...}` or `{"ok": False, "error": ...}`. */
  datatype SendResult = SendOk(raw: string) | SendError(error: string)

  datatype SendPayload = SendRejected(error: string) | Sent(raw: string) | SendFailed(error: string)

  const SendFieldsRequired: string := "to, subject, body are required"

  /** `not (to and subject and body)`. */
  predicate MissingSendField(to: Option<string>, subject: Option<string>, body: Option<string>) {
    !(Truthy(to) && Truthy(subject) && Truthy(body))
  }

  /** `/send-email`: 400 when a field is missing or empty, before anything
      is sent; otherwise 200 with "sent" or 500 with the error. */
  function ApiSendEmail(to: Option<string>, subject: Option<string>, body: Option<string>, result: SendResult)
    : (r: Response<SendPayload>)
    ensures r.status == 400 <==> MissingSendField(to, subject, body)
    ensures r.status == 400 ==> r.payload == SendRejected(SendFieldsRequired)
    ensures r.status == 200 <==> !MissingSendField(to, subject, body) && result.SendOk?
    ensures r.status == 200 ==> r.payload == Sent(result.raw)
    ensures r.status == 500 <==> !MissingSendField(to, subject, body) && result.SendError?
    ensures r.status == 500 ==> r.payload == SendFailed(result.error)
  {
    if MissingSendField(to, subject, body) then Response(400, SendRejected(SendFieldsRequired))
    else
      match result
      case SendOk(raw) => Response(200, Sent(raw))
      case SendError(error) => Response(500, SendFailed(error))
  }

  /** A refused request does not depend on what sending would have done:
      nothing is sent. */
  lemma RejectedBeforeSending(to: Option<string>, subject: Option<string>, body: Option<string>,
                              r1: SendResult, r2: SendResult)
    requires MissingSendField(to, subject, body)
    ensures ApiSendEmail(to, subject, body, r1) == ApiSendEmail(to, subject, body, r2)
  {
  }

  /** The check is truthiness only: a body of a single space passes it. */
  lemma WhitespaceBodyAccepted(to: string, subject: string, result: SendResult)
    requires to != "" && subject != ""
    ensures ApiSendEmail(Some(to), Some(subject), Some(" "), result).status != 400
  {
  }
}
