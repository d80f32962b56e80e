/** `POST /api/summarize`: validate `transcript`, summarize it, answer `{success:true, summary}`. */
module SummarizeRoute {
  import opened JsValues
  import opened JsStrings
  import opened Http
  import opened Guards

  const TranscriptRequired: string := "Transcript text is required"
  const TranscriptEmpty: string := "Transcript cannot be empty"

  /**
   * The handler, given the body's `transcript` field and the summarization
   * service (`summarizeText`), which either resolves with a summary or rejects.
   */
  function Summarize(transcript: JsValue, summarizeText: string -> Result<JsValue>): (r: Run)
    ensures !IsNonEmptyString(transcript) ==> r == Run(Respond(BadRequest(TranscriptRequired)), [])
    ensures IsNonEmptyString(transcript) && Blank(transcript.s) ==> r == Run(Respond(BadRequest(TranscriptEmpty)), [])
    ensures IsText(transcript) ==> r.calls == [SummarizeCall(transcript.s)]
    ensures IsText(transcript) ==>
      match summarizeText(transcript.s)
      case Success(summary) => r.outcome == Respond(Ok(SummaryBody(summary)))
      case Failure(e) => r.outcome == Forward(e)
    ensures r.calls == [] <==> r.outcome.Respond? && r.outcome.response.status == Num(400)
  {
    match RequireText(transcript, TranscriptRequired, TranscriptEmpty)
    case Invalid(message) => Run(Respond(BadRequest(message)), [])
    case Valid(text) =>
      var calls := [SummarizeCall(text)];
      match summarizeText(text)
      case Success(summary) => Run(Respond(Ok(SummaryBody(summary))), calls)
      case Failure(e) => Run(Forward(e), calls)
  }
}
