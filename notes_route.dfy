/**
 * `POST /api/saveNote` and `GET /api/notes`: presence checks on the user and
 * the summary (no whitespace check), then one call to the note store.
 */
module NotesRoute {
  import opened JsValues
  import opened JsStrings
  import opened Http
  import opened Guards
  import SummarizeRoute

  const UserIdRequired: string := "userId is required"
  const SummaryRequired: string := "summary is required"
  const UserIdQueryRequired: string := "userId query parameter is required"

  /** `transcript || ''`: a falsy transcript becomes the empty string, a truthy one is kept as sent. */
  function TranscriptOrEmpty(transcript: JsValue): (r: JsValue)
    ensures Truthy(transcript) ==> r == transcript
    ensures !Truthy(transcript) ==> r == Str("")
    ensures r.Str? || Truthy(r)
  {
    Or(transcript, Str(""))
  }

  /**
   * The save handler, given the body's three fields and the store's `saveNote`,
   * which resolves with the stored note or rejects.
   */
  function SaveNote(userId: JsValue, summary: JsValue, transcript: JsValue,
                    saveNote: (string, string, JsValue) -> Result<JsValue>): (r: Run)
    ensures !IsNonEmptyString(userId) ==> r == Run(Respond(BadRequest(UserIdRequired)), [])
    ensures IsNonEmptyString(userId) && !IsNonEmptyString(summary) ==>
      r == Run(Respond(BadRequest(SummaryRequired)), [])
    ensures r.calls != [] <==> IsNonEmptyString(userId) && IsNonEmptyString(summary)
    ensures r.calls == [] <==> r.outcome.Respond? && r.outcome.response.status == Num(400)
    ensures r.calls != [] ==>
      var call := SaveNoteCall(userId.s, summary.s, TranscriptOrEmpty(transcript));
      r.calls == [call] &&
      match saveNote(call.userId, call.summary, call.transcript)
      case Success(note) => r.outcome == Respond(Ok(SavedBody(note)))
      case Failure(e) => r.outcome == Forward(e)
  {
    match RequireString(userId, UserIdRequired)
    case Invalid(message) => Run(Respond(BadRequest(message)), [])
    case Valid(u) =>
      match RequireString(summary, SummaryRequired)
      case Invalid(message) => Run(Respond(BadRequest(message)), [])
      case Valid(s) =>
        var t := TranscriptOrEmpty(transcript);
        var calls := [SaveNoteCall(u, s, t)];
        match saveNote(u, s, t)
        case Success(note) => Run(Respond(Ok(SavedBody(note))), calls)
        case Failure(e) => Run(Forward(e), calls)
  }

  /**
   * The list handler, given the `userId` query value (an array when the
   * parameter is repeated) and the store's `getNotes`.
   */
  function ListNotes(userId: JsValue, getNotes: string -> Result<seq<JsValue>>): (r: Run)
    ensures !IsNonEmptyString(userId) ==> r == Run(Respond(BadRequest(UserIdQueryRequired)), [])
    ensures IsNonEmptyString(userId) ==> r.calls == [GetNotesCall(userId.s)]
    ensures IsNonEmptyString(userId) && getNotes(userId.s).Failure? ==> r.outcome == Forward(getNotes(userId.s).error)
    ensures IsNonEmptyString(userId) && getNotes(userId.s).Success? ==>
      r.outcome.Respond? && r.outcome.response.status == Num(200) &&
      r.outcome.response.body == NotesBody(getNotes(userId.s).value, |getNotes(userId.s).value|)
    // the count always matches the list it comes with
    ensures r.outcome.Respond? && r.outcome.response.body.NotesBody? ==>
      r.outcome.response.body.count == |r.outcome.response.body.notes|
  {
    match RequireString(userId, UserIdQueryRequired)
    case Invalid(message) => Run(Respond(BadRequest(message)), [])
    case Valid(u) =>
      var calls := [GetNotesCall(u)];
      match getNotes(u)
      case Success(notes) => Run(Respond(Ok(NotesBody(notes, |notes|))), calls)
      case Failure(e) => Run(Forward(e), calls)
  }

  /**
   * Unlike `/api/summarize`, the note routes do not trim: a whitespace-only
   * summary is stored, where the same text sent for summarizing is refused.
   */
  lemma WhitespaceSummaryAccepted(userId: string, blank: string, transcript: JsValue,
                                  saveNote: (string, string, JsValue) -> Result<JsValue>,
                                  summarizeText: string -> Result<JsValue>)
    requires userId != "" && blank != "" && Blank(blank)
    ensures SaveNote(Str(userId), Str(blank), transcript, saveNote).calls ==
      [SaveNoteCall(userId, blank, TranscriptOrEmpty(transcript))]
    ensures SummarizeRoute.Summarize(Str(blank), summarizeText).outcome ==
      Respond(BadRequest(SummarizeRoute.TranscriptEmpty))
  {
  }
}
