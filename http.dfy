/**
 * What a route handler can do with a request: answer it itself (`res.json`,
 * `res.status(...).json`) or pass an error to `next`, together with the
 * external calls it made on the way, in order.
 */
module Http {
  import opened JsValues

  /** The JSON bodies the core sends. */
  datatype Body =
    /** `{success:false, error:{message, stack?}}`; `stack` is absent when `None`. */
    | ErrorBody(message: JsValue, stack: Option<JsValue>)
    /** `{success:true, transcript}` */
    | TranscriptBody(transcript: JsValue)
    /** `{success:true, summary}` */
    | SummaryBody(summary: JsValue)
    /** `{success:true, audioUrl}` */
    | AudioUrlBody(audioUrl: JsValue)
    /** `{success:true, status:'saved', note}` */
    | SavedBody(note: JsValue)
    /** `{success:true, notes, count}` */
    | NotesBody(notes: seq<JsValue>, count: int)
  {
    /** The `success` field of the envelope. */
    predicate Success() {
      !ErrorBody?
    }
  }

  /** A status (whatever value was passed to `res.status`) and a body. */
  datatype Response = Response(status: JsValue, body: Body)

  /** `res.json(body)` without `res.status`: status 200. */
  function Ok(body: Body): (r: Response)
    requires body.Success()
    ensures r.status == Num(200) && r.body == body && r.body.Success()
  {
    Response(Num(200), body)
  }

  /** A handler's own `res.status(400).json({success:false, error:{message}})`. */
  function BadRequest(message: string): (r: Response)
    ensures r.status == Num(400) && !r.body.Success()
    ensures r.body.message == Str(message) && r.body.stack.None?
  {
    Response(Num(400), ErrorBody(Str(message), None))
  }

  /** A handler either responds or forwards an error to `next`. */
  datatype Outcome = Respond(response: Response) | Forward(error: Err)

  /** A call into code outside the core: the AI services and the document and object stores. */
  datatype Call =
    | TranscribeCall(audio: Bytes, mimeType: string)
    | SummarizeCall(text: string)
    | SynthesizeCall(text: string)
    | UploadCall(audio: Bytes, fileName: string)
    | SaveNoteCall(userId: string, summary: string, transcript: JsValue)
    | GetNotesCall(userId: string)

  /** One run of a handler: how it ended and what it called, in order. */
  datatype Run = Run(outcome: Outcome, calls: seq<Call>)
}
