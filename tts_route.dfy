/**
 * `POST /api/tts`: validate `text`, synthesize speech, upload the audio under
 * a fresh `tts_<uuid>.mp3` name, answer `{success:true, audioUrl}`.
 */
module TtsRoute {
  import opened JsValues
  import opened JsStrings
  import opened NodePath
  import opened Http
  import opened Guards

  const TextRequired: string := "Text is required"
  const TextEmpty: string := "Text cannot be empty"

  /** The object name the synthesized audio is uploaded under. */
  function TtsFileName(uuid: string): (name: string)
    ensures |name| == |uuid| + 8
    ensures name[..4] == "tts_" && name[4..|name| - 4] == uuid && name[|name| - 4..] == ".mp3"
  {
    "tts_" + uuid + ".mp3"
  }

  /** Distinct identifiers give distinct object names, so uploads never overwrite each other. */
  lemma TtsFileNameInjective(a: string, b: string)
    requires TtsFileName(a) == TtsFileName(b)
    ensures a == b
  {
    var n := TtsFileName(a);
    assert a == n[4..|n| - 4] == b;
  }

  /** The object name has the extension `.mp3` when the identifier holds no `/` (a UUID never does). */
  lemma TtsFileNameIsMp3(uuid: string)
    requires NoSlash(uuid)
    ensures ExtName(TtsFileName(uuid)) == ".mp3"
  {
    assert TtsFileName(uuid) == ("tts_" + uuid) + ".mp3";
    assert IsExtension(".mp3");
    ExtNameOfSuffix("tts_" + uuid, ".mp3");
  }

  /**
   * The handler, given the body's `text` field, the identifier `randomUUID()`
   * returns, and the two services: synthesis (`textToSpeech`) and object upload
   * (`uploadAudioToStorage`), each of which resolves or rejects.
   */
  function Tts(text: JsValue, uuid: string, textToSpeech: string -> Result<Bytes>,
               uploadAudio: (Bytes, string) -> Result<JsValue>): (r: Run)
    ensures !IsNonEmptyString(text) ==> r == Run(Respond(BadRequest(TextRequired)), [])
    ensures IsNonEmptyString(text) && Blank(text.s) ==> r == Run(Respond(BadRequest(TextEmpty)), [])
    ensures r.calls == [] <==> r.outcome.Respond? && r.outcome.response.status == Num(400)
    // synthesis first, on the text as sent
    ensures IsText(text) ==> r.calls != [] && r.calls[0] == SynthesizeCall(text.s)
    ensures IsText(text) && textToSpeech(text.s).Failure? ==>
      r == Run(Forward(textToSpeech(text.s).error), [SynthesizeCall(text.s)])
    // then the upload, of exactly the synthesized audio
    ensures IsText(text) && textToSpeech(text.s).Success? ==>
      var audio := textToSpeech(text.s).value;
      r.calls == [SynthesizeCall(text.s), UploadCall(audio, TtsFileName(uuid))] &&
      match uploadAudio(audio, TtsFileName(uuid))
      case Success(audioUrl) => r.outcome == Respond(Ok(AudioUrlBody(audioUrl)))
      case Failure(e) => r.outcome == Forward(e)
  {
    match RequireText(text, TextRequired, TextEmpty)
    case Invalid(message) => Run(Respond(BadRequest(message)), [])
    case Valid(t) =>
      match textToSpeech(t)
      case Failure(e) => Run(Forward(e), [SynthesizeCall(t)])
      case Success(audioBuffer) =>
        var fileName := TtsFileName(uuid);
        var calls := [SynthesizeCall(t), UploadCall(audioBuffer, fileName)];
        match uploadAudio(audioBuffer, fileName)
        case Success(audioUrl) => Run(Respond(Ok(AudioUrlBody(audioUrl))), calls)
        case Failure(e) => Run(Forward(e), calls)
  }

  /** Every upload comes right after a successful synthesis and carries its audio. */
  lemma UploadFollowsSynthesis(text: JsValue, uuid: string, textToSpeech: string -> Result<Bytes>,
                               uploadAudio: (Bytes, string) -> Result<JsValue>, i: nat)
    requires i < |Tts(text, uuid, textToSpeech, uploadAudio).calls|
    requires Tts(text, uuid, textToSpeech, uploadAudio).calls[i].UploadCall?
    ensures i == 1
    ensures Tts(text, uuid, textToSpeech, uploadAudio).calls[0] == SynthesizeCall(text.s)
    ensures textToSpeech(text.s) == Success(Tts(text, uuid, textToSpeech, uploadAudio).calls[1].audio)
  {
  }
}
