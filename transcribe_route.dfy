/**
 * `POST /api/transcribe`: multer accepts or refuses the `audio` part and writes
 * an accepted one to a temporary file; the handler reads that file, sends it
 * to the transcription service with the MIME type its name implies, and
 * removes the temporary file on every path.
 */
module TranscribeRoute {
  import opened JsValues
  import opened JsStrings
  import opened NodePath
  import opened Http
  import opened FileHandler

  /** The upload size limit: 10 MiB. */
  const MaxFileSize: nat := 10 * 1024 * 1024

  /** The `mimetype`s the filter accepts whatever the file is called. */
  const AllowedMimes: seq<string> := ["audio/mpeg", "audio/wav", "audio/mp3", "audio/m4a", "audio/ogg", "audio/webm"]

  const InvalidFileType: string := "Invalid file type. Only audio files (mp3, wav, m4a, ogg, webm) are allowed."
  const NoAudioFile: string := "No audio file provided"
  /** The message multer gives a part over the size limit. */
  const FileTooLarge: string := "File too large"

  /** `/\.(mp3|wav|m4a|ogg|webm)$/i` matches the name. */
  predicate HasAudioExtension(name: string) {
    EndsWithIgnoringCase(name, ".mp3") || EndsWithIgnoringCase(name, ".wav") || EndsWithIgnoringCase(name, ".m4a")
    || EndsWithIgnoringCase(name, ".ogg") || EndsWithIgnoringCase(name, ".webm")
  }

  /** The multer `fileFilter`: an allowed `mimetype`, or a name with an audio extension. */
  predicate AcceptsFile(mimetype: string, originalname: string): (r: bool)
    ensures r <==> mimetype in AllowedMimes || exists key :: key in MimeTypes && EndsWithIgnoringCase(originalname, key)
  {
    HasAudioExtensionIffTableKey(originalname);
    mimetype in AllowedMimes || HasAudioExtension(originalname)
  }

  /** A name ends, up to case, in the key `key` of the MIME table exactly when the filter's pattern says so. */
  lemma HasAudioExtensionIffTableKey(name: string)
    ensures HasAudioExtension(name) <==> exists key :: key in MimeTypes && EndsWithIgnoringCase(name, key)
  {
    if HasAudioExtension(name) {
      var key :| key in [".mp3", ".wav", ".m4a", ".ogg", ".webm"] && EndsWithIgnoringCase(name, key);
      assert key in MimeTypes;
    }
  }

  /** When `name` ends with `ext`, it ends with `ext` up to case. */
  lemma EndsWithItsSuffix(stem: string, ext: string, key: string)
    requires LowerStr(ext) == key && LowerStr(key) == key
    ensures EndsWithIgnoringCase(stem + ext, key)
  {
    var n := stem + ext;
    assert n[|n| - |key|..] == ext;
  }

  lemma TableKeysAreLowerCase(key: string)
    requires key in MimeTypes
    ensures LowerStr(key) == key
  {
    LowerOfLower(key);
  }

  /**
   * The filter and the MIME table agree on a name that ends, in any case, in a
   * table extension after a non-empty stem: the file is accepted and sent with
   * that extension's MIME type, whatever `mimetype` the client declared.
   */
  lemma AcceptedNameGetsItsMime(mimetype: string, stem: string, ext: string)
    requires stem != [] && stem[|stem| - 1] != '/'
    requires LowerStr(ext) in MimeTypes
    ensures AcceptsFile(mimetype, stem + ext)
    ensures GetMimeType(stem + ext) == MimeTypes[LowerStr(ext)]
  {
    var key := LowerStr(ext);
    TableKeysAreLowerCase(key);
    EndsWithItsSuffix(stem, ext, key);
    HasAudioExtensionIffTableKey(stem + ext);
    KnownExtensionMapsExactly(stem, ext);
  }

  /**
   * Where they disagree: a dot-file such as `.webm` passes the filter (its name
   * ends in `.webm`) but has no extension, so it is sent as `audio/mpeg`.
   */
  lemma DotFileAcceptedAsDefault(mimetype: string, dir: string, ext: string)
    requires dir == [] || dir[|dir| - 1] == '/'
    requires LowerStr(ext) in MimeTypes
    ensures AcceptsFile(mimetype, dir + ext)
    ensures GetMimeType(dir + ext) == DefaultMime
  {
    var key := LowerStr(ext);
    TableKeysAreLowerCase(key);
    EndsWithItsSuffix(dir, ext, key);
    HasAudioExtensionIffTableKey(dir + ext);
    ExtensionShapeOfKey(ext);
    DotFileGetsDefault(dir, ext);
  }

  /** A name that does not end in `/` ends, up to case, in its own extension. */
  lemma NameEndsWithItsExtension(name: string)
    requires name == [] || name[|name| - 1] != '/'
    ensures EndsWithIgnoringCase(name, LowerStr(ExtName(name)))
  {
    var ext := ExtName(name);
    ExtNameIsSuffix(name);
    LowerStrIdempotent(ext);
  }

  /**
   * Conversely, a name (not ending in `/`) whose ending the filter's pattern
   * does not recognise gets the default MIME type.
   */
  lemma UnrecognisedNameGetsDefault(name: string)
    requires name == [] || name[|name| - 1] != '/'
    requires !HasAudioExtension(name)
    ensures GetMimeType(name) == DefaultMime
  {
    var key := LowerStr(ExtName(name));
    if key in MimeTypes {
      NameEndsWithItsExtension(name);
      HasAudioExtensionIffTableKey(name);
      assert false;
    }
  }

  /** `req.file` as multer fills it in for an accepted upload. */
  datatype UploadedFile = UploadedFile(path: string, originalname: string, mimetype: string, size: nat)

  /** The multipart `audio` part as the client sent it. */
  datatype FilePart = FilePart(originalname: string, mimetype: string, data: Bytes)

  /** Whether `fs.promises.readFile(path)` resolves in directory state `files`. */
  predicate Readable(files: map<string, Bytes>, readFailures: map<string, string>, path: string) {
    path in files && path !in readFailures
  }

  /**
   * The route handler. `tempFilePath` goes from null to the file's path and
   * back to null once the file is cleaned up; the `catch` block cleans up only
   * while it is still set. The `cleanups` log of `dir` shows that cleanup runs
   * exactly once on every path where a file was received (the path multer
   * chose is never empty).
   */
  method TranscribeHandler(file: Option<UploadedFile>, dir: UploadDir,
                           transcribeAudio: (Bytes, string) -> Result<JsValue>)
    returns (outcome: Outcome, ghost calls: seq<Call>)
    modifies dir`files, dir`log, dir`cleanups
    // no file: 400, nothing read, transcribed or cleaned
    ensures file.None? ==>
      outcome == Respond(BadRequest(NoAudioFile)) && calls == [] &&
      dir.cleanups == old(dir.cleanups) && dir.files == old(dir.files) && dir.log == old(dir.log)
    // a file: cleaned up exactly once, success or failure
    ensures file.Some? && file.value.path != "" ==>
      dir.cleanups == old(dir.cleanups) + [file.value.path] &&
      dir.files == AfterCleanup(old(dir.files), file.value.path, dir.unlinkFailures) &&
      dir.log == old(dir.log) + [CleanupEntry(old(dir.files), file.value.path, dir.unlinkFailures)]
    // an unreadable file: the read error goes to `next`, no transcription
    ensures file.Some? && !Readable(old(dir.files), dir.readFailures, file.value.path) ==>
      calls == [] &&
      outcome == Forward(if file.value.path in dir.readFailures then PlainError(dir.readFailures[file.value.path])
                         else NoSuchFile("open", file.value.path))
    // an empty path is falsy: the `catch` block then skips the cleanup
    ensures file.Some? && file.value.path == "" && outcome.Forward? ==> dir.cleanups == old(dir.cleanups)
    // a readable file: transcribed once, with the MIME type of its original name
    ensures file.Some? && Readable(old(dir.files), dir.readFailures, file.value.path) ==>
      var audio := old(dir.files)[file.value.path];
      var mimeType := GetMimeType(file.value.originalname);
      calls == [TranscribeCall(audio, mimeType)] &&
      match transcribeAudio(audio, mimeType)
      case Success(transcript) =>
        outcome == Respond(Ok(TranscriptBody(transcript))) &&
        dir.cleanups == old(dir.cleanups) + [file.value.path]
      case Failure(e) => outcome == Forward(e)
  {
    var tempFilePath: JsValue := Null;
    calls := [];
    var caught: Option<Err> := None;

    // try
    if file.None? {
      return Respond(BadRequest(NoAudioFile)), [];
    }
    var f := file.value;
    tempFilePath := Str(f.path);
    var read := dir.ReadFile(f.path);
    if read.Failure? {
      caught := Some(read.error);
    } else {
      var mimeType := GetMimeType(f.originalname);
      calls := calls + [TranscribeCall(read.value, mimeType)];
      var transcript := transcribeAudio(read.value, mimeType);
      if transcript.Failure? {
        caught := Some(transcript.error);
      } else {
        dir.CleanupFile(f.path);
        tempFilePath := Null;
        outcome := Respond(Ok(TranscriptBody(transcript.value)));
      }
    }

    // catch
    if caught.Some? {
      if Truthy(tempFilePath) {
        dir.CleanupFile(tempFilePath.s);
      }
      outcome := Forward(caught.value);
    }
  }

  /**
   * The whole route: multer's filter and size limit, its write of the part to
   * `storagePath` (the random name it picks, never empty), then the handler.
   * A refused part never reaches the handler, is never written and is never
   * sent for transcription; an accepted one is removed again on every path.
   */
  method PostTranscribe(part: Option<FilePart>, storagePath: string, dir: UploadDir,
                        transcribeAudio: (Bytes, string) -> Result<JsValue>)
    returns (outcome: Outcome, ghost calls: seq<Call>)
    requires storagePath != ""
    modifies dir`files, dir`log, dir`cleanups
    ensures part.None? ==>
      outcome == Respond(BadRequest(NoAudioFile)) && calls == [] && dir.files == old(dir.files) && dir.log == old(dir.log)
    ensures part.Some? && !AcceptsFile(part.value.mimetype, part.value.originalname) ==>
      outcome == Forward(PlainError(InvalidFileType)) && calls == [] && dir.files == old(dir.files) && dir.log == old(dir.log)
    ensures part.Some? && AcceptsFile(part.value.mimetype, part.value.originalname) && |part.value.data| > MaxFileSize ==>
      outcome == Forward(PlainError(FileTooLarge)) && calls == [] && dir.files == old(dir.files) && dir.log == old(dir.log)
    ensures part.None? || !AcceptsFile(part.value.mimetype, part.value.originalname) || |part.value.data| > MaxFileSize ==>
      dir.cleanups == old(dir.cleanups)
    ensures part.Some? && AcceptsFile(part.value.mimetype, part.value.originalname) && |part.value.data| <= MaxFileSize ==>
      var written := old(dir.files)[storagePath := part.value.data];
      var mimeType := GetMimeType(part.value.originalname);
      dir.cleanups == old(dir.cleanups) + [storagePath] &&
      dir.files == AfterCleanup(written, storagePath, dir.unlinkFailures) &&
      dir.log == old(dir.log) + [CleanupEntry(written, storagePath, dir.unlinkFailures)] &&
      (storagePath in dir.readFailures ==>
         calls == [] && outcome == Forward(PlainError(dir.readFailures[storagePath]))) &&
      (storagePath !in dir.readFailures ==>
         calls == [TranscribeCall(part.value.data, mimeType)] &&
         match transcribeAudio(part.value.data, mimeType)
         case Success(transcript) => outcome == Respond(Ok(TranscriptBody(transcript)))
         case Failure(e) => outcome == Forward(e))
  {
    var file: Option<UploadedFile> := None;
    if part.Some? {
      var p := part.value;
      if !AcceptsFile(p.mimetype, p.originalname) {
        return Forward(PlainError(InvalidFileType)), [];
      }
      if |p.data| > MaxFileSize {
        return Forward(PlainError(FileTooLarge)), [];
      }
      dir.Store(storagePath, p.data);
      file := Some(UploadedFile(storagePath, p.originalname, p.mimetype, |p.data|));
    }
    outcome, calls := TranscribeHandler(file, dir, transcribeAudio);
  }
}
