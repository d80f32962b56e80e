/**
 * The file utilities of the backend: the extension-to-MIME table and the two
 * file-system steps around an uploaded file (reading it, removing it).
 */
module FileHandler {
  import opened JsValues
  import opened JsStrings
  import opened NodePath

  /** The MIME type used when the extension is not in the table. */
  const DefaultMime: string := "audio/mpeg"

  /** Lower-cased extension (with its dot) to MIME type. */
  const MimeTypes: map<string, string> := map[
    ".mp3" := "audio/mpeg",
    ".wav" := "audio/wav",
    ".m4a" := "audio/mp4",
    ".ogg" := "audio/ogg",
    ".webm" := "audio/webm"
  ]

  /** `getMimeType(filename)`: the table entry for the lower-cased extension, or the default. */
  function GetMimeType(filename: string): (r: string)
    ensures r in {"audio/mpeg", "audio/wav", "audio/mp4", "audio/ogg", "audio/webm"}
    ensures r != ""
  {
    var ext := LowerStr(ExtName(filename));
    if ext in MimeTypes then MimeTypes[ext] else DefaultMime
  }

  /** Every key of the table is a dot followed by dot-free, slash-free text. */
  lemma MimeKeyShape(key: string)
    requires key in MimeTypes
    ensures |key| >= 2 && IsExtension(key) && NoSlash(key)
  {
  }

  /** A text that lower-cases to a key of the table has the key's shape. */
  lemma ExtensionShapeOfKey(ext: string)
    requires LowerStr(ext) in MimeTypes
    ensures |ext| >= 2 && IsExtension(ext) && NoSlash(ext)
  {
    var key := LowerStr(ext);
    MimeKeyShape(key);
    forall i | 0 <= i < |ext| ensures (ext[i] == '.' <==> key[i] == '.') && (ext[i] == '/' <==> key[i] == '/') {
      LowerCharKeepsSeparators(ext[i]);
    }
  }

  /**
   * A name ending in a known extension, in any case, maps to that extension's
   * entry, whatever precedes it in the same component: `a.wav`, `A.WAV` and
   * `x.ogg.wav` all give `audio/wav`.
   */
  lemma KnownExtensionMapsExactly(stem: string, ext: string)
    requires stem != [] && stem[|stem| - 1] != '/'
    requires LowerStr(ext) in MimeTypes
    ensures GetMimeType(stem + ext) == MimeTypes[LowerStr(ext)]
  {
    ExtensionShapeOfKey(ext);
    ExtNameOfSuffix(stem, ext);
  }

  /** Lookup ignores case: names equal up to case get the same MIME type. */
  lemma MimeIgnoresCase(f: string, g: string)
    requires LowerStr(f) == LowerStr(g)
    ensures GetMimeType(f) == GetMimeType(g)
  {
    ExtNameLower(f);
    ExtNameLower(g);
    LowerStrIdempotent(ExtName(f));
    LowerStrIdempotent(ExtName(g));
  }

  /** A dot-file (`.ogg`, `uploads/.webm`) has no extension, so it gets the default. */
  lemma DotFileGetsDefault(dir: string, name: string)
    requires dir == [] || dir[|dir| - 1] == '/'
    requires IsExtension(name) && NoSlash(name)
    ensures GetMimeType(dir + name) == DefaultMime
  {
    DotFileHasNoExtension(dir, name);
    assert LowerStr("") == "";
    assert "" !in MimeTypes;
  }

  /** A name without any dot has no extension, so it gets the default. */
  lemma DotlessNameGetsDefault(name: string)
    requires NoDotFrom(name, 0)
    ensures GetMimeType(name) == DefaultMime
  {
    DotlessHasNoExtension(name);
    assert LowerStr("") == "";
    assert "" !in MimeTypes;
  }

  /** A text without upper-case letters is its own lower-case form. */
  lemma LowerOfLower(s: string)
    requires forall i :: 0 <= i < |s| ==> !('A' <= s[i] <= 'Z')
    ensures LowerStr(s) == s
  {
  }

  /** What the cleanup step writes to the console. */
  datatype LogEntry = Cleaned(path: string) | CleanupFailed(path: string, message: string)

  /** The error Node reports for a missing file (`syscall` is `open` or `unlink`). */
  function NoSuchFile(syscall: string, path: string): (e: Err)
    ensures !Truthy(e.status) && !Truthy(e.statusCode) && Truthy(e.message)
  {
    PlainError("ENOENT: no such file or directory, " + syscall + " '" + path + "'")
  }

  /** The files left after removing `path`, which fails when the file is missing or its removal is refused. */
  function AfterCleanup(files: map<string, Bytes>, path: string, unlinkFailures: map<string, string>): (r: map<string, Bytes>)
    ensures path !in unlinkFailures ==> path !in r
    ensures path in unlinkFailures ==> r == files
    ensures forall p :: p != path ==> (p in r <==> p in files) && (p in r ==> r[p] == files[p])
  {
    if path in files && path !in unlinkFailures then files - {path} else files
  }

  /** The console line `cleanupFile(path)` writes, given the files present before it. */
  function CleanupEntry(files: map<string, Bytes>, path: string, unlinkFailures: map<string, string>): (r: LogEntry)
    ensures r.path == path
    ensures r.Cleaned? <==> path in files && path !in unlinkFailures
    ensures path in unlinkFailures ==> r == CleanupFailed(path, unlinkFailures[path])
  {
    if path in files && path !in unlinkFailures then Cleaned(path)
    else if path in unlinkFailures then CleanupFailed(path, unlinkFailures[path])
    else CleanupFailed(path, NoSuchFile("unlink", path).message.s)
  }

  /**
   * The upload directory on the local disk. Which reads and removals fail
   * besides those of a missing file (permissions, I/O errors) is given up
   * front, with the message of the error each raises.
   */
  class UploadDir {
    var files: map<string, Bytes>
    const readFailures: map<string, string>
    const unlinkFailures: map<string, string>
    /** The console lines written by cleanup. */
    var log: seq<LogEntry>
    /** Every path cleanup was asked to remove, in order. */
    ghost var cleanups: seq<string>

    constructor (files: map<string, Bytes>, readFailures: map<string, string>, unlinkFailures: map<string, string>)
      ensures this.files == files && this.readFailures == readFailures && this.unlinkFailures == unlinkFailures
      ensures log == [] && cleanups == []
    {
      this.files := files;
      this.readFailures := readFailures;
      this.unlinkFailures := unlinkFailures;
      log := [];
      cleanups := [];
    }

    /** `fs.promises.readFile(path)`: the stored bytes, or the error that makes it reject. */
    method ReadFile(path: string) returns (r: Result<Bytes>)
      ensures r.Success? <==> path in files && path !in readFailures
      ensures r.Success? ==> r.value == files[path]
      ensures r.Failure? ==> !Truthy(r.error.status) && !Truthy(r.error.statusCode)
      ensures path in readFailures ==> r == Failure(PlainError(readFailures[path]))
      ensures path !in readFailures && path !in files ==> r == Failure(NoSuchFile("open", path))
    {
      if path in readFailures {
        r := Failure(PlainError(readFailures[path]));
      } else if path in files {
        r := Success(files[path]);
      } else {
        r := Failure(NoSuchFile("open", path));
      }
    }

    /**
     * `readAudioFile(path)`: the same read, with a failure rethrown as a new
     * error whose message is prefixed by `Failed to read audio file: `.
     */
    method ReadAudioFile(path: string) returns (r: Result<Bytes>)
      ensures r.Success? <==> path in files && path !in readFailures
      ensures r.Success? ==> r.value == files[path]
      ensures path in readFailures ==> r == Failure(PlainError("Failed to read audio file: " + readFailures[path]))
      ensures path !in readFailures && path !in files ==>
        r == Failure(PlainError("Failed to read audio file: " + NoSuchFile("open", path).message.s))
    {
      var read := ReadFile(path);
      match read
      case Success(buffer) =>
        r := Success(buffer);
      case Failure(e) =>
        var m := if e.message.Str? then e.message.s else "";
        r := Failure(PlainError("Failed to read audio file: " + m));
    }

    /**
     * `cleanupFile(path)`: removes the file, and never fails. A failing
     * removal is only logged; the call itself always completes normally.
     */
    method CleanupFile(path: string)
      modifies this`files, this`log, this`cleanups
      ensures cleanups == old(cleanups) + [path]
      ensures files == AfterCleanup(old(files), path, unlinkFailures)
      ensures log == old(log) + [CleanupEntry(old(files), path, unlinkFailures)]
    {
      cleanups := cleanups + [path];
      if path in files && path !in unlinkFailures {
        files := files - {path};
        log := log + [Cleaned(path)];
      } else {
        var message := if path in unlinkFailures then unlinkFailures[path] else NoSuchFile("unlink", path).message.s;
        log := log + [CleanupFailed(path, message)];
      }
    }

    /** Multer's disk storage writing an accepted upload. */
    method Store(path: string, data: Bytes)
      modifies this`files
      ensures files == old(files)[path := data]
    {
      files := files[path := data];
    }
  }
}
