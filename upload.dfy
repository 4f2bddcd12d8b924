/** `POST /api/transcribe/file`: check the language, sanitise the file name,
    check its extension, stream the body to a temporary file under a size
    limit, create a "file" session and register it for the transcription
    socket. The body arrives as the sequence of reads the server makes; the
    database and the clocks are parameters. */
module Upload {
  import opened Wrappers
  import opened TextUtil
  import AppConfig
  import PendingRegistry
  import opened ApiHelpers

  /** `ACCEPTED_AUDIO_EXTENSIONS`. */
  const AcceptedExtensions: set<string> := {".wav", ".mp3", ".flac", ".ogg", ".m4a", ".webm", ".wma", ".aac", ".opus"}

  /** `sorted(ACCEPTED_AUDIO_EXTENSIONS)`, as listed in the error message. */
  const SortedExtensions: seq<string> := [".aac", ".flac", ".m4a", ".mp3", ".ogg", ".opus", ".wav", ".webm", ".wma"]

  /** When no configuration is loaded the limit is 500 MB. */
  const DefaultMaxUploadMb: nat := 500

  /** `_CHUNK_SIZE`: the most one read returns. */
  const ChunkSize: nat := 64 * 1024

  // ---------------------------------------------------------------------
  // The file name

  /** A path separator of Windows paths, where uploads are sanitised. */
  predicate IsSeparator(c: char) {
    c == '/' || c == '\\'
  }

  /** The text after the last separator (all of `s` if it has none). */
  function LastSegment(s: string): (r: string)
    ensures |r| <= |s|
  {
    if s == [] || IsSeparator(s[|s| - 1]) then [] else LastSegment(s[..|s| - 1]) + [s[|s| - 1]]
  }

  lemma {:induction false} LastSegmentIsSuffix(s: string)
    ensures LastSegment(s) == s[|s| - |LastSegment(s)|..]
    ensures forall c :: c in LastSegment(s) ==> !IsSeparator(c)
    ensures |LastSegment(s)| < |s| ==> IsSeparator(s[|s| - |LastSegment(s)| - 1])
    decreases |s|
  {
    if s != [] && !IsSeparator(s[|s| - 1]) {
      var init := s[..|s| - 1];
      LastSegmentIsSuffix(init);
      assert init[|init| - |LastSegment(init)|..] + [s[|s| - 1]] == s[|s| - |LastSegment(s)|..];
    }
  }

  /** `Path(s).name`: the last component, skipping empty components (repeated
      or trailing separators) and `.` components; empty when there is none. */
  function PathName(s: string): string
    decreases |s|
  {
    var seg := LastSegment(s);
    if seg != "" && seg != "." then seg
    else if |seg| == |s| then ""
    else PathName(s[..|s| - |seg| - 1])
  }

  /** `n` occurs in `s` at `k` as a whole component: it starts the path or
      follows a separator, and it ends the path or a separator follows it. */
  predicate ComponentAt(s: string, n: string, k: int) {
    0 <= k && k + |n| <= |s| && s[k..k + |n|] == n
    && (k == 0 || IsSeparator(s[k - 1]))
    && (k + |n| == |s| || IsSeparator(s[k + |n|]))
  }

  /** The name has no separator and is never `.`. */
  lemma {:induction false} PathNameHasNoSeparator(s: string)
    ensures forall c :: c in PathName(s) ==> !IsSeparator(c)
    ensures PathName(s) != "."
    decreases |s|
  {
    var seg := LastSegment(s);
    LastSegmentIsSuffix(s);
    if !(seg != "" && seg != ".") && |seg| < |s| {
      PathNameHasNoSeparator(s[..|s| - |seg| - 1]);
    }
  }

  /** A non-empty name is a whole component of the path. */
  lemma {:induction false} PathNameIsComponent(s: string)
    ensures PathName(s) != "" ==> exists k :: ComponentAt(s, PathName(s), k)
    decreases |s|
  {
    var seg := LastSegment(s);
    LastSegmentIsSuffix(s);
    if seg != "" && seg != "." {
      assert ComponentAt(s, seg, |s| - |seg|);
    } else if |seg| < |s| {
      var init := s[..|s| - |seg| - 1];
      assert PathName(s) == PathName(init);
      PathNameIsComponent(init);
      var n := PathName(init);
      if n != "" {
        var k :| ComponentAt(init, n, k);
        ComponentInPrefix(s, init, n, k);
      }
    }
  }

  lemma ComponentInPrefix(s: string, init: string, n: string, k: int)
    requires |init| < |s| && init == s[..|init|] && IsSeparator(s[|init|])
    requires ComponentAt(init, n, k)
    ensures ComponentAt(s, n, k)
  {
    assert s[k..k + |n|] == init[k..k + |n|];
    if k > 0 {
      assert s[k - 1] == init[k - 1];
    }
    if k + |n| < |init| {
      assert s[k + |n|] == init[k + |n|];
    }
  }

  /** A name without separators other than `.` is its own last component. */
  lemma PathNameOfPlainName(s: string)
    requires forall c :: c in s ==> !IsSeparator(c)
    requires s != "" && s != "."
    ensures PathName(s) == s
  {
    LastSegmentIsSuffix(s);
  }

  /** The text after the last separator. */
  lemma {:induction false} LastSegmentAfter(p: string, c: char, n: string)
    requires IsSeparator(c)
    requires forall x :: x in n ==> !IsSeparator(x)
    ensures LastSegment(p + [c] + n) == n
    decreases |n|
  {
    if n == [] {
      assert p + [c] + n == p + [c];
    } else {
      var init := n[..|n| - 1];
      assert (p + [c] + n)[..|p + [c] + n| - 1] == p + [c] + init;
      LastSegmentAfter(p, c, init);
    }
  }

  /** A plain name after a separator is the path's name, whatever precedes
      it. */
  lemma PathNameAfterSeparator(p: string, c: char, n: string)
    requires IsSeparator(c)
    requires forall x :: x in n ==> !IsSeparator(x)
    requires n != "" && n != "."
    ensures PathName(p + [c] + n) == n
  {
    LastSegmentAfter(p, c, n);
  }

  /** The route's sanitising: `file.filename or "unknown"`, its last
      component, and `"unknown"` again if that is empty. */
  function SanitizeFilename(raw: Option<string>): (r: string)
    ensures r != ""
  {
    var given := if raw.Some? && raw.value != "" then raw.value else "unknown";
    var name := PathName(given);
    if name == "" then "unknown" else name
  }

  /** The sanitised name is never empty, has no separator and is either the
      last component of the given name or `"unknown"`. */
  lemma SanitizedHasNoSeparator(raw: Option<string>)
    ensures forall c :: c in SanitizeFilename(raw) ==> !IsSeparator(c)
    ensures SanitizeFilename(raw) == "unknown"
            || (raw.Some? && SanitizeFilename(raw) == PathName(raw.value))
  {
    var given := if raw.Some? && raw.value != "" then raw.value else "unknown";
    PathNameHasNoSeparator(given);
    PathNameOfPlainName("unknown");
  }

  /** The sanitising of the route's path-traversal examples: Unix and Windows
      traversal, an absolute path and a drive path keep only their last
      component. */
  lemma TraversalExamples()
    ensures PathName("../../../etc/passwd.wav") == "passwd.wav"
    ensures PathName("..\\..\\windows\\system32\\config.wav") == "config.wav"
    ensures PathName("/absolute/path/test.wav") == "test.wav"
    ensures PathName("C:\\Users\\attacker\\evil.wav") == "evil.wav"
  {
    PathNameAfterSeparator("../../../etc", '/', "passwd.wav");
    assert "../../../etc/passwd.wav" == "../../../etc" + ['/'] + "passwd.wav";
    PathNameAfterSeparator("..\\..\\windows\\system32", '\\', "config.wav");
    assert "..\\..\\windows\\system32\\config.wav" == "..\\..\\windows\\system32" + ['\\'] + "config.wav";
    PathNameAfterSeparator("/absolute/path", '/', "test.wav");
    assert "/absolute/path/test.wav" == "/absolute/path" + ['/'] + "test.wav";
    PathNameAfterSeparator("C:\\Users\\attacker", '\\', "evil.wav");
    assert "C:\\Users\\attacker\\evil.wav" == "C:\\Users\\attacker" + ['\\'] + "evil.wav";
  }

  lemma PlainAndEmptyExamples()
    ensures PathName("normal.wav") == "normal.wav"
    ensures PathName("") == ""
    ensures SanitizeFilename(Some("")) == "unknown" && SanitizeFilename(None) == "unknown"
  {
    PathNameOfPlainName("normal.wav");
    PathNameOfPlainName("unknown");
  }

  // ---------------------------------------------------------------------
  // The extension

  /** The index of the last `.` in `s`, or -1. */
  function LastDot(s: string): (i: int)
    ensures -1 <= i < |s|
    ensures i >= 0 ==> s[i] == '.'
    ensures forall j :: i < j < |s| ==> s[j] != '.'
  {
    if s == [] then -1 else if s[|s| - 1] == '.' then |s| - 1 else LastDot(s[..|s| - 1])
  }

  /** `Path(name).suffix`: from the last dot, unless that dot starts or ends
      the name. */
  function Suffix(name: string): (r: string)
    ensures r == "" || (|r| < |name| && r[0] == '.' && name[|name| - |r|..] == r)
  {
    var i := LastDot(name);
    if 0 < i < |name| - 1 then name[i..] else ""
  }

  /** `Path(filename).suffix.lower() in ACCEPTED_AUDIO_EXTENSIONS`. */
  predicate ExtensionAccepted(name: string) {
    AsciiLower(Suffix(name)) in AcceptedExtensions
  }

  /** A name is accepted iff it ends, ignoring case, with an accepted
      extension and has something before it: `.wav` alone has no suffix. */
  lemma ExtensionAcceptedIff(name: string)
    ensures ExtensionAccepted(name)
            <==> exists e :: e in AcceptedExtensions && |e| < |name| && AsciiLower(name[|name| - |e|..]) == e
  {
    if ExtensionAccepted(name) {
      var e := AsciiLower(Suffix(name));
      assert |e| < |name| && AsciiLower(name[|name| - |e|..]) == e;
    }
    if exists e :: e in AcceptedExtensions && |e| < |name| && AsciiLower(name[|name| - |e|..]) == e {
      var e :| e in AcceptedExtensions && |e| < |name| && AsciiLower(name[|name| - |e|..]) == e;
      EndsWithExtension(name, e);
    }
  }

  lemma EndsWithExtension(name: string, e: string)
    requires e in AcceptedExtensions && |e| < |name|
    requires AsciiLower(name[|name| - |e|..]) == e
    ensures Suffix(name) == name[|name| - |e|..]
  {
    var k := |name| - |e|;
    var tail := name[k..];
    ExtensionShape(e);
    assert LowerChar(tail[0]) == '.';
    assert name[k] == '.';
    forall j | k < j < |name| ensures name[j] != '.' {
      assert LowerChar(tail[j - k]) == e[j - k];
    }
    LastDotIs(name, k);
  }

  /** Each accepted extension is a dot followed by a dot-free tail. */
  lemma ExtensionShape(e: string)
    requires e in AcceptedExtensions
    ensures |e| >= 2 && e[0] == '.' && forall j :: 0 < j < |e| ==> e[j] != '.'
  {
    assert e == ".wav" || e == ".mp3" || e == ".flac" || e == ".ogg" || e == ".m4a"
           || e == ".webm" || e == ".wma" || e == ".aac" || e == ".opus";
  }

  lemma LastDotIs(s: string, k: int)
    requires 0 <= k < |s| && s[k] == '.'
    requires forall j :: k < j < |s| ==> s[j] != '.'
    ensures LastDot(s) == k
  {
    var i := LastDot(s);
    assert !(i > k);
  }

  // ---------------------------------------------------------------------
  // The size-limited copy

  /** One read of the body; `writeError` is the exception the write of this
      chunk raises, if any. An empty read ends the body. */
  datatype Chunk = Chunk(data: seq<byte>, writeError: Option<string>)

  datatype SaveResult = Saved | TooLarge | WriteFailed(message: string)

  /** The outcome of the copy: the bytes written before it stopped and the
      running `total_size`. */
  datatype SaveRun = SaveRun(result: SaveResult, written: seq<byte>, total: nat)

  /** The copy loop from a point where `total` bytes are counted and `written`
      are on disk: count the next chunk, refuse it if the total now exceeds the
      limit, otherwise write it. */
  function Copy(stream: seq<Chunk>, maxSize: nat, total: nat, written: seq<byte>): SaveRun
    decreases |stream|
  {
    if stream == [] || stream[0].data == [] then SaveRun(Saved, written, total)
    else
      var t := total + |stream[0].data|;
      if t > maxSize then SaveRun(TooLarge, written, t)
      else if stream[0].writeError.Some? then SaveRun(WriteFailed(stream[0].writeError.value), written, t)
      else Copy(stream[1..], maxSize, t, written + stream[0].data)
  }

  /** The body as the client sent it: the reads before the first empty one. */
  function Received(stream: seq<Chunk>): seq<seq<byte>> {
    if stream == [] || stream[0].data == [] then [] else [stream[0].data] + Received(stream[1..])
  }

  function Flatten(chunks: seq<seq<byte>>): seq<byte> {
    if chunks == [] then [] else chunks[0] + Flatten(chunks[1..])
  }

  predicate WritesSucceed(stream: seq<Chunk>) {
    forall i :: 0 <= i < |stream| ==> stream[i].writeError.None?
  }

  /** The copy writes in order and never past the limit; when it completes it
      has written the whole body. */
  lemma {:induction false} CopyWritesPrefix(stream: seq<Chunk>, maxSize: nat, total: nat, written: seq<byte>)
    requires total == |written| <= maxSize
    ensures var r := Copy(stream, maxSize, total, written);
            |r.written| <= maxSize
            && r.written <= written + Flatten(Received(stream))
            && (r.result == Saved ==> r.written == written + Flatten(Received(stream)) && r.total == |r.written|)
    decreases |stream|
  {
    if stream != [] && stream[0].data != [] {
      var d := stream[0].data;
      if total + |d| <= maxSize && stream[0].writeError.None? {
        CopyWritesPrefix(stream[1..], maxSize, total + |d|, written + d);
        assert written + d + Flatten(Received(stream[1..])) == written + Flatten(Received(stream));
      }
    }
  }

  /** The copy stops with 413 iff the body is larger than the limit (when no
      write fails first): checking the running total as chunks arrive is
      checking the whole size. */
  lemma {:induction false} TooLargeIffOversize(stream: seq<Chunk>, maxSize: nat, total: nat, written: seq<byte>)
    requires total == |written| <= maxSize
    ensures Copy(stream, maxSize, total, written).result == TooLarge
            ==> total + |Flatten(Received(stream))| > maxSize
    ensures WritesSucceed(stream) && total + |Flatten(Received(stream))| > maxSize
            ==> Copy(stream, maxSize, total, written).result == TooLarge
    decreases |stream|
  {
    if stream != [] && stream[0].data != [] {
      var d := stream[0].data;
      if total + |d| <= maxSize && stream[0].writeError.None? {
        TooLargeIffOversize(stream[1..], maxSize, total + |d|, written + d);
        assert WritesSucceed(stream) ==> WritesSucceed(stream[1..]) by {
          forall i | 0 <= i < |stream[1..]| ensures WritesSucceed(stream) ==> stream[1..][i].writeError.None? {
            assert stream[1..][i] == stream[i + 1];
          }
        }
      }
    }
  }

  /** The copy loop: `while True`, reading chunk after chunk. */
  method SaveUpload(stream: seq<Chunk>, maxSize: nat) returns (run: SaveRun)
    ensures run == Copy(stream, maxSize, 0, [])
  {
    var total: nat := 0;
    var written: seq<byte> := [];
    var i := 0;
    while i < |stream|
      invariant 0 <= i <= |stream|
      invariant Copy(stream, maxSize, 0, []) == Copy(stream[i..], maxSize, total, written)
      decreases |stream| - i
    {
      var chunk := stream[i];
      assert stream[i..][0] == chunk && stream[i..][1..] == stream[i + 1..];
      if chunk.data == [] {
        break;
      }
      total := total + |chunk.data|;
      if total > maxSize {
        return SaveRun(TooLarge, written, total);
      }
      if chunk.writeError.Some? {
        return SaveRun(WriteFailed(chunk.writeError.value), written, total);
      }
      written := written + chunk.data;
      i := i + 1;
    }
    run := SaveRun(Saved, written, total);
  }

  // ---------------------------------------------------------------------
  // The endpoint

  /** The upload limit in bytes: `max_size_mb * 1024 * 1024`, with the
      configured number of megabytes or 500. */
  function MaxUploadBytes(limitMb: Option<nat>): (r: nat)
    ensures limitMb.None? ==> r == 524288000
    ensures limitMb.Some? ==> r == limitMb.value * 1048576
  {
    limitMb.GetOr(DefaultMaxUploadMb) * 1024 * 1024
  }

  /** The upload limit as the route reads it: `app_config.max_upload_size_mb`
      on a loaded configuration, which has no such field, so the attribute
      lookup raises and the request fails with a server error. */
  function MaxUploadMbAsWritten(config: Option<AppConfig.Config>): Result<nat, string> {
    if config.Some? then Failure("'AppConfig' object has no attribute 'max_upload_size_mb'")
    else Success(DefaultMaxUploadMb)
  }

  /** With the configuration loaded (as it always is once the server has
      started), no upload gets past the limit lookup; only an unloaded
      configuration gives the 500 MB limit. */
  lemma LoadedConfigBreaksUploads(config: AppConfig.Config)
    ensures MaxUploadMbAsWritten(Some(config)).Failure?
    ensures MaxUploadMbAsWritten(None) == Success(DefaultMaxUploadMb)
    ensures MaxUploadBytes(None) == DefaultMaxUploadMb * 1048576
  {
  }

  /** The JSON reply: an error, or `{"session_id": id, "status": "pending"}`. */
  datatype UploadReply = Rejected(error: HttpError) | Pending(sessionId: int)

  /** `_get_repo()` and `create_session(...)`: the database is unavailable, or
      it creates the session with the given id. */
  datatype Database = Unavailable | Creates(sessionId: int)

  /** The arguments of `create_session`. */
  datatype NewSession = NewSession(mode: string, language: string, startedAt: int, filename: string)

  /** A temporary file left on disk. */
  datatype TempFile = TempFile(path: string, data: seq<byte>)

  function LanguageError(language: string): HttpError {
    HttpError(400, "Unsupported language" + (": " + language + ". Supported: " + Join(", ", AppConfig.SupportedLanguages)))
  }

  function FormatError(ext: string): HttpError {
    HttpError(400, "Unsupported file format" + (": " + ext + ". Accepted: " + Join(", ", SortedExtensions)))
  }

  /** `temp_dir / f"{int(datetime.now().timestamp())}_{filename}"`. */
  function TempPath(tempDir: string, stamp: nat, filename: string): string {
    tempDir + "/openwhisper_uploads/" + Decimal(stamp) + "_" + filename
  }

  /** Everything the request does, in the route's order. */
  datatype Outcome = Outcome(reply: UploadReply, created: Option<NewSession>, kept: Option<TempFile>,
                             registered: Option<PendingRegistry.PendingTranscription>)

  /** The checks before the body is read: the language first, then the
      extension of the sanitised name, which is the result. */
  function Validate(raw: Option<string>, language: string): (r: Result<string, HttpError>)
    ensures r.Success? <==> language in AppConfig.SupportedLanguages && ExtensionAccepted(SanitizeFilename(raw))
    ensures r.Success? ==> r.value == SanitizeFilename(raw)
    ensures language !in AppConfig.SupportedLanguages ==> r == Failure(LanguageError(language))
    ensures language in AppConfig.SupportedLanguages && !ExtensionAccepted(SanitizeFilename(raw))
            ==> r == Failure(FormatError(AsciiLower(Suffix(SanitizeFilename(raw)))))
  {
    if language !in AppConfig.SupportedLanguages then Failure(LanguageError(language))
    else
      var filename := SanitizeFilename(raw);
      var ext := AsciiLower(Suffix(filename));
      if ext !in AcceptedExtensions then Failure(FormatError(ext)) else Success(filename)
  }

  /** The rest of the route once the checks pass: the copy, then the session
      and its registration. */
  function Store(filename: string, language: string, limitMb: Option<nat>, stream: seq<Chunk>,
                 tempDir: string, stamp: nat, db: Database, startedAt: int, now: real): Outcome
  {
    var path := TempPath(tempDir, stamp, filename);
    var run := Copy(stream, MaxUploadBytes(limitMb), 0, []);
    match run.result
    case TooLarge =>
      Outcome(Rejected(HttpError(413, "File too large (max " + Decimal(limitMb.GetOr(DefaultMaxUploadMb)) + " MB)")),
              None, None, None)
    case WriteFailed(message) =>
      Outcome(Rejected(HttpError(500, "Failed to save uploaded file: " + message)), None, None, None)
    case Saved =>
      match db
      case Unavailable =>
        Outcome(Rejected(DatabaseUnavailable), None, Some(TempFile(path, run.written)), None)
      case Creates(id) =>
        Outcome(Pending(id), Some(NewSession("file", language, startedAt, filename)), Some(TempFile(path, run.written)),
                Some(PendingRegistry.PendingTranscription(id, path, language, startedAt, filename, now)))
  }

  function Respond(raw: Option<string>, language: string, limitMb: Option<nat>, stream: seq<Chunk>,
                   tempDir: string, stamp: nat, db: Database, startedAt: int, now: real): Outcome
  {
    match Validate(raw, language)
    case Failure(e) => Outcome(Rejected(e), None, None, None)
    case Success(filename) => Store(filename, language, limitMb, stream, tempDir, stamp, db, startedAt, now)
  }

  /** The route. */
  method UploadFileForTranscription(raw: Option<string>, language: string, limitMb: Option<nat>, stream: seq<Chunk>,
                                    tempDir: string, stamp: nat, db: Database, startedAt: int, now: real,
                                    registry: PendingRegistry.Registry)
    returns (reply: UploadReply, created: Option<NewSession>, kept: Option<TempFile>)
    requires registry.Valid()
    modifies registry
    ensures registry.Valid()
    ensures var o := Respond(raw, language, limitMb, stream, tempDir, stamp, db, startedAt, now);
            reply == o.reply && created == o.created && kept == o.kept
            && (o.registered.None? ==> unchanged(registry))
            && (o.registered.Some? ==>
                  PendingRegistry.RegisterEffect(old(registry.pending), old(registry.order), old(registry.unlinked),
                                                 registry.pending, registry.order, registry.unlinked,
                                                 o.registered.value, now))
  {
    var checked := Validate(raw, language);
    if checked.Failure? {
      return Rejected(checked.error), None, None;
    }
    reply, created, kept := StoreUpload(checked.value, language, limitMb, stream, tempDir, stamp, db, startedAt, now,
                                        registry);
  }

  /** The route after the checks: save the body, then create and register the
      session. */
  method StoreUpload(filename: string, language: string, limitMb: Option<nat>, stream: seq<Chunk>,
                     tempDir: string, stamp: nat, db: Database, startedAt: int, now: real,
                     registry: PendingRegistry.Registry)
    returns (reply: UploadReply, created: Option<NewSession>, kept: Option<TempFile>)
    requires registry.Valid()
    modifies registry
    ensures registry.Valid()
    ensures var o := Store(filename, language, limitMb, stream, tempDir, stamp, db, startedAt, now);
            reply == o.reply && created == o.created && kept == o.kept
            && (o.registered.None? ==> unchanged(registry))
            && (o.registered.Some? ==>
                  PendingRegistry.RegisterEffect(old(registry.pending), old(registry.order), old(registry.unlinked),
                                                 registry.pending, registry.order, registry.unlinked,
                                                 o.registered.value, now))
  {
    created := None;
    kept := None;
    var path := TempPath(tempDir, stamp, filename);
    var run := SaveUpload(stream, MaxUploadBytes(limitMb));
    if run.result == TooLarge {
      return Rejected(HttpError(413, "File too large (max " + Decimal(limitMb.GetOr(DefaultMaxUploadMb)) + " MB)")),
             created, kept;
    }
    if run.result.WriteFailed? {
      return Rejected(HttpError(500, "Failed to save uploaded file: " + run.result.message)), created, kept;
    }
    kept := Some(TempFile(path, run.written));
    if db.Unavailable? {
      return Rejected(DatabaseUnavailable), created, kept;
    }
    var id := db.sessionId;
    created := Some(NewSession("file", language, startedAt, filename));
    var entry := registry.Register(id, path, language, startedAt, filename, now);
    reply := Pending(id);
  }

  // ---------------------------------------------------------------------
  // Properties of the route

  /** An unsupported language is refused with 400 before the file is looked
      at (see `RefusalHasNoEffect`). */
  lemma LanguageCheckedFirst(raw: Option<string>, language: string)
    requires language !in AppConfig.SupportedLanguages
    ensures Validate(raw, language).Failure?
    ensures Validate(raw, language).error.status == 400
    ensures StartsWith(Validate(raw, language).error.detail, "Unsupported language")
  {
    StartsWithConcat("Unsupported language", ": " + language + ". Supported: " + Join(", ", AppConfig.SupportedLanguages));
  }

  /** A supported language with a name whose extension is not accepted is
      refused with 400. */
  lemma UnsupportedFormatRefused(raw: Option<string>, language: string)
    requires language in AppConfig.SupportedLanguages
    requires !ExtensionAccepted(SanitizeFilename(raw))
    ensures Validate(raw, language).Failure?
    ensures Validate(raw, language).error.status == 400
    ensures StartsWith(Validate(raw, language).error.detail, "Unsupported file format")
  {
    var ext := AsciiLower(Suffix(SanitizeFilename(raw)));
    StartsWithConcat("Unsupported file format", ": " + ext + ". Accepted: " + Join(", ", SortedExtensions));
  }

  lemma StartsWithConcat(p: string, rest: string)
    ensures StartsWith(p + rest, p)
  {
    assert (p + rest)[..|p|] == p;
  }

  /** A refused request writes, creates and registers nothing. */
  lemma RefusalHasNoEffect(raw: Option<string>, language: string, limitMb: Option<nat>, stream: seq<Chunk>,
                           tempDir: string, stamp: nat, db: Database, startedAt: int, now: real)
    requires Validate(raw, language).Failure?
    ensures Respond(raw, language, limitMb, stream, tempDir, stamp, db, startedAt, now)
            == Outcome(Rejected(Validate(raw, language).error), None, None, None)
  {
  }

  /** A body over the limit is refused with 413 and its file removed, and
      (writes aside) only such a body is. */
  lemma OversizeRefused(filename: string, language: string, limitMb: Option<nat>, stream: seq<Chunk>,
                        tempDir: string, stamp: nat, db: Database, startedAt: int, now: real)
    ensures var o := Store(filename, language, limitMb, stream, tempDir, stamp, db, startedAt, now);
            o.reply.Rejected? && o.reply.error.status == 413
            ==> o.kept.None? && |Flatten(Received(stream))| > MaxUploadBytes(limitMb)
    ensures WritesSucceed(stream) && |Flatten(Received(stream))| > MaxUploadBytes(limitMb)
            ==> Store(filename, language, limitMb, stream, tempDir, stamp, db, startedAt, now).reply
                == Rejected(HttpError(413, "File too large (max " + Decimal(limitMb.GetOr(DefaultMaxUploadMb)) + " MB)"))
  {
    TooLargeIffOversize(stream, MaxUploadBytes(limitMb), 0, []);
  }

  /** A successful upload: the whole body is in the temporary file, within the
      limit; a "file" session is created under the sanitised name and
      registered under the same id, stamped with the current time. */
  lemma SuccessfulUpload(filename: string, language: string, limitMb: Option<nat>, stream: seq<Chunk>,
                         tempDir: string, stamp: nat, db: Database, startedAt: int, now: real)
    requires Store(filename, language, limitMb, stream, tempDir, stamp, db, startedAt, now).reply.Pending?
    ensures var o := Store(filename, language, limitMb, stream, tempDir, stamp, db, startedAt, now);
            db == Creates(o.reply.sessionId)
            && o.kept == Some(TempFile(TempPath(tempDir, stamp, filename), Flatten(Received(stream))))
            && |Flatten(Received(stream))| <= MaxUploadBytes(limitMb)
            && o.created == Some(NewSession("file", language, startedAt, filename))
            && o.registered == Some(PendingRegistry.PendingTranscription(
                 o.reply.sessionId, TempPath(tempDir, stamp, filename), language, startedAt, filename, now))
  {
    CopyWritesPrefix(stream, MaxUploadBytes(limitMb), 0, []);
    assert [] + Flatten(Received(stream)) == Flatten(Received(stream));
  }

  /** The parameters `SessionRepository.create_session` declares. */
  const CreateSessionParams: set<string> := {"mode", "language", "started_at"}

  /** The keyword arguments the route passes to `create_session`. */
  const UploadKeywords: set<string> := {"mode", "language", "started_at", "filename"}

  /** Calling `create_session` with the route's keywords against a signature
      with the given parameters: a keyword it does not declare raises
      `TypeError` at the call, before the database is reached. */
  function CallCreateSession(params: set<string>, id: int): (r: Result<int, string>)
    ensures r.Success? <==> UploadKeywords <= params
    ensures r.Success? ==> r.value == id
  {
    if UploadKeywords <= params then Success(id)
    else Failure("create_session() got an unexpected keyword argument 'filename'")
  }

  /** The route after the checks as written: the copy and the database lookup
      as in `Store`, but the call to `create_session` raises, so the request
      fails with 500, the temporary file stays on disk and nothing is created
      or registered. */
  function StoreAsWritten(filename: string, language: string, limitMb: Option<nat>, stream: seq<Chunk>,
                          tempDir: string, stamp: nat, db: Database, startedAt: int, now: real): Outcome
  {
    var o := Store(filename, language, limitMb, stream, tempDir, stamp, db, startedAt, now);
    if o.reply.Pending? then
      match CallCreateSession(CreateSessionParams, o.reply.sessionId)
      case Failure(_) => Outcome(Rejected(HttpError(500, "Internal Server Error")), None, o.kept, None)
      case Success(_) => o
    else o
  }

  /** As written, no upload is ever accepted: where the intended route would
      reply "pending", the code replies 500 and leaves the file behind. With
      the `filename` parameter the repository's session row evidently has, the
      call succeeds with the new id. */
  lemma CreateSessionRejectsFilename(filename: string, language: string, limitMb: Option<nat>, stream: seq<Chunk>,
                                     tempDir: string, stamp: nat, db: Database, startedAt: int, now: real)
    ensures !StoreAsWritten(filename, language, limitMb, stream, tempDir, stamp, db, startedAt, now).reply.Pending?
    ensures var o := Store(filename, language, limitMb, stream, tempDir, stamp, db, startedAt, now);
            o.reply.Pending? ==>
              StoreAsWritten(filename, language, limitMb, stream, tempDir, stamp, db, startedAt, now)
              == Outcome(Rejected(HttpError(500, "Internal Server Error")), None, o.kept, None)
    ensures forall id :: CallCreateSession(CreateSessionParams + {"filename"}, id) == Success(id)
  {
    assert "filename" in UploadKeywords && "filename" !in CreateSessionParams;
  }

  /** The names listed in the format error are the accepted extensions... */
  lemma SortedExtensionsListed()
    ensures (set e | e in SortedExtensions) == AcceptedExtensions
  {
  }

  /** ...in ascending order. */
  lemma SortedExtensionsAscend()
    ensures forall i :: 0 <= i < |SortedExtensions| - 1 ==> Less(SortedExtensions[i], SortedExtensions[i + 1])
  {
    assert Less(".aac", ".flac") && Less(".flac", ".m4a") && Less(".m4a", ".mp3") && Less(".mp3", ".ogg");
    assert Less(".ogg", ".opus") && Less(".opus", ".wav") && Less(".wav", ".webm") && Less(".webm", ".wma");
  }

  /** Python's `<` on strings. */
  predicate Less(a: string, b: string) {
    if a == [] then b != []
    else if b == [] then false
    else if a[0] != b[0] then a[0] < b[0]
    else Less(a[1..], b[1..])
  }
}
