/** The extension check of the upload route (route.ts:70-77): the part of
    the lower-cased file name from its last '.' on must be one of three. */
module UploadExtension {
  import opened JsString

  const AllowedExt: seq<string> := [".mp4", ".webm", ".mov"]
  /** The name used when the client sent none. */
  const UnknownName := "unknown"

  /** The extension exactly as route.ts:71 computes it: the position of the
      last '.' is taken in the name as sent, and the slice is taken from the
      lower-cased name. */
  function ExtensionAsWritten(name: string): string {
    Slice(ToLowerCase(name), LastIndexOf(name, '.'))
  }

  /** The extension the check evidently means: the lower-cased name from
      its last '.' on (or its last character when it has no '.'). */
  function Extension(name: string): string {
    var lower := ToLowerCase(name);
    Slice(lower, LastIndexOf(lower, '.'))
  }

  /** Whenever lower-casing keeps every character in place (no U+0130),
      the code as written computes the intended extension. */
  lemma ExtensionAsWrittenAgrees(name: string)
    requires '\U{0130}' !in name
    ensures ExtensionAsWritten(name) == Extension(name)
  {
    ToLowerCaseAt(name);
    var lower := ToLowerCase(name);
    forall i | 0 <= i < |name| ensures lower[i] == '.' <==> name[i] == '.' {
      LowerCharKeepsDot(name[i]);
    }
    LastIndexOfUnique(lower, '.', LastIndexOf(name, '.'));
  }

  lemma LowerCharKeepsDot(c: char)
    requires c != '\U{0130}'
    ensures LowerChar(c)[0] == '.' <==> c == '.'
  {
  }

  /** "İ.mp4": the capital I with dot above lower-cases to two characters,
      so the dot found in the name as sent is one place too early in the
      lower-cased name and the as-written extension is U+0307 followed by
      ".mp4", which the check refuses; the intended extension is ".mp4". */
  lemma DottedCapitalIShiftsExtension()
    ensures ExtensionAsWritten("\U{0130}.mp4") == "\U{0307}.mp4"
    ensures ExtensionAsWritten("\U{0130}.mp4") !in AllowedExt
    ensures Extension("\U{0130}.mp4") == ".mp4"
  {
    DottedNameLowered();
    LastIndexOfUnique("\U{0130}.mp4", '.', 1);
    LastIndexOfUnique("i\U{0307}.mp4", '.', 2);
    SliceFacts("i\U{0307}.mp4");
  }

  lemma DottedNameLowered()
    ensures ToLowerCase("\U{0130}.mp4") == "i\U{0307}.mp4"
  {
    ToLowerCaseKeeps(".mp4");
    assert "\U{0130}.mp4"[1..] == ".mp4";
  }

  lemma SliceFacts(s: string)
    requires s == "i\U{0307}.mp4"
    ensures Slice(s, 1) == "\U{0307}.mp4" && Slice(s, 2) == ".mp4"
  {
  }

  /** The extension is the suffix of the lower-cased name from its last
      '.' on: it starts with '.', holds no other '.', and ends the name. */
  lemma ExtensionIsLastDotSuffix(name: string)
    requires '.' in name
    ensures EndsWith(ToLowerCase(name), Extension(name))
    ensures |Extension(name)| > 0 && Extension(name)[0] == '.'
    ensures '.' !in Extension(name)[1..]
  {
    var lower := ToLowerCase(name);
    var k := LastIndexOf(lower, '.');
    assert Extension(name) == lower[k..];
    assert lower[k..][1..] == lower[k + 1..];
  }

  /** The intended extension is allowed exactly when the lower-cased name
      ends with one of ".mp4", ".webm", ".mov". */
  lemma ExtensionAllowedIff(name: string)
    ensures Extension(name) in AllowedExt
            <==> exists e | e in AllowedExt :: EndsWith(ToLowerCase(name), e)
  {
    var lower := ToLowerCase(name);
    if e :| e in AllowedExt && EndsWith(lower, e) {
      var k := |lower| - |e|;
      assert lower[k..] == e;
      assert lower[k] == '.';
      assert '.' !in lower[k + 1..] by {
        assert lower[k + 1..] == e[1..];
      }
      LastIndexOfUnique(lower, '.', k);
    }
  }

  /** A name with no '.' (the "unknown" default among them) is always
      refused: the slice from -1 is at most one character long. */
  lemma {:induction false} NoDotRejected(name: string)
    requires '.' !in name
    ensures |Extension(name)| <= 1
    ensures Extension(name) !in AllowedExt
    ensures ExtensionAsWritten(name) !in AllowedExt
  {
    var lower := ToLowerCase(name);
    assert LastIndexOf(lower, '.') == -1;
    assert LastIndexOf(name, '.') == -1;
  }

  /** A dotted part with no further '.' keeps its only '.' in front when
      lower-cased. */
  lemma LoweredPartDot(part: string)
    requires |part| > 0 && part[0] == '.'
    requires forall j | 0 < j < |part| :: part[j] != '.'
    ensures |ToLowerCase(part)| > 0 && ToLowerCase(part)[0] == '.'
    ensures LastIndexOf(ToLowerCase(part), '.') == 0
  {
    var tail := part[1..];
    assert '.' !in tail by {
      forall j | 0 <= j < |tail| ensures tail[j] != '.' {
        assert tail[j] == part[j + 1];
      }
    }
    var lowerTail := ToLowerCase(tail);
    var lowerPart := ToLowerCase(part);
    assert lowerPart == ['.'] + lowerTail;
    forall j | 0 < j < |lowerPart| ensures lowerPart[j] != '.' {
      assert lowerPart[j] == lowerTail[j - 1];
    }
    LastIndexOfUnique(lowerPart, '.', 0);
  }

  /** Whatever precedes it, a last part that starts with the name's last
      '.' is the extension, lower-cased. */
  lemma ExtensionOfLastPart(stem: string, part: string)
    requires |part| > 0 && part[0] == '.'
    requires forall j | 0 < j < |part| :: part[j] != '.'
    ensures Extension(stem + part) == ToLowerCase(part)
  {
    ToLowerCaseAppend(stem, part);
    var lowerStem := ToLowerCase(stem);
    var lowerPart := ToLowerCase(part);
    LoweredPartDot(part);
    LastIndexOfAppend(lowerStem, lowerPart, '.');
    assert (lowerStem + lowerPart)[|lowerStem|..] == lowerPart;
  }

  lemma LowerMov()
    ensures ToLowerCase(".MOV") == ".mov"
  {
  }

  /** Upper-case extensions pass: any name ending in ".MOV" has the
      extension ".mov". */
  lemma UpperCaseExtensionAccepted(stem: string)
    ensures Extension(stem + ".MOV") == ".mov" && ".mov" in AllowedExt
  {
    ExtensionOfLastPart(stem, ".MOV");
    LowerMov();
  }

  /** A double extension is judged by its last part: a name ending in
      ".mp4.exe" is refused. */
  lemma DoubleExtensionRejected(stem: string)
    ensures Extension(stem + ".mp4" + ".exe") == ".exe" && ".exe" !in AllowedExt
  {
    ExtensionOfLastPart(stem + ".mp4", ".exe");
    LowerExe();
  }

  lemma LowerExe()
    ensures ToLowerCase(".exe") == ".exe"
  {
  }

  /** The name recorded for a file sent without one is refused. */
  lemma UnknownNameRejected()
    ensures Extension(UnknownName) !in AllowedExt
  {
    NoDotRejected(UnknownName);
  }
}

/** `POST /api/video/upload` (app/api/video/upload/route.ts): an ordered
    chain of checks on the request, each answering 400 on failure, then
    saving the raw file, inserting the `processing` row and scheduling the
    transcode. */
module UploadRoute {
  import opened Wrappers
  import opened JsString
  import opened Schema
  import opened UploadExtension
  import Ffmpeg

  const MaxSize: nat := 500 * 1024 * 1024
  const MultipartFormData := "multipart/form-data"

  const BadContentTypeMessage := "Content-Type must be multipart/form-data"
  const NoBodyMessage := "No request body"
  const ParseFailedMessage := "Failed to parse form"
  const NoFileMessage := "No file uploaded"
  const BadExtensionMessage := "Invalid file type. Allowed: mp4, webm, mov"
  const TooLargeMessage := "File too large. Max 500MB"
  const SaveFailedMessage := "Failed to save file"
  const InsertFailedMessage := "Failed to create record"
  const ProcessingStatus := "processing"

  /** The first entry of the `file` field as formidable reports it. */
  datatype UploadedFile = UploadedFile(originalFilename: Option<string>, size: nat)

  /** What `form.parse` gives: a failure (also raised when a file exceeds
      the parser's own `maxFileSize`), or the first `file` entry, if any. */
  datatype FormParse = ParseFailed | Parsed(file: Option<UploadedFile>)

  /** The parts of the request the route looks at. */
  datatype Request = Request(contentType: Option<string>, hasBody: bool, form: FormParse)

  /** A JSON response: an error object, or the accepted upload. */
  datatype ResponseBody =
    | ErrorBody(error: string, details: Option<string>)
    | Accepted(videoId: string, status: string)

  datatype Response = Response(status: nat, body: ResponseBody)

  /** An upload that passed every check: the name to record and the
      extension to store the raw file under. */
  datatype Upload = Upload(originalName: string, ext: string)

  // ----------------------------------------------------------- validation

  /** Only a size above 500 MiB is refused; a size of 0, which JavaScript
      reads as false, is never refused, and exactly 500 MiB passes. */
  function TooLarge(size: nat): (r: bool)
    ensures r <==> size > MaxSize
  {
    size != 0 && size > MaxSize
  }

  /** The content type check: the header, or "" when absent, contains
      "multipart/form-data". */
  predicate IsMultipart(req: Request) {
    Includes(req.contentType.GetOr(""), MultipartFormData)
  }

  /** The checks of the route in their order; the first that fails gives
      the error message of the 400 response. */
  function Validate(req: Request): (r: Result<Upload, string>)
    ensures !IsMultipart(req) ==> r == Err(BadContentTypeMessage)
    ensures IsMultipart(req) && !req.hasBody ==> r == Err(NoBodyMessage)
    ensures IsMultipart(req) && req.hasBody && req.form.ParseFailed? ==> r == Err(ParseFailedMessage)
    ensures IsMultipart(req) && req.hasBody && req.form.Parsed? && req.form.file.None?
            ==> r == Err(NoFileMessage)
    ensures IsMultipart(req) && req.hasBody && req.form.Parsed? && req.form.file.Some?
            && Extension(req.form.file.value.originalFilename.GetOr(UnknownName)) !in AllowedExt
            ==> r == Err(BadExtensionMessage)
    ensures IsMultipart(req) && req.hasBody && req.form.Parsed? && req.form.file.Some?
            && Extension(req.form.file.value.originalFilename.GetOr(UnknownName)) in AllowedExt
            && req.form.file.value.size > MaxSize
            ==> r == Err(TooLargeMessage)
    ensures r.Ok? <==>
      && IsMultipart(req) && req.hasBody && req.form.Parsed? && req.form.file.Some?
      && Extension(req.form.file.value.originalFilename.GetOr(UnknownName)) in AllowedExt
      && req.form.file.value.size <= MaxSize
    ensures r.Err? && r.error == BadExtensionMessage ==>
      Extension(req.form.file.value.originalFilename.GetOr(UnknownName)) !in AllowedExt
    ensures r.Err? && r.error == TooLargeMessage ==> req.form.file.value.size > MaxSize
    ensures r.Ok? ==> var file := req.form.file.value;
      && r.value.originalName == file.originalFilename.GetOr(UnknownName)
      && r.value.ext == Extension(r.value.originalName)
      && r.value.ext in AllowedExt
  {
    if !IsMultipart(req) then Err(BadContentTypeMessage)
    else if !req.hasBody then Err(NoBodyMessage)
    else if req.form.ParseFailed? then Err(ParseFailedMessage)
    else if req.form.file.None? then Err(NoFileMessage)
    else
      var file := req.form.file.value;
      var originalName := file.originalFilename.GetOr(UnknownName);
      var ext := Extension(originalName);
      if ext !in AllowedExt then Err(BadExtensionMessage)
      else if TooLarge(file.size) then Err(TooLargeMessage)
      else Ok(Upload(originalName, ext))
  }

  /** A file with an allowed extension is refused for its size only: an
      oversized file with a bad extension reports the extension. */
  lemma ExtensionCheckedBeforeSize(req: Request)
    requires IsMultipart(req) && req.hasBody && req.form.Parsed? && req.form.file.Some?
    ensures Validate(req) == Err(TooLargeMessage)
      <==> Extension(req.form.file.value.originalFilename.GetOr(UnknownName)) in AllowedExt
           && req.form.file.value.size > MaxSize
  {
  }

  /** `join(rawDir, videoId + ext)` */
  function RawPath(rawDir: string, videoId: string, ext: string): (p: string)
    ensures StartsWith(p, rawDir + "/") && EndsWith(p, ext)
    ensures |p| == |rawDir| + 1 + |videoId| + |ext|
    ensures p[|rawDir| + 1 .. |p| - |ext|] == videoId
  {
    var p := rawDir + "/" + videoId + ext;
    assert p[|p| - |ext|..] == ext;
    p
  }

  // -------------------------------------------------------------- handler

  /** The route handler. `videoId` stands for `randomUUID()` and `rawDir`
      for the raw-upload directory. `saveFault` is the error that reading
      the temporary file or writing the raw file raises, `unlinkFault` the
      error that removing the temporary file raises once the raw file is
      written, and `dbFault` the error the insert raises, if any. */
  method Post(server: Server, req: Request, videoId: string, rawDir: string,
              saveFault: Option<string>, unlinkFault: Option<string>, dbFault: Option<string>)
    returns (resp: Response)
    requires server.Valid() && server.JobsPending()
    modifies server
    ensures server.Valid() && server.JobsPending()
    ensures forall k | k in old(server.records) && old(server.records)[k].status != Processing ::
              k in server.records && server.records[k] == old(server.records)[k]
    ensures Validate(req).Err? ==>
      && resp == Response(400, ErrorBody(Validate(req).error, None))
      && server.records == old(server.records) && server.rawFiles == old(server.rawFiles)
      && server.scheduled == old(server.scheduled)
    ensures Validate(req).Ok? && saveFault.Some? ==>
      && resp == Response(500, ErrorBody(SaveFailedMessage, saveFault))
      && server.records == old(server.records) && server.rawFiles == old(server.rawFiles)
      && server.scheduled == old(server.scheduled)
    ensures Validate(req).Ok? && saveFault.None? ==>
      server.rawFiles == old(server.rawFiles) + {RawPath(rawDir, videoId, Validate(req).value.ext)}
    ensures Validate(req).Ok? && saveFault.None? && unlinkFault.Some? ==>
      && resp == Response(500, ErrorBody(SaveFailedMessage, unlinkFault))
      && server.records == old(server.records) && server.scheduled == old(server.scheduled)
    ensures Validate(req).Ok? && saveFault.None? && unlinkFault.None?
            && (dbFault.Some? || videoId in old(server.records)) ==>
      && resp.status == 500 && resp.body.ErrorBody? && resp.body.error == InsertFailedMessage
      && server.records == old(server.records) && server.scheduled == old(server.scheduled)
    ensures resp.status == 200 <==>
      && Validate(req).Ok? && saveFault.None? && unlinkFault.None? && dbFault.None?
      && videoId !in old(server.records)
    ensures resp.status == 200 ==>
      var upload := Validate(req).value;
      && resp.body == Accepted(videoId, ProcessingStatus)
      && server.records == old(server.records)[videoId := NewRecord(videoId, upload.originalName)]
      && server.scheduled == old(server.scheduled) + [TranscodeJob(videoId, RawPath(rawDir, videoId, upload.ext))]
    ensures resp.status != 200 ==> server.scheduled == old(server.scheduled)
  {
    var checked := Validate(req);
    if checked.Err? {
      return Response(400, ErrorBody(checked.error, None));
    }
    var upload := checked.value;
    var rawPath := RawPath(rawDir, videoId, upload.ext);
    var saveErr := server.WriteRawFile(rawPath, saveFault);
    if saveErr.Some? {
      return Response(500, ErrorBody(SaveFailedMessage, saveErr));
    }
    if unlinkFault.Some? {
      return Response(500, ErrorBody(SaveFailedMessage, unlinkFault));
    }
    var insertErr := server.Insert(NewRecord(videoId, upload.originalName), dbFault);
    if insertErr.Some? {
      return Response(500, ErrorBody(InsertFailedMessage, insertErr));
    }
    server.Schedule(TranscodeJob(videoId, rawPath));
    resp := Response(200, Accepted(videoId, ProcessingStatus));
  }

  /** The `setImmediate` callback of the oldest scheduled job: run the
      transcode and drop its rejection, which the transcoder has already
      recorded as `status = error`. `escaped` is the exception that leaves
      the callback: the synchronous throw of the transcoder, which the
      `.catch` on its promise does not see. */
  method RunScheduled(server: Server, env: Ffmpeg.Environment) returns (escaped: Option<string>)
    requires server.Valid() && server.JobsPending() && server.scheduled != []
    modifies server`records, server`scheduled
    ensures server.Valid() && server.JobsPending()
    ensures var id := old(server.scheduled)[0].videoId;
      id in old(server.records) && old(server.records)[id].status == Processing
    ensures forall k | k in old(server.records) && old(server.records)[k].status != Processing ::
              k in server.records && server.records[k] == old(server.records)[k]
    ensures server.scheduled == old(server.scheduled)[1..]
    ensures escaped == if env.ffmpegPath.None? then env.errorWriteFault else None
    ensures var id := old(server.scheduled)[0].videoId;
      && server.records.Keys == old(server.records).Keys
      && (forall k | k in old(server.records) && k != id :: server.records[k] == old(server.records)[k])
      && (id in old(server.records) && env.errorWriteFault.None? ==>
            server.records[id].status != Processing)
      && (env.ffmpegPath.Some? && Ffmpeg.TrySucceeds(env) ==>
            var meta := Ffmpeg.GetMeta(env.probe).value;
            server.records == UpdateWhere(old(server.records), id,
              StatusReady(Ffmpeg.HlsPlaylistPath(id), Ffmpeg.ThumbPath(id),
                          meta.duration, meta.width, meta.height)))
      && (env.errorWriteFault.None? && !(env.ffmpegPath.Some? && Ffmpeg.TrySucceeds(env)) ==>
            server.records == UpdateWhere(old(server.records), id, StatusError))
      && (env.errorWriteFault.Some? && !(env.ffmpegPath.Some? && Ffmpeg.TrySucceeds(env)) ==>
            server.records == old(server.records))
  {
    var job := server.scheduled[0];
    server.scheduled := server.scheduled[1..];
    var attempted, settled := Ffmpeg.TranscodeToHLS(server, job.videoId, env);
    escaped := if settled.Threw? then Some(settled.message) else None;
  }
}
