/** The upload widget's logic (components/VideoUploader.tsx): a check of
    the chosen file, then a single `state` cell driven through the phases
    idle, uploading, processing, ready and error by the upload request's
    events and by the ticks of the status poll. */
module VideoUploader {
  import opened Wrappers
  import opened JsString

  const AllowedTypes: seq<string> := ["video/mp4", "video/webm", "video/quicktime"]
  const MaxSize: nat := 500 * 1024 * 1024

  const BadTypeMessage := "Invalid file type. Allowed: mp4, webm, mov"
  const TooLargeMessage := "File too large. Max 500MB"
  const UploadFailedMessage := "Upload failed"
  const NetworkErrorMessage := "Network error"
  const TranscodingFailedMessage := "Transcoding failed"
  const FetchFailedMessage := "Failed to fetch status"
  /** What a template string makes of a missing `videoId`. */
  const UndefinedText := "undefined"

  /** The phase shown to the user, with the data each phase carries. */
  datatype UploadState =
    | Idle
    | Uploading(progress: int)
    | Processing
    | Ready(videoId: string, hlsUrl: string, thumbUrl: Option<string>, downloadUrl: string)
    | Error(message: string)

  /** The MIME type and size the browser reports for the chosen file. */
  datatype FileInfo = FileInfo(mimeType: string, size: nat)

  /** The body of the upload response: text that is not JSON, or an
      object whose `videoId` and `error` members may be absent. */
  datatype UploadBody = Unparsable | UploadJson(videoId: Option<string>, error: Option<string>)

  /** The outcome of one status request: the fetch or its JSON parse threw,
      or the object it returned. */
  datatype StatusReply =
    | FetchFailed
    | StatusJson(status: string, hlsUrl: Option<string>, thumbUrl: Option<string>,
                 downloadUrl: Option<string>)

  /** A string is truthy in JavaScript when it is present and not empty. */
  predicate Truthy(s: Option<string>) {
    s.Some? && s.value != ""
  }

  /** `validateFile`: the type is checked first, then the size; `None`
      means the file may be uploaded. */
  function ValidateFile(file: FileInfo): (err: Option<string>)
    ensures err.None? <==> file.mimeType in AllowedTypes && file.size <= MaxSize
    ensures file.mimeType !in AllowedTypes ==> err == Some(BadTypeMessage)
    ensures file.mimeType in AllowedTypes && file.size > MaxSize ==> err == Some(TooLargeMessage)
  {
    if file.mimeType !in AllowedTypes then Some(BadTypeMessage)
    else if file.size > MaxSize then Some(TooLargeMessage)
    else None
  }

  /** The message of a failed upload: the body's `error` when it is truthy,
      otherwise "Upload failed" (also when the body is not JSON). */
  function UploadErrorMessage(body: UploadBody): (msg: string)
    ensures msg == UploadFailedMessage || (body.UploadJson? && Some(msg) == body.error)
    ensures msg != ""
    ensures body.UploadJson? && Truthy(body.error) ==> msg == body.error.value
  {
    if body.UploadJson? && Truthy(body.error) then body.error.value else UploadFailedMessage
  }

  /** The download link the ready phase falls back to. */
  function DefaultDownloadUrl(videoId: string): (url: string)
    ensures StartsWith(url, "/api/video/") && EndsWith(url, "/download")
    ensures |url| == 11 + |videoId| + 9 && url[11 .. |url| - 9] == videoId
  {
    var url := "/api/video/" + videoId + "/download";
    assert url[|url| - |"/download"|..] == "/download";
    url
  }

  /** The moves the phases make under the widget's events (a reset to idle
      aside): forward through the upload, forward through the poll, or no
      change at all. */
  predicate Step(before: UploadState, after: UploadState) {
    || before == after
    || (before.Idle? && (after.Uploading? || after.Error?))
    || (before.Uploading? && (after.Uploading? || after.Processing? || after.Error?))
    || (before.Processing? && (after.Ready? || after.Error?))
  }

  /** The widget. `inFlight` says that the upload request was sent and has
      fired neither `load` nor `error`; `polling` holds the video id of the
      running status interval, if one runs. */
  class Uploader {
    var state: UploadState
    var inFlight: bool
    var polling: Option<string>

    /** An outstanding request belongs to the uploading phase and a running
        poll to the processing phase. */
    ghost predicate Valid()
      reads this
    {
      && (inFlight ==> state.Uploading? && polling.None?)
      && (polling.Some? ==> state.Processing? && !inFlight)
    }

    /** Ready and error are left only by a reset: in them no request is
        outstanding and no poll runs, so none of the event handlers below,
        each of which needs one of the two, can fire. */
    lemma TerminalPhasesAreFinal()
      requires Valid() && (state.Ready? || state.Error?)
      ensures !inFlight && polling.None?
    {
    }

    constructor ()
      ensures Valid()
      ensures state == Idle && !inFlight && polling.None?
    {
      state := Idle;
      inFlight := false;
      polling := None;
    }

    /** `uploadFile(file)`, offered only while idle: an invalid file moves
        to error with the check's message and nothing is sent; a valid one
        moves to uploading at 0% and the request goes out. */
    method UploadFile(file: FileInfo)
      requires Valid() && state.Idle?
      modifies this`state, this`inFlight
      ensures Valid() && Step(old(state), state)
      ensures ValidateFile(file).Some? ==> state == Error(ValidateFile(file).value) && !inFlight
      ensures ValidateFile(file).None? ==> state == Uploading(0) && inFlight
    {
      var err := ValidateFile(file);
      if err.Some? {
        state := Error(err.value);
        return;
      }
      state := Uploading(0);
      inFlight := true;
    }

    /** The request's `progress` event: a computable length shows the new
        percentage, computed by the browser as `pct`. */
    method OnProgress(lengthComputable: bool, pct: int)
      requires Valid() && inFlight
      modifies this`state
      ensures Valid() && Step(old(state), state)
      ensures state == if lengthComputable then Uploading(pct) else old(state)
    {
      if lengthComputable {
        state := Uploading(pct);
      }
    }

    /** The request's `load` event. A 2xx status whose body parses moves to
        processing and starts polling the returned id (the text "undefined"
        when it is missing); a 2xx body that does not parse throws before
        any change, leaving the phase at uploading. Any other status moves
        to error with the body's message. */
    method OnLoad(status: int, body: UploadBody)
      requires Valid() && inFlight
      modifies this`state, this`inFlight, this`polling
      ensures Valid() && Step(old(state), state) && !inFlight
      ensures 200 <= status < 300 && body.Unparsable? ==> state == old(state) && polling.None?
      ensures 200 <= status < 300 && body.UploadJson? ==>
                state == Processing && polling == Some(body.videoId.GetOr(UndefinedText))
      ensures !(200 <= status < 300) ==> state == Error(UploadErrorMessage(body)) && polling.None?
    {
      inFlight := false;
      if 200 <= status < 300 {
        if body.Unparsable? {
          return;
        }
        state := Processing;
        polling := Some(body.videoId.GetOr(UndefinedText));
      } else {
        state := Error(UploadErrorMessage(body));
      }
    }

    /** The request's `error` event. */
    method OnNetworkError()
      requires Valid() && inFlight
      modifies this`state, this`inFlight
      ensures Valid() && Step(old(state), state) && !inFlight
      ensures state == Error(NetworkErrorMessage)
    {
      inFlight := false;
      state := Error(NetworkErrorMessage);
    }

    /** One tick of the status interval. Status "ready" with a truthy
        `hlsUrl` stops the poll and moves to ready, the download link
        defaulting when absent; status "error" stops it with "Transcoding
        failed"; a failed fetch or parse stops it with "Failed to fetch
        status"; anything else leaves everything as it was. */
    method OnPollTick(reply: StatusReply)
      requires Valid() && polling.Some?
      modifies this`state, this`polling
      ensures Valid() && Step(old(state), state)
      ensures var id := old(polling).value;
        match reply
        case FetchFailed => state == Error(FetchFailedMessage) && polling.None?
        case StatusJson(status, hlsUrl, thumbUrl, downloadUrl) =>
          if status == "ready" && Truthy(hlsUrl) then
            state == Ready(id, hlsUrl.value, thumbUrl, downloadUrl.GetOr(DefaultDownloadUrl(id)))
            && polling.None?
          else if status == "error" then
            state == Error(TranscodingFailedMessage) && polling.None?
          else
            state == old(state) && polling == old(polling)
    {
      var id := polling.value;
      match reply
      case FetchFailed =>
        polling := None;
        state := Error(FetchFailedMessage);
      case StatusJson(status, hlsUrl, thumbUrl, downloadUrl) =>
        if status == "ready" && Truthy(hlsUrl) {
          polling := None;
          state := Ready(id, hlsUrl.value, thumbUrl, downloadUrl.GetOr(DefaultDownloadUrl(id)));
        } else if status == "error" {
          polling := None;
          state := Error(TranscodingFailedMessage);
        }
    }

    /** `reset`: back to idle from any phase. The widget offers it in the
        ready and error phases, where nothing is outstanding; called during
        an upload or a poll it would leave the request or the interval
        running. */
    method Reset()
      requires Valid()
      modifies this`state
      ensures state == Idle
      ensures old(!state.Uploading? && !state.Processing?) ==> Valid()
    {
      state := Idle;
    }
  }
}
