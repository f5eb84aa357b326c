/** The transcoder: one uploaded video becomes one HLS playlist
    (`hls/{id}/index.m3u8`), a thumbnail and three metadata columns.
    ffmpeg, ffprobe and the thumbnail grab are outside the model: their
    outcomes arrive as an `Environment`. */
module Ffmpeg {
  import opened Wrappers
  import opened JsString
  import opened Schema

  // ---------------------------------------------------------------- codec

  const SoftwareCodec := "libx264"

  /** `getVideoCodec()`: a hardware H.264 encoder on darwin and linux, the
      software encoder everywhere else. */
  function VideoCodec(platform: string): (codec: string)
    ensures codec == SoftwareCodec <==> platform != "darwin" && platform != "linux"
    ensures platform == "darwin" ==> codec == "h264_videotoolbox"
    ensures platform == "linux" ==> codec == "h264_vaapi"
  {
    if platform == "darwin" then "h264_videotoolbox"
    else if platform == "linux" then "h264_vaapi"
    else SoftwareCodec
  }

  // ---------------------------------------------------------------- probe

  /** One entry of ffprobe's `streams`. */
  datatype Stream = Stream(codecType: Option<string>, width: Option<int>, height: Option<int>)

  /** What `ffmpeg.ffprobe` hands its callback: an error, or the streams
      and the container's `format.duration`. */
  datatype ProbeOutput =
    | ProbeFailure(message: string)
    | ProbeData(streams: seq<Stream>, formatDuration: Option<real>)

  datatype VideoMetadata = VideoMetadata(duration: real, width: int, height: int)

  predicate IsVideo(s: Stream) {
    s.codecType == Some("video")
  }

  /** `streams.find(s => s.codec_type === "video")`, as an index. */
  function FirstVideoStream(streams: seq<Stream>): (r: Option<nat>)
    ensures r.Some? ==> r.value < |streams| && IsVideo(streams[r.value])
    ensures r.Some? ==> forall j | 0 <= j < r.value :: !IsVideo(streams[j])
    ensures r.None? ==> forall j | 0 <= j < |streams| :: !IsVideo(streams[j])
  {
    if streams == [] then None
    else if IsVideo(streams[0]) then Some(0)
    else match FirstVideoStream(streams[1..])
      case Some(j) => Some(j + 1)
      case None => None
  }

  /** `getMeta`: a probe error rejects with that error; otherwise the
      duration defaults to 0, and width and height come from the first
      video stream, 0 when it has none or there is no such stream. */
  function GetMeta(probe: ProbeOutput): (r: Result<VideoMetadata, string>)
    ensures probe.ProbeFailure? <==> r.Err?
    ensures probe.ProbeFailure? ==> r.error == probe.message
    ensures probe.ProbeData? ==> r.value.duration == probe.formatDuration.GetOr(0.0)
    ensures probe.ProbeData? && (forall s | s in probe.streams :: !IsVideo(s)) ==>
              r.value.width == 0 && r.value.height == 0
    ensures probe.ProbeData? ==>
              forall i | 0 <= i < |probe.streams| && IsVideo(probe.streams[i])
                         && (forall j | 0 <= j < i :: !IsVideo(probe.streams[j])) ::
                r.value.width == probe.streams[i].width.GetOr(0)
                && r.value.height == probe.streams[i].height.GetOr(0)
  {
    match probe
    case ProbeFailure(message) => Err(message)
    case ProbeData(streams, formatDuration) =>
      var duration := formatDuration.GetOr(0.0);
      match FirstVideoStream(streams)
      case None => Ok(VideoMetadata(duration, 0, 0))
      case Some(k) =>
        Ok(VideoMetadata(duration, streams[k].width.GetOr(0), streams[k].height.GetOr(0)))
  }

  // ------------------------------------------------------ ffmpeg options

  /** The audio handling of one encode attempt; `NoAudio` is the source's "none". */
  datatype AudioMode = Normal | Copy | Filtered | Aggressive | NoAudio

  /** The order in which the modes are tried. */
  const FallbackOrder: seq<AudioMode> := [Normal, Copy, Filtered, Aggressive, NoAudio]

  /** Modes that re-encode the audio to 128k stereo AAC at 48 kHz. */
  predicate ReencodesAudio(mode: AudioMode) {
    mode != NoAudio && mode != Copy
  }

  /** The filter argument of the `filtered` mode: `-af` and a filter chain
      that forces a stereo layout and resamples; the chain's text is opaque. */
  const FilteredAudioFilter := "-af " + AudioFilterChain

  const AudioFilterChain: string

  /** The explicit filter graph and mapping the `aggressive` mode appends. */
  const AggressiveAudioGraph: seq<string> :=
    ["-filter_complex", "[0:a:0]pan=stereo|c0=c0|c1=c1[aout]", "-map", "0:v:0",
     "-map", "[aout]", "-c:a", "aac", "-b:a", "128k", "-ar", "48000"]

  /** The quality and speed options of the software encoder. */
  const SoftwareQualityOptions: seq<string> := ["-crf 28", "-preset superfast"]

  /** The audio codec option of a mode, followed by the re-encoding
      parameters when the mode re-encodes. */
  function AudioCodecOptions(mode: AudioMode): seq<string> {
    [if mode == NoAudio then "-an" else if mode == Copy then "-c:a copy" else "-c:a aac"]
    + (if ReencodesAudio(mode) then ["-b:a 128k", "-ac 2", "-ar 48000"] else [])
  }

  /** The options that make ffmpeg write 10-second HLS segments to
      `segmentPattern` with a playlist that keeps every segment, then the
      muxing, threading and overwrite options. */
  function HlsOptions(segmentPattern: string): seq<string> {
    ["-hls_time 10", "-hls_list_size 0", "-hls_segment_filename " + segmentPattern, "-f hls",
     "-max_muxing_queue_size 1024", "-threads 4", "-y"]
  }

  /** What the `filtered` and `aggressive` modes push after the list. */
  function AudioFilterOptions(mode: AudioMode): seq<string> {
    if mode == Filtered then [FilteredAudioFilter]
    else if mode == Aggressive then AggressiveAudioGraph
    else []
  }

  /** What is pushed last when the encoder is not hardware accelerated. */
  function QualityOptions(videoCodec: string): seq<string> {
    var isHardwareAccel := videoCodec != SoftwareCodec;
    if isHardwareAccel then [] else SoftwareQualityOptions
  }

  /** The whole output option list of one mode, as one expression. */
  function OutputOptionList(mode: AudioMode, videoCodec: string, segmentPattern: string): seq<string> {
    ["-c:v " + videoCodec] + AudioCodecOptions(mode) + HlsOptions(segmentPattern)
    + AudioFilterOptions(mode) + QualityOptions(videoCodec)
  }

  /** The output options `runFfmpeg(mode)` passes to ffmpeg: the array
      literal, then the pushes for the filter modes and the software codec. */
  method OutputOptions(mode: AudioMode, videoCodec: string, segmentPattern: string)
    returns (opts: seq<string>)
    ensures opts == OutputOptionList(mode, videoCodec, segmentPattern)
    ensures |opts| > 0 && opts[0] == "-c:v " + videoCodec
    ensures ("-an" in opts) <==> mode == NoAudio
    ensures ("-c:a copy" in opts) <==> mode == Copy
    ensures ("-c:a aac" in opts) <==> ReencodesAudio(mode)
    ensures ("-b:a 128k" in opts) <==> ReencodesAudio(mode)
    ensures ("-ac 2" in opts) <==> ReencodesAudio(mode)
    ensures ("-ar 48000" in opts) <==> ReencodesAudio(mode)
    ensures "-hls_time 10" in opts && "-hls_list_size 0" in opts && "-f hls" in opts
    ensures "-hls_segment_filename " + segmentPattern in opts
    ensures "-max_muxing_queue_size 1024" in opts && "-threads 4" in opts && "-y" in opts
    ensures (FilteredAudioFilter in opts) <==> mode == Filtered
    ensures ("-filter_complex" in opts) <==> mode == Aggressive
    ensures ("-crf 28" in opts) <==> videoCodec == SoftwareCodec
    ensures ("-preset superfast" in opts) <==> videoCodec == SoftwareCodec
  {
    opts := ["-c:v " + videoCodec] + AudioCodecOptions(mode) + HlsOptions(segmentPattern);
    ghost var literal := opts;
    if mode == Filtered {
      opts := opts + [FilteredAudioFilter];
    } else if mode == Aggressive {
      opts := opts + AggressiveAudioGraph;
    }
    assert opts == literal + AudioFilterOptions(mode);
    var isHardwareAccel := videoCodec != SoftwareCodec;
    if !isHardwareAccel {
      opts := opts + SoftwareQualityOptions;
    }
    assert opts == literal + AudioFilterOptions(mode) + QualityOptions(videoCodec);
    OutputAlwaysHolds(mode, videoCodec, segmentPattern);
    OutputNoAudioFlag(mode, videoCodec, segmentPattern);
    OutputCopyFlag(mode, videoCodec, segmentPattern);
    OutputAacFlag(mode, videoCodec, segmentPattern);
    OutputBitrateFlag(mode, videoCodec, segmentPattern);
    OutputChannelsFlag(mode, videoCodec, segmentPattern);
    OutputRateFlag(mode, videoCodec, segmentPattern);
    OutputFilterFlag(mode, videoCodec, segmentPattern);
    OutputGraphFlag(mode, videoCodec, segmentPattern);
    OutputCrfFlag(mode, videoCodec, segmentPattern);
    OutputPresetFlag(mode, videoCodec, segmentPattern);
  }

  /** Every list starts with the codec option and holds the HLS options. */
  lemma OutputAlwaysHolds(mode: AudioMode, videoCodec: string, segmentPattern: string)
    ensures var opts := OutputOptionList(mode, videoCodec, segmentPattern);
      && |opts| > 0 && opts[0] == "-c:v " + videoCodec
      && "-hls_time 10" in opts && "-hls_list_size 0" in opts && "-f hls" in opts
      && "-hls_segment_filename " + segmentPattern in opts
      && "-max_muxing_queue_size 1024" in opts && "-threads 4" in opts && "-y" in opts
  {
    var hls := HlsOptions(segmentPattern);
    assert hls[0] == "-hls_time 10" && hls[1] == "-hls_list_size 0" && hls[3] == "-f hls";
    assert hls[2] == "-hls_segment_filename " + segmentPattern;
    assert hls[4] == "-max_muxing_queue_size 1024" && hls[5] == "-threads 4" && hls[6] == "-y";
  }

  /** A literal option whose second to fourth characters differ from those
      of the codec, segment and filter options is in the output list exactly
      when one of the literal pieces holds it. */
  lemma LiteralInOutput(x: string, mode: AudioMode, videoCodec: string, segmentPattern: string)
    requires 3 <= |x| && x[1] != 'h' && (x[1] != 'a' || x[2] != 'f')
    requires x[1] == 'c' ==> 4 <= |x| && x[3] != 'v'
    ensures x in OutputOptionList(mode, videoCodec, segmentPattern) <==>
      (x in AudioCodecOptions(mode) || x in HlsOptions(segmentPattern)
       || (mode == Aggressive && x in AggressiveAudioGraph) || x in QualityOptions(videoCodec))
  {
    var codecEntry := "-c:v " + videoCodec;
    assert codecEntry[1] == 'c' && codecEntry[3] == 'v';
    assert x != codecEntry;
    assert FilteredAudioFilter[1] == 'a' && FilteredAudioFilter[2] == 'f';
    assert x != FilteredAudioFilter;
    var opts := OutputOptionList(mode, videoCodec, segmentPattern);
    assert opts == [codecEntry] + AudioCodecOptions(mode) + HlsOptions(segmentPattern)
      + AudioFilterOptions(mode) + QualityOptions(videoCodec);
  }

  /** The `-af` entry is neither the codec entry nor any entry of the
      codec, HLS, graph or quality pieces. */
  lemma FilterNotElsewhere(mode: AudioMode, videoCodec: string, segmentPattern: string)
    ensures FilteredAudioFilter !in AudioCodecOptions(mode) + HlsOptions(segmentPattern) + QualityOptions(videoCodec)
    ensures FilteredAudioFilter != "-c:v " + videoCodec && FilteredAudioFilter !in AggressiveAudioGraph
  {
    FilterHead();
    var codecEntry := "-c:v " + videoCodec;
    assert codecEntry[1] == 'c';
    FilterNotInHls(segmentPattern);
  }

  lemma FilterHead()
    ensures FilteredAudioFilter[1] == 'a' && FilteredAudioFilter[2] == 'f'
  {
  }

  lemma FilterNotInHls(segmentPattern: string)
    ensures FilteredAudioFilter !in HlsOptions(segmentPattern)
  {
    FilterHead();
    var segEntry := "-hls_segment_filename " + segmentPattern;
    assert segEntry[1] == 'h';
  }

  lemma OutputNoAudioFlag(mode: AudioMode, videoCodec: string, segmentPattern: string)
    ensures ("-an" in OutputOptionList(mode, videoCodec, segmentPattern)) <==> mode == NoAudio
  {
    LiteralInOutput("-an", mode, videoCodec, segmentPattern);
  }

  lemma OutputCopyFlag(mode: AudioMode, videoCodec: string, segmentPattern: string)
    ensures ("-c:a copy" in OutputOptionList(mode, videoCodec, segmentPattern)) <==> mode == Copy
  {
    LiteralInOutput("-c:a copy", mode, videoCodec, segmentPattern);
  }

  lemma OutputAacFlag(mode: AudioMode, videoCodec: string, segmentPattern: string)
    ensures ("-c:a aac" in OutputOptionList(mode, videoCodec, segmentPattern)) <==> ReencodesAudio(mode)
  {
    LiteralInOutput("-c:a aac", mode, videoCodec, segmentPattern);
  }

  lemma OutputBitrateFlag(mode: AudioMode, videoCodec: string, segmentPattern: string)
    ensures ("-b:a 128k" in OutputOptionList(mode, videoCodec, segmentPattern)) <==> ReencodesAudio(mode)
  {
    LiteralInOutput("-b:a 128k", mode, videoCodec, segmentPattern);
  }

  lemma OutputChannelsFlag(mode: AudioMode, videoCodec: string, segmentPattern: string)
    ensures ("-ac 2" in OutputOptionList(mode, videoCodec, segmentPattern)) <==> ReencodesAudio(mode)
  {
    LiteralInOutput("-ac 2", mode, videoCodec, segmentPattern);
  }

  lemma OutputRateFlag(mode: AudioMode, videoCodec: string, segmentPattern: string)
    ensures ("-ar 48000" in OutputOptionList(mode, videoCodec, segmentPattern)) <==> ReencodesAudio(mode)
  {
    LiteralInOutput("-ar 48000", mode, videoCodec, segmentPattern);
  }

  lemma OutputFilterFlag(mode: AudioMode, videoCodec: string, segmentPattern: string)
    ensures (FilteredAudioFilter in OutputOptionList(mode, videoCodec, segmentPattern)) <==> mode == Filtered
  {
    FilterNotElsewhere(mode, videoCodec, segmentPattern);
    var opts := OutputOptionList(mode, videoCodec, segmentPattern);
    assert opts == ["-c:v " + videoCodec] + (AudioCodecOptions(mode) + HlsOptions(segmentPattern))
      + AudioFilterOptions(mode) + QualityOptions(videoCodec);
  }

  lemma OutputGraphFlag(mode: AudioMode, videoCodec: string, segmentPattern: string)
    ensures ("-filter_complex" in OutputOptionList(mode, videoCodec, segmentPattern)) <==> mode == Aggressive
  {
    LiteralInOutput("-filter_complex", mode, videoCodec, segmentPattern);
  }

  lemma OutputCrfFlag(mode: AudioMode, videoCodec: string, segmentPattern: string)
    ensures ("-crf 28" in OutputOptionList(mode, videoCodec, segmentPattern)) <==> videoCodec == SoftwareCodec
  {
    LiteralInOutput("-crf 28", mode, videoCodec, segmentPattern);
  }

  lemma OutputPresetFlag(mode: AudioMode, videoCodec: string, segmentPattern: string)
    ensures ("-preset superfast" in OutputOptionList(mode, videoCodec, segmentPattern)) <==> videoCodec == SoftwareCodec
  {
    LiteralInOutput("-preset superfast", mode, videoCodec, segmentPattern);
  }

  const DiscardCorrupt := "-fflags +discardcorrupt"
  const DiscardCorruptGenPts := "-fflags +discardcorrupt+genpts"

  /** The input options `runFfmpeg(mode)` passes to ffmpeg. */
  method InputOptions(mode: AudioMode) returns (opts: seq<string>)
    ensures opts == [] <==> mode == NoAudio
    ensures mode != NoAudio ==> StartsWith(opts[0], DiscardCorrupt)
    ensures mode == Copy ==> opts == [DiscardCorrupt]
    ensures mode == Normal ==> opts == [DiscardCorruptGenPts]
    ensures mode == Filtered ==> opts == [DiscardCorruptGenPts, "-err_detect ignore_err"]
    ensures mode == Aggressive ==>
      opts == ["-fflags +discardcorrupt+genpts+igndts+nofillin",
               "-err_detect ignore_err+ignore_defer+ignore_decode",
               "-copyts",
               "-start_at_zero"]
    ensures ("-copyts" in opts) <==> mode == Aggressive
    ensures ("-start_at_zero" in opts) <==> mode == Aggressive
  {
    opts := [];
    if mode == Normal {
      opts := [DiscardCorruptGenPts];
    } else if mode == Filtered {
      opts := [DiscardCorruptGenPts, "-err_detect ignore_err"];
    } else if mode == Aggressive {
      opts := ["-fflags +discardcorrupt+genpts+igndts+nofillin",
               "-err_detect ignore_err+ignore_defer+ignore_decode",
               "-copyts",
               "-start_at_zero"];
    } else if mode == Copy {
      opts := [DiscardCorrupt];
    }
  }

  // ------------------------------------------------------------- cascade

  /** The modes the nested try/catch runs, given which of them ffmpeg
      completes: each in turn, stopping after the first that succeeds. */
  function Cascade(modes: seq<AudioMode>, encode: AudioMode -> bool): seq<AudioMode>
  {
    if modes == [] then []
    else if encode(modes[0]) then [modes[0]]
    else [modes[0]] + Cascade(modes[1..], encode)
  }

  /** The last attempt of a cascade succeeded. */
  predicate Succeeded(attempted: seq<AudioMode>, encode: AudioMode -> bool) {
    attempted != [] && encode(attempted[|attempted| - 1])
  }

  /** The attempted modes are a prefix of the order, and at least one mode
      is attempted whenever there is one to attempt. */
  lemma {:induction false} CascadeIsPrefix(modes: seq<AudioMode>, encode: AudioMode -> bool)
    ensures Cascade(modes, encode) <= modes
    ensures modes != [] ==> Cascade(modes, encode) != []
  {
    if modes != [] && !encode(modes[0]) {
      CascadeIsPrefix(modes[1..], encode);
      assert modes == [modes[0]] + modes[1..];
    }
  }

  /** Every attempt but the last failed, and the cascade ends before the
      last mode only by succeeding: no mode runs after a success. */
  lemma {:induction false} CascadeStopsAtFirstSuccess(modes: seq<AudioMode>, encode: AudioMode -> bool)
    ensures forall i | 0 <= i < |Cascade(modes, encode)| - 1 :: !encode(Cascade(modes, encode)[i])
    ensures |Cascade(modes, encode)| < |modes| ==> Succeeded(Cascade(modes, encode), encode)
  {
    if modes != [] && !encode(modes[0]) {
      CascadeStopsAtFirstSuccess(modes[1..], encode);
      CascadeIsPrefix(modes[1..], encode);
      var rest := Cascade(modes[1..], encode);
      assert Cascade(modes, encode) == [modes[0]] + rest;
      forall i | 0 <= i < |Cascade(modes, encode)| - 1
        ensures !encode(Cascade(modes, encode)[i])
      {
        if i > 0 {
          assert Cascade(modes, encode)[i] == rest[i - 1];
        }
      }
    }
  }

  /** The cascade fails exactly when every mode fails, and then it has
      attempted all of them. */
  lemma {:induction false} CascadeFailsIffAllFail(modes: seq<AudioMode>, encode: AudioMode -> bool)
    ensures !Succeeded(Cascade(modes, encode), encode) <==> forall m | m in modes :: !encode(m)
    ensures !Succeeded(Cascade(modes, encode), encode) ==> Cascade(modes, encode) == modes
  {
    if modes != [] && !encode(modes[0]) {
      CascadeFailsIffAllFail(modes[1..], encode);
      var rest := Cascade(modes[1..], encode);
      assert Cascade(modes, encode) == [modes[0]] + rest;
      assert rest != [] ==> Cascade(modes, encode)[|Cascade(modes, encode)| - 1] == rest[|rest| - 1];
      assert forall m | m in modes :: m == modes[0] || m in modes[1..];
      assert modes == [modes[0]] + modes[1..];
    }
  }

  /** When normal and copy fail and filtered succeeds, exactly those three
      run: aggressive and none are never invoked. */
  lemma FilteredRescues(encode: AudioMode -> bool)
    requires !encode(Normal) && !encode(Copy) && encode(Filtered)
    ensures Cascade(FallbackOrder, encode) == [Normal, Copy, Filtered]
    ensures Succeeded(Cascade(FallbackOrder, encode), encode)
  {
    assert FallbackOrder[1..] == [Copy, Filtered, Aggressive, NoAudio];
    assert FallbackOrder[1..][1..] == [Filtered, Aggressive, NoAudio];
  }

  /** One step of the cascade: the mode at `i` is attempted, and the rest
      follow only if it fails. */
  lemma CascadeStep(modes: seq<AudioMode>, i: nat, encode: AudioMode -> bool)
    requires i < |modes|
    ensures Cascade(modes[i..], encode)
            == [modes[i]] + (if encode(modes[i]) then [] else Cascade(modes[i + 1..], encode))
  {
    assert modes[i..][1..] == modes[i + 1..];
  }

  /** A run of failures at the front is attempted in full before the
      cascade goes on with the rest. */
  lemma {:induction false} CascadeSkipsFailures(modes: seq<AudioMode>, i: nat, encode: AudioMode -> bool)
    requires i <= |modes|
    requires forall j | 0 <= j < i :: !encode(modes[j])
    ensures Cascade(modes, encode) == modes[..i] + Cascade(modes[i..], encode)
  {
    if i == 0 {
      assert modes[..0] == [] && modes[0..] == modes;
    } else {
      var rest := modes[1..];
      CascadeSkipsFailures(rest, i - 1, encode);
      assert rest[..i - 1] == modes[1..i] && rest[i - 1..] == modes[i..];
      assert modes[..i] == [modes[0]] + modes[1..i];
    }
  }

  /** The cascade as the source runs it: `modes` one after another,
      returning at the first that succeeds. */
  method RunCascade(modes: seq<AudioMode>, encode: AudioMode -> bool)
    returns (attempted: seq<AudioMode>, ok: bool)
    ensures attempted == Cascade(modes, encode)
    ensures ok <==> Succeeded(attempted, encode)
  {
    attempted := [];
    var i := 0;
    while i < |modes|
      invariant 0 <= i <= |modes|
      invariant attempted == modes[..i]
      invariant forall j | 0 <= j < i :: !encode(modes[j])
    {
      attempted := attempted + [modes[i]];
      if encode(modes[i]) {
        CascadeSkipsFailures(modes, i, encode);
        CascadeStep(modes, i, encode);
        return attempted, true;
      }
      assert attempted == modes[..i + 1];
      i := i + 1;
    }
    CascadeSkipsFailures(modes, i, encode);
    assert modes[i..] == [] && modes[..i] == modes;
    ok := false;
  }

  // --------------------------------------------------------- orchestration

  /** Everything outside the model that `transcodeToHLS` depends on: the
      ffmpeg binary found at start-up (or not), which audio
      modes ffmpeg completes, what ffprobe reports, whether the
      thumbnail grab completes, and the error the database raises, if it
      raises one, on the `ready` update and on the `error` update. */
  datatype Environment = Environment(
    ffmpegPath: Option<string>,
    encode: AudioMode -> bool,
    probe: ProbeOutput,
    thumbnailOk: bool,
    readyWriteFault: Option<string>,
    errorWriteFault: Option<string>)

  /** Why the promise of `transcodeToHLS` rejects. */
  datatype TranscodeError =
    | FfmpegNotFound
    | EncodeFailed(mode: AudioMode)
    | ProbeFailed(message: string)
    | ThumbnailFailed
    | DatabaseFailed(message: string)

  /** What a call of `transcodeToHLS` comes to: its promise resolves or
      rejects; or the call itself throws before returning a promise (the
      `error` update of the no-binary path failed); or the promise never
      settles, because the `error` update in the `catch` block threw and
      the rejection went to the unobserved promise of `executeTranscode`. */
  datatype Settlement =
    | Resolved
    | Rejected(cause: TranscodeError)
    | Threw(message: string)
    | NeverSettles(message: string)

  /** The `try` block of `transcodeToHLS` runs to `resolve()`: some mode
      encodes, the probe is read, the thumbnail is grabbed and the `ready`
      row is written. */
  predicate TrySucceeds(env: Environment) {
    && Succeeded(Cascade(FallbackOrder, env.encode), env.encode)
    && GetMeta(env.probe).Ok? && env.thumbnailOk && env.readyWriteFault.None?
  }

  /** `join("hls", videoId, "index.m3u8")` */
  function HlsPlaylistPath(videoId: string): (p: string)
    ensures StartsWith(p, "hls/") && EndsWith(p, "/index.m3u8")
    ensures |p| == 4 + |videoId| + 11 && p[4 .. |p| - 11] == videoId
  {
    "hls/" + videoId + "/index.m3u8"
  }

  /** `join("thumbs", `${videoId}.jpg`)` */
  function ThumbPath(videoId: string): (p: string)
    ensures StartsWith(p, "thumbs/") && EndsWith(p, ".jpg")
    ensures |p| == 7 + |videoId| + 4 && p[7 .. |p| - 4] == videoId
  {
    "thumbs/" + videoId + ".jpg"
  }

  /** `transcodeToHLS(videoId, rawPath)`: with no ffmpeg binary, mark the
      row `error` and reject before any encode; otherwise run the audio
      cascade, then probe, grab the thumbnail and write the `ready` row,
      and on any failure of these write only `status = error` and reject. */
  method TranscodeToHLS(server: Server, videoId: string, env: Environment)
    returns (attempted: seq<AudioMode>, settled: Settlement)
    requires server.Valid()
    modifies server`records
    ensures server.Valid()
    ensures env.ffmpegPath.None? ==>
      && attempted == []
      && settled == if env.errorWriteFault.Some? then Threw(env.errorWriteFault.value)
                    else Rejected(FfmpegNotFound)
    ensures env.ffmpegPath.Some? ==> attempted == Cascade(FallbackOrder, env.encode)
    ensures settled.Resolved? <==> env.ffmpegPath.Some? && TrySucceeds(env)
    ensures settled.NeverSettles? <==>
      env.ffmpegPath.Some? && !TrySucceeds(env) && env.errorWriteFault.Some?
    ensures settled == Rejected(EncodeFailed(NoAudio))
            <==> env.ffmpegPath.Some? && !Succeeded(attempted, env.encode)
                 && env.errorWriteFault.None?
    ensures settled.Rejected? && settled.cause.ProbeFailed?
            <==> env.ffmpegPath.Some? && Succeeded(attempted, env.encode)
                 && GetMeta(env.probe).Err? && env.errorWriteFault.None?
    ensures settled == Rejected(ThumbnailFailed)
            <==> env.ffmpegPath.Some? && Succeeded(attempted, env.encode)
                 && GetMeta(env.probe).Ok? && !env.thumbnailOk && env.errorWriteFault.None?
    ensures settled.Rejected? && settled.cause.DatabaseFailed?
            <==> env.ffmpegPath.Some? && Succeeded(attempted, env.encode)
                 && GetMeta(env.probe).Ok? && env.thumbnailOk
                 && env.readyWriteFault.Some? && env.errorWriteFault.None?
    ensures settled.Rejected? && settled.cause.ProbeFailed? ==>
              settled.cause.message == GetMeta(env.probe).error
    ensures settled.Rejected? && settled.cause.DatabaseFailed? ==>
              settled.cause.message == env.readyWriteFault.value
    ensures settled.NeverSettles? ==> settled.message == env.errorWriteFault.value
    ensures settled.Rejected? ==>
              server.records == UpdateWhere(old(server.records), videoId, StatusError)
    ensures settled.Resolved? ==>
              var meta := GetMeta(env.probe).value;
              server.records == UpdateWhere(old(server.records), videoId,
                StatusReady(HlsPlaylistPath(videoId), ThumbPath(videoId),
                            meta.duration, meta.width, meta.height))
    ensures settled.Threw? || settled.NeverSettles? ==> server.records == old(server.records)
    ensures videoId in old(server.records) && env.errorWriteFault.None? ==>
              server.records[videoId].status != Processing
  {
    if env.ffmpegPath.None? {
      var err := server.Update(videoId, StatusError, env.errorWriteFault);
      if err.Some? {
        return [], Threw(err.value);
      }
      return [], Rejected(FfmpegNotFound);
    }
    var ok;
    attempted, ok := RunCascade(FallbackOrder, env.encode);
    var failure: TranscodeError;
    if !ok {
      failure := EncodeFailed(NoAudio);
    } else {
      var meta := GetMeta(env.probe);
      if meta.Err? {
        failure := ProbeFailed(meta.error);
      } else if !env.thumbnailOk {
        failure := ThumbnailFailed;
      } else {
        var err := server.Update(videoId, StatusReady(HlsPlaylistPath(videoId), ThumbPath(videoId),
                                                      meta.value.duration, meta.value.width,
                                                      meta.value.height),
                                 env.readyWriteFault);
        if err.None? {
          return attempted, Resolved;
        }
        failure := DatabaseFailed(err.value);
      }
    }
    // the `catch` block
    var err := server.Update(videoId, StatusError, env.errorWriteFault);
    if err.Some? {
      return attempted, NeverSettles(err.value);
    }
    settled := Rejected(failure);
  }
}
