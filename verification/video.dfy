/** `VideoMetadata` of `video.py`: a MediaInfo parse, then a left fold over
    the parsed tracks that writes each track's fields into one dict.
    MediaInfo itself is not modelled: its outcome is an input, either a
    failure reason or the list of tracks, and a track is the map of the
    attributes it carries (an absent attribute reads as `None`, as
    pymediainfo's tracks answer). */
module Video {
  import opened Common
  import opened PyText
  import opened Values
  import Formatter

  /** The values pymediainfo puts into a track attribute. */
  type TrackValue = v: Value | v.VNone? || v.VInt? || v.VStr? witness VNone

  datatype Track = Track(attrs: map<string, TrackValue>)

  /** `track.<name>`: `None` for an attribute the track does not carry. */
  function Attr(t: Track, name: string): (v: TrackValue)
    ensures name !in t.attrs ==> v == VNone
  {
    if name in t.attrs then t.attrs[name] else VNone
  }

  /** What `MediaInfo.parse` does with the file: raise, or yield tracks. */
  datatype MediaParse = ParseFailed(reason: string) | Parsed(tracks: seq<Track>)

  const ParseErrorPrefix := "Error parsing video file: "
  const ExtractErrorPrefix := "Error extracting metadata: "

  /** `parse_video_file`: any parser failure is re-raised as a
      `ValueError` that names the parse step. */
  function ParseVideoFile(parse: MediaParse): (r: Result<seq<Track>, PyError>)
    ensures r.Err? <==> parse.ParseFailed?
    ensures parse.ParseFailed? ==> r.error == ValueError(ParseErrorPrefix + parse.reason)
    ensures parse.Parsed? ==> r.value == parse.tracks
  {
    match parse
    case ParseFailed(reason) => Err(ValueError(ParseErrorPrefix + reason))
    case Parsed(tracks) => Ok(tracks)
  }

  /* ---------- the formatter calls, on pymediainfo's value types ---------- */

  /** Message of the `TypeError` from `x < 1024` on a `str`. */
  const StrComparedToInt := "'<' not supported between instances of 'str' and 'int'"

  /** Message of the `TypeError` from `x / 1000` on a non-number. */
  function BadDivision(v: Value): string {
    "unsupported operand type(s) for /: '" + TypeName(v) + "' and 'int'"
  }

  /** `format_size(track.file_size)`. */
  function SizeOf(v: TrackValue): (r: Result<Value, PyError>)
    ensures r.Err? <==> v.VStr?
    ensures v.VInt? ==> r == Ok(Formatter.FormatSize(Some(v.i)))
  {
    match v
    case VNone => Ok(Formatter.FormatSize(None))
    case VInt(n) => Ok(Formatter.FormatSize(Some(n)))
    case VStr(_) => Err(TypeError(StrComparedToInt))
  }

  /** `format_bitrate(track.bit_rate)`. */
  function BitrateOf(v: TrackValue): (r: Result<Value, PyError>)
    ensures r.Err? <==> v.VStr?
    ensures v.VInt? ==> r == Ok(Formatter.FormatBitrate(Some(v.i)))
  {
    match v
    case VNone => Ok(Formatter.FormatBitrate(None))
    case VInt(n) => Ok(Formatter.FormatBitrate(Some(n)))
    case VStr(_) => Err(TypeError(StrComparedToInt))
  }

  /** `format_duration(track.duration / 1000)`: the division happens
      before the formatter's `None` guard, so a missing duration raises.
      The formatter renders whole seconds, and `int()` of the quotient
      truncates toward zero. */
  function DurationOf(v: TrackValue): (r: Result<Value, PyError>)
    ensures r.Ok? <==> v.VInt?
    ensures v.VInt? && v.i >= 0 ==> r == Ok(VStr(Formatter.FormatDuration(Some(v.i / 1000))))
    ensures r.Err? ==> r.error == TypeError(BadDivision(v))
  {
    match v
    case VInt(ms) => Ok(VStr(Formatter.FormatDuration(Some(Formatter.TruncDiv(ms, 1000)))))
    case _ => Err(TypeError(BadDivision(v)))
  }

  /** `format_framerate(track.frame_rate)`. */
  function FramerateOf(v: TrackValue): (r: Value)
    ensures v.VNone? ==> r == VStr(Formatter.Unknown)
    ensures v.VStr? ==> r == Formatter.FormatFramerate(Some(v.s))
    ensures v.VInt? ==> r == Formatter.FormatFramerate(Some(Show(v.i)))
  {
    match v
    case VNone => Formatter.FormatFramerate(None)
    case VStr(s) => Formatter.FormatFramerate(Some(s))
    case VInt(n) => Formatter.FormatFramerate(Some(Show(n)))
  }

  /** `format_samplerate(track.sampling_rate)`. */
  function SamplerateOf(v: TrackValue): (r: Result<Value, PyError>)
    ensures r.Err? <==> v.VStr?
    ensures v.VInt? ==> r == Ok(Formatter.FormatSamplerate(Some(v.i)))
  {
    match v
    case VNone => Ok(Formatter.FormatSamplerate(None))
    case VInt(n) => Ok(Formatter.FormatSamplerate(Some(n)))
    case VStr(_) => Err(TypeError(BadDivision(v)))
  }

  /** `format_gps(location)` for a present location, as the formatter is
      written: a `str` is split on '+' and must have exactly three parts,
      otherwise the unpacking raises `ValueError`; any other value has no
      `split`. */
  function LocationOf(v: TrackValue): (r: Result<Value, PyError>)
    requires !v.VNone?
    ensures v.VInt? ==> r == Err(AttributeError(NoAttribute(v, "split")))
    ensures v.VStr? ==> (r.Ok? <==> |Split(v.s, '+')| == 3)
    ensures v.VStr? && r.Ok? ==> r.value == VStr(Formatter.FormatGps(Some(v.s)).value)
    ensures v.VStr? && r.Err? ==> r.error == Formatter.FormatGps(Some(v.s)).error && r.error.ValueError?
  {
    match v
    case VInt(_) => Err(AttributeError(NoAttribute(v, "split")))
    case VStr(s) =>
      match Formatter.FormatGps(Some(s))
      case Err(e) => Err(e)
      case Ok(url) => Ok(VStr(url))
  }

  /** A QuickTime location with a positive latitude and an altitude loses
      its latitude in the video dict, as `format_gps` is written. */
  lemma LosAngelesLocation()
    ensures LocationOf(VStr("+34.0522-118.2437+089.000/"))
         == Ok(VStr(Formatter.MapsPrefix + ",34.0522-118.2437"))
  {
    Formatter.GpsLosAngelesExample();
  }

  /** A QuickTime location with a positive latitude and no altitude makes
      `format_gps` raise `ValueError`. */
  lemma NoAltitudeLocationRaises(rest: string)
    requires '+' !in rest
    ensures LocationOf(VStr("+" + rest)).Err? && LocationOf(VStr("+" + rest)).error.ValueError?
  {
    Formatter.GpsRejectsTwoComponents(rest);
  }

  /** `str(v)` inside an f-string. */
  function PyStr(v: TrackValue): (r: string)
    ensures v.VNone? ==> r == "None"
    ensures v.VStr? ==> r == v.s
  {
    match v
    case VNone => "None"
    case VInt(n) => Show(n)
    case VStr(s) => s
  }

  /* ---------- one track ---------- */

  const LocationAttr := "comapplequicktimelocationiso6709"

  predicate IsType(t: Track, name: string) {
    Attr(t, "track_type") == VStr(name)
  }

  predicate HasLocation(t: Track) {
    !Attr(t, LocationAttr).VNone?
  }

  const GeneralKeys: set<string> := {"Count", "File Size", "Format", "Duration"}
  const LocationKeys: set<string> := {
    "Creation Date", "Modification Date", "Writing Library", "Encoded Date",
    "Tagged Date", "Device Make", "Device Model", "Device Version", "Location"}
  const VideoKeys: set<string> := {
    "Video Format", "Video Format Info", "Format Profile", "Internet Media Type",
    "Video Codec", "Framerate", "Bit Depth", "Frame Count", "Stream Count", "Resolution"}
  const AudioKeys: set<string> := {
    "Audio Format Info", "Audio Codec", "Audio Bitrate", "Audio Channels",
    "Audio Sample Rate", "Compression Mode", "Audio Format"}

  /** The keys a track writes: the General block on its own, then exactly
      one of the location, Video and Audio blocks, tried in that order. */
  function KeysWritten(t: Track): set<string> {
    (if IsType(t, "General") then GeneralKeys else {}) + StreamKeys(t)
  }

  function GeneralFields(t: Track): (r: Result<Metadata, PyError>)
    ensures r.Ok? ==> r.value.Keys == GeneralKeys
    ensures r.Ok? ==> r.value["Count"] == Attr(t, "count") && r.value["Format"] == Attr(t, "format")
    ensures r.Err? <==> Attr(t, "file_size").VStr? || !Attr(t, "duration").VInt?
    ensures !Attr(t, "file_size").VStr? && !Attr(t, "duration").VInt? ==>
      r == Err(TypeError(BadDivision(Attr(t, "duration"))))
    ensures r.Err? ==> r.error.TypeError?
  {
    match SizeOf(Attr(t, "file_size"))
    case Err(e) => Err(e)
    case Ok(size) =>
      match DurationOf(Attr(t, "duration"))
      case Err(e) => Err(e)
      case Ok(duration) =>
        Ok(map["Count" := Attr(t, "count"), "File Size" := size,
               "Format" := Attr(t, "format"), "Duration" := duration])
  }

  /** The location block's dict, given the formatted location. */
  function LocationRecord(t: Track, location: Value): (r: Metadata)
    ensures r.Keys == LocationKeys
    ensures r["Location"] == location
  {
    var created: Value := Attr(t, "file_creation_date");
    var modified: Value := Attr(t, "file_last_modification_date");
    var library: Value := Attr(t, "writing_library");
    var encoded: Value := Attr(t, "encoded_date");
    var tagged: Value := Attr(t, "tagged_date");
    var make: Value := Attr(t, "comapplequicktimemake");
    var model: Value := Attr(t, "comapplequicktimemodel");
    var version: Value := Attr(t, "comapplequicktimesoftware");
    map["Creation Date" := created, "Modification Date" := modified,
        "Writing Library" := library, "Encoded Date" := encoded,
        "Tagged Date" := tagged, "Device Make" := make,
        "Device Model" := model, "Device Version" := version,
        "Location" := location]
  }

  function LocationFields(t: Track): (r: Result<Metadata, PyError>)
    requires HasLocation(t)
    ensures r.Ok? <==> LocationOf(Attr(t, LocationAttr)).Ok?
    ensures r.Ok? ==> r.value == LocationRecord(t, LocationOf(Attr(t, LocationAttr)).value)
    ensures r.Err? ==> r.error == LocationOf(Attr(t, LocationAttr)).error
  {
    match LocationOf(Attr(t, LocationAttr))
    case Err(e) => Err(e)
    case Ok(url) => Ok(LocationRecord(t, url))
  }

  /** The Video block's dict, given the formatted frame rate and the
      rendered resolution. */
  function VideoRecord(t: Track, framerate: Value, resolution: Value): (r: Metadata)
    ensures r.Keys == VideoKeys
    ensures r["Resolution"] == resolution
  {
    var format: Value := Attr(t, "format");
    var info: Value := Attr(t, "format_info");
    var profile: Value := Attr(t, "format_profile");
    var mediaType: Value := Attr(t, "internet_media_type");
    var codec: Value := Attr(t, "codec_id");
    var depth: Value := Attr(t, "bit_depth");
    var frames: Value := Attr(t, "frame_count");
    var streams: Value := Attr(t, "stream_count");
    map["Video Format" := format, "Video Format Info" := info,
        "Format Profile" := profile, "Internet Media Type" := mediaType,
        "Video Codec" := codec, "Framerate" := framerate,
        "Bit Depth" := depth, "Frame Count" := frames,
        "Stream Count" := streams, "Resolution" := resolution]
  }

  function VideoFields(t: Track): (r: Metadata)
    ensures r.Keys == VideoKeys
    ensures r["Resolution"] == VStr(PyStr(Attr(t, "sampled_width")) + "x" + PyStr(Attr(t, "sampled_height")))
  {
    var resolution := VStr(PyStr(Attr(t, "sampled_width")) + "x" + PyStr(Attr(t, "sampled_height")));
    VideoRecord(t, FramerateOf(Attr(t, "frame_rate")), resolution)
  }

  /** The Audio block's dict, given the formatted rates. */
  function AudioRecord(t: Track, bitrate: Value, samplerate: Value): (r: Metadata)
    ensures r.Keys == AudioKeys
    ensures r["Audio Format"] == Attr(t, "format")
  {
    var info: Value := Attr(t, "format_info");
    var codec: Value := Attr(t, "codec_id");
    var channels: Value := Attr(t, "channel_s");
    var compression: Value := Attr(t, "compression_mode");
    var format: Value := Attr(t, "format");
    map["Audio Format Info" := info, "Audio Codec" := codec,
        "Audio Bitrate" := bitrate, "Audio Channels" := channels,
        "Audio Sample Rate" := samplerate, "Compression Mode" := compression,
        "Audio Format" := format]
  }


  function AudioFields(t: Track): (r: Result<Metadata, PyError>)
    ensures r.Ok? ==> r.value.Keys == AudioKeys
    ensures r.Ok? ==> r.value["Audio Format"] == Attr(t, "format")
    ensures r.Err? <==> Attr(t, "bit_rate").VStr? || Attr(t, "sampling_rate").VStr?
    ensures r.Err? ==> r.error.TypeError?
  {
    match BitrateOf(Attr(t, "bit_rate"))
    case Err(e) => Err(e)
    case Ok(bitrate) =>
      match SamplerateOf(Attr(t, "sampling_rate"))
      case Err(e) => Err(e)
      case Ok(samplerate) => Ok(AudioRecord(t, bitrate, samplerate))
  }

  /** The keys the location-or-Video-or-Audio chain writes. */
  function StreamKeys(t: Track): set<string> {
    if HasLocation(t) then LocationKeys
    else if IsType(t, "Video") then VideoKeys
    else if IsType(t, "Audio") then AudioKeys
    else {}
  }

  /** The `if`/`elif`/`elif` chain of one iteration (video.py:32-63). */
  function StreamFields(t: Track): (r: Result<Metadata, PyError>)
    ensures r.Ok? ==> r.value.Keys == StreamKeys(t)
    ensures r.Err? && r.error.AttributeError? ==> Attr(t, LocationAttr).VInt?
  {
    if HasLocation(t) then LocationFields(t)
    else if IsType(t, "Video") then Ok(VideoFields(t))
    else if IsType(t, "Audio") then AudioFields(t)
    else Ok(map[])
  }

  /** The fields one iteration of the track loop writes (video.py:27-63),
      or the exception it raises. */
  function Writes(t: Track): (r: Result<Metadata, PyError>)
    ensures r.Ok? ==> r.value.Keys == KeysWritten(t)
    ensures r.Err? && r.error.AttributeError? ==> Attr(t, LocationAttr).VInt?
  {
    var general: Result<Metadata, PyError> :=
      if IsType(t, "General") then GeneralFields(t) else Ok(map[]);
    match general
    case Err(e) => Err(e)
    case Ok(g) =>
      match StreamFields(t)
      case Err(e) => Err(e)
      case Ok(w) => Ok(g + w)
  }

  /** The two type errors of a track iteration the source leaves to the
      caller: a General track without a duration fails on `None / 1000`,
      and a non-General track whose location is a number fails on
      `split`, which is an `AttributeError`. */
  lemma WritesRaises(t: Track)
    ensures IsType(t, "General") && !Attr(t, "file_size").VStr? && Attr(t, "duration").VNone? ==>
      Writes(t) == Err(TypeError(BadDivision(VNone)))
    ensures HasLocation(t) && Attr(t, LocationAttr).VInt? && !IsType(t, "General") ==>
      Writes(t) == Err(AttributeError(NoAttribute(Attr(t, LocationAttr), "split")))
  {
  }

  /** A track that carries a location never writes Video or Audio fields,
      whatever its type: the Video and Audio tests are `elif`s of the
      location test. */
  lemma LocationTrackWritesNoStreamKeys(t: Track)
    requires HasLocation(t)
    ensures Writes(t).Ok? ==> Writes(t).value.Keys !! (VideoKeys + AudioKeys)
  {
    KeyGroupsDisjoint();
    assert KeysWritten(t) <= GeneralKeys + LocationKeys;
  }

  /** The General and location blocks share no key with the Video and
      Audio blocks. */
  lemma KeyGroupsDisjoint()
    ensures GeneralKeys !! VideoKeys && GeneralKeys !! AudioKeys
    ensures LocationKeys !! VideoKeys && LocationKeys !! AudioKeys
  {
  }

  /* ---------- the track loop ---------- */

  /** The loop of `extract_metadata` from the dict `m` on: each track's
      fields overwrite what earlier tracks wrote; the first exception ends
      the loop. */
  function DeriveFrom(m: Metadata, tracks: seq<Track>): (r: Result<Metadata, PyError>)
    decreases |tracks|
  {
    if tracks == [] then Ok(m)
    else
      match Writes(tracks[0])
      case Err(e) => Err(e)
      case Ok(w) => DeriveFrom(m + w, tracks[1..])
  }

  /** `extract_metadata(media_info)`: the loop from `{}`, with an
      `AttributeError` re-raised as a `ValueError` naming the step; every
      other exception passes through unchanged. */
  function ExtractMetadata(tracks: seq<Track>): (r: Result<Metadata, PyError>)
    ensures tracks == [] ==> r == Ok(map[])
    ensures r.Err? ==> !r.error.AttributeError?
    ensures DeriveFrom(map[], tracks).Err? && DeriveFrom(map[], tracks).error.AttributeError? ==>
      r == Err(ValueError(ExtractErrorPrefix + DeriveFrom(map[], tracks).error.msg))
    ensures !(DeriveFrom(map[], tracks).Err? && DeriveFrom(map[], tracks).error.AttributeError?) ==>
      r == DeriveFrom(map[], tracks)
  {
    match DeriveFrom(map[], tracks)
    case Err(AttributeError(msg)) => Err(ValueError(ExtractErrorPrefix + msg))
    case other => other
  }

  /** Both steps: parse, then derive. */
  function Extract(parse: MediaParse): (r: Result<Metadata, PyError>)
    ensures parse.ParseFailed? ==> r == Err(ValueError(ParseErrorPrefix + parse.reason))
    ensures parse.Parsed? ==> r == ExtractMetadata(parse.tracks)
  {
    match ParseVideoFile(parse)
    case Err(e) => Err(e)
    case Ok(tracks) => ExtractMetadata(tracks)
  }

  /* ---------- the fold against a last-writer reference ---------- */

  /** Every track's iteration completes without raising. */
  predicate AllWrite(tracks: seq<Track>) {
    forall i :: 0 <= i < |tracks| ==> Writes(tracks[i]).Ok?
  }

  /** Reference: the value the LAST track writing `k` wrote, if any. */
  function LastWrite(tracks: seq<Track>, k: string): Option<Value>
    requires AllWrite(tracks)
    decreases |tracks|
  {
    if tracks == [] then None
    else
      var w := Writes(tracks[|tracks| - 1]).value;
      if k in w then Some(w[k]) else LastWrite(tracks[..|tracks| - 1], k)
  }

  lemma {:induction false} DeriveFromAppend(m: Metadata, tracks: seq<Track>, t: Track)
    ensures DeriveFrom(m, tracks + [t]) ==
      match DeriveFrom(m, tracks)
      case Err(e) => Err(e)
      case Ok(x) => DeriveFrom(x, [t])
    decreases |tracks|
  {
    if tracks == [] {
      assert tracks + [t] == [t];
    } else {
      assert (tracks + [t])[0] == tracks[0];
      assert (tracks + [t])[1..] == tracks[1..] + [t];
      match Writes(tracks[0])
      case Err(e) =>
      case Ok(w) => DeriveFromAppend(m + w, tracks[1..], t);
    }
  }

  /** When no track raises, the derived dict holds exactly the keys some
      track wrote, each with the value the last such track wrote. */
  lemma {:induction false} DeriveIsLastWrite(tracks: seq<Track>)
    requires AllWrite(tracks)
    ensures DeriveFrom(map[], tracks).Ok?
    ensures forall k :: k in DeriveFrom(map[], tracks).value <==> LastWrite(tracks, k).Some?
    ensures forall k :: k in DeriveFrom(map[], tracks).value ==>
      DeriveFrom(map[], tracks).value[k] == LastWrite(tracks, k).value
    decreases |tracks|
  {
    if tracks != [] {
      var front, t := tracks[..|tracks| - 1], tracks[|tracks| - 1];
      assert tracks == front + [t];
      assert AllWrite(front) by {
        forall i | 0 <= i < |front| ensures Writes(front[i]).Ok? {
          assert front[i] == tracks[i];
        }
      }
      assert Writes(t).Ok? by { assert t == tracks[|tracks| - 1]; }
      DeriveIsLastWrite(front);
      DeriveFromAppend(map[], front, t);
      var x := DeriveFrom(map[], front).value;
      assert DeriveFrom(x, [t]) == Ok(x + Writes(t).value) by {
        assert [t][0] == t && [t][1..] == [];
      }
      forall k ensures LastWrite(tracks, k) == (if k in Writes(t).value then Some(Writes(t).value[k]) else LastWrite(front, k)) {
      }
    }
  }

  /** When every track completes, the result is the last-writer dict;
      when some track raises, the result is an error. */
  lemma AllWriteIffOk(tracks: seq<Track>)
    ensures ExtractMetadata(tracks).Ok? <==> AllWrite(tracks)
    ensures AllWrite(tracks) ==>
      forall k :: (k in ExtractMetadata(tracks).value <==> LastWrite(tracks, k).Some?)
    ensures AllWrite(tracks) ==>
      forall k :: k in ExtractMetadata(tracks).value ==> LastWrite(tracks, k) == Some(ExtractMetadata(tracks).value[k])
  {
    if AllWrite(tracks) {
      DeriveIsLastWrite(tracks);
    } else {
      var i :| 0 <= i < |tracks| && Writes(tracks[i]).Err?;
      DeriveFailsAt(map[], tracks, i);
    }
  }

  lemma {:induction false} DeriveFailsAt(m: Metadata, tracks: seq<Track>, i: nat)
    requires i < |tracks| && Writes(tracks[i]).Err?
    ensures DeriveFrom(m, tracks).Err?
    decreases |tracks|
  {
    match Writes(tracks[0])
    case Err(e) =>
    case Ok(w) =>
      assert i > 0;
      assert tracks[1..][i - 1] == tracks[i];
      DeriveFailsAt(m + w, tracks[1..], i - 1);
  }

  /** Two Audio tracks without a location: the second one's fields are
      the ones reported. */
  lemma LastAudioTrackWins(a1: Track, a2: Track)
    requires IsType(a1, "Audio") && IsType(a2, "Audio")
    requires !HasLocation(a1) && !HasLocation(a2)
    requires Writes(a1).Ok? && Writes(a2).Ok?
    ensures ExtractMetadata([a1, a2]).Ok? && "Audio Format" in ExtractMetadata([a1, a2]).value
    ensures ExtractMetadata([a1, a2]).value["Audio Format"] == Attr(a2, "format")
  {
    var tracks := [a1, a2];
    assert AllWrite(tracks);
    DeriveIsLastWrite(tracks);
    assert "Audio Format" in AudioKeys;
    assert "Audio Format" in Writes(a2).value;
    assert LastWrite(tracks, "Audio Format") == Some(Writes(a2).value["Audio Format"]);
  }
}
