/** `PhotoMetadata.extract_metadata` of `photo.py`: EXIF tags read by
    exifread become a fixed-shape dict, and every failure becomes one of
    three sentinel returns instead of an exception. exifread itself is not
    modelled: its outcome is an input, the tag map it yields or the way it
    failed. An EXIF tag is a truthy object whose `str()` is its printable
    text and whose `values` are the parsed values, each given by its
    `str()` (a ratio prints as "n/d", or as "n" when d is 1). */
module Photo {
  import opened Common
  import opened PyText
  import opened Values
  import Formatter

  datatype Tag = Tag(printable: string, values: seq<string>)

  type Tags = map<string, Tag>

  /** How reading the photo went: `open` raised `IOError`, exifread raised
      `ExifReadError`, exifread raised anything else, or the tags were
      decoded; `fileSize` is what `os.path.getsize` returns, `None` when it
      raises `OSError` (the same class as `IOError`). The second `except`
      clause is taken to name an exception class that exists; otherwise
      evaluating it would raise instead of falling through to the catch-all. */
  datatype PhotoRead =
    | OpenFailed
    | ExifFailed
    | Crashed
    | Decoded(tags: Tags, fileSize: Option<int>)

  const FileError := "File Error"
  const MetadataNotAvailable := "Metadata Not Available"
  const GpsNotAvailable := "GPS Not Available"

  /* ---------- reading tags ---------- */

  /** `tags.get(name)` as a dict value: the tag object, or `None`. */
  function TagValue(tags: Tags, name: string): (v: Value)
    ensures v.VNone? <==> name !in tags
  {
    if name in tags then VObject("IfdTag", tags[name].printable) else VNone
  }

  /** `str(tags.get(name))` inside an f-string. */
  function TagText(tags: Tags, name: string): (s: string)
    ensures name !in tags ==> s == "None"
    ensures name in tags ==> s == tags[name].printable
  {
    if name in tags then tags[name].printable else "None"
  }

  /** What a formatter's `str(value)` sees for `tags.get(name)`: the
      printable text, or `None`. */
  function Printable(tags: Tags, name: string): (r: Option<string>)
    ensures r.None? <==> name !in tags
  {
    if name in tags then Some(tags[name].printable) else None
  }

  /** Result keys that hold a tag object unchanged, with their tag names
      (photo.py:20-26, 44-72). */
  const PlainTags: map<string, string> := map[
    "Camera Make" := "Image Make",
    "Camera Model" := "Image Model",
    "Date and Time" := "EXIF DateTimeOriginal",
    "Compression" := "Thumbnail Compression",
    "LensMake" := "EXIF LensMake",
    "LensModel" := "EXIF LensModel",
    "SceneType" := "EXIF SceneType",
    "SceneCaptureType" := "EXIF SceneCaptureType",
    "ISO" := "EXIF ISOSpeedRatings",
    "Exposure Program" := "EXIF ExposureProgram",
    "ExposureBiasValue" := "EXIF ExposureBiasValue",
    "ExposureMode" := "EXIF ExposureMode",
    "Thumbnail ResolutionUnit" := "Thumbnail ResolutionUnit",
    "Thumbnail JPEGInterchangeFormat" := "Thumbnail JPEGInterchangeFormat",
    "Thumbnail JPEGInterchangeFormatLength" := "Thumbnail JPEGInterchangeFormatLength",
    "FNumber" := "EXIF FNumber",
    "ExifVersion" := "EXIF ExifVersion",
    "OffsetTime" := "EXIF OffsetTime",
    "ComponentsConfiguration" := "EXIF ComponentsConfiguration",
    "MeteringMode" := "EXIF MeteringMode",
    "Flash" := "EXIF Flash",
    "FlashPixVersion" := "EXIF FlashPixVersion",
    "ColorSpace" := "EXIF ColorSpace",
    "SensingMethod" := "EXIF SensingMethod",
    "WhiteBalance" := "EXIF WhiteBalance",
    "FocalLengthIn35mmFilm" := "EXIF FocalLengthIn35mmFilm"]

  /** Result keys whose values pass through the formatter or an f-string. */
  const FormattedKeys: set<string> := {
    "File Size", "Resolution", "GPS Coordinates", "Exposure Time",
    "ShutterSpeedValue", "ApertureValue", "BrightnessValue", "FocalLength"}

  /** The fixed key set of every successful result. */
  function PhotoKeys(): set<string> {
    PlainTags.Keys + FormattedKeys
  }

  /** The plain part of the result: each key holds its tag or `None`. */
  function PlainFields(tags: Tags): (m: Metadata)
    ensures m.Keys == PlainTags.Keys
    ensures forall k :: k in m ==> m[k] == TagValue(tags, PlainTags[k])
  {
    map k | k in PlainTags :: TagValue(tags, PlainTags[k])
  }

  /* ---------- the derived fields ---------- */

  const Latitude := "GPS GPSLatitude"
  const LatitudeRef := "GPS GPSLatitudeRef"
  const Longitude := "GPS GPSLongitude"
  const LongitudeRef := "GPS GPSLongitudeRef"

  /** The GPS test of photo.py:33: all four tags present (a tag object is
      always truthy). */
  predicate HasGps(tags: Tags) {
    Latitude in tags && LatitudeRef in tags && Longitude in tags && LongitudeRef in tags
  }

  /** `"GPS Coordinates"`: two degree-minute texts when all four GPS tags
      are present, whose latitude and longitude must each carry exactly
      three values to unpack; otherwise the fixed "not available" text. */
  function GpsField(tags: Tags): (r: Result<Value, PyError>)
    ensures !HasGps(tags) ==> r == Ok(VStr(GpsNotAvailable))
    ensures HasGps(tags) ==>
      (r.Ok? <==> |tags[Latitude].values| == 3 && |tags[Longitude].values| == 3)
    ensures HasGps(tags) && r.Ok? ==> r.value.VComputed?
  {
    if !HasGps(tags) then Ok(VStr(GpsNotAvailable))
    else
      var lat, lon := tags[Latitude].values, tags[Longitude].values;
      if |lat| != 3 then Err(ValueError(Formatter.UnpackError(3, |lat|)))
      else if |lon| != 3 then Err(ValueError(Formatter.UnpackError(3, |lon|)))
      else
        var latText := Formatter.ConvertGps(Some(lat[0]), Some(lat[1]), Some(lat[2]), Some(tags[LatitudeRef].printable));
        var lonText := Formatter.ConvertGps(Some(lon[0]), Some(lon[1]), Some(lon[2]), Some(tags[LongitudeRef].printable));
        Ok(VComputed(latText.operands + lonText.operands, ", "))
  }

  const ExposureTime := "EXIF ExposureTime"

  /** `format_exposure_time(tags.get('EXIF ExposureTime').values[0])`: a
      missing tag is `None`, which has no `values`; a tag without values
      has no element 0. */
  function ExposureField(tags: Tags): (r: Result<Value, PyError>)
    ensures ExposureTime !in tags ==> r == Err(AttributeError(NoAttribute(VNone, "values")))
    ensures ExposureTime in tags && tags[ExposureTime].values == [] ==> r.Err? && r.error.IndexError?
    ensures ExposureTime in tags && tags[ExposureTime].values != [] ==>
      r == Formatter.FormatExposureTime(Some(tags[ExposureTime].values[0]))
  {
    if ExposureTime !in tags then Err(AttributeError(NoAttribute(VNone, "values")))
    else if tags[ExposureTime].values == [] then Err(IndexError("list index out of range"))
    else Formatter.FormatExposureTime(Some(tags[ExposureTime].values[0]))
  }

  /** `"<ExifImageLength> x <ExifImageWidth>"`. */
  function Resolution(tags: Tags): (s: string)
    ensures "EXIF ExifImageLength" !in tags && "EXIF ExifImageWidth" !in tags ==> s == "None x None"
  {
    TagText(tags, "EXIF ExifImageLength") + " x " + TagText(tags, "EXIF ExifImageWidth")
  }

  /** The derived values in the order the body computes them, stopping at
      the first that raises. */
  datatype Derived = Derived(gps: Value, exposure: Value, shutter: Value,
                             aperture: Value, brightness: Value, focal: Value)

  function DeriveFields(tags: Tags): (r: Result<Derived, PyError>)
    ensures r.Ok? ==> GpsField(tags) == Ok(r.value.gps) && ExposureField(tags) == Ok(r.value.exposure)
    ensures r.Ok? ==>
      && Formatter.FormatShutterSpeed(Printable(tags, "EXIF ShutterSpeedValue")) == Ok(r.value.shutter)
      && Formatter.FormatApertureValue(Printable(tags, "EXIF ApertureValue")) == Ok(r.value.aperture)
      && Formatter.FormatBrightnessValue(Printable(tags, "EXIF BrightnessValue")) == Ok(r.value.brightness)
      && Formatter.FormatFocalLength(Printable(tags, "EXIF FocalLength")) == Ok(r.value.focal)
    ensures r.Ok? <==>
      && GpsField(tags).Ok? && ExposureField(tags).Ok?
      && Formatter.FormatShutterSpeed(Printable(tags, "EXIF ShutterSpeedValue")).Ok?
      && Formatter.FormatApertureValue(Printable(tags, "EXIF ApertureValue")).Ok?
      && Formatter.FormatBrightnessValue(Printable(tags, "EXIF BrightnessValue")).Ok?
      && Formatter.FormatFocalLength(Printable(tags, "EXIF FocalLength")).Ok?
  {
    match GpsField(tags)
    case Err(e) => Err(e)
    case Ok(gps) =>
      match ExposureField(tags)
      case Err(e) => Err(e)
      case Ok(exposure) =>
        match Formatter.FormatShutterSpeed(Printable(tags, "EXIF ShutterSpeedValue"))
        case Err(e) => Err(e)
        case Ok(shutter) =>
          match Formatter.FormatApertureValue(Printable(tags, "EXIF ApertureValue"))
          case Err(e) => Err(e)
          case Ok(aperture) =>
            match Formatter.FormatBrightnessValue(Printable(tags, "EXIF BrightnessValue"))
            case Err(e) => Err(e)
            case Ok(brightness) =>
              match Formatter.FormatFocalLength(Printable(tags, "EXIF FocalLength"))
              case Err(e) => Err(e)
              case Ok(focal) => Ok(Derived(gps, exposure, shutter, aperture, brightness, focal))
  }

  /** No plain key is also a formatted key. */
  lemma PlainAndFormattedDisjoint()
    ensures PlainTags.Keys !! FormattedKeys
  {
    RenderedKeysNotPlain();
    RatioKeysNotPlain();
  }

  /** The size, resolution, GPS and exposure keys are not plain keys. */
  lemma RenderedKeysNotPlain()
    ensures "File Size" !in PlainTags && "Resolution" !in PlainTags
    ensures "GPS Coordinates" !in PlainTags && "Exposure Time" !in PlainTags
  {
  }

  /** The keys of the four ratio formatters are not plain keys. */
  lemma RatioKeysNotPlain()
    ensures "ShutterSpeedValue" !in PlainTags && "ApertureValue" !in PlainTags
    ensures "BrightnessValue" !in PlainTags && "FocalLength" !in PlainTags
  {
  }

  /** The eight formatted values. */
  function FormattedFields(tags: Tags, size: int, d: Derived): (m: Metadata)
    ensures m.Keys == FormattedKeys
    ensures m["GPS Coordinates"] == d.gps && m["Exposure Time"] == d.exposure
    ensures m["Resolution"] == VStr(Resolution(tags))
    ensures m["File Size"] == Formatter.FormatSize(Some(size))
    ensures m["ShutterSpeedValue"] == d.shutter && m["ApertureValue"] == d.aperture
    ensures m["BrightnessValue"] == d.brightness && m["FocalLength"] == d.focal
  {
    map["File Size" := Formatter.FormatSize(Some(size)),
        "Resolution" := VStr(Resolution(tags)),
        "GPS Coordinates" := d.gps,
        "Exposure Time" := d.exposure,
        "ShutterSpeedValue" := d.shutter,
        "ApertureValue" := d.aperture,
        "BrightnessValue" := d.brightness,
        "FocalLength" := d.focal]
  }

  /** The dict built when nothing raises. */
  function Fields(tags: Tags, size: int, d: Derived): (m: Metadata)
    ensures m.Keys == PhotoKeys()
    ensures m["GPS Coordinates"] == d.gps && m["Exposure Time"] == d.exposure
    ensures m["Resolution"] == VStr(Resolution(tags))
    ensures m["File Size"] == Formatter.FormatSize(Some(size))
    ensures m["ShutterSpeedValue"] == d.shutter && m["ApertureValue"] == d.aperture
    ensures m["BrightnessValue"] == d.brightness && m["FocalLength"] == d.focal
    ensures forall k :: k in PlainTags ==> m[k] == TagValue(tags, PlainTags[k])
  {
    PlainAndFormattedDisjoint();
    PlainFields(tags) + FormattedFields(tags, size, d)
  }

  /* ---------- the result protocol ---------- */

  /** `extract_metadata()`: a dict on success; "File Error" when the file
      cannot be opened or sized; 'Metadata Not Available' when the EXIF
      data cannot be parsed; `None` (the catch-all falls off the end of
      the function) for any other failure. */
  function ExtractMetadata(read: PhotoRead): (r: Value)
    ensures read.OpenFailed? ==> r == VStr(FileError)
    ensures read.ExifFailed? ==> r == VStr(MetadataNotAvailable)
    ensures read.Crashed? ==> r == VNone
    ensures read.Decoded? && read.fileSize.None? ==> r == VStr(FileError)
    ensures read.Decoded? && read.fileSize.Some? ==>
      (r.VDict? <==> DeriveFields(read.tags).Ok?) && (!r.VDict? ==> r == VNone)
    ensures r.VDict? ==> r.entries.Keys == PhotoKeys()
  {
    match read
    case OpenFailed => VStr(FileError)
    case ExifFailed => VStr(MetadataNotAvailable)
    case Crashed => VNone
    case Decoded(tags, fileSize) =>
      match fileSize
      case None => VStr(FileError)
      case Some(size) =>
        match DeriveFields(tags)
        case Err(_) => VNone
        case Ok(d) => VDict(Fields(tags, size, d))
  }

  /** The GPS rule: a successful result reports "GPS Not Available"
      exactly when one of the four GPS tags is missing. */
  lemma GpsAllOrNothing(tags: Tags, size: int)
    ensures ExtractMetadata(Decoded(tags, Some(size))).VDict? ==>
      (ExtractMetadata(Decoded(tags, Some(size))).entries["GPS Coordinates"] == VStr(GpsNotAvailable)
       <==> !HasGps(tags))
  {
    if DeriveFields(tags).Ok? {
      var d := DeriveFields(tags).value;
      assert ExtractMetadata(Decoded(tags, Some(size))) == VDict(Fields(tags, size, d));
    }
  }

  /** A photo without an ExposureTime tag makes the body raise, and the
      caller receives `None`. */
  lemma MissingExposureGivesNone(tags: Tags, size: int)
    requires ExposureTime !in tags
    ensures ExtractMetadata(Decoded(tags, Some(size))) == VNone
  {
  }

  /** An ExposureTime whose first value is a whole number of seconds (no
      '/') does not parse as a ratio, so the caller receives `None`. */
  lemma WholeSecondExposureGivesNone(tags: Tags, size: int)
    requires ExposureTime in tags && tags[ExposureTime].values != []
    requires '/' !in tags[ExposureTime].values[0]
    ensures ExtractMetadata(Decoded(tags, Some(size))) == VNone
  {
    Formatter.ExposureTimeNeedsSlash(tags[ExposureTime].values[0]);
  }

  /** The resolution is the two tags' texts around " x ", with "None" for
      a missing one. */
  lemma ResolutionRendering(tags: Tags, size: int)
    ensures ExtractMetadata(Decoded(tags, Some(size))).VDict? ==>
      ExtractMetadata(Decoded(tags, Some(size))).entries["Resolution"]
        == VStr(TagText(tags, "EXIF ExifImageLength") + " x " + TagText(tags, "EXIF ExifImageWidth"))
  {
    if DeriveFields(tags).Ok? {
      var d := DeriveFields(tags).value;
      assert ExtractMetadata(Decoded(tags, Some(size))) == VDict(Fields(tags, size, d));
    }
  }

  /** On success, the four ratio entries are their formatters' results,
      including the `None` that `format_shutter_speed` returns for a speed
      below one second. */
  lemma RatioFieldsRendering(tags: Tags, size: int)
    ensures ExtractMetadata(Decoded(tags, Some(size))).VDict? ==>
      var m := ExtractMetadata(Decoded(tags, Some(size))).entries;
      && Formatter.FormatShutterSpeed(Printable(tags, "EXIF ShutterSpeedValue")) == Ok(m["ShutterSpeedValue"])
      && Formatter.FormatApertureValue(Printable(tags, "EXIF ApertureValue")) == Ok(m["ApertureValue"])
      && Formatter.FormatBrightnessValue(Printable(tags, "EXIF BrightnessValue")) == Ok(m["BrightnessValue"])
      && Formatter.FormatFocalLength(Printable(tags, "EXIF FocalLength")) == Ok(m["FocalLength"])
  {
    if DeriveFields(tags).Ok? {
      var d := DeriveFields(tags).value;
      assert ExtractMetadata(Decoded(tags, Some(size))) == VDict(Fields(tags, size, d));
    }
  }

  /** The Resolution text is never blank: it always holds " x ". */
  lemma ResolutionIsNotBlank(tags: Tags)
    ensures !IsBlank(Resolution(tags))
  {
    var a := TagText(tags, "EXIF ExifImageLength");
    var s := Resolution(tags);
    assert s[|a| + 1] == 'x';
    assert !IsSpace(s[|a| + 1]);
  }
}
