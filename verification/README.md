# MetaXtractor metadata pipeline, modelled in Dafny

MetaXtractor inspects documents, videos and photos and reports their
metadata. This project models its sequential core:

- **`MetadataExtractor`** (module `Coordinator`, `coordinator.dfy`):
  - routes each path by its lower-cased extension;
  - checks that the file exists, consults a TTL cache and runs the chosen extractor;
  - normalises the result and collects everything in a dict keyed by path.
- **`TTLCache(maxsize=100, ttl=60)`** (module `TtlCache`) is an explicit value.
  Every entry carries its expiry instant, and the clock is a parameter.
- **`DocumentMetadata`** (module `Document`) covers:
  - the second extension table and the dispatch order;
  - the four readers, with the third-party libraries reduced to records of
    the fields they expose;
  - the Word word count.
- **`VideoMetadata`** (module `Video`):
  - the parse step and its error wrapping;
  - the left fold over pymediainfo tracks, with the `if`/`elif` nesting
    that decides which keys a track writes.
- **`PhotoMetadata`** (module `Photo`):
  - the exifread tag map and the all-or-nothing GPS rule;
  - the Resolution text;
  - the sentinel results `"File Error"`, `'Metadata Not Available'` and `None`.
- **`Formatter`** (module `Formatter`):
  - the `None` guard;
  - duration decomposition, unit tiers for sizes and bitrates, and exposure-time rendering;
  - the `+`-split of the ISO 6709 location, as written.
- **`Database`** (module `Database`):
  - the CSV row loop that emits `(file, key, value)` triples and flushes them in chunks;
  - the per-file grouping that becomes one Firebase `update`.

Shared modules:

- `Common`: `Option`, `Result` and the Python exception kinds.
- `PyText`: the `str` operations the source relies on, such as `strip`,
  `split`, `lower`, `replace`, `int()` and `os.path.splitext`.
- `Values`: the dynamically typed values the extractors return.

The thread pool is modelled as a sequential fold over the requested paths.
Each request carries the clock reading at which it runs. The cache's
eviction victim is unspecified, so everything that writes the cache is ghost.

The main theorem is `Coordinator.ExtractAllMatchesReference`. From any
cache that holds only values the extractors could have produced, in any
order and at any clock readings, every path gets exactly the value a
cache-free run would report. The cache is therefore transparent, and
`Coordinator.OrderDoesNotMatter` follows: completion order cannot change
the result.

## Model

| member | source | states |
|---|---|---|
| Coordinator.Route | metadata.py:13-26 | an extension is routed exactly when its lower-cased form is a key of the 12-entry table, to that key's extractor |
| Coordinator.RoutingIsExact | metadata.py:13-26 | .docx/.pdf/.xlsx/.pptx go to documents, .mp4/.avi/.mov/.mkv/.mpeg to video, .jpg/.jpeg/.png to photos, and every other extension is unsupported |
| Coordinator.TableIsExact | metadata.py:13-26 | each of the three extension sets maps to its own extractor in the table, and no other extension is a key |
| Coordinator.RouteOfName | metadata.py:69-77 | a file "<dir>/<stem>.<e>" is routed by the lower-cased ".<e>"; the directory part plays no role |
| Coordinator.UpperCaseDocxIsDocument | metadata.py:69-77 | "reports/q3.DOCX" goes to the document extractor, because the extension is lower-cased before the lookup |
| Coordinator.DocumentRoutesAreSupported | metadata.py:14-17 | every extension routed to the document extractor is a key of its own table, so that extractor never reports an unsupported type |
| Coordinator.RunExtractor | metadata.py:79-94 | a video is parsed and then derived, and it fails exactly when either step raises, with that exception's text; a document fails exactly when its extractor raises, with that text, and otherwise yields its dict; a photo always yields its extractor's value |
| Coordinator.NormalizeValue | metadata.py:37-46 | `None`, blank text, `[]` and `{}` become "Not Available"; every other value is kept |
| Coordinator.Normalize | metadata.py:31-47 | `None` gives `{}`; a dict keeps exactly its keys, with each vacant value replaced; any other value raises for lack of `items` |
| Coordinator.NotAvailableIsNotVacant | metadata.py:38 | the replacement text is itself not vacant |
| Coordinator.NormalizeIdempotent | metadata.py:31-47 | normalising a normalised dict changes nothing |
| Coordinator.Outcome | metadata.py:56-60 | the reported entry is the normalised dict, or `{'error': message}` when normalisation raises |
| Coordinator.ErrorDictIsNormal | metadata.py:58 | an error dict with a non-blank message survives normalisation unchanged |
| Coordinator.Classify | metadata.py:69-78 | an existing file is unrouted exactly when its extension is not in the table; otherwise it yields its extractor's run |
| Coordinator.Survey | metadata.py:66-67 | exactly the existing paths are surveyed |
| Coordinator.SurveyEntry | metadata.py:69-78 | each surveyed path holds what its routing and its extractor yield |
| Coordinator.Fresh | metadata.py:65-96 | a missing path gives the not-found error dict, an unrouted one the unsupported-type error dict, a raising extractor its message in an error dict, and a normal return its value |
| Coordinator.ExtractOne | metadata.py:65-96 | the existence check comes before the cache; a truthy live entry is returned as is; on a miss the fresh value is returned, and the cache is written only with a successful extractor's raw value |
| Coordinator.Record | metadata.py:56-61 | the result dict gains the path's outcome; a normalisation failure also writes its error dict to the cache |
| Coordinator.Step | metadata.py:53-61 | one path adds exactly its own key to the result dict and leaves every other entry alone |
| Coordinator.SoundEntryOutcome | metadata.py:56-61 | normalising any value the cache may soundly hold reports the cache-free outcome |
| Coordinator.PutKeepsSound | metadata.py:84-91 | writing a sound value keeps every cache entry sound |
| Coordinator.StepIsTransparent | metadata.py:53-96 | from a sound cache, one path records its cache-free outcome and leaves the cache sound and within its bound |
| Coordinator.RunAllKeepsCacheSound | metadata.py:52-62 | a whole run keeps the cache sound and within 100 entries |
| Coordinator.RunAllKeys | metadata.py:51-62 | a run adds exactly the requested paths to the result dict, and other entries are untouched |
| Coordinator.RunAllIsTransparent | metadata.py:51-62 | every requested path ends with its cache-free outcome |
| Coordinator.ExtractAllMatchesReference | metadata.py:50-62 | the result's keys are exactly the requested paths, so duplicates collapse; each value is the cache-free outcome; the cache stays sound and bounded |
| Coordinator.OrderDoesNotMatter | metadata.py:52-55 | two runs over the same set of paths, in any order and from any sound caches, report the same dict |
| Coordinator.EmptyCacheIsSound | metadata.py:27 | a new extractor's empty cache is sound |
| Coordinator.MissingFileSkipsCache | metadata.py:66-67 | a missing file reports "File not found: <path>" and leaves the cache as it was |
| Coordinator.FalsyCachedValueIsMiss | metadata.py:72-74 | a cached `{}` or `None` is a miss, and the extractor runs again |
| Coordinator.ErrorsAreNotCached | metadata.py:93-96 | on a miss, an unsupported extension or a raising extractor leaves the cache as it was, even after the result is recorded |
| Coordinator.RaisedIsReported | metadata.py:93-94 | a raising extractor's message is reported as the path's error dict, with the cache unchanged |
| Coordinator.VideoParseFailureRaises | metadata.py:80-83 | a video whose parse fails makes the `try` block raise the "Error parsing video file: " message |
| Coordinator.TracklessVideoIsEmpty | metadata.py:80-86 | a video without tracks makes the extractor return `{}` |
| Coordinator.EmptyResultIsNeverAHit | metadata.py:73-74 | an extractor's `{}` is reported as `{}` and cached, yet can never be a hit |
| Coordinator.PhotoOpenFailureIsValue | metadata.py:88-92 | the photo extractor hands back "File Error" for a file it cannot open, as a value rather than an exception |
| Coordinator.PhotoCrashIsValue | metadata.py:88-92 | the photo extractor hands back `None` after a crash, as a value rather than an exception |
| Coordinator.NoneIsReportedEmpty | metadata.py:33-34 | an extractor that returns `None` is reported as `{}` |
| Coordinator.NonDictIsCachedAsError | metadata.py:58-61 | an extractor value that is neither a dict nor `None` becomes an error entry, and the error dict replaces it in the cache |
| Coordinator.MissingResolutionIsKept | metadata.py:39-46 | a photo's Resolution text is never blank, whatever tags are missing, so normalisation keeps it |
| Coordinator.EmptyTextIsNotAvailable | metadata.py:39-40 | every blank text value, such as the empty text a PDF field defaults to, is reported as "Not Available" |
| TtlCache.Get | metadata.py:72 | a read finds a value exactly when the key's entry has not expired, and it is that entry's value |
| TtlCache.Purge | metadata.py:27 | expiry keeps exactly the entries whose instant lies after the clock, unchanged |
| TtlCache.MakeRoom | metadata.py:27 | eviction leaves fewer than 100 entries, all of them original ones, and evicts nothing when there is room |
| TtlCache.Put | metadata.py:85 | the key maps to the value until now + 60; every other surviving entry was live and is unchanged; the 100-entry bound is kept; with room or a live key, no live entry is lost |
| TtlCache.GetAfterPut | metadata.py:85 | a read after a write sees the value before 60 time units have passed and nothing from then on |
| TtlCache.PutKeepsOrDrops | metadata.py:91 | a write never makes another key visible, nor changes another visible key's value |
| Document.ReaderMethod | document.py:42-44 | exactly the four names "word_metadata", "pdf_metadata", "excel_metadata" and "powerpoint_metadata" resolve to a reader |
| Document.EveryTypeHasReader | document.py:8-15 | every type name in the table dispatches to an existing reader, each to its own |
| Document.DetermineFileType | document.py:31-36 | the lower-cased extension maps to its type name exactly when it is in the table; otherwise the error is "Unsupported file type: <ext>" |
| Document.CopyFields | document.py:50-61 | the dict has exactly the listed keys, each with its core property, `None` when absent |
| Document.TotalWordsAppend | document.py:64-67 | the word count is additive over concatenated paragraph lists |
| Document.NoWordsIffAllBlank | document.py:64-67 | the word count is 0 exactly when every paragraph is blank |
| Document.CountParagraphWords | document.py:64-67 | the loop's count is the sum of whitespace-split token counts |
| Document.WordMetadata | document.py:46-68 | the Word dict has its 14 keys, the core properties, the section count and the word count |
| Document.PdfMetadata | document.py:70-82 | absent docinfo fields read as `''` and present ones are copied; the version and page count are added |
| Document.ExcelMetadata | document.py:85-96 | the Excel dict has its 7 keys, with the workbook properties and sheet count |
| Document.PowerPointMetadata | document.py:98-108 | the PowerPoint dict has its 6 keys, with the core properties and slide count |
| Document.ReadAs | document.py:44 | a reader that opens the file yields a dict with exactly its type's keys |
| Document.ReaderFor | document.py:41-43 | each table extension resolves to the reader its type name dispatches to |
| Document.ExtractMetadata | document.py:38-44 | a missing file reports "File not found" whatever its extension; then an unknown extension reports "Unsupported file type"; otherwise the extension's reader runs |
| Video.ParseVideoFile | video.py:11-17 | the parse fails exactly when the library raises, and the failure is a ValueError with the "Error parsing video file: " prefix |
| Video.SizeOf | video.py:29 | a text size raises; a number is formatted into its unit tier |
| Video.BitrateOf | video.py:60 | a text bit rate raises; a number is formatted into its unit tier |
| Video.DurationOf | video.py:31 | the division by 1000 succeeds exactly for a number; a missing duration raises a TypeError before the formatter's `None` guard |
| Video.FramerateOf | video.py:51 | a missing frame rate is "Unknown"; text and numbers are rendered in fps |
| Video.SamplerateOf | video.py:62 | a text sampling rate raises; a number is rendered in KHz |
| Video.LocationOf | video.py:33 | a numeric location has no `split` and raises an AttributeError; text succeeds exactly when it splits into three '+'-parts, with `format_gps`'s URL, and otherwise raises its ValueError |
| Video.LosAngelesLocation | video.py:33 | the location "+34.0522-118.2437+089.000/" is reported as the query ",34.0522-118.2437" |
| Video.NoAltitudeLocationRaises | video.py:33 | a positive-latitude location without an altitude raises ValueError |
| Video.PyStr | video.py:50 | a missing attribute renders as "None"; text renders as itself |
| Video.GeneralFields | video.py:27-31 | a General track writes exactly Count, File Size, Format and Duration; it raises exactly on a text size or a non-numeric duration |
| Video.LocationRecord | video.py:33-41 | the location block writes its nine keys, with Location holding the formatted location |
| Video.LocationFields | video.py:32-41 | the location block succeeds exactly when the location formats, and fails with the formatter's error |
| Video.VideoFields | video.py:43-54 | a Video track writes its ten keys, with Resolution rendered as "<width>x<height>" |
| Video.AudioRecord | video.py:56-63 | the Audio block writes its seven keys |
| Video.AudioFields | video.py:56-63 | an Audio track writes its seven keys, and raises exactly on a text bit rate or sampling rate |
| Video.StreamFields | video.py:32-63 | the location, Video or Audio block writes exactly its keys; an AttributeError can only come from a numeric location |
| Video.Writes | video.py:27-63 | a track writes exactly the General keys when it is General, plus the keys of the first matching location/Video/Audio block |
| Video.WritesRaises | video.py:31-33 | a General track without a duration raises the TypeError of `None / 1000`; a non-General track with a numeric location raises the AttributeError of `split` |
| Video.LocationTrackWritesNoStreamKeys | video.py:32-63 | a track with a location never writes Video or Audio keys |
| Video.KeyGroupsDisjoint | video.py:27-63 | the General and location key groups share no key with the Video and Audio groups |
| Video.ExtractMetadata | video.py:20-70 | no tracks give `{}`; an AttributeError is re-raised as a ValueError with the "Error extracting metadata: " prefix; a successful derivation and every other exception come back unchanged |
| Video.Extract | video.py:11-17 | a failed parse is the parse error, and a successful parse is derived |
| Video.DeriveFromAppend | video.py:26 | folding over one more track continues from the result so far |
| Video.DeriveIsLastWrite | video.py:26-63 | when no track raises, the dict holds exactly the keys some track wrote, each with the last written value |
| Video.AllWriteIffOk | video.py:20-70 | derivation succeeds exactly when no track raises, and then holds exactly the written keys, each with its last-written value |
| Video.DeriveFailsAt | video.py:26-70 | a raising track fails the whole derivation |
| Video.LastAudioTrackWins | video.py:56-57 | with two Audio tracks, the second track's format is reported |
| Photo.TagValue | photo.py:20 | a tag reads as `None` exactly when it is missing |
| Photo.TagText | photo.py:23 | a missing tag renders as "None" and a present one as its printable text |
| Photo.PlainFields | photo.py:20-72 | each copied field holds its tag's value, or `None` |
| Photo.GpsField | photo.py:28-42 | without all four GPS tags the text is "GPS Not Available"; with them it succeeds exactly when latitude and longitude each carry three values |
| Photo.ExposureField | photo.py:48 | a missing exposure tag raises for lack of `values`, an empty one raises IndexError, and otherwise the first value is formatted |
| Photo.Resolution | photo.py:23 | with both size tags missing, the text is "None x None" |
| Photo.DeriveFields | photo.py:28-67 | the derived fields succeed exactly when GPS, exposure, shutter speed, aperture, brightness and focal length all format, and then hold those formatters' results |
| Photo.PlainAndFormattedDisjoint | photo.py:17-73 | the copied and the formatted keys are disjoint |
| Photo.FormattedFields | photo.py:19-67 | the formatted fields hold the size, resolution, GPS, exposure, shutter speed, aperture, brightness and focal length values |
| Photo.Fields | photo.py:17-73 | a successful dict has the fixed key set; each copied field holds its tag or `None`, and each formatted field holds its formatter's value |
| Photo.ExtractMetadata | photo.py:11-85 | an unopenable file or a failed size lookup gives "File Error", an EXIF error 'Metadata Not Available', and a crash `None`; otherwise a dict is returned exactly when every field derives, with the fixed keys, and `None` when one does not |
| Photo.GpsAllOrNothing | photo.py:33-42 | a successful result says "GPS Not Available" exactly when a GPS tag is missing |
| Photo.MissingExposureGivesNone | photo.py:48 | a photo without an exposure tag makes the extractor return `None` |
| Photo.WholeSecondExposureGivesNone | photo.py:48 | an exposure value without a '/' makes the extractor return `None` |
| Photo.ResolutionRendering | photo.py:23 | Resolution is "<length> x <width>", each missing tag rendered as "None" |
| Photo.RatioFieldsRendering | photo.py:62-67 | in a successful dict, ShutterSpeedValue, ApertureValue, BrightnessValue and FocalLength are their formatters' results, including the `None` of a shutter speed below one second |
| Photo.ResolutionIsNotBlank | photo.py:23 | the Resolution text is never blank |
| Formatter.FormatGps | formatter.py:7-11 | `None` is "Unknown"; text succeeds exactly when it splits on '+' into three parts, and otherwise raises ValueError |
| Formatter.GpsKeepsFirstTwoParts | formatter.py:10-11 | the URL is the maps prefix, part 0, a comma and part 1 |
| Formatter.GpsDropsPositiveLatitude | formatter.py:10-11 | a location that starts with '+' loses its latitude |
| Formatter.GpsRejectsTwoComponents | formatter.py:10 | a location with only one '+' raises |
| Formatter.GpsLosAngelesExample | formatter.py:10-11 | "+34.0522-118.2437+089.000/" gives the query ",34.0522-118.2437" |
| Formatter.ParseIso6709 | formatter.py:10-11 | a parsed point yields a signed latitude and a signed longitude |
| Formatter.FormatGpsIso6709 | formatter.py:7-11 | `None` is "Unknown"; text succeeds exactly when it is an ISO 6709 point |
| Formatter.Iso6709RoundTrip | formatter.py:10-11 | an ISO 6709 point built from a latitude, a longitude and a '/'-terminated tail gives the URL with that latitude and longitude |
| Formatter.ParseRatio | formatter.py:22 | text parses exactly when it has one '/' with an integer on each side |
| Formatter.RatioRoundTrip | formatter.py:22 | "n/d" parses back to (n, d) |
| Formatter.FormatExposureTime | formatter.py:19-28 | `None` is "Unknown"; a value that is not "n/d" raises ValueError, and a zero denominator raises ZeroDivisionError |
| Formatter.ExposureTimeRendering | formatter.py:23-28 | d = 1 gives "n sec"; d > 1 gives "1/d sec" whatever n is; d = 0 raises |
| Formatter.ExposureTimeNeedsSlash | formatter.py:22 | a value without '/' raises |
| Formatter.Tier | formatter.py:34-41 | the tier is the unique k with 1024^k ≤ n < 1024^(k+1), with tier 3 open-ended and tier 0 everything below 1024 |
| Formatter.TierIsUnique | formatter.py:34-41 | any k whose bounds hold for n is the tier |
| Formatter.FormatSize | formatter.py:31-41 | `None` is "Unknown"; below 1024 the text is "<n> B"; above it the KB/MB/GB tier applies |
| Formatter.FormatBitrate | formatter.py:68-78 | `None` is "Unknown"; below 1024 the text is "<n> bps"; above it the Kbps/Mbps/Gbps tier applies |
| Formatter.FormatDuration | formatter.py:44-48 | `None` is "Unknown"; under a minute the text is "<d> sec" |
| Formatter.DurationMinutes | formatter.py:49-52 | m·60 + s seconds with 1 ≤ m < 60 give "m min s sec" |
| Formatter.DurationHours | formatter.py:53-57 | h·3600 + m·60 + s seconds give "h hr m min s sec" |
| Formatter.TruncDiv | formatter.py:91-95 | `int()` of a quotient of non-negative operands is the floor quotient |
| Formatter.FormatFramerate | formatter.py:60-65 | `None` is "Unknown"; any other rate is rendered in fps |
| Formatter.FormatSamplerate | formatter.py:81-84 | `None` is "Unknown"; a rate is rendered in KHz |
| Formatter.ConvertGps | formatter.py:13-17 | any missing part gives "Unknown" |
| Formatter.RatioOperands | formatter.py:90-91 | the operands are usable exactly when the ratio parses with a non-zero denominator |
| Formatter.FormatFocalLength | formatter.py:87-95 | `None` is "Unknown"; otherwise it succeeds exactly on a ratio with a non-zero denominator; the text is the whole-number "<int(n/d)> mm" exactly when n/d is at least 10, and the one-decimal rendering otherwise |
| Formatter.FocalLengthRendering | formatter.py:87-95 | for "n/d" with d > 0, from 10 mm up the text is "<n / d> mm" and below 10 mm it is the one-decimal rendering of n/d |
| Formatter.FormatBrightnessValue | formatter.py:98-103 | `None` is "Unknown"; otherwise it succeeds exactly on a ratio with a non-zero denominator |
| Formatter.FormatApertureValue | formatter.py:106-111 | `None` is "Unknown"; otherwise it succeeds exactly on a ratio with a non-zero denominator |
| Formatter.FormatShutterSpeed | formatter.py:114-120 | `None` is "Unknown"; it succeeds exactly on a ratio with a non-zero denominator, and then a speed below 1 falls off the end as `None` while one of at least 1 is rendered |
| Formatter.NoneIsUnknown | formatter.py:8-9 | gps, exposure, size, duration and bitrate all turn `None` into "Unknown" |
| PyText.Strip | metadata.py:39 | `strip()` is empty exactly for whitespace-only text |
| PyText.SplitJoin | formatter.py:10 | splitting a join of separator-free parts gives the parts back |
| PyText.JoinSplit | formatter.py:10 | joining the parts of a split gives the text back |
| PyText.Lower | metadata.py:69 | lower-casing keeps the length and maps each letter to its small form |
| PyText.LastIndex | metadata.py:69 | the index found is the last occurrence of the character, and there is none exactly when the character is absent |
| PyText.ReplaceChar | database.py:40 | each occurrence of the character is replaced, every other character is kept, and none of the old one remains |
| PyText.Extension | metadata.py:69 | the extension is empty or a trailing ".xxx" of the path with no other '.' and no '/' |
| PyText.NameExtension | metadata.py:69 | the extension of one path component is empty or a trailing ".xxx" of it with no other '.' |
| PyText.LastIndexAppend | metadata.py:69 | text without the character, appended after it, does not move its last occurrence |
| PyText.ExtensionAfterDir | metadata.py:69 | a directory prefix ending in '/' plays no role in the extension |
| PyText.ExtensionOfName | metadata.py:69 | "<dir>/<stem>.<e>" has the extension ".<e>" when `e` has no '.' and `stem` a character other than '.' |
| PyText.NameExtensionOfStem | metadata.py:69 | "<stem>.<e>" has the extension ".<e>" under the same conditions |
| PyText.NoDotNoExtension | metadata.py:69 | a final component without a '.' has no extension |
| PyText.ShowParses | formatter.py:22 | `int()` of an integer's text is that integer |
| PyText.Words | document.py:66 | `split()` yields non-empty words, none of which contains whitespace |
| PyText.NoWordsIffBlank | document.py:66 | a text splits into no words exactly when it is blank |
| PyText.CountWords | document.py:66 | the loop counts the words of `split()` |
| Database.Valid | database.py:37-43 | the rows read before the first one that raises are all well formed, and the next one is not |
| Database.FileKey | database.py:40 | the file key has no '.', keeps the name's length, and keeps every other character |
| Database.CurrentFileIsLastMarker | database.py:35-40 | the file name in force comes from the last "File:" row, and is `None` exactly when no row was one |
| Database.RowTriples | database.py:39-43 | a row adds a triple exactly when it is not a "File:" row and has a non-empty key and value |
| Database.TriplesAreClean | database.py:39-43 | every triple has a non-empty key and value and a dot-free file name |
| Database.LookupIsLastWrite | database.py:63-64 | the reference lookup finds a value exactly when some triple writes the pair, and then the value is the last such write |
| Database.GroupIsLastWins | database.py:61-64 | the batch holds exactly the written (file, key) pairs, each with its last value |
| Database.GroupFiles | database.py:63-64 | a file is a key of the batch exactly when some triple names it |
| Database.GroupEmpty | database.py:66 | the batch is empty exactly when the chunk is |
| Database.ProcessData | database.py:58-67 | an empty chunk sends nothing; otherwise exactly one update, the chunk's grouped batch, is appended, holding each written pair's last value |
| Database.Publish | database.py:66-67 | no update is empty, and there are no more updates than chunks |
| Database.PublishSnoc | database.py:58-67 | one more chunk appends its grouped batch, the one `ProcessData` appends, exactly when the chunk is not empty |
| Database.PublishEveryChunk | database.py:45-50 | with no empty chunk, each chunk becomes one update, in order |
| Database.ReadRow | database.py:39-43 | a "File:" row sets the file key, and a metadata row appends its triple |
| Database.Feed | database.py:39-47 | one iteration accounts for the row's triple, flushes full chunks and keeps the pending data below the chunk size |
| Database.ReadRows | database.py:37-47 | the flushed chunks and the pending data are exactly the rows' triples in order; each in-loop chunk has exactly chunk_size triples |
| Database.SendData | database.py:28-56 | the run completes exactly when no row is short; the flushed chunks followed by the abandoned triples are every triple of the rows read, in order; each chunk holds 1 to chunk_size triples; only the last may be short; a failing row abandons fewer than chunk_size triples; with chunk_size < 1 every row is flushed on its own |

## Left out

- Key order: Python dicts keep insertion order. The video loop keeps a key at the position of its first write, and the GUI lists keys in that order. Every dict here is an unordered `map`, so key order is not modelled.
- Concurrency: the thread pool, `as_completed` and the lock are a sequential fold. Each path gets one clock reading, used for both its read and its writes.
- `Coordinator.ExtractOne`, `Coordinator.Step` and the other cache-writing members are ghost because the cache's eviction victim is unspecified. The order in which `cachetools` pops entries is not modelled.
- Third-party libraries (python-docx, pikepdf, openpyxl, python-pptx, pymediainfo, exifread) are records of the fields they expose. An opening failure is an exception message. `os.path.exists` and `os.path.getsize` are inputs.
- Floating point: the `.2f`, `.1f` and `.4f` renderings of `convert_gps`, `format_framerate`, `format_samplerate`, the focal length, brightness, aperture and shutter speed, and the KB/MB/GB and Kbps/Mbps/Gbps tiers are `VComputed` values. These hold the operands and the unit, not the digits. Only the tier choice and the surrounding text are modelled. A `VComputed` value is never blank, which matches the digits Python prints.
- Formatter.FormatFramerate: does not model `float()` failing on text that is not a number, because the library reports frame rates as numeric text.
- Formatter.FormatDuration: states only the `None` and under-a-minute cases. The minute and hour decompositions are stated by `Formatter.DurationMinutes` and `Formatter.DurationHours`. In Python 3 the caller's `track.duration / 1000` is a float; `Video.DurationOf` truncates the quotient first, which renders the same text because `format_duration` compares it only with whole numbers and uses only `int()`, `//` and `%` of it. Negative durations are not stated.
- Photo.GpsField: assumes that `convert_gps` (formatter.py:16-17) can add and format exifread's `Ratio` values with `:.4f`. This holds when `Ratio` is a `Fraction` (exifread 3 and later) and Python formats a `Fraction` with 'f' (3.12 and later). Otherwise it raises `TypeError`, the catch-all returns `None`, and every GPS-tagged photo would be reported as `{}`. The model takes the first case.
- Photo.ExtractMetadata: assumes that `exifread.errors.ExifReadError`, named by the second `except` clause of photo.py:79, resolves to an exception class. If it does not, evaluating that clause raises `AttributeError` for any failure other than `IOError`, and the catch-all at photo.py:83 is never reached. The `None` result of `Photo.MissingExposureGivesNone` and `Coordinator.PhotoCrashIsValue` would then instead reach the coordinator as an uncached error dict. The exifread library is not part of this model, so which of the two happens is not decided here.
- PyText.Extension: paths are '/'-separated, as `posixpath.splitext` splits them. The Windows separators of `ntpath` are not modelled.
- PyText.Lower: ASCII only. Python's Unicode case mapping of non-ASCII extensions is not modelled.
- Document.ReadAs: states only the key set. The per-type readers state the values.
- Database.SendData: the in-loop flushes and the final flush are not told apart. The contract states that every chunk but the last is full and that every chunk is non-empty, which implies the final flush has 1 to chunk_size − 1 triples only when it happens.
- Database: the Firebase connection, the credentials, the network `update` call and its errors, `FileNotFoundError`, and `csv.Error` are not modelled. The reference is the log of update dicts. How Firebase merges an update into stored data is not modelled.
- Printing and logging are not modelled, including the messages printed by the photo extractor and the database loop.
- gui.py, dragdrop.py and main.py are not part of this model.

## Findings

| source | as written | input that shows it | evidently intended | confidence | as-written member | corrected member |
|---|---|---|---|---|---|---|
| formatter.py:10-11 | `format_gps` splits the QuickTime ISO 6709 location on '+' and unpacks three parts | "+34.0522-118.2437+089.000/" gives the query ",34.0522-118.2437": the latitude is lost, and both coordinates end up in the longitude slot. "+34.0522-118.2437/" (no altitude) raises ValueError | split the point into a signed latitude and a signed longitude (ISO 6709:2008 Annex H) and build the query "34.0522,-118.2437" | not executed | Formatter.FormatGps, Formatter.GpsDropsPositiveLatitude, Formatter.GpsLosAngelesExample, Formatter.GpsRejectsTwoComponents | Formatter.FormatGpsIso6709, Formatter.Iso6709RoundTrip |

`Video.LocationOf` follows `format_gps` as written. The corrected formatter is not used by the rest of the model.
