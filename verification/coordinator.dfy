/** `MetadataExtractor` of `metadata.py`: routes each path by its extension
    to the document, video or photo extractor, consults and fills a TTL
    cache, normalises every result and collects the results by path.

    The thread-pool fan-out is modelled as a sequential fold over the
    requested paths, each request carrying the clock reading at which it
    runs. The files are a fixed `Disk`: for every existing path, what each
    extractor's libraries would see in it. Because the cache's eviction
    victim is unspecified, everything that writes the cache is ghost; the
    cache-free `Reference` is not, and the main theorem says the two agree
    on every path. */
module Coordinator {
  import opened Common
  import opened PyText
  import opened Values
  import opened TtlCache
  import Document
  import Video
  import Photo

  datatype Kind = DocumentKind | VideoKind | PhotoKind

  const DocumentExtensions: set<string> := {".docx", ".pdf", ".xlsx", ".pptx"}
  const VideoExtensions: set<string> := {".mp4", ".avi", ".mov", ".mkv", ".mpeg"}
  const PhotoExtensions: set<string> := {".jpg", ".jpeg", ".png"}

  /** `extension_map`: lower-cased extension to extractor class. */
  const ExtensionMap: map<string, Kind> :=
    (map e | e in DocumentExtensions :: DocumentKind)
    + (map e | e in VideoExtensions :: VideoKind)
    + (map e | e in PhotoExtensions :: PhotoKind)

  /** `os.path.splitext(path)[1].lower()`. */
  function FileExtension(path: string): string {
    Lower(Extension(path))
  }

  /** `extension_map.get(ext)`. */
  function Route(path: string): (r: Option<Kind>)
    ensures r.Some? <==> FileExtension(path) in ExtensionMap
    ensures r.Some? ==> r.value == ExtensionMap[FileExtension(path)]
  {
    var ext := FileExtension(path);
    if ext in ExtensionMap then Some(ExtensionMap[ext]) else None
  }

  /** The routing table: exactly the four document extensions, the five
      video extensions and the three photo extensions, compared after
      lower-casing; anything else is unsupported. */
  lemma RoutingIsExact(path: string)
    ensures Route(path) == Some(DocumentKind) <==> FileExtension(path) in DocumentExtensions
    ensures Route(path) == Some(VideoKind) <==> FileExtension(path) in VideoExtensions
    ensures Route(path) == Some(PhotoKind) <==> FileExtension(path) in PhotoExtensions
    ensures Route(path).None? <==> FileExtension(path) !in DocumentExtensions + VideoExtensions + PhotoExtensions
  {
    TableIsExact(FileExtension(path));
  }

  /** The table itself: each of the three extension sets maps to its own
      extractor, and nothing else is a key. */
  lemma TableIsExact(ext: string)
    ensures ext in ExtensionMap && ExtensionMap[ext] == DocumentKind <==> ext in DocumentExtensions
    ensures ext in ExtensionMap && ExtensionMap[ext] == VideoKind <==> ext in VideoExtensions
    ensures ext in ExtensionMap && ExtensionMap[ext] == PhotoKind <==> ext in PhotoExtensions
    ensures ext !in ExtensionMap <==> ext !in DocumentExtensions + VideoExtensions + PhotoExtensions
  {
    assert DocumentExtensions !! VideoExtensions;
    assert DocumentExtensions !! PhotoExtensions;
    assert VideoExtensions !! PhotoExtensions;
  }

  /** A file name is routed by the lower-cased suffix after its last '.';
      the directory part takes no part. */
  lemma RouteOfName(dir: string, stem: string, e: string)
    requires dir == [] || dir[|dir| - 1] == '/'
    requires '/' !in stem && '/' !in e && '.' !in e
    requires exists j :: 0 <= j < |stem| && stem[j] != '.'
    ensures FileExtension(dir + stem + "." + e) == Lower("." + e)
    ensures Route(dir + stem + "." + e) ==
      if Lower("." + e) in ExtensionMap then Some(ExtensionMap[Lower("." + e)]) else None
  {
    ExtensionOfName(dir, stem, e);
  }

  /** An upper-case extension is routed like its lower-case form. */
  lemma UpperCaseDocxIsDocument()
    ensures Route("reports/q3.DOCX") == Some(DocumentKind)
  {
    ReportPieces();
    RouteOfName("reports/", "q3", "DOCX");
    TableIsExact(".docx");
  }

  /** The example path, its pieces and its lower-cased extension. */
  lemma ReportPieces()
    ensures "reports/q3.DOCX" == "reports/" + "q3" + "." + "DOCX"
    ensures "q3"[0] != '.' && '/' !in "q3" && '/' !in "DOCX" && '.' !in "DOCX"
    ensures Lower("." + "DOCX") == ".docx"
  {
    assert "." + "DOCX" == ".DOCX";
    var l := Lower(".DOCX");
    assert l[1] == 'd' && l[2] == 'o' && l[3] == 'c' && l[4] == 'x';
  }

  /** Every extension routed to the document extractor is one the
      document extractor knows, so its "Unsupported file type" error is
      unreachable from the coordinator. */
  lemma DocumentRoutesAreSupported(path: string, readers: Document.Readers)
    ensures Route(path) == Some(DocumentKind) ==>
      && FileExtension(path) in Document.FileExtensions
      && Document.ExtractMetadata(path, true, readers)
         == Document.ReadAs(Document.ReaderFor(FileExtension(path)), readers)
  {
  }

  /* ---------- the extractors ---------- */

  /** What each extractor finds in one existing file. */
  datatype FileBody = FileBody(documents: Document.Readers, media: Video.MediaParse, photo: Photo.PhotoRead)

  /** The file system: the existing paths and their contents. */
  type Disk = map<string, FileBody>

  /** The `try` block of metadata.py:79-92: the value the extractor
      returns, or the text of the exception it raised. */
  function RunExtractor(kind: Kind, path: string, body: FileBody): (r: Result<Value, string>)
    ensures kind != PhotoKind && r.Ok? ==> r.value.VDict?
    ensures kind == DocumentKind ==>
      var d := Document.ExtractMetadata(path, true, body.documents);
      (r.Ok? <==> d.Ok?) && (r.Ok? ==> r.value.entries == d.value) && (r.Err? ==> r.error == d.error)
    ensures kind == VideoKind ==>
      var v := Video.Extract(body.media);
      (r.Ok? <==> v.Ok?) && (r.Ok? ==> r.value.entries == v.value) && (r.Err? ==> r.error == v.error.msg)
    ensures kind == PhotoKind ==> r == Ok(Photo.ExtractMetadata(body.photo))
  {
    match kind
    case DocumentKind =>
      (match Document.ExtractMetadata(path, true, body.documents)
       case Ok(m) => Ok(VDict(m))
       case Err(msg) => Err(msg))
    case VideoKind =>
      (match Video.Extract(body.media)
       case Ok(m) => Ok(VDict(m))
       case Err(e) => Err(e.msg))
    case PhotoKind => Ok(Photo.ExtractMetadata(body.photo))
  }

  /* ---------- replace_none_with_default ---------- */

  const NotAvailable := "Not Available"

  /** The values normalisation replaces: `None`, a whitespace-only `str`,
      `[]` and `{}`. A float rendering always holds digits, so it is never
      blank. */
  predicate Vacant(v: Value) {
    match v
    case VNone => true
    case VStr(s) => IsBlank(s)
    case VList(items) => items == []
    case VDict(entries) => entries == map[]
    case _ => false
  }

  function NormalizeValue(v: Value): (r: Value)
    ensures Vacant(v) ==> r == VStr(NotAvailable)
    ensures !Vacant(v) ==> r == v
  {
    if Vacant(v) then VStr(NotAvailable) else v
  }

  /** `replace_none_with_default(metadata)`: `None` gives `{}`; a dict
      keeps its keys, with every vacant value replaced; anything else has
      no `items` and raises `AttributeError`. */
  function Normalize(v: Value): (r: Result<Metadata, string>)
    ensures v.VNone? ==> r == Ok(map[])
    ensures v.VDict? ==> r.Ok? && r.value.Keys == v.entries.Keys
    ensures v.VDict? ==> forall k :: k in v.entries ==>
      (Vacant(v.entries[k]) ==> r.value[k] == VStr(NotAvailable))
      && (!Vacant(v.entries[k]) ==> r.value[k] == v.entries[k])
    ensures !v.VNone? && !v.VDict? ==> r == Err(NoAttribute(v, "items"))
  {
    match v
    case VNone => Ok(map[])
    case VDict(entries) => Ok(map k | k in entries :: NormalizeValue(entries[k]))
    case _ => Err(NoAttribute(v, "items"))
  }

  lemma NotAvailableIsNotVacant()
    ensures !Vacant(VStr(NotAvailable))
  {
    assert !IsSpace(NotAvailable[0]);
  }

  /** Normalising a normalised dict changes nothing. */
  lemma NormalizeIdempotent(v: Value)
    requires Normalize(v).Ok?
    ensures Normalize(VDict(Normalize(v).value)) == Normalize(v)
  {
    NotAvailableIsNotVacant();
    var m := Normalize(v).value;
    var n := Normalize(VDict(m)).value;
    assert n.Keys == m.Keys;
    forall k | k in m ensures n[k] == m[k] {
    }
    assert n == m;
  }

  /** The per-file value the coordinator reports for a raw extractor
      value: the normalised dict, or `{'error': str(e)}` when
      normalisation raises (metadata.py:56-61). */
  function Outcome(raw: Value): (m: Metadata)
    ensures Normalize(raw).Ok? ==> m == Normalize(raw).value
    ensures Normalize(raw).Err? ==> m == ErrorDict(Normalize(raw).error)
  {
    match Normalize(raw)
    case Ok(m) => m
    case Err(msg) => ErrorDict(msg)
  }

  /** A text that begins with a non-space is not blank. */
  lemma NotBlank(s: string)
    requires |s| > 0 && !IsSpace(s[0])
    ensures !IsBlank(s)
  {
    assert !IsSpace(s[0]);
  }

  /** An error dict whose message is not blank normalises to itself. */
  lemma ErrorDictIsNormal(msg: string)
    requires !IsBlank(msg)
    ensures Normalize(VDict(ErrorDict(msg))) == Ok(ErrorDict(msg))
  {
    var n := Normalize(VDict(ErrorDict(msg))).value;
    assert n.Keys == {"error"};
    assert n["error"] == VStr(msg);
    assert n == ErrorDict(msg);
  }

  /* ---------- what each existing file yields ---------- */

  /** What `_extract_metadata` finds for an existing path once it gets past
      the cache: an extension no extractor claims, or the extractor's run. */
  datatype Found = Unrouted(ext: string) | Ran(run: Result<Value, string>)

  /** The existing paths, each with what it yields. */
  type Files = map<string, Found>

  /** Routing and running the extractor for one existing file
      (metadata.py:69, 77-78, 88-96). */
  function Classify(path: string, body: FileBody): (r: Found)
    ensures r.Unrouted? <==> Route(path).None?
    ensures r.Unrouted? ==> r.ext == FileExtension(path) && r.ext !in ExtensionMap
    ensures r.Ran? ==> r.run == RunExtractor(Route(path).value, path, body)
  {
    match Route(path)
    case None => Unrouted(FileExtension(path))
    case Some(kind) => Ran(RunExtractor(kind, path, body))
  }

  /** Every existing path of the disk with what it yields. */
  function Survey(disk: Disk): (f: Files)
    ensures f.Keys == disk.Keys
  {
    map p | p in disk :: Classify(p, disk[p])
  }

  /** Each surveyed path holds what its routing and extractor yield. */
  lemma SurveyEntry(disk: Disk, p: string)
    requires p in disk
    ensures p in Survey(disk) && Survey(disk)[p] == Classify(p, disk[p])
  {
  }

  /* ---------- the cache-free reference ---------- */

  function NotFound(path: string): string {
    "File not found: " + path
  }

  function Unsupported(ext: string): string {
    "Unsupported file type: " + ext
  }

  /** What `_extract_metadata(path)` returns when nothing is cached: the
      not-found and unsupported-type error dicts, the extractor's error
      dict, or its value. */
  function Fresh(files: Files, path: string): (v: Value)
    ensures path !in files ==> v == VDict(ErrorDict(NotFound(path)))
    ensures path in files && files[path].Unrouted? ==> v == VDict(ErrorDict(Unsupported(files[path].ext)))
    ensures path in files && files[path].Ran? && files[path].run.Err? ==> v == VDict(ErrorDict(files[path].run.error))
    ensures path in files && files[path].Ran? && files[path].run.Ok? ==> v == files[path].run.value
  {
    if path !in files then VDict(ErrorDict(NotFound(path)))
    else
      match files[path]
      case Unrouted(ext) => VDict(ErrorDict(Unsupported(ext)))
      case Ran(Err(msg)) => VDict(ErrorDict(msg))
      case Ran(Ok(v)) => v
  }

  /** The entry the coordinator reports for `path` with no cache. */
  function Reference(files: Files, path: string): Metadata {
    Outcome(Fresh(files, path))
  }

  /* ---------- one path, with the cache ---------- */

  /** A value the cache may hold for `path`: the extractor's raw value,
      or the error dict written when that value failed to normalise. */
  predicate SoundEntry(files: Files, path: string, v: Value) {
    || v == Fresh(files, path)
    || (Normalize(Fresh(files, path)).Err? && v == VDict(ErrorDict(Normalize(Fresh(files, path)).error)))
  }

  predicate CacheSound(c: Cache, files: Files) {
    forall p :: p in c.entries ==> SoundEntry(files, p, c.entries[p].value)
  }

  /** A cache hit needs a truthy cached value (metadata.py:72-74). */
  predicate Hit(c: Cache, path: string, now: int) {
    Get(c, path, now).Some? && Truthy(Get(c, path, now).value)
  }

  /** Whether a miss on `path` writes the cache: only a routed extractor
      that returned normally. */
  predicate Caches(files: Files, path: string) {
    path in files && files[path].Ran? && files[path].run.Ok?
  }

  /** `_extract_metadata(path)` at time `now`: the value and the cache
      after it. The existence check comes before the cache is read; only a
      successful extractor's raw value is written, and only on a miss. */
  ghost function ExtractOne(c: Cache, files: Files, path: string, now: int): (r: (Value, Cache))
    ensures path !in files ==> r == (VDict(ErrorDict(NotFound(path))), c)
    ensures path in files && Hit(c, path, now) ==> r == (c.entries[path].value, c)
    ensures path in files && !Hit(c, path, now) ==> r.0 == Fresh(files, path)
    ensures path in files && !Hit(c, path, now) ==>
      r.1 == if Caches(files, path) then Put(c, path, r.0, now) else c
  {
    if path !in files then (VDict(ErrorDict(NotFound(path))), c)
    else if Hit(c, path, now) then (c.entries[path].value, c)
    else
      match files[path]
      case Unrouted(ext) => (VDict(ErrorDict(Unsupported(ext))), c)
      case Ran(Err(msg)) => (VDict(ErrorDict(msg)), c)
      case Ran(Ok(v)) => (v, Put(c, path, v, now))
  }

  /** The coordinator's state between paths: results so far and the cache. */
  datatype State = State(results: map<string, Metadata>, cache: Cache)

  /** metadata.py:57-61 for one path whose `_extract_metadata` returned
      `raw`, with `c` the cache after it: the outcome is recorded, and a
      normalisation error is also written to the cache. */
  ghost function Record(results: map<string, Metadata>, c: Cache, path: string, raw: Value, now: int): (r: State)
    ensures r.results == results[path := Outcome(raw)]
    ensures Normalize(raw).Ok? ==> r.cache == c
    ensures Normalize(raw).Err? ==> r.cache == Put(c, path, VDict(ErrorDict(Normalize(raw).error)), now)
  {
    match Normalize(raw)
    case Ok(m) => State(results[path := m], c)
    case Err(msg) => State(results[path := ErrorDict(msg)], Put(c, path, VDict(ErrorDict(msg)), now))
  }

  /** One path of `extract_metadata()`: extract, normalise, record. */
  ghost function Step(s: State, files: Files, path: string, now: int): (r: State)
    ensures r.results.Keys == s.results.Keys + {path}
    ensures forall p :: p in s.results && p != path ==> r.results[p] == s.results[p]
  {
    var out := ExtractOne(s.cache, files, path, now);
    Record(s.results, out.1, path, out.0, now)
  }

  /** A request: a path and the clock reading at which it is processed. */
  datatype Request = Request(path: string, now: int)

  /** The set of requested paths. */
  function Paths(requests: seq<Request>): set<string>
    decreases |requests|
  {
    if requests == [] then {} else {requests[0].path} + Paths(requests[1..])
  }

  /** The sequential form of the thread-pool loop. */
  ghost function RunAll(s: State, files: Files, requests: seq<Request>): (r: State)
    decreases |requests|
  {
    if requests == [] then s
    else RunAll(Step(s, files, requests[0].path, requests[0].now), files, requests[1..])
  }

  /** `extract_metadata()` on a fresh result dict and the given cache. */
  ghost function ExtractAll(c: Cache, files: Files, requests: seq<Request>): State {
    RunAll(State(map[], c), files, requests)
  }

  /* ---------- cache transparency ---------- */

  /** Normalising a sound cache entry reports what a cache-free run would. */
  lemma SoundEntryOutcome(files: Files, path: string, v: Value)
    requires SoundEntry(files, path, v)
    ensures Outcome(v) == Reference(files, path)
  {
    if v != Fresh(files, path) {
      var msg := Normalize(Fresh(files, path)).error;
      NotBlank(msg);
      ErrorDictIsNormal(msg);
    }
  }

  /** A write of a sound value keeps the cache sound. */
  lemma PutKeepsSound(c: Cache, files: Files, path: string, v: Value, now: int)
    requires CacheSound(c, files) && SoundEntry(files, path, v)
    ensures CacheSound(Put(c, path, v, now), files)
  {
  }

  /** One step from a sound cache records the reference value for the
      path and leaves the cache sound and bounded. */
  lemma StepIsTransparent(s: State, files: Files, path: string, now: int)
    requires CacheSound(s.cache, files)
    ensures CacheSound(Step(s, files, path, now).cache, files)
    ensures Step(s, files, path, now).results[path] == Reference(files, path)
    ensures Bounded(s.cache) ==> Bounded(Step(s, files, path, now).cache)
  {
    var (raw, c) := ExtractOne(s.cache, files, path, now);
    if path !in files {
      NotBlank(NotFound(path));
    } else {
      assert SoundEntry(files, path, raw);
      if !Hit(s.cache, path, now) && Caches(files, path) {
        PutKeepsSound(s.cache, files, path, raw, now);
      }
      assert CacheSound(c, files);
      SoundEntryOutcome(files, path, raw);
      if Normalize(raw).Err? {
        assert raw == Fresh(files, path);
        PutKeepsSound(c, files, path, VDict(ErrorDict(Normalize(raw).error)), now);
      }
    }
  }

  /** From a sound cache, every step and so the whole run leaves the
      cache sound and within its bound. */
  lemma {:induction false} RunAllKeepsCacheSound(s: State, files: Files, requests: seq<Request>)
    requires CacheSound(s.cache, files)
    ensures CacheSound(RunAll(s, files, requests).cache, files)
    ensures Bounded(s.cache) ==> Bounded(RunAll(s, files, requests).cache)
    decreases |requests|
  {
    if requests != [] {
      StepIsTransparent(s, files, requests[0].path, requests[0].now);
      RunAllKeepsCacheSound(Step(s, files, requests[0].path, requests[0].now), files, requests[1..]);
    }
  }

  /** A run adds exactly the requested paths to the result dict and
      leaves the other entries alone. */
  lemma {:induction false} RunAllKeys(s: State, files: Files, requests: seq<Request>)
    ensures RunAll(s, files, requests).results.Keys == s.results.Keys + Paths(requests)
    ensures forall p :: p in s.results && p !in Paths(requests) ==>
      RunAll(s, files, requests).results[p] == s.results[p]
    decreases |requests|
  {
    if requests != [] {
      var r0, rest := requests[0], requests[1..];
      var s1 := Step(s, files, r0.path, r0.now);
      RunAllKeys(s1, files, rest);
      assert Paths(requests) == {r0.path} + Paths(rest);
    }
  }

  /** Cache transparency: from any sound cache, at any clock readings,
      every requested path ends up with its cache-free reference value. */
  lemma {:induction false} RunAllIsTransparent(s: State, files: Files, requests: seq<Request>)
    requires CacheSound(s.cache, files)
    ensures forall p :: p in Paths(requests) ==>
      p in RunAll(s, files, requests).results && RunAll(s, files, requests).results[p] == Reference(files, p)
    decreases |requests|
  {
    RunAllKeys(s, files, requests);
    if requests != [] {
      var r0, rest := requests[0], requests[1..];
      var s1 := Step(s, files, r0.path, r0.now);
      StepIsTransparent(s, files, r0.path, r0.now);
      RunAllIsTransparent(s1, files, rest);
      RunAllKeys(s1, files, rest);
      var final := RunAll(s1, files, rest);
      assert RunAll(s, files, requests) == final;
      forall p | p in Paths(requests) ensures final.results[p] == Reference(files, p) {
        if p !in Paths(rest) {
          assert p == r0.path && p in s1.results;
        }
      }
    }
  }

  /** The result dict of a run has exactly the requested paths as keys
      (duplicates collapse), each holding its reference value, whatever the
      cache held before, as long as it held only sound entries; an empty
      cache is sound. */
  lemma ExtractAllMatchesReference(c: Cache, files: Files, requests: seq<Request>)
    requires CacheSound(c, files)
    ensures ExtractAll(c, files, requests).results.Keys == Paths(requests)
    ensures forall p :: p in Paths(requests) ==> ExtractAll(c, files, requests).results[p] == Reference(files, p)
    ensures CacheSound(ExtractAll(c, files, requests).cache, files)
    ensures Bounded(c) ==> Bounded(ExtractAll(c, files, requests).cache)
  {
    ExtractAllResults(c, files, requests);
    ExtractAllCache(c, files, requests);
  }

  /** The result-dict half of `ExtractAllMatchesReference`. */
  lemma ExtractAllResults(c: Cache, files: Files, requests: seq<Request>)
    requires CacheSound(c, files)
    ensures ExtractAll(c, files, requests).results.Keys == Paths(requests)
    ensures forall p :: p in Paths(requests) ==> ExtractAll(c, files, requests).results[p] == Reference(files, p)
  {
    RunAllKeys(State(map[], c), files, requests);
    RunAllIsTransparent(State(map[], c), files, requests);
  }

  /** The cache half of `ExtractAllMatchesReference`. */
  lemma ExtractAllCache(c: Cache, files: Files, requests: seq<Request>)
    requires CacheSound(c, files)
    ensures CacheSound(ExtractAll(c, files, requests).cache, files)
    ensures Bounded(c) ==> Bounded(ExtractAll(c, files, requests).cache)
  {
    RunAllKeepsCacheSound(State(map[], c), files, requests);
  }

  /** The fan-out's completion order cannot matter: two runs over the
      same set of paths, in any order and from any sound caches, report
      the same dict. */
  lemma OrderDoesNotMatter(c1: Cache, c2: Cache, files: Files, r1: seq<Request>, r2: seq<Request>)
    requires CacheSound(c1, files) && CacheSound(c2, files)
    requires Paths(r1) == Paths(r2)
    ensures ExtractAll(c1, files, r1).results == ExtractAll(c2, files, r2).results
  {
    ExtractAllMatchesReference(c1, files, r1);
    ExtractAllMatchesReference(c2, files, r2);
    BothReference(ExtractAll(c1, files, r1).results, ExtractAll(c2, files, r2).results, files, Paths(r1));
  }

  /** Two result dicts over the same paths that both hold the reference
      values are equal. */
  lemma BothReference(a: map<string, Metadata>, b: map<string, Metadata>, files: Files, paths: set<string>)
    requires a.Keys == paths && b.Keys == paths
    requires forall p :: p in paths ==> a[p] == Reference(files, p)
    requires forall p :: p in paths ==> b[p] == Reference(files, p)
    ensures a == b
  {
    forall p | p in paths ensures a[p] == b[p] {
    }
  }

  lemma EmptyCacheIsSound(files: Files)
    ensures CacheSound(TtlCache.Empty, files)
  {
  }

  /* ---------- the protocol's edge cases ---------- */

  /** A missing file is reported before the cache is read, and the cache
      is left as it was. */
  lemma MissingFileSkipsCache(c: Cache, files: Files, path: string, now: int)
    requires path !in files
    ensures Step(State(map[], c), files, path, now) == State(map[path := ErrorDict(NotFound(path))], c)
  {
    NotBlank(NotFound(path));
    ErrorDictIsNormal(NotFound(path));
  }

  /** A cached value that is falsy (`{}` or `None`) is a miss: the
      extractor runs again. */
  lemma FalsyCachedValueIsMiss(c: Cache, files: Files, path: string, now: int)
    requires path in files && Get(c, path, now).Some? && !Truthy(Get(c, path, now).value)
    ensures ExtractOne(c, files, path, now).0 == Fresh(files, path)
  {
  }

  /** A failing extractor's error dict is reported but never cached, and
      neither is an unsupported extension's. */
  lemma ErrorsAreNotCached(c: Cache, files: Files, path: string, now: int)
    requires path in files && !Hit(c, path, now)
    requires files[path].Unrouted? || files[path].run.Err?
    ensures ExtractOne(c, files, path, now).1 == c
    ensures Step(State(map[], c), files, path, now).cache == c
  {
  }

  /** An extractor that raises with a non-blank message is reported with
      that message, and the cache is left as it was. */
  lemma RaisedIsReported(c: Cache, files: Files, path: string, now: int, msg: string)
    requires path in files && !Hit(c, path, now) && files[path] == Ran(Err(msg))
    requires !IsBlank(msg)
    ensures Step(State(map[], c), files, path, now) == State(map[path := ErrorDict(msg)], c)
  {
    ErrorDictIsNormal(msg);
  }

  /** An extractor that returns `{}` has `{}` reported; the `{}` is cached
      but, being falsy, can never be a hit. */
  lemma EmptyResultIsNeverAHit(c: Cache, files: Files, path: string, now: int, later: int)
    requires path in files && !Hit(c, path, now) && files[path] == Ran(Ok(VDict(map[])))
    ensures Step(State(map[], c), files, path, now).results[path] == map[]
    ensures !Hit(Step(State(map[], c), files, path, now).cache, path, later)
  {
    var out := ExtractOne(c, files, path, now);
    assert out == (VDict(map[]), Put(c, path, VDict(map[]), now));
    assert Normalize(VDict(map[])) == Ok(map[]);
    var c1 := Step(State(map[], c), files, path, now).cache;
    assert c1 == Put(c, path, VDict(map[]), now);
    assert c1.entries[path].value == VDict(map[]);
  }

  /** An extractor value that is neither a dict nor `None` is cached on
      the miss, then fails to normalise; the error dict is reported and
      overwrites the cached value. */
  lemma NonDictIsCachedAsError(c: Cache, files: Files, path: string, now: int, v: Value)
    requires path in files && !Hit(c, path, now) && files[path] == Ran(Ok(v))
    requires !v.VNone? && !v.VDict?
    ensures Step(State(map[], c), files, path, now).results[path] == ErrorDict(NoAttribute(v, "items"))
    ensures Get(Step(State(map[], c), files, path, now).cache, path, now) == Some(VDict(ErrorDict(NoAttribute(v, "items"))))
  {
    var out := ExtractOne(c, files, path, now);
    assert out == (v, Put(c, path, v, now));
  }

  /** An extractor that returns `None` is reported as `{}`. */
  lemma NoneIsReportedEmpty(files: Files, path: string)
    requires path in files && files[path] == Ran(Ok(VNone))
    ensures Reference(files, path) == map[]
  {
  }

  /** A photo's Resolution text, whatever tags are missing, is not
      blank, so normalisation keeps it. */
  lemma MissingResolutionIsKept(tags: Photo.Tags)
    ensures NormalizeValue(VStr(Photo.Resolution(tags))) == VStr(Photo.Resolution(tags))
  {
    Photo.ResolutionIsNotBlank(tags);
  }

  /** Blank text, such as the `''` a PDF reader defaults to, is reported
      as "Not Available". */
  lemma EmptyTextIsNotAvailable(s: string)
    requires IsBlank(s)
    ensures NormalizeValue(VStr(s)) == VStr(NotAvailable)
  {
  }

  /* ---------- what the extractors hand back in the edge cases ---------- */

  /** A video whose parse fails raises the parse error out of the `try`
      block. */
  lemma VideoParseFailureRaises(path: string, body: FileBody)
    requires body.media.ParseFailed?
    ensures RunExtractor(VideoKind, path, body) == Err(Video.ParseErrorPrefix + body.media.reason)
  {
  }

  /** A video without tracks returns `{}`. */
  lemma TracklessVideoIsEmpty(path: string, body: FileBody)
    requires body.media == Video.Parsed([])
    ensures RunExtractor(VideoKind, path, body) == Ok(VDict(map[]))
  {
  }

  /** A photo the extractor cannot open comes back as the plain value
      "File Error", not as an exception. */
  lemma PhotoOpenFailureIsValue(path: string, body: FileBody)
    requires body.photo == Photo.OpenFailed
    ensures RunExtractor(PhotoKind, path, body) == Ok(VStr(Photo.FileError))
  {
  }

  /** A photo extractor that crashes comes back as the plain value `None`. */
  lemma PhotoCrashIsValue(path: string, body: FileBody)
    requires body.photo == Photo.Crashed
    ensures RunExtractor(PhotoKind, path, body) == Ok(VNone)
  {
  }
}
