/**
 * The upload route: multer's extension filter, size limit and stored-name rule, the
 * GeoJSON structure check, and the handler that dispatches an uploaded file to the
 * parser for its extension. The parsers are oracles over the file's bytes
 * (`JSON.parse`, `xml2js.parseString` and `tiff.fromBuffer`, each after reading the
 * stored file); `Failure` stands for an exception they throw.
 */
module FileRoutes {
  import opened Wrappers
  import opened Json
  import opened Http
  import Text
  import Auth

  newtype byte = b: int | 0 <= b < 256

  /** The `file` part of a multipart request: `file.originalname` and its bytes. */
  datatype UploadedFile = UploadedFile(originalName: string, content: seq<byte>)

  datatype ParseFailure = ParseFailure

  datatype Parsers = Parsers(
    json: seq<byte> -> Result<Json, ParseFailure>,
    kml: seq<byte> -> Result<Json, ParseFailure>,
    tiff: seq<byte> -> Result<Json, ParseFailure>)

  /** The three formats the handler knows a parser for. */
  datatype Format = GeoJson | Kml | Tiff

  const AllowedExtensions: seq<string> := ["geojson", "kml", "tiff"]
  const InvalidTypeMessage := "Invalid file type. Only GeoJSON, KML, and TIFF files are allowed."
  const NoFileMessage := "No file uploaded."
  const ServerErrorMessage := "An error occurred while uploading and processing the file."
  const SuccessMessage := "File uploaded and processed successfully"

  /** multer's `limits.fileSize`: 10 MiB. */
  const MaxFileSize: nat := 10 * 1024 * 1024

  lemma MaxFileSizeIsTenMebibytes()
    ensures MaxFileSize == 10485760
  {
  }

  // ---------------------------------------------------------------------------
  // extension, filter, dispatch
  // ---------------------------------------------------------------------------

  /** `name.split('.').pop().toLowerCase()`. */
  function Extension(name: string): (ext: string)
    ensures '.' !in ext
    ensures forall i :: 0 <= i < |ext| ==> !('A' <= ext[i] <= 'Z')
  {
    Text.Lower(Text.Last(Text.Split(name, '.')))
  }

  /**
   * The extension is the lower-cased text after the last `.` of the name, and the
   * whole name lower-cased when the name has no `.`.
   */
  lemma ExtensionIsTextAfterLastDot(name: string)
    ensures var ext := Extension(name);
      var k := |name| - |ext|;
      0 <= k && ext == Text.Lower(name[k..]) && '.' !in name[k..] &&
      (k == 0 || name[k - 1] == '.')
    ensures '.' !in name ==> Extension(name) == Text.Lower(name)
  {
    Text.LastPieceIsSuffix(name, '.');
    var p := Text.Last(Text.Split(name, '.'));
    assert p in Text.Split(name, '.');
    if '.' !in name {
      assert name[0..] == name;
    }
  }

  /** Two names that differ only in letter case have the same extension. */
  lemma ExtensionIgnoresCase(a: string, b: string)
    requires Text.Lower(a) == Text.Lower(b)
    ensures Extension(a) == Extension(b)
  {
    Text.LowerLastPiece(a, '.');
    Text.LowerLastPiece(b, '.');
  }

  /** The arguments multer's `fileFilter` passes to its callback: `cb(error, accept)`. */
  datatype FilterVerdict = FilterVerdict(error: Option<string>, accept: bool)

  function FileFilter(originalName: string): (v: FilterVerdict)
    ensures v.accept <==> Extension(originalName) in {"geojson", "kml", "tiff"}
    ensures v.accept <==> v.error.None?
    ensures !v.accept ==> v.error == Some(InvalidTypeMessage)
  {
    if Extension(originalName) in AllowedExtensions then FilterVerdict(None, true)
    else FilterVerdict(Some(InvalidTypeMessage), false)
  }

  /** Admission is case-insensitive. */
  lemma FilterIgnoresCase(a: string, b: string)
    requires Text.Lower(a) == Text.Lower(b)
    ensures FileFilter(a) == FileFilter(b)
  {
    ExtensionIgnoresCase(a, b);
  }

  /** The handler's `if / else if` chain: which parser an extension selects. */
  function Dispatch(ext: string): (f: Option<Format>)
    ensures f == Some(GeoJson) <==> ext == "geojson"
    ensures f == Some(Kml) <==> ext == "kml"
    ensures f == Some(Tiff) <==> ext == "tiff"
  {
    if ext == "geojson" then Some(GeoJson)
    else if ext == "kml" then Some(Kml)
    else if ext == "tiff" then Some(Tiff)
    else None
  }

  /**
   * The filter's allow-list and the handler's dispatch agree: a name is admitted
   * exactly when its extension selects a parser.
   */
  lemma FilterAgreesWithDispatch(name: string)
    ensures FileFilter(name).accept <==> Dispatch(Extension(name)).Some?
  {
  }

  // ---------------------------------------------------------------------------
  // stored file name
  // ---------------------------------------------------------------------------

  /** multer's `filename` callback: `Date.now() + '-' + file.originalname`. */
  function StoredFilename(now: nat, originalName: string): (stored: string)
    ensures |stored| > |originalName|
    ensures stored[|stored| - |originalName|..] == originalName
    ensures stored[..|stored| - |originalName| - 1] == Text.NumberToString(now)
    ensures stored[|stored| - |originalName| - 1] == '-'
  {
    Text.NumberToString(now) + "-" + originalName
  }

  /** The stored name determines both the timestamp and the original name. */
  lemma {:induction false} StoredFilenameInjective(t1: nat, n1: string, t2: nat, n2: string)
    requires StoredFilename(t1, n1) == StoredFilename(t2, n2)
    ensures t1 == t2 && n1 == n2
  {
    var a, b := Text.NumberToString(t1), Text.NumberToString(t2);
    var s := StoredFilename(t1, n1);
    assert s == a + "-" + n1 && s == b + "-" + n2;
    assert |a| == |b|;
    assert a == s[..|a|] == b;
    Text.NumberToStringInjective(t1, t2);
    assert n1 == s[|a| + 1..] == n2;
  }

  // ---------------------------------------------------------------------------
  // GeoJSON structure check
  // ---------------------------------------------------------------------------

  /**
   * `geojsonData && geojsonData.type === 'FeatureCollection' &&
   * Array.isArray(geojsonData.features)`: none of the reads can throw, because
   * the value is truthy by then.
   */
  predicate IsFeatureCollection(j: Json): (b: bool)
    ensures b ==> j.JObject?
  {
    assert !Text.AllDigits("type") by { assert !Text.IsDigit("type"[0]); }
    && Truthy(j)
    && Property(j, "type") == Some(JString("FeatureCollection"))
    && (match Property(j, "features") case Some(JArray(_)) => true case _ => false)
  }

  /** The check holds of exactly the objects whose `type` is `FeatureCollection` and whose `features` is an array. */
  lemma FeatureCollectionShape(j: Json)
    ensures IsFeatureCollection(j) <==>
      && j.JObject?
      && "type" in j.fields && j.fields["type"] == JString("FeatureCollection")
      && "features" in j.fields && j.fields["features"].JArray?
  {
    assert !Text.AllDigits("type") by { assert !Text.IsDigit("type"[0]); }
    assert !Text.AllDigits("features") by { assert !Text.IsDigit("features"[0]); }
  }

  /** What `processGeoJSON` logs: `Valid GeoJSON!` or `Invalid GeoJSON structure!`. */
  datatype LogLine = ValidGeoJson | InvalidGeoJsonStructure

  datatype GeoJsonOutcome = GeoJsonOutcome(data: Json, log: LogLine)

  /**
   * `processGeoJSON` after parsing: the check only chooses the log line; the parsed
   * value is returned either way.
   */
  function ProcessGeoJson(parsed: Json): (r: GeoJsonOutcome)
    ensures r.data == parsed
    ensures r.log == ValidGeoJson <==> IsFeatureCollection(parsed)
  {
    if IsFeatureCollection(parsed) then GeoJsonOutcome(parsed, ValidGeoJson)
    else GeoJsonOutcome(parsed, InvalidGeoJsonStructure)
  }

  /** Validity never changes what `processGeoJSON` returns. */
  lemma ValidityDoesNotChangeResult(p: Json, q: Json)
    requires IsFeatureCollection(p) && !IsFeatureCollection(q)
    ensures ProcessGeoJson(p).data == p && ProcessGeoJson(q).data == q
    ensures ProcessGeoJson(p).log != ProcessGeoJson(q).log
  {
  }

  // ---------------------------------------------------------------------------
  // the upload handler and the route
  // ---------------------------------------------------------------------------

  /** The value `processGeoJSON`, `processKML` or `processTIFF` returns for a file, or the exception it throws. */
  function RunParser(parsers: Parsers, f: Format, content: seq<byte>): (r: Result<Json, ParseFailure>)
    // a GeoJSON file fails only when it does not parse, and its value is the parsed value
    // unchanged whether or not it is a FeatureCollection
    ensures f == GeoJson ==>
      (r.Success? <==> parsers.json(content).Success?) &&
      (r.Success? ==> r.value == parsers.json(content).value)
    ensures f == Kml ==> r == parsers.kml(content)
    ensures f == Tiff ==> r == parsers.tiff(content)
  {
    match f
    case GeoJson =>
      (match parsers.json(content)
       case Success(j) => Success(ProcessGeoJson(j).data)
       case Failure(e) => Failure(e))
    case Kml => parsers.kml(content)
    case Tiff => parsers.tiff(content)
  }

  /**
   * The route handler after the middlewares: `file` is `req.file`, `now` the value of
   * `Date.now()` when the dataset is built. `ran` is the parser that was called.
   */
  method HandleUpload(file: Option<UploadedFile>, now: nat, parsers: Parsers)
    returns (reply: Reply, ran: Option<Format>)
    ensures file.None? ==> reply == Reply(400, ErrorBody(NoFileMessage)) && ran.None?
    ensures file.Some? ==> ran == Dispatch(Extension(file.value.originalName))
    ensures file.Some? && ran.None? ==>
      reply == Reply(200, DatasetBody(SuccessMessage, Dataset(Text.NumberToString(now), JNull)))
    ensures file.Some? && ran.Some? ==>
      match RunParser(parsers, ran.value, file.value.content)
      case Success(data) =>
        reply == Reply(200, DatasetBody(SuccessMessage, Dataset(Text.NumberToString(now), data)))
      case Failure(_) => reply == Reply(500, ErrorBody(ServerErrorMessage))
  {
    if file.None? {
      return Reply(400, ErrorBody(NoFileMessage)), None;
    }
    var dataset := Dataset(Text.NumberToString(now), JNull);
    var ext := Extension(file.value.originalName);
    var content := file.value.content;
    var parsed: Result<Json, ParseFailure> := Success(JNull);
    ran := None;
    if ext == "geojson" {
      ran := Some(GeoJson);
      parsed := match parsers.json(content)
        case Success(j) => Success(ProcessGeoJson(j).data)
        case Failure(e) => Failure(e);
    } else if ext == "kml" {
      ran := Some(Kml);
      parsed := parsers.kml(content);
    } else if ext == "tiff" {
      ran := Some(Tiff);
      parsed := parsers.tiff(content);
    }
    match parsed {
      case Failure(_) =>
        reply := Reply(500, ErrorBody(ServerErrorMessage));
      case Success(data) =>
        dataset := dataset.(data := data);
        reply := Reply(200, DatasetBody(SuccessMessage, dataset));
    }
  }

  /** Why multer passes an error on instead of calling the handler. */
  datatype Rejection = InvalidFileType(message: string) | FileTooLarge

  /** How a request to `POST /upload` ends. */
  datatype UploadOutcome =
    | AuthFailed(reply: Reply)
    | Rejected(reason: Rejection)
    | Handled(reply: Reply, ran: Option<Format>, storedAs: Option<string>)

  /** The file passes multer: its extension is allowed and it fits the size limit. */
  predicate Admitted(f: UploadedFile): (b: bool)
    ensures b ==> Dispatch(Extension(f.originalName)).Some? && |f.content| <= 10485760
  {
    FilterAgreesWithDispatch(f.originalName);
    FileFilter(f.originalName).accept && |f.content| <= MaxFileSize
  }

  /**
   * `router.post('/upload', authenticate, upload.single('file'), handler)`.
   * `savedAt` and `handledAt` are the two readings of `Date.now()`.
   */
  method PostUpload(authorization: Option<string>, verify: Auth.Verifier,
                    file: Option<UploadedFile>, savedAt: nat, handledAt: nat, parsers: Parsers)
    returns (outcome: UploadOutcome)
    ensures Auth.Authenticate(authorization, verify).Respond? ==>
      outcome == AuthFailed(Auth.Authenticate(authorization, verify).reply)
    ensures Auth.Authenticate(authorization, verify).Next? && file.None? ==>
      outcome == Handled(Reply(400, ErrorBody(NoFileMessage)), None, None)
    ensures (Auth.Authenticate(authorization, verify).Next? && file.Some? &&
             !FileFilter(file.value.originalName).accept) ==>
      outcome == Rejected(InvalidFileType(InvalidTypeMessage))
    ensures (Auth.Authenticate(authorization, verify).Next? && file.Some? &&
             FileFilter(file.value.originalName).accept && !Admitted(file.value)) ==>
      outcome == Rejected(FileTooLarge)
    // every admitted file is stored under its timestamped name and reaches exactly one parser,
    // whose value is sent back as the dataset (a throw gives the 500 reply)
    ensures Auth.Authenticate(authorization, verify).Next? && file.Some? && Admitted(file.value) ==>
      && outcome.Handled?
      && outcome.storedAs == Some(StoredFilename(savedAt, file.value.originalName))
      && outcome.ran.Some?
      && outcome.ran == Dispatch(Extension(file.value.originalName))
      && (match RunParser(parsers, outcome.ran.value, file.value.content)
          case Success(data) =>
            outcome.reply == Reply(200, DatasetBody(SuccessMessage, Dataset(Text.NumberToString(handledAt), data)))
          case Failure(_) => outcome.reply == Reply(500, ErrorBody(ServerErrorMessage)))
    // a parser runs only for an authenticated request carrying an admitted file
    ensures outcome.Handled? && outcome.ran.Some? ==>
      Auth.Authenticate(authorization, verify).Next? && file.Some? && Admitted(file.value)
  {
    var auth := Auth.Authenticate(authorization, verify);
    if auth.Respond? {
      return AuthFailed(auth.reply);
    }
    if file.Some? {
      var verdict := FileFilter(file.value.originalName);
      if !verdict.accept {
        return Rejected(InvalidFileType(verdict.error.value));
      }
      if |file.value.content| > MaxFileSize {
        return Rejected(FileTooLarge);
      }
    }
    var storedAs := if file.Some? then Some(StoredFilename(savedAt, file.value.originalName)) else None;
    FilterAgreesWithDispatch(if file.Some? then file.value.originalName else "");
    var reply, ran := HandleUpload(file, handledAt, parsers);
    outcome := Handled(reply, ran, storedAs);
  }

  // ---------------------------------------------------------------------------
  // examples
  // ---------------------------------------------------------------------------

  /** Whatever precedes the last dot, the extension is the lower-cased text after it. */
  lemma ExtensionAfterLastDot(prefix: string, ext: string)
    requires '.' !in ext
    ensures Extension(prefix + "." + ext) == Text.Lower(ext)
  {
    var x := prefix + ".";
    assert x[..|x| - 1] == prefix;
    Text.SplitExtend(x, ext, '.');
    assert x + ext == prefix + "." + ext;
  }

  /** Upper-case extensions are admitted. */
  lemma UpperCaseExtensionAdmitted()
    ensures FileFilter("ROADS.GEOJSON").accept
  {
    ExtensionAfterLastDot("ROADS", "GEOJSON");
    assert "ROADS" + "." + "GEOJSON" == "ROADS.GEOJSON";
    assert Text.Lower("GEOJSON") == "geojson";
  }

  /** Only the text after the last dot counts. */
  lemma LastDotDecides()
    ensures FileFilter("archive.tar.kml").accept
    ensures !FileFilter("roads.kml.zip").accept
  {
    ExtensionAfterLastDot("archive.tar", "kml");
    assert "archive.tar" + "." + "kml" == "archive.tar.kml";
    assert Text.Lower("kml") == "kml";
    ExtensionAfterLastDot("roads.kml", "zip");
    assert "roads.kml" + "." + "zip" == "roads.kml.zip";
    assert Text.Lower("zip") == "zip";
  }

  /** `.json` and `.tif` are not on the allow-list. */
  lemma JsonAndTifRejected()
    ensures !FileFilter("roads.json").accept
    ensures !FileFilter("scan.tif").accept
  {
    ExtensionAfterLastDot("roads", "json");
    assert "roads" + "." + "json" == "roads.json";
    assert Text.Lower("json") == "json";
    ExtensionAfterLastDot("scan", "tif");
    assert "scan" + "." + "tif" == "scan.tif";
    assert Text.Lower("tif") == "tif";
  }

  /** A name without any dot is its own extension, so a file named `KML` is admitted. */
  lemma DotlessNameIsItsOwnExtension()
    ensures Extension("KML") == "kml"
    ensures FileFilter("KML").accept
  {
    ExtensionIsTextAfterLastDot("KML");
  }
}
