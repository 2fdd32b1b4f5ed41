/**
 * The object-storage adapter: its configuration check, the location an upload returns,
 * and the recovery of an object key from a public URL. The S3 requests themselves are
 * outcomes passed in by the caller.
 */
module Storage {

  import opened Wrappers
  import opened Text

  const MISSING_CONFIGURATION: string := "Missing R2 configuration"
  const UNKNOWN_ERROR: string := "Unknown error"

  /** The five configuration values as the configuration service reports them. */
  datatype R2Settings = R2Settings(
    accessKeyId: Option<string>,
    secretAccessKey: Option<string>,
    endpoint: Option<string>,
    bucket: Option<string>,
    publicUrl: Option<string>)

  /** A constructed service: every value present and non-empty. */
  datatype StorageConfig = StorageConfig(
    accessKeyId: string, secretAccessKey: string, endpoint: string, bucket: string, publicUrl: string)

  /** How a request to the storage backend failed: with an `Error`, or by throwing another value. */
  datatype SendFailure = SendError(message: string) | SendThrew

  /** A setting counts as given when it is present and not the empty string. */
  predicate Given(v: Option<string>) {
    v.Some? && v.value != ""
  }

  function Configure(settings: R2Settings): (r: Result<StorageConfig, string>)
    ensures r.Ok? <==>
      Given(settings.accessKeyId) && Given(settings.secretAccessKey) && Given(settings.endpoint) &&
      Given(settings.bucket) && Given(settings.publicUrl)
    ensures r.Err? ==> r.error == MISSING_CONFIGURATION
    ensures r.Ok? ==>
      && r.value.accessKeyId == settings.accessKeyId.value && r.value.secretAccessKey == settings.secretAccessKey.value
      && r.value.endpoint == settings.endpoint.value && r.value.bucket == settings.bucket.value
      && r.value.publicUrl == settings.publicUrl.value && r.value.publicUrl != ""
  {
    if !Given(settings.accessKeyId) || !Given(settings.secretAccessKey) || !Given(settings.endpoint)
       || !Given(settings.bucket) || !Given(settings.publicUrl)
    then Err(MISSING_CONFIGURATION)
    else Ok(StorageConfig(settings.accessKeyId.value, settings.secretAccessKey.value, settings.endpoint.value,
                          settings.bucket.value, settings.publicUrl.value))
  }

  /** The public URL with a trailing slash added when it lacks one. */
  function PublicBase(publicUrl: string): string {
    if EndsWith(publicUrl, "/") then publicUrl else publicUrl + "/"
  }

  /** The base extends the public URL by at most one character and ends in exactly one added `/`. */
  lemma PublicBaseShape(publicUrl: string)
    ensures var base := PublicBase(publicUrl);
      && StartsWith(base, publicUrl) && EndsWith(base, "/")
      && |base| == if EndsWith(publicUrl, "/") then |publicUrl| else |publicUrl| + 1
  {
    var base := PublicBase(publicUrl);
    assert base[..|publicUrl|] == publicUrl;
    if !EndsWith(publicUrl, "/") {
      assert base[|base| - 1..] == "/";
    }
  }

  /** Where an uploaded object can be found: a public URL, or just the key for a private object. */
  function UploadLocation(publicUrl: string, key: string, isPublic: bool): string {
    if isPublic then PublicBase(publicUrl) + key else key
  }

  /** A public location is the public base followed by the key; a private one is the key itself. */
  lemma UploadLocationShape(publicUrl: string, key: string, isPublic: bool)
    ensures var location := UploadLocation(publicUrl, key, isPublic);
      && EndsWith(location, key)
      && (isPublic ==> StartsWith(location, PublicBase(publicUrl)) && |location| == |PublicBase(publicUrl)| + |key|)
      && (isPublic ==> |location| > |key|)
      && (!isPublic ==> location == key)
  {
    var location := UploadLocation(publicUrl, key, isPublic);
    PublicBaseShape(publicUrl);
    if isPublic {
      var base := PublicBase(publicUrl);
      assert location[..|base|] == base;
      assert location[|location| - |key|..] == key;
    } else {
      assert location[|location| - |key|..] == key;
    }
  }

  function FailureMessage(f: SendFailure): string {
    match f
    case SendError(message) => message
    case SendThrew => UNKNOWN_ERROR
  }

  /** The result of an upload, and the line logged when the request fails before it is rethrown. */
  datatype UploadOutcome = Uploaded(location: string) | UploadFailed(failure: SendFailure, logLine: string)

  function UploadFile(config: StorageConfig, key: string, isPublic: bool, sent: Option<SendFailure>): (r: UploadOutcome)
    ensures sent.None? ==> r == Uploaded(UploadLocation(config.publicUrl, key, isPublic))
    ensures sent.Some? ==> r.UploadFailed? && r.failure == sent.value
    ensures sent.Some? ==> r.logLine == UploadFailureLog(sent.value)
  {
    match sent
    case None => Uploaded(UploadLocation(config.publicUrl, key, isPublic))
    case Some(f) => UploadFailed(f, UploadFailureLog(f))
  }

  /** The line logged when an upload request fails before it is rethrown. */
  function UploadFailureLog(f: SendFailure): (line: string)
    ensures StartsWith(line, "Error uploading file to R2: ")
  {
    "Error uploading file to R2: " + FailureMessage(f)
  }

  /** The line logged when a delete request fails before it is rethrown. */
  function DeleteFailureLog(f: SendFailure): (line: string)
    ensures StartsWith(line, "Error deleting file from R2: ")
  {
    "Error deleting file from R2: " + FailureMessage(f)
  }

  /** After its fixed prefix, the upload failure line is exactly the failure's message. */
  lemma UploadFailureLogMessage(f: SendFailure)
    ensures UploadFailureLog(f)[|"Error uploading file to R2: "|..] == FailureMessage(f)
  {
  }

  /** After its fixed prefix, the delete failure line is exactly the failure's message. */
  lemma DeleteFailureLogMessage(f: SendFailure)
    ensures DeleteFailureLog(f)[|"Error deleting file from R2: "|..] == FailureMessage(f)
  {
  }

  /**
   * The key behind a URL: a URL not starting with the public URL comes back unchanged;
   * otherwise the first occurrence of the public base is removed.
   */
  function ExtractKeyFromUrl(publicUrl: string, url: string): (key: string)
    ensures !StartsWith(url, publicUrl) ==> key == url
    ensures StartsWith(url, publicUrl) ==> key == ReplaceFirst(url, PublicBase(publicUrl), "")
    ensures |key| <= |url|
  {
    if !StartsWith(url, publicUrl) then url
    else ReplaceFirst(url, PublicBase(publicUrl), "")
  }

  /** A URL that starts with the public base loses exactly that base. */
  lemma ExtractStripsBase(publicUrl: string, url: string)
    requires StartsWith(url, PublicBase(publicUrl))
    ensures ExtractKeyFromUrl(publicUrl, url) == url[|PublicBase(publicUrl)|..]
  {
    var base := PublicBase(publicUrl);
    PublicBaseShape(publicUrl);
    var rest := url[|base|..];
    assert url == base + rest;
    assert StartsWith(url, publicUrl) by {
      assert url[..|publicUrl|] == base[..|publicUrl|];
    }
    ReplaceLeadingOccurrence(base, rest, "");
  }

  /** Extracting the key from the public URL of an upload gives back the key. */
  lemma ExtractKeyRoundTrip(publicUrl: string, key: string)
    ensures ExtractKeyFromUrl(publicUrl, UploadLocation(publicUrl, key, true)) == key
  {
    var url := UploadLocation(publicUrl, key, true);
    ExtractStripsBase(publicUrl, url);
    assert url[|PublicBase(publicUrl)|..] == key;
  }

  /** The bare public URL, without its slash, is not shortened: the base does not occur in it. */
  lemma BarePublicUrlUnchanged(publicUrl: string)
    requires !EndsWith(publicUrl, "/")
    ensures ExtractKeyFromUrl(publicUrl, publicUrl) == publicUrl
  {
    assert StartsWith(publicUrl, publicUrl) by { assert publicUrl[..|publicUrl|] == publicUrl; }
    PublicBaseShape(publicUrl);
    assert IndexOf(publicUrl, PublicBase(publicUrl)).None?;
  }

  /** The documented example. */
  lemma ExtractKeyExample()
    ensures ExtractKeyFromUrl("https://pub-xxx.r2.dev", "https://pub-xxx.r2.dev/ads/images/xxx.png") == "ads/images/xxx.png"
  {
    var url := "https://pub-xxx.r2.dev/ads/images/xxx.png";
    assert PublicBase("https://pub-xxx.r2.dev") == "https://pub-xxx.r2.dev/";
    assert url == "https://pub-xxx.r2.dev/" + "ads/images/xxx.png";
    ExtractStripsBase("https://pub-xxx.r2.dev", url);
  }
}
