/**
 * The ads catalogue: a collection of ads with a unique title, whose image and video
 * files are uploaded to object storage when an ad is created and deleted from it when
 * the ad is deleted. The storage backend is an oracle: each request's outcome is a
 * parameter, and the requests sent are recorded in order.
 */
module Ads {

  import opened Wrappers
  import opened Text
  import opened Storage
  import opened Filename
  import opened Pagination

  type AdId = nat

  const TITLE_IN_USE: string := "Title already in use."
  const IMAGES_FOLDER: string := "ads/images/"
  const VIDEOS_FOLDER: string := "ads/videos/"
  const IMAGE_DELETE_FAILED: string := "Failed to delete image from R2: "
  const VIDEO_DELETE_FAILED: string := "Failed to delete video from R2: "

  /** A stored ad document; the entity returned to callers exposes every one of its fields. */
  datatype Ad = Ad(
    id: AdId,
    title: string,
    description: string,
    imageUrl: string,
    videoUrl: string,
    point: int,
    duration: int,
    createdAt: nat,
    updatedAt: nat)

  /** The creation request as the service receives it; absent fields are `None`. */
  datatype CreateAdsDto = CreateAdsDto(
    title: string,
    description: string,
    imageUrl: Option<string>,
    videoUrl: Option<string>,
    point: Option<int>,
    duration: Option<int>)

  /** The first uploaded file of a form field; its bytes are not modelled. */
  datatype IncomingFile = IncomingFile(originalName: string, mimetype: string)

  datatype AdsError =
    | Conflict(message: string)
    | NotFound(message: string)
    | StorageFailure(failure: SendFailure)
    | ValidationFailure

  /** A request sent to the storage backend. */
  datatype StorageRequest = PutObject(key: string, contentType: string) | DeleteObject(key: string)

  function AdTitle(): Ad -> string { (a: Ad) => a.title }
  function AdKey(): Ad -> AdId { (a: Ad) => a.id }
  function AdCreatedAt(): Ad -> int { (a: Ad) => a.createdAt }
  function HasTitle(title: string): Ad -> bool { (a: Ad) => a.title == title }

  /** `countDocuments({ title })`. */
  function CountByTitle(ads: seq<Ad>, title: string): nat {
    |Filter(ads, HasTitle(title))|
  }

  /** `existsAdsByTitle` on a collection: at least one document has the title. */
  predicate TitleInUse(ads: seq<Ad>, title: string) {
    CountByTitle(ads, title) > 0
  }

  lemma TitleInUseIff(ads: seq<Ad>, title: string)
    ensures TitleInUse(ads, title) <==> exists i :: 0 <= i < |ads| && ads[i].title == title
  {
    FilterMembers(ads, HasTitle(title));
    var matches := Filter(ads, HasTitle(title));
    if matches != [] {
      assert matches[0] in matches;
    }
    if i :| 0 <= i < |ads| && ads[i].title == title {
      assert ads[i] in matches;
    }
  }

  ghost predicate DistinctKeys<T, K>(s: seq<T>, key: T -> K) {
    forall i, j :: 0 <= i < j < |s| ==> key(s[i]) != key(s[j])
  }

  /** The collection's invariant: titles and ids are unique, and every id was issued. */
  ghost predicate AdsWellFormed(ads: seq<Ad>, nextId: AdId) {
    && DistinctKeys(ads, AdTitle())
    && DistinctKeys(ads, AdKey())
    && forall i :: 0 <= i < |ads| ==> ads[i].id < nextId
  }

  /** With unique titles, no title is counted more than once. */
  lemma {:induction false} TitleCountAtMostOne(ads: seq<Ad>, title: string)
    requires DistinctKeys(ads, AdTitle())
    ensures CountByTitle(ads, title) <= 1
  {
    if ads != [] {
      var tail := ads[1..];
      assert DistinctKeys(tail, AdTitle()) by {
        forall i, j | 0 <= i < j < |tail| ensures tail[i].title != tail[j].title {
          assert tail[i] == ads[i + 1] && tail[j] == ads[j + 1];
        }
      }
      TitleCountAtMostOne(tail, title);
      if ads[0].title == title {
        forall k | 0 <= k < |tail| ensures !HasTitle(title)(tail[k]) {
          assert tail[k] == ads[k + 1];
        }
        FilterNoMatch(tail, HasTitle(title));
      }
    }
  }

  /** The file-name cleaner `createAd` uses: the timestamped, cleaned name of an upload. */
  function CleanFilenameWith(unaccent: string -> string): (nat, string) -> string {
    (now: nat, name: string) => GenerateCleanFilename(now, name, unaccent)
  }

  /** The key under which an uploaded file is stored: the folder, then the cleaned, timestamped name. */
  function ObjectKey(folder: string, now: nat, file: IncomingFile, clean: (nat, string) -> string): string {
    folder + clean(now, file.originalName)
  }

  /** A key lies in its folder and keeps the uploaded file's extension. */
  lemma ObjectKeyShape(folder: string, now: nat, file: IncomingFile, unaccent: string -> string)
    ensures var key := ObjectKey(folder, now, file, CleanFilenameWith(unaccent));
      && StartsWith(key, folder)
      && EndsWith(key, Extname(file.originalName))
      && key[|folder|..] == GenerateCleanFilename(now, file.originalName, unaccent)
  {
    var name := GenerateCleanFilename(now, file.originalName, unaccent);
    var key := folder + name;
    FilenameParts(now, file.originalName, unaccent, KeptIntended);
    assert key[..|folder|] == folder;
    assert key[|folder|..] == name;
    var ext := Extname(file.originalName);
    assert key[|key| - |ext|..] == name[|name| - |ext|..];
  }

  /** The URL returned by a public upload of `file` into `folder`, if there is a file. */
  function UploadedUrl(config: StorageConfig, folder: string, now: nat, file: Option<IncomingFile>,
                       clean: (nat, string) -> string): Option<string>
  {
    match file
    case None => None
    case Some(f) => Some(UploadLocation(config.publicUrl, ObjectKey(folder, now, f, clean), true))
  }

  /** The upload request for `file`, if there is one. */
  function PutRequests(folder: string, now: nat, file: Option<IncomingFile>, clean: (nat, string) -> string): seq<StorageRequest>
  {
    match file
    case None => []
    case Some(f) => [PutObject(ObjectKey(folder, now, f, clean), f.mimetype)]
  }

  predicate UploadFails(file: Option<IncomingFile>, sent: Option<SendFailure>) {
    file.Some? && sent.Some?
  }

  /** The request with each URL replaced by the location of its uploaded file, when one was given. */
  function WithUploadedUrls(dto: CreateAdsDto, imageUrl: Option<string>, videoUrl: Option<string>): (body: CreateAdsDto)
    ensures body.title == dto.title && body.description == dto.description
    ensures body.point == dto.point && body.duration == dto.duration
    ensures body.imageUrl == if imageUrl.Some? then imageUrl else dto.imageUrl
    ensures body.videoUrl == if videoUrl.Some? then videoUrl else dto.videoUrl
  {
    dto.(imageUrl := if imageUrl.Some? then imageUrl else dto.imageUrl,
         videoUrl := if videoUrl.Some? then videoUrl else dto.videoUrl)
  }

  /** The schema's `required` rules: non-empty strings and present numbers. */
  predicate SchemaAccepts(body: CreateAdsDto) {
    && body.title != "" && body.description != ""
    && body.imageUrl.Some? && body.imageUrl.value != ""
    && body.videoUrl.Some? && body.videoUrl.value != ""
    && body.point.Some? && body.duration.Some?
  }

  /** The document saved for an accepted request, with both timestamps defaulted to `now`. */
  function NewAd(id: AdId, body: CreateAdsDto, now: nat): (ad: Ad)
    requires SchemaAccepts(body)
    ensures ad.id == id && ad.title == body.title && ad.description == body.description
    ensures Some(ad.imageUrl) == body.imageUrl && Some(ad.videoUrl) == body.videoUrl
    ensures Some(ad.point) == body.point && Some(ad.duration) == body.duration
    ensures ad.createdAt == now && ad.updatedAt == now
    ensures ad.title != "" && ad.imageUrl != "" && ad.videoUrl != ""
  {
    Ad(id, body.title, body.description, body.imageUrl.value, body.videoUrl.value,
       body.point.value, body.duration.value, now, now)
  }

  lemma InsertKeepsWellFormed(ads: seq<Ad>, nextId: AdId, ad: Ad)
    requires AdsWellFormed(ads, nextId)
    requires !TitleInUse(ads, ad.title)
    requires ad.id == nextId
    ensures AdsWellFormed(ads + [ad], nextId + 1)
  {
    TitleInUseIff(ads, ad.title);
    var r := ads + [ad];
    forall i, j | 0 <= i < j < |r| ensures r[i].title != r[j].title && r[i].id != r[j].id {
      if j == |ads| {
        assert r[i] == ads[i];
      } else {
        assert r[i] == ads[i] && r[j] == ads[j];
      }
    }
  }

  /** The position of the document with `id`, as `findById` locates it. */
  function FindAdIndex(ads: seq<Ad>, id: AdId): (r: Option<nat>)
    ensures r.None? <==> forall k :: 0 <= k < |ads| ==> ads[k].id != id
    ensures r.Some? ==> r.value < |ads| && ads[r.value].id == id
    ensures r.Some? ==> forall k :: 0 <= k < r.value ==> ads[k].id != id
  {
    if ads == [] then None
    else if ads[0].id == id then Some(0)
    else
      match FindAdIndex(ads[1..], id)
      case None => None
      case Some(k) => Some(k + 1)
  }

  /** The collection without the document at position `i`. */
  function RemoveAt<T>(s: seq<T>, i: nat): (r: seq<T>)
    requires i < |s|
    ensures |r| == |s| - 1
    ensures forall k :: 0 <= k < |r| ==> r[k] == if k < i then s[k] else s[k + 1]
  {
    s[..i] + s[i + 1..]
  }

  lemma RemoveAtKeepsDistinct<T, K>(s: seq<T>, i: nat, key: T -> K)
    requires i < |s| && DistinctKeys(s, key)
    ensures DistinctKeys(RemoveAt(s, i), key)
  {
    var r := RemoveAt(s, i);
    forall a, b | 0 <= a < b < |r| ensures key(r[a]) != key(r[b]) {
      var a' := if a < i then a else a + 1;
      var b' := if b < i then b else b + 1;
      assert r[a] == s[a'] && r[b] == s[b'];
    }
  }

  lemma RemoveKeepsWellFormed(ads: seq<Ad>, nextId: AdId, i: nat)
    requires i < |ads| && AdsWellFormed(ads, nextId)
    ensures AdsWellFormed(RemoveAt(ads, i), nextId)
  {
    RemoveAtKeepsDistinct(ads, i, AdTitle());
    RemoveAtKeepsDistinct(ads, i, AdKey());
  }

  /**
   * Removing the ad with `id` removes exactly that ad: its id and its title are no longer
   * found, and every other ad stays.
   */
  lemma RemovedAdIsGone(ads: seq<Ad>, nextId: AdId, i: nat)
    requires i < |ads| && AdsWellFormed(ads, nextId)
    ensures FindAdIndex(RemoveAt(ads, i), ads[i].id).None?
    ensures !TitleInUse(RemoveAt(ads, i), ads[i].title)
    ensures forall k :: 0 <= k < |ads| && k != i ==> ads[k] in RemoveAt(ads, i)
  {
    var r := RemoveAt(ads, i);
    forall k | 0 <= k < |r| ensures r[k].id != ads[i].id && r[k].title != ads[i].title {
      if k < i {
        assert r[k] == ads[k];
      } else {
        assert r[k] == ads[k + 1];
      }
    }
    TitleInUseIff(r, ads[i].title);
    forall k | 0 <= k < |ads| && k != i ensures ads[k] in r {
      if k < i { assert r[k] == ads[k]; } else { assert r[k - 1] == ads[k]; }
    }
  }

  /** The delete request for a stored URL, sent only when the URL is non-empty. */
  function DeleteRequests(publicUrl: string, url: string): (r: seq<StorageRequest>)
    ensures url == "" <==> r == []
    ensures r != [] ==> r == [DeleteObject(ExtractKeyFromUrl(publicUrl, url))]
  {
    if url != "" then [DeleteObject(ExtractKeyFromUrl(publicUrl, url))] else []
  }

  /** The storage requests `deleteAd` sends for an ad: image first, then video. */
  function CleanupRequests(publicUrl: string, ad: Ad): seq<StorageRequest> {
    DeleteRequests(publicUrl, ad.imageUrl) + DeleteRequests(publicUrl, ad.videoUrl)
  }

  /** What is logged when deleting the object behind `url` fails: the storage line, then the ads line. */
  function DeleteLog(url: string, failure: Option<SendFailure>, prefix: string): (lines: seq<string>)
    ensures url == "" || failure.None? <==> lines == []
    ensures lines != [] ==>
      lines == [DeleteFailureLog(failure.value), prefix + FailureMessage(failure.value)]
  {
    if url != "" && failure.Some? then
      [DeleteFailureLog(failure.value), prefix + FailureMessage(failure.value)]
    else []
  }

  function CleanupLog(ad: Ad, imageFailure: Option<SendFailure>, videoFailure: Option<SendFailure>): seq<string> {
    DeleteLog(ad.imageUrl, imageFailure, IMAGE_DELETE_FAILED) + DeleteLog(ad.videoUrl, videoFailure, VIDEO_DELETE_FAILED)
  }

  /**
   * Deleting an ad whose URLs are the locations of public uploads sends a delete request
   * for exactly the two keys that were uploaded.
   */
  lemma CleanupDeletesUploadedKeys(publicUrl: string, ad: Ad, imageKey: string, videoKey: string)
    requires ad.imageUrl == UploadLocation(publicUrl, imageKey, true)
    requires ad.videoUrl == UploadLocation(publicUrl, videoKey, true)
    ensures CleanupRequests(publicUrl, ad) == [DeleteObject(imageKey), DeleteObject(videoKey)]
  {
    ExtractKeyRoundTrip(publicUrl, imageKey);
    ExtractKeyRoundTrip(publicUrl, videoKey);
    UploadLocationShape(publicUrl, imageKey, true);
    UploadLocationShape(publicUrl, videoKey, true);
  }

  /**
   * An ad created from two uploaded files is cleaned up by deleting exactly the two keys
   * that the creation uploaded.
   */
  lemma CreatedAdCleanup(config: StorageConfig, dto: CreateAdsDto, image: IncomingFile, video: IncomingFile,
                         now: nat, clean: (nat, string) -> string, id: AdId)
    requires SchemaAccepts(WithUploadedUrls(dto, UploadedUrl(config, IMAGES_FOLDER, now, Some(image), clean),
                                                 UploadedUrl(config, VIDEOS_FOLDER, now, Some(video), clean)))
    ensures
      var body := WithUploadedUrls(dto, UploadedUrl(config, IMAGES_FOLDER, now, Some(image), clean),
                                        UploadedUrl(config, VIDEOS_FOLDER, now, Some(video), clean));
      CleanupRequests(config.publicUrl, NewAd(id, body, now)) ==
        [DeleteObject(ObjectKey(IMAGES_FOLDER, now, image, clean)), DeleteObject(ObjectKey(VIDEOS_FOLDER, now, video, clean))]
  {
    var body := WithUploadedUrls(dto, UploadedUrl(config, IMAGES_FOLDER, now, Some(image), clean),
                                      UploadedUrl(config, VIDEOS_FOLDER, now, Some(video), clean));
    CleanupDeletesUploadedKeys(config.publicUrl, NewAd(id, body, now),
                               ObjectKey(IMAGES_FOLDER, now, image, clean), ObjectKey(VIDEOS_FOLDER, now, video, clean));
  }

  /**
   * The not-found message: "Ad with ID ", the id's decimal text, " not found". The text
   * between the two fixed parts is all digits and reads back as the id.
   */
  function NotFoundMessage(id: AdId): (message: string)
    ensures StartsWith(message, "Ad with ID ") && EndsWith(message, " not found")
    ensures |message| >= 22
    ensures var idText := message[11..|message| - 10];
      && (forall i :: 0 <= i < |idText| ==> IsDigit(idText[i]))
      && DigitsValue(idText) == id
  {
    var m := "Ad with ID " + NatToString(id) + " not found";
    assert m[..11] == "Ad with ID ";
    assert m[|m| - 10..] == " not found";
    assert m[11..|m| - 10] == NatToString(id);
    NatToStringRoundTrip(id);
    m
  }

  /** Different ids give different not-found messages. */
  lemma NotFoundMessageInjective(a: AdId, b: AdId)
    requires NotFoundMessage(a) == NotFoundMessage(b)
    ensures a == b
  {
  }

  class AdsService {
    var ads: seq<Ad>
    var nextId: AdId
    /** Every request sent to the storage backend, in order. */
    var requests: seq<StorageRequest>
    /** The lines written to the error log by this service and by the storage service. */
    var errorLog: seq<string>
    const config: StorageConfig
    /** The file-name cleaner, fixed at construction to `GenerateCleanFilename` with an accent stripper. */
    const cleanFilename: (nat, string) -> string

    ghost predicate Valid()
      reads this
    {
      AdsWellFormed(ads, nextId)
    }

    constructor (config: StorageConfig, unaccent: string -> string)
      ensures Valid()
      ensures ads == [] && nextId == 0 && requests == [] && errorLog == []
      ensures this.config == config && this.cleanFilename == CleanFilenameWith(unaccent)
    {
      this.config := config;
      this.cleanFilename := CleanFilenameWith(unaccent);
      ads, nextId, requests, errorLog := [], 0, [], [];
    }

    function ExistsAdsByTitle(title: string): (b: bool)
      reads this
      ensures b <==> exists i :: 0 <= i < |ads| && ads[i].title == title
      ensures b == TitleInUse(ads, title)
    {
      TitleInUseIff(ads, title);
      CountByTitle(ads, title) > 0
    }

    method CreateAd(dto: CreateAdsDto, image: Option<IncomingFile>, video: Option<IncomingFile>, now: nat,
                    imageSent: Option<SendFailure>, videoSent: Option<SendFailure>) returns (r: Result<Ad, AdsError>)
      requires Valid()
      modifies this
      ensures Valid()
      ensures TitleInUse(old(ads), dto.title) ==>
        && r == Err(Conflict(TITLE_IN_USE))
        && ads == old(ads) && nextId == old(nextId) && requests == old(requests) && errorLog == old(errorLog)
      ensures !TitleInUse(old(ads), dto.title) ==>
        requests == old(requests) + PutRequests(IMAGES_FOLDER, now, image, cleanFilename)
                    + (if UploadFails(image, imageSent) then [] else PutRequests(VIDEOS_FOLDER, now, video, cleanFilename))
      ensures !TitleInUse(old(ads), dto.title) && UploadFails(image, imageSent) ==>
        r == Err(StorageFailure(imageSent.value)) && errorLog == old(errorLog) + [UploadFailureLog(imageSent.value)]
      ensures !TitleInUse(old(ads), dto.title) && !UploadFails(image, imageSent) && UploadFails(video, videoSent) ==>
        r == Err(StorageFailure(videoSent.value)) && errorLog == old(errorLog) + [UploadFailureLog(videoSent.value)]
      ensures var body := WithUploadedUrls(dto, UploadedUrl(config, IMAGES_FOLDER, now, image, cleanFilename),
                                                UploadedUrl(config, VIDEOS_FOLDER, now, video, cleanFilename));
        && (r.Ok? <==> !TitleInUse(old(ads), dto.title) && !UploadFails(image, imageSent)
                       && !UploadFails(video, videoSent) && SchemaAccepts(body))
        && (!TitleInUse(old(ads), dto.title) && !UploadFails(image, imageSent) && !UploadFails(video, videoSent) ==>
              errorLog == old(errorLog) && (!SchemaAccepts(body) ==> r == Err(ValidationFailure)))
        && (r.Ok? ==> SchemaAccepts(body) && r.value == NewAd(old(nextId), body, now))
      ensures r.Ok? ==> ads == old(ads) + [r.value] && nextId == old(nextId) + 1
      ensures r.Err? ==> ads == old(ads) && nextId == old(nextId)
    {
      var adsExists := ExistsAdsByTitle(dto.title);
      if adsExists {
        r := Err(Conflict(TITLE_IN_USE));
        return;
      }

      var body := UploadFiles(dto, image, video, now, imageSent, videoSent);
      if body.Err? {
        r := Err(body.error);
        return;
      }
      r := Insert(body.value, now);
    }

    /** The uploads of `createAd`: image first, then video; the first failure stops the request. */
    method UploadFiles(dto: CreateAdsDto, image: Option<IncomingFile>, video: Option<IncomingFile>, now: nat,
                       imageSent: Option<SendFailure>, videoSent: Option<SendFailure>)
      returns (body: Result<CreateAdsDto, AdsError>)
      modifies this
      ensures requests == old(requests) + PutRequests(IMAGES_FOLDER, now, image, cleanFilename)
                          + (if UploadFails(image, imageSent) then [] else PutRequests(VIDEOS_FOLDER, now, video, cleanFilename))
      ensures UploadFails(image, imageSent) ==>
        body == Err(StorageFailure(imageSent.value)) && errorLog == old(errorLog) + [UploadFailureLog(imageSent.value)]
      ensures !UploadFails(image, imageSent) && UploadFails(video, videoSent) ==>
        body == Err(StorageFailure(videoSent.value)) && errorLog == old(errorLog) + [UploadFailureLog(videoSent.value)]
      ensures !UploadFails(image, imageSent) && !UploadFails(video, videoSent) ==>
        && errorLog == old(errorLog)
        && body == Ok(WithUploadedUrls(dto, UploadedUrl(config, IMAGES_FOLDER, now, image, cleanFilename),
                                            UploadedUrl(config, VIDEOS_FOLDER, now, video, cleanFilename)))
      ensures ads == old(ads) && nextId == old(nextId)
    {
      var current := dto;
      if image.Some? {
        var location := Upload(IMAGES_FOLDER, now, image.value, imageSent);
        if location.None? {
          body := Err(StorageFailure(imageSent.value));
          return;
        }
        current := current.(imageUrl := location);
      } else {
        assert requests == old(requests) + PutRequests(IMAGES_FOLDER, now, image, cleanFilename);
      }
      ghost var afterImage := requests;

      if video.Some? {
        var location := Upload(VIDEOS_FOLDER, now, video.value, videoSent);
        if location.None? {
          body := Err(StorageFailure(videoSent.value));
          return;
        }
        current := current.(videoUrl := location);
      }
      assert requests == afterImage + PutRequests(VIDEOS_FOLDER, now, video, cleanFilename);
      body := Ok(current);
    }

    /** `new adsModel(body).save()`: the schema's validation, then one insert. */
    method Insert(body: CreateAdsDto, now: nat) returns (r: Result<Ad, AdsError>)
      requires Valid()
      requires !TitleInUse(ads, body.title)
      modifies this
      ensures Valid()
      ensures SchemaAccepts(body) ==>
        r == Ok(NewAd(old(nextId), body, now)) && ads == old(ads) + [r.value] && nextId == old(nextId) + 1
      ensures !SchemaAccepts(body) ==> r == Err(ValidationFailure) && ads == old(ads) && nextId == old(nextId)
      ensures requests == old(requests) && errorLog == old(errorLog)
    {
      if !SchemaAccepts(body) {
        r := Err(ValidationFailure);
        return;
      }
      var ad := NewAd(nextId, body, now);
      InsertKeepsWellFormed(ads, nextId, ad);
      ads, nextId := ads + [ad], nextId + 1;
      r := Ok(ad);
    }

    method DeleteAd(id: AdId, imageFailure: Option<SendFailure>, videoFailure: Option<SendFailure>)
      returns (r: Result<(), AdsError>)
      requires Valid()
      modifies this
      ensures Valid()
      ensures FindAdIndex(old(ads), id).None? ==>
        && r == Err(NotFound(NotFoundMessage(id)))
        && ads == old(ads) && nextId == old(nextId) && requests == old(requests) && errorLog == old(errorLog)
      ensures FindAdIndex(old(ads), id).Some? ==>
        var i := FindAdIndex(old(ads), id).value;
        && r == Ok(())
        && ads == RemoveAt(old(ads), i) && nextId == old(nextId)
        && requests == old(requests) + CleanupRequests(config.publicUrl, old(ads)[i])
        && errorLog == old(errorLog) + CleanupLog(old(ads)[i], imageFailure, videoFailure)
    {
      var found := FindAdIndex(ads, id);
      if found.None? {
        r := Err(NotFound(NotFoundMessage(id)));
        return;
      }
      var i := found.value;
      CleanupFiles(ads[i], imageFailure, videoFailure);
      RemoveKeepsWellFormed(ads, nextId, i);
      ads := RemoveAt(ads, i);
      r := Ok(());
    }

    /** The clean-up of both stored files of `ad`: the image first, then the video. */
    method CleanupFiles(ad: Ad, imageFailure: Option<SendFailure>, videoFailure: Option<SendFailure>)
      modifies this
      ensures requests == old(requests) + CleanupRequests(config.publicUrl, ad)
      ensures errorLog == old(errorLog) + CleanupLog(ad, imageFailure, videoFailure)
      ensures ads == old(ads) && nextId == old(nextId)
    {
      DeleteObjectAt(ad.imageUrl, imageFailure, IMAGE_DELETE_FAILED);
      DeleteObjectAt(ad.videoUrl, videoFailure, VIDEO_DELETE_FAILED);
    }

    /**
     * A public upload of `file` into `folder` through the storage service: the request is
     * sent, and a failure is logged by the storage service before it is rethrown.
     */
    method Upload(folder: string, now: nat, file: IncomingFile, sent: Option<SendFailure>)
      returns (location: Option<string>)
      modifies this
      ensures requests == old(requests) + PutRequests(folder, now, Some(file), cleanFilename)
      ensures sent.Some? ==> location.None? && errorLog == old(errorLog) + [UploadFailureLog(sent.value)]
      ensures sent.None? ==> location == UploadedUrl(config, folder, now, Some(file), cleanFilename) && errorLog == old(errorLog)
      ensures ads == old(ads) && nextId == old(nextId)
    {
      var key := ObjectKey(folder, now, file, cleanFilename);
      requests := requests + [PutObject(key, file.mimetype)];
      var outcome := UploadFile(config, key, true, sent);
      if outcome.UploadFailed? {
        errorLog := errorLog + [outcome.logLine];
        location := None;
      } else {
        location := Some(outcome.location);
        assert location == UploadedUrl(config, folder, now, Some(file), cleanFilename);
      }
    }

    /**
     * The clean-up of one stored file in `deleteAd`: a non-empty URL is turned back into its
     * key and deleted; a failure is logged by the storage service, rethrown, caught and
     * logged again with `prefix`.
     */
    method DeleteObjectAt(url: string, failure: Option<SendFailure>, prefix: string)
      modifies this
      ensures requests == old(requests) + DeleteRequests(config.publicUrl, url)
      ensures errorLog == old(errorLog) + DeleteLog(url, failure, prefix)
      ensures ads == old(ads) && nextId == old(nextId)
    {
      if url != "" {
        var key := ExtractKeyFromUrl(config.publicUrl, url);
        requests := requests + [DeleteObject(key)];
        if failure.Some? {
          var message := FailureMessage(failure.value);
          errorLog := errorLog + [DeleteFailureLog(failure.value), prefix + message];
        }
      }
    }

    /** All ads, newest first by `createdAt`, one page of them. */
    function FindAll(options: PaginationOptions): (r: PaginatedData<Ad>)
      reads this
      ensures var n := NormalizePaginationOptions(options);
        r.meta == BuildPaginationMeta(n.page, n.limit, |ads|)
      ensures var n := NormalizePaginationOptions(options);
        r.items == Slice(SortDesc(ads, AdCreatedAt()), CalculateSkip(n.page, n.limit), n.limit)
      ensures |r.items| <= r.meta.limit
      ensures forall i :: 0 <= i < |r.items| ==> r.items[i] in ads
      ensures forall i, j :: 0 <= i < j < |r.items| ==> r.items[i].createdAt >= r.items[j].createdAt
    {
      FilterEverything(ads);
      PageIsWindow(ads, Everything(), AdCreatedAt(), options);
      PageOfMatches(ads, Everything(), AdCreatedAt(), options);
      var page := PaginateQuery(ads, Everything(), AdCreatedAt(), options);
      assert SortedDesc(page.items, AdCreatedAt());
      page
    }
  }

  /** A second ad with the same title is refused and the first one stays alone in the store. */
  method DuplicateTitleRejected(config: StorageConfig, unaccent: string -> string, dto: CreateAdsDto)
    returns (first: Result<Ad, AdsError>, second: Result<Ad, AdsError>, stored: seq<Ad>, sent: seq<StorageRequest>)
    requires SchemaAccepts(dto)
    ensures first.Ok? && first.value.title == dto.title
    ensures second == Err(Conflict(TITLE_IN_USE))
    ensures stored == [first.value]
    ensures sent == []
  {
    var service := new AdsService(config, unaccent);
    first := service.CreateAd(dto, None, None, 1, None, None);
    TitleInUseIff(service.ads, dto.title);
    assert service.ads[0].title == dto.title;
    second := service.CreateAd(dto, None, None, 2, None, None);
    stored, sent := service.ads, service.requests;
  }

  /**
   * Deleting an ad whose files were uploaded removes the ad and sends deletes for exactly
   * the uploaded keys, even when both deletes fail; each failure is logged twice.
   */
  method DeleteAfterUpload(service: AdsService, imageKey: string, videoKey: string, failure: SendFailure)
    returns (deleted: Result<(), AdsError>)
    requires service.Valid() && |service.ads| == 1
    requires service.ads[0].imageUrl == UploadLocation(service.config.publicUrl, imageKey, true)
    requires service.ads[0].videoUrl == UploadLocation(service.config.publicUrl, videoKey, true)
    modifies service
    ensures deleted == Ok(())
    ensures service.ads == []
    ensures service.requests == old(service.requests) + [DeleteObject(imageKey), DeleteObject(videoKey)]
    ensures service.errorLog == old(service.errorLog) +
      [DeleteFailureLog(failure), IMAGE_DELETE_FAILED + FailureMessage(failure),
       DeleteFailureLog(failure), VIDEO_DELETE_FAILED + FailureMessage(failure)]
  {
    CleanupDeletesUploadedKeys(service.config.publicUrl, service.ads[0], imageKey, videoKey);
    PublicBaseShape(service.config.publicUrl);
    deleted := service.DeleteAd(service.ads[0].id, Some(failure), Some(failure));
  }
}
