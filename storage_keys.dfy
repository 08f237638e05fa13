/**
 * Object-key derivation in backend/utils/s3.js: the file name `uploadToS3`
 * stores an upload under, and the keys `deleteFromS3` asks the bucket to
 * delete. The AWS calls themselves are parameters.
 */
module StorageKeys {
  import opened Wrappers
  import opened Strings

  /** The folder every gallery deletion is aimed at. */
  const GalleryFolder: string := "gallery-images"

  /** An element of the argument of `deleteFromS3`: a string, or any other value as `${value}` renders it. */
  datatype UrlElem = Str(s: string) | Other(rendered: string)

  /** The argument of `deleteFromS3`: an array of elements or something that is not an array. */
  datatype UrlArg = NotArray | Array(elems: seq<UrlElem>)

  /** `url.split('/')` and its last part: the text after the last `/`. */
  function KeyOf(url: string): (key: string)
    ensures '/' !in key
    ensures '/' !in url ==> key == url
  {
    SplitSingleIff(url, '/');
    JoinSplit(url, '/');
    Last(Split(url, '/'))
  }

  /** The key is the suffix after the last `/`: all of the URL, or preceded by a `/`. */
  lemma KeyIsLastSegment(url: string)
    ensures var key := KeyOf(url);
      |key| <= |url| && url[|url| - |key|..] == key &&
      (|key| == |url| || url[|url| - |key| - 1] == '/')
  {
    LastPieceIsSuffix(url, '/');
  }

  /**
   * The `map` of `deleteFromS3` over the URLs: every element a string gives
   * its key, in order; the first element that is not a string throws.
   */
  function KeysOf(elems: seq<UrlElem>): (r: Result<seq<string>>)
    ensures r.Ok? <==> forall i :: 0 <= i < |elems| ==> elems[i].Str?
    ensures r.Ok? ==> |r.value| == |elems| && forall i :: 0 <= i < |elems| ==> r.value[i] == KeyOf(elems[i].s)
    ensures r.Err? ==> exists i :: (0 <= i < |elems| && elems[i].Other? &&
      r.message == "Invalid image URL: " + elems[i].rendered &&
      forall j :: 0 <= j < i ==> elems[j].Str?)
    decreases |elems|
  {
    if |elems| == 0 then Ok([])
    else match elems[0]
      case Other(rendered) => Err("Invalid image URL: " + rendered)
      case Str(url) =>
        match KeysOf(elems[1..])
        case Err(m) => Err(m)
        case Ok(rest) => Ok([KeyOf(url)] + rest)
  }

  /** The `Objects` list of the delete request: one `gallery-images/<key>` per URL, in input order. */
  function DeleteObjects(arg: UrlArg): (r: Result<seq<string>>)
    ensures (arg.NotArray? || arg.elems == []) ==> r == Err("No image URLs provided for deletion")
    ensures r.Ok? <==> arg.Array? && arg.elems != [] && forall i :: 0 <= i < |arg.elems| ==> arg.elems[i].Str?
    ensures r.Ok? ==> (|r.value| == |arg.elems| &&
      forall i :: 0 <= i < |arg.elems| ==> r.value[i] == GalleryFolder + "/" + KeyOf(arg.elems[i].s))
  {
    if arg.NotArray? || |arg.elems| == 0 then Err("No image URLs provided for deletion")
    else match KeysOf(arg.elems)
      case Err(m) => Err(m)
      case Ok(keys) => Ok(seq(|keys|, i requires 0 <= i < |keys| => GalleryFolder + "/" + keys[i]))
  }

  /**
   * `deleteFromS3`: the request goes to the bucket only when every key was
   * derived; the bucket's answer or error is passed on unchanged.
   */
  function DeleteFromS3<R>(arg: UrlArg, deleteObjects: seq<string> -> Result<R>): (r: Result<R>)
    ensures DeleteObjects(arg).Err? ==> r == Err(DeleteObjects(arg).message)
    ensures DeleteObjects(arg).Ok? ==> r == deleteObjects(DeleteObjects(arg).value)
  {
    match DeleteObjects(arg)
    case Err(m) => Err(m)
    case Ok(objects) => deleteObjects(objects)
  }

  /** A malformed argument fails the same way whatever the bucket would have done: no request is made. */
  lemma BadArgumentMakesNoRequest<R>(arg: UrlArg, one: seq<string> -> Result<R>, other: seq<string> -> Result<R>)
    requires arg.NotArray? || arg.elems == [] || exists i :: 0 <= i < |arg.elems| && arg.elems[i].Other?
    ensures DeleteFromS3(arg, one) == DeleteFromS3(arg, other)
    ensures DeleteFromS3(arg, one).Err?
  {
  }

  /** `s` without its trailing slashes. */
  function DropTrailingSlashes(s: string): (r: string)
    ensures |r| <= |s| && r == s[..|r|]
    ensures r == [] || r[|r| - 1] != '/'
    decreases |s|
  {
    if |s| > 0 && s[|s| - 1] == '/' then DropTrailingSlashes(s[..|s| - 1]) else s
  }

  /** POSIX `path.basename`: the last segment once trailing slashes are dropped. */
  function Basename(p: string): (b: string)
    ensures '/' !in b
  {
    Last(Split(DropTrailingSlashes(p), '/'))
  }

  /** The key `uploadToS3` stores a file under: `folder/uuid_basename`. */
  function UploadFileName(folder: string, uuid: string, originalName: string): (name: string)
    ensures |name| > |folder| && name[..|folder|] == folder && name[|folder|] == '/'
    ensures |Basename(originalName)| < |name| && name[|name| - |Basename(originalName)|..] == Basename(originalName)
  {
    folder + "/" + uuid + "_" + Basename(originalName)
  }

  /** `uploadToS3`: the URL the bucket reports, or `Failed to upload to S3` whatever the upload's error was. */
  function UploadToS3(folder: string, uuid: string, originalName: string, upload: string -> Result<string>)
    : (r: Result<string>)
    ensures upload(UploadFileName(folder, uuid, originalName)).Err? ==> r == Err("Failed to upload to S3")
    ensures upload(UploadFileName(folder, uuid, originalName)).Ok? ==>
      r == Ok(upload(UploadFileName(folder, uuid, originalName)).value)
  {
    match upload(UploadFileName(folder, uuid, originalName))
    case Err(_) => Err("Failed to upload to S3")
    case Ok(location) => Ok(location)
  }

  /**
   * A file uploaded into the gallery folder, whose location is the bucket
   * origin followed by its key, is deleted under the key it was stored
   * under, as long as the generated uuid has no `/`. A file uploaded into
   * any other folder is not.
   */
  lemma DeleteTargetsUploadedGalleryObject(origin: string, folder: string, uuid: string, originalName: string)
    requires '/' !in uuid
    ensures var stored := UploadFileName(folder, uuid, originalName);
      var location := origin + "/" + stored;
      (GalleryFolder + "/" + KeyOf(location) == stored <==> folder == GalleryFolder)
  {
    var tail := uuid + "_" + Basename(originalName);
    var stored := UploadFileName(folder, uuid, originalName);
    var location := origin + "/" + stored;
    assert '/' !in tail;
    assert location == (origin + "/" + folder) + ['/'] + tail;
    KeyOfAfterSlash(origin + "/" + folder, tail);
    assert stored == folder + "/" + tail;
    SameTailDecidesFolder(GalleryFolder, folder, tail);
  }

  /**
   * Upload and delete round trip: when the bucket reports the location of an
   * upload as its origin followed by the key, `uploadToS3` returns that
   * location, and handing it back to `deleteFromS3` asks for exactly the
   * stored object when the upload went into the gallery folder, and for a
   * different object otherwise.
   */
  lemma UploadThenDeleteRoundTrip(origin: string, folder: string, uuid: string, originalName: string,
                                  upload: string -> Result<string>)
    requires '/' !in uuid
    requires upload(UploadFileName(folder, uuid, originalName)) == Ok(origin + "/" + UploadFileName(folder, uuid, originalName))
    ensures UploadToS3(folder, uuid, originalName, upload) == Ok(origin + "/" + UploadFileName(folder, uuid, originalName))
    ensures var deleted := DeleteObjects(Array([Str(UploadToS3(folder, uuid, originalName, upload).value)]));
      && deleted.Ok?
      && (deleted.value == [UploadFileName(folder, uuid, originalName)] <==> folder == GalleryFolder)
  {
    var stored := UploadFileName(folder, uuid, originalName);
    var location := origin + "/" + stored;
    var deleted := DeleteObjects(Array([Str(location)]));
    assert deleted.value == [GalleryFolder + "/" + KeyOf(location)];
    DeleteTargetsUploadedGalleryObject(origin, folder, uuid, originalName);
  }

  /** Two keys `a/tail` and `b/tail` are equal exactly when the folders are. */
  lemma SameTailDecidesFolder(a: string, b: string, tail: string)
    ensures a + "/" + tail == b + "/" + tail <==> a == b
  {
    if a + "/" + tail == b + "/" + tail {
      assert |a| == |b|;
      assert a == (a + "/" + tail)[..|a|];
      assert b == (b + "/" + tail)[..|b|];
    }
  }

  /** The key of `prefix/tail` is `tail` when the tail has no `/`. */
  lemma KeyOfAfterSlash(prefix: string, tail: string)
    requires '/' !in tail
    ensures KeyOf(prefix + ['/'] + tail) == tail
  {
    var url := prefix + ['/'] + tail;
    KeyIsLastSegment(url);
    var key := KeyOf(url);
    assert url[|url| - |tail|..] == tail;
    assert url[|url| - |tail| - 1] == '/';
  }
}
