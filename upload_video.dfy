/** `POST /api/upload-video`: check the uploaded form, accept only `.mp4` names,
    store the file under a fresh key and answer with its public URL. */
module UploadVideo {
  import opened Common

  const NoFileError: string := "No video file uploaded"
  const NoPathError: string := "Uploaded file path missing"
  const ExtensionError: string := "Only .mp4 files are allowed"
  const DefaultError: string := "Upload failed"
  /** What reading `filepath` of `undefined` throws in the route's runtime. */
  const UndefinedFileError: string := "Cannot read properties of undefined (reading 'filepath')"

  /** One file of the parsed form; a missing property is `None`. */
  datatype UploadedFile = UploadedFile(filepath: Option<string>, originalFilename: Option<string>)

  /** The `video` entry of the parsed form: absent, one file, or an array of files. */
  datatype VideoField = NoVideo | Single(file: UploadedFile) | Files(files: seq<UploadedFile>)

  /** How a step that can throw ends: parsing the form, or reading the file and
      sending it to the bucket. */
  datatype Outcome = Ok | Throws(message: string)

  datatype Body = UrlBody(url: string) | ErrorBody(error: string)

  datatype Response = Response(status: nat, body: Body)

  /** Text after the last `.`, or the whole name when it has none
      (`name.split(".").pop()`). */
  function LastSegment(name: string): (r: string)
    ensures |r| <= |name| && name[|name| - |r|..] == r
    ensures '.' !in r
    ensures |r| < |name| ==> name[|name| - |r| - 1] == '.'
  {
    if name == [] then []
    else if name[|name| - 1] == '.' then []
    else
      var front := LastSegment(name[..|name| - 1]);
      assert name[..|name| - 1][|name| - 1 - |front|..] == front;
      assert name[|name| - |front| - 1..] == front + [name[|name| - 1]];
      front + [name[|name| - 1]]
  }

  /** `originalFilename.split(".").pop()?.toLowerCase()` */
  function Extension(originalFilename: string): string {
    Lower(LastSegment(originalFilename))
  }

  /** `uploads/${uuidv4()}.mp4` */
  function Key(uuid: string): string {
    "uploads/" + uuid + ".mp4"
  }

  function PublicUrl(bucket: string, region: string, key: string): string {
    "https://" + bucket + ".s3." + region + ".amazonaws.com/" + key
  }

  /** `error.message || "Upload failed"` with status 500. */
  function Failure(message: string): Response {
    Response(500, ErrorBody(if message == "" then DefaultError else message))
  }

  /** The handler. `parse` is how parsing the form ends, `video` the parsed `video`
      entry, `uuid` the fresh id, `bucket` and `region` the environment, and `store`
      how reading the file and sending it end. */
  function Post(parse: Outcome, video: VideoField, uuid: string, bucket: string, region: string, store: Outcome): (r: Response)
    ensures r.status in {200, 400, 500}
    ensures r.status == 200 <==> r.body.UrlBody?
  {
    if parse.Throws? then Failure(parse.message)
    else if video.NoVideo? then Response(400, ErrorBody(NoFileError))
    else match ChosenFile(video)
      case None => Failure(UndefinedFileError)
      case Some(videoFile) =>
      if videoFile.filepath.GetOr("") == "" then Response(400, ErrorBody(NoPathError))
      else if Extension(videoFile.originalFilename.GetOr("")) != "mp4" then Response(400, ErrorBody(ExtensionError))
      else if store.Throws? then Failure(store.message)
      else Response(200, UrlBody(PublicUrl(bucket, region, Key(uuid))))
  }

  /** The file the handler looks at: the only one, or the first of several. */
  function ChosenFile(video: VideoField): (f: Option<UploadedFile>)
    ensures video.NoVideo? || (video.Files? && video.files == []) <==> f == None
    ensures video.Files? && video.files != [] ==> f == Some(video.files[0])
    ensures video.Single? ==> f == Some(video.file)
  {
    match video
    case NoVideo => None
    case Single(file) => Some(file)
    case Files(files) => if files == [] then None else Some(files[0])
  }

  /** The request succeeds exactly when the form parses, a file is present with a
      file path and an extension that lower-cases to `mp4`, and the store accepts
      it; the URL then names the fixed key, whatever the original name. */
  lemma PostSucceeds(parse: Outcome, video: VideoField, uuid: string, bucket: string, region: string, store: Outcome)
    ensures var r := Post(parse, video, uuid, bucket, region, store);
      var f := ChosenFile(video);
      && (r.status == 200 <==>
            parse == Ok && f.Some? && f.value.filepath.GetOr("") != "" &&
            Extension(f.value.originalFilename.GetOr("")) == "mp4" && store == Ok)
      && (r.status == 200 ==> r.body == UrlBody(PublicUrl(bucket, region, Key(uuid))))
  {
  }

  /** The 400 answers, in the order the guards run. */
  lemma PostRejects(video: VideoField, uuid: string, bucket: string, region: string, store: Outcome)
    ensures video.NoVideo? ==> Post(Ok, video, uuid, bucket, region, store) == Response(400, ErrorBody(NoFileError))
    ensures ChosenFile(video).Some? && ChosenFile(video).value.filepath.GetOr("") == "" ==>
              Post(Ok, video, uuid, bucket, region, store) == Response(400, ErrorBody(NoPathError))
    ensures ChosenFile(video).Some? && ChosenFile(video).value.filepath.GetOr("") != "" &&
            Extension(ChosenFile(video).value.originalFilename.GetOr("")) != "mp4" ==>
              Post(Ok, video, uuid, bucket, region, store) == Response(400, ErrorBody(ExtensionError))
  {
  }

  /** Any thrown error is a 500 carrying its message, or "Upload failed" when the
      message is empty. */
  lemma ThrownErrorsAre500(parse: Outcome, video: VideoField, uuid: string, bucket: string, region: string, message: string)
    ensures parse.Throws? ==>
              Post(parse, video, uuid, bucket, region, Ok) == Response(500, ErrorBody(if parse.message == "" then DefaultError else parse.message))
    ensures message != "" && Post(Ok, video, uuid, bucket, region, Ok).status == 200 ==>
              Post(Ok, video, uuid, bucket, region, Throws(message)) == Response(500, ErrorBody(message))
  {
  }

  /** The extension is the maximal dot-free suffix of the name, lower-cased. */
  lemma ExtensionIsLastPart(stem: string, ext: string)
    requires '.' !in ext
    ensures Extension(stem + "." + ext) == Lower(ext)
  {
    var n := stem + "." + ext;
    assert ext == n[|n| - |ext|..];
  }

  lemma UppercaseMp4Accepted()
    ensures Extension("a.MP4") == "mp4"
  {
    assert "a" + "." + "MP4" == "a.MP4";
    ExtensionIsLastPart("a", "MP4");
    var l := Lower("MP4");
    assert l[0] == 'm' && l[1] == 'p' && l[2] == '4';
  }

  lemma DoubleExtensionRejected()
    ensures Extension("a.mp4.mov") == "mov"
  {
    assert "a.mp4" + "." + "mov" == "a.mp4.mov";
    ExtensionIsLastPart("a.mp4", "mov");
    var l := Lower("mov");
    assert l[0] == 'm' && l[1] == 'o' && l[2] == 'v';
  }

  lemma EmptyNameRejected()
    ensures Extension("") == ""
  {
  }

  /** A name without a dot is its own extension: a file named just `mp4` passes. */
  lemma NameWithoutDot(name: string)
    requires '.' !in name
    ensures Extension(name) == Lower(name)
  {
  }
}
