/** The `POST /api/posts` route: the upload middleware, its error handler,
    then `createPost`. A failed upload goes through the error handler to the
    client as a 400 and `createPost` never runs; otherwise `createPost`
    sees the stored file's URL, or no image at all. */
module PostRoute {
  import opened Outcomes
  import opened JsText
  import opened JsonValue
  import opened Http
  import opened Upload
  import opened PostController

  /** The route for one request. `now` and `rand` are the clock and random
      number behind the storage key; `locate` gives a stored key's URL. */
  function SubmitPost<D>(body: PostBody, file: Option<IncomingFile>, now: nat, rand: nat, locate: JsString -> JsString,
                         existing: set<JsString>, parseJson: JsString -> Option<Json>,
                         save: PostRecord -> Result<D, Thrown>): (r: Result<D, HttpError>)
    ensures ReceiveFile(file, now, rand, locate).Err? ==>
      r.Err? && r.error.status == 400 && Some(r.error) == HandleMulterError(Some(ReceiveFile(file, now, rand, locate).error))
    ensures file.None? ==> r == CreatePost(body, None, existing, parseJson, save)
    ensures ReceiveFile(file, now, rand, locate).Ok? && file.Some? ==>
      var key := ObjectKey(now, rand, file.value.originalName);
      r == CreatePost(body, Some(locate(key)), existing, parseJson, save)
  {
    match ReceiveFile(file, now, rand, locate)
    case Err(fault) =>
      var e := HandleMulterError(Some(fault));
      Err(e.value)
    case Ok(stored) =>
      CreatePost(body, if stored.Some? then Some(stored.value.location) else None, existing, parseJson, save)
  }

  /** A refused file stores nothing: the response does not depend on the
      database at all. */
  lemma {:induction false} RefusedFileSavesNothing<D>(body: PostBody, file: IncomingFile, now: nat, rand: nat,
                                                      locate: JsString -> JsString, existing: set<JsString>,
                                                      parseJson: JsString -> Option<Json>,
                                                      save1: PostRecord -> Result<D, Thrown>, save2: PostRecord -> Result<D, Thrown>)
    requires file.mimetype !in AllowedMimeTypes || file.size > MaxFileSize
    ensures SubmitPost(body, Some(file), now, rand, locate, existing, parseJson, save1)
         == SubmitPost(body, Some(file), now, rand, locate, existing, parseJson, save2)
    ensures SubmitPost(body, Some(file), now, rand, locate, existing, parseJson, save1).Err?
  {
    assert ReceiveFile(Some(file), now, rand, locate).Err?;
  }

  /** A post saved through the route carries the URL of the key built for
      its file, and that key lies in the uploads folder. */
  lemma {:induction false} SavedPostPointsAtUpload<D>(body: PostBody, file: IncomingFile, now: nat, rand: nat,
                                                      locate: JsString -> JsString, existing: set<JsString>,
                                                      parseJson: JsString -> Option<Json>, save: PostRecord -> Result<D, Thrown>)
    requires SubmitPost(body, Some(file), now, rand, locate, existing, parseJson, save).Ok?
    ensures var key := ObjectKey(now, rand, file.originalName);
            var post := ValidatePost(body, Some(locate(key)), existing, parseJson);
            && post.Ok?
            && post.value.image == Some(locate(key))
            && save(post.value).Ok?
            && key[..|UploadsPrefix|] == UploadsPrefix
  {
    var key := ObjectKey(now, rand, file.originalName);
    assert ReceiveFile(Some(file), now, rand, locate).Ok?;
    var post := ValidatePost(body, Some(locate(key)), existing, parseJson);
    assert CreatePost(body, Some(locate(key)), existing, parseJson, save).Ok?;
  }
}
