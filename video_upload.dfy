/** POST /api/v1/upload/video: the same sequence as the document route,
    uploading as a video and saving a Video record that takes its url and
    duration from the media host's reply. */
module VideoUpload {
  import opened Wrappers
  import opened Records
  import opened Api

  /** The multipart form: the file, its title and its description `des`. */
  datatype VideoForm = VideoForm(file: FormEntry, title: Option<string>, des: Option<string>)

  const Folder := "BcocHubDoc"
  const ResourceType := "video"

  const Unauthenticated := Response(403, "Unauthenticated ", Some(false))
  const FileMissing := Response(200, "Video is not uploaded !", None)
  const Uploaded := Response(200, "Video is uploaded Successfully!", Some(true))
  const ServerError := Response(500, "Internal server error", None)

  /** The response, the file the media host stores, and the record saved. */
  datatype Outcome = Outcome(response: Response, uploaded: Option<Blob>, saved: Option<Video>)

  /** What a request does. `form` is `None` when `formData()` throws. */
  function VideoUpload(session: Session, form: Option<VideoForm>, reply: CloudReply, now: int): (r: Outcome)
    ensures r.uploaded.Some? ==> session.Some? && reply.Accepted?
    ensures r.saved.Some? ==>
      && r.uploaded.Some? && r.response.code == 200
      && Some(r.saved.value.duration) == reply.duration
    ensures r.response.code in {200, 403, 500}
  {
    if session.None? then Outcome(Unauthenticated, None, None)
    else if form.None? then Outcome(ServerError, None, None)
    else if Falsy(form.value.file) then Outcome(FileMissing, None, None)
    else if form.value.file.TextEntry? then Outcome(ServerError, None, None)
    else
      var content := form.value.file.content;
      if reply.Rejected? then Outcome(ServerError, None, None)
      else
        var draft := VideoDraft(form.value.title, form.value.des, reply.url, reply.duration, session.value.name);
        var saved := ValidateVideo(draft, now);
        var blob := Blob(Folder, ResourceType, content);
        if saved.Some? then Outcome(Uploaded, Some(blob), saved) else Outcome(ServerError, Some(blob), None)
  }

  /** The handler: it changes the media host's files and the videos collection only. */
  method Post(db: Database, cloud: Cloud, session: Session, form: Option<VideoForm>, reply: CloudReply, now: int)
    returns (resp: Response)
    requires db.Valid()
    modifies db`videos, cloud
    ensures db.Valid()
    ensures resp == VideoUpload(session, form, reply, now).response
    ensures cloud.blobs == old(cloud.blobs) + AsSeq(VideoUpload(session, form, reply, now).uploaded)
    ensures db.videos == old(db.videos) + AsSeq(VideoUpload(session, form, reply, now).saved)
    ensures db.users == old(db.users) && db.pdfs == old(db.pdfs)
  {
    if session.None? {
      return Unauthenticated;
    }
    if form.None? {
      return ServerError;
    }
    var f := form.value;
    if Falsy(f.file) {
      return FileMissing;
    }
    if f.file.TextEntry? {
      return ServerError;
    }
    var result := cloud.UploadStream(Folder, ResourceType, f.file.content, reply);
    if result.None? {
      return ServerError;
    }
    var draft := VideoDraft(f.title, f.des, result.value.url, result.value.duration, session.value.name);
    var saved := db.SaveVideo(draft, now);
    if saved.None? {
      return ServerError;
    }
    return Uploaded;
  }

  /** Without a session the answer is 403 and nothing is uploaded or saved. */
  lemma UnauthenticatedWritesNothing(form: Option<VideoForm>, reply: CloudReply, now: int)
    ensures VideoUpload(None, form, reply, now)
         == Outcome(Response(403, "Unauthenticated ", Some(false)), None, None)
  {
  }

  /** A signed-in request with no file entry, or an empty text value, is answered and writes nothing. */
  lemma MissingFileWritesNothing(user: SessionUser, f: VideoForm, reply: CloudReply, now: int)
    requires Falsy(f.file)
    ensures VideoUpload(Some(user), Some(f), reply, now)
         == Outcome(Response(200, "Video is not uploaded !", None), None, None)
  {
  }

  /** A text value where the file should be gets past the `!file` check only
      when it is non-empty, and then `arrayBuffer` is not a function on it:
      the answer is 500 and nothing is uploaded. */
  lemma TextInsteadOfFile(user: SessionUser, f: VideoForm, reply: CloudReply, now: int)
    requires f.file.TextEntry? && f.file.text != ""
    ensures VideoUpload(Some(user), Some(f), reply, now)
         == Outcome(Response(500, "Internal server error", None), None, None)
  {
  }

  /** When the media host rejects the upload, no record is saved and the answer is 500. */
  lemma RejectedUploadWritesNothing(user: SessionUser, f: VideoForm, now: int)
    requires f.file.FileEntry?
    ensures VideoUpload(Some(user), Some(f), Rejected, now)
         == Outcome(Response(500, "Internal server error", None), None, None)
  {
  }

  /** A record is saved only after a video upload to folder BcocHubDoc that the
      host accepted; it carries the form's title and `des`, the host's url and
      duration, and the session's user name. */
  lemma RecordFollowsUpload(session: Session, form: Option<VideoForm>, reply: CloudReply, now: int)
    ensures var o := VideoUpload(session, form, reply, now);
      o.saved.Some? ==>
        && session.Some? && form.Some? && form.value.file.FileEntry? && reply.Accepted?
        && o.uploaded == Some(Blob("BcocHubDoc", "video", form.value.file.content))
        && Some(o.saved.value.title) == form.value.title
        && o.saved.value.description == form.value.des
        && Some(o.saved.value.url) == reply.url
        && Some(o.saved.value.duration) == reply.duration
        && Some(o.saved.value.uploader) == session.value.name
  {
  }

  /** A complete request saves exactly one record and answers 200 with status true. */
  lemma SuccessSavesOneRecord(user: SessionUser, f: VideoForm, url: string, duration: nat, now: int)
    requires f.file.FileEntry? && Filled(f.title) && Filled(user.name) && url != ""
    ensures VideoUpload(Some(user), Some(f), Accepted(Some(url), Some(duration)), now)
         == Outcome(Response(200, "Video is uploaded Successfully!", Some(true)),
                    Some(Blob("BcocHubDoc", "video", f.file.content)),
                    Some(Video(f.title.value, f.des, url, duration, user.name.value, now, now)))
  {
  }

  /** A record is saved exactly when the answer reports success. */
  lemma SavedIffSuccess(session: Session, form: Option<VideoForm>, reply: CloudReply, now: int)
    ensures var o := VideoUpload(session, form, reply, now);
      o.saved.Some? <==> o.response == Response(200, "Video is uploaded Successfully!", Some(true))
  {
  }

  /** An accepted upload whose reply lacks a duration leaves the file on the
      media host with no record pointing at it. */
  lemma NoDurationOrphansFile(user: SessionUser, f: VideoForm, url: Option<string>, now: int)
    requires f.file.FileEntry?
    ensures VideoUpload(Some(user), Some(f), Accepted(url, None), now)
         == Outcome(Response(500, "Internal server error", None), Some(Blob("BcocHubDoc", "video", f.file.content)), None)
  {
  }
}
