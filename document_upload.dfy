/** POST /api/v1/upload/document: session check, form read, file check,
    upload to the media host, then the insert of a Pdf record. Anything
    thrown after the session check is answered with status 500. */
module DocumentUpload {
  import opened Wrappers
  import opened Records
  import opened Api

  /** The multipart form; `des` is read but is not a path of the Pdf schema,
      so mongoose's strict mode drops it and the record's description stays null. */
  datatype DocumentForm = DocumentForm(file: FormEntry, title: Option<string>, des: Option<string>)

  const Folder := "BcocHubDoc"
  const ResourceType := "raw"

  const Unauthenticated := Response(403, "Unauthenticated ", Some(false))
  const FileMissing := Response(200, "File is not uploaded !", None)
  const Uploaded := Response(200, "Document is uploaded Successfully!", Some(true))
  const ServerError := Response(500, "Internal server error", None)

  /** `(bytes.byteLength / 1048576).toFixed(2)` in hundredths of a mebibyte. The
      quotient is exact in binary floating point and `toFixed` rounds half up. */
  function SizeHundredths(byteLength: nat): (r: nat)
    ensures (2 * r - 1) * 1048576 <= 200 * byteLength < (2 * r + 1) * 1048576
  {
    (byteLength * 100 + 524288) / 1048576
  }

  /** The response, the file the media host stores, and the record saved. */
  datatype Outcome = Outcome(response: Response, uploaded: Option<Blob>, saved: Option<Pdf>)

  /** What a request does. `form` is `None` when `formData()` throws; `reply`
      is the media host's answer to the upload, used only if one is made. */
  function DocumentUpload(session: Session, form: Option<DocumentForm>, reply: CloudReply, now: int): (r: Outcome)
    ensures r.uploaded.Some? ==> session.Some? && reply.Accepted?
    ensures r.saved.Some? ==>
      && r.uploaded.Some? && r.response.code == 200
      && r.saved.value.size == SizeHundredths(|r.uploaded.value.content|)
    ensures r.response.code in {200, 403, 500}
  {
    if session.None? then Outcome(Unauthenticated, None, None)
    else if form.None? then Outcome(ServerError, None, None)
    else if Falsy(form.value.file) then Outcome(FileMissing, None, None)
    else if form.value.file.TextEntry? then Outcome(ServerError, None, None)
    else
      var content := form.value.file.content;
      if reply.Rejected? then Outcome(ServerError, None, None)
      else
        var draft := PdfDraft(form.value.title, None, reply.url, session.value.name, Some(SizeHundredths(|content|)));
        var saved := ValidatePdf(draft, now);
        var blob := Blob(Folder, ResourceType, content);
        if saved.Some? then Outcome(Uploaded, Some(blob), saved) else Outcome(ServerError, Some(blob), None)
  }

  /** The handler: it changes the media host's files and the pdfs collection only. */
  method Post(db: Database, cloud: Cloud, session: Session, form: Option<DocumentForm>, reply: CloudReply, now: int)
    returns (resp: Response)
    requires db.Valid()
    modifies db`pdfs, cloud
    ensures db.Valid()
    ensures resp == DocumentUpload(session, form, reply, now).response
    ensures cloud.blobs == old(cloud.blobs) + AsSeq(DocumentUpload(session, form, reply, now).uploaded)
    ensures db.pdfs == old(db.pdfs) + AsSeq(DocumentUpload(session, form, reply, now).saved)
    ensures db.users == old(db.users) && db.videos == old(db.videos)
  {
    if session.None? {
      return Unauthenticated;
    }
    if form.None? {
      return ServerError;
    }
    var f := form.value;
    if Falsy(f.file) {
      return FileMissing;
    }
    if f.file.TextEntry? {
      return ServerError;
    }
    var content := f.file.content;
    var result := cloud.UploadStream(Folder, ResourceType, content, reply);
    if result.None? {
      return ServerError;
    }
    var draft := PdfDraft(f.title, None, result.value.url, session.value.name, Some(SizeHundredths(|content|)));
    var saved := db.SavePdf(draft, now);
    if saved.None? {
      return ServerError;
    }
    return Uploaded;
  }

  /** Without a session the answer is 403 and nothing is uploaded or saved. */
  lemma UnauthenticatedWritesNothing(form: Option<DocumentForm>, reply: CloudReply, now: int)
    ensures DocumentUpload(None, form, reply, now)
         == Outcome(Response(403, "Unauthenticated ", Some(false)), None, None)
  {
  }

  /** A signed-in request with no file entry, or an empty text value, is answered and writes nothing. */
  lemma MissingFileWritesNothing(user: SessionUser, f: DocumentForm, reply: CloudReply, now: int)
    requires Falsy(f.file)
    ensures DocumentUpload(Some(user), Some(f), reply, now)
         == Outcome(Response(200, "File is not uploaded !", None), None, None)
  {
  }

  /** A text value where the file should be gets past the `!file` check only
      when it is non-empty, and then `arrayBuffer` is not a function on it:
      the answer is 500 and nothing is uploaded. */
  lemma TextInsteadOfFile(user: SessionUser, f: DocumentForm, reply: CloudReply, now: int)
    requires f.file.TextEntry? && f.file.text != ""
    ensures DocumentUpload(Some(user), Some(f), reply, now)
         == Outcome(Response(500, "Internal server error", None), None, None)
  {
  }

  /** When the media host rejects the upload, no record is saved and the answer is 500. */
  lemma RejectedUploadWritesNothing(user: SessionUser, f: DocumentForm, now: int)
    requires f.file.FileEntry?
    ensures DocumentUpload(Some(user), Some(f), Rejected, now)
         == Outcome(Response(500, "Internal server error", None), None, None)
  {
  }

  /** A record is saved only after a raw upload to folder BcocHubDoc that the
      host accepted, and it carries the host's url and the session's user name. */
  lemma RecordFollowsUpload(session: Session, form: Option<DocumentForm>, reply: CloudReply, now: int)
    ensures var o := DocumentUpload(session, form, reply, now);
      o.saved.Some? ==>
        && session.Some? && form.Some? && form.value.file.FileEntry? && reply.Accepted?
        && o.uploaded == Some(Blob("BcocHubDoc", "raw", form.value.file.content))
        && Some(o.saved.value.url) == reply.url
        && Some(o.saved.value.uploader) == session.value.name
  {
  }

  /** A complete request saves exactly one record and answers 200 with status true. */
  lemma SuccessSavesOneRecord(user: SessionUser, f: DocumentForm, url: string, duration: Option<nat>, now: int)
    requires f.file.FileEntry? && Filled(f.title) && Filled(user.name) && url != ""
    ensures DocumentUpload(Some(user), Some(f), Accepted(Some(url), duration), now)
         == Outcome(Response(200, "Document is uploaded Successfully!", Some(true)),
                    Some(Blob("BcocHubDoc", "raw", f.file.content)),
                    Some(Pdf(f.title.value, None, url, user.name.value, SizeHundredths(|f.file.content|), now, now)))
  {
  }

  /** A record is saved exactly when the answer reports success. */
  lemma SavedIffSuccess(session: Session, form: Option<DocumentForm>, reply: CloudReply, now: int)
    ensures var o := DocumentUpload(session, form, reply, now);
      o.saved.Some? <==> o.response == Response(200, "Document is uploaded Successfully!", Some(true))
  {
  }

  /** An accepted upload whose record fails validation (here: no title) leaves
      the file on the media host with no record pointing at it. */
  lemma UntitledUploadOrphansFile(user: SessionUser, f: DocumentForm, reply: CloudReply, now: int)
    requires f.file.FileEntry? && f.title.None? && reply.Accepted?
    ensures DocumentUpload(Some(user), Some(f), reply, now)
         == Outcome(Response(500, "Internal server error", None), Some(Blob("BcocHubDoc", "raw", f.file.content)), None)
  {
  }
}
