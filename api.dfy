/** What the API routes share: the session that `auth()` yields, the JSON
    response they return, and the media host that holds uploaded files.
    Decoding the session cookie and the media host's own work are outside
    the model; the host's answer to an upload is an input. */
module Api {
  import opened Wrappers

  newtype byte = x: int | 0 <= x < 256

  /** `session.user`: the identity claim carried by a signed-in request. */
  datatype SessionUser = SessionUser(id: string, email: string, fullName: string, name: Option<string>)

  /** `session?.user`: `None` for an anonymous request. */
  type Session = Option<SessionUser>

  /** An HTTP response: status code, the JSON `message`, and the JSON `status` flag when present. */
  datatype Response = Response(code: int, message: string, flag: Option<bool>)

  /** `form.get(name)` on a multipart form: no entry, a text value, or an uploaded file. */
  datatype FormEntry = NoEntry | TextEntry(text: string) | FileEntry(content: seq<byte>)

  /** `!entry`: no entry and the empty text are falsy; a file object never is. */
  predicate Falsy(e: FormEntry) {
    e.NoEntry? || e == TextEntry("")
  }

  /** A file held by the media host, with the options it was uploaded under. */
  datatype Blob = Blob(folder: string, resourceType: string, content: seq<byte>)

  /** The media host's answer to `upload_stream`: a result carrying `url` and
      (for videos) `duration`, or an error that rejects the upload promise. */
  datatype CloudReply = Accepted(url: Option<string>, duration: Option<nat>) | Rejected

  /** The media host's store of uploaded files. */
  class Cloud {
    var blobs: seq<Blob>

    constructor ()
      ensures blobs == []
    {
      blobs := [];
    }

    /** `upload_stream(options, callback).end(buffer)`: the file is stored
        only when the host accepts it; the result is the host's reply. */
    method UploadStream(folder: string, resourceType: string, content: seq<byte>, reply: CloudReply)
      returns (result: Option<CloudReply>)
      modifies this
      ensures reply.Accepted? ==> blobs == old(blobs) + [Blob(folder, resourceType, content)] && result == Some(reply)
      ensures reply.Rejected? ==> blobs == old(blobs) && result == None
    {
      if reply.Accepted? {
        blobs := blobs + [Blob(folder, resourceType, content)];
        result := Some(reply);
      } else {
        result := None;
      }
    }
  }
}
