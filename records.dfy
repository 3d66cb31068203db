/** The three mongoose schemas of model/User.ts and the document store that
    holds them. A draft is the object handed to `new Model({...})`; `save()`
    validates it against the schema (a required String must be present and
    non-empty, a required Number present), stamps `createdAt`/`updatedAt`
    (`timestamps: true`) and inserts it; the users collection also carries
    the unique index on `email`. */
module Records {
  import opened Wrappers

  datatype User = User(fullName: string, email: string, password: string, createdAt: int, updatedAt: int)

  /** `description` is optional and stored as null (`None`) when not given. */
  datatype Video = Video(
    title: string, description: Option<string>, url: string, duration: nat, uploader: string,
    createdAt: int, updatedAt: int)

  /** `size` is the number of mebibytes in hundredths, as `toFixed(2)` leaves it. */
  datatype Pdf = Pdf(
    title: string, description: Option<string>, url: string, uploader: string, size: nat,
    createdAt: int, updatedAt: int)

  datatype UserDraft = UserDraft(fullName: string, email: string, password: string)
  datatype VideoDraft = VideoDraft(
    title: Option<string>, description: Option<string>, url: Option<string>, duration: Option<nat>,
    uploader: Option<string>)
  datatype PdfDraft = PdfDraft(
    title: Option<string>, description: Option<string>, url: Option<string>, uploader: Option<string>,
    size: Option<nat>)

  /** A required String path is satisfied by a present, non-empty string. */
  predicate Filled(s: Option<string>) {
    s.Some? && s.value != ""
  }

  predicate UserComplete(u: User) {
    u.fullName != "" && u.email != "" && u.password != ""
  }

  predicate VideoComplete(v: Video) {
    v.title != "" && v.url != "" && v.uploader != ""
  }

  predicate PdfComplete(p: Pdf) {
    p.title != "" && p.url != "" && p.uploader != ""
  }

  /** No two users share an email (the unique index on `email`). */
  predicate UniqueEmails(users: seq<User>) {
    forall i, j :: 0 <= i < j < |users| ==> users[i].email != users[j].email
  }

  /** `User.findOne({email})`: the first stored user with that email, if any. */
  function FindByEmail(users: seq<User>, email: string): (r: Option<User>)
    ensures r.Some? ==> r.value in users && r.value.email == email
    ensures r.None? ==> forall i :: 0 <= i < |users| ==> users[i].email != email
    decreases |users|
  {
    if users == [] then None
    else if users[0].email == email then Some(users[0])
    else FindByEmail(users[1..], email)
  }

  /** With unique emails, looking up a stored user's email finds that very user. */
  lemma {:induction false} FindByEmailUnique(users: seq<User>, i: nat)
    requires UniqueEmails(users) && i < |users|
    ensures FindByEmail(users, users[i].email) == Some(users[i])
    decreases i
  {
    if i > 0 {
      assert users[0].email != users[i].email;
      FindByEmailUnique(users[1..], i - 1);
    }
  }

  /** Schema validation of a user, stamped at time `now`. */
  function ValidateUser(d: UserDraft, now: int): (r: Option<User>)
    ensures r.Some? <==> d.fullName != "" && d.email != "" && d.password != ""
    ensures r.Some? ==> (UserComplete(r.value)
      && r.value.email == d.email && r.value.fullName == d.fullName && r.value.password == d.password
      && r.value.createdAt == now && r.value.updatedAt == now)
  {
    if d.fullName != "" && d.email != "" && d.password != "" then
      Some(User(d.fullName, d.email, d.password, now, now))
    else None
  }

  /** Schema validation of a video: title, url, duration and uploader are required. */
  function ValidateVideo(d: VideoDraft, now: int): (r: Option<Video>)
    ensures r.Some? <==> Filled(d.title) && Filled(d.url) && d.duration.Some? && Filled(d.uploader)
    ensures r.Some? ==> (VideoComplete(r.value)
      && r.value.title == d.title.value && r.value.url == d.url.value
      && r.value.duration == d.duration.value && r.value.uploader == d.uploader.value
      && r.value.description == d.description
      && r.value.createdAt == now && r.value.updatedAt == now)
  {
    if Filled(d.title) && Filled(d.url) && d.duration.Some? && Filled(d.uploader) then
      Some(Video(d.title.value, d.description, d.url.value, d.duration.value, d.uploader.value, now, now))
    else None
  }

  /** Schema validation of a PDF: title, url, uploader and size are required. */
  function ValidatePdf(d: PdfDraft, now: int): (r: Option<Pdf>)
    ensures r.Some? <==> Filled(d.title) && Filled(d.url) && Filled(d.uploader) && d.size.Some?
    ensures r.Some? ==> (PdfComplete(r.value)
      && r.value.title == d.title.value && r.value.url == d.url.value
      && r.value.uploader == d.uploader.value && r.value.size == d.size.value
      && r.value.description == d.description
      && r.value.createdAt == now && r.value.updatedAt == now)
  {
    if Filled(d.title) && Filled(d.url) && Filled(d.uploader) && d.size.Some? then
      Some(Pdf(d.title.value, d.description, d.url.value, d.uploader.value, d.size.value, now, now))
    else None
  }

  /** What `save()` of a new user adds to `users`: the validated user, unless
      validation fails or the unique index already holds its email. */
  function InsertUser(users: seq<User>, d: UserDraft, now: int): (r: Option<User>)
    ensures r.Some? <==> ValidateUser(d, now).Some? && FindByEmail(users, d.email).None?
    ensures r.Some? ==> r == ValidateUser(d, now)
  {
    if FindByEmail(users, d.email).Some? then None else ValidateUser(d, now)
  }

  /** Saving a user never breaks email uniqueness, and every stored user is complete. */
  lemma InsertUserKeepsUnique(users: seq<User>, d: UserDraft, now: int)
    requires UniqueEmails(users)
    ensures UniqueEmails(users + AsSeq(InsertUser(users, d, now)))
  {
    var r := InsertUser(users, d, now);
    if r.Some? {
      var us := users + [r.value];
      forall i, j | 0 <= i < j < |us|
        ensures us[i].email != us[j].email
      {
        if j == |users| {
          assert us[i] == users[i];
        }
      }
    }
  }

  /** The mongoose collections: users, videos and pdfs. */
  class Database {
    var users: seq<User>
    var videos: seq<Video>
    var pdfs: seq<Pdf>

    /** Every stored record passed its schema, and emails are unique. */
    predicate Valid()
      reads this
    {
      && UniqueEmails(users)
      && (forall i :: 0 <= i < |users| ==> UserComplete(users[i]))
      && (forall i :: 0 <= i < |videos| ==> VideoComplete(videos[i]))
      && (forall i :: 0 <= i < |pdfs| ==> PdfComplete(pdfs[i]))
    }

    constructor ()
      ensures Valid()
      ensures users == [] && videos == [] && pdfs == []
    {
      users, videos, pdfs := [], [], [];
    }

    /** `new User(d).save()`: the saved user, or `None` when save rejects. */
    method SaveUser(d: UserDraft, now: int) returns (saved: Option<User>)
      requires Valid()
      modifies this`users
      ensures Valid()
      ensures saved == InsertUser(old(users), d, now)
      ensures users == old(users) + AsSeq(saved)
    {
      InsertUserKeepsUnique(users, d, now);
      saved := InsertUser(users, d, now);
      if saved.Some? {
        users := users + [saved.value];
      }
    }

    /** `new Video(d).save()`. */
    method SaveVideo(d: VideoDraft, now: int) returns (saved: Option<Video>)
      requires Valid()
      modifies this`videos
      ensures Valid()
      ensures saved == ValidateVideo(d, now)
      ensures videos == old(videos) + AsSeq(saved)
    {
      saved := ValidateVideo(d, now);
      if saved.Some? {
        videos := videos + [saved.value];
      }
    }

    /** `new Pdf(d).save()`. */
    method SavePdf(d: PdfDraft, now: int) returns (saved: Option<Pdf>)
      requires Valid()
      modifies this`pdfs
      ensures Valid()
      ensures saved == ValidatePdf(d, now)
      ensures pdfs == old(pdfs) + AsSeq(saved)
    {
      saved := ValidatePdf(d, now);
      if saved.Some? {
        pdfs := pdfs + [saved.value];
      }
    }
  }
}
