/** POST /api/v1/register: a chain of early-return checks over the JSON
    body, then the insert of a new user whose password is stored hashed.
    Anything the handler throws is caught and answered with status 200. */
module Register {
  import opened Wrappers
  import opened Records
  import opened Api

  /** The JSON body; a field is `None` when it is absent or null. A JSON
      value that is not an object (a number, string, boolean or array)
      destructures into four absent fields. */
  datatype RegisterBody = RegisterBody(
    email: Option<string>, password: Option<string>, confirmPassword: Option<string>, name: Option<string>)

  /** `email && password && confirmPassword && name`: each present and not "". */
  predicate AllFieldsGiven(b: RegisterBody) {
    Filled(b.email) && Filled(b.password) && Filled(b.confirmPassword) && Filled(b.name)
  }

  const AllFieldsRequired := Response(400, "All fields are required", None)
  const CheckPasswordAgain := Response(400, "Check password again", None)
  const UserAlreadyExists := Response(400, "User already exists", None)
  const UserCreated := Response(200, "User created successfully !", None)
  const InternalServerError := Response(200, "InternalServer Error !", None)

  /** The response, and the user the request adds to the store, if any. */
  datatype Outcome = Outcome(response: Response, created: Option<User>)

  /** What a registration request does to a store holding `users`.
      `body` is `None` when `json()` or the destructuring throws: the body is
      not valid JSON (an empty body included) or is JSON `null`. `hash` is
      `bcrypt.hash` with this call's salt. A user is created only from a body
      with every field and matching passwords, and only under an email that
      no stored user has. */
  function Registration(users: seq<User>, body: Option<RegisterBody>, hash: string -> string, now: int): (r: Outcome)
    ensures r.created.Some? ==>
      && body.Some? && AllFieldsGiven(body.value)
      && body.value.password == body.value.confirmPassword
      && r.created.value.email == body.value.email.value
      && r.created.value.password == hash(body.value.password.value)
      && forall i :: 0 <= i < |users| ==> users[i].email != r.created.value.email
  {
    match body
    case None => Outcome(InternalServerError, None)
    case Some(b) =>
      if !AllFieldsGiven(b) then Outcome(AllFieldsRequired, None)
      else if b.password.value != b.confirmPassword.value then Outcome(CheckPasswordAgain, None)
      else if FindByEmail(users, b.email.value).Some? then Outcome(UserAlreadyExists, None)
      else
        var saved := InsertUser(users, UserDraft(b.name.value, b.email.value, hash(b.password.value)), now);
        if saved.Some? then Outcome(UserCreated, saved) else Outcome(InternalServerError, None)
  }

  /** The handler over the shared store: it changes only the users collection. */
  method Post(db: Database, body: Option<RegisterBody>, hash: string -> string, now: int) returns (resp: Response)
    requires db.Valid()
    modifies db`users
    ensures db.Valid()
    ensures resp == Registration(old(db.users), body, hash, now).response
    ensures db.users == old(db.users) + AsSeq(Registration(old(db.users), body, hash, now).created)
  {
    if body.None? {
      return InternalServerError;
    }
    var b := body.value;
    if !Filled(b.email) || !Filled(b.password) || !Filled(b.confirmPassword) || !Filled(b.name) {
      return AllFieldsRequired;
    }
    if b.password.value != b.confirmPassword.value {
      return CheckPasswordAgain;
    }
    var existing := FindByEmail(db.users, b.email.value);
    if existing.Some? {
      return UserAlreadyExists;
    }
    var digest := hash(b.password.value);
    var saved := db.SaveUser(UserDraft(b.name.value, b.email.value, digest), now);
    if saved.None? {
      return InternalServerError;
    }
    return UserCreated;
  }

  /** A body that is not valid JSON, or is JSON `null`, is answered
      "InternalServer Error !" with status 200. */
  lemma UnreadableBody(users: seq<User>, hash: string -> string, now: int)
    ensures Registration(users, None, hash, now) == Outcome(Response(200, "InternalServer Error !", None), None)
  {
  }

  /** A missing or empty field is the first check: 400, nothing stored. */
  lemma MissingFieldRejected(users: seq<User>, b: RegisterBody, hash: string -> string, now: int)
    requires !Filled(b.email) || !Filled(b.password) || !Filled(b.confirmPassword) || !Filled(b.name)
    ensures Registration(users, Some(b), hash, now) == Outcome(Response(400, "All fields are required", None), None)
  {
  }

  /** With every field given, differing passwords are rejected before the store is consulted. */
  lemma PasswordMismatchRejected(users: seq<User>, b: RegisterBody, hash: string -> string, now: int)
    requires AllFieldsGiven(b) && b.password != b.confirmPassword
    ensures Registration(users, Some(b), hash, now) == Outcome(Response(400, "Check password again", None), None)
  {
  }

  /** A request that passes the field checks for an email already stored is rejected. */
  lemma DuplicateEmailRejected(users: seq<User>, b: RegisterBody, hash: string -> string, now: int, i: nat)
    requires AllFieldsGiven(b) && b.password == b.confirmPassword
    requires i < |users| && users[i].email == b.email.value
    ensures Registration(users, Some(b), hash, now) == Outcome(Response(400, "User already exists", None), None)
  {
  }

  /** A request that passes every check stores exactly one new user: that email,
      the given name as fullName, and the hashed password, stamped `now`. */
  lemma NewUserCreated(users: seq<User>, b: RegisterBody, hash: string -> string, now: int)
    requires AllFieldsGiven(b) && b.password == b.confirmPassword
    requires forall i :: 0 <= i < |users| ==> users[i].email != b.email.value
    requires hash(b.password.value) != ""
    ensures Registration(users, Some(b), hash, now)
         == Outcome(Response(200, "User created successfully !", None),
                    Some(User(b.name.value, b.email.value, hash(b.password.value), now, now)))
  {
  }

  /** The store grows exactly when the response reports success. */
  lemma GrowsOnlyOnSuccess(users: seq<User>, body: Option<RegisterBody>, hash: string -> string, now: int)
    ensures var o := Registration(users, body, hash, now);
      o.created.Some? <==> o.response == UserCreated
  {
  }

  /** No request ever leaves two users with the same email. */
  lemma KeepsEmailsUnique(users: seq<User>, body: Option<RegisterBody>, hash: string -> string, now: int)
    requires UniqueEmails(users)
    ensures UniqueEmails(users + AsSeq(Registration(users, body, hash, now).created))
  {
    if body.Some? && AllFieldsGiven(body.value) {
      var b := body.value;
      InsertUserKeepsUnique(users, UserDraft(b.name.value, b.email.value, hash(b.password.value)), now);
    }
  }

  /** Every answer has status 400 or 200; a caught error is never a 5xx. */
  lemma NoServerErrorStatus(users: seq<User>, body: Option<RegisterBody>, hash: string -> string, now: int)
    ensures Registration(users, body, hash, now).response.code in {200, 400}
  {
  }
}
