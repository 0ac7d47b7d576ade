/** The authentication service (pkg/services/api/auth.go): registration and
    login over the user collection. */
module AuthService {
  import opened Base
  import opened Models
  import opened Password
  import opened Store

  /** The fields of a registration request that CreateUser keeps. */
  datatype Registration = Registration(firstName: string, lastName: string, email: string, password: string)

  datatype AuthError =
    | HashFailed                // HashPassword returned an error
    | UserAlreadyExists         // "user already exists"
    | Db(cause: DbError)
    | PasswordDoesNotMatch      // "password does not match"
    | CompareError              // any other error from ComparePassword

  /** The document CreateUser inserts: the given names and email, the hashed
      password, a fresh id and the creation time; everything else zero, so
      the account starts unverified. */
  function NewUserDocument(data: Registration, id: ObjectId, hashed: string, now: Time): User {
    ZeroUser.(id := id, firstName := data.firstName, lastName := data.lastName,
              password := hashed, email := data.email, createdAt := now, updatedAt := now)
  }

  /** GetUserByEmail: the first user with this email; on a miss the zero user
      together with ErrNoDocuments. Any other lookup error (`ok` false) is
      swallowed: the zero user comes back with no error. */
  function GetUserByEmail(docs: seq<User>, email: string, ok: bool): (r: (User, Option<DbError>))
    ensures r.1.Some? <==> ok && forall i :: 0 <= i < |docs| ==> docs[i].email != email
    ensures r.1.Some? ==> r == (ZeroUser, Some(NoDocuments))
    ensures ok && r.1.None? ==> r.0.email == email && r.0 in docs
    ensures ok && r.1.None? ==>
      FirstMatch(docs, EmailIs(email)).Some? && r.0 == docs[FirstMatch(docs, EmailIs(email)).value]
    ensures !ok ==> r == (ZeroUser, None)
  {
    if !ok then (ZeroUser, None)
    else match FirstMatch(docs, EmailIs(email))
      case None => (ZeroUser, Some(NoDocuments))
      case Some(i) => (docs[i], None)
  }

  /** CreateUser's duplicate test as written: the error of the lookup is
      ignored and the email of whatever user came back is compared. */
  predicate DuplicateEmail(docs: seq<User>, email: string, ok: bool) {
    GetUserByEmail(docs, email, ok).0.email == email
  }

  /** The test rejects an email already stored and, because a miss yields the
      zero user, also the empty email, whatever the store holds. When the
      lookup fails, only the empty email is rejected. */
  lemma DuplicateEmailIff(docs: seq<User>, email: string, ok: bool)
    ensures DuplicateEmail(docs, email, ok) <==> email == "" || (ok && exists i :: 0 <= i < |docs| && docs[i].email == email)
  {
  }

  predicate UniqueEmails(docs: seq<User>) {
    forall i, j :: 0 <= i < j < |docs| ==> docs[i].email != docs[j].email
  }

  /** A document that passes the duplicate test keeps the emails unique. */
  lemma InsertKeepsEmailsUnique(docs: seq<User>, u: User)
    requires UniqueEmails(docs)
    requires !DuplicateEmail(docs, u.email, true)
    ensures UniqueEmails(docs + [u])
  {
    DuplicateEmailIff(docs, u.email, true);
    var d := docs + [u];
    forall i, j | 0 <= i < j < |d| ensures d[i].email != d[j].email {
      if j == |docs| {
        assert d[i] == docs[i];
      } else {
        assert d[i] == docs[i] && d[j] == docs[j];
      }
    }
  }

  /** A swallowed lookup error lets an already registered (non-empty) email
      through the duplicate test, and the insert then breaks uniqueness. */
  lemma LookupFailureAdmitsDuplicate(docs: seq<User>, u: User)
    requires u.email != ""
    requires exists i :: 0 <= i < |docs| && docs[i].email == u.email
    ensures !DuplicateEmail(docs, u.email, false)
    ensures !UniqueEmails(docs + [u])
  {
    var i :| 0 <= i < |docs| && docs[i].email == u.email;
    var d := docs + [u];
    assert d[i] == docs[i] && d[|docs|] == u;
  }

  /** Login: look the user up by email, then compare the password with the
      stored hash. `ok` says whether the lookup reaches the server; when it
      does not, the password is compared with the zero user's empty hash. */
  function Login(docs: seq<User>, bcrypt: Bcrypt, email: string, password: string, ok: bool): (r: Result<User, AuthError>)
    ensures r == Err(Db(NoDocuments)) <==> ok && forall i :: 0 <= i < |docs| ==> docs[i].email != email
    ensures r.Ok? ==> bcrypt.compare(password, r.value.password) == Match
    ensures r.Ok? && ok ==> r.value in docs && r.value.email == email
    ensures r.Ok? && !ok ==> r.value == ZeroUser
    ensures r == Err(PasswordDoesNotMatch) <==>
      (!ok || exists i :: 0 <= i < |docs| && docs[i].email == email) &&
      bcrypt.compare(password, GetUserByEmail(docs, email, ok).0.password) == Mismatch
    ensures r == Err(CompareError) <==>
      (!ok || exists i :: 0 <= i < |docs| && docs[i].email == email) &&
      bcrypt.compare(password, GetUserByEmail(docs, email, ok).0.password) == CompareFailed
    ensures ok && FirstMatch(docs, EmailIs(email)).Some? ==>
      var user := docs[FirstMatch(docs, EmailIs(email)).value];
      bcrypt.compare(password, user.password) == Match ==> r == Ok(user)
  {
    var (user, err) := GetUserByEmail(docs, email, ok);
    if err.Some? then Err(Db(err.value))
    else
      match bcrypt.compare(password, user.password)
      case Mismatch => Err(PasswordDoesNotMatch)
      case CompareFailed => Err(CompareError)
      case Match => Ok(user)
  }

  /** A registration that went through can log in with its password, and the
      login returns the document that was inserted. */
  lemma RegisterThenLogin(docs: seq<User>, data: Registration, id: ObjectId, salt: Salt, bcrypt: Bcrypt, now: Time)
    requires Consistent(bcrypt)
    requires bcrypt.hash(data.password, salt).Some?
    requires !DuplicateEmail(docs, data.email, true)
    ensures var u := NewUserDocument(data, id, bcrypt.hash(data.password, salt).value, now);
      Login(docs + [u], bcrypt, data.email, data.password, true) == Ok(u)
  {
    var u := NewUserDocument(data, id, bcrypt.hash(data.password, salt).value, now);
    DuplicateEmailIff(docs, data.email, true);
    FirstMatchAppend(docs, u, EmailIs(data.email));
    assert (docs + [u])[|docs|] == u;
  }

  /** Once registered, the same email is refused a second time. */
  lemma RegisterTwiceRejected(docs: seq<User>, data: Registration, id: ObjectId, hashed: string, now: Time)
    ensures DuplicateEmail(docs + [NewUserDocument(data, id, hashed, now)], data.email, true)
  {
    var u := NewUserDocument(data, id, hashed, now);
    DuplicateEmailIff(docs + [u], data.email, true);
    assert (docs + [u])[|docs|] == u;
  }

  /** Among ASCII passwords of at most 72 bytes with no NUL byte, any other
      password fails to log in with "password does not match". */
  lemma WrongPasswordRejected(docs: seq<User>, data: Registration, id: ObjectId, salt: Salt, bcrypt: Bcrypt, now: Time, other: string)
    requires Discriminating(bcrypt)
    requires bcrypt.hash(data.password, salt).Some?
    requires !DuplicateEmail(docs, data.email, true)
    requires Ascii(data.password) && Ascii(other)
    requires |data.password| <= KeyLength && |other| <= KeyLength
    requires '\0' !in data.password && '\0' !in other
    requires other != data.password
    ensures var u := NewUserDocument(data, id, bcrypt.hash(data.password, salt).value, now);
      Login(docs + [u], bcrypt, data.email, other, true) == Err(PasswordDoesNotMatch)
  {
    var u := NewUserDocument(data, id, bcrypt.hash(data.password, salt).value, now);
    DuplicateEmailIff(docs, data.email, true);
    FirstMatchAppend(docs, u, EmailIs(data.email));
    assert (docs + [u])[|docs|] == u;
    ShortPasswordsKeyedApart(data.password, other);
    assert bcrypt.compare(other, u.password) == Mismatch;
  }

  /** A registered password of 72 bytes or more logs in with anything
      appended to it: bcrypt keys on the first 72 bytes only. */
  lemma LongPasswordExtensionLogsIn(docs: seq<User>, data: Registration, id: ObjectId, salt: Salt, bcrypt: Bcrypt, now: Time, suffix: string)
    requires KeyedByFirst72Bytes(bcrypt)
    requires bcrypt.hash(data.password, salt).Some?
    requires !DuplicateEmail(docs, data.email, true)
    requires Ascii(data.password) && Ascii(suffix)
    requires |data.password| >= KeyLength
    ensures var u := NewUserDocument(data, id, bcrypt.hash(data.password, salt).value, now);
      Login(docs + [u], bcrypt, data.email, data.password + suffix, true) == Ok(u)
  {
    var u := NewUserDocument(data, id, bcrypt.hash(data.password, salt).value, now);
    DuplicateEmailIff(docs, data.email, true);
    FirstMatchAppend(docs, u, EmailIs(data.email));
    assert (docs + [u])[|docs|] == u;
    LongPasswordKeyIsPrefix(data.password, suffix);
    assert Ascii(data.password + suffix);
    assert bcrypt.compare(data.password + suffix, u.password) == Match;
  }

  /** When the lookup fails, the password is compared with the zero user's
      empty hash, which bcrypt refuses: no login succeeds. */
  lemma LookupFailureLoginFails(docs: seq<User>, bcrypt: Bcrypt, email: string, password: string)
    requires RejectsEmptyHash(bcrypt)
    ensures Login(docs, bcrypt, email, password, false) == Err(CompareError)
  {
    assert bcrypt.compare(password, ZeroUser.password) == CompareFailed;
  }

  class AuthService {
    const col: UserCollection

    constructor (col: UserCollection)
      ensures this.col == col
    {
      this.col := col;
    }

    /** CreateUser: hash first, then the duplicate test, then the insert.
        `id`, `salt` and `now` are the fresh ObjectID, the bcrypt salt and the
        clock reading; `lookupOk` and `insertOk` say whether the duplicate
        lookup and the insert reach the server. */
    method CreateUser(data: Registration, id: ObjectId, salt: Salt, bcrypt: Bcrypt, now: Time, lookupOk: bool, insertOk: bool)
      returns (err: Option<AuthError>)
      modifies col
      ensures bcrypt.hash(data.password, salt).None? ==> err == Some(HashFailed) && col.docs == old(col.docs)
      ensures bcrypt.hash(data.password, salt).Some? && DuplicateEmail(old(col.docs), data.email, lookupOk) ==>
        err == Some(UserAlreadyExists) && col.docs == old(col.docs)
      ensures bcrypt.hash(data.password, salt).Some? && !DuplicateEmail(old(col.docs), data.email, lookupOk) ==>
        if insertOk then
          err == None && col.docs == old(col.docs) + [NewUserDocument(data, id, bcrypt.hash(data.password, salt).value, now)]
        else
          err == Some(Db(Unavailable)) && col.docs == old(col.docs)
      ensures UniqueEmails(old(col.docs)) && lookupOk ==> UniqueEmails(col.docs)
    {
      var hashed := bcrypt.hash(data.password, salt);
      if hashed.None? {
        return Some(HashFailed);
      }
      var (user, _) := GetUserByEmail(col.docs, data.email, lookupOk);
      if user.email == data.email {
        return Some(UserAlreadyExists);
      }
      var u := NewUserDocument(data, id, hashed.value, now);
      if UniqueEmails(col.docs) && lookupOk {
        InsertKeepsEmailsUnique(col.docs, u);
      }
      var e := col.InsertOne(u, insertOk);
      err := if e.Some? then Some(Db(e.value)) else None;
    }
  }
}
