/** The store effects of the user controller's handlers
    (pkg/controllers/user.go): starring a shop, claiming a brand name,
    changing the password, deleting the account and overwriting the profile.
    The caller's id is the one the authentication middleware stored. */
module UserController {
  import opened Base
  import opened Models
  import opened Password
  import opened Store
  import AuthService

  datatype UserError =
    | Lookup(cause: DbError)       // the lookup's own error
    | BrandNameTaken               // "brand name taken"
    | PasswordMismatch             // "password mismatch" (ChangePassword)
    | PasswordDoesNotMatch         // "password doesn't match" (DeleteUser)
    | CompareError                 // DeleteUser: any other comparison error
    | HashFailed
    | UpdateFailed(cause: DbError) // the write's own error

  /** GetUserByIdWithPassword: only ErrNoDocuments is reported; any other
      lookup error is swallowed and the zero user comes back. */
  function UserByIdWithPassword(docs: seq<User>, id: ObjectId, ok: bool): (r: (User, Option<DbError>))
    ensures r.1.Some? <==> ok && forall j :: 0 <= j < |docs| ==> docs[j].id != id
    ensures r.1.Some? ==> r == (ZeroUser, Some(NoDocuments))
    ensures !ok ==> r == (ZeroUser, None)
    ensures ok && r.1.None? ==> r.0 in docs && r.0.id == id
    ensures ok && r.1.None? ==>
      FirstMatch(docs, IdIs(id)).Some? && r.0 == docs[FirstMatch(docs, IdIs(id)).value]
  {
    if !ok then (ZeroUser, None)
    else match FirstMatch(docs, IdIs(id))
      case None => (ZeroUser, Some(NoDocuments))
      case Some(i) => (docs[i], None)
  }

  /** The user after each of `starrers` has starred the shop once, in order. */
  function StarredBy(u: User, starrers: seq<ObjectId>): User
    decreases |starrers|
  {
    if starrers == [] then u else StarredBy(Apply(u, StarBy(starrers[0])), starrers[1..])
  }

  /** Every star counts, repeated or not, while starredBy keeps each starrer
      once: stars grow by the number of stars and starredBy only by the new
      starrers, so stars - |starredBy| never decreases. */
  lemma {:induction false} StarsCountEveryStar(u: User, starrers: seq<ObjectId>)
    ensures StarredBy(u, starrers).stars == u.stars + |starrers|
    ensures forall x :: x in StarredBy(u, starrers).starredBy <==> x in u.starredBy || x in starrers
    ensures |StarredBy(u, starrers).starredBy| <= |u.starredBy| + |starrers|
    ensures StarredBy(u, starrers).stars - |StarredBy(u, starrers).starredBy| >= u.stars - |u.starredBy|
    decreases |starrers|
  {
    if starrers != [] {
      var v := Apply(u, StarBy(starrers[0]));
      StarsCountEveryStar(v, starrers[1..]);
      forall x ensures x in starrers <==> x == starrers[0] || x in starrers[1..] {
        if x in starrers {
          var k :| 0 <= k < |starrers| && starrers[k] == x;
          if k > 0 { assert starrers[1..][k - 1] == x; }
        }
      }
    }
  }

  /** The same user starring twice adds two stars and one starredBy entry. */
  lemma RepeatStarCountsTwice(u: User, starrer: ObjectId)
    requires starrer !in u.starredBy
    ensures StarredBy(u, [starrer, starrer]).stars == u.stars + 2
    ensures StarredBy(u, [starrer, starrer]).starredBy == u.starredBy + [starrer]
  {
    var v := Apply(u, StarBy(starrer));
    assert [starrer, starrer][1..] == [starrer];
    assert StarredBy(u, [starrer, starrer]) == StarredBy(v, [starrer]);
    assert [starrer][1..] == [];
  }

  /** The brand-name test: the first user holding the name is verified. The
      caller is not excluded, and later holders are not looked at. */
  predicate BrandNameBlocked(docs: seq<User>, name: string) {
    FirstMatch(docs, BrandNameIs(name)).Some? && docs[FirstMatch(docs, BrandNameIs(name)).value].isVerified
  }

  /** An unverified holder does not block: a second user can take the same
      brand name, and both then hold it. */
  lemma UnverifiedHolderDoesNotBlock(docs: seq<User>, name: string, holder: nat, caller: nat, at: Time)
    requires holder < |docs| && caller < |docs| && holder != caller
    requires docs[holder].brandName == name && !docs[holder].isVerified
    requires forall j :: 0 <= j < |docs| && j != holder ==> docs[j].brandName != name
    requires FirstMatch(docs, IdIs(docs[caller].id)) == Some(caller)
    ensures !BrandNameBlocked(docs, name)
    ensures var after := UpdatedOne(docs, IdIs(docs[caller].id), SetBrandName(name, at));
      after[holder].brandName == name && after[caller].brandName == name
  {
    assert FirstMatch(docs, BrandNameIs(name)) == Some(holder) by {
      assert Matches(docs[holder], BrandNameIs(name));
    }
  }

  /** A verified user who already holds the name is refused it again. */
  lemma VerifiedHolderIsRefusedOwnName(docs: seq<User>, name: string, caller: nat)
    requires caller < |docs| && docs[caller].brandName == name && docs[caller].isVerified
    requires forall j :: 0 <= j < |docs| && j != caller ==> docs[j].brandName != name
    ensures BrandNameBlocked(docs, name)
  {
    assert Matches(docs[caller], BrandNameIs(name));
  }

  /** A user who never chose a brand name holds the empty one, so once
      verified such a user, if first in the collection among those holders,
      makes the empty name "taken" for everyone else. */
  lemma VerifiedNewcomerBlocksEmptyName(docs: seq<User>, data: AuthService.Registration, id: ObjectId, hashed: string, now: Time)
    requires forall j :: 0 <= j < |docs| ==> docs[j].brandName != ""
    ensures BrandNameBlocked(docs + [AuthService.NewUserDocument(data, id, hashed, now).(isVerified := true)], "")
  {
    var u := AuthService.NewUserDocument(data, id, hashed, now).(isVerified := true);
    FirstMatchAppend(docs, u, BrandNameIs(""));
    assert (docs + [u])[|docs|] == u;
  }

  /** Setting a password leaves every email, hence the first match on an
      email, where it was. */
  lemma {:induction false} SetPasswordKeepsEmailMatch(docs: seq<User>, email: string, f: UserFilter, hash: string)
    ensures FirstMatch(UpdatedOne(docs, f, SetPassword(hash)), EmailIs(email)) == FirstMatch(docs, EmailIs(email))
  {
    var after := UpdatedOne(docs, f, SetPassword(hash));
    assert forall j :: 0 <= j < |docs| ==> (Matches(after[j], EmailIs(email)) <==> Matches(docs[j], EmailIs(email)));
  }

  /** After a password change by email, logging in with that email and the
      new password succeeds. */
  lemma {:induction false} ChangedPasswordLogsIn(docs: seq<User>, email: string, newPassword: string, salt: Salt, bcrypt: Bcrypt)
    requires Consistent(bcrypt)
    requires bcrypt.hash(newPassword, salt).Some?
    requires exists j :: 0 <= j < |docs| && docs[j].email == email
    ensures var after := UpdatedOne(docs, EmailIs(email), SetPassword(bcrypt.hash(newPassword, salt).value));
      AuthService.Login(after, bcrypt, email, newPassword, true).Ok?
  {
    var hash := bcrypt.hash(newPassword, salt).value;
    var after := UpdatedOne(docs, EmailIs(email), SetPassword(hash));
    SetPasswordKeepsEmailMatch(docs, email, EmailIs(email), hash);
    var i := FirstMatch(docs, EmailIs(email)).value;
    assert after[i].password == hash;
    assert AuthService.GetUserByEmail(after, email, true).0 == after[i];
  }

  predicate UniqueIds(docs: seq<User>) {
    forall i, j :: 0 <= i < j < |docs| ==> docs[i].id != docs[j].id
  }

  /** Removing position i, the only one holding `id`, leaves no user with it. */
  lemma RemovedHasNoId(docs: seq<User>, i: nat, id: ObjectId)
    requires UniqueIds(docs) && i < |docs| && docs[i].id == id
    ensures forall u :: u in docs[..i] + docs[i + 1..] ==> u.id != id
  {
    var after := docs[..i] + docs[i + 1..];
    forall u | u in after ensures u.id != id {
      var k :| 0 <= k < |after| && after[k] == u;
      if k < i {
        assert after[k] == docs[k];
      } else {
        assert after[k] == docs[k + 1];
      }
    }
  }

  /** Removing position i keeps every user with another id. */
  lemma RemovedKeepsOthers(docs: seq<User>, i: nat, id: ObjectId)
    requires i < |docs| && docs[i].id == id
    ensures forall u :: u in docs && u.id != id ==> u in docs[..i] + docs[i + 1..]
  {
    var after := docs[..i] + docs[i + 1..];
    forall u | u in docs && u.id != id ensures u in after {
      var k :| 0 <= k < |docs| && docs[k] == u;
      if k < i {
        assert after[k] == u;
      } else {
        assert after[k - 1] == u;
      }
    }
  }

  /** With unique ids, deleting by id removes that user and nobody else. */
  lemma {:induction false} DeleteRemovesOnlyThatUser(docs: seq<User>, id: ObjectId)
    requires UniqueIds(docs)
    ensures forall u :: u in DeletedOne(docs, IdIs(id)) ==> u.id != id
    ensures forall u :: u in docs && u.id != id ==> u in DeletedOne(docs, IdIs(id))
    ensures |DeletedOne(docs, IdIs(id))| == if exists j :: 0 <= j < |docs| && docs[j].id == id then |docs| - 1 else |docs|
  {
    match FirstMatch(docs, IdIs(id))
    case None =>
    case Some(i) =>
      RemovedHasNoId(docs, i, id);
      RemovedKeepsOthers(docs, i, id);
  }

  class UserController {
    const users: UserCollection

    constructor (users: UserCollection)
      ensures this.users == users
    {
      this.users := users;
    }

    /** StarUserShop: one more star and the caller added to starredBy, on the
        shop with that id; no such shop is not an error. */
    method StarUserShop(shop: ObjectId, caller: ObjectId, ok: bool) returns (err: Option<UserError>)
      modifies users
      ensures err == (if ok then None else Some(UpdateFailed(Unavailable)))
      ensures users.docs == if ok then UpdatedOne(old(users.docs), IdIs(shop), StarBy(caller)) else old(users.docs)
    {
      var e := users.UpdateOne(IdIs(shop), StarBy(caller), ok);
      err := if e.Some? then Some(UpdateFailed(e.value)) else None;
    }

    /** UpdateBrandName: refused when the first holder of the name is
        verified; otherwise the caller's brand name is set. A lookup error
        other than "no documents" aborts. */
    method UpdateBrandName(caller: ObjectId, name: string, now: Time, findOk: bool, updateOk: bool)
      returns (err: Option<UserError>)
      modifies users
      ensures !findOk ==> err == Some(Lookup(Unavailable)) && users.docs == old(users.docs)
      ensures findOk && BrandNameBlocked(old(users.docs), name) ==>
        err == Some(BrandNameTaken) && users.docs == old(users.docs)
      ensures findOk && !BrandNameBlocked(old(users.docs), name) ==>
        if updateOk then
          err == None && users.docs == UpdatedOne(old(users.docs), IdIs(caller), SetBrandName(name, now))
        else
          err == Some(UpdateFailed(Unavailable)) && users.docs == old(users.docs)
    {
      var holder := users.FindOne(BrandNameIs(name), findOk);
      if holder.Err? && holder.error != NoDocuments {
        return Some(Lookup(holder.error));
      }
      var user := if holder.Ok? then holder.value else ZeroUser;
      if user.isVerified {
        return Some(BrandNameTaken);
      }
      var e := users.UpdateOne(IdIs(caller), SetBrandName(name, now), updateOk);
      err := if e.Some? then Some(UpdateFailed(e.value)) else None;
    }

    /** ChangePassword: the old password must match the stored hash; the new
        hash is then written to the first user with the looked-up user's
        email. */
    method ChangePassword(caller: ObjectId, oldPassword: string, newPassword: string, salt: Salt, bcrypt: Bcrypt,
                          findOk: bool, updateOk: bool)
      returns (err: Option<UserError>)
      modifies users
      ensures var (user, lookupErr) := UserByIdWithPassword(old(users.docs), caller, findOk);
        && (lookupErr.Some? ==> err == Some(Lookup(lookupErr.value)) && users.docs == old(users.docs))
        && (lookupErr.None? && bcrypt.compare(oldPassword, user.password) != Match ==>
              err == Some(PasswordMismatch) && users.docs == old(users.docs))
        && (lookupErr.None? && bcrypt.compare(oldPassword, user.password) == Match && bcrypt.hash(newPassword, salt).None? ==>
              err == Some(HashFailed) && users.docs == old(users.docs))
        && (lookupErr.None? && bcrypt.compare(oldPassword, user.password) == Match && bcrypt.hash(newPassword, salt).Some? ==>
              if updateOk then
                err == None && users.docs == UpdatedOne(old(users.docs), EmailIs(user.email), SetPassword(bcrypt.hash(newPassword, salt).value))
              else
                err == Some(UpdateFailed(Unavailable)) && users.docs == old(users.docs))
      ensures !findOk && RejectsEmptyHash(bcrypt) ==> err == Some(PasswordMismatch) && users.docs == old(users.docs)
      ensures err == None && findOk && Consistent(bcrypt) ==>
        AuthService.Login(users.docs, bcrypt, UserByIdWithPassword(old(users.docs), caller, true).0.email, newPassword, true).Ok?
    {
      var (user, lookupErr) := UserByIdWithPassword(users.docs, caller, findOk);
      if lookupErr.Some? {
        return Some(Lookup(lookupErr.value));
      }
      if bcrypt.compare(oldPassword, user.password) != Match {
        return Some(PasswordMismatch);
      }
      var hashed := bcrypt.hash(newPassword, salt);
      if hashed.None? {
        return Some(HashFailed);
      }
      if findOk && Consistent(bcrypt) {
        ChangedPasswordLogsIn(users.docs, user.email, newPassword, salt, bcrypt);
      }
      var e := users.UpdateOne(EmailIs(user.email), SetPassword(hashed.value), updateOk);
      err := if e.Some? then Some(UpdateFailed(e.value)) else None;
    }

    /** DeleteUser: the password must match the caller's stored hash; then the
        caller's document is deleted. */
    method DeleteUser(caller: ObjectId, password: string, bcrypt: Bcrypt, findOk: bool, deleteOk: bool)
      returns (err: Option<UserError>)
      modifies users
      ensures !findOk ==> err == Some(Lookup(Unavailable)) && users.docs == old(users.docs)
      ensures findOk && FirstMatch(old(users.docs), IdIs(caller)).None? ==>
        err == Some(Lookup(NoDocuments)) && users.docs == old(users.docs)
      ensures findOk && FirstMatch(old(users.docs), IdIs(caller)).Some? ==>
        var user := old(users.docs)[FirstMatch(old(users.docs), IdIs(caller)).value];
        && (bcrypt.compare(password, user.password) == Mismatch ==>
              err == Some(PasswordDoesNotMatch) && users.docs == old(users.docs))
        && (bcrypt.compare(password, user.password) == CompareFailed ==>
              err == Some(CompareError) && users.docs == old(users.docs))
        && (bcrypt.compare(password, user.password) == Match ==>
              if deleteOk then
                err == None && users.docs == DeletedOne(old(users.docs), IdIs(caller))
              else
                err == Some(UpdateFailed(Unavailable)) && users.docs == old(users.docs))
    {
      var found := users.FindOne(IdIs(caller), findOk);
      if found.Err? {
        return Some(Lookup(found.error));
      }
      var verdict := bcrypt.compare(password, found.value.password);
      if verdict == Mismatch {
        return Some(PasswordDoesNotMatch);
      } else if verdict == CompareFailed {
        return Some(CompareError);
      }
      var e := users.DeleteOne(IdIs(caller), deleteOk);
      err := if e.Some? then Some(UpdateFailed(e.value)) else None;
    }

    /** UpdateProfile: facebook, instagram and phone number are overwritten
        with the request's values, empty ones included. */
    method UpdateProfile(caller: ObjectId, facebook: string, instagram: string, phoneNo: string, now: Time, ok: bool)
      returns (err: Option<UserError>)
      modifies users
      ensures err == (if ok then None else Some(UpdateFailed(Unavailable)))
      ensures users.docs == if ok then UpdatedOne(old(users.docs), IdIs(caller), SetProfile(facebook, instagram, phoneNo, now)) else old(users.docs)
    {
      var e := users.UpdateOne(IdIs(caller), SetProfile(facebook, instagram, phoneNo, now), ok);
      err := if e.Some? then Some(UpdateFailed(e.value)) else None;
    }
  }
}
