/** The stored documents (pkg/models) and the password hashing the services
    call (pkg/services/password). */
module Models {
  import opened Base

  /** A product snapshot as kept in a user's cart. */
  datatype Prod = Prod(id: ObjectId, name: string, price: int, image: string)

  /** One cart line: a product id and a count. */
  datatype Entry = Entry(prodId: ObjectId, count: int)

  /** The cart embedded in a user document (`userCart`). */
  datatype Cart = Cart(products: seq<Prod>, entries: seq<Entry>)

  /** models.User. Every field is written, so a user who never chose a brand
      name holds the empty one. `stars` is a string in the stored document;
      here it is the number the `$inc` of a star acts on. */
  datatype User = User(
    id: ObjectId,
    firstName: string,
    lastName: string,
    password: string,
    image: string,
    brandName: string,
    phoneNo: string,
    email: string,
    instagram: string,
    facebook: string,
    stars: int,
    starredBy: seq<ObjectId>,
    isVerified: bool,
    cart: Cart,
    createdAt: Time,
    updatedAt: Time)

  /** The zero value `models.User{}`. */
  const ZeroUser: User :=
    User(NilObjectId, "", "", "", "", "", "", "", "", "", 0, [], false, Cart([], []), 0, 0)

  /** models.Product. */
  datatype Product = Product(
    id: ObjectId,
    price: int,
    image: string,
    name: string,
    userId: ObjectId,
    description: string,
    createdAt: Time,
    updatedAt: Time)

  /** The fields of a product document that decode into a cart snapshot. */
  function Snapshot(p: Product): (s: Prod)
    ensures s.id == p.id && s.name == p.name && s.price == p.price && s.image == p.image
  {
    Prod(p.id, p.name, p.price, p.image)
  }

  /** models.Token: the persisted record of an issued token. `expiresAt` holds
      the token's lifetime, not a point in time. */
  datatype TokenRecord = TokenRecord(token: string, userId: ObjectId, kind: string, expiresAt: Duration, blackListed: bool)
}

/** bcrypt, as the services use it through HashPassword and ComparePassword.
    Hashing is salted, so the salt is a parameter; it may fail. */
module Password {
  import opened Base

  type Salt = nat

  /** What ComparePassword reports: nil, bcrypt.ErrMismatchedHashAndPassword,
      or any other error (a malformed hash, an over-long password). */
  datatype Verdict = Match | Mismatch | CompareFailed

  datatype Bcrypt = Bcrypt(hash: (string, Salt) -> Option<string>, compare: (string, string) -> Verdict)

  /** A password matches every hash made from it. */
  ghost predicate Consistent(b: Bcrypt) {
    forall password, salt :: b.hash(password, salt).Some? ==> b.compare(password, b.hash(password, salt).value) == Match
  }

  /** Every character is ASCII, so each is one byte. The `alphanum` binding
      on passwords admits only ASCII letters and digits. */
  predicate Ascii(s: string) {
    forall k :: 0 <= k < |s| ==> s[k] as int < 0x80
  }

  /** Bytes of the Blowfish key bcrypt derives from a password. */
  const KeyLength: nat := 72

  /** The key bcrypt derives from a password: the password followed by a NUL
      byte, repeated, cut to its first 72 bytes. */
  function KeyMaterial(password: string): (key: seq<char>)
    ensures |key| == KeyLength
    ensures forall i :: 0 <= i < KeyLength ==> key[i] == (password + ['\0'])[i % (|password| + 1)]
  {
    var keyed := password + ['\0'];
    seq(KeyLength, i requires 0 <= i < KeyLength => keyed[i % |keyed|])
  }

  /** Two ASCII passwords with the same key match each other's hashes. */
  ghost predicate KeyedByFirst72Bytes(b: Bcrypt) {
    forall password, other, salt ::
      Ascii(password) && Ascii(other) && KeyMaterial(other) == KeyMaterial(password) && b.hash(password, salt).Some? ==>
        b.compare(other, b.hash(password, salt).value) == Match
  }

  /** An ASCII password whose key differs is reported as a mismatch, the
      error (bcrypt.ErrMismatchedHashAndPassword) the package test expects. */
  ghost predicate Discriminating(b: Bcrypt) {
    forall password, other, salt ::
      Ascii(password) && Ascii(other) && KeyMaterial(other) != KeyMaterial(password) && b.hash(password, salt).Some? ==>
        b.compare(other, b.hash(password, salt).value) == Mismatch
  }

  /** Distinct passwords of at most 72 bytes with no NUL byte have distinct
      keys. */
  lemma {:induction false} ShortPasswordsKeyedApart(password: string, other: string)
    requires |password| <= KeyLength && |other| <= KeyLength
    requires '\0' !in password && '\0' !in other
    requires password != other
    ensures KeyMaterial(other) != KeyMaterial(password)
  {
    var kp, ko := KeyMaterial(password), KeyMaterial(other);
    var i: nat;
    if |password| == |other| {
      assert exists j :: 0 <= j < |password| && password[j] != other[j];
      i :| i < |password| && password[i] != other[i];
    } else {
      i := if |password| < |other| then |password| else |other|;
    }
    ModSmall(i, |password| + 1);
    ModSmall(i, |other| + 1);
    assert kp[i] == (password + ['\0'])[i] && ko[i] == (other + ['\0'])[i];
  }

  lemma ModSmall(i: nat, n: nat)
    requires i < n
    ensures i % n == i
  {
  }

  /** A password of 72 bytes or more has its first 72 bytes as key. */
  lemma LongPasswordKey(password: string)
    requires |password| >= KeyLength
    ensures KeyMaterial(password) == password[..KeyLength]
  {
    var k := KeyMaterial(password);
    forall i | 0 <= i < KeyLength ensures k[i] == password[i] {
      ModSmall(i, |password| + 1);
      assert k[i] == (password + ['\0'])[i];
    }
  }

  /** Anything appended to a password of 72 bytes or more is ignored. */
  lemma LongPasswordKeyIsPrefix(password: string, suffix: string)
    requires |password| >= KeyLength
    ensures KeyMaterial(password + suffix) == KeyMaterial(password) == password[..KeyLength]
  {
    LongPasswordKey(password);
    LongPasswordKey(password + suffix);
    assert (password + suffix)[..KeyLength] == password[..KeyLength];
  }

  /** The empty string is no bcrypt hash: comparing any password with it
      fails with an error other than a mismatch (bcrypt.ErrHashTooShort). */
  ghost predicate RejectsEmptyHash(b: Bcrypt) {
    forall password :: b.compare(password, "") == CompareFailed
  }
}
