/** In-memory stand-ins for the MongoDB collections and the Redis code store.
    A collection is the sequence of its documents in natural order, so that
    `FindOne` and `UpdateOne` act on the first match as the server does. A
    boolean parameter `ok` on each operation says whether the server is
    reachable; when it is not, the operation fails and changes nothing. */
module Store {
  import opened Base
  import opened Models

  datatype DbError = NoDocuments | Unavailable

  /** The index of the first element satisfying p. */
  function FirstIndex<T>(s: seq<T>, p: T -> bool): (r: Option<nat>)
    ensures r.Some? ==> r.value < |s| && p(s[r.value])
    ensures r.Some? ==> forall j :: 0 <= j < r.value ==> !p(s[j])
    ensures r.None? <==> forall j :: 0 <= j < |s| ==> !p(s[j])
  {
    if s == [] then None
    else if p(s[0]) then Some(0)
    else
      match FirstIndex(s[1..], p)
      case None => None
      case Some(k) => Some(k + 1)
  }

  /** The filters the services put on the user collection. */
  datatype UserFilter = IdIs(id: ObjectId) | EmailIs(email: string) | BrandNameIs(brandName: string)

  predicate Matches(u: User, f: UserFilter) {
    match f
    case IdIs(id) => u.id == id
    case EmailIs(email) => u.email == email
    case BrandNameIs(name) => u.brandName == name
  }

  /** The position of the document FindOne/UpdateOne/DeleteOne act on. */
  function FirstMatch(docs: seq<User>, f: UserFilter): (r: Option<nat>)
    ensures r.Some? ==> r.value < |docs| && Matches(docs[r.value], f)
    ensures r.Some? ==> forall j :: 0 <= j < r.value ==> !Matches(docs[j], f)
    ensures r.None? <==> forall j :: 0 <= j < |docs| ==> !Matches(docs[j], f)
  {
    FirstIndex(docs, (u: User) => Matches(u, f))
  }

  /** Appending a document does not move an earlier match, and is found when
      there was none. */
  lemma FirstMatchAppend(docs: seq<User>, u: User, f: UserFilter)
    ensures FirstMatch(docs + [u], f) ==
      if FirstMatch(docs, f).Some? then FirstMatch(docs, f)
      else if Matches(u, f) then Some(|docs|)
      else None
  {
    var r := FirstMatch(docs + [u], f);
    assert forall j :: 0 <= j < |docs| ==> (docs + [u])[j] == docs[j];
    assert (docs + [u])[|docs|] == u;
    match FirstMatch(docs, f)
    case Some(i) =>
      assert Matches((docs + [u])[i], f);
    case None =>
  }

  /** The update documents the services send to the user collection. */
  datatype UserUpdate =
    | StarBy(starrer: ObjectId)                                            // $inc stars 1, $addToSet starredBy
    | SetPassword(hash: string)                                            // $set password
    | SetBrandName(brandName: string, at: Time)                            // $set brandName, updatedAt
    | SetProfile(facebook: string, instagram: string, phoneNo: string, at: Time) // $set facebook, instagram, phoneNo, updatedAt
    | PushToCart(products: seq<Prod>, entries: seq<Entry>)                 // $push $each on both cart arrays

  /** $addToSet on an array: append only when absent. */
  function AddToSet(s: seq<ObjectId>, x: ObjectId): (r: seq<ObjectId>)
    ensures x in r
    ensures forall y :: y in r <==> y in s || y == x
    ensures |r| == if x in s then |s| else |s| + 1
  {
    if x in s then s else s + [x]
  }

  /** The effect of one update document on one user document. */
  function Apply(u: User, upd: UserUpdate): User {
    match upd
    case StarBy(starrer) => u.(stars := u.stars + 1, starredBy := AddToSet(u.starredBy, starrer))
    case SetPassword(hash) => u.(password := hash)
    case SetBrandName(name, at) => u.(brandName := name, updatedAt := at)
    case SetProfile(facebook, instagram, phoneNo, at) =>
      u.(facebook := facebook, instagram := instagram, phoneNo := phoneNo, updatedAt := at)
    case PushToCart(products, entries) =>
      u.(cart := Cart(u.cart.products + products, u.cart.entries + entries))
  }

  /** The collection after UpdateOne: the first match is updated, everything
      else is left alone; with no match nothing changes. */
  function UpdatedOne(docs: seq<User>, f: UserFilter, upd: UserUpdate): (r: seq<User>)
    ensures |r| == |docs|
    ensures FirstMatch(docs, f).None? ==> r == docs
    ensures FirstMatch(docs, f).Some? ==>
      && r[FirstMatch(docs, f).value] == Apply(docs[FirstMatch(docs, f).value], upd)
      && forall j :: 0 <= j < |docs| && j != FirstMatch(docs, f).value ==> r[j] == docs[j]
  {
    match FirstMatch(docs, f)
    case None => docs
    case Some(i) => docs[i := Apply(docs[i], upd)]
  }

  /** The collection after DeleteOne: the first match is removed. */
  function DeletedOne(docs: seq<User>, f: UserFilter): (r: seq<User>)
    ensures FirstMatch(docs, f).None? ==> r == docs
    ensures FirstMatch(docs, f).Some? ==>
      r == docs[..FirstMatch(docs, f).value] + docs[FirstMatch(docs, f).value + 1..]
  {
    match FirstMatch(docs, f)
    case None => docs
    case Some(i) => docs[..i] + docs[i + 1..]
  }

  class UserCollection {
    var docs: seq<User>

    constructor (docs: seq<User>)
      ensures this.docs == docs
    {
      this.docs := docs;
    }

    /** FindOne(filter).Decode: the first match, or ErrNoDocuments. */
    method FindOne(f: UserFilter, ok: bool) returns (r: Result<User, DbError>)
      ensures !ok ==> r == Err(Unavailable)
      ensures ok && FirstMatch(docs, f).None? ==> r == Err(NoDocuments)
      ensures ok && FirstMatch(docs, f).Some? ==> r == Ok(docs[FirstMatch(docs, f).value])
    {
      if !ok {
        return Err(Unavailable);
      }
      match FirstMatch(docs, f)
      case None => r := Err(NoDocuments);
      case Some(i) => r := Ok(docs[i]);
    }

    method InsertOne(u: User, ok: bool) returns (err: Option<DbError>)
      modifies this
      ensures err == (if ok then None else Some(Unavailable))
      ensures docs == if ok then old(docs) + [u] else old(docs)
    {
      if !ok {
        return Some(Unavailable);
      }
      docs := docs + [u];
      err := None;
    }

    /** UpdateOne: matching no document is not an error. */
    method UpdateOne(f: UserFilter, upd: UserUpdate, ok: bool) returns (err: Option<DbError>)
      modifies this
      ensures err == (if ok then None else Some(Unavailable))
      ensures docs == if ok then UpdatedOne(old(docs), f, upd) else old(docs)
    {
      if !ok {
        return Some(Unavailable);
      }
      docs := UpdatedOne(docs, f, upd);
      err := None;
    }

    method DeleteOne(f: UserFilter, ok: bool) returns (err: Option<DbError>)
      modifies this
      ensures err == (if ok then None else Some(Unavailable))
      ensures docs == if ok then DeletedOne(old(docs), f) else old(docs)
    {
      if !ok {
        return Some(Unavailable);
      }
      docs := DeletedOne(docs, f);
      err := None;
    }
  }

  /** The ids of the products, in collection order. */
  function IdsOf(products: seq<Product>): (r: seq<ObjectId>)
    ensures |r| == |products|
    ensures forall j :: 0 <= j < |products| ==> r[j] == products[j].id
  {
    if products == [] then [] else [products[0].id] + IdsOf(products[1..])
  }

  /** `s` is the snapshot of a product with id `id`. */
  predicate IsMatchSnapshot(products: seq<Product>, id: ObjectId, s: Prod) {
    exists j :: 0 <= j < |products| && products[j].id == id && s == Snapshot(products[j])
  }

  /** Every element of `r` is the snapshot of a product with id `id`. */
  predicate FromMatches(products: seq<Product>, id: ObjectId, r: seq<Prod>) {
    forall k :: 0 <= k < |r| ==> IsMatchSnapshot(products, id, r[k])
  }

  /** Every product with id `id` has its snapshot in `r`. */
  predicate CoversMatches(products: seq<Product>, id: ObjectId, r: seq<Prod>) {
    forall j :: 0 <= j < |products| && products[j].id == id ==> Snapshot(products[j]) in r
  }

  /** The head's snapshot, when it matches, in front of `rest`. */
  function ConsMatch(p: Product, id: ObjectId, rest: seq<Prod>): seq<Prod> {
    (if p.id == id then [Snapshot(p)] else []) + rest
  }

  lemma FromMatchesCons(products: seq<Product>, id: ObjectId, rest: seq<Prod>)
    requires products != [] && FromMatches(products[1..], id, rest)
    ensures FromMatches(products, id, ConsMatch(products[0], id, rest))
  {
    var tail := products[1..];
    var r := ConsMatch(products[0], id, rest);
    var h := |r| - |rest|;
    forall k | 0 <= k < |r|
      ensures IsMatchSnapshot(products, id, r[k])
    {
      if k < h {
        assert 0 < |products| && products[0].id == id && r[k] == Snapshot(products[0]);
      } else {
        assert r[k] == rest[k - h];
        assert IsMatchSnapshot(tail, id, rest[k - h]);
        var j :| 0 <= j < |tail| && tail[j].id == id && rest[k - h] == Snapshot(tail[j]);
        assert products[j + 1] == tail[j];
        assert 0 <= j + 1 < |products| && products[j + 1].id == id && r[k] == Snapshot(products[j + 1]);
      }
    }
  }

  lemma CoversMatchesCons(products: seq<Product>, id: ObjectId, rest: seq<Prod>)
    requires products != [] && CoversMatches(products[1..], id, rest)
    ensures CoversMatches(products, id, ConsMatch(products[0], id, rest))
  {
    var tail := products[1..];
    var r := ConsMatch(products[0], id, rest);
    forall j | 0 <= j < |products| && products[j].id == id
      ensures Snapshot(products[j]) in r
    {
      if j == 0 {
        assert r[0] == Snapshot(products[0]);
      } else {
        assert tail[j - 1] == products[j];
        assert Snapshot(tail[j - 1]) in rest;
      }
    }
  }

  /** The snapshots of every product whose id is `id`, in collection order. */
  function ProductsWithId(products: seq<Product>, id: ObjectId): (r: seq<Prod>)
    ensures |r| <= |products|
    ensures forall k :: 0 <= k < |r| ==> r[k].id == id
    ensures FromMatches(products, id, r) && CoversMatches(products, id, r)
    ensures |r| == multiset(IdsOf(products))[id]
    ensures r == [] <==> forall j :: 0 <= j < |products| ==> products[j].id != id
  {
    if products == [] then []
    else
      var rest := ProductsWithId(products[1..], id);
      FromMatchesCons(products, id, rest);
      CoversMatchesCons(products, id, rest);
      assert IdsOf(products) == [products[0].id] + IdsOf(products[1..]);
      ConsMatch(products[0], id, rest)
  }

  class ProductCollection {
    var docs: seq<Product>

    constructor (docs: seq<Product>)
      ensures this.docs == docs
    {
      this.docs := docs;
    }

    /** Find({_id: id}) followed by cursor.All into cart snapshots. */
    method FindById(id: ObjectId, ok: bool) returns (r: Result<seq<Prod>, DbError>)
      ensures r == if ok then Ok(ProductsWithId(docs, id)) else Err(Unavailable)
    {
      if !ok {
        return Err(Unavailable);
      }
      r := Ok(ProductsWithId(docs, id));
    }
  }

  /** The first record whose token string is exactly `token`. */
  function FindToken(records: seq<TokenRecord>, token: string): (r: Option<nat>)
    ensures r.Some? ==> r.value < |records| && records[r.value].token == token
    ensures r.Some? ==> forall j :: 0 <= j < r.value ==> records[j].token != token
    ensures r.None? <==> forall j :: 0 <= j < |records| ==> records[j].token != token
  {
    FirstIndex(records, (t: TokenRecord) => t.token == token)
  }

  class TokenCollection {
    var records: seq<TokenRecord>

    constructor (records: seq<TokenRecord>)
      ensures this.records == records
    {
      this.records := records;
    }

    method InsertOne(t: TokenRecord, ok: bool) returns (err: Option<DbError>)
      modifies this
      ensures err == (if ok then None else Some(Unavailable))
      ensures records == if ok then old(records) + [t] else old(records)
    {
      if !ok {
        return Some(Unavailable);
      }
      records := records + [t];
      err := None;
    }
  }

  /** A Redis value with the TTL it was set with (0: no expiry). */
  datatype CacheEntry = CacheEntry(value: string, ttl: Duration)

  /** redis.Nil (no such key) or any other client error. */
  datatype CacheError = Nil | CacheUnavailable

  class CodeCache {
    var entries: map<string, CacheEntry>

    constructor (entries: map<string, CacheEntry>)
      ensures this.entries == entries
    {
      this.entries := entries;
    }

    /** SET key value with a TTL; an existing key is overwritten. */
    method Set(key: string, value: string, ttl: Duration, ok: bool) returns (err: Option<CacheError>)
      modifies this
      ensures err == (if ok then None else Some(CacheUnavailable))
      ensures entries == if ok then old(entries)[key := CacheEntry(value, ttl)] else old(entries)
    {
      if !ok {
        return Some(CacheUnavailable);
      }
      entries := entries[key := CacheEntry(value, ttl)];
      err := None;
    }

    /** GET key: reading never changes the store. On an error the value is
        the empty string, as with go-redis. */
    method Get(key: string, ok: bool) returns (value: string, err: Option<CacheError>)
      ensures !ok ==> value == "" && err == Some(CacheUnavailable)
      ensures ok && key !in entries ==> value == "" && err == Some(Nil)
      ensures ok && key in entries ==> value == entries[key].value && err == None
    {
      if !ok {
        return "", Some(CacheUnavailable);
      }
      if key in entries {
        value, err := entries[key].value, None;
      } else {
        value, err := "", Some(Nil);
      }
    }
  }
}
