/** The product service's cart operation (pkg/services/api/product.go,
    AddToCart): the snapshots of the products with the given id and one new
    cart entry are pushed onto the user's cart. Entries are never merged. */
module ProductService {
  import opened Base
  import opened Models
  import opened Store

  datatype CartError =
    | CantFindProduct              // ErrCantFindProduct: the product query failed
    | UserLookup(cause: DbError)   // the user lookup's own error
    | CantUpdateUser               // ErrCantUpdateUser: the update failed

  /** The update document AddToCart sends: `$push` of the matched snapshots
      onto `userCart.products` and of one entry with count 1 onto
      `userCart.entries`. */
  function CartPush(products: seq<Product>, productId: ObjectId): UserUpdate {
    PushToCart(ProductsWithId(products, productId), [Entry(productId, 1)])
  }

  /** One add appends exactly one entry, with count 1, and exactly the
      matching snapshots; the rest of the user is untouched. */
  lemma AddAppendsOneEntry(u: User, products: seq<Product>, productId: ObjectId)
    ensures var v := Apply(u, CartPush(products, productId));
      && v.cart.entries == u.cart.entries + [Entry(productId, 1)]
      && v.cart.products == u.cart.products + ProductsWithId(products, productId)
      && v.(cart := u.cart) == u
  {
  }

  /** `n` entries equal to `e`. */
  function Repeat(e: Entry, n: nat): (r: seq<Entry>)
    ensures |r| == n
    ensures forall k :: 0 <= k < n ==> r[k] == e
  {
    if n == 0 then [] else Repeat(e, n - 1) + [e]
  }

  lemma SeqAppendAssoc<T>(a: seq<T>, b: seq<T>, c: seq<T>)
    ensures (a + b) + c == a + (b + c)
  {
  }

  /** The user after `n` successive adds of the same product. */
  function AddRepeatedly(u: User, products: seq<Product>, productId: ObjectId, n: nat): User {
    if n == 0 then u else Apply(AddRepeatedly(u, products, productId, n - 1), CartPush(products, productId))
  }

  /** Adding the same product n times leaves n separate entries, each with
      count 1: the count is never incremented. */
  lemma {:induction false} RepeatedAddsDuplicateEntries(u: User, products: seq<Product>, productId: ObjectId, n: nat)
    ensures AddRepeatedly(u, products, productId, n).cart.entries == u.cart.entries + Repeat(Entry(productId, 1), n)
    ensures forall k :: |u.cart.entries| <= k < |AddRepeatedly(u, products, productId, n).cart.entries| ==>
      AddRepeatedly(u, products, productId, n).cart.entries[k].count == 1
  {
    if n > 0 {
      var e := Entry(productId, 1);
      var v := AddRepeatedly(u, products, productId, n - 1);
      RepeatedAddsDuplicateEntries(u, products, productId, n - 1);
      AddAppendsOneEntry(v, products, productId);
      var w := AddRepeatedly(u, products, productId, n).cart.entries;
      assert w == (u.cart.entries + Repeat(e, n - 1)) + [e];
      assert Repeat(e, n) == Repeat(e, n - 1) + [e];
      SeqAppendAssoc(u.cart.entries, Repeat(e, n - 1), [e]);
      forall k | |u.cart.entries| <= k < |w| ensures w[k].count == 1 {
        assert w[k] == Repeat(e, n)[k - |u.cart.entries|];
      }
    }
  }

  predicate UniqueProductIds(products: seq<Product>) {
    forall i, j :: 0 <= i < j < |products| ==> products[i].id != products[j].id
  }

  lemma TailUniqueProductIds(products: seq<Product>)
    requires products != [] && UniqueProductIds(products)
    ensures UniqueProductIds(products[1..])
  {
    var tail := products[1..];
    forall i, j | 0 <= i < j < |tail| ensures tail[i].id != tail[j].id {
      assert tail[i] == products[i + 1] && tail[j] == products[j + 1];
    }
  }

  /** With unique product ids an id occurs at most once, and exactly once
      when some product has it. */
  lemma {:induction false} UniqueIdOccursOnce(products: seq<Product>, productId: ObjectId)
    requires UniqueProductIds(products)
    ensures multiset(IdsOf(products))[productId] == if exists j :: 0 <= j < |products| && products[j].id == productId then 1 else 0
  {
    if products != [] {
      var tail := products[1..];
      assert IdsOf(products) == [products[0].id] + IdsOf(tail);
      TailUniqueProductIds(products);
      UniqueIdOccursOnce(tail, productId);
      if products[0].id == productId {
        forall j | 0 <= j < |tail| ensures tail[j].id != productId {
          assert tail[j] == products[j + 1];
        }
      } else {
        if exists j :: 0 <= j < |products| && products[j].id == productId {
          var j :| 0 <= j < |products| && products[j].id == productId;
          assert tail[j - 1] == products[j];
        }
        if exists j :: 0 <= j < |tail| && tail[j].id == productId {
          var j :| 0 <= j < |tail| && tail[j].id == productId;
          assert products[j + 1] == tail[j];
        }
      }
    }
  }

  /** With unique product ids an add pushes one snapshot when the product
      exists and none when it does not. */
  lemma AtMostOneSnapshot(products: seq<Product>, productId: ObjectId)
    requires UniqueProductIds(products)
    ensures |ProductsWithId(products, productId)| == if exists j :: 0 <= j < |products| && products[j].id == productId then 1 else 0
  {
    UniqueIdOccursOnce(products, productId);
  }

  /** An unknown product id still adds an entry, and no snapshot. */
  lemma MissingProductStillAddsEntry(u: User, products: seq<Product>, productId: ObjectId)
    requires forall j :: 0 <= j < |products| ==> products[j].id != productId
    ensures Apply(u, CartPush(products, productId)).cart == Cart(u.cart.products, u.cart.entries + [Entry(productId, 1)])
  {
  }

  class ProductService {
    const products: ProductCollection
    const users: UserCollection

    constructor (products: ProductCollection, users: UserCollection)
      ensures this.products == products && this.users == users
    {
      this.products := products;
      this.users := users;
    }

    /** AddToCart. `findOk`, `userOk` and `updateOk` say whether the product
        query, the user lookup and the update reach the server. */
    method AddToCart(productId: ObjectId, userId: ObjectId, findOk: bool, userOk: bool, updateOk: bool)
      returns (err: Option<CartError>)
      modifies users
      ensures !findOk ==> err == Some(CantFindProduct) && users.docs == old(users.docs)
      ensures findOk && !userOk ==> err == Some(UserLookup(Unavailable)) && users.docs == old(users.docs)
      ensures findOk && userOk && FirstMatch(old(users.docs), IdIs(userId)).None? ==>
        err == Some(UserLookup(NoDocuments)) && users.docs == old(users.docs)
      ensures findOk && userOk && FirstMatch(old(users.docs), IdIs(userId)).Some? ==>
        if updateOk then
          err == None && users.docs == UpdatedOne(old(users.docs), IdIs(userId), CartPush(products.docs, productId))
        else
          err == Some(CantUpdateUser) && users.docs == old(users.docs)
    {
      var found := products.FindById(productId, findOk);
      if found.Err? {
        return Some(CantFindProduct);
      }
      var user := users.FindOne(IdIs(userId), userOk);
      if user.Err? {
        return Some(UserLookup(user.error));
      }
      var e := users.UpdateOne(IdIs(userId), PushToCart(found.value, [Entry(productId, 1)]), updateOk);
      if e.Some? {
        return Some(CantUpdateUser);
      }
      err := None;
    }
  }
}
